/** The request handler `RbacEnummerateByBindings` (internal/api/api.go).

    A linear state machine: decode the request, check the namespace, check
    the subject names, turn every subject name into a filter, enumerate, sort
    by role name, respond. The first failing step decides the response and
    nothing after it happens.

    Decoding is left to gin and is given here as its outcome (`None` when the
    body could not be decoded). Regular-expression compilation and the
    enumerator are given as functions, so every engine and every enumerator
    (including the mocks of the tests) is covered. */
module Api {
  import opened Wrappers
  import opened K8sRbac
  import opened Filters
  import opened Enumerator
  import opened Sorting
  import opened Renderers

  const StatusOK := 200
  const StatusBadRequest := 400
  const StatusInternalServerError := 500

  const CouldNotParse := "could not parse request"
  const MissingNamespace := "missing namespace in request"
  const MissingSubjectNames := "missing subject names in request"
  const InvalidSubjectName := "invalid regular expression or subject name"
  const CouldNotRetrieve := "could not retrieve role bindings"

  /** The decoded request body. */
  datatype Request = Request(namespace: string, subjectNames: seq<string>)

  /** What a response carries: an error message or the bindings found. */
  datatype Body = Message(text: string) | RoleBindings(items: seq<RoleBinding>)

  /** `c.Render(status, renderer)`. */
  datatype Response = Response(status: int, render: Render<Body>)

  /** `regexp.Compile`: a matcher, or `None` when the expression does not compile. */
  type RegexpCompiler = string -> Option<Matcher>

  /** The `rbac.Enumerator` the API was built with. */
  type RoleBindingEnumerator = (string, seq<RoleBindingFilter>) -> Result<seq<RoleBinding>, EnumerateError>

  /** The arguments the handler passed to the enumerator. */
  datatype EnumerateCall = EnumerateCall(namespace: string, filters: seq<RoleBindingFilter>)

  /** A character of the class `[0-9A-Za-z]`. */
  predicate IsAlphanumeric(c: char)
  {
    '0' <= c <= '9' || 'A' <= c <= 'Z' || 'a' <= c <= 'z'
  }

  /** `roleBindingExactSubjectNameRegexp.MatchString`, for `^[0-9A-Za-z]+$`:
      one or more characters, all of the class. */
  function IsExactSubjectName(s: string): (r: bool)
    ensures r <==> |s| > 0 && forall i :: 0 <= i < |s| ==> IsAlphanumeric(s[i])
  {
    if |s| == 0 then false
    else if |s| == 1 then IsAlphanumeric(s[0])
    else
      var rest := IsExactSubjectName(s[1..]);
      assert forall i :: 1 <= i < |s| ==> s[i] == s[1..][i - 1];
      IsAlphanumeric(s[0]) && rest
  }

  /** One iteration of the handler's loop: an exact filter for a plain name,
      otherwise a pattern filter if the name compiles as a regular expression. */
  function CompileSubjectName(subjectName: string, compile: RegexpCompiler): Option<RoleBindingFilter>
  {
    if IsExactSubjectName(subjectName) then Some(Exact(subjectName))
    else
      match compile(subjectName)
      case None => None
      case Some(m) => Some(Pattern(m))
  }

  /** Every subject name yields a filter. */
  predicate AllCompile(subjectNames: seq<string>, compile: RegexpCompiler)
  {
    forall i :: 0 <= i < |subjectNames| ==> CompileSubjectName(subjectNames[i], compile).Some?
  }

  /** A plain alphanumeric name always becomes an exact filter on itself,
      whatever the regular-expression engine would say about it. */
  lemma PlainNameIsExact(subjectName: string, compile: RegexpCompiler)
    requires |subjectName| > 0
    requires forall i :: 0 <= i < |subjectName| ==> IsAlphanumeric(subjectName[i])
    ensures CompileSubjectName(subjectName, compile) == Some(Exact(subjectName))
  {
  }

  /** Any other name, the empty one included, is decided by regular-expression
      compilation alone. */
  lemma OtherNameIsPattern(subjectName: string, compile: RegexpCompiler)
    requires subjectName == "" || exists i :: 0 <= i < |subjectName| && !IsAlphanumeric(subjectName[i])
    ensures CompileSubjectName(subjectName, compile) ==
      match compile(subjectName)
      case None => None
      case Some(m) => Some(Pattern(m))
  {
  }

  /** An error response with the given status and message. */
  function ErrorResponse(status: int, contentType: string, message: string): Response
  {
    Response(status, Renderer(contentType, Message(message)))
  }

  /** `RbacEnummerateByBindings`. Besides the response it returns the call
      made to the enumerator, `None` when the enumerator was not called. */
  method RbacEnumerateByBindings(
    parsed: Option<Request>,
    contentType: string,
    compile: RegexpCompiler,
    enumerate: RoleBindingEnumerator)
    returns (resp: Response, call: Option<EnumerateCall>)
    // The checks in order; the first that fails decides the response.
    ensures parsed.None? ==>
      resp == ErrorResponse(StatusBadRequest, contentType, CouldNotParse) && call.None?
    ensures parsed.Some? && parsed.value.namespace == "" ==>
      resp == ErrorResponse(StatusBadRequest, contentType, MissingNamespace) && call.None?
    ensures parsed.Some? && parsed.value.namespace != "" && |parsed.value.subjectNames| == 0 ==>
      resp == ErrorResponse(StatusBadRequest, contentType, MissingSubjectNames) && call.None?
    ensures (parsed.Some? && parsed.value.namespace != "" && |parsed.value.subjectNames| > 0
             && !AllCompile(parsed.value.subjectNames, compile)) ==>
      resp == ErrorResponse(StatusBadRequest, contentType, InvalidSubjectName) && call.None?
    // The enumerator is called exactly when every check passed, with the
    // namespace as given and filter i built from subject name i.
    ensures call.Some? <==>
      (parsed.Some? && parsed.value.namespace != "" && |parsed.value.subjectNames| > 0
       && AllCompile(parsed.value.subjectNames, compile))
    ensures call.Some? ==>
      && call.value.namespace == parsed.value.namespace
      && |call.value.filters| == |parsed.value.subjectNames|
      && forall i :: 0 <= i < |call.value.filters| ==>
           CompileSubjectName(parsed.value.subjectNames[i], compile) == Some(call.value.filters[i])
    // Its error becomes 500; its result, sorted, becomes the 200 body.
    ensures call.Some? && enumerate(call.value.namespace, call.value.filters).Failure? ==>
      resp == ErrorResponse(StatusInternalServerError, contentType, CouldNotRetrieve)
    ensures call.Some? && enumerate(call.value.namespace, call.value.filters).Success? ==>
      && resp.status == StatusOK
      && resp.render == Renderer(contentType, resp.render.data)
      && resp.render.data.RoleBindings?
      && SortedByRoleName(resp.render.data.items)
      && multiset(resp.render.data.items) == multiset(enumerate(call.value.namespace, call.value.filters).value)
  {
    call := None;
    if parsed.None? {
      return ErrorResponse(StatusBadRequest, contentType, CouldNotParse), None;
    }
    var req := parsed.value;
    if req.namespace == "" {
      return ErrorResponse(StatusBadRequest, contentType, MissingNamespace), None;
    }
    if |req.subjectNames| == 0 {
      return ErrorResponse(StatusBadRequest, contentType, MissingSubjectNames), None;
    }

    var filters := new RoleBindingFilter[|req.subjectNames|];
    for i := 0 to |req.subjectNames|
      invariant forall k :: 0 <= k < i ==> CompileSubjectName(req.subjectNames[k], compile) == Some(filters[k])
    {
      var subjectName := req.subjectNames[i];
      if IsExactSubjectName(subjectName) {
        filters[i] := Exact(subjectName);
        continue;
      }
      var subjectNameRegexp := compile(subjectName);
      if subjectNameRegexp.None? {
        return ErrorResponse(StatusBadRequest, contentType, InvalidSubjectName), None;
      }
      filters[i] := Pattern(subjectNameRegexp.value);
    }

    call := Some(EnumerateCall(req.namespace, filters[..]));
    var listed := enumerate(req.namespace, filters[..]);
    if listed.Failure? {
      return ErrorResponse(StatusInternalServerError, contentType, CouldNotRetrieve), call;
    }

    var found := listed.value;
    var roleBindings := new RoleBinding[|found|](k requires 0 <= k < |found| => found[k]);
    assert roleBindings[..] == found;
    SortByRoleName(roleBindings);
    resp := Response(StatusOK, Renderer(contentType, RoleBindings(roleBindings[..])));
  }
}
