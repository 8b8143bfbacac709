/** The sample bindings of internal/rbac/fixtures/fixtures.go and the
    scenarios the tests run against the enumerator and the handler. */
module Scenarios {
  import opened Wrappers
  import opened K8sRbac
  import opened GoStrings
  import opened Filters
  import opened Enumerator
  import opened Sorting
  import opened Renderers
  import opened Api

  const Default := "default"

  const RoleBindingRole1Subject1 := RoleBinding(
    "role1-for-subject1", Default, [Subject("User", "subject1", "")], RoleRef("", "", "role1"))

  const RoleBindingRole2Subject2 := RoleBinding(
    "role2-for-subject2", Default, [Subject("User", "subject2", "")], RoleRef("", "", "role2"))

  const RoleBindingRole3Subject3and4 := RoleBinding(
    "role3-for-subject3and4", Default,
    [Subject("User", "subject3", ""), Subject("", "subject4", Default)],
    RoleRef("", "", "role3"))

  /** The behaviour of Go's compiled `subject[3,4]`: unanchored, it matches a
      name containing "subject" followed by '3', ',' or '4'. */
  const Subject3Or4 := Matcher("subject[3,4]",
    name => Contains(name, "subject3") || Contains(name, "subject,") || Contains(name, "subject4"))

  /** A regular-expression engine that knows the expressions of the tests:
      `subject[3,4]` compiles, `[[` (an unclosed class) does not. */
  function TestCompile(expr: string): Option<Matcher>
  {
    if expr == "subject[3,4]" then Some(Subject3Or4) else None
  }

  const SubjectNames := ["subject1", "subject2", "subject[3,4]"]

  const TestFilters := [Exact("subject1"), Exact("subject2"), Pattern(Subject3Or4)]

  /** The three fixtures in role-name order. */
  const Ordered := [RoleBindingRole1Subject1, RoleBindingRole2Subject2, RoleBindingRole3Subject3and4]

  /** Each fixture is accepted by exactly one of the three test filters. */
  lemma FixtureMatches()
    ensures Matches(TestFilters[0], RoleBindingRole1Subject1)
    ensures !Matches(TestFilters[1], RoleBindingRole1Subject1)
    ensures !Matches(TestFilters[2], RoleBindingRole1Subject1)
    ensures !Matches(TestFilters[0], RoleBindingRole2Subject2)
    ensures Matches(TestFilters[1], RoleBindingRole2Subject2)
    ensures !Matches(TestFilters[2], RoleBindingRole2Subject2)
    ensures !Matches(TestFilters[0], RoleBindingRole3Subject3and4)
    ensures !Matches(TestFilters[1], RoleBindingRole3Subject3and4)
    ensures Matches(TestFilters[2], RoleBindingRole3Subject3and4)
  {
    assert OccursAt("subject3", "subject3", 0);
    NoSubject3Or4("subject1");
    NoSubject3Or4("subject2");
  }

  // "subject1" and "subject2" are not accepted by `subject[3,4]`.
  lemma NoSubject3Or4(name: string)
    requires name == "subject1" || name == "subject2"
    ensures !Subject3Or4.matchString(name)
  {
    forall i: nat
      ensures !OccursAt(name, "subject3", i) && !OccursAt(name, "subject,", i) && !OccursAt(name, "subject4", i)
    {
      if i == 0 {
        assert name[0..8] == name;
      }
    }
  }

  /** The fixtures, listed in any order, come back whole and in listing
      order: one copy each, since each is accepted by exactly one filter. */
  lemma {:induction false} FilteredFixtures(a: RoleBinding, b: RoleBinding, c: RoleBinding)
    requires multiset{a, b, c} == multiset(Ordered)
    ensures Filtered([a, b, c], TestFilters) == [a, b, c]
  {
    assert a in multiset(Ordered) && b in multiset(Ordered) && c in multiset(Ordered);
    FixtureCopiedOnce(a);
    FixtureCopiedOnce(b);
    FixtureCopiedOnce(c);
    FilteredWhenCopiedOnce(a, b, c, TestFilters);
  }

  // Three bindings, each copied once, are kept once each in listing order.
  lemma FilteredWhenCopiedOnce(a: RoleBinding, b: RoleBinding, c: RoleBinding, fs: seq<RoleBindingFilter>)
    requires Copies(a, fs) == [a] && Copies(b, fs) == [b] && Copies(c, fs) == [c]
    ensures Filtered([a, b, c], fs) == [a, b, c]
  {
    FilteredSnoc([], a, fs);
    assert [] + [a] == [a];
    FilteredSnoc([a], b, fs);
    assert [a] + [b] == [a, b];
    FilteredSnoc([a, b], c, fs);
    assert [a, b] + [c] == [a, b, c];
  }

  // Each fixture is copied exactly once by the test filters.
  lemma FixtureCopiedOnce(x: RoleBinding)
    requires x in multiset(Ordered)
    ensures Copies(x, TestFilters) == [x]
  {
    FixtureMatches();
    CopiedOnceByOneOfThree(x, TestFilters);
  }

  // A binding accepted by exactly one of three filters is copied once.
  lemma CopiedOnceByOneOfThree(x: RoleBinding, fs: seq<RoleBindingFilter>)
    requires |fs| == 3
    requires (if Matches(fs[0], x) then 1 else 0) + (if Matches(fs[1], x) then 1 else 0)
           + (if Matches(fs[2], x) then 1 else 0) == 1
    ensures Copies(x, fs) == [x]
  {
    CopiesAreMatchCountCopies(x, fs);
    assert fs[..2][..1] == fs[..1] && fs[..1][..0] == [];
    assert fs[..2][1] == fs[1] && fs[..1][0] == fs[0];
  }

  /** rbac_test.go, first case: the store holds the three fixtures and the
      three filters select all three, in store order. */
  method EnumerateFixtures() returns (r: Result<seq<RoleBinding>, EnumerateError>)
    ensures r == Success(Ordered)
  {
    var store: RoleBindingLister := ns => if ns == Default then Success(Ordered) else Success([]);
    r := EnumerateByRoleBindings(store, Default, TestFilters);
    FilteredFixtures(Ordered[0], Ordered[1], Ordered[2]);
  }

  /** rbac_test.go, second case: a failing store makes the enumerator fail. */
  method EnumerateWithFailingStore() returns (r: Result<seq<RoleBinding>, EnumerateError>)
    ensures r == Failure(RetrievalFailed("something went wrong"))
  {
    var store: RoleBindingLister := ns => Failure("something went wrong");
    r := EnumerateByRoleBindings(store, Default, [Exact("does-not-matter")]);
  }

  /** The test names compile to the test filters: the two plain names to
      exact filters, `subject[3,4]` to the pattern filter. */
  lemma TestNamesCompile()
    ensures AllCompile(SubjectNames, TestCompile)
    ensures forall i :: 0 <= i < 3 ==> CompileSubjectName(SubjectNames[i], TestCompile) == Some(TestFilters[i])
  {
    forall i | 0 <= i < 3
      ensures CompileSubjectName(SubjectNames[i], TestCompile) == Some(TestFilters[i])
    {
      if i < 2 {
        PlainNameCompiles(SubjectNames[i]);
      } else {
        PatternNameCompiles();
      }
    }
  }

  // "subject[3,4]" is not a plain name and compiles to the pattern filter.
  lemma PatternNameCompiles()
    ensures CompileSubjectName("subject[3,4]", TestCompile) == Some(Pattern(Subject3Or4))
  {
    assert !IsAlphanumeric("subject[3,4]"[7]);
  }

  // "subject1" and "subject2" are exact names.
  lemma PlainNameCompiles(name: string)
    requires name == "subject1" || name == "subject2"
    ensures CompileSubjectName(name, TestCompile) == Some(Exact(name))
  {
    assert forall i :: 0 <= i < |name| ==> IsAlphanumeric(name[i]);
  }

  /** Any listing of the three fixtures is answered, sorted, with the
      fixtures in role-name order. */
  lemma {:induction false} OnlyOrderIsOrdered(items: seq<RoleBinding>, listed: seq<RoleBinding>)
    requires multiset(listed) == multiset(Ordered)
    requires SortedByRoleName(items) && multiset(items) == multiset(listed)
    ensures items == Ordered
  {
    assert Less("role1", "role2") && Less("role1", "role3") && Less("role2", "role3");
    assert SortedByRoleName(Ordered) && DistinctRoleNames(Ordered);
    SortedPermutationUnique(Ordered, items);
  }

  /** api_test.go, first three cases: the fixtures come back from the
      enumerator out of order and the response lists them by role name,
      in the format of the request's content type. */
  method HandleOutOfOrderFixtures(contentType: string, a: RoleBinding, b: RoleBinding, c: RoleBinding)
    returns (resp: Response)
    requires multiset{a, b, c} == multiset(Ordered)
    ensures resp == Response(StatusOK, Renderer(contentType, RoleBindings(Ordered)))
  {
    var enumerate: RoleBindingEnumerator := (ns, fs) => Success([a, b, c]);
    var call;
    resp, call := RbacEnumerateByBindings(Some(Request(Default, SubjectNames)), contentType, TestCompile, enumerate);
    TestNamesCompile();
    OnlyOrderIsOrdered(resp.render.data.items, [a, b, c]);
  }

  /** api_test.go, first case: the real enumerator over a store that lists
      role 3, role 1, role 2 in the namespace "default". */
  method HandleWithFakeStore(contentType: string) returns (resp: Response)
    ensures resp == Response(StatusOK, Renderer(contentType, RoleBindings(Ordered)))
  {
    var listing := [RoleBindingRole3Subject3and4, RoleBindingRole1Subject1, RoleBindingRole2Subject2];
    var store: RoleBindingLister := ns => if ns == Default then Success(listing) else Success([]);
    // What EnumerateByRoleBindings returns over that store.
    var enumerate: RoleBindingEnumerator := (ns, fs) =>
      match store(ns)
      case Failure(e) => Failure(RetrievalFailed(e))
      case Success(items) => Success(Filtered(items, fs));
    var call;
    resp, call := RbacEnumerateByBindings(Some(Request(Default, SubjectNames)), contentType, TestCompile, enumerate);
    TestNamesCompile();
    assert call.value.filters == TestFilters;
    FilteredFixtures(listing[0], listing[1], listing[2]);
    OnlyOrderIsOrdered(resp.render.data.items, listing);
  }

  /** api_test.go, rbac error case: the enumerator fails, the response is 500. */
  method HandleEnumeratorError(contentType: string) returns (resp: Response)
    ensures resp == ErrorResponse(StatusInternalServerError, contentType, CouldNotRetrieve)
  {
    var enumerate: RoleBindingEnumerator := (ns, fs) => Failure(RetrievalFailed("some error"));
    var call;
    PatternNameCompiles();
    resp, call := RbacEnumerateByBindings(Some(Request(Default, ["subject[3,4]"])), contentType, TestCompile, enumerate);
  }

  /** api_test.go, invalid expression case: `[[` does not compile, 400. */
  method HandleInvalidExpression(contentType: string, enumerate: RoleBindingEnumerator)
    returns (resp: Response, call: Option<EnumerateCall>)
    ensures resp == ErrorResponse(StatusBadRequest, contentType, InvalidSubjectName)
    ensures call.None?
  {
    assert !AllCompile(["[["], TestCompile) by {
      assert !IsAlphanumeric("[["[0]);
      assert TestCompile("[[") == None;
      assert CompileSubjectName(["[["][0], TestCompile) == None;
    }
    resp, call := RbacEnumerateByBindings(Some(Request(Default, ["[["])), contentType, TestCompile, enumerate);
  }

  /** api_test.go, invalid body, missing namespace and missing subject names:
      each is a 400 with its own message, and the enumerator is never called. */
  method HandleIncompleteRequests(contentType: string, enumerate: RoleBindingEnumerator)
    returns (unparsed: Response, noNamespace: Response, noNames: Response)
    ensures unparsed == ErrorResponse(StatusBadRequest, contentType, CouldNotParse)
    ensures noNamespace == ErrorResponse(StatusBadRequest, contentType, MissingNamespace)
    ensures noNames == ErrorResponse(StatusBadRequest, contentType, MissingSubjectNames)
  {
    var call;
    unparsed, call := RbacEnumerateByBindings(None, contentType, TestCompile, enumerate);
    noNamespace, call := RbacEnumerateByBindings(Some(Request("", ["subject1"])), contentType, TestCompile, enumerate);
    noNames, call := RbacEnumerateByBindings(Some(Request(Default, [])), contentType, TestCompile, enumerate);
  }
}
