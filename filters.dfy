/** Role-binding filters (internal/rbac/filters.go).

    In the service a filter is a Go closure over a binding. Here it is a tagged
    value, evaluated by one function, `Matches`. A compiled regular expression
    is modelled by its `MatchString` behaviour alone: an arbitrary predicate on
    subject names, about which nothing is assumed. */
module Filters {
  import opened K8sRbac

  /** A compiled regular expression: its source text and its `MatchString`. */
  datatype Matcher = Matcher(expr: string, matchString: string -> bool)

  /** `FilterBySubjectName(name)` or `FilterBySubjectNameRegex(matcher)`. */
  datatype RoleBindingFilter =
    | Exact(subjectName: string)
    | Pattern(matcher: Matcher)

  /** Does the filter accept one subject name? */
  predicate AcceptsName(f: RoleBindingFilter, name: string)
  {
    match f
    case Exact(n) => name == n
    case Pattern(m) => m.matchString(name)
  }

  /** The loop over a binding's subjects: it returns true at the first
      subject whose name the filter accepts, false when it runs out. */
  function AnySubject(f: RoleBindingFilter, subjects: seq<Subject>): (found: bool)
    ensures found <==> exists i :: 0 <= i < |subjects| && AcceptsName(f, subjects[i].name)
  {
    if |subjects| == 0 then false
    else if AcceptsName(f, subjects[0].name) then true
    else
      var found := AnySubject(f, subjects[1..]);
      assert forall i :: 0 < i < |subjects| ==> subjects[i] == subjects[1..][i - 1];
      found
  }

  /** Applies a filter to a binding. */
  function Matches(f: RoleBindingFilter, rb: RoleBinding): (r: bool)
    ensures |rb.subjects| == 0 ==> !r
    ensures f.Exact? ==>
      (r <==> exists i :: 0 <= i < |rb.subjects| && rb.subjects[i].name == f.subjectName)
    ensures f.Pattern? ==>
      (r <==> exists i :: 0 <= i < |rb.subjects| && f.matcher.matchString(rb.subjects[i].name))
  {
    AnySubject(f, rb.subjects)
  }

  /** Only the set of subject names matters: kinds, namespaces, order and
      repetition of subjects never change whether a filter matches. */
  lemma MatchesDependsOnlyOnNames(f: RoleBindingFilter, a: RoleBinding, b: RoleBinding)
    requires SubjectNameSet(a) == SubjectNameSet(b)
    ensures Matches(f, a) == Matches(f, b)
  {
    if Matches(f, a) {
      var i :| 0 <= i < |a.subjects| && AcceptsName(f, a.subjects[i].name);
      assert a.subjects[i].name in SubjectNameSet(b);
    }
    if Matches(f, b) {
      var i :| 0 <= i < |b.subjects| && AcceptsName(f, b.subjects[i].name);
      assert b.subjects[i].name in SubjectNameSet(a);
    }
  }

  /** Reordering (or otherwise permuting) a binding's subjects does not change
      whether a filter matches it. */
  lemma MatchesIgnoresSubjectOrder(f: RoleBindingFilter, rb: RoleBinding, subjects: seq<Subject>)
    requires multiset(subjects) == multiset(rb.subjects)
    ensures Matches(f, rb.(subjects := subjects)) == Matches(f, rb)
  {
    var rb' := rb.(subjects := subjects);
    forall n | n in SubjectNameSet(rb) ensures n in SubjectNameSet(rb') {
      var i :| 0 <= i < |rb.subjects| && rb.subjects[i].name == n;
      assert rb.subjects[i] in multiset(subjects);
      var j :| 0 <= j < |subjects| && subjects[j] == rb.subjects[i];
      assert subjects[j].name == n;
    }
    forall n | n in SubjectNameSet(rb') ensures n in SubjectNameSet(rb) {
      var j :| 0 <= j < |subjects| && subjects[j].name == n;
      assert subjects[j] in multiset(rb.subjects);
      var i :| 0 <= i < |rb.subjects| && rb.subjects[i] == subjects[j];
      assert rb.subjects[i].name == n;
    }
    MatchesDependsOnlyOnNames(f, rb, rb');
  }

  /** Changing a subject's kind or namespace never changes the outcome. */
  lemma MatchesIgnoresKindAndNamespace(f: RoleBindingFilter, rb: RoleBinding, k: nat, kind: string, namespace: string)
    requires k < |rb.subjects|
    ensures Matches(f, rb.(subjects := rb.subjects[k := Subject(kind, rb.subjects[k].name, namespace)])) == Matches(f, rb)
  {
    var rb' := rb.(subjects := rb.subjects[k := Subject(kind, rb.subjects[k].name, namespace)]);
    assert SubjectNameSet(rb') == SubjectNameSet(rb) by {
      forall n ensures n in SubjectNameSet(rb') <==> n in SubjectNameSet(rb) {
        if n in SubjectNameSet(rb) {
          var i :| 0 <= i < |rb.subjects| && rb.subjects[i].name == n;
          assert rb'.subjects[i].name == n;
        }
        if n in SubjectNameSet(rb') {
          var i :| 0 <= i < |rb'.subjects| && rb'.subjects[i].name == n;
          assert rb.subjects[i].name == n;
        }
      }
    }
    MatchesDependsOnlyOnNames(f, rb, rb');
  }

  /** Monotonicity: inserting a subject anywhere makes the filter match exactly
      when it matched before or accepts the new subject's name. So it can turn
      false into true but never true into false. */
  lemma MatchesAfterAddingSubject(f: RoleBindingFilter, rb: RoleBinding, k: nat, s: Subject)
    requires k <= |rb.subjects|
    ensures Matches(f, rb.(subjects := rb.subjects[..k] + [s] + rb.subjects[k..]))
        == (Matches(f, rb) || AcceptsName(f, s.name))
  {
    var subjects := rb.subjects[..k] + [s] + rb.subjects[k..];
    var rb' := rb.(subjects := subjects);
    assert subjects[k] == s;
    assert forall i :: 0 <= i < k ==> subjects[i] == rb.subjects[i];
    assert forall i :: k <= i < |rb.subjects| ==> subjects[i + 1] == rb.subjects[i];
    if Matches(f, rb') {
      var i :| 0 <= i < |subjects| && AcceptsName(f, subjects[i].name);
      if i < k {
        assert AcceptsName(f, rb.subjects[i].name);
      } else if k < i {
        assert AcceptsName(f, rb.subjects[i - 1].name);
      }
    }
  }
}
