/** The role-binding enumerator (internal/rbac/rbac.go).

    It lists a namespace's bindings from the cluster store and keeps those the
    filters accept. The `continue` after the append ends only the current
    iteration of the loop over FILTERS, so a binding is appended once for every
    filter that accepts it: nothing is deduplicated. */
module Enumerator {
  import opened Wrappers
  import opened K8sRbac
  import opened Filters

  /** The store's `RoleBindings(namespace).List`: the bindings of a namespace
      in listing order, or the store's error. */
  type RoleBindingLister = string -> Result<seq<RoleBinding>, string>

  /** The enumerator's own error, wrapping the store's cause. */
  datatype EnumerateError = RetrievalFailed(cause: string)

  /** The number of filters that accept the binding. */
  function MatchCount(filters: seq<RoleBindingFilter>, rb: RoleBinding): (n: nat)
    ensures n <= |filters|
    ensures n == 0 <==> forall j :: 0 <= j < |filters| ==> !Matches(filters[j], rb)
  {
    if |filters| == 0 then 0
    else
      var n := MatchCount(filters[..|filters| - 1], rb);
      assert forall j :: 0 <= j < |filters| - 1 ==> filters[..|filters| - 1][j] == filters[j];
      n + if Matches(filters[|filters| - 1], rb) then 1 else 0
  }

  /** What the loop over the filters appends for one binding: one copy of it
      per accepting filter. */
  function Copies(rb: RoleBinding, filters: seq<RoleBindingFilter>): seq<RoleBinding>
  {
    if |filters| == 0 then []
    else Copies(rb, filters[..|filters| - 1]) + if Matches(filters[|filters| - 1], rb) then [rb] else []
  }

  /** What the loop over the listed bindings accumulates: the copies of each
      binding, binding after binding, in listing order. */
  function Filtered(items: seq<RoleBinding>, filters: seq<RoleBindingFilter>): seq<RoleBinding>
  {
    if |items| == 0 then []
    else Filtered(items[..|items| - 1], filters) + Copies(items[|items| - 1], filters)
  }

  /** `EnumberateByRoleBindings`: a store error is returned wrapped, with no
      bindings and no filtering; otherwise the filtered listing. */
  method EnumerateByRoleBindings(client: RoleBindingLister, namespace: string, filters: seq<RoleBindingFilter>)
    returns (r: Result<seq<RoleBinding>, EnumerateError>)
    ensures client(namespace).Failure? ==> r == Failure(RetrievalFailed(client(namespace).error))
    ensures client(namespace).Success? ==> r == Success(Filtered(client(namespace).value, filters))
  {
    var listed := client(namespace);
    if listed.Failure? {
      return Failure(RetrievalFailed(listed.error));
    }
    var items := listed.value;
    var filtered: seq<RoleBinding> := [];
    for i := 0 to |items|
      invariant filtered == Filtered(items[..i], filters)
    {
      assert items[..i + 1][..i] == items[..i];
      for j := 0 to |filters|
        invariant filtered == Filtered(items[..i], filters) + Copies(items[i], filters[..j])
      {
        assert filters[..j + 1][..j] == filters[..j];
        if Matches(filters[j], items[i]) {
          filtered := filtered + [items[i]];
        }
      }
      assert filters[..|filters|] == filters;
    }
    assert items[..|items|] == items;
    return Success(filtered);
  }

  /** Listing one more binding appends its copies to the result. */
  lemma FilteredSnoc(items: seq<RoleBinding>, rb: RoleBinding, filters: seq<RoleBindingFilter>)
    ensures Filtered(items + [rb], filters) == Filtered(items, filters) + Copies(rb, filters)
  {
    assert (items + [rb])[..|items|] == items;
  }

  /** No deduplication: a binding accepted by two filters is kept twice. */
  lemma TwoAcceptingFiltersKeepTwoCopies(rb: RoleBinding, f: RoleBindingFilter, g: RoleBindingFilter)
    requires Matches(f, rb) && Matches(g, rb)
    ensures Filtered([rb], [f, g]) == [rb, rb]
  {
    FilteredSnoc([], rb, [f, g]);
    assert [] + [rb] == [rb];
    CopiesAreMatchCountCopies(rb, [f, g]);
    assert [f, g][..1] == [f] && [f][..0] == [];
  }

  /** One binding's copies: exactly `MatchCount` of them, each the binding itself. */
  lemma {:induction false} CopiesAreMatchCountCopies(rb: RoleBinding, filters: seq<RoleBindingFilter>)
    ensures |Copies(rb, filters)| == MatchCount(filters, rb)
    ensures forall k :: 0 <= k < |Copies(rb, filters)| ==> Copies(rb, filters)[k] == rb
  {
    if |filters| > 0 {
      CopiesAreMatchCountCopies(rb, filters[..|filters| - 1]);
    }
  }

  /** Record-major order: the result for a listing split in two is the result
      for the first part followed by the result for the second, so every copy
      of an earlier-listed binding precedes every copy of a later one. */
  lemma {:induction false} FilteredDistributes(a: seq<RoleBinding>, b: seq<RoleBinding>, filters: seq<RoleBindingFilter>)
    ensures Filtered(a + b, filters) == Filtered(a, filters) + Filtered(b, filters)
    decreases |b|
  {
    if |b| == 0 {
      assert a + b == a;
    } else {
      var b', last := b[..|b| - 1], b[|b| - 1];
      assert b == b' + [last];
      assert a + b == (a + b') + [last];
      calc {
        Filtered(a + b, filters);
      == { FilteredSnoc(a + b', last, filters); }
        Filtered(a + b', filters) + Copies(last, filters);
      == { FilteredDistributes(a, b', filters); }
        Filtered(a, filters) + (Filtered(b', filters) + Copies(last, filters));
      == { FilteredSnoc(b', last, filters); }
        Filtered(a, filters) + Filtered(b, filters);
      }
    }
  }

  /** With no filters nothing is kept, whatever the store lists. */
  lemma {:induction false} FilteredWithoutFilters(items: seq<RoleBinding>)
    ensures Filtered(items, []) == []
  {
    if |items| > 0 {
      FilteredWithoutFilters(items[..|items| - 1]);
    }
  }

  /** Exact multiplicity: a binding listed m times and accepted by n filters
      appears m * n times in the result. */
  lemma {:induction false} FilteredMultiplicity(items: seq<RoleBinding>, filters: seq<RoleBindingFilter>, x: RoleBinding)
    ensures multiset(Filtered(items, filters))[x] == multiset(items)[x] * MatchCount(filters, x)
  {
    if |items| > 0 {
      var init, last := items[..|items| - 1], items[|items| - 1];
      var kept, copies := Filtered(init, filters), Copies(last, filters);
      assert items == init + [last];
      FilteredSnoc(init, last, filters);
      CountOfConcat(kept, copies, x);
      CountOfConcat(init, [last], x);
      FilteredMultiplicity(init, filters, x);
      CopiesMultiplicity(last, filters, x);
      OneMoreRow(multiset(init)[x], multiset([last])[x], MatchCount(filters, x),
        multiset(kept)[x], multiset(copies)[x]);
    }
  }

  /** Occurrences in a concatenation add up. */
  lemma CountOfConcat(a: seq<RoleBinding>, b: seq<RoleBinding>, x: RoleBinding)
    ensures multiset(a + b)[x] == multiset(a)[x] + multiset(b)[x]
  {
    assert multiset(a + b) == multiset(a) + multiset(b);
  }

  // Arithmetic steps of the proofs here, kept apart so the solver sees them alone.

  /** m rows of n plus a row of n when `h` is 1 make (m + h) rows of n. */
  lemma OneMoreRow(m: nat, h: nat, n: nat, kept: nat, copies: nat)
    requires h <= 1
    requires kept == m * n
    requires copies == if h == 1 then n else 0
    ensures kept + copies == (m + h) * n
  {}

  lemma ProductPositive(m: nat, n: nat)
    ensures m * n > 0 <==> m > 0 && n > 0
  {}

  /** The copies of `rb` hold `MatchCount` occurrences of `rb` and nothing else. */
  lemma {:induction false} CopiesMultiplicity(rb: RoleBinding, filters: seq<RoleBindingFilter>, x: RoleBinding)
    ensures multiset(Copies(rb, filters))[x] == if x == rb then MatchCount(filters, rb) else 0
  {
    if |filters| > 0 {
      CopiesMultiplicity(rb, filters[..|filters| - 1], x);
    }
  }

  /** A binding is in the result exactly when the store listed it and at least
      one filter accepts it; in particular every element of the result is an
      unmodified listed binding, and a binding no filter accepts is absent. */
  lemma FilteredMembership(items: seq<RoleBinding>, filters: seq<RoleBindingFilter>, x: RoleBinding)
    ensures x in Filtered(items, filters) <==>
      x in items && exists j :: 0 <= j < |filters| && Matches(filters[j], x)
  {
    FilteredMultiplicity(items, filters, x);
    ProductPositive(multiset(items)[x], MatchCount(filters, x));
  }
}
