/** Sorting role bindings by role name, the step the handler performs with
    `sort.Slice` (internal/api/api.go).

    `sort.Slice` is not stable, so all it promises is what is proved here: the
    result is a permutation of the input in which no binding's role name is
    less than that of a binding before it. The order of bindings with equal
    role names is left open; it is fixed only when role names are distinct
    (`SortedPermutationUnique`). */
module Sorting {
  import opened K8sRbac
  import opened GoStrings

  /** The less function given to `sort.Slice`: `a.RoleRef.Name < b.RoleRef.Name`. */
  predicate RoleNameLess(a: RoleBinding, b: RoleBinding)
  {
    Less(a.roleRef.name, b.roleRef.name)
  }

  /** `a` may come before `b`: `b`'s role name is not less than `a`'s. */
  predicate InOrder(a: RoleBinding, b: RoleBinding)
  {
    !RoleNameLess(b, a)
  }

  /** Ascending by role name, as `sort.Slice` leaves it. */
  ghost predicate SortedByRoleName(s: seq<RoleBinding>)
  {
    forall i, j :: 0 <= i < j < |s| ==> InOrder(s[i], s[j])
  }

  /** No two bindings share a role name. */
  ghost predicate DistinctRoleNames(s: seq<RoleBinding>)
  {
    forall i, j :: 0 <= i < j < |s| ==> s[i].roleRef.name != s[j].roleRef.name
  }

  /** "May come before" is transitive (it is a total preorder). */
  lemma InOrderTransitive(a: RoleBinding, b: RoleBinding, c: RoleBinding)
    requires InOrder(a, b) && InOrder(b, c)
    ensures InOrder(a, c)
  {
    var x, y, z := a.roleRef.name, b.roleRef.name, c.roleRef.name;
    if x != y && y != z {
      LessTotal(x, y);
      LessTotal(y, z);
      LessTransitive(x, y, z);
      LessAsymmetric(x, z);
    }
  }

  /** A binding whose role name is less than another's may come before it. */
  lemma LessIsInOrder(a: RoleBinding, b: RoleBinding)
    requires RoleNameLess(a, b)
    ensures InOrder(a, b)
  {
    LessAsymmetric(a.roleRef.name, b.roleRef.name);
  }

  /** When role names are distinct, the sorted order is unique: any two
      sorted permutations of the same bindings are equal. So the handler's
      response is fully determined unless role names repeat. */
  lemma {:induction false} SortedPermutationUnique(s: seq<RoleBinding>, t: seq<RoleBinding>)
    requires SortedByRoleName(s) && SortedByRoleName(t)
    requires multiset(s) == multiset(t)
    requires DistinctRoleNames(s)
    ensures s == t
    decreases |s|
  {
    assert |s| == |multiset(s)| == |multiset(t)| == |t|;
    if |s| > 0 {
      SortedHeadsAgree(s, t);
      var s', t' := s[1..], t[1..];
      MultisetOfTails(s, t);
      assert SortedByRoleName(s') && SortedByRoleName(t') && DistinctRoleNames(s') by {
        assert forall i :: 0 <= i < |s'| ==> s'[i] == s[i + 1];
        assert forall i :: 0 <= i < |t'| ==> t'[i] == t[i + 1];
      }
      SortedPermutationUnique(s', t');
      assert s == [s[0]] + s' && t == [t[0]] + t';
    }
  }

  // The first step of the proof above: both sequences start with the same binding.
  lemma SortedHeadsAgree(s: seq<RoleBinding>, t: seq<RoleBinding>)
    requires SortedByRoleName(s) && SortedByRoleName(t)
    requires multiset(s) == multiset(t)
    requires DistinctRoleNames(s)
    requires |s| > 0 && |t| > 0
    ensures s[0] == t[0]
  {
    assert s[0] in multiset(t) && t[0] in multiset(s);
    var k :| 0 <= k < |t| && t[k] == s[0];
    var m :| 0 <= m < |s| && s[m] == t[0];
    var first, other := s[0].roleRef.name, t[0].roleRef.name;
    if first != other {
      assert 0 < m && 0 < k;
      assert !Less(other, first) && !Less(first, other);
      LessTotal(first, other);
    }
    assert m == 0;
  }

  // Removing the same first element from two permutations leaves permutations.
  lemma MultisetOfTails(s: seq<RoleBinding>, t: seq<RoleBinding>)
    requires |s| > 0 && |t| > 0 && s[0] == t[0]
    requires multiset(s) == multiset(t)
    ensures multiset(s[1..]) == multiset(t[1..])
  {
    assert s == [s[0]] + s[1..] && t == [t[0]] + t[1..];
    assert multiset(s[1..]) == multiset(s) - multiset{s[0]};
    assert multiset(t[1..]) == multiset(t) - multiset{t[0]};
  }

  // Permutations that agree from `n` on are permutations up to `n`.
  lemma PrefixMultiset(s: seq<RoleBinding>, t: seq<RoleBinding>, n: nat)
    requires n <= |s| && n <= |t|
    requires multiset(s) == multiset(t) && s[n..] == t[n..]
    ensures multiset(s[..n]) == multiset(t[..n])
  {
    assert s == s[..n] + s[n..] && t == t[..n] + t[n..];
    assert multiset(s[..n]) == multiset(s) - multiset(s[n..]);
    assert multiset(t[..n]) == multiset(t) - multiset(t[n..]);
  }

  /** Sorts the bindings in place by role name (insertion sort). */
  method SortByRoleName(a: array<RoleBinding>)
    modifies a
    ensures SortedByRoleName(a[..])
    ensures multiset(a[..]) == old(multiset(a[..]))
  {
    if a.Length == 0 {
      return;
    }
    for i := 1 to a.Length
      invariant SortedByRoleName(a[..i])
      invariant multiset(a[..]) == old(multiset(a[..]))
    {
      InsertAt(a, i);
    }
    assert a[..a.Length] == a[..];
  }

  /** Moves `a[i]` down into the sorted prefix `a[..i]`, leaving `a[..i + 1]`
      a sorted permutation of what it held and the rest of the array as it was. */
  method InsertAt(a: array<RoleBinding>, i: nat)
    requires i < a.Length
    requires SortedByRoleName(a[..i])
    modifies a
    ensures SortedByRoleName(a[..i + 1])
    ensures multiset(a[..i + 1]) == old(multiset(a[..i + 1]))
    ensures a[i + 1..] == old(a[i + 1..])
    ensures multiset(a[..]) == old(multiset(a[..]))
  {
    ghost var initial := a[..];
    SinkingStart(a[..], i);
    var j := i;
    while j > 0 && RoleNameLess(a[j], a[j - 1])
      invariant 0 <= j <= i
      invariant Sinking(a[..], i, j)
      invariant a[i + 1..] == initial[i + 1..]
      invariant multiset(a[..i + 1]) == multiset(initial[..i + 1])
    {
      SinkOnce(a, i, j, initial);
      j := j - 1;
    }
    SinkingDone(a[..], i, j);
    WholeMultiset(a[..], initial, i + 1);
  }

  /** While `a[i]` sinks to position `j`: the prefix `s[..i + 1]` without
      position `j` is in order, and `s[j]` may come before everything after it. */
  ghost predicate Sinking(s: seq<RoleBinding>, i: nat, j: nat)
    requires j <= i < |s|
  {
    && (forall p, q :: 0 <= p < q <= i && p != j && q != j ==> InOrder(s[p], s[q]))
    && (forall q :: j < q <= i ==> InOrder(s[j], s[q]))
  }

  lemma SinkingStart(s: seq<RoleBinding>, i: nat)
    requires i < |s| && SortedByRoleName(s[..i])
    ensures Sinking(s, i, i)
  {
    forall p, q | 0 <= p < q <= i && p != i && q != i
      ensures InOrder(s[p], s[q])
    {
      assert s[p] == s[..i][p] && s[q] == s[..i][q];
    }
  }

  lemma SinkingStep(s: seq<RoleBinding>, i: nat, j: nat)
    requires 0 < j <= i < |s| && Sinking(s, i, j)
    requires RoleNameLess(s[j], s[j - 1])
    ensures Sinking(s[j - 1 := s[j]][j := s[j - 1]], i, j - 1)
  {
    LessIsInOrder(s[j], s[j - 1]);
  }

  lemma SinkingDone(s: seq<RoleBinding>, i: nat, j: nat)
    requires j <= i < |s| && Sinking(s, i, j)
    requires j == 0 || !RoleNameLess(s[j], s[j - 1])
    ensures SortedByRoleName(s[..i + 1])
  {
    forall p, q | 0 <= p < q <= i
      ensures InOrder(s[p], s[q])
    {
      if p < j - 1 && q == j {
        InOrderTransitive(s[p], s[j - 1], s[j]);
      }
    }
  }

  /** One step of the sinking loop: `a[j]` belongs before `a[j - 1]`, so the
      two trade places and the loop's invariant holds one position lower. */
  method SinkOnce(a: array<RoleBinding>, i: nat, j: nat, ghost initial: seq<RoleBinding>)
    requires 0 < j <= i < a.Length == |initial|
    requires Sinking(a[..], i, j) && RoleNameLess(a[j], a[j - 1])
    requires a[i + 1..] == initial[i + 1..]
    requires multiset(a[..i + 1]) == multiset(initial[..i + 1])
    modifies a
    ensures Sinking(a[..], i, j - 1)
    ensures a[i + 1..] == initial[i + 1..]
    ensures multiset(a[..i + 1]) == multiset(initial[..i + 1])
  {
    SinkingStep(a[..], i, j);
    SwapAdjacent(a, j, i + 1);
  }

  /** Exchanges `a[j - 1]` and `a[j]`, inside the prefix `a[..n]`. */
  method SwapAdjacent(a: array<RoleBinding>, j: nat, n: nat)
    requires 0 < j < n <= a.Length
    modifies a
    ensures a[..] == old(a[..])[j - 1 := old(a[j])][j := old(a[j - 1])]
    ensures multiset(a[..n]) == old(multiset(a[..n]))
    ensures a[n..] == old(a[n..])
  {
    ghost var before := a[..];
    a[j - 1], a[j] := a[j], a[j - 1];
    assert a[n..] == before[n..];
    PrefixMultiset(a[..], before, n);
  }

  // A permutation of a prefix, with the rest untouched, permutes the whole.
  lemma WholeMultiset(s: seq<RoleBinding>, t: seq<RoleBinding>, n: nat)
    requires n <= |s| && n <= |t|
    requires multiset(s[..n]) == multiset(t[..n]) && s[n..] == t[n..]
    ensures multiset(s) == multiset(t)
  {
    assert s == s[..n] + s[n..] && t == t[..n] + t[n..];
  }
}
