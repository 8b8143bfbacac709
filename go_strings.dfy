/** The three operations on Go strings that the service relies on:
    `strings.ToLower`, `strings.Contains` and the `<` operator.

    Go strings are byte sequences; here they are sequences of characters.
    For well-formed UTF-8 the byte-wise order of Go's `<` coincides with the
    order of code points, which is the order used by `Less` below. */
module GoStrings {

  /** Lower-cases an ASCII upper-case letter and leaves every other character alone. */
  function LowerAscii(c: char): char
  {
    if 'A' <= c <= 'Z' then (c as int + 32) as char else c
  }

  /** `strings.ToLower`, restricted to ASCII letters. */
  function ToLower(s: string): (r: string)
    ensures |r| == |s|
    ensures forall i :: 0 <= i < |s| ==> r[i] == LowerAscii(s[i])
  {
    if |s| == 0 then "" else [LowerAscii(s[0])] + ToLower(s[1..])
  }

  /** `substr` occurs in `s` starting at position `i`. */
  predicate OccursAt(s: string, substr: string, i: nat)
  {
    i + |substr| <= |s| && s[i..i + |substr|] == substr
  }

  /** `strings.Contains`: does `substr` occur somewhere in `s`? Scans the
      positions of `s` from the left and stops at the first occurrence. */
  function Contains(s: string, substr: string): (r: bool)
    ensures r <==> exists i: nat :: OccursAt(s, substr, i)
    decreases |s|
  {
    if |s| < |substr| then false
    else if s[..|substr|] == substr then assert OccursAt(s, substr, 0); true
    else
      var r := Contains(s[1..], substr);
      assert forall i: nat :: OccursAt(s[1..], substr, i) <==> OccursAt(s, substr, i + 1);
      assert !OccursAt(s, substr, 0);
      assert forall i: nat :: OccursAt(s, substr, i) ==> i > 0 && OccursAt(s[1..], substr, i - 1);
      r
  }

  /** Go's `a < b` on strings: lexicographic, a proper prefix sorts first. */
  predicate Less(a: string, b: string)
  {
    if |b| == 0 then false
    else if |a| == 0 then true
    else if a[0] != b[0] then a[0] < b[0]
    else Less(a[1..], b[1..])
  }

  lemma {:induction false} LessAsymmetric(a: string, b: string)
    requires Less(a, b)
    ensures !Less(b, a)
  {
    if |a| > 0 && a[0] == b[0] {
      LessAsymmetric(a[1..], b[1..]);
    }
  }

  lemma {:induction false} LessTransitive(a: string, b: string, c: string)
    requires Less(a, b) && Less(b, c)
    ensures Less(a, c)
  {
    if |a| > 0 && a[0] == b[0] && b[0] == c[0] {
      LessTransitive(a[1..], b[1..], c[1..]);
    }
  }

  /** Any two different strings are ordered one way or the other. */
  lemma {:induction false} LessTotal(a: string, b: string)
    requires a != b
    ensures Less(a, b) || Less(b, a)
  {
    if |a| > 0 && |b| > 0 && a[0] == b[0] {
      assert a == [a[0]] + a[1..] && b == [b[0]] + b[1..];
      LessTotal(a[1..], b[1..]);
    }
  }
}
