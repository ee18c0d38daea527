/** Byte-wise string order, the order of Go's `<` on strings. */
module Order {
  predicate Before(a: string, b: string)
    decreases |a|
  {
    if b == "" then false
    else if a == "" then true
    else if a[0] != b[0] then a[0] < b[0]
    else Before(a[1..], b[1..])
  }

  /** The strings agree up to `k`; there `a` ends and `b` goes on, or a's character is the smaller one. */
  ghost predicate SmallerAt(a: string, b: string, k: int) {
    && 0 <= k <= |a| && k < |b| && (forall i | 0 <= i < k :: a[i] == b[i])
    && (k == |a| || a[k] < b[k])
  }

  /** A string comes before its extensions, and otherwise the first character that differs decides. */
  lemma {:induction false} BeforeIff(a: string, b: string)
    ensures Before(a, b) <==> exists k :: SmallerAt(a, b, k)
    decreases |a|
  {
    if a == "" || b == "" || a[0] != b[0] {
      if Before(a, b) { assert SmallerAt(a, b, 0); }
    } else {
      BeforeIff(a[1..], b[1..]);
      if k :| SmallerAt(a[1..], b[1..], k) { assert SmallerAt(a, b, k + 1); }
      if k :| SmallerAt(a, b, k) { assert SmallerAt(a[1..], b[1..], k - 1); }
    }
  }

  lemma {:induction false} BeforeTotal(a: string, b: string)
    ensures !(Before(a, b) && Before(b, a))
    ensures a == b || Before(a, b) || Before(b, a)
    decreases |a|
  {
    if a != "" && b != "" && a[0] == b[0] {
      BeforeTotal(a[1..], b[1..]);
      if a[1..] == b[1..] { assert a == [a[0]] + a[1..] && b == [b[0]] + b[1..]; }
    }
  }

  lemma {:induction false} BeforeSelf(a: string)
    ensures !Before(a, a)
  {
    if a != "" { BeforeSelf(a[1..]); }
  }

  lemma {:induction false} BeforeTransitive(a: string, b: string, c: string)
    requires Before(a, b) && Before(b, c)
    ensures Before(a, c)
    decreases |a|
  {
    if a != "" && a[0] == b[0] && b[0] == c[0] { BeforeTransitive(a[1..], b[1..], c[1..]); }
  }
}
