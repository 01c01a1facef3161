/** Go's `sort.Slice`: in place, by a caller's order, with ties left in any order. */
module Sorting {

  /** `before` ranks: it never holds both ways, and "not after" is transitive. */
  ghost predicate Ranks<T(!new)>(before: (T, T) -> bool) {
    && (forall x, y :: !(before(x, y) && before(y, x)))
    && forall x, y, z :: !before(y, x) && !before(z, y) ==> !before(z, x)
  }

  ghost predicate SortedBy<T>(s: seq<T>, before: (T, T) -> bool) {
    forall i, j | 0 <= i < j < |s| :: !before(s[j], s[i])
  }

  method Swap<T>(a: array<T>, i: nat, j: nat)
    requires i <= j < a.Length
    modifies a
    ensures a[..] == old(a[..])[i := old(a[j])][j := old(a[i])]
    ensures multiset(a[..]) == old(multiset(a[..]))
  {
    a[i], a[j] := a[j], a[i];
  }

  /** The element no other comes before, among those from `i` on. */
  method First<T(!new)>(a: array<T>, i: nat, before: (T, T) -> bool) returns (m: nat)
    requires Ranks(before) && i < a.Length
    ensures i <= m < a.Length
    ensures forall k | i <= k < a.Length :: !before(a[k], a[m])
  {
    m := i;
    for j := i + 1 to a.Length
      invariant i <= m < a.Length
      invariant forall k | i <= k < j :: !before(a[k], a[m])
    {
      if before(a[j], a[m]) {
        m := j;
      }
    }
  }

  method SortSlice<T(!new)>(a: array<T>, before: (T, T) -> bool)
    requires Ranks(before)
    modifies a
    ensures SortedBy(a[..], before)
    ensures multiset(a[..]) == old(multiset(a[..]))
  {
    for i := 0 to a.Length
      invariant multiset(a[..]) == old(multiset(a[..]))
      invariant forall x, y | 0 <= x < i && x < y < a.Length :: !before(a[y], a[x])
    {
      var m := First(a, i, before);
      Swap(a, i, m);
    }
  }
}
