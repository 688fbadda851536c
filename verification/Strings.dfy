/** The order of strings. */
module Strings {
  /** Lexicographic order by code unit, as `sort` with no comparator and a Redis sorted set order strings. */
  predicate Precedes(a: string, b: string) {
    if b == "" then false
    else if a == "" then true
    else a[0] < b[0] || (a[0] == b[0] && Precedes(a[1..], b[1..]))
  }

  /** They agree up to `k`, and there the first ends or has the smaller character. */
  predicate DiffersAt(a: string, b: string, k: nat) {
    k <= |a| && k < |b| && a[..k] == b[..k] && (k < |a| ==> a[k] < b[k])
  }

  lemma {:induction false} PrecedesIff(a: string, b: string)
    ensures Precedes(a, b) <==> exists k: nat :: DiffersAt(a, b, k)
    decreases |a|
  {
    if a == "" {
      if b != "" { assert DiffersAt(a, b, 0); }
    } else if b != "" && a[0] < b[0] {
      assert DiffersAt(a, b, 0);
    } else if b != "" {
      PrecedesIff(a[1..], b[1..]);
      if k: nat :| DiffersAt(a, b, k) { DiffersInTail(a, b, k); }
      if a[0] == b[0] {
        if k: nat :| DiffersAt(a[1..], b[1..], k) {
          assert a[..k + 1] == [a[0]] + a[1..][..k] && b[..k + 1] == [b[0]] + b[1..][..k];
          assert DiffersAt(a, b, k + 1);
        }
      }
    }
  }

  lemma DiffersInTail(a: string, b: string, k: nat)
    requires a != "" && b != "" && a[0] >= b[0] && DiffersAt(a, b, k)
    ensures k > 0 && a[0] == b[0] && DiffersAt(a[1..], b[1..], k - 1)
  {
    assert k > 0 && a[..k][0] == b[..k][0];
    assert a[1..][..k - 1] == a[..k][1..] && b[1..][..k - 1] == b[..k][1..];
  }

  lemma {:induction false} PrecedesIsTotal(a: string, b: string)
    ensures !(Precedes(a, b) && Precedes(b, a)) && !Precedes(a, a)
    ensures a == b || Precedes(a, b) || Precedes(b, a)
    decreases |a|
  {
    if a != "" {
      PrecedesIsTotal(a[1..], if b == "" then "" else b[1..]);
      if b != "" && a[0] == b[0] {
        assert a == [a[0]] + a[1..] && b == [b[0]] + b[1..];
        PrecedesIsTotal(a[1..], b[1..]);
      }
    }
  }

  lemma {:induction false} PrecedesIsTransitive(a: string, b: string, c: string)
    requires Precedes(a, b) && Precedes(b, c)
    ensures Precedes(a, c)
    decreases |a|
  {
    if a != "" && a[0] == b[0] == c[0] { PrecedesIsTransitive(a[1..], b[1..], c[1..]); }
  }
}
