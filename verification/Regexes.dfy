/**
 * The regular-expression constructs the source uses, with their meaning: which
 * substrings a pattern can match. Priorities (greedy or lazy) are not part of it.
 */
module Regexes {
  import opened Chars

  datatype CharClass = Lit(c: char) | Digit | Space | Dot {
    predicate Has(x: char) {
      match this
      case Lit(c) => x == c
      case Digit => IsDigit(x)
      case Space => IsSpace(x)
      case Dot => x !in {'\n', '\r', '\U{2028}', '\U{2029}'}
    }
  }

  datatype Regex =
    | Empty
    | One(cls: CharClass)
    | Repeat(cls: CharClass, lo: nat, hi: nat)  // `x{lo,hi}`
    | Star(cls: CharClass)
    | Cat(first: Regex, second: Regex)
    | Either(left: Regex, right: Regex)
    | NotAhead(body: Regex)  // `(?!body)`
    | End  // `$`

  function Optional(r: Regex): Regex { Either(r, Empty) }

  function Word(w: string): Regex {
    if w == "" then Empty else Cat(One(Lit(w[0])), Word(w[1..]))
  }

  predicate AllIn(cls: CharClass, s: string, i: nat, j: nat)
    requires i <= j <= |s|
  {
    forall k :: i <= k < j ==> cls.Has(s[k])
  }

  /** `r` matches exactly `s[i..j]`, in the context of `s`. */
  ghost predicate Matches(r: Regex, s: string, i: nat, j: nat)
    decreases r
  {
    && i <= j <= |s|
    && match r
       case Empty => i == j
       case One(cls) => j == i + 1 && cls.Has(s[i])
       case Repeat(cls, lo, hi) => lo <= j - i <= hi && AllIn(cls, s, i, j)
       case Star(cls) => AllIn(cls, s, i, j)
       case Cat(a, b) => exists m: nat :: Matches(a, s, i, m) && Matches(b, s, m, j)
       case Either(a, b) => Matches(a, s, i, j) || Matches(b, s, i, j)
       case NotAhead(a) => i == j && !exists e: nat :: Matches(a, s, i, e)
       case End => i == j == |s|
  }

  lemma CatSplit(a: Regex, b: Regex, s: string, i: nat, j: nat) returns (m: nat)
    requires Matches(Cat(a, b), s, i, j)
    ensures Matches(a, s, i, m) && Matches(b, s, m, j)
  {
    var r := Cat(a, b);
    assert exists m: nat :: Matches(r.first, s, i, m) && Matches(r.second, s, m, j);
    m :| Matches(r.first, s, i, m) && Matches(r.second, s, m, j);
  }

  lemma CatJoin(a: Regex, b: Regex, s: string, i: nat, m: nat, j: nat)
    requires Matches(a, s, i, m) && Matches(b, s, m, j)
    ensures Matches(Cat(a, b), s, i, j)
  {
  }

  /** The end of the longest run of `cls` from `i`. */
  function MaxRun(s: string, i: nat, cls: CharClass): (m: nat)
    requires i <= |s|
    ensures i <= m <= |s|
    decreases |s| - i
  {
    if i < |s| && cls.Has(s[i]) then MaxRun(s, i + 1, cls) else i
  }

  lemma {:induction false} MaxRunIsMaximal(s: string, i: nat, cls: CharClass)
    requires i <= |s|
    ensures var m := MaxRun(s, i, cls); AllIn(cls, s, i, m) && (m < |s| ==> !cls.Has(s[m]))
    decreases |s| - i
  {
    if i < |s| && cls.Has(s[i]) { MaxRunIsMaximal(s, i + 1, cls); }
  }

  lemma MaxRunIsTheOnlyStop(s: string, i: nat, m: nat, cls: CharClass)
    requires i <= m <= |s| && AllIn(cls, s, i, m) && (m < |s| ==> !cls.Has(s[m]))
    ensures m == MaxRun(s, i, cls)
  {
    MaxRunIsMaximal(s, i, cls);
    assert forall k :: i <= k < MaxRun(s, i, cls) ==> cls.Has(s[k]);
  }

  lemma {:induction false} WordMatches(w: string, s: string, i: nat, j: nat)
    requires i <= |s|
    ensures Matches(Word(w), s, i, j) <==> j == i + |w| <= |s| && s[i..j] == w
  {
    if w != "" {
      if i < |s| {
        WordMatches(w[1..], s, i + 1, j);
        if j == i + |w| <= |s| {
          assert s[i..j] == w <==> s[i] == w[0] && s[i + 1..j] == w[1..] by {
            assert s[i..j] == [s[i]] + s[i + 1..j];
            assert w == [w[0]] + w[1..];
          }
          if s[i..j] == w { assert Matches(One(Lit(w[0])), s, i, i + 1); }
        }
      }
    }
  }
}
