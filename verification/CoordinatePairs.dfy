/**
 * `COORDINATE_PAIR_RE` (packages/errors/src/scrub-location-pii.ts, lines
 * 274-283) and the deterministic matcher the model runs in its place. Nothing in
 * the pattern can match two ways, so backtracking and greed play no part.
 */
module CoordinatePairs {
  import opened Options
  import opened Chars
  import opened Regexes

  const GAP: Regex := Repeat(Space, 0, 200)
  const COMMA: Regex := Cat(GAP, Cat(One(Lit(',')), GAP))
  const SIGN: Regex := Optional(One(Lit('-')))
  const FRACTION: Regex := Cat(One(Lit('.')), Repeat(Digit, 1, 20))
  const DECIMAL: Regex := Cat(SIGN, Cat(Repeat(Digit, 1, 3), FRACTION))
  const ALTITUDE: Regex := Cat(SIGN, Cat(Repeat(Digit, 1, 9), Optional(FRACTION)))
  const CLOSE: Regex := Cat(GAP, One(Lit(']')))
  const COORDINATE_PAIR: Regex :=
    Cat(One(Lit('[')), Cat(GAP, Cat(DECIMAL, Cat(COMMA, Cat(DECIMAL, Cat(Optional(Cat(COMMA, ALTITUDE)), CLOSE))))))

  predicate At(s: string, i: nat, cls: CharClass) {
    i < |s| && cls.Has(s[i])
  }

  function ReadGap(s: string, i: nat): (r: Option<nat>)
    ensures r.Some? ==> i <= r.value <= |s|
  {
    if i > |s| || MaxRun(s, i, Space) - i > 200 then None else Some(MaxRun(s, i, Space))
  }

  function ReadDigits(s: string, i: nat, max: nat): (r: Option<nat>)
    ensures r.Some? ==> i < r.value <= |s|
  {
    if i > |s| || !(1 <= MaxRun(s, i, Digit) - i <= max) then None else Some(MaxRun(s, i, Digit))
  }

  function ReadOne(s: string, i: nat, c: char): (r: Option<nat>)
    ensures r.Some? ==> r.value == i + 1 <= |s|
  {
    if At(s, i, Lit(c)) then Some(i + 1) else None
  }

  function PastSign(s: string, i: nat): nat {
    if At(s, i, Lit('-')) then i + 1 else i
  }

  function ReadFraction(s: string, i: nat): (r: Option<nat>)
    ensures r.Some? ==> i < r.value <= |s|
  {
    var j :- ReadOne(s, i, '.');
    ReadDigits(s, j, 20)
  }

  function ReadDecimal(s: string, i: nat): (r: Option<nat>)
    ensures r.Some? ==> i < r.value <= |s|
  {
    var j :- ReadDigits(s, PastSign(s, i), 3);
    ReadFraction(s, j)
  }

  function ReadAltitude(s: string, i: nat): (r: Option<nat>)
    ensures r.Some? ==> i < r.value <= |s|
  {
    var j :- ReadDigits(s, PastSign(s, i), 9);
    if At(s, j, Lit('.')) then ReadFraction(s, j) else Some(j)
  }

  function ReadComma(s: string, i: nat): (r: Option<nat>)
    ensures r.Some? ==> i < r.value <= |s|
  {
    var j :- ReadGap(s, i);
    var k :- ReadOne(s, j, ',');
    ReadGap(s, k)
  }

  function ReadClose(s: string, i: nat): (r: Option<nat>)
    ensures r.Some? ==> i < r.value <= |s|
  {
    var j :- ReadGap(s, i);
    ReadOne(s, j, ']')
  }

  function ReadTail(s: string, i: nat): (r: Option<nat>)
    ensures r.Some? ==> i < r.value <= |s|
  {
    match ReadComma(s, i)
    case Some(k) =>
      var m :- ReadAltitude(s, k);
      ReadClose(s, m)
    case None => ReadClose(s, i)
  }

  /** Where the coordinate pair that starts at `p` ends, if one does. */
  function ReadPair(s: string, p: nat): (r: Option<nat>)
    ensures r.Some? ==> p < r.value <= |s| && s[p] == '['
  {
    var i :- ReadOne(s, p, '[');
    var j :- ReadGap(s, i);
    var k :- ReadDecimal(s, j);
    var l :- ReadComma(s, k);
    var m :- ReadDecimal(s, l);
    ReadTail(s, m)
  }

  lemma PairIsLong(s: string, p: nat)
    requires ReadPair(s, p).Some?
    ensures p + 1 < ReadPair(s, p).value
  {
  }

  lemma GapIff(s: string, i: nat, j: nat)
    ensures Matches(GAP, s, i, j) && !At(s, j, Space) <==> ReadGap(s, i) == Some(j)
  {
    if i <= |s| { MaxRunIsMaximal(s, i, Space); }
    if Matches(GAP, s, i, j) && !At(s, j, Space) { MaxRunIsTheOnlyStop(s, i, j, Space); }
  }

  lemma DigitsIff(s: string, i: nat, j: nat, max: nat)
    ensures Matches(Repeat(Digit, 1, max), s, i, j) && !At(s, j, Digit) <==> ReadDigits(s, i, max) == Some(j)
  {
    if i <= |s| { MaxRunIsMaximal(s, i, Digit); }
    if Matches(Repeat(Digit, 1, max), s, i, j) && !At(s, j, Digit) { MaxRunIsTheOnlyStop(s, i, j, Digit); }
  }

  lemma FractionIff(s: string, i: nat, j: nat)
    ensures Matches(FRACTION, s, i, j) && !At(s, j, Digit) <==> ReadFraction(s, i) == Some(j)
  {
    DigitsIff(s, i + 1, j, 20);
    if ReadFraction(s, i) == Some(j) {
      assert Matches(One(Lit('.')), s, i, i + 1) && Matches(Repeat(Digit, 1, 20), s, i + 1, j);
    }
  }

  lemma SignThenDigits(s: string, i: nat, m: nat, rest: Regex, max: nat, j: nat)
    requires Matches(SIGN, s, i, m) && Matches(Cat(Repeat(Digit, 1, max), rest), s, m, j)
    ensures m == PastSign(s, i) && At(s, m, Digit)
  {
    var n: nat :| Matches(Repeat(Digit, 1, max), s, m, n) && Matches(rest, s, n, j);
  }

  lemma DecimalIff(s: string, i: nat, j: nat)
    ensures Matches(DECIMAL, s, i, j) && !At(s, j, Digit) <==> ReadDecimal(s, i) == Some(j)
    ensures Matches(DECIMAL, s, i, j) ==> At(s, i, Digit) || At(s, i, Lit('-'))
  {
    var body := Cat(Repeat(Digit, 1, 3), FRACTION);
    var m := PastSign(s, i);
    if Matches(DECIMAL, s, i, j) {
      var m': nat :| Matches(SIGN, s, i, m') && Matches(body, s, m', j);
      SignThenDigits(s, i, m', FRACTION, 3, j);
      var n: nat :| Matches(Repeat(Digit, 1, 3), s, m, n) && Matches(FRACTION, s, n, j);
      assert At(s, n, Lit('.'));
      DigitsIff(s, m, n, 3);
      FractionIff(s, n, j);
    }
    if ReadDecimal(s, i) == Some(j) {
      var n := ReadDigits(s, m, 3).value;
      DigitsIff(s, m, n, 3);
      FractionIff(s, n, j);
      assert Matches(SIGN, s, i, m);
      assert Matches(body, s, m, j);
    }
  }

  lemma AltitudeIff(s: string, i: nat, j: nat)
    ensures Matches(ALTITUDE, s, i, j) && !At(s, j, Digit) && !At(s, j, Lit('.')) ==> ReadAltitude(s, i) == Some(j)
    ensures ReadAltitude(s, i) == Some(j) ==> Matches(ALTITUDE, s, i, j) && !At(s, j, Digit)
    ensures Matches(ALTITUDE, s, i, j) ==> At(s, i, Digit) || At(s, i, Lit('-'))
  {
    if Matches(ALTITUDE, s, i, j) { AltitudeIsRead(s, i, j); }
    if ReadAltitude(s, i) == Some(j) { ReadAltitudeMatches(s, i, j); }
  }

  lemma AltitudeIsRead(s: string, i: nat, j: nat)
    requires Matches(ALTITUDE, s, i, j)
    ensures !At(s, j, Digit) && !At(s, j, Lit('.')) ==> ReadAltitude(s, i) == Some(j)
    ensures At(s, i, Digit) || At(s, i, Lit('-'))
  {
    var body := Cat(Repeat(Digit, 1, 9), Optional(FRACTION));
    var m := PastSign(s, i);
    var m': nat :| Matches(SIGN, s, i, m') && Matches(body, s, m', j);
    SignThenDigits(s, i, m', Optional(FRACTION), 9, j);
    var n: nat :| Matches(Repeat(Digit, 1, 9), s, m, n) && Matches(Optional(FRACTION), s, n, j);
    if !At(s, j, Digit) && !At(s, j, Lit('.')) {
      assert !At(s, n, Digit);
      DigitsIff(s, m, n, 9);
      FractionIff(s, n, j);
    }
  }

  lemma ReadAltitudeMatches(s: string, i: nat, j: nat)
    requires ReadAltitude(s, i) == Some(j)
    ensures Matches(ALTITUDE, s, i, j) && !At(s, j, Digit)
  {
    var body := Cat(Repeat(Digit, 1, 9), Optional(FRACTION));
    var m := PastSign(s, i);
    var n := ReadDigits(s, m, 9).value;
    DigitsIff(s, m, n, 9);
    FractionIff(s, n, j);
    assert Matches(SIGN, s, i, m);
    assert Matches(Optional(FRACTION), s, n, j);
    assert Matches(body, s, m, j);
  }

  lemma CommaIff(s: string, i: nat, j: nat)
    ensures Matches(COMMA, s, i, j) && !At(s, j, Space) <==> ReadComma(s, i) == Some(j)
    ensures Matches(COMMA, s, i, j) ==> At(s, i, Space) || At(s, i, Lit(','))
  {
    var rest := Cat(One(Lit(',')), GAP);
    if Matches(COMMA, s, i, j) {
      var m: nat :| Matches(GAP, s, i, m) && Matches(rest, s, m, j);
      var n: nat :| Matches(One(Lit(',')), s, m, n) && Matches(GAP, s, n, j);
      GapIff(s, i, m);
      GapIff(s, n, j);
    }
    if ReadComma(s, i) == Some(j) {
      var m := ReadGap(s, i).value;
      GapIff(s, i, m);
      GapIff(s, m + 1, j);
      assert Matches(One(Lit(',')), s, m, m + 1);
      assert Matches(rest, s, m, j);
    }
  }

  lemma CloseIff(s: string, i: nat, j: nat)
    ensures Matches(CLOSE, s, i, j) <==> ReadClose(s, i) == Some(j)
    ensures Matches(CLOSE, s, i, j) ==> At(s, i, Space) || At(s, i, Lit(']'))
  {
    if Matches(CLOSE, s, i, j) {
      var m: nat :| Matches(GAP, s, i, m) && Matches(One(Lit(']')), s, m, j);
      GapIff(s, i, m);
    }
    if ReadClose(s, i) == Some(j) {
      GapIff(s, i, j - 1);
      assert Matches(One(Lit(']')), s, j - 1, j);
    }
  }

  /** A gap is followed by one character class only, so a comma and a close never both follow. */
  lemma CommaExcludesClose(s: string, i: nat)
    ensures !(ReadComma(s, i).Some? && ReadClose(s, i).Some?)
  {
  }

  lemma ThirdIff(s: string, i: nat, m: nat)
    requires !At(s, m, Digit) && !At(s, m, Lit('.'))
    ensures Matches(Cat(COMMA, ALTITUDE), s, i, m) <==>
            ReadComma(s, i).Some? && ReadAltitude(s, ReadComma(s, i).value) == Some(m)
  {
    if Matches(Cat(COMMA, ALTITUDE), s, i, m) { ThirdIsRead(s, i, m); }
    if ReadComma(s, i).Some? && ReadAltitude(s, ReadComma(s, i).value) == Some(m) {
      CommaIff(s, i, ReadComma(s, i).value);
      ReadAltitudeMatches(s, ReadComma(s, i).value, m);
    }
  }

  lemma ThirdIsRead(s: string, i: nat, m: nat)
    requires !At(s, m, Digit) && !At(s, m, Lit('.')) && Matches(Cat(COMMA, ALTITUDE), s, i, m)
    ensures ReadComma(s, i).Some? && ReadAltitude(s, ReadComma(s, i).value) == Some(m)
  {
    var k: nat :| Matches(COMMA, s, i, k) && Matches(ALTITUDE, s, k, m);
    AltitudeIsRead(s, k, m);
    CommaIff(s, i, k);
  }

  lemma OptionalThen(a: Regex, b: Regex, s: string, i: nat, j: nat)
    ensures Matches(Cat(Optional(a), b), s, i, j) <==> Matches(Cat(a, b), s, i, j) || Matches(b, s, i, j)
  {
    if Matches(Cat(a, b), s, i, j) {
      var m := CatSplit(a, b, s, i, j);
      CatJoin(Optional(a), b, s, i, m, j);
    }
    if Matches(b, s, i, j) {
      CatJoin(Optional(a), b, s, i, i, j);
    }
    if Matches(Cat(Optional(a), b), s, i, j) {
      var m := CatSplit(Optional(a), b, s, i, j);
      if Matches(a, s, i, m) { CatJoin(a, b, s, i, m, j); }
    }
  }

  lemma TailFrom(third: Regex, close: Regex, s: string, i: nat, j: nat)
    requires forall m: nat :: Matches(close, s, m, j) <==> ReadClose(s, m) == Some(j)
    requires forall m: nat :: ReadClose(s, m) == Some(j) ==>
               (Matches(third, s, i, m) <==>
                ReadComma(s, i).Some? && ReadAltitude(s, ReadComma(s, i).value) == Some(m))
    ensures Matches(Cat(Optional(third), close), s, i, j) <==> ReadTail(s, i) == Some(j)
  {
    OptionalThen(third, close, s, i, j);
    CommaExcludesClose(s, i);
    if Matches(Cat(third, close), s, i, j) {
      var m := CatSplit(third, close, s, i, j);
    }
    if ReadTail(s, i) == Some(j) && ReadComma(s, i).Some? {
      var m := ReadAltitude(s, ReadComma(s, i).value).value;
      CatJoin(third, close, s, i, m, j);
    }
  }

  lemma TailIff(s: string, i: nat, j: nat)
    ensures Matches(Cat(Optional(Cat(COMMA, ALTITUDE)), CLOSE), s, i, j) <==> ReadTail(s, i) == Some(j)
  {
    forall m: nat { CloseIff(s, m, j); }
    forall m: nat | ReadClose(s, m) == Some(j) { ThirdIff(s, i, m); }
    TailFrom(Cat(COMMA, ALTITUDE), CLOSE, s, i, j);
  }

  lemma TailStartsOutsideDigits(s: string, i: nat)
    requires ReadTail(s, i).Some?
    ensures !At(s, i, Digit)
  {
  }

  /** A reader in front of a pattern that cannot start where the reader would have gone on. */
  lemma GapThen(b: Regex, s: string, i: nat, j: nat)
    requires forall m: nat :: Matches(b, s, m, j) ==> !At(s, m, Space)
    ensures Matches(Cat(GAP, b), s, i, j) <==> ReadGap(s, i).Some? && Matches(b, s, ReadGap(s, i).value, j)
  {
    if Matches(Cat(GAP, b), s, i, j) {
      var m := CatSplit(GAP, b, s, i, j);
      GapIff(s, i, m);
    }
    if ReadGap(s, i).Some? {
      var m := ReadGap(s, i).value;
      GapIff(s, i, m);
      if Matches(b, s, m, j) { CatJoin(GAP, b, s, i, m, j); }
    }
  }

  lemma DecimalThen(b: Regex, s: string, i: nat, j: nat)
    requires forall m: nat :: Matches(b, s, m, j) ==> !At(s, m, Digit)
    ensures Matches(Cat(DECIMAL, b), s, i, j) <==> ReadDecimal(s, i).Some? && Matches(b, s, ReadDecimal(s, i).value, j)
    ensures Matches(Cat(DECIMAL, b), s, i, j) ==> !At(s, i, Space)
  {
    if Matches(Cat(DECIMAL, b), s, i, j) {
      var m := CatSplit(DECIMAL, b, s, i, j);
      DecimalIff(s, i, m);
    }
    if ReadDecimal(s, i).Some? {
      var m := ReadDecimal(s, i).value;
      DecimalIff(s, i, m);
      if Matches(b, s, m, j) { CatJoin(DECIMAL, b, s, i, m, j); }
    }
  }

  lemma CommaThen(b: Regex, s: string, i: nat, j: nat)
    requires forall m: nat :: Matches(b, s, m, j) ==> !At(s, m, Space)
    ensures Matches(Cat(COMMA, b), s, i, j) <==> ReadComma(s, i).Some? && Matches(b, s, ReadComma(s, i).value, j)
    ensures Matches(Cat(COMMA, b), s, i, j) ==> !At(s, i, Digit)
  {
    if Matches(Cat(COMMA, b), s, i, j) {
      var m := CatSplit(COMMA, b, s, i, j);
      CommaIff(s, i, m);
    }
    if ReadComma(s, i).Some? {
      var m := ReadComma(s, i).value;
      CommaIff(s, i, m);
      if Matches(b, s, m, j) { CatJoin(COMMA, b, s, i, m, j); }
    }
  }

  lemma BracketThen(b: Regex, s: string, i: nat, j: nat)
    ensures Matches(Cat(One(Lit('[')), b), s, i, j) <==> ReadOne(s, i, '[').Some? && Matches(b, s, i + 1, j)
  {
    var open := One(Lit('['));
    if Matches(Cat(open, b), s, i, j) { var m := CatSplit(open, b, s, i, j); }
    if ReadOne(s, i, '[').Some? && Matches(b, s, i + 1, j) { CatJoin(open, b, s, i, i + 1, j); }
  }

  /** The matcher finds exactly what the pattern matches, and a pattern match has only one end. */
  lemma ReadPairDecidesThePattern(s: string, p: nat, e: nat)
    ensures Matches(COORDINATE_PAIR, s, p, e) <==> ReadPair(s, p) == Some(e)
  {
    var tail := Cat(Optional(Cat(COMMA, ALTITUDE)), CLOSE);
    var second := Cat(DECIMAL, tail);
    var middle := Cat(COMMA, second);
    var numbers := Cat(DECIMAL, middle);
    forall m: nat ensures Matches(tail, s, m, e) <==> ReadTail(s, m) == Some(e) { TailIff(s, m, e); }
    forall m: nat | Matches(tail, s, m, e) { TailStartsOutsideDigits(s, m); }
    forall m: nat { DecimalThen(tail, s, m, e); }
    forall m: nat { CommaThen(second, s, m, e); }
    forall m: nat { DecimalThen(middle, s, m, e); }
    forall m: nat { GapThen(numbers, s, m, e); }
    BracketThen(Cat(GAP, numbers), s, p, e);
  }
}
