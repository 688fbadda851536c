/** The main result on the text scrubber: it carries out the redaction of the tree. */
module ScrubRefinement {
  import opened Options
  import opened Chars
  import opened Regexes
  import opened CoordinatePairs
  import opened ScrubText
  import opened ScrubJson
  import opened ScrubPairs

  /** What the coordinate pass makes of a value. */
  function PairRedact(v: Json): Json
    decreases v, 1
  {
    match v
    case Str(_) => v
    case Bare(_) => v
    case Arr(items) => if LooksLikePair(items) then Str(SCRUBBED) else Arr(PairRedactItems(items))
    case Obj(fields) => Obj(PairRedactFields(fields))
  }

  function PairRedactItems(items: seq<Json>): (r: seq<Json>)
    ensures |r| == |items|
    decreases items, 0
  {
    if items == [] then [] else [PairRedact(items[0])] + PairRedactItems(items[1..])
  }

  function PairRedactFields(fields: seq<Field>): (r: seq<Field>)
    ensures |r| == |fields|
    decreases fields, 0
  {
    if fields == [] then [] else [PairRedactField(fields[0])] + PairRedactFields(fields[1..])
  }

  function PairRedactField(fd: Field): Field
    decreases fd, 2
  {
    Field(fd.key, PairRedact(fd.value))
  }

  /** What the scanning pass leaves: well-formed, and no position inside a string or key. */
  ghost predicate Settled(v: Json)
    decreases v, 1
  {
    match v
    case Str(raw) => PairFree(raw)
    case Bare(token) => IsToken(token)
    case Arr(items) => SettledItems(items)
    case Obj(fields) => SettledFields(fields)
  }

  ghost predicate SettledItems(items: seq<Json>)
    decreases items, 0
  {
    items == [] || (Settled(items[0]) && SettledItems(items[1..]))
  }

  ghost predicate SettledFields(fields: seq<Field>)
    decreases fields, 0
  {
    fields == [] || (SettledField(fields[0]) && SettledFields(fields[1..]))
  }

  ghost predicate SettledField(fd: Field)
    decreases fd, 2
  {
    PairFree(fd.key) && Settled(fd.value)
  }

  lemma {:induction false} KeyRedactSettles(v: Json, depth: nat)
    requires depth <= MAX_STRING_DEPTH && WellFormed(v)
    ensures Settled(KeyRedact(v, depth))
    decreases v, 1
  {
    match v
    case Str(raw) =>
      if QuotedValueIsSensitive(raw, depth) { ScrubbedIsPairFree(); } else { KeptStringIsPairFree(raw, depth); }
    case Bare(_) =>
    case Arr(items) => KeyRedactItemsSettle(items, depth);
    case Obj(fields) => KeyRedactFieldsSettle(fields, depth);
  }

  lemma ScrubbedIsPairFree()
    ensures PairFree(SCRUBBED)
  {
    forall p: nat | p < |SCRUBBED| ensures ReadPair(SCRUBBED, p).None? {
      assert SCRUBBED[1] == 's';
      if p == 0 { NoPairOver(SCRUBBED, p, 1); }
    }
  }

  lemma {:induction false} KeyRedactItemsSettle(items: seq<Json>, depth: nat)
    requires depth <= MAX_STRING_DEPTH && WellFormedItems(items)
    ensures SettledItems(KeyRedactItems(items, depth))
    decreases items, 0
  {
    if items != [] {
      KeyRedactSettles(items[0], depth);
      KeyRedactItemsSettle(items[1..], depth);
      var first, rest := KeyRedact(items[0], depth), KeyRedactItems(items[1..], depth);
      assert ([first] + rest)[1..] == rest;
    }
  }

  lemma {:induction false} KeyRedactFieldsSettle(fields: seq<Field>, depth: nat)
    requires depth <= MAX_STRING_DEPTH && WellFormedFields(fields)
    ensures SettledFields(KeyRedactFields(fields, depth))
    decreases fields, 0
  {
    if fields != [] {
      ScrubbedIsPairFree();
      if !IsLocationSensitiveKey(fields[0].key) { KeyRedactSettles(fields[0].value, depth); }
      KeyRedactFieldsSettle(fields[1..], depth);
      var first, rest := KeyRedactField(fields[0], depth), KeyRedactFields(fields[1..], depth);
      assert ([first] + rest)[1..] == rest;
    }
  }

  // ----- Reading a pair at an array -----

  lemma TheDecimal() returns (r: Regex)
    ensures ContextFree(r) && !Uses(r, ',') && !Uses(r, ']')
    ensures forall s: string, i: nat, j: nat {:trigger Matches(r, s, i, j)} ::
              Matches(r, s, i, j) && !At(s, j, Digit) <==> ReadDecimal(s, i) == Some(j)
  {
    r := DECIMAL;
    assert ContextFree(SIGN) && ContextFree(FRACTION);
    assert !Uses(SIGN, ',') && !Uses(FRACTION, ',') && !Uses(SIGN, ']') && !Uses(FRACTION, ']');
    forall s: string, i: nat, j: nat
      ensures Matches(r, s, i, j) && !At(s, j, Digit) <==> ReadDecimal(s, i) == Some(j)
    {
      DecimalIff(s, i, j);
    }
  }

  lemma TheAltitude() returns (r: Regex)
    ensures ContextFree(r) && !Uses(r, ',') && !Uses(r, ']')
    ensures forall s: string, i: nat, j: nat {:trigger Matches(r, s, i, j)} ::
              && (Matches(r, s, i, j) && !At(s, j, Digit) && !At(s, j, Lit('.')) ==> ReadAltitude(s, i) == Some(j))
              && (ReadAltitude(s, i) == Some(j) ==> Matches(r, s, i, j))
  {
    r := ALTITUDE;
    assert ContextFree(SIGN) && ContextFree(FRACTION);
    assert !Uses(SIGN, ',') && !Uses(FRACTION, ',') && !Uses(SIGN, ']') && !Uses(FRACTION, ']');
    forall s: string, i: nat, j: nat
      ensures Matches(r, s, i, j) && !At(s, j, Digit) && !At(s, j, Lit('.')) ==> ReadAltitude(s, i) == Some(j)
      ensures ReadAltitude(s, i) == Some(j) ==> Matches(r, s, i, j)
    {
      AltitudeIff(s, i, j);
    }
  }

  /** A token followed by `,` or `]`. */
  predicate TokenAt(text: string, p: nat, t: string) {
    IsToken(t) && Occurs(text, p, t) && p + |t| < |text| && text[p + |t|] in ",]"
  }

  /** The reader stops at the end of the token exactly when the whole token is such a number, and else inside it. */
  lemma DecimalAtToken(text: string, p: nat, t: string)
    requires TokenAt(text, p, t)
    ensures ReadDecimal(text, p) == Some(p + |t|) <==> ReadDecimal(t, 0) == Some(|t|)
    ensures ReadDecimal(text, p).Some? ==>
              var k := ReadDecimal(text, p).value; k <= p + |t| && (k < p + |t| ==> IsTokenChar(text[k]))
  {
    var r := TheDecimal();
    var end := p + |t|;
    assert t[0..|t|] == t;
    if ReadDecimal(text, p).Some? {
      var k := ReadDecimal(text, p).value;
      assert Matches(r, text, p, k);
      MatchUsesOnly(r, text, p, k, ',');
      MatchUsesOnly(r, text, p, k, ']');
      TokenOccurs(text, p, t);
      if k == end {
        MatchesElsewhere(r, text, p, end, t, 0);
      }
    }
    if ReadDecimal(t, 0) == Some(|t|) {
      assert Matches(r, t, 0, |t|);
      MatchesElsewhere(r, t, 0, |t|, text, p);
    }
  }

  lemma AltitudeAtToken(text: string, p: nat, t: string)
    requires TokenAt(text, p, t)
    ensures ReadAltitude(text, p) == Some(p + |t|) <==> ReadAltitude(t, 0) == Some(|t|)
    ensures ReadAltitude(text, p).Some? ==>
              var k := ReadAltitude(text, p).value; k <= p + |t| && (k < p + |t| ==> IsTokenChar(text[k]))
  {
    var r := TheAltitude();
    var end := p + |t|;
    assert t[0..|t|] == t;
    if ReadAltitude(text, p).Some? {
      var k := ReadAltitude(text, p).value;
      assert Matches(r, text, p, k);
      MatchUsesOnly(r, text, p, k, ',');
      MatchUsesOnly(r, text, p, k, ']');
      TokenOccurs(text, p, t);
      if k == end {
        MatchesElsewhere(r, text, p, end, t, 0);
      }
    }
    if ReadAltitude(t, 0) == Some(|t|) {
      assert Matches(r, t, 0, |t|);
      MatchesElsewhere(r, t, 0, |t|, text, p);
    }
  }

  lemma GapIsEmpty(text: string, k: nat)
    requires k <= |text| && (k < |text| ==> !IsSpace(text[k]))
    ensures ReadGap(text, k) == Some(k)
  {
  }

  lemma PunctuationReads(text: string, k: nat)
    requires k < |text| && (text[k] in ",]" || IsTokenChar(text[k]))
    ensures text[k] == ',' && k + 1 < |text| && !IsSpace(text[k + 1]) ==> ReadComma(text, k) == Some(k + 1)
    ensures text[k] != ',' ==> ReadComma(text, k).None?
    ensures ReadClose(text, k) == if text[k] == ']' then Some(k + 1) else None
  {
    GapIsEmpty(text, k);
    if text[k] == ',' && k + 1 < |text| && !IsSpace(text[k + 1]) { GapIsEmpty(text, k + 1); }
  }

  lemma NotANumber(text: string, p: nat)
    requires p < |text| && !IsDigit(text[p]) && text[p] != '-'
    ensures ReadDecimal(text, p).None? && ReadAltitude(text, p).None?
  {
  }

  /** The items of a list stand at `i`, and the list's `]` at `end`. */
  ghost predicate ListAt(text: string, i: nat, items: seq<Json>, end: nat) {
    && SettledItems(items)
    && Occurs(text, i, PrintItems(items)) && end == i + |PrintItems(items)| && CharAt(text, end, ']')
  }

  /** The first item, and where it ends: at the `]`, or at a `,` before the other items. */
  lemma ListSplit(text: string, i: nat, items: seq<Json>, end: nat) returns (j: nat)
    requires items != [] && ListAt(text, i, items, end)
    ensures Occurs(text, i, Print(items[0])) && j == i + |Print(items[0])| <= end
    ensures |items| == 1 ==> j == end
    ensures |items| > 1 ==> text[j] == ',' && ListAt(text, j + 1, items[1..], end) && j < end
    ensures text[i] == Print(items[0])[0] && !IsSpace(text[i]) && text[j] in ",]"
    ensures items[0].Bare? ==> TokenAt(text, i, items[0].token) && j == i + |items[0].token|
    ensures !items[0].Bare? ==> text[i] in "\"[{"
  {
    if |items| == 1 {
      j := end;
    } else {
      j := CommaSplit(text, i, Print(items[0]), PrintItems(items[1..]));
    }
    OccursAt(text, i, Print(items[0]), 0);
    FirstCharSettled(items[0]);
  }

  lemma FirstCharSettled(v: Json)
    requires Settled(v)
    ensures var c := Print(v)[0]; !IsSpace(c) && (v.Bare? || c in "\"[{")
    ensures v.Bare? ==> IsToken(v.token)
  {
  }

  /** After the second number: the list ends, or one more number and then it ends. */
  lemma TailReads(text: string, j: nat, rest: seq<Json>, end: nat)
    requires j < |text|
    requires rest == [] ==> j == end && text[j] == ']'
    requires rest != [] ==> text[j] == ',' && ListAt(text, j + 1, rest, end)
    ensures ReadTail(text, j) ==
            if rest == [] || (|rest| == 1 && IsAltitude(rest[0])) then Some(end + 1) else None
  {
    PunctuationReads(text, j);
    if rest != [] {
      var k := ListSplit(text, j + 1, rest, end);
      assert ReadComma(text, j) == Some(j + 1);
      if rest[0].Bare? {
        TokenTailReads(text, j, rest, end, k);
      } else {
        NotANumber(text, j + 1);
      }
    }
  }

  /** After the comma stands a token, up to `k`. */
  lemma TokenTailReads(text: string, j: nat, rest: seq<Json>, end: nat, k: nat)
    requires rest != [] && rest[0].Bare? && ListAt(text, j + 1, rest, end) && ReadComma(text, j) == Some(j + 1)
    requires ReadClose(text, j).None?
    requires TokenAt(text, j + 1, rest[0].token) && k == j + 1 + |rest[0].token| < |text| && text[k] in ",]"
    requires if |rest| == 1 then k == end && text[end] == ']' else text[k] == ','
    ensures ReadTail(text, j) == if |rest| == 1 && IsAltitude(rest[0]) then Some(end + 1) else None
  {
    AltitudeAtToken(text, j + 1, rest[0].token);
    if ReadAltitude(text, j + 1).Some? { PunctuationReads(text, ReadAltitude(text, j + 1).value); }
  }

  function ReadSecond(s: string, l: nat): Option<nat> {
    var m :- ReadDecimal(s, l);
    ReadTail(s, m)
  }

  /** The number is read up to `j`, or not at all to the point: neither comma nor bracket stands inside a token. */
  lemma NumberReads(text: string, i: nat, items: seq<Json>, end: nat, j: nat)
    requires items != [] && ListAt(text, i, items, end) && j == i + |Print(items[0])| < |text| && text[j] in ",]"
    ensures ReadDecimal(text, i) == Some(j) <==> IsDecimal(items[0])
    ensures ReadDecimal(text, i).Some? && ReadDecimal(text, i).value != j ==>
              ReadComma(text, ReadDecimal(text, i).value).None? && ReadClose(text, ReadDecimal(text, i).value).None?
  {
    var j' := ListSplit(text, i, items, end);
    if items[0].Bare? {
      DecimalAtToken(text, i, items[0].token);
      if ReadDecimal(text, i).Some? && ReadDecimal(text, i).value < j {
        PunctuationReads(text, ReadDecimal(text, i).value);
      }
    } else {
      NotANumber(text, i);
    }
  }

  lemma SecondReads(text: string, i: nat, items: seq<Json>, end: nat)
    requires items != [] && ListAt(text, i, items, end)
    ensures ReadSecond(text, i) ==
            if IsDecimal(items[0]) && (|items| == 1 || (|items| == 2 && IsAltitude(items[1])))
            then Some(end + 1) else None
  {
    var j := ListSplit(text, i, items, end);
    TailReads(text, j, items[1..], end);
    NumberReads(text, i, items, end, j);
  }

  function ReadFirst(s: string, i: nat): Option<nat> {
    var k :- ReadDecimal(s, i);
    var l :- ReadComma(s, k);
    ReadSecond(s, l)
  }

  lemma FirstReadsOne(text: string, i: nat, items: seq<Json>, end: nat)
    requires |items| == 1 && ListAt(text, i, items, end)
    ensures ReadFirst(text, i).None?
  {
    var j := ListSplit(text, i, items, end);
    NumberReads(text, i, items, end, j);
    PunctuationReads(text, j);
  }

  /** After the first number and its comma, what is left to read is the second. */
  lemma FirstThenSecond(text: string, i: nat, items: seq<Json>, end: nat, j: nat, second: Option<nat>)
    requires items != [] && ListAt(text, i, items, end) && j == i + |Print(items[0])| && j + 1 < |text|
    requires text[j] == ',' && !IsSpace(text[j + 1]) && ReadSecond(text, j + 1) == second
    ensures ReadFirst(text, i) == if IsDecimal(items[0]) then second else None
  {
    PunctuationReads(text, j);
    NumberReads(text, i, items, end, j);
    if ReadDecimal(text, i) == Some(j) { FirstIsPast(text, i, j, j + 1); } else { FirstStops(text, i); }
  }

  lemma FirstStops(text: string, i: nat)
    requires ReadDecimal(text, i).None? || ReadComma(text, ReadDecimal(text, i).value).None?
    ensures ReadFirst(text, i).None?
  {
  }

  lemma FirstIsPast(text: string, i: nat, k: nat, l: nat)
    requires ReadDecimal(text, i) == Some(k) && ReadComma(text, k) == Some(l)
    ensures ReadFirst(text, i) == ReadSecond(text, l)
  {
  }

  lemma SecondStands(text: string, l: nat, rest: seq<Json>, end: nat)
    requires rest != [] && ListAt(text, l, rest, end)
    ensures l < |text| && !IsSpace(text[l])
    ensures ReadSecond(text, l) == if LooksLikeTail(rest) then Some(end + 1) else None
  {
    var k := ListSplit(text, l, rest, end);
    SecondReads(text, l, rest, end);
  }

  /** What follows the first number of a pair. */
  predicate LooksLikeTail(rest: seq<Json>) {
    rest != [] && IsDecimal(rest[0]) && (|rest| == 1 || (|rest| == 2 && IsAltitude(rest[1])))
  }

  lemma PairIsFirstAndTail(items: seq<Json>, rest: seq<Json>)
    requires items != [] && rest == items[1..]
    ensures LooksLikePair(items) <==> IsDecimal(items[0]) && LooksLikeTail(rest)
  {
    assert |rest| == |items| - 1 && forall k :: 0 <= k < |rest| ==> rest[k] == items[k + 1];
  }

  lemma FirstReads(text: string, i: nat, items: seq<Json>, end: nat)
    requires items != [] && ListAt(text, i, items, end)
    ensures ReadFirst(text, i) == if LooksLikePair(items) then Some(end + 1) else None
  {
    if |items| == 1 {
      FirstReadsOne(text, i, items, end);
    } else {
      var j := ListSplit(text, i, items, end);
      var rest := items[1..];
      PairIsFirstAndTail(items, rest);
      SecondStands(text, j + 1, rest, end);
      FirstThenSecond(text, i, items, end, j, if LooksLikeTail(rest) then Some(end + 1) else None);
    }
  }

  /** At a printed array the pattern matches exactly when the array looks like a pair, and then the whole of it. */
  lemma ArrayReads(text: string, i: nat, items: seq<Json>, end: nat)
    requires CharAt(text, i, '[') && ListAt(text, i + 1, items, end)
    ensures ReadPair(text, i) == if LooksLikePair(items) then Some(end + 1) else None
  {
    assert ReadPair(text, i) ==
           (if ReadGap(text, i + 1).Some? then ReadFirst(text, ReadGap(text, i + 1).value) else None);
    if items == [] {
      GapIsEmpty(text, i + 1);
      NotANumber(text, i + 1);
    } else {
      var j := ListSplit(text, i + 1, items, end);
      GapIsEmpty(text, i + 1);
      FirstReads(text, i + 1, items, end);
    }
  }

  // ----- The coordinate pass over a whole value -----

  /** `f` is the coordinate pass over `text`. */
  ghost predicate IsReplace(f: nat -> string, text: string) {
    forall i: nat {:trigger ReplacePairs(text, i)} :: i <= |text| ==> f(i) == ReplacePairs(text, i)
  }

  lemma CharEmits(f: nat -> string, text: string, i: nat, c: char)
    requires IsReplace(f, text) && CharAt(text, i, c) && ReadPair(text, i).None?
    ensures Emits(f, i, i + 1, [c])
  {
    assert ReplacePairs(text, i) == [text[i]] + ReplacePairs(text, i + 1);
  }

  /** A character that opens no array. */
  lemma MarkupEmits(f: nat -> string, text: string, i: nat, c: char)
    requires IsReplace(f, text) && CharAt(text, i, c) && c != '['
    ensures Emits(f, i, i + 1, [c])
  {
    CharEmits(f, text, i, c);
  }

  lemma {:induction false} CopyEmits(f: nat -> string, text: string, i: nat, j: nat)
    requires IsReplace(f, text) && i <= j <= |text|
    requires forall k: nat :: i <= k < j ==> ReadPair(text, k).None?
    ensures Emits(f, i, j, text[i..j])
    decreases j - i
  {
    if i < j {
      CharEmits(f, text, i, text[i]);
      CopyEmits(f, text, i + 1, j);
      EmitsThen(f, i, i + 1, j, [text[i]], text[i + 1..j]);
      assert text[i..j] == [text[i]] + text[i + 1..j];
    }
  }

  lemma PairEmits(f: nat -> string, text: string, i: nat, e: nat)
    requires IsReplace(f, text) && ReadPair(text, i) == Some(e)
    ensures Emits(f, i, e, MARK)
  {
    assert ReplacePairs(text, i) == MARK + ReplacePairs(text, e);
  }

  /** Quoted text that holds no position is copied: a match cannot run over its closing quote. */
  lemma QuotedEmits(f: nat -> string, text: string, i: nat, raw: string)
    requires IsReplace(f, text) && PairFree(raw) && Occurs(text, i, "\"" + raw + "\"")
    ensures Emits(f, i, i + |raw| + 2, "\"" + raw + "\"")
  {
    var close := i + |raw| + 1;
    Bracketed(text, i, "\"", raw, "\"");
    assert text[i + 1..close] == raw;
    QuotedIsPairFree(text, i, close, raw);
    CopyEmits(f, text, i, close + 1);
    assert text[i..close + 1] == "\"" + raw + "\"";
  }

  lemma QuotedIsPairFree(text: string, i: nat, close: nat, raw: string)
    requires i < close < |text| && text[i] == '"' && text[close] == '"' && text[i + 1..close] == raw && PairFree(raw)
    ensures forall k: nat :: i <= k <= close ==> ReadPair(text, k).None?
  {
    forall k: nat | i <= k <= close ensures ReadPair(text, k).None? {
      if ReadPair(text, k).Some? { PairInsideQuotes(text, i, close, raw, k, ReadPair(text, k).value); }
    }
  }

  lemma PairInsideQuotes(text: string, i: nat, close: nat, raw: string, k: nat, e: nat)
    requires i < close < |text| && i <= k <= close && text[i] == '"' && text[close] == '"' && text[i + 1..close] == raw
    requires ReadPair(text, k) == Some(e)
    ensures k - i - 1 >= 0 && k - i - 1 < |raw| && ReadPair(raw, k - i - 1).Some?
  {
    PairUsesOnly(text, k, e, '"');
    InnerSlice(text, i + 1, close, k, e);
    PairElsewhere(text, k, e, raw, k - i - 1);
  }

  lemma InnerSlice(text: string, a: nat, b: nat, k: nat, e: nat)
    requires a <= k <= e <= b <= |text|
    ensures text[a..b][k - a..e - a] == text[k..e]
  {
    var s := text[a..b];
    assert forall x :: k <= x < e ==> s[x - a] == text[x];
  }

  lemma TokenCopied(f: nat -> string, text: string, i: nat, token: string)
    requires IsReplace(f, text) && IsToken(token) && Occurs(text, i, token)
    ensures Emits(f, i, i + |token|, token)
  {
    TokenOccurs(text, i, token);
    CopyEmits(f, text, i, i + |token|);
  }

  lemma {:induction false} ValueReplaced(f: nat -> string, text: string, i: nat, v: Json)
    requires IsReplace(f, text) && Settled(v) && Occurs(text, i, Print(v))
    ensures Emits(f, i, i + |Print(v)|, Print(PairRedact(v)))
    decreases v, 1
  {
    match v
    case Str(raw) => QuotedEmits(f, text, i, raw);
    case Bare(token) => TokenCopied(f, text, i, token);
    case Arr(items) => ArrayValueReplaced(f, text, i, v);
    case Obj(fields) => ObjectReplaced(f, text, i, fields);
  }

  lemma {:induction false} ArrayValueReplaced(f: nat -> string, text: string, i: nat, v: Json)
    requires IsReplace(f, text) && v.Arr? && SettledItems(v.items) && Occurs(text, i, Print(v))
    ensures Emits(f, i, i + |Print(v)|, Print(PairRedact(v)))
    decreases v, 0
  {
    assert Print(v) == "[" + PrintItems(v.items) + "]";
    ArrayReplaced(f, text, i, v.items);
  }

  lemma {:induction false} ArrayReplaced(f: nat -> string, text: string, i: nat, items: seq<Json>)
    requires IsReplace(f, text) && SettledItems(items) && Occurs(text, i, "[" + PrintItems(items) + "]")
    ensures var end := i + |PrintItems(items)| + 2;
            && (LooksLikePair(items) ==> Emits(f, i, end, MARK))
            && (!LooksLikePair(items) ==> Emits(f, i, end, "[" + PrintItems(PairRedactItems(items)) + "]"))
    decreases items, 1
  {
    var j := i + 1 + |PrintItems(items)|;
    Bracketed(text, i, "[", PrintItems(items), "]");
    ArrayOpens(f, text, i, items, j);
    if !LooksLikePair(items) {
      ItemsReplaced(f, text, i + 1, items);
      MarkupEmits(f, text, j, ']');
      BracketsEmit(f, i, j, "[", PrintItems(PairRedactItems(items)), "]");
    }
  }

  /** At an array's bracket the whole of a pair is replaced; any other array's bracket is copied. */
  lemma ArrayOpens(f: nat -> string, text: string, i: nat, items: seq<Json>, end: nat)
    requires IsReplace(f, text) && CharAt(text, i, '[') && ListAt(text, i + 1, items, end)
    ensures LooksLikePair(items) ==> Emits(f, i, end + 1, MARK)
    ensures !LooksLikePair(items) ==> Emits(f, i, i + 1, "[")
  {
    ArrayReads(text, i, items, end);
    var pair := ReadPair(text, i);
    if pair.Some? { PairEmits(f, text, i, pair.value); } else { CharEmits(f, text, i, '['); }
  }

  lemma {:induction false} ObjectReplaced(f: nat -> string, text: string, i: nat, fields: seq<Field>)
    requires IsReplace(f, text) && SettledFields(fields) && Occurs(text, i, "{" + PrintFields(fields) + "}")
    ensures Emits(f, i, i + |PrintFields(fields)| + 2, "{" + PrintFields(PairRedactFields(fields)) + "}")
    decreases fields, 1
  {
    var j := i + 1 + |PrintFields(fields)|;
    Bracketed(text, i, "{", PrintFields(fields), "}");
    MarkupEmits(f, text, i, '{');
    FieldsReplaced(f, text, i + 1, fields);
    MarkupEmits(f, text, j, '}');
    BracketsEmit(f, i, j, "{", PrintFields(PairRedactFields(fields)), "}");
  }

  lemma {:induction false} ItemsReplaced(f: nat -> string, text: string, i: nat, items: seq<Json>)
    requires IsReplace(f, text) && SettledItems(items) && Occurs(text, i, PrintItems(items))
    ensures Emits(f, i, i + |PrintItems(items)|, PrintItems(PairRedactItems(items)))
    decreases items, 0
  {
    if items == [] {
    } else if |items| == 1 {
      ValueReplaced(f, text, i, items[0]);
    } else {
      var j := CommaSplit(text, i, Print(items[0]), PrintItems(items[1..]));
      ValueReplaced(f, text, i, items[0]);
      MarkupEmits(f, text, j, ',');
      ItemsReplaced(f, text, j + 1, items[1..]);
      var first, rest := PairRedact(items[0]), PairRedactItems(items[1..]);
      CommaEmits(f, i, j, i + |PrintItems(items)|, Print(first), PrintItems(rest));
      assert ([first] + rest)[1..] == rest;
    }
  }

  lemma {:induction false} FieldReplaced(f: nat -> string, text: string, i: nat, fd: Field)
    requires IsReplace(f, text) && SettledField(fd) && Occurs(text, i, PrintField(fd))
    ensures Emits(f, i, i + |PrintField(fd)|, PrintField(PairRedactField(fd)))
    decreases fd, 2
  {
    var quoted, j := "\"" + fd.key + "\"", i + |fd.key| + 2;
    assert PrintField(fd) == quoted + (":" + Print(fd.value));
    OccursSplit(text, i, quoted, ":" + Print(fd.value));
    OccursSplit(text, j, ":", Print(fd.value));
    OccursAt(text, j, ":", 0);
    QuotedEmits(f, text, i, fd.key);
    MarkupEmits(f, text, j, ':');
    ValueReplaced(f, text, j + 1, fd.value);
    EmitsThen(f, i, j, j + 1, quoted, ":");
    EmitsThen(f, i, j + 1, i + |PrintField(fd)|, quoted + ":", Print(PairRedact(fd.value)));
    assert quoted + ":" == "\"" + fd.key + "\":";
  }

  lemma {:induction false} FieldsReplaced(f: nat -> string, text: string, i: nat, fields: seq<Field>)
    requires IsReplace(f, text) && SettledFields(fields) && Occurs(text, i, PrintFields(fields))
    ensures Emits(f, i, i + |PrintFields(fields)|, PrintFields(PairRedactFields(fields)))
    decreases fields, 0
  {
    if fields == [] {
    } else if |fields| == 1 {
      FieldReplaced(f, text, i, fields[0]);
    } else {
      var j := CommaSplit(text, i, PrintField(fields[0]), PrintFields(fields[1..]));
      FieldReplaced(f, text, i, fields[0]);
      MarkupEmits(f, text, j, ',');
      FieldsReplaced(f, text, j + 1, fields[1..]);
      var first, rest := PairRedactField(fields[0]), PairRedactFields(fields[1..]);
      CommaEmits(f, i, j, i + |PrintFields(fields)|, PrintField(first), PrintFields(rest));
      assert ([first] + rest)[1..] == rest;
    }
  }

  // ----- The two passes together -----

  lemma {:induction false} RedactIsBothPasses(v: Json, depth: nat)
    requires depth <= MAX_STRING_DEPTH
    ensures PairRedact(KeyRedact(v, depth)) == Redact(v, depth)
    decreases v, 1
  {
    match v
    case Arr(items) =>
      RedactItemsIsBothPasses(items, depth);
      PairsLookTheSame(items, depth);
    case Obj(fields) => RedactFieldsIsBothPasses(fields, depth);
    case _ =>
  }

  lemma PairsLookTheSame(items: seq<Json>, depth: nat)
    requires depth <= MAX_STRING_DEPTH
    ensures LooksLikePair(KeyRedactItems(items, depth)) == LooksLikePair(items)
  {
    var r := KeyRedactItems(items, depth);
    forall k | 0 <= k < |items| ensures r[k] == KeyRedact(items[k], depth) { KeyRedactItemsAt(items, k, depth); }
    assert forall k :: 0 <= k < |items| ==> (r[k].Bare? <==> items[k].Bare?) && (r[k].Bare? ==> r[k] == items[k]);
  }

  lemma {:induction false} KeyRedactItemsAt(items: seq<Json>, k: nat, depth: nat)
    requires depth <= MAX_STRING_DEPTH && k < |items|
    ensures KeyRedactItems(items, depth)[k] == KeyRedact(items[k], depth)
  {
    if k > 0 { KeyRedactItemsAt(items[1..], k - 1, depth); }
  }

  lemma {:induction false} RedactItemsIsBothPasses(items: seq<Json>, depth: nat)
    requires depth <= MAX_STRING_DEPTH
    ensures PairRedactItems(KeyRedactItems(items, depth)) == RedactItems(items, depth)
    decreases items, 0
  {
    if items != [] {
      RedactIsBothPasses(items[0], depth);
      RedactItemsIsBothPasses(items[1..], depth);
      var first, rest := KeyRedact(items[0], depth), KeyRedactItems(items[1..], depth);
      assert ([first] + rest)[1..] == rest;
    }
  }

  lemma {:induction false} RedactFieldIsBothPasses(fd: Field, depth: nat)
    requires depth <= MAX_STRING_DEPTH
    ensures PairRedactField(KeyRedactField(fd, depth)) == RedactField(fd, depth)
    decreases fd, 2
  {
    RedactIsBothPasses(fd.value, depth);
    assert PairRedact(Str(SCRUBBED)) == Str(SCRUBBED);
  }

  lemma {:induction false} RedactFieldsIsBothPasses(fields: seq<Field>, depth: nat)
    requires depth <= MAX_STRING_DEPTH
    ensures PairRedactFields(KeyRedactFields(fields, depth)) == RedactFields(fields, depth)
    decreases fields, 0
  {
    if fields != [] {
      RedactFieldIsBothPasses(fields[0], depth);
      RedactFieldsIsBothPasses(fields[1..], depth);
      var first, rest := KeyRedactField(fields[0], depth), KeyRedactFields(fields[1..], depth);
      assert ([first] + rest)[1..] == rest;
    }
  }

  lemma ScanOfPrint(v: Json, depth: nat)
    requires depth <= MAX_STRING_DEPTH && WellFormed(v)
    ensures Scan(Print(v), 0, -1, -1, depth) == Print(KeyRedact(v, depth))
  {
    var text := Print(v);
    var f := (i: nat) => if i <= |text| then Scan(text, i, -1, -1, depth) else "";
    assert text[0..|text|] == text;
    ValueEmits(f, text, 0, v, depth);
    assert f(0) == Scan(text, 0, -1, -1, depth) && f(|text|) == "";
  }

  lemma ReplaceOfPrint(v: Json)
    requires Settled(v)
    ensures ReplacePairs(Print(v), 0) == Print(PairRedact(v))
  {
    var text := Print(v);
    var f := (i: nat) => if i <= |text| then ReplacePairs(text, i) else "";
    assert text[0..|text|] == text;
    ValueReplaced(f, text, 0, v);
    assert f(0) == ReplacePairs(text, 0) && f(|text|) == "";
  }

  /** Scrubbing the text of any JSON value gives the text of the redacted value. */
  lemma ScrubOfPrintIsPrintOfRedact(v: Json, depth: nat)
    requires depth <= MAX_STRING_DEPTH && WellFormed(v)
    ensures ScrubAt(Print(v), depth) == Print(Redact(v, depth))
  {
    ScanOfPrint(v, depth);
    KeyRedactSettles(v, depth);
    ReplaceOfPrint(KeyRedact(v, depth));
    RedactIsBothPasses(v, depth);
  }
}
