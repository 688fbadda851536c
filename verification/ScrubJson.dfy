/**
 * Scrubbing the text of a JSON value is the text of the scrubbed value: the
 * scanner's brackets, quotes and look-aheads carry out, on printed text, exactly
 * the redaction of the tree.
 */
module ScrubJson {
  import opened Options
  import opened Chars
  import opened Regexes
  import opened CoordinatePairs
  import opened ScrubText

  /**
   * JSON as it is written. `raw` and `key` are the text between the quotes,
   * escapes included; `Bare` is a number, `true`, `false` or `null`.
   */
  datatype Json = Str(raw: string) | Bare(token: string) | Arr(items: seq<Json>) | Obj(fields: seq<Field>)
  datatype Field = Field(key: string, value: Json)

  function Print(v: Json): (s: string)
    ensures |s| > 0
    decreases v, 1
  {
    match v
    case Str(raw) => "\"" + raw + "\""
    case Bare(token) => if token == "" then "null" else token
    case Arr(items) => "[" + PrintItems(items) + "]"
    case Obj(fields) => "{" + PrintFields(fields) + "}"
  }

  function PrintItems(items: seq<Json>): string
    decreases items, 0
  {
    if items == [] then ""
    else if |items| == 1 then Print(items[0])
    else Print(items[0]) + ("," + PrintItems(items[1..]))
  }

  function PrintField(f: Field): string
    decreases f, 2
  {
    "\"" + f.key + "\":" + Print(f.value)
  }

  function PrintFields(fields: seq<Field>): string
    decreases fields, 0
  {
    if fields == [] then ""
    else if |fields| == 1 then PrintField(fields[0])
    else PrintField(fields[0]) + ("," + PrintFields(fields[1..]))
  }

  // ----- What the text stands for -----

  /** The text of a JSON string: every quote and backslash escaped, no line break. */
  predicate IsBody(raw: string) { IsBodyFrom(raw, 0) }

  predicate IsBodyFrom(raw: string, k: nat)
    decreases |raw| - k
  {
    if k >= |raw| then k == |raw|
    else if raw[k] == '\\' then k + 1 < |raw| && IsBodyFrom(raw, k + 2)
    else raw[k] != '"' && !IsLineBreak(raw[k]) && IsBodyFrom(raw, k + 1)
  }

  predicate IsTokenChar(c: char) { IsLetter(c) || IsDigit(c) || c in {'+', '-', '.'} }

  predicate IsToken(token: string) {
    token != "" && forall k :: 0 <= k < |token| ==> IsTokenChar(token[k])
  }

  /** No coordinate pair stands anywhere in the text. */
  ghost predicate PairFree(s: string) {
    forall p: nat :: p < |s| ==> ReadPair(s, p).None?
  }

  /** The longest key whose quotes a look-ahead after a bare value still spans. */
  const MAX_PLAIN_KEY := MAX_QUOTED_KEY_SPAN - 1

  ghost predicate WellFormed(v: Json)
    decreases v, 1
  {
    match v
    case Str(raw) => IsBody(raw)
    case Bare(token) => IsToken(token)
    case Arr(items) => WellFormedItems(items)
    case Obj(fields) => WellFormedFields(fields)
  }

  ghost predicate WellFormedItems(items: seq<Json>)
    decreases items, 0
  {
    items == [] || (WellFormed(items[0]) && WellFormedItems(items[1..]))
  }

  ghost predicate WellFormedFields(fields: seq<Field>)
    decreases fields, 0
  {
    fields == [] || (WellFormedField(fields[0]) && WellFormedFields(fields[1..]))
  }

  ghost predicate WellFormedField(f: Field)
    decreases f, 2
  {
    IsBody(f.key) && |f.key| <= MAX_PLAIN_KEY && PairFree(f.key) && WellFormed(f.value)
  }

  /** A number as the coordinate pattern takes it: at most three integer digits and a fraction, or any altitude. */
  predicate IsDecimal(v: Json) { v.Bare? && ReadDecimal(v.token, 0) == Some(|v.token|) }

  predicate IsAltitude(v: Json) { v.Bare? && ReadAltitude(v.token, 0) == Some(|v.token|) }

  /** Two decimals, and perhaps a third number. */
  predicate LooksLikePair(items: seq<Json>) {
    2 <= |items| <= 3 && IsDecimal(items[0]) && IsDecimal(items[1]) && (|items| == 3 ==> IsAltitude(items[2]))
  }

  /** The redaction: by key, then strings that hold scrubbable text, then bare positions. */
  function Redact(v: Json, depth: nat): Json
    requires depth <= MAX_STRING_DEPTH
    decreases v, 1
  {
    match v
    case Str(raw) => if QuotedValueIsSensitive(raw, depth) then Str(SCRUBBED) else v
    case Bare(_) => v
    case Arr(items) => if LooksLikePair(items) then Str(SCRUBBED) else Arr(RedactItems(items, depth))
    case Obj(fields) => Obj(RedactFields(fields, depth))
  }

  function RedactItems(items: seq<Json>, depth: nat): seq<Json>
    requires depth <= MAX_STRING_DEPTH
    decreases items, 0
  {
    if items == [] then [] else [Redact(items[0], depth)] + RedactItems(items[1..], depth)
  }

  function RedactFields(fields: seq<Field>, depth: nat): seq<Field>
    requires depth <= MAX_STRING_DEPTH
    decreases fields, 0
  {
    if fields == [] then []
    else [RedactField(fields[0], depth)] + RedactFields(fields[1..], depth)
  }

  function RedactField(f: Field, depth: nat): Field
    requires depth <= MAX_STRING_DEPTH
    decreases f, 2
  {
    Field(f.key, if IsLocationSensitiveKey(f.key) then Str(SCRUBBED) else Redact(f.value, depth))
  }

  // ----- The scanning pass: everything but bare positions -----

  function KeyRedact(v: Json, depth: nat): Json
    requires depth <= MAX_STRING_DEPTH
    decreases v, 1
  {
    match v
    case Str(raw) => if QuotedValueIsSensitive(raw, depth) then Str(SCRUBBED) else v
    case Bare(_) => v
    case Arr(items) => Arr(KeyRedactItems(items, depth))
    case Obj(fields) => Obj(KeyRedactFields(fields, depth))
  }

  function KeyRedactItems(items: seq<Json>, depth: nat): (r: seq<Json>)
    requires depth <= MAX_STRING_DEPTH
    ensures |r| == |items|
    decreases items, 0
  {
    if items == [] then [] else [KeyRedact(items[0], depth)] + KeyRedactItems(items[1..], depth)
  }

  function KeyRedactFields(fields: seq<Field>, depth: nat): (r: seq<Field>)
    requires depth <= MAX_STRING_DEPTH
    ensures |r| == |fields|
    decreases fields, 0
  {
    if fields == [] then [] else [KeyRedactField(fields[0], depth)] + KeyRedactFields(fields[1..], depth)
  }

  function KeyRedactField(f: Field, depth: nat): Field
    requires depth <= MAX_STRING_DEPTH
    decreases f, 2
  {
    Field(f.key, if IsLocationSensitiveKey(f.key) then Str(SCRUBBED) else KeyRedact(f.value, depth))
  }

  /** `s` stands in `text` at `i`. */
  predicate Occurs(text: string, i: nat, s: string) {
    i + |s| <= |text| && text[i..i + |s|] == s
  }

  lemma OccursSplit(text: string, i: nat, a: string, b: string)
    requires Occurs(text, i, a + b)
    ensures Occurs(text, i, a) && Occurs(text, i + |a|, b)
  {
    var s := a + b;
    assert text[i..i + |a|] == text[i..i + |s|][..|a|] == s[..|a|] == a;
    assert text[i + |a|..i + |s|] == text[i..i + |s|][|a|..] == s[|a|..] == b;
  }

  lemma OccursAt(text: string, i: nat, s: string, k: nat)
    requires Occurs(text, i, s) && k < |s|
    ensures text[i + k] == s[k]
  {
    assert text[i..i + |s|][k] == text[i + k];
  }

  /** A value is followed by the end of the text or by punctuation. */
  predicate Stops(text: string, j: nat) {
    j == |text| || (j < |text| && text[j] in ",]}")
  }

  /**
   * A pass as the function from a position to the output for the rest of the
   * text. From `i` to `j` it puts out `out`.
   */
  ghost predicate Emits(f: nat -> string, i: nat, j: nat, out: string) {
    f(i) == out + f(j)
  }

  lemma EmitsThen(f: nat -> string, i: nat, j: nat, k: nat, a: string, b: string)
    requires Emits(f, i, j, a) && Emits(f, j, k, b)
    ensures Emits(f, i, k, a + b)
  {
    assert (a + b) + f(k) == a + (b + f(k));
  }

  /** A first part, a comma and a rest; an opening bracket, an inside and a closing bracket. */
  lemma CommaEmits(f: nat -> string, i: nat, j: nat, k: nat, first: string, rest: string)
    requires Emits(f, i, j, first) && Emits(f, j, j + 1, ",") && Emits(f, j + 1, k, rest)
    ensures Emits(f, i, k, first + ("," + rest))
  {
    EmitsThen(f, j, j + 1, k, ",", rest);
    EmitsThen(f, i, j, k, first, "," + rest);
  }

  lemma BracketsEmit(f: nat -> string, i: nat, j: nat, open: string, inner: string, close: string)
    requires Emits(f, i, i + 1, open) && Emits(f, i + 1, j, inner) && Emits(f, j, j + 1, close)
    ensures Emits(f, i, j + 1, open + inner + close)
  {
    EmitsThen(f, i, i + 1, j, open, inner);
    EmitsThen(f, i, j, j + 1, open + inner, close);
  }

  /** `f` is the scanning pass over `text` with no quote left open. */
  ghost predicate IsScan(f: nat -> string, text: string, depth: nat)
    requires depth <= MAX_STRING_DEPTH
  {
    forall i: nat {:trigger Scan(text, i, -1, -1, depth)} :: i <= |text| ==> f(i) == Scan(text, i, -1, -1, depth)
  }

  lemma {:induction false} QuoteScanBody(text: string, i: nat, raw: string, k: nat)
    requires IsBodyFrom(raw, k) && k <= |raw| && Occurs(text, i, raw) && CharAt(text, i + |raw|, '"')
    ensures QuoteScan(text, '"', i + k) == ClosedAt(i + |raw|)
    decreases |raw| - k
  {
    if k < |raw| {
      OccursAt(text, i, raw, k);
      QuoteScanBody(text, i, raw, if raw[k] == '\\' then k + 2 else k + 1);
    }
  }

  lemma StringCloses(text: string, i: nat, raw: string)
    requires IsBody(raw) && Occurs(text, i, "\"" + raw + "\"")
    ensures i + |raw| + 1 < |text| && text[i] == '"' && QuoteClose(text, i) == ClosedAt(i + |raw| + 1)
    ensures text[i + 1..i + |raw| + 1] == raw
  {
    OccursSplit(text, i, "\"" + raw, "\"");
    OccursSplit(text, i, "\"", raw);
    OccursAt(text, i + 1 + |raw|, "\"", 0);
    OccursAt(text, i, "\"", 0);
    QuoteScanBody(text, i + 1, raw, 0);
  }

  /** One move of the pass that leaves no quote open. */
  lemma KeepingMoveEmits(f: nat -> string, text: string, i: nat, j: nat, depth: nat)
    requires depth <= MAX_STRING_DEPTH && IsScan(f, text, depth) && i < |text|
    requires MoveAt(text, i, -1, -1, depth) == Move(j, None, -1, -1)
    ensures i <= j <= |text| && Emits(f, i, j, text[i..j])
  {
    assert Scan(text, i, -1, -1, depth) == text[i..j] + Scan(text, j, -1, -1, depth);
  }

  lemma CuttingMoveEmits(f: nat -> string, text: string, i: nat, cut: Cut, depth: nat)
    requires depth <= MAX_STRING_DEPTH && IsScan(f, text, depth) && i < |text|
    requires MoveAt(text, i, -1, -1, depth) == Move(cut.end, Some(cut), -1, -1)
    ensures i <= cut.start < cut.end <= |text|
    ensures Emits(f, i, cut.end, text[i..cut.start] + cut.replacement)
  {
    assert Scan(text, i, -1, -1, depth) == text[i..cut.start] + cut.replacement + Scan(text, cut.end, -1, -1, depth);
  }

  lemma QuotedValueMove(text: string, i: nat, close: nat, content: string, depth: nat)
    requires depth <= MAX_STRING_DEPTH && i < |text| && text[i] == '"' && QuoteClose(text, i) == ClosedAt(close)
    requires AfterKeyColon(text, close + 1).None? && text[i + 1..close] == content
    ensures MoveAt(text, i, -1, -1, depth) ==
            Move(close + 1,
                 if QuotedValueIsSensitive(content, depth) then Some(Cut(i, close + 1, MARK)) else None, -1, -1)
  {
  }

  lemma NoColonAtStop(text: string, j: nat)
    requires Stops(text, j)
    ensures AfterKeyColon(text, j).None?
  {
    assert SkipBlanks(text, j) == j;
  }

  /** What the pass puts out for a quoted value. */
  function QuotedOut(content: string, depth: nat): string
    requires depth <= MAX_STRING_DEPTH
  {
    if QuotedValueIsSensitive(content, depth) then MARK else "\"" + content + "\""
  }

  /** A string value stands at `i`: it closes at `close`, and no colon makes it a key. */
  lemma StringStands(text: string, i: nat, raw: string, end: nat) returns (close: nat)
    requires IsBody(raw) && Occurs(text, i, "\"" + raw + "\"") && end == i + |raw| + 2 && Stops(text, end)
    ensures close + 1 == end && i < close < |text| && text[i] == '"' && QuoteClose(text, i) == ClosedAt(close)
    ensures AfterKeyColon(text, close + 1).None? && text[i + 1..close] == raw
  {
    close := i + |raw| + 1;
    StringCloses(text, i, raw);
    NoColonAtStop(text, end);
  }

  lemma StringEmits(f: nat -> string, text: string, i: nat, raw: string, depth: nat)
    requires depth <= MAX_STRING_DEPTH && IsScan(f, text, depth) && IsBody(raw)
    requires Occurs(text, i, "\"" + raw + "\"") && Stops(text, i + |raw| + 2)
    ensures Emits(f, i, i + |raw| + 2, QuotedOut(raw, depth))
  {
    var close := StringStands(text, i, raw, i + |raw| + 2);
    QuotedValueEmits(f, text, i, close, raw, depth);
  }

  lemma QuotedValueEmits(f: nat -> string, text: string, i: nat, close: nat, content: string, depth: nat)
    requires depth <= MAX_STRING_DEPTH && IsScan(f, text, depth)
    requires i < |text| && text[i] == '"' && QuoteClose(text, i) == ClosedAt(close)
    requires AfterKeyColon(text, close + 1).None? && text[i + 1..close] == content
    ensures Emits(f, i, close + 1, QuotedOut(content, depth))
  {
    QuotedValueMove(text, i, close, content, depth);
    if QuotedValueIsSensitive(content, depth) {
      assert text[i..i] == "" && "" + MARK == MARK;
      MarkEmits(f, text, i, i, close + 1, "", MARK, depth);
    } else {
      KeepingMoveEmits(f, text, i, close + 1, depth);
      assert text[i..close + 1] == "\"" + content + "\"";
    }
  }

  lemma TokenMove(text: string, i: nat, end: nat, depth: nat) returns (next: nat)
    requires depth <= MAX_STRING_DEPTH && i < end <= |text| && Stops(text, end)
    requires forall k :: i <= k < end ==> IsTokenChar(text[k])
    ensures i < next <= end && MoveAt(text, i, -1, -1, depth) == Move(next, None, -1, -1)
  {
    if IsIdentStart(text[i]) {
      IdentEndsInToken(text, i + 1, end);
      next := IdentEnd(text, i + 1);
      assert next < end ==> IsTokenChar(text[next]);
      assert SkipBlanks(text, next) == next;
      assert AfterKeyColon(text, next).None?;
    } else {
      next := i + 1;
    }
  }

  /** Inside a bare token nothing is a key: the token goes out as it is. */
  lemma {:induction false} TokenEmits(f: nat -> string, text: string, i: nat, end: nat, depth: nat)
    requires depth <= MAX_STRING_DEPTH && IsScan(f, text, depth) && i <= end <= |text| && Stops(text, end)
    requires forall k :: i <= k < end ==> IsTokenChar(text[k])
    ensures Emits(f, i, end, text[i..end])
    decreases end - i
  {
    if i < end {
      var next := TokenMove(text, i, end, depth);
      KeepingMoveEmits(f, text, i, next, depth);
      TokenEmits(f, text, next, end, depth);
      assert text[i..end] == text[i..next] + text[next..end];
      EmitsThen(f, i, next, end, text[i..next], text[next..end]);
    }
  }

  lemma {:induction false} IdentEndsInToken(text: string, i: nat, end: nat)
    requires i <= end <= |text| && Stops(text, end)
    ensures IdentEnd(text, i) <= end
    decreases end - i
  {
    if i < end { IdentEndsInToken(text, i + 1, end); }
  }

  /** Punctuation goes out as it is. */
  lemma PunctuationEmits(f: nat -> string, text: string, i: nat, depth: nat)
    requires depth <= MAX_STRING_DEPTH && IsScan(f, text, depth) && i < |text| && text[i] in "[]{},"
    ensures Emits(f, i, i + 1, [text[i]])
  {
    assert MoveAt(text, i, -1, -1, depth) == Move(i + 1, None, -1, -1);
    KeepingMoveEmits(f, text, i, i + 1, depth);
    assert text[i..i + 1] == [text[i]];
  }

  // ----- Where a value ends -----

  lemma FirstChar(v: Json)
    requires WellFormed(v)
    ensures var c := Print(v)[0]; c in "\"[{" || IsTokenChar(c)
    ensures v.Str? <==> Print(v)[0] == '"'
    ensures v.Arr? || v.Obj? <==> Print(v)[0] in "[{"
  {
  }

  lemma {:induction false} ContainerSkipsToken(text: string, i: nat, end: nat, d: int)
    requires i <= end <= |text| && forall k :: i <= k < end ==> IsTokenChar(text[k])
    ensures ContainerScan(text, i, d) == ContainerScan(text, end, d)
    decreases end - i
  {
    if i < end { ContainerSkipsToken(text, i + 1, end, d); }
  }

  lemma ContainerSkipsString(text: string, i: nat, raw: string, d: int)
    requires IsBody(raw) && Occurs(text, i, "\"" + raw + "\"")
    ensures ContainerScan(text, i, d) == ContainerScan(text, i + |raw| + 2, d)
  {
    StringCloses(text, i, raw);
  }

  lemma Bracketed(text: string, i: nat, open: string, inner: string, close: string)
    requires |open| == |close| == 1 && Occurs(text, i, open + inner + close)
    ensures i + |inner| + 2 <= |text| && Occurs(text, i + 1, inner)
    ensures text[i] == open[0] && text[i + 1 + |inner|] == close[0]
  {
    OccursSplit(text, i, open + inner, close);
    OccursSplit(text, i, open, inner);
    OccursAt(text, i, open, 0);
    OccursAt(text, i + 1 + |inner|, close, 0);
  }

  lemma TokenOccurs(text: string, i: nat, token: string)
    requires IsToken(token) && Occurs(text, i, token)
    ensures forall k :: i <= k < i + |token| ==> IsTokenChar(text[k])
  {
    forall k | i <= k < i + |token| ensures IsTokenChar(text[k]) { OccursAt(text, i, token, k - i); }
  }

  /** Between brackets the scan is one deeper: it ends after them at depth zero, and goes on otherwise. */
  lemma BracketsScan(text: string, i: nat, j: nat, d: nat)
    requires i < j < |text| && text[i] in "{[" && text[j] in "}]"
    requires ContainerScan(text, i + 1, d + 1) == ContainerScan(text, j, d + 1)
    ensures ContainerScan(text, i, d) == if d == 0 then Some(j + 1) else ContainerScan(text, j + 1, d)
  {
  }

  lemma {:induction false} ContainerSkipsValue(text: string, i: nat, v: Json, d: nat)
    requires WellFormed(v) && Occurs(text, i, Print(v))
    ensures d > 0 ==> ContainerScan(text, i, d) == ContainerScan(text, i + |Print(v)|, d)
    ensures d == 0 && (v.Arr? || v.Obj?) ==> ContainerScan(text, i, d) == Some(i + |Print(v)|)
    decreases v, 1
  {
    match v
    case Str(raw) => ContainerSkipsString(text, i, raw, d);
    case Bare(token) =>
      TokenOccurs(text, i, token);
      ContainerSkipsToken(text, i, i + |token|, d);
    case Arr(items) => ContainerSkipsArray(text, i, items, d);
    case Obj(fields) => ContainerSkipsObject(text, i, fields, d);
  }

  lemma {:induction false} ContainerSkipsArray(text: string, i: nat, items: seq<Json>, d: nat)
    requires WellFormedItems(items)
    requires Occurs(text, i, "[" + PrintItems(items) + "]")
    ensures var end := i + |PrintItems(items)| + 2;
            ContainerScan(text, i, d) == if d == 0 then Some(end) else ContainerScan(text, end, d)
    decreases items, 1
  {
    Bracketed(text, i, "[", PrintItems(items), "]");
    ContainerSkipsItems(text, i + 1, items, d + 1);
    BracketsScan(text, i, i + 1 + |PrintItems(items)|, d);
  }

  lemma {:induction false} ContainerSkipsObject(text: string, i: nat, fields: seq<Field>, d: nat)
    requires WellFormedFields(fields)
    requires Occurs(text, i, "{" + PrintFields(fields) + "}")
    ensures var end := i + |PrintFields(fields)| + 2;
            ContainerScan(text, i, d) == if d == 0 then Some(end) else ContainerScan(text, end, d)
    decreases fields, 1
  {
    Bracketed(text, i, "{", PrintFields(fields), "}");
    ContainerSkipsFields(text, i + 1, fields, d + 1);
    BracketsScan(text, i, i + 1 + |PrintFields(fields)|, d);
  }

  /** Splits a printed list after its first element. */
  lemma CommaSplit(text: string, i: nat, first: string, rest: string) returns (j: nat)
    requires Occurs(text, i, first + ("," + rest))
    ensures j == i + |first| < |text| && text[j] == ',' && Occurs(text, i, first) && Occurs(text, j + 1, rest)
  {
    j := i + |first|;
    OccursSplit(text, i, first, "," + rest);
    OccursSplit(text, j, ",", rest);
    OccursAt(text, j, ",", 0);
  }

  lemma ContainerSkipsComma(text: string, i: nat, j: nat, end: nat, d: nat)
    requires i <= |text| && j < |text| && end <= |text| && text[j] == ',' && d > 0
    requires ContainerScan(text, i, d) == ContainerScan(text, j, d)
    requires ContainerScan(text, j + 1, d) == ContainerScan(text, end, d)
    ensures ContainerScan(text, i, d) == ContainerScan(text, end, d)
  {
  }

  lemma {:induction false} ContainerSkipsItems(text: string, i: nat, items: seq<Json>, d: nat)
    requires WellFormedItems(items) && Occurs(text, i, PrintItems(items)) && d > 0
    ensures ContainerScan(text, i, d) == ContainerScan(text, i + |PrintItems(items)|, d)
    decreases items, 0
  {
    if |items| == 1 {
      ContainerSkipsValue(text, i, items[0], d);
    } else if |items| > 1 {
      var j := CommaSplit(text, i, Print(items[0]), PrintItems(items[1..]));
      ContainerSkipsValue(text, i, items[0], d);
      ContainerSkipsItems(text, j + 1, items[1..], d);
      ContainerSkipsComma(text, i, j, i + |PrintItems(items)|, d);
    }
  }

  lemma {:induction false} ContainerSkipsField(text: string, i: nat, f: Field, d: nat)
    requires WellFormedField(f) && Occurs(text, i, PrintField(f)) && d > 0
    ensures ContainerScan(text, i, d) == ContainerScan(text, i + |PrintField(f)|, d)
    decreases f, 2
  {
    var j := SplitField(text, i, f);
    ContainerSkipsString(text, i, f.key, d);
    ContainerSkipsValue(text, j, f.value, d);
  }

  lemma {:induction false} ContainerSkipsFields(text: string, i: nat, fields: seq<Field>, d: nat)
    requires WellFormedFields(fields)
    requires Occurs(text, i, PrintFields(fields)) && d > 0
    ensures ContainerScan(text, i, d) == ContainerScan(text, i + |PrintFields(fields)|, d)
    decreases fields, 0
  {
    if |fields| == 1 {
      ContainerSkipsField(text, i, fields[0], d);
    } else if |fields| > 1 {
      var end := i + |PrintFields(fields)|;
      var j := SplitFields(text, i, fields, end);
      ContainerSkipsField(text, i, fields[0], d);
      ContainerSkipsFields(text, j + 1, fields[1..], d);
      ContainerSkipsComma(text, i, j, end, d);
    }
  }

  lemma SplitFields(text: string, i: nat, fields: seq<Field>, end: nat) returns (j: nat)
    requires |fields| > 1 && Occurs(text, i, PrintFields(fields)) && end == i + |PrintFields(fields)|
    ensures j == i + |PrintField(fields[0])| < end <= |text| && text[j] == ',' && Occurs(text, i, PrintField(fields[0]))
    ensures Occurs(text, j + 1, PrintFields(fields[1..])) && j + 1 + |PrintFields(fields[1..])| == end
  {
    j := CommaSplit(text, i, PrintField(fields[0]), PrintFields(fields[1..]));
  }

  /** A field is its quoted key, a colon, and its value at `j`. */
  lemma SplitField(text: string, i: nat, f: Field) returns (j: nat)
    requires WellFormedField(f) && Occurs(text, i, PrintField(f))
    ensures j == i + |f.key| + 3 < |text|
    ensures Occurs(text, i, "\"" + f.key + "\"") && text[j - 1] == ':' && Occurs(text, j, Print(f.value))
    ensures text[j] == Print(f.value)[0] && i + |PrintField(f)| == j + |Print(f.value)|
  {
    var quoted := "\"" + f.key + "\"";
    j := i + |quoted| + 1;
    assert PrintField(f) == quoted + ":" + Print(f.value);
    OccursSplit(text, i, quoted + ":", Print(f.value));
    OccursSplit(text, i, quoted, ":");
    OccursAt(text, j - 1, ":", 0);
    OccursAt(text, j, Print(f.value), 0);
  }

  lemma KeyCloses(text: string, i: nat, f: Field)
    requires WellFormedField(f) && Occurs(text, i, PrintField(f))
    ensures i + |f.key| + 3 < |text| && text[i] == '"'
    ensures QuoteClose(text, i) == ClosedAt(i + |f.key| + 1)
    ensures text[i + 1..i + |f.key| + 1] == f.key
    ensures AfterKeyColon(text, i + |f.key| + 2) == Some(i + |f.key| + 3)
  {
    var j := SplitField(text, i, f);
    StringCloses(text, i, f.key);
    FirstChar(f.value);
    assert SkipBlanks(text, j - 1) == j - 1;
  }

  /** What follows a field's value: the closing brace, or a comma and the next key. */
  predicate FieldEnds(text: string, j: nat) {
    j < |text| && (text[j] == '}' || (text[j] == ',' && StartsKeyAt(text, j + 1) && SkipBlanks(text, j + 1) == j + 1))
  }

  lemma NextKeyEnds(text: string, j: nat, fields: seq<Field>)
    requires CharAt(text, j, ',') && fields != [] && WellFormedField(fields[0])
    requires Occurs(text, j + 1, PrintFields(fields))
    ensures FieldEnds(text, j)
  {
    FirstFieldOccurs(text, j + 1, fields);
    KeyCloses(text, j + 1, fields[0]);
  }

  lemma {:induction false} BareScanToken(text: string, i: nat, end: nat)
    requires i <= end && FieldEnds(text, end) && forall k :: i <= k < end ==> IsTokenChar(text[k])
    ensures BareScan(text, i, 0) == end
    decreases end - i
  {
    if i < end { BareScanToken(text, i + 1, end); }
  }

  /** The whole value of a sensitive key is cut, whatever its shape, and nothing more. */
  lemma SensitiveValueIsTheValue(text: string, p: nat, v: Json, end: nat)
    requires WellFormed(v) && Occurs(text, p, Print(v)) && FieldEnds(text, end) && end == p + |Print(v)|
    ensures SensitiveValueAt(text, p) == Some(Cut(p, end, MARK))
  {
    FirstChar(v);
    OccursAt(text, p, Print(v), 0);
    assert SkipBlanks(text, p) == p;
    match v
    case Str(raw) => StringCloses(text, p, raw);
    case Bare(token) =>
      TokenOccurs(text, p, token);
      BareScanToken(text, p, p + |token|);
    case Arr(_) => ContainerSkipsValue(text, p, v, 0);
    case Obj(_) => ContainerSkipsValue(text, p, v, 0);
  }

  // ----- The pass over a whole value -----

  lemma KeyMoveAt(text: string, i: nat, f: Field, depth: nat)
    requires depth <= MAX_STRING_DEPTH && WellFormedField(f) && Occurs(text, i, PrintField(f))
    ensures i < |text| && i + |f.key| + 3 <= |text|
    ensures MoveAt(text, i, -1, -1, depth) == KeyMove(text, IsLocationSensitiveKey(f.key), i + |f.key| + 3, -1, -1)
  {
    KeyCloses(text, i, f);
    QuotedKeyMove(text, i, i + |f.key| + 1, i + |f.key| + 3, f.key, depth);
  }

  lemma QuotedKeyMove(text: string, i: nat, close: nat, colonEnd: nat, key: string, depth: nat)
    requires depth <= MAX_STRING_DEPTH && i < |text| && text[i] == '"' && QuoteClose(text, i) == ClosedAt(close)
    requires AfterKeyColon(text, close + 1) == Some(colonEnd) && text[i + 1..close] == key
    ensures MoveAt(text, i, -1, -1, depth) == KeyMove(text, IsLocationSensitiveKey(key), colonEnd, -1, -1)
  {
  }

  lemma KeyText(text: string, i: nat, f: Field)
    requires WellFormedField(f) && Occurs(text, i, PrintField(f))
    ensures i + |f.key| + 3 <= |text| && text[i..i + |f.key| + 3] == "\"" + f.key + "\":"
  {
    var j := SplitField(text, i, f);
    assert text[i..j] == text[i..j - 1] + [text[j - 1]];
    assert text[i..j - 1] == "\"" + f.key + "\"";
  }

  lemma MarkEmits(f: nat -> string, text: string, i: nat, j: nat, end: nat, kept: string, mark: string, depth: nat)
    requires depth <= MAX_STRING_DEPTH && IsScan(f, text, depth) && i < |text|
    requires MoveAt(text, i, -1, -1, depth) == Move(end, Some(Cut(j, end, mark)), -1, -1)
    requires i <= j <= |text| && text[i..j] == kept
    ensures Emits(f, i, end, kept + mark)
  {
    CuttingMoveEmits(f, text, i, Cut(j, end, mark), depth);
  }

  /** At a quoted sensitive key everything up to the value goes out, then the value's replacement. */
  lemma SensitiveKeyEmits(f: nat -> string, text: string, i: nat, close: nat, colonEnd: nat, key: string,
          cut: Cut, depth: nat)
    requires depth <= MAX_STRING_DEPTH && IsScan(f, text, depth)
    requires i < |text| && text[i] == '"' && QuoteClose(text, i) == ClosedAt(close) && colonEnd <= |text|
    requires AfterKeyColon(text, close + 1) == Some(colonEnd) && text[i + 1..close] == key
    requires IsLocationSensitiveKey(key)
    requires SensitiveValueAt(text, colonEnd) == Some(cut)
    ensures i <= cut.start < cut.end <= |text|
    ensures Emits(f, i, cut.end, text[i..cut.start] + cut.replacement)
  {
    QuotedKeyMove(text, i, close, colonEnd, key, depth);
    CuttingMoveEmits(f, text, i, cut, depth);
  }

  lemma PlainFieldMove(text: string, i: nat, fd: Field, depth: nat)
    requires depth <= MAX_STRING_DEPTH && WellFormedField(fd) && Occurs(text, i, PrintField(fd))
    requires !IsLocationSensitiveKey(fd.key)
    ensures i < |text| && MoveAt(text, i, -1, -1, depth) == Move(i + |fd.key| + 3, None, -1, -1)
  {
    KeyMoveAt(text, i, fd, depth);
  }

  /** At a sensitive key the key goes out, and the mark in place of the value. */
  lemma SensitiveFieldEmits(f: nat -> string, text: string, i: nat, fd: Field, cut: Cut, depth: nat)
    requires depth <= MAX_STRING_DEPTH && IsScan(f, text, depth) && WellFormedField(fd)
    requires Occurs(text, i, PrintField(fd)) && IsLocationSensitiveKey(fd.key)
    requires cut.start == i + |fd.key| + 3 <= |text| && SensitiveValueAt(text, cut.start) == Some(cut)
    ensures Emits(f, i, cut.end, ("\"" + fd.key + "\":") + cut.replacement)
  {
    KeyCloses(text, i, fd);
    KeyText(text, i, fd);
    SensitiveKeyEmits(f, text, i, cut.start - 2, cut.start, fd.key, cut, depth);
  }

  lemma SensitiveField(text: string, i: nat, fd: Field, end: nat) returns (j: nat)
    requires WellFormedField(fd) && Occurs(text, i, PrintField(fd)) && end == i + |PrintField(fd)|
    requires FieldEnds(text, end)
    ensures j == i + |fd.key| + 3 <= |text| && SensitiveValueAt(text, j) == Some(Cut(j, end, MARK))
  {
    j := SplitField(text, i, fd);
    SensitiveValueIsTheValue(text, j, fd.value, end);
  }

  lemma MarkedFieldEmits(f: nat -> string, text: string, i: nat, fd: Field, end: nat, depth: nat)
    requires depth <= MAX_STRING_DEPTH && IsScan(f, text, depth) && WellFormedField(fd)
    requires Occurs(text, i, PrintField(fd)) && end == i + |PrintField(fd)|
    requires FieldEnds(text, end) && IsLocationSensitiveKey(fd.key)
    ensures Emits(f, i, end, ("\"" + fd.key + "\":") + MARK)
  {
    var j := SensitiveField(text, i, fd, end);
    SensitiveFieldEmits(f, text, i, fd, Cut(j, end, MARK), depth);
  }

  lemma KeyEmits(f: nat -> string, text: string, i: nat, fd: Field, depth: nat)
    requires depth <= MAX_STRING_DEPTH && IsScan(f, text, depth) && WellFormedField(fd)
    requires Occurs(text, i, PrintField(fd)) && !IsLocationSensitiveKey(fd.key)
    ensures Emits(f, i, i + |fd.key| + 3, "\"" + fd.key + "\":")
  {
    PlainFieldMove(text, i, fd, depth);
    KeyText(text, i, fd);
    KeepingMoveEmits(f, text, i, i + |fd.key| + 3, depth);
  }

  lemma {:induction false} ValueEmits(f: nat -> string, text: string, i: nat, v: Json, depth: nat)
    requires depth <= MAX_STRING_DEPTH && IsScan(f, text, depth) && WellFormed(v)
    requires Occurs(text, i, Print(v)) && Stops(text, i + |Print(v)|)
    ensures Emits(f, i, i + |Print(v)|, Print(KeyRedact(v, depth)))
    decreases v, 1
  {
    match v
    case Str(raw) => StringEmits(f, text, i, raw, depth);
    case Bare(token) =>
      TokenOccurs(text, i, token);
      TokenEmits(f, text, i, i + |token|, depth);
    case Arr(items) => ArrayEmits(f, text, i, items, depth);
    case Obj(fields) => ObjectEmits(f, text, i, fields, depth);
  }

  lemma {:induction false} ArrayEmits(f: nat -> string, text: string, i: nat, items: seq<Json>, depth: nat)
    requires depth <= MAX_STRING_DEPTH && IsScan(f, text, depth)
    requires WellFormedItems(items)
    requires Occurs(text, i, "[" + PrintItems(items) + "]")
    ensures Emits(f, i, i + |PrintItems(items)| + 2, "[" + PrintItems(KeyRedactItems(items, depth)) + "]")
    decreases items, 1
  {
    var j := i + 1 + |PrintItems(items)|;
    Bracketed(text, i, "[", PrintItems(items), "]");
    ItemsEmit(f, text, i + 1, items, depth);
    BracketedEmits(f, text, i, j, PrintItems(KeyRedactItems(items, depth)), depth);
  }

  lemma BracketedEmits(f: nat -> string, text: string, i: nat, j: nat, inner: string, depth: nat)
    requires depth <= MAX_STRING_DEPTH && IsScan(f, text, depth)
    requires i < j < |text| && text[i] == '[' && text[j] == ']' && Emits(f, i + 1, j, inner)
    ensures Emits(f, i, j + 1, "[" + inner + "]")
  {
    PunctuationEmits(f, text, i, depth);
    PunctuationEmits(f, text, j, depth);
    BracketsEmit(f, i, j, "[", inner, "]");
  }

  lemma {:induction false} ObjectEmits(f: nat -> string, text: string, i: nat, fields: seq<Field>, depth: nat)
    requires depth <= MAX_STRING_DEPTH && IsScan(f, text, depth)
    requires WellFormedFields(fields)
    requires Occurs(text, i, "{" + PrintFields(fields) + "}")
    ensures Emits(f, i, i + |PrintFields(fields)| + 2, "{" + PrintFields(KeyRedactFields(fields, depth)) + "}")
    decreases fields, 1
  {
    var j := i + 1 + |PrintFields(fields)|;
    Bracketed(text, i, "{", PrintFields(fields), "}");
    FieldsEmit(f, text, i + 1, fields, depth);
    PunctuationEmits(f, text, i, depth);
    PunctuationEmits(f, text, j, depth);
    BracketsEmit(f, i, j, "{", PrintFields(KeyRedactFields(fields, depth)), "}");
  }

  lemma PrintItemsCons(first: Json, rest: seq<Json>)
    requires rest != []
    ensures PrintItems([first] + rest) == Print(first) + ("," + PrintItems(rest))
  {
    assert ([first] + rest)[1..] == rest;
  }

  lemma PrintFieldsCons(first: Field, rest: seq<Field>)
    requires rest != []
    ensures PrintFields([first] + rest) == PrintField(first) + ("," + PrintFields(rest))
  {
    assert ([first] + rest)[1..] == rest;
  }

  lemma {:induction false} ItemsEmit(f: nat -> string, text: string, i: nat, items: seq<Json>, depth: nat)
    requires depth <= MAX_STRING_DEPTH && IsScan(f, text, depth)
    requires WellFormedItems(items)
    requires Occurs(text, i, PrintItems(items)) && CharAt(text, i + |PrintItems(items)|, ']')
    ensures Emits(f, i, i + |PrintItems(items)|, PrintItems(KeyRedactItems(items, depth)))
    decreases items, 0
  {
    if items == [] {
    } else if |items| == 1 {
      ValueEmits(f, text, i, items[0], depth);
    } else {
      var j := CommaSplit(text, i, Print(items[0]), PrintItems(items[1..]));
      ValueEmits(f, text, i, items[0], depth);
      PunctuationEmits(f, text, j, depth);
      ItemsEmit(f, text, j + 1, items[1..], depth);
      var first, rest := KeyRedact(items[0], depth), KeyRedactItems(items[1..], depth);
      CommaEmits(f, i, j, i + |PrintItems(items)|, Print(first), PrintItems(rest));
      PrintItemsCons(first, rest);
    }
  }

  lemma {:induction false} FieldEmits(f: nat -> string, text: string, i: nat, fd: Field, depth: nat)
    requires depth <= MAX_STRING_DEPTH && IsScan(f, text, depth) && WellFormedField(fd)
    requires Occurs(text, i, PrintField(fd)) && FieldEnds(text, i + |PrintField(fd)|)
    ensures Emits(f, i, i + |PrintField(fd)|, PrintField(KeyRedactField(fd, depth)))
    decreases fd, 2
  {
    if IsLocationSensitiveKey(fd.key) {
      MarkedFieldEmits(f, text, i, fd, i + |PrintField(fd)|, depth);
    } else {
      var j := SplitField(text, i, fd);
      KeyEmits(f, text, i, fd, depth);
      ValueEmits(f, text, j, fd.value, depth);
      EmitsThen(f, i, j, j + |Print(fd.value)|, "\"" + fd.key + "\":", Print(KeyRedact(fd.value, depth)));
    }
  }

  lemma {:induction false} FirstFieldEmits(
      f: nat -> string, text: string, i: nat, fd: Field, j: nat, rest: seq<Field>, depth: nat)
    requires depth <= MAX_STRING_DEPTH && IsScan(f, text, depth) && WellFormedField(fd) && WellFormedFields(rest)
    requires Occurs(text, i, PrintField(fd)) && j == i + |PrintField(fd)|
    requires CharAt(text, j, ',') && rest != [] && Occurs(text, j + 1, PrintFields(rest))
    ensures Emits(f, i, j, PrintField(KeyRedactField(fd, depth)))
    decreases fd, 3
  {
    NextKeyEnds(text, j, rest);
    FieldEmits(f, text, i, fd, depth);
  }

  lemma {:induction false} FieldsEmit(f: nat -> string, text: string, i: nat, fields: seq<Field>, depth: nat)
    requires depth <= MAX_STRING_DEPTH && IsScan(f, text, depth)
    requires WellFormedFields(fields)
    requires Occurs(text, i, PrintFields(fields)) && CharAt(text, i + |PrintFields(fields)|, '}')
    ensures Emits(f, i, i + |PrintFields(fields)|, PrintFields(KeyRedactFields(fields, depth)))
    decreases fields, 0
  {
    if fields == [] {
    } else if |fields| == 1 {
      FieldEmits(f, text, i, fields[0], depth);
    } else {
      var j := CommaSplit(text, i, PrintField(fields[0]), PrintFields(fields[1..]));
      FirstFieldEmits(f, text, i, fields[0], j, fields[1..], depth);
      PunctuationEmits(f, text, j, depth);
      FieldsEmit(f, text, j + 1, fields[1..], depth);
      FieldThenFields(f, i, j, i + |PrintFields(fields)|, KeyRedactField(fields[0], depth),
                      KeyRedactFields(fields[1..], depth));
    }
  }

  lemma FieldThenFields(f: nat -> string, i: nat, j: nat, end: nat, first: Field, rest: seq<Field>)
    requires rest != [] && Emits(f, i, j, PrintField(first)) && Emits(f, j, j + 1, ",")
    requires Emits(f, j + 1, end, PrintFields(rest))
    ensures Emits(f, i, end, PrintFields([first] + rest))
  {
    CommaEmits(f, i, j, end, PrintField(first), PrintFields(rest));
    PrintFieldsCons(first, rest);
  }

  lemma FirstFieldOccurs(text: string, i: nat, fields: seq<Field>)
    requires fields != [] && Occurs(text, i, PrintFields(fields))
    ensures Occurs(text, i, PrintField(fields[0]))
  {
    if |fields| > 1 { OccursSplit(text, i, PrintField(fields[0]), "," + PrintFields(fields[1..])); }
  }
}
