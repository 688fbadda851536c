/**
 * What a quoted value is scrubbed for: the quoted text is read as a document of
 * its own, which may hold quoted documents again, up to the nesting cap.
 */
module ScrubNested {
  import opened Options
  import opened Chars
  import opened CoordinatePairs
  import opened ScrubText
  import opened ScrubJson
  import opened ScrubRefinement
  import opened ScrubPlain

  // ----- Quoting -----

  predicate IsEscaped(c: char) { c in {'"', '\\'} || IsLineBreak(c) }

  /** The body of the quoted string that stands for `s`: a backslash before every quote, backslash and line break. */
  function Escape(s: string): string {
    if s == "" then "" else (if IsEscaped(s[0]) then ['\\', s[0]] else [s[0]]) + Escape(s[1..])
  }

  lemma {:induction false} UnescapeUndoesEscape(s: string)
    ensures Unescape(Escape(s)) == s
  {
    if s != "" {
      UnescapeUndoesEscape(s[1..]);
      var rest := Escape(s[1..]);
      if IsEscaped(s[0]) {
        assert (['\\', s[0]] + rest)[2..] == rest;
      } else {
        assert ([s[0]] + rest)[1..] == rest;
      }
      assert s == [s[0]] + s[1..];
    }
  }

  lemma {:induction false} EscapeIsBodyFrom(before: string, s: string)
    ensures IsBodyFrom(before + Escape(s), |before|)
    decreases |s|
  {
    if s != "" {
      var first := if IsEscaped(s[0]) then ['\\', s[0]] else [s[0]];
      EscapeIsBodyFrom(before + first, s[1..]);
      assert before + Escape(s) == (before + first) + Escape(s[1..]);
    }
  }

  lemma EscapeIsBody(s: string)
    ensures IsBody(Escape(s))
  {
    EscapeIsBodyFrom("", s);
    assert "" + Escape(s) == Escape(s);
  }

  lemma {:induction false} EscapeKeeps(s: string, c: char)
    requires !IsEscaped(c)
    ensures c in Escape(s) <==> c in s
  {
    if s != "" {
      EscapeKeeps(s[1..], c);
      assert s == [s[0]] + s[1..];
    }
  }

  // ----- A printed value can be read back in one way only -----

  lemma {:induction false} SameValue(text: string, i: nat, v: Json, w: Json)
    requires WellFormed(v) && Occurs(text, i, Print(v)) && Stops(text, i + |Print(v)|)
    requires WellFormed(w) && Occurs(text, i, Print(w)) && Stops(text, i + |Print(w)|)
    ensures v == w
    decreases v, 1
  {
    FirstChar(v);
    FirstChar(w);
    OccursAt(text, i, Print(v), 0);
    OccursAt(text, i, Print(w), 0);
    match v
    case Str(raw) =>
      StringCloses(text, i, raw);
      StringCloses(text, i, w.raw);
    case Bare(token) => SameToken(text, i, token, w.token);
    case Arr(items) => SameArray(text, i, items, w.items);
    case Obj(fields) => SameObject(text, i, fields, w.fields);
  }

  lemma SameToken(text: string, i: nat, a: string, b: string)
    requires IsToken(a) && Occurs(text, i, a) && Stops(text, i + |a|)
    requires IsToken(b) && Occurs(text, i, b) && Stops(text, i + |b|)
    ensures a == b
  {
    StopIsPastToken(text, i, a, i + |b|);
    StopIsPastToken(text, i, b, i + |a|);
  }

  lemma StopIsPastToken(text: string, i: nat, token: string, end: nat)
    requires IsToken(token) && Occurs(text, i, token) && i <= end && Stops(text, end)
    ensures end >= i + |token|
  {
    TokenOccurs(text, i, token);
  }

  lemma {:induction false} SameArray(text: string, i: nat, a: seq<Json>, b: seq<Json>)
    requires WellFormedItems(a) && Occurs(text, i, "[" + PrintItems(a) + "]")
    requires WellFormedItems(b) && Occurs(text, i, "[" + PrintItems(b) + "]")
    ensures a == b
    decreases a, 1
  {
    Bracketed(text, i, "[", PrintItems(a), "]");
    Bracketed(text, i, "[", PrintItems(b), "]");
    SameItems(text, i + 1, a, b);
  }

  lemma {:induction false} SameObject(text: string, i: nat, a: seq<Field>, b: seq<Field>)
    requires WellFormedFields(a) && Occurs(text, i, "{" + PrintFields(a) + "}")
    requires WellFormedFields(b) && Occurs(text, i, "{" + PrintFields(b) + "}")
    ensures a == b
    decreases a, 1
  {
    Bracketed(text, i, "{", PrintFields(a), "}");
    Bracketed(text, i, "{", PrintFields(b), "}");
    SameFields(text, i + 1, a, b);
  }

  /** The first item, and where it ends: at the `]`, or at a `,` before the other items. */
  lemma ItemsSplit(text: string, i: nat, items: seq<Json>) returns (j: nat)
    requires items != [] && WellFormedItems(items)
    requires Occurs(text, i, PrintItems(items)) && CharAt(text, i + |PrintItems(items)|, ']')
    ensures Occurs(text, i, Print(items[0])) && j == i + |Print(items[0])| < |text|
    ensures text[i] != ']' && text[j] == if |items| == 1 then ']' else ','
    ensures |items| > 1 ==>
              Occurs(text, j + 1, PrintItems(items[1..])) && CharAt(text, j + 1 + |PrintItems(items[1..])|, ']')
  {
    if |items| == 1 {
      j := i + |Print(items[0])|;
    } else {
      j := CommaSplit(text, i, Print(items[0]), PrintItems(items[1..]));
    }
    OccursAt(text, i, Print(items[0]), 0);
    FirstChar(items[0]);
  }

  lemma {:induction false} SameItems(text: string, i: nat, a: seq<Json>, b: seq<Json>)
    requires WellFormedItems(a) && Occurs(text, i, PrintItems(a)) && CharAt(text, i + |PrintItems(a)|, ']')
    requires WellFormedItems(b) && Occurs(text, i, PrintItems(b)) && CharAt(text, i + |PrintItems(b)|, ']')
    ensures a == b
    decreases a, 0
  {
    if a == [] {
      if b != [] { var _ := ItemsSplit(text, i, b); }
    } else if b == [] {
      var _ := ItemsSplit(text, i, a);
    } else {
      var j := SameFirstItem(text, i, a, b);
      assert a[1..] == b[1..] by {
        if |a| > 1 { SameItems(text, j + 1, a[1..], b[1..]); }
      }
      SameHeadAndTail(a, b);
    }
  }

  lemma {:induction false} SameFirstItem(text: string, i: nat, a: seq<Json>, b: seq<Json>) returns (j: nat)
    requires a != [] && WellFormedItems(a)
    requires Occurs(text, i, PrintItems(a)) && CharAt(text, i + |PrintItems(a)|, ']')
    requires b != [] && WellFormedItems(b)
    requires Occurs(text, i, PrintItems(b)) && CharAt(text, i + |PrintItems(b)|, ']')
    ensures a[0] == b[0] && (|a| == 1 <==> |b| == 1)
    ensures |a| > 1 ==>
              && Occurs(text, j + 1, PrintItems(a[1..])) && CharAt(text, j + 1 + |PrintItems(a[1..])|, ']')
              && Occurs(text, j + 1, PrintItems(b[1..])) && CharAt(text, j + 1 + |PrintItems(b[1..])|, ']')
    decreases a[0], 3
  {
    j := ItemsSplit(text, i, a);
    var k := ItemsSplit(text, i, b);
    SameHead(text, i, a[0], b[0], j, k);
  }

  lemma {:induction false} SameHead(text: string, i: nat, v: Json, w: Json, j: nat, k: nat)
    requires WellFormed(v) && Occurs(text, i, Print(v)) && j == i + |Print(v)| && Stops(text, j)
    requires WellFormed(w) && Occurs(text, i, Print(w)) && k == i + |Print(w)| && Stops(text, k)
    ensures v == w && j == k
    decreases v, 2
  {
    SameValue(text, i, v, w);
  }

  lemma {:induction false} SameField(text: string, i: nat, a: Field, b: Field)
    requires WellFormedField(a) && Occurs(text, i, PrintField(a)) && Stops(text, i + |PrintField(a)|)
    requires WellFormedField(b) && Occurs(text, i, PrintField(b)) && Stops(text, i + |PrintField(b)|)
    ensures a == b
    decreases a, 2
  {
    SameKey(text, i, a, b);
    var j := SplitField(text, i, a);
    var k := SplitField(text, i, b);
    SameValue(text, j, a.value, b.value);
  }

  lemma SameKey(text: string, i: nat, a: Field, b: Field)
    requires WellFormedField(a) && Occurs(text, i, PrintField(a))
    requires WellFormedField(b) && Occurs(text, i, PrintField(b))
    ensures a.key == b.key
  {
    KeyCloses(text, i, a);
    KeyCloses(text, i, b);
  }

  lemma SameHeadAndTail<T>(a: seq<T>, b: seq<T>)
    requires a != [] && b != [] && a[0] == b[0] && a[1..] == b[1..]
    ensures a == b
  {
    assert a == [a[0]] + a[1..] && b == [b[0]] + b[1..];
  }

  lemma FieldsSplit(text: string, i: nat, fields: seq<Field>) returns (j: nat)
    requires fields != [] && WellFormedFields(fields)
    requires Occurs(text, i, PrintFields(fields)) && CharAt(text, i + |PrintFields(fields)|, '}')
    ensures Occurs(text, i, PrintField(fields[0])) && j == i + |PrintField(fields[0])| < |text|
    ensures text[j] == if |fields| == 1 then '}' else ','
    ensures |fields| > 1 ==>
              Occurs(text, j + 1, PrintFields(fields[1..])) && CharAt(text, j + 1 + |PrintFields(fields[1..])|, '}')
  {
    if |fields| == 1 {
      j := i + |PrintField(fields[0])|;
    } else {
      j := CommaSplit(text, i, PrintField(fields[0]), PrintFields(fields[1..]));
    }
  }

  lemma FieldsOpen(text: string, i: nat, fields: seq<Field>)
    requires fields != [] && WellFormedFields(fields) && Occurs(text, i, PrintFields(fields))
    ensures CharAt(text, i, '"')
  {
    FirstFieldOccurs(text, i, fields);
    KeyCloses(text, i, fields[0]);
  }

  lemma EmptyTogether(text: string, i: nat, a: seq<Field>, b: seq<Field>)
    requires WellFormedFields(a) && Occurs(text, i, PrintFields(a)) && CharAt(text, i + |PrintFields(a)|, '}')
    requires WellFormedFields(b) && Occurs(text, i, PrintFields(b)) && CharAt(text, i + |PrintFields(b)|, '}')
    ensures a == [] <==> b == []
  {
    if a != [] { FieldsOpen(text, i, a); }
    if b != [] { FieldsOpen(text, i, b); }
  }

  lemma {:induction false} SameFields(text: string, i: nat, a: seq<Field>, b: seq<Field>)
    requires WellFormedFields(a) && Occurs(text, i, PrintFields(a)) && CharAt(text, i + |PrintFields(a)|, '}')
    requires WellFormedFields(b) && Occurs(text, i, PrintFields(b)) && CharAt(text, i + |PrintFields(b)|, '}')
    ensures a == b
    decreases a, 0
  {
    EmptyTogether(text, i, a, b);
    if a != [] {
      var j := SameFirstField(text, i, a, b);
      assert a[1..] == b[1..] by {
        if |a| > 1 { SameFields(text, j + 1, a[1..], b[1..]); }
      }
      SameHeadAndTail(a, b);
    }
  }

  lemma {:induction false} SameFirstField(text: string, i: nat, a: seq<Field>, b: seq<Field>) returns (j: nat)
    requires a != [] && WellFormedFields(a)
    requires Occurs(text, i, PrintFields(a)) && CharAt(text, i + |PrintFields(a)|, '}')
    requires b != [] && WellFormedFields(b)
    requires Occurs(text, i, PrintFields(b)) && CharAt(text, i + |PrintFields(b)|, '}')
    ensures a[0] == b[0] && (|a| == 1 <==> |b| == 1)
    ensures |a| > 1 ==>
              && Occurs(text, j + 1, PrintFields(a[1..])) && CharAt(text, j + 1 + |PrintFields(a[1..])|, '}')
              && Occurs(text, j + 1, PrintFields(b[1..])) && CharAt(text, j + 1 + |PrintFields(b[1..])|, '}')
    decreases a[0], 4
  {
    j := FieldsSplit(text, i, a);
    var k := FieldsSplit(text, i, b);
    SameHeadField(text, i, a[0], b[0], j, k);
  }

  lemma {:induction false} SameHeadField(text: string, i: nat, a: Field, b: Field, j: nat, k: nat)
    requires WellFormedField(a) && Occurs(text, i, PrintField(a)) && j == i + |PrintField(a)| && Stops(text, j)
    requires WellFormedField(b) && Occurs(text, i, PrintField(b)) && k == i + |PrintField(b)| && Stops(text, k)
    ensures a == b && j == k
    decreases a, 3
  {
    SameField(text, i, a, b);
  }

  /** Two well-formed values with the same text are the same value. */
  lemma PrintIsInjective(v: Json, w: Json)
    requires WellFormed(v) && WellFormed(w) && Print(v) == Print(w)
    ensures v == w
  {
    var text := Print(v);
    assert text[0..|text|] == text;
    SameValue(text, 0, v, w);
  }

  // ----- A quoted document -----

  /** A plain value on which redaction by key does something has a field, and so a colon in its text. */
  lemma {:induction false} RedactedHasColon(v: Json)
    requires RedactByKey(v) != v
    ensures ':' in Print(v)
    decreases v, 1
  {
    match v
    case Arr(items) => RedactedItemsHaveColon(items);
    case Obj(fields) => FieldsHaveColon(fields);
  }

  lemma {:induction false} RedactedItemsHaveColon(items: seq<Json>)
    requires ItemsByKey(items) != items
    ensures ':' in PrintItems(items)
    decreases items, 0
  {
    assert items == [items[0]] + items[1..];
    if RedactByKey(items[0]) != items[0] {
      RedactedHasColon(items[0]);
    } else {
      RedactedItemsHaveColon(items[1..]);
    }
  }

  lemma FieldsHaveColon(fields: seq<Field>)
    requires fields != []
    ensures ':' in PrintFields(fields)
  {
    var f := fields[0];
    assert PrintField(f)[|f.key| + 2] == ':';
  }

  lemma {:induction false} ByKeyIsWellFormed(v: Json)
    requires WellFormed(v)
    ensures WellFormed(RedactByKey(v))
    decreases v, 1
  {
    match v
    case Arr(items) => ItemsByKeyAreWellFormed(items);
    case Obj(fields) => FieldsByKeyAreWellFormed(fields);
    case _ =>
  }

  lemma {:induction false} ItemsByKeyAreWellFormed(items: seq<Json>)
    requires WellFormedItems(items)
    ensures WellFormedItems(ItemsByKey(items))
    decreases items, 0
  {
    if items != [] {
      ByKeyIsWellFormed(items[0]);
      ItemsByKeyAreWellFormed(items[1..]);
      assert ([RedactByKey(items[0])] + ItemsByKey(items[1..]))[1..] == ItemsByKey(items[1..]);
    }
  }

  lemma {:induction false} FieldsByKeyAreWellFormed(fields: seq<Field>)
    requires WellFormedFields(fields)
    ensures WellFormedFields(FieldsByKey(fields))
    decreases fields, 0
  {
    if fields != [] {
      if !IsLocationSensitiveKey(fields[0].key) { ByKeyIsWellFormed(fields[0].value); } else { MarkIsBody(); }
      FieldsByKeyAreWellFormed(fields[1..]);
      assert ([FieldByKey(fields[0])] + FieldsByKey(fields[1..]))[1..] == FieldsByKey(fields[1..]);
    }
  }

  lemma {:induction false} PlainBodyFrom(raw: string, k: nat)
    requires k <= |raw| && forall i :: k <= i < |raw| ==> !IsEscaped(raw[i])
    ensures IsBodyFrom(raw, k)
    decreases |raw| - k
  {
    if k < |raw| { PlainBodyFrom(raw, k + 1); }
  }

  lemma MarkIsBody()
    ensures IsBody(SCRUBBED)
  {
    PlainBodyFrom(SCRUBBED, 0);
  }

  predicate HasKeyMark(s: string) { ':' in s || '[' in s }

  lemma QuotedTextIsSensitiveIff(text: string, depth: nat)
    requires depth < MAX_STRING_DEPTH
    ensures QuotedValueIsSensitive(Escape(text), depth) <==> HasKeyMark(text) && ScrubAt(text, depth + 1) != text
  {
    EscapeKeeps(text, ':');
    EscapeKeeps(text, '[');
    UnescapeUndoesEscape(text);
  }

  /** A quoted value whose text scrubs to that of `cleaned` is sensitive when `cleaned` is another value. */
  lemma QuotedValueIsSensitiveIff(v: Json, cleaned: Json, depth: nat)
    requires depth < MAX_STRING_DEPTH && WellFormed(v) && WellFormed(cleaned) && Redact(v, depth + 1) == cleaned
    requires cleaned != v ==> HasKeyMark(Print(v))
    ensures QuotedValueIsSensitive(Escape(Print(v)), depth) <==> cleaned != v
  {
    ScrubOfPrintIsPrintOfRedact(v, depth + 1);
    QuotedTextIsSensitiveIff(Print(v), depth);
    if Print(cleaned) == Print(v) { PrintIsInjective(cleaned, v); }
  }

  /**
   * A quoted string that stands for a plain document is replaced whole when the
   * document holds a sensitive key's value that redaction by key changes, and
   * kept as it is otherwise.
   */
  lemma QuotedDocumentIsScrubbedIff(v: Json, depth: nat)
    requires WellFormed(v) && IsPlain(v) && depth < MAX_STRING_DEPTH
    ensures var quoted := "\"" + Escape(Print(v)) + "\"";
            ScrubAt(quoted, depth) == if RedactByKey(v) != v then "\"" + SCRUBBED + "\"" else quoted
  {
    EscapeIsBody(Print(v));
    ScrubOfQuoted(Escape(Print(v)), depth);
    PlainRedactsByKey(v, depth + 1);
    ByKeyIsWellFormed(v);
    if RedactByKey(v) != v { RedactedHasColon(v); }
    QuotedValueIsSensitiveIff(v, RedactByKey(v), depth);
  }

  lemma ScrubOfQuoted(raw: string, depth: nat)
    requires IsBody(raw) && depth <= MAX_STRING_DEPTH
    ensures var quoted := "\"" + raw + "\"";
            ScrubAt(quoted, depth) == if QuotedValueIsSensitive(raw, depth) then "\"" + SCRUBBED + "\"" else quoted
  {
    ScrubOfPrintIsPrintOfRedact(Str(raw), depth);
  }

  // ----- Documents inside quoted strings, to any depth -----

  /** A document whose strings are plain text or the text of another document. */
  datatype Doc =
    | Text(raw: string)
    | Quoted(doc: Doc)
    | Number(token: string)
    | List(items: seq<Doc>)
    | Record(entries: seq<Entry>)
  datatype Entry = Entry(key: string, value: Doc)

  /** The document as one value: an inner document is printed, escaped and put in quotes. */
  function Written(d: Doc): Json
    decreases d, 1
  {
    match d
    case Text(raw) => Str(raw)
    case Quoted(doc) => Str(Escape(Print(Written(doc))))
    case Number(token) => Bare(token)
    case List(items) => Arr(WrittenItems(items))
    case Record(entries) => Obj(WrittenEntries(entries))
  }

  function WrittenItems(items: seq<Doc>): seq<Json>
    decreases items, 0
  {
    if items == [] then [] else [Written(items[0])] + WrittenItems(items[1..])
  }

  function WrittenEntries(entries: seq<Entry>): seq<Field>
    decreases entries, 0
  {
    if entries == [] then [] else [WrittenEntry(entries[0])] + WrittenEntries(entries[1..])
  }

  function WrittenEntry(e: Entry): Field
    decreases e, 2
  {
    Field(e.key, Written(e.value))
  }

  /** Plain text holds no `:` and no `[`; what stands under a sensitive key may be any well-formed value. */
  ghost predicate IsPlainDoc(d: Doc)
    decreases d, 1
  {
    match d
    case Text(raw) => IsBody(raw) && ':' !in raw && '[' !in raw
    case Quoted(doc) => IsPlainDoc(doc)
    case Number(token) => IsToken(token)
    case List(items) => PlainItems(items)
    case Record(entries) => PlainEntries(entries)
  }

  ghost predicate PlainItems(items: seq<Doc>)
    decreases items, 0
  {
    items == [] || (IsPlainDoc(items[0]) && PlainItems(items[1..]))
  }

  ghost predicate PlainEntries(entries: seq<Entry>)
    decreases entries, 0
  {
    entries == [] || (PlainEntry(entries[0]) && PlainEntries(entries[1..]))
  }

  ghost predicate PlainEntry(e: Entry)
    decreases e, 2
  {
    && IsBody(e.key) && |e.key| <= MAX_PLAIN_KEY && PairFree(e.key)
    && if IsLocationSensitiveKey(e.key) then WellFormed(Written(e.value)) else IsPlainDoc(e.value)
  }

  /** The text of the document holds a list or a field, at whatever level. */
  predicate HoldsMarkup(d: Doc) {
    match d
    case Quoted(doc) => HoldsMarkup(doc)
    case List(_) => true
    case Record(entries) => entries != []
    case _ => false
  }

  /**
   * The redaction of the tree: the value of a sensitive key and a list that
   * looks like a coordinate pair become the marker, and a quoted document does
   * when its own redaction changes it, or, past the cap, when it could.
   */
  function Clean(d: Doc, depth: nat): Json
    requires depth <= MAX_STRING_DEPTH
    decreases d, 1
  {
    match d
    case Quoted(doc) =>
      if (if depth == MAX_STRING_DEPTH then HoldsMarkup(doc) else Clean(doc, depth + 1) != Written(doc))
      then Str(SCRUBBED) else Written(d)
    case List(items) =>
      if LooksLikePair(WrittenItems(items)) then Str(SCRUBBED) else Arr(CleanItems(items, depth))
    case Record(entries) => Obj(CleanEntries(entries, depth))
    case _ => Written(d)
  }

  function CleanItems(items: seq<Doc>, depth: nat): seq<Json>
    requires depth <= MAX_STRING_DEPTH
    decreases items, 0
  {
    if items == [] then [] else [Clean(items[0], depth)] + CleanItems(items[1..], depth)
  }

  function CleanEntries(entries: seq<Entry>, depth: nat): seq<Field>
    requires depth <= MAX_STRING_DEPTH
    decreases entries, 0
  {
    if entries == [] then [] else [CleanEntry(entries[0], depth)] + CleanEntries(entries[1..], depth)
  }

  function CleanEntry(e: Entry, depth: nat): Field
    requires depth <= MAX_STRING_DEPTH
    decreases e, 2
  {
    Field(e.key, if IsLocationSensitiveKey(e.key) then Str(SCRUBBED) else Clean(e.value, depth))
  }

  // ----- What is written is well formed, and stays so -----

  lemma {:induction false} WrittenIsWellFormed(d: Doc)
    requires IsPlainDoc(d)
    ensures WellFormed(Written(d))
    decreases d, 1
  {
    match d
    case Quoted(doc) => EscapeIsBody(Print(Written(doc)));
    case List(items) => WrittenItemsAreWellFormed(items);
    case Record(entries) => WrittenEntriesAreWellFormed(entries);
    case _ =>
  }

  lemma {:induction false} WrittenItemsAreWellFormed(items: seq<Doc>)
    requires PlainItems(items)
    ensures WellFormedItems(WrittenItems(items))
    decreases items, 0
  {
    if items != [] {
      WrittenIsWellFormed(items[0]);
      WrittenItemsAreWellFormed(items[1..]);
      assert ([Written(items[0])] + WrittenItems(items[1..]))[1..] == WrittenItems(items[1..]);
    }
  }

  lemma {:induction false} WrittenEntriesAreWellFormed(entries: seq<Entry>)
    requires PlainEntries(entries)
    ensures WellFormedFields(WrittenEntries(entries))
    decreases entries, 0
  {
    if entries != [] {
      if !IsLocationSensitiveKey(entries[0].key) { WrittenIsWellFormed(entries[0].value); }
      WrittenEntriesAreWellFormed(entries[1..]);
      assert ([WrittenEntry(entries[0])] + WrittenEntries(entries[1..]))[1..] == WrittenEntries(entries[1..]);
    }
  }

  lemma {:induction false} CleanIsWellFormed(d: Doc, depth: nat)
    requires IsPlainDoc(d) && depth <= MAX_STRING_DEPTH
    ensures WellFormed(Clean(d, depth))
    decreases d, 1
  {
    MarkIsBody();
    match d
    case List(items) => CleanItemsAreWellFormed(items, depth);
    case Record(entries) => CleanEntriesAreWellFormed(entries, depth);
    case _ => WrittenIsWellFormed(d);
  }

  lemma {:induction false} CleanItemsAreWellFormed(items: seq<Doc>, depth: nat)
    requires PlainItems(items) && depth <= MAX_STRING_DEPTH
    ensures WellFormedItems(CleanItems(items, depth))
    decreases items, 0
  {
    if items != [] {
      CleanIsWellFormed(items[0], depth);
      CleanItemsAreWellFormed(items[1..], depth);
      assert ([Clean(items[0], depth)] + CleanItems(items[1..], depth))[1..] == CleanItems(items[1..], depth);
    }
  }

  lemma {:induction false} CleanEntriesAreWellFormed(entries: seq<Entry>, depth: nat)
    requires PlainEntries(entries) && depth <= MAX_STRING_DEPTH
    ensures WellFormedFields(CleanEntries(entries, depth))
    decreases entries, 0
  {
    if entries != [] {
      if IsLocationSensitiveKey(entries[0].key) { MarkIsBody(); } else { CleanIsWellFormed(entries[0].value, depth); }
      CleanEntriesAreWellFormed(entries[1..], depth);
      assert ([CleanEntry(entries[0], depth)] + CleanEntries(entries[1..], depth))[1..] ==
             CleanEntries(entries[1..], depth);
    }
  }

  // ----- Markup shows as a colon or a bracket -----

  lemma {:induction false} MarkupShows(d: Doc)
    requires IsPlainDoc(d)
    ensures HoldsMarkup(d) <==> HasKeyMark(Print(Written(d)))
    decreases d
  {
    match d
    case Text(raw) => QuotesAddNoMark(raw);
    case Quoted(doc) =>
      MarkupShows(doc);
      EscapeKeeps(Print(Written(doc)), ':');
      EscapeKeeps(Print(Written(doc)), '[');
      QuotesAddNoMark(Escape(Print(Written(doc))));
    case Number(token) => assert forall k :: 0 <= k < |token| ==> IsTokenChar(token[k]);
    case List(items) => assert Print(Written(d))[0] == '[';
    case Record(entries) =>
      if entries == [] { assert Print(Written(d)) == "{}"; } else { FieldsHaveColon(WrittenEntries(entries)); }
  }

  lemma QuotesAddNoMark(raw: string)
    ensures HasKeyMark("\"" + raw + "\"") <==> HasKeyMark(raw)
  {
  }

  /** A document without markup is left as it is. */
  lemma {:induction false} NoMarkupIsKept(d: Doc, depth: nat)
    requires !HoldsMarkup(d) && depth <= MAX_STRING_DEPTH
    ensures Clean(d, depth) == Written(d)
    decreases d
  {
    match d
    case Quoted(doc) => if depth < MAX_STRING_DEPTH { NoMarkupIsKept(doc, depth + 1); }
    case Record(entries) => assert CleanEntries(entries, depth) == WrittenEntries(entries);
    case _ =>
  }

  // ----- The scrub carries out the redaction of the tree -----

  lemma {:induction false} RedactIsClean(d: Doc, depth: nat)
    requires IsPlainDoc(d) && depth <= MAX_STRING_DEPTH
    ensures Redact(Written(d), depth) == Clean(d, depth)
    decreases d, 1
  {
    match d
    case Text(raw) =>
    case Quoted(doc) => if depth == MAX_STRING_DEPTH { CappedIsClean(doc); } else { QuotedIsClean(doc, depth); }
    case Number(_) =>
    case List(items) => RedactItemsIsClean(items, depth);
    case Record(entries) => RedactEntriesIsClean(entries, depth);
  }

  lemma CappedIsClean(doc: Doc)
    requires IsPlainDoc(doc)
    ensures QuotedValueIsSensitive(Escape(Print(Written(doc))), MAX_STRING_DEPTH) <==> HoldsMarkup(doc)
  {
    MarkupShows(doc);
    EscapeKeeps(Print(Written(doc)), ':');
    EscapeKeeps(Print(Written(doc)), '[');
  }

  lemma {:induction false} QuotedIsClean(doc: Doc, depth: nat)
    requires IsPlainDoc(doc) && depth < MAX_STRING_DEPTH
    ensures QuotedValueIsSensitive(Escape(Print(Written(doc))), depth) <==> Clean(doc, depth + 1) != Written(doc)
    decreases doc, 3
  {
    RedactIsClean(doc, depth + 1);
    WrittenIsWellFormed(doc);
    CleanIsWellFormed(doc, depth + 1);
    if Clean(doc, depth + 1) != Written(doc) { ChangedShows(doc, depth + 1); }
    QuotedValueIsSensitiveIff(Written(doc), Clean(doc, depth + 1), depth);
  }

  lemma ChangedShows(doc: Doc, depth: nat)
    requires IsPlainDoc(doc) && depth <= MAX_STRING_DEPTH && Clean(doc, depth) != Written(doc)
    ensures HasKeyMark(Print(Written(doc)))
  {
    if !HoldsMarkup(doc) { NoMarkupIsKept(doc, depth); }
    MarkupShows(doc);
  }

  lemma {:induction false} RedactItemsIsClean(items: seq<Doc>, depth: nat)
    requires PlainItems(items) && depth <= MAX_STRING_DEPTH
    ensures RedactItems(WrittenItems(items), depth) == CleanItems(items, depth)
    decreases items, 0
  {
    if items != [] {
      RedactIsClean(items[0], depth);
      RedactItemsIsClean(items[1..], depth);
      assert ([Written(items[0])] + WrittenItems(items[1..]))[1..] == WrittenItems(items[1..]);
    }
  }

  lemma {:induction false} RedactEntriesIsClean(entries: seq<Entry>, depth: nat)
    requires PlainEntries(entries) && depth <= MAX_STRING_DEPTH
    ensures RedactFields(WrittenEntries(entries), depth) == CleanEntries(entries, depth)
    decreases entries, 0
  {
    if entries != [] {
      if !IsLocationSensitiveKey(entries[0].key) { RedactIsClean(entries[0].value, depth); }
      RedactEntriesIsClean(entries[1..], depth);
      assert ([WrittenEntry(entries[0])] + WrittenEntries(entries[1..]))[1..] == WrittenEntries(entries[1..]);
    }
  }

  /** Scrubbing the text of nested documents gives the text of the redacted tree, at every nesting level. */
  lemma ScrubOfNestedIsClean(d: Doc, depth: nat)
    requires IsPlainDoc(d) && depth <= MAX_STRING_DEPTH
    ensures ScrubAt(Print(Written(d)), depth) == Print(Clean(d, depth))
  {
    WrittenIsWellFormed(d);
    ScrubOfPrintIsPrintOfRedact(Written(d), depth);
    RedactIsClean(d, depth);
  }
}
