/**
 * What the text scrub means without reference to the scanner: redaction by key
 * on plain values, and the same output for values that differ only under
 * sensitive keys.
 */
module ScrubPlain {
  import opened ScrubText
  import opened ScrubJson
  import opened ScrubRefinement

  // ----- Redaction by key -----

  /** Every value of a sensitive key, whatever its shape, becomes the marker string; nothing else changes. */
  function RedactByKey(v: Json): Json
    decreases v, 1
  {
    match v
    case Arr(items) => Arr(ItemsByKey(items))
    case Obj(fields) => Obj(FieldsByKey(fields))
    case _ => v
  }

  function ItemsByKey(items: seq<Json>): seq<Json>
    decreases items, 0
  {
    if items == [] then [] else [RedactByKey(items[0])] + ItemsByKey(items[1..])
  }

  function FieldsByKey(fields: seq<Field>): seq<Field>
    decreases fields, 0
  {
    if fields == [] then [] else [FieldByKey(fields[0])] + FieldsByKey(fields[1..])
  }

  function FieldByKey(f: Field): Field
    decreases f, 2
  {
    Field(f.key, if IsLocationSensitiveKey(f.key) then Str(SCRUBBED) else RedactByKey(f.value))
  }

  /** No string holds a `:` or a `[`, and no array looks like a decimal coordinate pair. */
  predicate IsPlain(v: Json)
    decreases v, 1
  {
    match v
    case Str(raw) => ':' !in raw && '[' !in raw
    case Bare(_) => true
    case Arr(items) => !LooksLikePair(items) && ItemsPlain(items)
    case Obj(fields) => FieldsPlain(fields)
  }

  predicate ItemsPlain(items: seq<Json>)
    decreases items, 0
  {
    items == [] || (IsPlain(items[0]) && ItemsPlain(items[1..]))
  }

  predicate FieldsPlain(fields: seq<Field>)
    decreases fields, 0
  {
    fields == [] || (FieldPlain(fields[0]) && FieldsPlain(fields[1..]))
  }

  predicate FieldPlain(f: Field)
    decreases f, 2
  {
    IsLocationSensitiveKey(f.key) || IsPlain(f.value)
  }

  lemma {:induction false} PlainRedactsByKey(v: Json, depth: nat)
    requires depth <= MAX_STRING_DEPTH && IsPlain(v)
    ensures Redact(v, depth) == RedactByKey(v)
    decreases v, 1
  {
    match v
    case Str(raw) => PlainStringIsKept(raw, depth);
    case Bare(_) =>
    case Arr(items) => PlainItemsRedactByKey(items, depth);
    case Obj(fields) => PlainFieldsRedactByKey(fields, depth);
  }

  lemma PlainStringIsKept(raw: string, depth: nat)
    requires depth <= MAX_STRING_DEPTH && ':' !in raw && '[' !in raw
    ensures !QuotedValueIsSensitive(raw, depth)
  {
  }

  lemma {:induction false} PlainItemsRedactByKey(items: seq<Json>, depth: nat)
    requires depth <= MAX_STRING_DEPTH && ItemsPlain(items)
    ensures RedactItems(items, depth) == ItemsByKey(items)
    decreases items, 0
  {
    if items != [] {
      PlainRedactsByKey(items[0], depth);
      PlainItemsRedactByKey(items[1..], depth);
    }
  }

  lemma {:induction false} PlainFieldsRedactByKey(fields: seq<Field>, depth: nat)
    requires depth <= MAX_STRING_DEPTH && FieldsPlain(fields)
    ensures RedactFields(fields, depth) == FieldsByKey(fields)
    decreases fields, 0
  {
    if fields != [] {
      PlainFieldRedactsByKey(fields[0], depth);
      PlainFieldsRedactByKey(fields[1..], depth);
    }
  }

  lemma {:induction false} PlainFieldRedactsByKey(f: Field, depth: nat)
    requires depth <= MAX_STRING_DEPTH && FieldPlain(f)
    ensures RedactField(f, depth) == FieldByKey(f)
    decreases f, 2
  {
    if !IsLocationSensitiveKey(f.key) { PlainRedactsByKey(f.value, depth); }
  }

  /** On plain values scrubbing the text is redacting the tree by key. */
  lemma ScrubOfPlainIsRedactionByKey(v: Json)
    requires WellFormed(v) && IsPlain(v)
    ensures ScrubAt(Print(v), 0) == Print(RedactByKey(v))
  {
    ScrubOfPrintIsPrintOfRedact(v, 0);
    PlainRedactsByKey(v, 0);
  }

  // ----- Nothing sensitive shows -----

  /** `v` and `w` are the same, but for the values of sensitive keys at any depth. */
  predicate Alike(v: Json, w: Json)
    decreases v, 1
  {
    match (v, w)
    case (Arr(a), Arr(b)) => ItemsAlike(a, b)
    case (Obj(a), Obj(b)) => FieldsAlike(a, b)
    case _ => v == w
  }

  predicate ItemsAlike(a: seq<Json>, b: seq<Json>)
    decreases a, 0
  {
    if a == [] then b == [] else b != [] && Alike(a[0], b[0]) && ItemsAlike(a[1..], b[1..])
  }

  predicate FieldsAlike(a: seq<Field>, b: seq<Field>)
    decreases a, 0
  {
    if a == [] then b == [] else b != [] && FieldAlike(a[0], b[0]) && FieldsAlike(a[1..], b[1..])
  }

  predicate FieldAlike(a: Field, b: Field)
    decreases a, 2
  {
    a.key == b.key && (IsLocationSensitiveKey(a.key) || Alike(a.value, b.value))
  }

  lemma {:induction false} AlikeRedactsAlike(v: Json, w: Json, depth: nat)
    requires depth <= MAX_STRING_DEPTH && Alike(v, w)
    ensures Redact(v, depth) == Redact(w, depth)
    decreases v, 1
  {
    match v
    case Arr(items) =>
      if w.Arr? {
        ItemsAlikeLookAlike(items, w.items);
        ItemsRedactAlike(items, w.items, depth);
      }
    case Obj(fields) => if w.Obj? { FieldsRedactAlike(fields, w.fields, depth); }
    case _ =>
  }

  lemma {:induction false} ItemsAlikeAt(a: seq<Json>, b: seq<Json>)
    requires ItemsAlike(a, b)
    ensures |a| == |b| && forall k :: 0 <= k < |a| ==> Alike(a[k], b[k])
    decreases |a|
  {
    if a != [] {
      ItemsAlikeAt(a[1..], b[1..]);
      assert forall k :: 0 < k < |a| ==> a[k] == a[1..][k - 1];
      assert forall k :: 0 < k < |b| ==> b[k] == b[1..][k - 1];
    }
  }

  lemma AlikeNumbers(v: Json, w: Json)
    requires Alike(v, w)
    ensures (IsDecimal(v) <==> IsDecimal(w)) && (IsAltitude(v) <==> IsAltitude(w))
  {
  }

  lemma ItemsAlikeLookAlike(a: seq<Json>, b: seq<Json>)
    requires ItemsAlike(a, b)
    ensures LooksLikePair(a) <==> LooksLikePair(b)
  {
    ItemsAlikeAt(a, b);
    if 2 <= |a| <= 3 {
      AlikeNumbers(a[0], b[0]);
      AlikeNumbers(a[1], b[1]);
      if |a| == 3 { AlikeNumbers(a[2], b[2]); }
    }
  }

  lemma {:induction false} ItemsRedactAlike(a: seq<Json>, b: seq<Json>, depth: nat)
    requires depth <= MAX_STRING_DEPTH && ItemsAlike(a, b)
    ensures RedactItems(a, depth) == RedactItems(b, depth)
    decreases a, 0
  {
    if a != [] {
      AlikeRedactsAlike(a[0], b[0], depth);
      ItemsRedactAlike(a[1..], b[1..], depth);
    }
  }

  lemma {:induction false} FieldsRedactAlike(a: seq<Field>, b: seq<Field>, depth: nat)
    requires depth <= MAX_STRING_DEPTH && FieldsAlike(a, b)
    ensures RedactFields(a, depth) == RedactFields(b, depth)
    decreases a, 0
  {
    if a != [] {
      FieldRedactsAlike(a[0], b[0], depth);
      FieldsRedactAlike(a[1..], b[1..], depth);
    }
  }

  lemma {:induction false} FieldRedactsAlike(a: Field, b: Field, depth: nat)
    requires depth <= MAX_STRING_DEPTH && FieldAlike(a, b)
    ensures RedactField(a, depth) == RedactField(b, depth)
    decreases a, 2
  {
    if !IsLocationSensitiveKey(a.key) { AlikeRedactsAlike(a.value, b.value, depth); }
  }

  /** Two printed values that differ only under sensitive keys scrub to the same text. */
  lemma SensitiveValuesDoNotShow(v: Json, w: Json)
    requires WellFormed(v) && WellFormed(w) && Alike(v, w)
    ensures ScrubAt(Print(v), 0) == ScrubAt(Print(w), 0)
  {
    ScrubOfPrintIsPrintOfRedact(v, 0);
    ScrubOfPrintIsPrintOfRedact(w, 0);
    AlikeRedactsAlike(v, w, 0);
  }
}
