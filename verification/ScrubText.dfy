/**
 * The one-pass text scanner (packages/errors/src/scrub-location-pii.ts, lines
 * 65-142 and 254-573). Each scanning loop is a method proved against a recursive
 * function of the same name with `Scan` or `End` in it.
 */
module ScrubText {
  import opened Options
  import opened Chars
  import opened CoordinatePairs

  const SCRUBBED := "[scrubbed]"
  const SCRUBBED_TRUNCATED := "[scrubbed: truncated]"
  const MAX_KEY_LENGTH := 64
  const MAX_KEY_PATH_LENGTH := 4 * MAX_KEY_LENGTH
  const MAX_QUOTED_KEY_SPAN := 200
  const MAX_STRING_DEPTH := 3

  // ----- Keys -----

  const SENSITIVE_KEY_COUNT := 35

  /** `LOCATION_SENSITIVE_KEYS`, in its order. */
  function SensitiveKey(k: nat): string {
    if k < 11 then AddressKey(k)
    else if k < 21 then PositionKey(k - 11)
    else if k < 30 then ContactKey(k - 21)
    else ShapeKey(k - 30)
  }

  function AddressKey(k: nat): string {
    match k
    case 0 => "address"
    case 1 => "addressText"
    case 2 => "formattedAddress"
    case 3 => "addrLine1"
    case 4 => "addrLine2"
    case 5 => "addressLine1"
    case 6 => "addressLine2"
    case 7 => "street"
    case 8 => "postalCode"
    case 9 => "postcode"
    case _ => "zip"
  }

  function PositionKey(k: nat): string {
    match k
    case 0 => "lat"
    case 1 => "lng"
    case 2 => "latitude"
    case 3 => "longitude"
    case 4 => "userLat"
    case 5 => "userLng"
    case 6 => "geohash"
    case 7 => "geohash8"
    case 8 => "geohash6"
    case _ => "geoPoint"
  }

  function ContactKey(k: nat): string {
    match k
    case 0 => "phone"
    case 1 => "contactPhone"
    case 2 => "phoneE164"
    case 3 => "phoneNumber"
    case 4 => "physicalAddress"
    case 5 => "billingAddressLine1"
    case 6 => "billingAddressLine2"
    case 7 => "billingPostalCode"
    case _ => "taxSitusPostal"
  }

  function ShapeKey(k: nat): string {
    match k
    case 0 => "geometry"
    case 1 => "coordinates"
    case 2 => "positions"
    case 3 => "ring"
    case _ => "line"
  }

  function NormalizeKey(key: string): string {
    if key == "" then ""
    else if key[0] in {'_', '-'} || IsSpace(key[0]) then NormalizeKey(key[1..])
    else [ToLower(key[0])] + NormalizeKey(key[1..])
  }

  /** The key names one of the sensitive keys, whatever its case and separators. */
  predicate IsLocationSensitiveKey(key: string) {
    NamesOneOf(NormalizeKey(key), SENSITIVE_KEY_COUNT)
  }

  /** One of the first `n` sensitive keys. */
  predicate NamesOneOf(normalized: string, n: nat)
    requires n <= SENSITIVE_KEY_COUNT
  {
    n > 0 && (normalized == NormalizeKey(SensitiveKey(n - 1)) || NamesOneOf(normalized, n - 1))
  }

  // ----- Quotes, blanks and key separators -----

  /** Where the scan of a quoted string ends: at its closing quote, or where the line or text ends first. */
  datatype QuoteEnd = ClosedAt(index: nat) | OpenUntil(index: nat)

  function QuoteScan(text: string, quote: char, i: nat): (r: QuoteEnd)
    ensures r.ClosedAt? ==> i <= r.index < |text| && text[r.index] == quote
    ensures r.OpenUntil? && i <= |text| ==> i <= r.index <= |text|
    decreases if i < |text| then |text| - i else 0
  {
    if i >= |text| then OpenUntil(|text|)
    else if text[i] == quote then ClosedAt(i)
    else if IsLineBreak(text[i]) then OpenUntil(i)
    else QuoteScan(text, quote, if text[i] == '\\' then i + 2 else i + 1)
  }

  function QuoteClose(text: string, start: nat): (r: QuoteEnd)
    requires start < |text|
    ensures r.ClosedAt? ==> start < r.index < |text| && text[r.index] == text[start]
    ensures r.OpenUntil? ==> start < r.index <= |text|
  {
    QuoteScan(text, text[start], start + 1)
  }

  method FindQuoteClose(text: string, start: nat) returns (r: QuoteEnd)
    requires start < |text|
    ensures r == QuoteClose(text, start)
  {
    var quote := text[start];
    var i := start + 1;
    while i < |text|
      invariant QuoteScan(text, quote, i) == QuoteClose(text, start)
      decreases |text| - i
    {
      var ch := text[i];
      if ch == quote { return ClosedAt(i); }
      if IsLineBreak(ch) { return OpenUntil(i); }
      i := i + if ch == '\\' then 2 else 1;
    }
    r := OpenUntil(|text|);
  }

  function SkipBlanks(text: string, i: nat): (r: nat)
    ensures i <= r && (i <= |text| ==> r <= |text|)
    ensures r < |text| ==> !IsBlank(text[r])
    ensures forall k :: i <= k < r ==> k < |text| && IsBlank(text[k])
    decreases if i < |text| then |text| - i else 0
  {
    if i < |text| && IsBlank(text[i]) then SkipBlanks(text, i + 1) else i
  }

  method FindNonBlank(text: string, start: nat) returns (i: nat)
    ensures i == SkipBlanks(text, start)
  {
    i := start;
    while i < |text| && IsBlank(text[i])
      invariant SkipBlanks(text, i) == SkipBlanks(text, start)
      decreases |text| - i
    {
      i := i + 1;
    }
  }

  predicate CharAt(text: string, i: nat, ch: char) {
    i < |text| && text[i] == ch
  }

  /** Just past a `:` at `p` (blanks first); a URL scheme's `://` is not one. */
  function AfterKeyColon(text: string, p: nat): (r: Option<nat>)
    ensures r.Some? ==> p < r.value <= |text| && text[r.value - 1] == ':'
  {
    var i := SkipBlanks(text, p);
    if !CharAt(text, i, ':') then None
    else if CharAt(text, i + 1, '/') && CharAt(text, i + 2, '/') then None
    else Some(i + 1)
  }

  method FindAfterKeyColon(text: string, p: nat) returns (r: Option<nat>)
    ensures r == AfterKeyColon(text, p)
  {
    var i := FindNonBlank(text, p);
    if !CharAt(text, i, ':') { return None; }
    if CharAt(text, i + 1, '/') && CharAt(text, i + 2, '/') { return None; }
    r := Some(i + 1);
  }

  function SegmentEnd(text: string, segment: nat, e: nat): (r: nat)
    ensures e <= r && (e <= |text| ==> r <= |text|)
    decreases if e < |text| then |text| - e else 0
  {
    if e < |text| && e - segment <= MAX_KEY_LENGTH && IsIdentChar(text[e]) then SegmentEnd(text, segment, e + 1) else e
  }

  function PathStartsKey(text: string, p: nat, segment: nat, e: nat): bool
    requires p <= segment <= e
    decreases if e < |text| then |text| - e else 0
  {
    var end := SegmentEnd(text, segment, e);
    if end - segment > MAX_KEY_LENGTH || end - p > MAX_KEY_PATH_LENGTH then false
    else if CharAt(text, end, '.') && end + 1 < |text| && IsIdentStart(text[end + 1]) then
      PathStartsKey(text, p, end + 1, end + 2)
    else AfterKeyColon(text, end).Some?
  }

  /** Does a `key:` (quoted, bare, or a dotted path) start at `p`? */
  predicate StartsKeyAt(text: string, p: nat) {
    if p >= |text| then false
    else if IsQuote(text[p]) then
      var close := QuoteClose(text, p);
      close.ClosedAt? && close.index - p <= MAX_QUOTED_KEY_SPAN && AfterKeyColon(text, close.index + 1).Some?
    else if !IsIdentStart(text[p]) || (p > 0 && IsWordChar(text[p - 1])) then false
    else PathStartsKey(text, p, p, p + 1)
  }

  method CheckStartsKeyAt(text: string, p: nat) returns (r: bool)
    ensures r == StartsKeyAt(text, p)
  {
    if p >= |text| { return false; }
    if IsQuote(text[p]) {
      var close := FindQuoteClose(text, p);
      if close.OpenUntil? || close.index - p > MAX_QUOTED_KEY_SPAN { return false; }
      var colon := FindAfterKeyColon(text, close.index + 1);
      return colon.Some?;
    }
    if !IsIdentStart(text[p]) || (p > 0 && IsWordChar(text[p - 1])) { return false; }
    var segment, e := p, p + 1;
    while true
      invariant p <= segment <= e
      invariant PathStartsKey(text, p, segment, e) == StartsKeyAt(text, p)
      decreases if e < |text| then |text| - e else 0
    {
      ghost var entry := e;
      while e < |text| && e - segment <= MAX_KEY_LENGTH && IsIdentChar(text[e])
        invariant entry <= e
        invariant SegmentEnd(text, segment, e) == SegmentEnd(text, segment, entry)
        decreases |text| - e
      {
        e := e + 1;
      }
      if e - segment > MAX_KEY_LENGTH || e - p > MAX_KEY_PATH_LENGTH { return false; }
      if !CharAt(text, e, '.') || e + 1 >= |text| || !IsIdentStart(text[e + 1]) { break; }
      segment := e + 1;
      e := segment + 1;
    }
    var colon := FindAfterKeyColon(text, e);
    r := colon.Some?;
  }

  // ----- Where a value ends -----

  /** Past a quoted string that starts at `i`, closed or not. */
  function PastQuote(text: string, i: nat): (r: nat)
    requires i < |text|
    ensures i < r <= |text|
  {
    match QuoteClose(text, i)
    case ClosedAt(c) => c + 1
    case OpenUntil(p) => p
  }

  function ContainerScan(text: string, i: nat, depth: int): (r: Option<nat>)
    requires i <= |text|
    ensures r.Some? ==> i < r.value <= |text|
    decreases |text| - i
  {
    if i == |text| then None
    else if IsQuote(text[i]) then ContainerScan(text, PastQuote(text, i), depth)
    else if text[i] in "{[" then ContainerScan(text, i + 1, depth + 1)
    else if text[i] in "}]" then
      if depth == 1 then Some(i + 1) else ContainerScan(text, i + 1, depth - 1)
    else ContainerScan(text, i + 1, depth)
  }

  method FindContainerEnd(text: string, start: nat) returns (r: Option<nat>)
    requires start <= |text|
    ensures r == ContainerScan(text, start, 0)
  {
    var depth := 0;
    var i := start;
    while i < |text|
      invariant start <= i <= |text|
      invariant ContainerScan(text, i, depth) == ContainerScan(text, start, 0)
      decreases |text| - i
    {
      var ch := text[i];
      if IsQuote(ch) {
        var close := FindQuoteClose(text, i);
        i := match close case ClosedAt(c) => c + 1 case OpenUntil(p) => p;
        continue;
      }
      if ch in "{[" {
        depth := depth + 1;
      } else if ch in "}]" {
        depth := depth - 1;
        if depth == 0 { return Some(i + 1); }
      }
      i := i + 1;
    }
    r := None;
  }

  predicate EndsBareValue(text: string, comma: nat) {
    var k := SkipBlanks(text, comma + 1);
    k >= |text| || IsLineBreak(text[k]) || StartsKeyAt(text, k)
  }

  function BareScan(text: string, i: nat, depth: nat): (r: nat)
    requires i <= |text|
    ensures i <= r <= |text|
    decreases |text| - i
  {
    if i == |text| || IsLineBreak(text[i]) then i
    else if IsQuote(text[i]) then
      match QuoteClose(text, i)
      case ClosedAt(c) => BareScan(text, c + 1, depth)
      case OpenUntil(p) => p
    else if text[i] in "([{" then BareScan(text, i + 1, depth + 1)
    else if text[i] in ")]}" then
      if depth == 0 then i else BareScan(text, i + 1, depth - 1)
    else if text[i] == ',' && depth == 0 && EndsBareValue(text, i) then i
    else BareScan(text, i + 1, depth)
  }

  function TrimEnd(text: string, start: nat, i: nat): (r: nat)
    requires start <= i <= |text|
    ensures start <= r <= i
  {
    if i > start && IsBlank(text[i - 1]) then TrimEnd(text, start, i - 1) else i
  }

  function BareValueEnd(text: string, start: nat): (r: nat)
    requires start <= |text|
    ensures start <= r <= |text|
  {
    TrimEnd(text, start, BareScan(text, start, 0))
  }

  /** The first loop of `bareValueEnd`. */
  method FindBareStop(text: string, start: nat) returns (i: nat)
    requires start <= |text|
    ensures i == BareScan(text, start, 0)
  {
    var depth: nat := 0;
    i := start;
    while i < |text|
      invariant start <= i <= |text|
      invariant BareScan(text, i, depth) == BareScan(text, start, 0)
      decreases |text| - i
    {
      var ch := text[i];
      if IsLineBreak(ch) { break; }
      if IsQuote(ch) {
        var close := FindQuoteClose(text, i);
        if close.OpenUntil? {
          i := close.index;
          break;
        }
        i := close.index + 1;
        continue;
      }
      if ch in "([{" {
        depth := depth + 1;
      } else if ch in ")]}" {
        if depth == 0 { break; }
        depth := depth - 1;
      } else if ch == ',' && depth == 0 {
        var k := FindNonBlank(text, i + 1);
        var key := CheckStartsKeyAt(text, k);
        if k >= |text| || IsLineBreak(text[k]) || key { break; }
      }
      i := i + 1;
    }
  }

  method FindBareValueEnd(text: string, start: nat) returns (i: nat)
    requires start <= |text|
    ensures i == BareValueEnd(text, start)
  {
    i := FindBareStop(text, start);
    ghost var stop := i;
    while i > start && IsBlank(text[i - 1])
      invariant start <= i <= stop
      invariant TrimEnd(text, start, i) == TrimEnd(text, start, stop)
    {
      i := i - 1;
    }
  }

  // ----- The value of a sensitive key -----

  /** What is cut out of the text, and what stands in its place. */
  datatype Cut = Cut(start: nat, end: nat, replacement: string)

  /** The two replacements, quoted. */
  const MARK := "\"[scrubbed]\""
  const TRUNCATED_MARK := "\"[scrubbed: truncated]\""

  function SkipSpace(text: string, i: nat): (r: nat)
    requires i <= |text|
    ensures i <= r <= |text|
    ensures r < |text| ==> !IsSpace(text[r])
    decreases |text| - i
  {
    if i < |text| && IsSpace(text[i]) then SkipSpace(text, i + 1) else i
  }

  function SkipLineBreaks(text: string, i: nat): (r: nat)
    requires i <= |text|
    ensures i <= r <= |text|
    ensures i < |text| && IsLineBreak(text[i]) ==> i < r
    decreases |text| - i
  {
    if i < |text| && IsLineBreak(text[i]) then SkipLineBreaks(text, i + 1) else i
  }

  function LineEnd(text: string, i: nat): (r: nat)
    requires i <= |text|
    ensures i <= r <= |text|
    ensures r < |text| ==> IsLineBreak(text[r])
    decreases |text| - i
  {
    if i < |text| && !IsLineBreak(text[i]) then LineEnd(text, i + 1) else i
  }

  predicate HasNonSpace(text: string, i: nat, j: nat)
    requires i <= j <= |text|
  {
    exists k :: i <= k < j && !IsSpace(text[k])
  }

  /** Does the line that starts at `t` start a key, or close a bracket? */
  predicate EndsLineValue(text: string, t: nat) {
    StartsKeyAt(text, t) || (t < |text| && text[t] in "}])")
  }

  /** A value on the lines after `p`: every line up to the next one that starts a key or closes a bracket. */
  function LineScan(text: string, p: nat, lineStart: nat): (r: Option<Cut>)
    requires p <= lineStart < |text| && IsLineBreak(text[lineStart])
    ensures r.Some? ==> r.value.start == p < r.value.end <= |text|
    decreases |text| - lineStart
  {
    var t := SkipBlanks(text, SkipLineBreaks(text, lineStart));
    if EndsLineValue(text, t) then
      if HasNonSpace(text, p, lineStart) then Some(Cut(p, lineStart, " " + MARK)) else None
    else
      var next := LineEnd(text, t);
      if next >= |text| then Some(Cut(p, |text|, " " + TRUNCATED_MARK))
      else LineScan(text, p, next)
  }

  method FindPastLineBreaks(text: string, start: nat) returns (t: nat)
    requires start <= |text|
    ensures t == SkipLineBreaks(text, start)
  {
    t := start;
    while t < |text| && IsLineBreak(text[t])
      invariant start <= t <= |text|
      invariant SkipLineBreaks(text, t) == SkipLineBreaks(text, start)
      decreases |text| - t
    {
      t := t + 1;
    }
  }

  method FindLineEnd(text: string, start: nat) returns (next: nat)
    requires start <= |text|
    ensures next == LineEnd(text, start)
  {
    next := start;
    while next < |text| && !IsLineBreak(text[next])
      invariant start <= next <= |text|
      invariant LineEnd(text, next) == LineEnd(text, start)
      decreases |text| - next
    {
      next := next + 1;
    }
  }

  method FindLineCut(text: string, p: nat) returns (r: Option<Cut>)
    requires p < |text| && IsLineBreak(text[p])
    ensures r == LineScan(text, p, p)
  {
    var lineStart := p;
    while lineStart < |text|
      invariant p <= lineStart < |text| && IsLineBreak(text[lineStart])
      invariant LineScan(text, p, lineStart) == LineScan(text, p, p)
      decreases |text| - lineStart
    {
      var t := FindPastLineBreaks(text, lineStart);
      t := FindNonBlank(text, t);
      var key := CheckStartsKeyAt(text, t);
      if key || (t < |text| && text[t] in "}])") {
        if HasNonSpace(text, p, lineStart) { return Some(Cut(p, lineStart, " " + MARK)); }
        return None;
      }
      var next := FindLineEnd(text, t);
      if next >= |text| { break; }
      lineStart := next;
    }
    r := Some(Cut(p, |text|, " " + TRUNCATED_MARK));
  }

  /** What to cut for a sensitive key whose `:` ends at `colonEnd`; nothing when there is no value. */
  function SensitiveValueAt(text: string, colonEnd: nat): (r: Option<Cut>)
    requires colonEnd <= |text|
    ensures r.Some? ==> colonEnd <= r.value.start < r.value.end <= |text|
  {
    var p := SkipBlanks(text, colonEnd);
    if p >= |text| then None
    else if IsLineBreak(text[p]) then
      var r := SkipSpace(text, p);
      if r >= |text| then None
      else if text[r] in "{[" then
        match ContainerScan(text, r, 0)
        case Some(end) => Some(Cut(p, end, " " + MARK))
        case None => Some(Cut(p, |text|, " " + TRUNCATED_MARK))
      else LineScan(text, p, p)
    else if text[p] in "{[" then
      match ContainerScan(text, p, 0)
      case Some(end) => Some(Cut(p, end, MARK))
      case None => Some(Cut(p, |text|, TRUNCATED_MARK))
    else if IsQuote(text[p]) then Some(Cut(p, PastQuote(text, p), MARK))
    else if BareValueEnd(text, p) > p then Some(Cut(p, BareValueEnd(text, p), MARK))
    else None
  }

  method FindSensitiveValue(text: string, colonEnd: nat) returns (r: Option<Cut>)
    requires colonEnd <= |text|
    ensures r == SensitiveValueAt(text, colonEnd)
  {
    var p := FindNonBlank(text, colonEnd);
    if p >= |text| { return None; }
    var ch := text[p];
    if IsLineBreak(ch) {
      var q := p;
      while q < |text| && IsSpace(text[q])
        invariant p <= q <= |text|
        invariant SkipSpace(text, q) == SkipSpace(text, p)
        decreases |text| - q
      {
        q := q + 1;
      }
      if q >= |text| { return None; }
      if text[q] in "{[" {
        var end := FindContainerEnd(text, q);
        return match end
               case Some(e) => Some(Cut(p, e, " " + MARK))
               case None => Some(Cut(p, |text|, " " + TRUNCATED_MARK));
      }
      r := FindLineCut(text, p);
      return;
    }
    if ch in "{[" {
      var end := FindContainerEnd(text, p);
      return match end
             case Some(e) => Some(Cut(p, e, MARK))
             case None => Some(Cut(p, |text|, TRUNCATED_MARK));
    }
    if IsQuote(ch) {
      var close := FindQuoteClose(text, p);
      return Some(Cut(p, match close case ClosedAt(c) => c + 1 case OpenUntil(q) => q, MARK));
    }
    var end := FindBareValueEnd(text, p);
    r := if end > p then Some(Cut(p, end, MARK)) else None;
  }

  // ----- The pass -----

  /** `content.replace(/\\([\s\S])/g, "$1")` */
  function Unescape(content: string): string {
    if content == "" then ""
    else if content[0] == '\\' && |content| > 1 then [content[1]] + Unescape(content[2..])
    else [content[0]] + Unescape(content[1..])
  }

  predicate MayHoldKeyText(content: string) {
    ':' in content || '[' in content
  }

  function IdentEnd(text: string, e: nat): (r: nat)
    requires e <= |text|
    ensures e <= r <= |text|
    decreases |text| - e
  {
    if e < |text| && IsIdentChar(text[e]) then IdentEnd(text, e + 1) else e
  }

  /** The `:` after the bare identifier `text[i..e]`, when the identifier can be a key. */
  function BareKeyColon(text: string, i: nat, e: nat): (r: Option<nat>)
    requires i < e <= |text|
    ensures r.Some? ==> e < r.value <= |text|
  {
    if e - i <= MAX_KEY_LENGTH && !(i > 0 && IsWordChar(text[i - 1])) then AfterKeyColon(text, e) else None
  }

  /** Every coordinate pair, leftmost first, replaced by the mark. */
  function ReplacePairs(text: string, i: nat): string
    requires i <= |text|
    decreases |text| - i
  {
    if i == |text| then ""
    else
      match ReadPair(text, i)
      case Some(e) => MARK + ReplacePairs(text, e)
      case None => [text[i]] + ReplacePairs(text, i + 1)
  }

  /**
   * What the pass does at `i`: go on to `next`, replacing `cut` if there is one.
   * `open` holds, per quote character, where its last unclosed quote gave up.
   */
  datatype Move = Move(next: nat, cut: Option<Cut>, dq: int, sq: int)

  function MoveAt(text: string, i: nat, dq: int, sq: int, depth: nat): (m: Move)
    requires i < |text| && depth <= MAX_STRING_DEPTH
    ensures i < m.next <= |text|
    ensures m.cut.Some? ==> i <= m.cut.value.start < m.cut.value.end == m.next
    decreases MAX_STRING_DEPTH - depth, 2
  {
    var ch := text[i];
    if IsQuote(ch) && i >= (if ch == '"' then dq else sq) then
      match QuoteClose(text, i)
      case OpenUntil(p) => if ch == '"' then Move(i + 1, None, p, sq) else Move(i + 1, None, dq, p)
      case ClosedAt(close) => QuotedMove(text, i, close, dq, sq, depth)
    else if IsIdentStart(ch) then WordMove(text, i, dq, sq)
    else Move(i + 1, None, dq, sq)
  }

  /** At a quoted string that closes. */
  function QuotedMove(text: string, i: nat, close: nat, dq: int, sq: int, depth: nat): (m: Move)
    requires i < close < |text| && depth <= MAX_STRING_DEPTH
    ensures i < m.next <= |text| && m.dq == dq && m.sq == sq
    ensures m.cut.Some? ==> i <= m.cut.value.start < m.cut.value.end == m.next
    decreases MAX_STRING_DEPTH - depth, 1
  {
    match AfterKeyColon(text, close + 1)
    case Some(colonEnd) => KeyMove(text, IsLocationSensitiveKey(text[i + 1..close]), colonEnd, dq, sq)
    case None =>
      if QuotedValueIsSensitive(text[i + 1..close], depth) then
        Move(close + 1, Some(Cut(i, close + 1, MARK)), dq, sq)
      else Move(close + 1, None, dq, sq)
  }

  /** At a bare identifier. */
  function WordMove(text: string, i: nat, dq: int, sq: int): (m: Move)
    requires i < |text|
    ensures i < m.next <= |text| && m.dq == dq && m.sq == sq
    ensures m.cut.Some? ==> i <= m.cut.value.start < m.cut.value.end == m.next
  {
    var e := IdentEnd(text, i + 1);
    match BareKeyColon(text, i, e)
    case Some(colonEnd) => KeyMove(text, IsLocationSensitiveKey(text[i..e]), colonEnd, dq, sq)
    case None => Move(e, None, dq, sq)
  }

  /** At a key, sensitive or not, whose `:` ends at `colonEnd`. */
  function KeyMove(text: string, isSensitive: bool, colonEnd: nat, dq: int, sq: int): (m: Move)
    requires colonEnd <= |text|
    ensures colonEnd <= m.next <= |text| && m.dq == dq && m.sq == sq
    ensures m.cut.Some? ==> colonEnd <= m.cut.value.start < m.cut.value.end == m.next
  {
    if isSensitive && SensitiveValueAt(text, colonEnd).Some? then
      var cut := SensitiveValueAt(text, colonEnd).value;
      Move(cut.end, Some(cut), dq, sq)
    else Move(colonEnd, None, dq, sq)
  }

  /** The output for `text[i..]`, before the coordinate pass. */
  function Scan(text: string, i: nat, dq: int, sq: int, depth: nat): string
    requires i <= |text| && depth <= MAX_STRING_DEPTH
    decreases MAX_STRING_DEPTH - depth, 3, |text| - i
  {
    if i == |text| then ""
    else
      var m := MoveAt(text, i, dq, sq, depth);
      (match m.cut
       case Some(cut) => text[i..cut.start] + cut.replacement
       case None => text[i..m.next])
      + Scan(text, m.next, m.dq, m.sq, depth)
  }

  /** `scrubTextAt` */
  function ScrubAt(text: string, depth: nat): string
    requires depth <= MAX_STRING_DEPTH
    decreases MAX_STRING_DEPTH - depth, 4
  {
    ReplacePairs(Scan(text, 0, -1, -1, depth), 0)
  }

  /** Does a quoted value hold scrubbable text once unescaped? Past the nesting cap any that could, does. */
  predicate QuotedValueIsSensitive(content: string, depth: nat)
    requires depth <= MAX_STRING_DEPTH
    decreases MAX_STRING_DEPTH - depth, 0
  {
    if depth >= MAX_STRING_DEPTH then MayHoldKeyText(content)
    else MayHoldKeyText(content) && ScrubAt(Unescape(content), depth + 1) != Unescape(content)
  }

  method CheckQuotedValue(content: string, depth: nat) returns (r: bool)
    requires depth <= MAX_STRING_DEPTH
    ensures r == QuotedValueIsSensitive(content, depth)
    decreases MAX_STRING_DEPTH - depth, 0
  {
    var mayHoldKeyText := MayHoldKeyText(content);
    if depth >= MAX_STRING_DEPTH { return mayHoldKeyText; }
    if !mayHoldKeyText { return false; }
    var unescaped := Unescape(content);
    var scrubbed := ScrubTextAt(unescaped, depth + 1);
    r := scrubbed != unescaped;
  }

  method TakeSensitive(text: string, isSensitive: bool, colonEnd: nat, cursor: nat, out: string)
    returns (out': string, cursor': nat, next: nat)
    requires cursor <= colonEnd <= |text|
    ensures isSensitive && SensitiveValueAt(text, colonEnd).Some? ==>
              var cut := SensitiveValueAt(text, colonEnd).value;
              next == cut.end == cursor' && out' == out + text[cursor..cut.start] + cut.replacement
    ensures !(isSensitive && SensitiveValueAt(text, colonEnd).Some?) ==>
              next == colonEnd && cursor' == cursor && out' == out
  {
    out', cursor', next := out, cursor, colonEnd;
    if isSensitive {
      var cut := FindSensitiveValue(text, colonEnd);
      if cut.Some? {
        out' := out + text[cursor..cut.value.start] + cut.value.replacement;
        cursor', next := cut.value.end, cut.value.end;
      }
    }
  }

  method FindIdentEnd(text: string, start: nat) returns (e: nat)
    requires start <= |text|
    ensures e == IdentEnd(text, start)
  {
    e := start;
    while e < |text| && IsIdentChar(text[e])
      invariant start <= e <= |text|
      invariant IdentEnd(text, e) == IdentEnd(text, start)
      decreases |text| - e
    {
      e := e + 1;
    }
  }

  /** The cursor and the output after a move: at a cut, the text before it and the replacement are out. */
  predicate Took(m: Move, text: string, start_cursor: nat, start_out: string, i: nat, cursor: nat, out: string) {
    && i == m.next
    && match m.cut
       case Some(cut) =>
         && start_cursor <= cut.start <= |text| && cursor == i
         && out == start_out + text[start_cursor..cut.start] + cut.replacement
       case None => cursor == start_cursor && out == start_out
  }

  /** One turn of the loop of `scrubTextAt`. */
  method Advance(text: string, start: nat, dq: int, sq: int, depth: nat, start_cursor: nat, start_out: string)
    returns (i: nat, dq': int, sq': int, cursor: nat, out: string)
    requires start_cursor <= start < |text| && depth <= MAX_STRING_DEPTH
    ensures var m := MoveAt(text, start, dq, sq, depth);
            dq' == m.dq && sq' == m.sq && Took(m, text, start_cursor, start_out, i, cursor, out)
    decreases MAX_STRING_DEPTH - depth, 2
  {
    i, dq', sq', cursor, out := start, dq, sq, start_cursor, start_out;
    var ch := text[i];
    if IsQuote(ch) && i >= (if ch == '"' then dq else sq) {
      var close := FindQuoteClose(text, i);
      if close.OpenUntil? {
        if ch == '"' { dq' := close.index; } else { sq' := close.index; }
        i := i + 1;
        return;
      }
      i, cursor, out := AdvanceQuoted(text, start, close.index, dq, sq, depth, start_cursor, start_out);
      return;
    }
    if IsIdentStart(ch) {
      i, cursor, out := AdvanceWord(text, start, dq, sq, start_cursor, start_out);
      return;
    }
    i := i + 1;
  }

  /** The turn at a quoted string that closes. */
  method AdvanceQuoted(text: string, start: nat, close: nat, ghost dq: int, ghost sq: int, depth: nat,
                       start_cursor: nat, start_out: string)
    returns (i: nat, cursor: nat, out: string)
    requires start_cursor <= start < close < |text| && depth <= MAX_STRING_DEPTH
    ensures Took(QuotedMove(text, start, close, dq, sq, depth), text, start_cursor, start_out, i, cursor, out)
    decreases MAX_STRING_DEPTH - depth, 1
  {
    i, cursor, out := start, start_cursor, start_out;
    var colonEnd := FindAfterKeyColon(text, close + 1);
    if colonEnd.Some? {
      var sensitive := IsLocationSensitiveKey(text[i + 1..close]);
      out, cursor, i := TakeSensitive(text, sensitive, colonEnd.value, cursor, out);
      return;
    }
    var sensitive := CheckQuotedValue(text[i + 1..close], depth);
    if sensitive {
      out := out + text[cursor..i] + MARK;
      cursor := close + 1;
    }
    i := close + 1;
  }

  /** The turn at a bare identifier. */
  method AdvanceWord(text: string, start: nat, ghost dq: int, ghost sq: int, start_cursor: nat, start_out: string)
    returns (i: nat, cursor: nat, out: string)
    requires start_cursor <= start < |text| && IsIdentStart(text[start])
    ensures Took(WordMove(text, start, dq, sq), text, start_cursor, start_out, i, cursor, out)
  {
    i, cursor, out := start, start_cursor, start_out;
    var e := FindIdentEnd(text, i + 1);
    var keyable := e - i <= MAX_KEY_LENGTH && !(i > 0 && IsWordChar(text[i - 1]));
    var colonEnd := None;
    if keyable { colonEnd := FindAfterKeyColon(text, e); }
    if colonEnd.Some? {
      var sensitive := IsLocationSensitiveKey(text[i..e]);
      out, cursor, i := TakeSensitive(text, sensitive, colonEnd.value, cursor, out);
      return;
    }
    i := e;
  }

  method ScrubTextAt(text: string, depth: nat) returns (result: string)
    requires depth <= MAX_STRING_DEPTH
    ensures result == ScrubAt(text, depth)
    decreases MAX_STRING_DEPTH - depth, 3
  {
    var out := "";
    var cursor: nat, i: nat := 0, 0;
    var dq: int, sq: int := -1, -1;
    while i < |text|
      invariant cursor <= i <= |text|
      invariant out + text[cursor..i] + Scan(text, i, dq, sq, depth) == Scan(text, 0, -1, -1, depth)
      decreases |text| - i
    {
      ghost var m := MoveAt(text, i, dq, sq, depth);
      ghost var start, before, pending := i, out, text[cursor..i];
      i, dq, sq, cursor, out := Advance(text, i, dq, sq, depth, cursor, out);
      PendingAdvances(text, before, pending, start, m, cursor, out, Scan(text, i, dq, sq, depth));
    }
    assert text[cursor..] == text[cursor..i];
    assert out + text[cursor..] + "" == out + text[cursor..];
    out := out + text[cursor..];
    result := ReplacePairs(out, 0);
  }

  /** However a move went, what is out plus what is pending grew by exactly what the move emits. */
  lemma PendingAdvances(text: string, before: string, pending: string, start: nat, m: Move, cursor: nat, out: string,
                        rest: string)
    requires start < m.next <= |text| && |pending| <= start && pending == text[start - |pending|..start]
    requires m.cut.Some? ==> start <= m.cut.value.start < m.cut.value.end == m.next
    requires m.cut.Some? ==>
               cursor == m.next &&
               out == before + text[start - |pending|..m.cut.value.start] + m.cut.value.replacement
    requires m.cut.None? ==> cursor == start - |pending| && out == before
    ensures out + text[cursor..m.next] + rest ==
            before + pending +
            ((match m.cut
              case Some(cut) => text[start..cut.start] + cut.replacement
              case None => text[start..m.next]) + rest)
  {
    match m.cut
    case Some(cut) =>
      assert text[start - |pending|..cut.start] == pending + text[start..cut.start];
      assert text[cursor..m.next] == "";
      CutAppends(before, pending, text[start..cut.start], cut.replacement, rest);
    case None =>
      assert text[cursor..m.next] == pending + text[start..m.next];
  }

  lemma CutAppends(before: string, pending: string, kept: string, mark: string, rest: string)
    ensures before + (pending + kept) + mark + "" + rest == before + pending + ((kept + mark) + rest)
  {
  }
}
