/** The scanner finds exactly the arguments of a message: the theorem over its syntax tree. */
module IcuExtraction {
  import opened Chars
  import opened IcuArguments

  /**
   * A message. `Quoted` is a literal that starts with a brace; an apostrophe in
   * it is written twice. `Apostrophe` is an ordinary one and the character
   * after it. `Stray` is a brace pair that is no argument syntax: what follows
   * the name, if there is one, is neither a comma nor the closing brace.
   */
  datatype Part =
    | Char(c: char)
    | Apostrophe(next: char)
    | TwoApostrophes
    | Quoted(brace: char, rest: string)
    | Stray(name: Name, junk: string)
    | Simple(name: Name)
    | Styled(name: Name, style: seq<Piece>)
  datatype Piece = Style(c: char) | Branch(body: seq<Part>)
  datatype Name = Name(lead: string, name: string, trail: string)

  function Doubled(s: string): string {
    if s == "" then "" else (if s[0] == '\'' then "''" else [s[0]]) + Doubled(s[1..])
  }

  function PrintName(n: Name): string { n.lead + (n.name + n.trail) }

  function PrintPart(p: Part): string
    decreases p, 0
  {
    match p
    case Char(c) => [c]
    case Apostrophe(next) => ['\'', next]
    case TwoApostrophes => "''"
    case Quoted(brace, rest) => ['\'', brace] + (Doubled(rest) + "'")
    case Stray(name, junk) => "{" + (PrintName(name) + (junk + "}"))
    case Simple(name) => "{" + (PrintName(name) + "}")
    case Styled(name, style) => "{" + (PrintName(name) + ("," + (PrintStyle(style) + "}")))
  }

  function Print(parts: seq<Part>): string
    decreases parts, 1
  {
    if parts == [] then "" else PrintPart(parts[0]) + Print(parts[1..])
  }

  function PrintPiece(p: Piece): string
    decreases p, 0
  {
    match p
    case Style(c) => [c]
    case Branch(body) => "{" + (Print(body) + "}")
  }

  function PrintStyle(style: seq<Piece>): string
    decreases style, 1
  {
    if style == [] then "" else PrintPiece(style[0]) + PrintStyle(style[1..])
  }

  // ----- The arguments a message references -----

  function Arguments(parts: seq<Part>): set<string>
    decreases parts, 1
  {
    if parts == [] then {} else PartArguments(parts[0]) + Arguments(parts[1..])
  }

  function PartArguments(p: Part): set<string>
    decreases p, 0
  {
    match p
    case Stray(name, _) => if name.name == "" then {} else {name.name}
    case Simple(name) => {name.name}
    case Styled(name, style) => {name.name} + StyleArguments(style)
    case _ => {}
  }

  function StyleArguments(style: seq<Piece>): set<string>
    decreases style, 1
  {
    if style == [] then {} else PieceArguments(style[0]) + StyleArguments(style[1..])
  }

  function PieceArguments(p: Piece): set<string>
    decreases p, 0
  {
    match p
    case Style(_) => {}
    case Branch(body) => Arguments(body)
  }

  predicate IsOrdinary(c: char) { c !in {'{', '}', '\''} }

  /** Blanks, a name, and blanks again; or blanks alone. */
  predicate HeaderFormed(n: Name) {
    && (forall k :: 0 <= k < |n.lead| ==> IsSpace(n.lead[k]))
    && (forall k :: 0 <= k < |n.trail| ==> IsSpace(n.trail[k]))
    && (n.name == "" ==> n.trail == "") && (forall k :: 0 <= k < |n.name| ==> IsNameChar(n.name[k]))
  }

  predicate NameFormed(n: Name) { HeaderFormed(n) && n.name != "" }

  predicate EndsHeader(c: char) { !IsSpace(c) && !IsNameChar(c) }

  predicate StrayFormed(n: Name, junk: string) {
    && HeaderFormed(n) && '}' !in junk
    && if junk == "" then n.name == "" else EndsHeader(junk[0]) && junk[0] != ','
  }

  /**
   * The literal's apostrophes, written twice each, leave the scanner inside
   * the quotes: each is followed by another, by a brace, or by the end.
   */
  predicate Escaped(rest: string) {
    rest == "" ||
    ((rest[0] == '\'' && |rest| > 1 ==> rest[1] in {'\'', '{', '}'}) && Escaped(rest[1..]))
  }

  predicate PartFormed(p: Part)
    decreases p, 0
  {
    match p
    case Char(c) => IsOrdinary(c)
    case Apostrophe(next) => IsOrdinary(next)
    case TwoApostrophes => true
    case Quoted(brace, rest) => (brace == '{' || brace == '}') && Escaped(rest)
    case Stray(name, junk) => StrayFormed(name, junk)
    case Simple(name) => NameFormed(name)
    case Styled(name, style) => NameFormed(name) && StyleFormed(style)
  }

  predicate Formed(parts: seq<Part>)
    decreases parts, 1
  {
    parts == [] || (PartFormed(parts[0]) && Formed(parts[1..]))
  }

  predicate StyleFormed(style: seq<Piece>)
    decreases style, 1
  {
    style == [] || (PieceFormed(style[0]) && StyleFormed(style[1..]))
  }

  predicate PieceFormed(p: Piece)
    decreases p, 0
  {
    match p
    case Style(c) => c != '{' && c != '}'
    case Branch(body) => Formed(body)
  }

  // ----- Text at a place -----

  predicate Stands(m: string, i: nat, s: string) { i + |s| <= |m| && m[i..i + |s|] == s }

  lemma StandsSplit(m: string, i: nat, a: string, b: string)
    requires Stands(m, i, a + b)
    ensures Stands(m, i, a) && Stands(m, i + |a|, b)
  {
    var s := a + b;
    assert m[i..i + |a|] == m[i..i + |s|][..|a|] == s[..|a|] == a;
    assert m[i + |a|..i + |s|] == m[i..i + |s|][|a|..] == s[|a|..] == b;
  }

  lemma StandsAt(m: string, i: nat, s: string, k: nat)
    requires Stands(m, i, s) && k < |s|
    ensures m[i + k] == s[k]
  {
    assert m[i..i + |s|][k] == m[i + k];
  }

  /** A bracketed stretch: its opening, inner and closing text. */
  lemma StandsAround(m: string, i: nat, open: string, inner: string, close: string)
    requires Stands(m, i, open + (inner + close)) && open != "" && close != ""
    ensures m[i] == open[0] && Stands(m, i + |open|, inner) && i + |open| + |inner| < |m|
    ensures m[i + |open| + |inner|] == close[0] && Stands(m, i + |open| + |inner|, close)
  {
    StandsSplit(m, i, open, inner + close);
    StandsSplit(m, i + |open|, inner, close);
    StandsAt(m, i, open, 0);
    StandsAt(m, i + |open| + |inner|, close, 0);
  }

  lemma {:induction false} SkipsRun(m: string, i: nat, end: nat, p: char -> bool)
    requires i <= end < |m| && !p(m[end]) && forall k :: i <= k < end ==> p(m[k])
    ensures Skip(m, i, p) == end
    decreases end - i
  {
    if i < end { SkipsRun(m, i + 1, end, p); }
  }

  lemma SkipsText(m: string, i: nat, s: string, p: char -> bool)
    requires Stands(m, i, s) && i + |s| < |m| && !p(m[i + |s|]) && forall k :: 0 <= k < |s| ==> p(s[k])
    ensures Skip(m, i, p) == i + |s|
  {
    forall k | i <= k < i + |s| ensures p(m[k]) { StandsAt(m, i, s, k - i); }
    SkipsRun(m, i, i + |s|, p);
  }

  lemma NameCharsAreNotBlank(c: char)
    ensures IsNameChar(c) ==> !IsSpace(c) && c != '}' && c != ','
    ensures IsSpace(c) ==> c != '}' && c != ','
  {
  }

  /** The three runs of a header, and the character that ends each. */
  lemma HeaderStands(m: string, i: nat, n: Name, next: nat) returns (start: nat, end: nat)
    requires HeaderFormed(n) && Stands(m, i, PrintName(n)) && next == i + |PrintName(n)| < |m| && EndsHeader(m[next])
    ensures start == i + |n.lead| <= end == start + |n.name| <= next == end + |n.trail|
    ensures Stands(m, i, n.lead) && Stands(m, start, n.name) && Stands(m, end, n.trail)
    ensures !IsSpace(m[start]) && !IsNameChar(m[end]) && !IsSpace(m[next])
  {
    start, end := i + |n.lead|, i + |n.lead| + |n.name|;
    StandsSplit(m, i, n.lead, n.name + n.trail);
    StandsSplit(m, start, n.name, n.trail);
    if n.name != "" { StandsAt(m, start, n.name, 0); }
    if n.trail != "" { StandsAt(m, end, n.trail, 0); }
    NameCharsAreNotBlank(m[start]);
    NameCharsAreNotBlank(m[end]);
    NameCharsAreNotBlank(m[next]);
  }

  lemma HeaderReads(m: string, i: nat, n: Name, next: nat)
    requires HeaderFormed(n) && Stands(m, i, PrintName(n)) && next == i + |PrintName(n)| < |m| && EndsHeader(m[next])
    ensures HeaderAt(m, i).next == next && m[HeaderAt(m, i).start..HeaderAt(m, i).end] == n.name
  {
    var start, end := HeaderStands(m, i, n, next);
    HeaderSkips(m, i, n, start, end, next);
    HeaderIs(m, i, start, end, next);
  }

  lemma HeaderSkips(m: string, i: nat, n: Name, start: nat, end: nat, next: nat)
    requires HeaderFormed(n) && start == i + |n.lead| && end == start + |n.name| && next == end + |n.trail| < |m|
    requires Stands(m, i, n.lead) && Stands(m, start, n.name) && Stands(m, end, n.trail)
    requires !IsSpace(m[start]) && !IsNameChar(m[end]) && !IsSpace(m[next])
    ensures Skip(m, i, IsSpace) == start && Skip(m, start, IsNameChar) == end && Skip(m, end, IsSpace) == next
  {
    SkipsText(m, i, n.lead, IsSpace);
    SkipsText(m, start, n.name, IsNameChar);
    SkipsText(m, end, n.trail, IsSpace);
  }

  lemma HeaderIs(m: string, i: nat, start: nat, end: nat, next: nat)
    requires i <= start <= end <= next <= |m|
    requires Skip(m, i, IsSpace) == start && Skip(m, start, IsNameChar) == end && Skip(m, end, IsSpace) == next
    ensures HeaderAt(m, i) == Header(start, end, next)
  {
  }

  /** The argument whose `{` stands at `i`, up to where its name ends at `next`. */
  lemma ArgumentReads(m: string, i: nat, n: Name, next: nat, names: set<string>)
    requires NameFormed(n) && i < |m| && m[i] == '{' && Stands(m, i + 1, PrintName(n))
    requires next == i + 1 + |PrintName(n)| < |m| && m[next] in {'}', ','}
    ensures ArgumentFrom(m, i + 1, names) ==
            if m[next] == '}' then Found(next + 1, names + {n.name}) else StyleFrom(m, next + 1, names + {n.name})
  {
    HeaderReads(m, i + 1, n, next);
  }

  lemma SimpleReads(m: string, i: nat, n: Name, names: set<string>)
    requires NameFormed(n) && Stands(m, i, PrintPart(Simple(n)))
    ensures MessageFrom(m, i, names) == MessageFrom(m, i + |PrintPart(Simple(n))|, names + {n.name})
  {
    var close := i + 1 + |PrintName(n)|;
    StandsAround(m, i, "{", PrintName(n), "}");
    ArgumentReads(m, i, n, close, names);
    ArgumentThenMessage(m, i, close + 1, names, names + {n.name});
  }

  lemma StrayStands(m: string, i: nat, n: Name, junk: string) returns (next: nat, close: nat)
    requires StrayFormed(n, junk) && Stands(m, i, PrintPart(Stray(n, junk)))
    ensures i + 1 + |PrintName(n)| == next <= close == next + |junk| < |m|
    ensures m[i] == '{' && Stands(m, i + 1, PrintName(n)) && Stands(m, next, junk) && m[close] == '}'
    ensures EndsHeader(m[next]) && m[next] != ',' && (m[next] == '}' <==> junk == "")
    ensures i + |PrintPart(Stray(n, junk))| == close + 1
  {
    next := i + 1 + |PrintName(n)|;
    close := next + |junk|;
    StandsAround(m, i, "{", PrintName(n), junk + "}");
    StandsSplit(m, next, junk, "}");
    StandsAt(m, close, "}", 0);
    if junk != "" { StandsAt(m, next, junk, 0); }
  }

  lemma JunkIsPassed(m: string, next: nat, junk: string, close: nat, found: set<string>)
    requires Stands(m, next, junk) && close == next + |junk| < |m| && m[close] == '}' && '}' !in junk
    requires m[next] != ',' && (m[next] == '}' <==> junk == "")
    ensures AfterName(m, next, found) == Found(close + 1, found)
  {
    SkipsText(m, next, junk, c => c != '}');
  }

  /** Its name counts; then everything up to the first closing brace is passed over. */
  lemma StrayReads(m: string, i: nat, n: Name, junk: string, names: set<string>)
    requires StrayFormed(n, junk) && Stands(m, i, PrintPart(Stray(n, junk)))
    ensures MessageFrom(m, i, names) ==
            MessageFrom(m, i + |PrintPart(Stray(n, junk))|, names + PartArguments(Stray(n, junk)))
  {
    var next, close := StrayStands(m, i, n, junk);
    var found := WithName(names, n.name);
    HeaderReads(m, i + 1, n, next);
    JunkIsPassed(m, next, junk, close, found);
    assert found == names + PartArguments(Stray(n, junk));
    ArgumentThenMessage(m, i, close + 1, names, found);
  }

  lemma ArgumentThenMessage(m: string, i: nat, end: nat, names: set<string>, after: set<string>)
    requires i < |m| && m[i] == '{' && ArgumentFrom(m, i + 1, names) == Found(end, after)
    ensures end <= |m| + 1 && MessageFrom(m, i, names) == MessageFrom(m, end, after)
  {
  }

  // ----- Inside a quoted literal -----

  /** From `p` on stands the rest `s` of a quoted literal, whose closing apostrophe is at `end`. */
  predicate Lies(m: string, p: nat, s: string, end: nat)
    decreases |s|
  {
    && end < |m| && m[end] == '\''
    && if s == "" then p == end
       else
         && p < end && m[p] == s[0]
         && if s[0] == '\'' then p + 1 < end && m[p + 1] == '\'' && Lies(m, p + 2, s[1..], end)
            else Lies(m, p + 1, s[1..], end)
  }

  lemma {:induction false} DoubledLies(m: string, p: nat, s: string, end: nat)
    requires Stands(m, p, Doubled(s)) && p + |Doubled(s)| == end < |m| && m[end] == '\''
    ensures Lies(m, p, s, end)
    decreases |s|
  {
    if s != "" {
      var head := if s[0] == '\'' then "''" else [s[0]];
      StandsSplit(m, p, head, Doubled(s[1..]));
      StandsAt(m, p, head, 0);
      if s[0] == '\'' { StandsAt(m, p, head, 1); }
      DoubledLies(m, p + |head|, s[1..], end);
    }
  }

  lemma QuotedLies(m: string, i: nat, brace: char, rest: string, end: nat)
    requires Stands(m, i, PrintPart(Quoted(brace, rest))) && end == i + 2 + |Doubled(rest)|
    ensures i + 1 < |m| && m[i] == '\'' && m[i + 1] == brace
    ensures Lies(m, i + 2, rest, end) && i + |PrintPart(Quoted(brace, rest))| == end + 1
  {
    StandsAround(m, i, ['\'', brace], Doubled(rest), "'");
    StandsAt(m, i, PrintPart(Quoted(brace, rest)), 1);
    DoubledLies(m, i + 2, rest, end);
  }

  /** Just past the quoted stretch that `p` is in. */
  function PastQuote(m: string, p: nat): (j: nat)
    requires p <= |m| + 1
    ensures j <= |m| + 2
  {
    Skip(m, p, c => c != '\'') + 1
  }

  lemma PastQuoteSteps(m: string, p: nat)
    requires p < |m|
    ensures PastQuote(m, p) == if m[p] == '\'' then p + 1 else PastQuote(m, p + 1)
  {
  }

  /** The scanner at the second of two apostrophes, the quoted stretch having ended at the first. */
  lemma AtSecondApostrophe(m: string, p: nat, s: string, end: nat, names: set<string>)
    requires Lies(m, p, s, end) && s != "" && s[0] == '\''
    ensures p + 2 <= |m| && PastQuote(m, p) == p + 1 && Lies(m, p + 2, s[1..], end)
    ensures PastQuote(m, p + 2) <= |m| + 1
    ensures MessageFrom(m, p + 1, names) ==
            if |s| == 1 || s[1] in {'\'', '{', '}'} then MessageFrom(m, PastQuote(m, p + 2), names)
            else MessageFrom(m, p + 2, names)
  {
    PastQuoteSteps(m, p);
    PastQuoteSteps(m, p + 2);
    assert |s| == 1 ==> s[1..] == "";
  }

  /** Escaped to its end, the literal is read to its end. */
  lemma {:induction false} InsideReads(m: string, p: nat, s: string, end: nat, names: set<string>)
    requires Lies(m, p, s, end) && Escaped(s)
    ensures PastQuote(m, p) <= |m| + 1 && MessageFrom(m, PastQuote(m, p), names) == MessageFrom(m, end + 1, names)
    decreases |s|
  {
    PastQuoteSteps(m, p);
    if s != "" {
      if s[0] == '\'' {
        AtSecondApostrophe(m, p, s, end, names);
        InsideReads(m, p + 2, s[1..], end, names);
      } else {
        InsideReads(m, p + 1, s[1..], end, names);
      }
    }
  }

  lemma QuotedReads(m: string, i: nat, brace: char, rest: string, names: set<string>)
    requires (brace == '{' || brace == '}') && Escaped(rest) && Stands(m, i, PrintPart(Quoted(brace, rest)))
    ensures MessageFrom(m, i, names) == MessageFrom(m, i + |PrintPart(Quoted(brace, rest))|, names)
  {
    var end := i + 2 + |Doubled(rest)|;
    QuotedLies(m, i, brace, rest, end);
    InsideReads(m, i + 2, rest, end, names);
  }

  // ----- Reading a printed message -----

  lemma LiteralReads(m: string, i: nat, p: Part, names: set<string>)
    requires PartFormed(p) && !p.Simple? && !p.Styled? && !p.Stray? && Stands(m, i, PrintPart(p))
    ensures MessageFrom(m, i, names) == MessageFrom(m, i + |PrintPart(p)|, names)
  {
    if p.Quoted? {
      QuotedReads(m, i, p.brace, p.rest, names);
    } else {
      StandsAt(m, i, PrintPart(p), 0);
      if !p.Char? { StandsAt(m, i, PrintPart(p), 1); }
    }
  }

  lemma {:induction false} PartReads(m: string, i: nat, p: Part, names: set<string>)
    requires PartFormed(p) && Stands(m, i, PrintPart(p))
    ensures MessageFrom(m, i, names) == MessageFrom(m, i + |PrintPart(p)|, names + PartArguments(p))
    decreases p, 0
  {
    match p
    case Stray(name, junk) => StrayReads(m, i, name, junk, names);
    case Simple(name) => SimpleReads(m, i, name, names);
    case Styled(name, style) => StyledReads(m, i, name, style, names);
    case _ =>
      LiteralReads(m, i, p, names);
      assert names + {} == names;
  }

  /** Where the parts of a styled argument stand. */
  lemma StyledStands(m: string, i: nat, n: Name, style: seq<Piece>) returns (comma: nat, close: nat)
    requires Stands(m, i, PrintPart(Styled(n, style)))
    ensures i + 1 + |PrintName(n)| == comma < comma + 1 + |PrintStyle(style)| == close < |m|
    ensures m[i] == '{' && Stands(m, i + 1, PrintName(n)) && m[comma] == ',' && m[close] == '}'
    ensures Stands(m, comma + 1, PrintStyle(style)) && i + |PrintPart(Styled(n, style))| == close + 1
  {
    comma := i + 1 + |PrintName(n)|;
    close := comma + 1 + |PrintStyle(style)|;
    StandsAround(m, i, "{", PrintName(n), "," + (PrintStyle(style) + "}"));
    StandsAround(m, comma, ",", PrintStyle(style), "}");
  }

  lemma StyledArgumentReads(m: string, i: nat, n: Name, comma: nat, names: set<string>)
    requires NameFormed(n) && i < |m| && m[i] == '{' && Stands(m, i + 1, PrintName(n))
    requires comma == i + 1 + |PrintName(n)| < |m| && m[comma] == ','
    ensures ArgumentFrom(m, i + 1, names) == StyleFrom(m, comma + 1, names + {n.name})
  {
    ArgumentReads(m, i, n, comma, names);
  }

  lemma {:induction false} StyledFound(m: string, i: nat, n: Name, style: seq<Piece>, names: set<string>)
      returns (end: nat)
    requires NameFormed(n) && StyleFormed(style) && Stands(m, i, PrintPart(Styled(n, style)))
    ensures i < |m| && m[i] == '{' && end == i + |PrintPart(Styled(n, style))|
    ensures ArgumentFrom(m, i + 1, names) == Found(end, names + {n.name} + StyleArguments(style))
    decreases style, 2
  {
    var comma, close := StyledStands(m, i, n, style);
    end := close + 1;
    var first, start := names + {n.name}, comma + 1;
    StyledArgumentReads(m, i, n, comma, names);
    assert start + |PrintStyle(style)| == close && IsAt(m, close, '}');
    StyleReads(m, start, style, first);
  }

  lemma {:induction false} StyledReads(m: string, i: nat, n: Name, style: seq<Piece>, names: set<string>)
    requires NameFormed(n) && StyleFormed(style) && Stands(m, i, PrintPart(Styled(n, style)))
    ensures MessageFrom(m, i, names) ==
            MessageFrom(m, i + |PrintPart(Styled(n, style))|, names + ({n.name} + StyleArguments(style)))
    decreases style, 3
  {
    var after := names + ({n.name} + StyleArguments(style));
    var end := StyledFound(m, i, n, style, names);
    assert names + {n.name} + StyleArguments(style) == after;
    ArgumentThenMessage(m, i, end, names, after);
  }

  lemma {:induction false} PartsRead(m: string, i: nat, parts: seq<Part>, names: set<string>)
    requires Formed(parts) && Stands(m, i, Print(parts))
    ensures MessageFrom(m, i, names) == MessageFrom(m, i + |Print(parts)|, names + Arguments(parts))
    decreases parts, 1
  {
    if parts == [] {
      assert names + {} == names;
    } else {
      var first, j := names + PartArguments(parts[0]), i + |PrintPart(parts[0])|;
      StandsSplit(m, i, PrintPart(parts[0]), Print(parts[1..]));
      assert j + |Print(parts[1..])| == i + |Print(parts)|;
      assert first + Arguments(parts[1..]) == names + Arguments(parts);
      PartReads(m, i, parts[0], names);
      PartsRead(m, j, parts[1..], first);
    }
  }

  /** A branch is a message of its own: its text is not style, and its arguments count. */
  lemma {:induction false} PieceReads(m: string, i: nat, p: Piece, names: set<string>)
    requires PieceFormed(p) && Stands(m, i, PrintPiece(p))
    ensures StyleFrom(m, i, names) == StyleFrom(m, i + |PrintPiece(p)|, names + PieceArguments(p))
    decreases p, 0
  {
    match p
    case Style(c) =>
      StandsAt(m, i, [c], 0);
      assert names + {} == names;
    case Branch(body) =>
      var close := i + 1 + |Print(body)|;
      StandsAround(m, i, "{", Print(body), "}");
      PartsRead(m, i + 1, body, names);
      BranchThenStyle(m, i, close, names, names + Arguments(body));
  }

  lemma BranchThenStyle(m: string, i: nat, close: nat, names: set<string>, after: set<string>)
    requires i < close < |m| && m[i] == '{' && m[close] == '}'
    requires MessageFrom(m, i + 1, names) == MessageFrom(m, close, after)
    ensures StyleFrom(m, i, names) == StyleFrom(m, close + 1, after)
  {
  }

  lemma {:induction false} StyleReads(m: string, i: nat, style: seq<Piece>, names: set<string>)
    requires StyleFormed(style) && Stands(m, i, PrintStyle(style)) && IsAt(m, i + |PrintStyle(style)|, '}')
    ensures StyleFrom(m, i, names) == Found(i + |PrintStyle(style)| + 1, names + StyleArguments(style))
    decreases style, 1
  {
    if style == [] {
      assert names + {} == names;
    } else {
      var first, j := names + PieceArguments(style[0]), i + |PrintPiece(style[0])|;
      StandsSplit(m, i, PrintPiece(style[0]), PrintStyle(style[1..]));
      assert j + |PrintStyle(style[1..])| == i + |PrintStyle(style)|;
      assert first + StyleArguments(style[1..]) == names + StyleArguments(style);
      PieceReads(m, i, style[0], names);
      StyleReads(m, j, style[1..], first);
    }
  }

  lemma EndIsReached(m: string, i: nat, names: set<string>)
    requires i <= |m| <= i + 1 && (i < |m| ==> m[i] == '\'')
    ensures MessageFrom(m, i, names).names == names
  {
  }

  /** The scanner collects exactly the arguments of the message, a last apostrophe or not. */
  lemma ExtractionIsExact(parts: seq<Part>, endsWithApostrophe: bool)
    requires Formed(parts)
    ensures Names(Print(parts) + if endsWithApostrophe then "'" else "") == Arguments(parts)
  {
    var end := if endsWithApostrophe then "'" else "";
    var text := Print(parts);
    var m := text + end;
    assert m[0..|text|] == text;
    PartsRead(m, 0, parts, {});
    EndIsReached(m, |text|, {} + Arguments(parts));
  }

  /** The parity gate: two messages give the same list exactly when they reference the same arguments. */
  lemma SameListIffSameArguments(a: seq<Part>, b: seq<Part>, namesA: seq<string>, namesB: seq<string>)
    requires Formed(a) && Formed(b)
    requires StrictlySorted(namesA) && ElementsOf(namesA) == Names(Print(a))
    requires StrictlySorted(namesB) && ElementsOf(namesB) == Names(Print(b))
    ensures namesA == namesB <==> Arguments(a) == Arguments(b)
  {
    ExtractionIsExact(a, false);
    ExtractionIsExact(b, false);
    assert Print(a) + "" == Print(a) && Print(b) + "" == Print(b);
    if Arguments(a) == Arguments(b) { SortedListIsUnique(namesA, namesB); }
  }

  // ----- Literals that are not escaped -----

  /** Read to an apostrophe that is not escaped, the scanner is outside the quotes while still in the literal. */
  lemma {:induction false} InsideLeaks(m: string, p: nat, s: string, end: nat, names: set<string>)
      returns (q: nat, t: string)
    requires Lies(m, p, s, end) && !Escaped(s)
    ensures PastQuote(m, p) <= |m| + 1 && Lies(m, q, t, end)
    ensures MessageFrom(m, PastQuote(m, p), names) == MessageFrom(m, q, names)
    decreases |s|
  {
    PastQuoteSteps(m, p);
    if s[0] == '\'' {
      AtSecondApostrophe(m, p, s, end, names);
      if |s| == 1 || s[1] in {'\'', '{', '}'} {
        q, t := InsideLeaks(m, p + 2, s[1..], end, names);
      } else {
        q, t := p + 2, s[1..];
      }
    } else {
      q, t := InsideLeaks(m, p + 1, s[1..], end, names);
    }
  }

  /** After the literal stands an argument whose name is longer than all before it. */
  predicate Trailed(m: string, end: nat) {
    && 2 * end + 3 < |m| && m[end] == '\'' && m[end + 1] == '{' && m[|m| - 1] == '}'
    && forall k :: end + 2 <= k < |m| - 1 ==> m[k] == 'a'
  }

  predicate Short(names: set<string>, end: nat) { forall n :: n in names ==> |n| <= end }

  /** Read as text, the name reaches the closing brace. */
  lemma {:induction false} NameAsText(m: string, end: nat, k: nat, names: set<string>)
    requires Trailed(m, end) && end + 2 <= k < |m|
    ensures MessageFrom(m, k, names) == Found(|m| - 1, names)
    decreases |m| - k
  {
    if k < |m| - 1 { NameAsText(m, end, k + 1, names); }
  }

  /** The literal's last apostrophe, met outside the quotes: it opens a quoted stretch over the argument. */
  lemma EndInMessage(m: string, end: nat, names: set<string>)
    requires Trailed(m, end)
    ensures MessageFrom(m, end, names) == Found(|m| + 1, names)
  {
    assert IsAt(m, end + 1, '{');
    NoApostropheLeft(m, end + 2);
  }

  lemma {:induction false} NoApostropheLeft(m: string, k: nat)
    requires k <= |m| && forall x :: k <= x < |m| ==> m[x] != '\''
    ensures Skip(m, k, c => c != '\'') == |m|
    decreases |m| - k
  {
    if k < |m| { NoApostropheLeft(m, k + 1); }
  }

  /** Met in a style, the argument after it is a branch. */
  lemma EndInStyle(m: string, end: nat, names: set<string>)
    requires Trailed(m, end)
    ensures StyleFrom(m, end, names) == Found(|m|, names)
  {
    NameAsText(m, end, end + 2, names);
    assert StyleFrom(m, |m|, names) == Found(|m|, names);
    assert StyleFrom(m, end + 1, names) == StyleFrom(m, |m|, names);
    assert StyleFrom(m, end, names) == StyleFrom(m, end + 1, names);
  }

  /** What is outside a literal's quotes is at its closing brace, or past all. */
  predicate StaysIn(m: string, i: nat, t: string, most: nat, end: nat) {
    i >= |m| || (Lies(m, i, t, end) && |t| <= most)
  }

  lemma {:induction false} SkipStaysIn(m: string, p: nat, s: string, end: nat, run: char -> bool) returns (t: string)
    requires Lies(m, p, s, end) && !run('\'')
    ensures Lies(m, Skip(m, p, run), t, end) && |t| <= |s|
    decreases |s|
  {
    t := s;
    if s != "" {
      if run(s[0]) { t := SkipStaysIn(m, p + 1, s[1..], end, run); }
    }
  }

  lemma {:induction false} SkipToBrace(m: string, p: nat, s: string, end: nat) returns (t: string)
    requires Lies(m, p, s, end) && Trailed(m, end)
    ensures StaysIn(m, Skip(m, p, c => c != '}') + 1, t, |s|, end)
    decreases |s|
  {
    t := s;
    if s == "" {
      SkipsRun(m, end, |m| - 1, c => c != '}');
    } else {
      if s[0] == '\'' {
        t := SkipToBrace(m, p + 2, s[1..], end);
      } else if s[0] != '}' {
        t := SkipToBrace(m, p + 1, s[1..], end);
      } else {
        t := s[1..];
      }
    }
  }

  lemma HeaderStaysIn(m: string, p: nat, s: string, end: nat) returns (t: string)
    requires Lies(m, p, s, end)
    ensures Lies(m, HeaderAt(m, p).next, t, end) && |t| <= |s| && HeaderAt(m, p).end <= end
  {
    var a := SkipStaysIn(m, p, s, end, IsSpace);
    var b := SkipStaysIn(m, Skip(m, p, IsSpace), a, end, IsNameChar);
    t := SkipStaysIn(m, HeaderAt(m, p).end, b, end, IsSpace);
  }

  /** Outside the quotes a literal's text adds names of its own at most, and the argument after it is missed. */
  lemma {:induction false} MessageStays(m: string, p: nat, s: string, end: nat, names: set<string>, r: Found)
      returns (t: string)
    requires Trailed(m, end) && Lies(m, p, s, end) && Short(names, end) && r == MessageFrom(m, p, names)
    ensures Short(r.names, end) && StaysIn(m, r.i, t, |s|, end) && (r.i < |m| ==> m[r.i] == '}' && t != "")
    decreases |s|, 0
  {
    t := s;
    if s == "" {
      EndInMessage(m, end, names);
    } else {
      if s[0] == '\'' {
        t := MessageStays(m, p + 2, s[1..], end, names, r);
      } else if s[0] == '{' {
        var a := ArgumentFrom(m, p + 1, names);
        var u := ArgumentStays(m, p + 1, s[1..], end, names, a);
        if a.i < |m| { t := MessageStays(m, a.i, u, end, a.names, r); }
      } else if s[0] != '}' {
        t := MessageStays(m, p + 1, s[1..], end, names, r);
      }
    }
  }

  lemma {:induction false} ArgumentStays(m: string, p: nat, s: string, end: nat, names: set<string>, r: Found)
      returns (t: string)
    requires Trailed(m, end) && Lies(m, p, s, end) && Short(names, end) && r == ArgumentFrom(m, p, names)
    ensures Short(r.names, end) && StaysIn(m, r.i, t, |s|, end)
    decreases |s|, 2
  {
    var h := HeaderAt(m, p);
    var u := HeaderStaysIn(m, p, s, end);
    var found := WithName(names, m[h.start..h.end]);
    assert Short(found, end);
    HeaderDecides(m, p, names);
    t := AfterNameStays(m, h.next, u, end, found, r);
  }

  lemma HeaderDecides(m: string, p: nat, names: set<string>)
    requires p <= |m|
    ensures var h := HeaderAt(m, p);
            ArgumentFrom(m, p, names) == AfterName(m, h.next, WithName(names, m[h.start..h.end]))
  {
  }

  lemma {:induction false} AfterNameStays(m: string, next: nat, u: string, end: nat, found: set<string>, r: Found)
      returns (t: string)
    requires Trailed(m, end) && Lies(m, next, u, end) && Short(found, end) && r == AfterName(m, next, found)
    ensures Short(r.names, end) && StaysIn(m, r.i, t, |u|, end)
    decreases |u|, 1
  {
    if u == "" || (u[0] != '}' && u[0] != ',') {
      t := SkipToBrace(m, next, u, end);
    } else if u[0] == '}' {
      t := u[1..];
    } else {
      t := StyleStays(m, next + 1, u[1..], end, found, r);
    }
  }

  lemma {:induction false} StyleStays(m: string, p: nat, s: string, end: nat, names: set<string>, r: Found)
      returns (t: string)
    requires Trailed(m, end) && Lies(m, p, s, end) && Short(names, end) && r == StyleFrom(m, p, names)
    ensures Short(r.names, end) && StaysIn(m, r.i, t, |s|, end)
    decreases |s|, 0
  {
    t := s;
    if s == "" {
      EndInStyle(m, end, names);
    } else {
      if s[0] == '}' {
        t := s[1..];
      } else if s[0] == '\'' {
        t := StyleStays(m, p + 2, s[1..], end, names, r);
      } else if s[0] == '{' {
        t := BranchStays(m, p, s[1..], end, names, r);
      } else {
        t := StyleStays(m, p + 1, s[1..], end, names, r);
      }
    }
  }

  /** A branch that opens at `p`, and the style after it. */
  lemma {:induction false} BranchStays(m: string, p: nat, s: string, end: nat, names: set<string>, r: Found)
      returns (t: string)
    requires Trailed(m, end) && p < end && m[p] == '{' && Lies(m, p + 1, s, end) && Short(names, end)
    requires r == StyleFrom(m, p, names)
    ensures Short(r.names, end) && StaysIn(m, r.i, t, |s|, end)
    decreases |s|, 1
  {
    var body := MessageFrom(m, p + 1, names);
    BranchEnds(m, p, body, names);
    var u := MessageStays(m, p + 1, s, end, names, body);
    if body.i < |m| {
      t := StyleStays(m, body.i + 1, u[1..], end, body.names, r);
    } else {
      t := u;
    }
  }

  lemma BranchEnds(m: string, p: nat, body: Found, names: set<string>)
    requires p < |m| && m[p] == '{' && body == MessageFrom(m, p + 1, names)
    ensures body.i < |m| && m[body.i] == '}' ==> StyleFrom(m, p, names) == StyleFrom(m, body.i + 1, body.names)
    ensures body.i >= |m| ==> StyleFrom(m, p, names) == body
  {
  }

  /** A name of `n` letters. */
  function LongName(n: nat): Name { Name("", seq(n, _ => 'a'), "") }

  /** The literal, and after it an argument with a name longer than the literal. */
  function Witness(brace: char, rest: string): seq<Part> {
    [Quoted(brace, rest), Simple(LongName(|Doubled(rest)| + 3))]
  }

  lemma WitnessPrints(brace: char, rest: string)
    ensures Print(Witness(brace, rest)) ==
            PrintPart(Quoted(brace, rest)) + PrintPart(Simple(LongName(|Doubled(rest)| + 3)))
  {
    var w := Witness(brace, rest);
    assert w[1..] == [w[1]] && w[1..][1..] == [];
    assert Print(w[1..]) == PrintPart(w[1]) + "" == PrintPart(w[1]);
  }

  lemma LongArgumentStands(m: string, i: nat, n: nat)
    requires Stands(m, i, PrintPart(Simple(LongName(n)))) && |m| == i + |PrintPart(Simple(LongName(n)))|
    ensures |m| == i + n + 2 && m[i] == '{' && m[|m| - 1] == '}' && forall k :: i < k < |m| - 1 ==> m[k] == 'a'
  {
    var text := PrintName(LongName(n));
    assert text == LongName(n).name;
    StandsAround(m, i, "{", text, "}");
    forall k | i < k < |m| - 1 ensures m[k] == 'a' { StandsAt(m, i + 1, text, k - i - 1); }
  }

  lemma WitnessStands(brace: char, rest: string)
    requires brace == '{' || brace == '}'
    ensures var m, end := Print(Witness(brace, rest)), 2 + |Doubled(rest)|;
            && Trailed(m, end) && Lies(m, 2, rest, end) && m[0] == '\'' && m[1] == brace
  {
    WitnessPrints(brace, rest);
    LiteralThenArgument(Print(Witness(brace, rest)), brace, rest, |Doubled(rest)| + 3);
  }

  lemma LiteralThenArgument(m: string, brace: char, rest: string, n: nat)
    requires m == PrintPart(Quoted(brace, rest)) + PrintPart(Simple(LongName(n))) && n == |Doubled(rest)| + 3
    ensures var end := 2 + |Doubled(rest)|;
            Trailed(m, end) && Lies(m, 2, rest, end) && m[0] == '\'' && m[1] == brace
  {
    var quoted, argument := PrintPart(Quoted(brace, rest)), PrintPart(Simple(LongName(n)));
    assert m[0..|m|] == m;
    StandsSplit(m, 0, quoted, argument);
    QuotedLies(m, 0, brace, rest, 2 + |Doubled(rest)|);
    LongArgumentStands(m, |quoted|, n);
  }

  lemma WitnessArguments(brace: char, rest: string)
    ensures Arguments(Witness(brace, rest)) == {LongName(|Doubled(rest)| + 3).name}
  {
    var w := Witness(brace, rest);
    assert w[1..] == [w[1]] && w[1..][1..] == [];
    assert Arguments(w[1..]) == PartArguments(w[1]) + {};
    assert Arguments(w) == {} + Arguments(w[1..]);
  }

  /** A literal that is not escaped hides the argument after it. */
  lemma UnescapedHides(brace: char, rest: string)
    requires (brace == '{' || brace == '}') && !Escaped(rest)
    ensures Names(Print(Witness(brace, rest))) != Arguments(Witness(brace, rest))
  {
    var m, end := Print(Witness(brace, rest)), 2 + |Doubled(rest)|;
    WitnessStands(brace, rest);
    WitnessArguments(brace, rest);
    var q, t := InsideLeaks(m, 2, rest, end, {});
    assert MessageFrom(m, 0, {}) == MessageFrom(m, q, {});
    var u := MessageStays(m, q, t, end, {}, MessageFrom(m, q, {}));
    var name := LongName(|Doubled(rest)| + 3).name;
    assert name in Arguments(Witness(brace, rest)) && |name| > end;
  }

  predicate ReadsExactly(parts: seq<Part>) { Names(Print(parts)) == Arguments(parts) }

  /** In every well-formed message that a literal stands in, the names are exactly the arguments. */
  ghost predicate AlwaysReadsExactly(brace: char, rest: string) {
    forall before: seq<Part>, after: seq<Part> ::
      Formed(before) && Formed(after) ==> ReadsExactly(before + ([Quoted(brace, rest)] + after))
  }

  lemma {:induction false} FormedTogether(a: seq<Part>, b: seq<Part>)
    requires Formed(a) && Formed(b)
    ensures Formed(a + b)
    decreases |a|
  {
    if a == [] {
      assert a + b == b;
    } else {
      assert (a + b)[1..] == a[1..] + b && (a + b)[0] == a[0];
      FormedTogether(a[1..], b);
    }
  }

  /** The exact condition on a quoted literal. */
  lemma QuotedReadsExactlyIff(brace: char, rest: string)
    requires brace == '{' || brace == '}'
    ensures AlwaysReadsExactly(brace, rest) <==> Escaped(rest)
  {
    if Escaped(rest) {
      var quoted := [Quoted(brace, rest)];
      assert quoted[1..] == [] && PartFormed(quoted[0]) && Formed(quoted);
      forall before: seq<Part>, after: seq<Part> | Formed(before) && Formed(after)
        ensures ReadsExactly(before + ([Quoted(brace, rest)] + after))
      {
        FormedTogether(quoted, after);
        FormedTogether(before, quoted + after);
        ExtractionIsExact(before + (quoted + after), false);
        assert Print(before + (quoted + after)) + "" == Print(before + (quoted + after));
      }
    } else {
      var after := [Simple(LongName(|Doubled(rest)| + 3))];
      assert after[1..] == [] && PartFormed(after[0]) && Formed(after);
      assert [] + ([Quoted(brace, rest)] + after) == Witness(brace, rest);
      UnescapedHides(brace, rest);
      var before: seq<Part> := [];
      assert Formed(before) && !ReadsExactly(before + ([Quoted(brace, rest)] + after));
    }
  }

  // ----- Two of them by hand -----

  lemma {:induction false} DoubledPlain(s: string)
    requires '\'' !in s
    ensures Doubled(s) == s
  {
    if s != "" {
      DoubledPlain(s[1..]);
      assert s == [s[0]] + s[1..];
    }
  }

  lemma {:induction false} DoubledOnce(a: string, b: string)
    requires '\'' !in a && '\'' !in b
    ensures Doubled(a + ("'" + b)) == a + ("''" + b)
    decreases a
  {
    if a == "" {
      assert "" + ("'" + b) == "'" + b && ("'" + b)[1..] == b;
      DoubledPlain(b);
    } else {
      assert (a + ("'" + b))[1..] == a[1..] + ("'" + b);
      DoubledOnce(a[1..], b);
      assert [a[0]] + (a[1..] + ("''" + b)) == a + ("''" + b);
    }
  }

  /**
   * The doubled apostrophe ends the quoted stretch early: an argument after the
   * literal is missed, or a brace pair inside it is taken for an argument.
   */
  lemma ApostropheInQuotesMisleads() returns (missed: seq<Part>, added: seq<Part>)
    ensures missed == [Quoted('{', "it's"), Simple(Name("", "x", ""))]
    ensures Arguments(missed) == {"x"} && Names(Print(missed)) == {}
    ensures added == [Quoted('{', "a's{b}")]
    ensures Arguments(added) == {} && Names(Print(added)) == {"b"}
  {
    missed, added := [Quoted('{', "it's"), Simple(Name("", "x", ""))], [Quoted('{', "a's{b}")];
    DoubledExamples();
    MissedByHand(missed);
    AddedByHand(added);
  }

  lemma DoubledExamples()
    ensures Doubled("it's") == "it''s" && Doubled("a's{b}") == "a''s{b}"
  {
    DoubledOnce("it", "s");
    DoubledOnce("a", "s{b}");
    assert "it" + ("'" + "s") == "it's" && "a" + ("'" + "s{b}") == "a's{b}";
    assert "it" + ("''" + "s") == "it''s" && "a" + ("''" + "s{b}") == "a''s{b}";
  }

  lemma MissedByHand(missed: seq<Part>)
    requires missed == [Quoted('{', "it's"), Simple(Name("", "x", ""))] && Doubled("it's") == "it''s"
    ensures Arguments(missed) == {"x"} && Names(Print(missed)) == {}
  {
    var n := Name("", "x", "");
    assert missed[1..] == [Simple(n)] && missed[1..][1..] == [];
    assert Arguments(missed) == {} + Arguments([Simple(n)]) == {} + ({"x"} + {}) == {"x"};
    assert PrintName(n) == "" + ("x" + "") == "x";
    assert PrintPart(missed[0]) == "'{it''s'" && PrintPart(missed[1]) == "{" + ("x" + "}");
    assert Print(missed[1..]) == "{x}";
    assert Print(missed) == "'{it''s'{x}";
    MissedScan("'{it''s'{x}");
  }

  lemma MissedScan(m: string)
    requires m == "'{it''s'{x}"
    ensures Names(m) == {}
  {
    SkipsRun(m, 2, 4, c => c != '\'');
    assert AfterApostrophe(m, 0) == 5 && AfterApostrophe(m, 5) == 6;
    assert Skip(m, 9, c => c != '\'') == 11;
    assert AfterApostrophe(m, 7) == 12;
    assert MessageFrom(m, 7, {}) == Found(12, {});
    assert MessageFrom(m, 5, {}) == MessageFrom(m, 6, {}) == MessageFrom(m, 7, {});
  }

  lemma AddedByHand(added: seq<Part>)
    requires added == [Quoted('{', "a's{b}")] && Doubled("a's{b}") == "a''s{b}"
    ensures Arguments(added) == {} && Names(Print(added)) == {"b"}
  {
    assert added[1..] == [];
    assert PrintPart(added[0]) == "'{a''s{b}'" && Print(added) == "'{a''s{b}'";
    AddedScan("'{a''s{b}'");
  }

  lemma AddedScan(m: string)
    requires m == "'{a''s{b}'"
    ensures Names(m) == {"b"}
  {
    SkipsRun(m, 2, 3, c => c != '\'');
    assert AfterApostrophe(m, 0) == 4 && AfterApostrophe(m, 4) == 5;
    SkipsRun(m, 7, 7, IsSpace);
    SkipsRun(m, 7, 8, IsNameChar);
    SkipsRun(m, 8, 8, IsSpace);
    assert m[7..8] == "b";
    assert ArgumentFrom(m, 7, {}) == Found(9, {"b"});
    assert MessageFrom(m, 9, {"b"}) == Found(10, {"b"});
    assert MessageFrom(m, 4, {}) == MessageFrom(m, 5, {}) == MessageFrom(m, 6, {});
  }
}
