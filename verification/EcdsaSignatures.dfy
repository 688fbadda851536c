/**
 * The signature of the Apple client secret
 * (scripts/generate-apple-client-secret.js, lines 37-43 and 92-114): a DER
 * ECDSA signature turned into the fixed-width form of section 3.4 of RFC 7518,
 * and unpadded base64url (section 5 of RFC 4648).
 */
module EcdsaSignatures {
  import opened Options

  type Byte = b: int | 0 <= b < 256

  // ----- Numbers as bytes -----

  /** Big-endian. */
  function Value(bs: seq<Byte>): nat {
    if bs == [] then 0 else Value(bs[..|bs| - 1]) * 256 + bs[|bs| - 1]
  }

  function Pow256(k: nat): nat { if k == 0 then 1 else 256 * Pow256(k - 1) }

  /** The shortest form; none for 0. */
  function Minimal(n: nat): seq<Byte> {
    if n == 0 then [] else Minimal(n / 256) + [n % 256]
  }

  function Zeros(k: nat): (z: seq<Byte>)
    ensures |z| == k
  {
    if k == 0 then [] else Zeros(k - 1) + [0]
  }

  // ----- DER (section 8.3 of ITU-T X.690) -----

  /** The content of an INTEGER: a zero byte keeps a leading set bit from reading as a sign. */
  function IntegerContent(n: nat): seq<Byte>
    requires n > 0
  {
    var m := Minimal(n);
    if m[0] >= 128 then [0] + m else m
  }

  /** Tag, length in the short form, content. */
  function Tlv(tag: Byte, content: seq<Byte>): seq<Byte>
    requires |content| < 128
  {
    [tag, |content|] + content
  }

  /** SEQUENCE of two INTEGERs. */
  function DerSignature(r: nat, s: nat): seq<Byte>
    requires 0 < r < Pow256(32) && 0 < s < Pow256(32)
  {
    ContentFits(r);
    ContentFits(s);
    Tlv(0x30, Tlv(0x02, IntegerContent(r)) + Tlv(0x02, IntegerContent(s)))
  }

  // ----- The conversion -----

  /** `signature[i]`, undefined past the end. */
  function ByteAt(bs: seq<Byte>, i: nat): Option<nat> { if i < |bs| then Some(bs[i]) else None }

  function Min(a: nat, b: nat): nat { if a <= b then a else b }

  /** `slice(start, start + length)`: clamped, and empty when the length is undefined. */
  function Slice(bs: seq<Byte>, start: nat, length: Option<nat>): seq<Byte> {
    if length.None? then [] else bs[Min(start, |bs|)..Min(start + length.value, |bs|)]
  }

  function Bare(part: seq<Byte>): seq<Byte> {
    if part != [] && part[0] == 0 && |part| > 32 then part[1..] else part
  }

  function Padded(part: seq<Byte>): seq<Byte> {
    if |part| < 32 then Zeros(32 - |part|) + part else part
  }

  function FixedWidth(part: seq<Byte>): seq<Byte> { Padded(Bare(part)) }

  function RawSignature(signature: seq<Byte>): seq<Byte> {
    var rLength := ByteAt(signature, 3);
    if rLength.None? then FixedWidth([]) + FixedWidth([])
    else
      var rEnd := 4 + rLength.value;
      var sLength := ByteAt(signature, rEnd + 1);
      FixedWidth(Slice(signature, 4, rLength)) + FixedWidth(Slice(signature, rEnd + 2, sLength))
  }

  method ConvertSignature(signature: seq<Byte>) returns (raw: seq<Byte>)
    ensures raw == RawSignature(signature)
  {
    var rLength := ByteAt(signature, 3);
    var r, s := [], [];
    if rLength.Some? {
      var rEnd := 4 + rLength.value;
      var sLength := ByteAt(signature, rEnd + 1);
      var sStart := rEnd + 2;
      r := Slice(signature, 4, rLength);
      s := Slice(signature, sStart, sLength);
    }
    ghost var r0, s0 := r, s;
    if r != [] && r[0] == 0 && |r| > 32 { r := r[1..]; }
    if s != [] && s[0] == 0 && |s| > 32 { s := s[1..]; }
    assert r == Bare(r0) && s == Bare(s0);
    if |r| < 32 { r := Zeros(32 - |r|) + r; }
    if |s| < 32 { s := Zeros(32 - |s|) + s; }
    assert r == FixedWidth(r0) && s == FixedWidth(s0);
    raw := r + s;
  }

  lemma {:induction false} MinimalFits(n: nat, k: nat)
    requires n < Pow256(k)
    ensures |Minimal(n)| <= k && Value(Minimal(n)) == n
    ensures n > 0 ==> Minimal(n) != [] && Minimal(n)[0] != 0
    decreases k
  {
    if n > 0 {
      MinimalFits(n / 256, k - 1);
      assert Minimal(n)[..|Minimal(n)| - 1] == Minimal(n / 256);
    }
  }

  lemma {:induction false} ZeroLeads(bs: seq<Byte>)
    ensures Value([0] + bs) == Value(bs)
    decreases |bs|
  {
    if bs == [] {
      assert ([0] + bs)[..0] == [];
    } else {
      ZeroLeads(bs[..|bs| - 1]);
      assert ([0] + bs)[..|bs|] == [0] + bs[..|bs| - 1];
    }
  }

  lemma {:induction false} ZerosLead(k: nat, bs: seq<Byte>)
    ensures Value(Zeros(k) + bs) == Value(bs)
  {
    if k == 0 {
      assert Zeros(0) + bs == bs;
    } else {
      assert Zeros(k) + bs == Zeros(k - 1) + ([0] + bs);
      ZerosLead(k - 1, [0] + bs);
      ZeroLeads(bs);
    }
  }

  /** Equal widths and equal values are equal bytes. */
  lemma {:induction false} FixedWidthIsUnique(a: seq<Byte>, b: seq<Byte>)
    requires |a| == |b| && Value(a) == Value(b)
    ensures a == b
    decreases |a|
  {
    if a != [] {
      FixedWidthIsUnique(a[..|a| - 1], b[..|b| - 1]);
      assert a == a[..|a| - 1] + [a[|a| - 1]] && b == b[..|b| - 1] + [b[|b| - 1]];
    }
  }

  lemma ContentFits(n: nat)
    requires 0 < n < Pow256(32)
    ensures Minimal(n) != [] && 0 < |IntegerContent(n)| <= 33 && Value(IntegerContent(n)) == n
    ensures |IntegerContent(n)| == 33 ==> IntegerContent(n)[0] == 0
  {
    MinimalFits(n, 32);
    ZeroLeads(Minimal(n));
  }

  lemma LongKeepsValue(c: seq<Byte>)
    requires |c| == 33 && c[0] == 0
    ensures |FixedWidth(c)| == 32 && Value(FixedWidth(c)) == Value(c)
  {
    assert c == [0] + c[1..];
    ZeroLeads(c[1..]);
  }

  lemma ShortKeepsValue(c: seq<Byte>)
    requires 0 < |c| <= 32
    ensures |FixedWidth(c)| == 32 && Value(FixedWidth(c)) == Value(c)
  {
    ZerosLead(32 - |c|, c);
    assert Zeros(0) + c == c;
  }

  lemma FixedWidthKeepsValue(n: nat)
    requires 0 < n < Pow256(32)
    ensures Minimal(n) != []
    ensures |FixedWidth(IntegerContent(n))| == 32 && Value(FixedWidth(IntegerContent(n))) == n
  {
    ContentFits(n);
    var c := IntegerContent(n);
    if |c| == 33 { LongKeepsValue(c); } else { ShortKeepsValue(c); }
  }

  /** Where the two integers stand in a sequence of two. */
  lemma TlvStands(a: seq<Byte>, b: seq<Byte>, der: seq<Byte>)
    requires |a| <= 33 && |b| <= 33 && der == Tlv(0x30, Tlv(0x02, a) + Tlv(0x02, b))
    ensures |der| == |a| + |b| + 6 && der[3] == |a| && der[4 + |a| + 1] == |b|
    ensures der[4..4 + |a|] == a && der[4 + |a| + 2..4 + |a| + 2 + |b|] == b
  {
    assert der[2..4 + |a|] == Tlv(0x02, a) && der[4 + |a|..] == Tlv(0x02, b);
    assert der[4..4 + |a|] == der[2..4 + |a|][2..];
    assert der[4 + |a| + 2..4 + |a| + 2 + |b|] == der[4 + |a|..][2..];
  }

  lemma DerSlices(r: nat, s: nat)
    requires 0 < r < Pow256(32) && 0 < s < Pow256(32)
    ensures Minimal(r) != [] && Minimal(s) != []
    ensures RawSignature(DerSignature(r, s)) == FixedWidth(IntegerContent(r)) + FixedWidth(IntegerContent(s))
  {
    ContentFits(r);
    ContentFits(s);
    TlvStands(IntegerContent(r), IntegerContent(s), DerSignature(r, s));
    RawFromPlaces(IntegerContent(r), IntegerContent(s), DerSignature(r, s));
  }

  lemma RawFromPlaces(a: seq<Byte>, b: seq<Byte>, der: seq<Byte>)
    requires |der| == |a| + |b| + 6 && der[3] == |a| && der[4 + |a| + 1] == |b|
    requires der[4..4 + |a|] == a && der[4 + |a| + 2..4 + |a| + 2 + |b|] == b
    ensures RawSignature(der) == FixedWidth(a) + FixedWidth(b)
  {
    assert Slice(der, 4, Some(|a|)) == a && Slice(der, 4 + |a| + 2, Some(|b|)) == b;
  }

  /** Every DER signature of two 256-bit numbers gives their two 32-byte big-endian forms, and only those. */
  lemma DerToRawIsExact(r: nat, s: nat, raw: seq<Byte>)
    requires 0 < r < Pow256(32) && 0 < s < Pow256(32)
    ensures raw == RawSignature(DerSignature(r, s)) <==>
            |raw| == 64 && Value(raw[..32]) == r && Value(raw[32..]) == s
  {
    FixedWidthKeepsValue(r);
    FixedWidthKeepsValue(s);
    DerSlices(r, s);
    var x, y := FixedWidth(IntegerContent(r)), FixedWidth(IntegerContent(s));
    assert (x + y)[..32] == x && (x + y)[32..] == y;
    if |raw| == 64 && Value(raw[..32]) == r && Value(raw[32..]) == s {
      FixedWidthIsUnique(raw[..32], x);
      FixedWidthIsUnique(raw[32..], y);
      assert raw == raw[..32] + raw[32..];
    }
  }

  // ----- base64url -----

  /** The four six-bit parts of three bytes. */
  function Part0(x: Byte): nat { x / 4 }

  function Part1(x: Byte, y: Byte): nat { x % 4 * 16 + y / 16 }

  function Part2(y: Byte, z: Byte): nat { y % 16 * 4 + z / 64 }

  function Part3(z: Byte): nat { z % 64 }

  /** Bytes cut into six-bit parts, the last one filled up with zero bits. */
  function Parts(bs: seq<Byte>): seq<nat> {
    match |bs|
    case 0 => []
    case 1 => [Part0(bs[0]), Part1(bs[0], 0)]
    case 2 => [Part0(bs[0]), Part1(bs[0], bs[1]), Part2(bs[1], 0)]
    case _ => [Part0(bs[0]), Part1(bs[0], bs[1]), Part2(bs[1], bs[2]), Part3(bs[2])] + Parts(bs[3..])
  }

  /** The three bytes of four six-bit parts. */
  function Byte0(a: nat, b: nat): Byte { (a * 4 + b / 16) % 256 }

  function Byte1(b: nat, c: nat): Byte { (b % 16 * 16 + c / 4) % 256 }

  function Byte2(c: nat, d: nat): Byte { (c % 4 * 64 + d) % 256 }

  function Bytes(parts: seq<nat>): Option<seq<Byte>> {
    match |parts|
    case 0 => Some([])
    case 1 => None
    case 2 => Some([Byte0(parts[0], parts[1])])
    case 3 => Some([Byte0(parts[0], parts[1]), Byte1(parts[1], parts[2])])
    case _ =>
      var rest :- Bytes(parts[4..]);
      Some([Byte0(parts[0], parts[1]), Byte1(parts[1], parts[2]), Byte2(parts[2], parts[3])] + rest)
  }

  function Symbol(i: nat): char {
    if i < 26 then 'A' + (i as char)
    else if i < 52 then 'a' + ((i - 26) as char)
    else if i < 62 then '0' + ((i - 52) as char)
    else if i == 62 then '+' else '/'
  }

  function Symbols(parts: seq<nat>): string {
    if parts == [] then "" else [Symbol(parts[0])] + Symbols(parts[1..])
  }

  function Padding(n: nat): string { if n % 3 == 1 then "==" else if n % 3 == 2 then "=" else "" }

  /** `toString("base64")` (section 4 of RFC 4648). */
  function Base64(bs: seq<Byte>): string { Symbols(Parts(bs)) + Padding(|bs|) }

  function Replace(s: string, from: char, to: char): string {
    if s == "" then "" else [if s[0] == from then to else s[0]] + Replace(s[1..], from, to)
  }

  /** `/=+$/` */
  function StripPadding(s: string): string {
    if s != "" && s[|s| - 1] == '=' then StripPadding(s[..|s| - 1]) else s
  }

  function Base64UrlEncode(data: seq<Byte>): string {
    StripPadding(Replace(Replace(Base64(data), '+', '-'), '/', '_'))
  }

  function IndexOf(c: char): Option<nat> {
    if 'A' <= c <= 'Z' then Some((c - 'A') as nat)
    else if 'a' <= c <= 'z' then Some((c - 'a') as nat + 26)
    else if '0' <= c <= '9' then Some((c - '0') as nat + 52)
    else if c == '-' then Some(62)
    else if c == '_' then Some(63)
    else None
  }

  function Indices(s: string): Option<seq<nat>> {
    if s == "" then Some([])
    else
      var first :- IndexOf(s[0]);
      var rest :- Indices(s[1..]);
      Some([first] + rest)
  }

  /** Unpadded base64url, decoded. */
  function Base64UrlDecode(s: string): Option<seq<Byte>> {
    var parts :- Indices(s);
    Bytes(parts)
  }

  predicate AreSixBits(parts: seq<nat>) { forall k :: 0 <= k < |parts| ==> parts[k] < 64 }

  lemma {:induction false} PartsAreSixBits(bs: seq<Byte>)
    ensures AreSixBits(Parts(bs))
    decreases |bs|
  {
    if |bs| >= 3 { PartsAreSixBits(bs[3..]); }
  }

  lemma Divides(u: nat, v: nat)
    ensures v < 4 ==> (u * 4 + v) / 4 == u && (u * 4 + v) % 4 == v
    ensures v < 16 ==> (u * 16 + v) / 16 == u && (u * 16 + v) % 16 == v
  {
  }

  lemma PartsHold(x: Byte, y: Byte)
    ensures Part1(x, y) / 16 == x % 4 && Part1(x, y) % 16 == y / 16
    ensures Part2(x, y) / 4 == x % 16 && Part2(x, y) % 4 == y / 64
  {
    Divides(x % 4, y / 16);
    Divides(x % 16, y / 64);
  }

  lemma Rejoins0(x: Byte, a: nat, b: nat)
    requires a == x / 4 && b / 16 == x % 4
    ensures Byte0(a, b) == x
  {
  }

  lemma Rejoins1(x: Byte, a: nat, b: nat)
    requires a % 16 == x / 16 && b / 4 == x % 16
    ensures Byte1(a, b) == x
  {
  }

  lemma Rejoins2(x: Byte, a: nat, b: nat)
    requires a % 4 == x / 64 && b == x % 64
    ensures Byte2(a, b) == x
  {
  }

  lemma PartsRejoin(x: Byte, y: Byte, z: Byte)
    ensures Byte0(Part0(x), Part1(x, y)) == x
    ensures Byte1(Part1(x, y), Part2(y, z)) == y
    ensures Byte2(Part2(y, z), Part3(z)) == z
  {
    PartsHold(x, y);
    PartsHold(y, z);
    Rejoins0(x, Part0(x), Part1(x, y));
    Rejoins1(y, Part1(x, y), Part2(y, z));
    Rejoins2(z, Part2(y, z), Part3(z));
  }

  lemma FourPartsRead(parts: seq<nat>, rest: seq<nat>, bytes: seq<Byte>, x: Byte, y: Byte, z: Byte)
    requires |parts| == 4 && Bytes(rest) == Some(bytes)
    requires Byte0(parts[0], parts[1]) == x && Byte1(parts[1], parts[2]) == y && Byte2(parts[2], parts[3]) == z
    ensures Bytes(parts + rest) == Some([x, y, z] + bytes)
  {
    assert (parts + rest)[4..] == rest;
  }

  /** Cutting into parts and joining them gives the bytes back. */
  lemma {:induction false} PartsRoundTrip(bs: seq<Byte>)
    ensures Bytes(Parts(bs)) == Some(bs)
    decreases |bs|
  {
    if |bs| >= 3 {
      var x, y, z := bs[0], bs[1], bs[2];
      PartsRejoin(x, y, z);
      PartsRoundTrip(bs[3..]);
      FourPartsRead([Part0(x), Part1(x, y), Part2(y, z), Part3(z)], Parts(bs[3..]), bs[3..], x, y, z);
      assert bs == [x, y, z] + bs[3..];
    } else if |bs| == 2 {
      TwoBytesRoundTrip(bs[0], bs[1], Parts(bs));
      assert bs == [bs[0], bs[1]];
    } else if |bs| == 1 {
      OneByteRoundTrips(bs[0], 0, Parts(bs));
      assert bs == [bs[0]];
    }
  }

  lemma ShortPartsRead(parts: seq<nat>, x: Byte, y: Byte)
    requires 2 <= |parts| <= 3 && Byte0(parts[0], parts[1]) == x && (|parts| == 3 ==> Byte1(parts[1], parts[2]) == y)
    ensures Bytes(parts) == Some(if |parts| == 2 then [x] else [x, y])
  {
  }

  lemma OneByteRoundTrips(x: Byte, y: Byte, parts: seq<nat>)
    requires parts == [Part0(x), Part1(x, y)]
    ensures Bytes(parts) == Some([x])
  {
    PartsRejoin(x, y, y);
    ShortPartsRead(parts, x, y);
  }

  lemma TwoBytesRoundTrip(x: Byte, y: Byte, parts: seq<nat>)
    requires parts == [Part0(x), Part1(x, y), Part2(y, 0)]
    ensures Bytes(parts) == Some([x, y])
  {
    PartsRejoin(x, y, 0);
    ShortPartsRead(parts, x, y);
  }

  function UrlChar(c: char): char { if c == '+' then '-' else if c == '/' then '_' else c }

  lemma {:induction false} ReplaceMaps(s: string, from: char, to: char)
    ensures |Replace(s, from, to)| == |s|
    ensures forall k :: 0 <= k < |s| ==> Replace(s, from, to)[k] == if s[k] == from then to else s[k]
  {
    if s != "" { ReplaceMaps(s[1..], from, to); }
  }

  lemma UrlMaps(s: string)
    ensures var u := Replace(Replace(s, '+', '-'), '/', '_');
            |u| == |s| && forall k :: 0 <= k < |s| ==> u[k] == UrlChar(s[k])
  {
    ReplaceMaps(s, '+', '-');
    ReplaceMaps(Replace(s, '+', '-'), '/', '_');
  }

  lemma {:induction false} SymbolsMap(parts: seq<nat>)
    ensures |Symbols(parts)| == |parts| && forall k :: 0 <= k < |parts| ==> Symbols(parts)[k] == Symbol(parts[k])
  {
    if parts != [] { SymbolsMap(parts[1..]); }
  }

  lemma SymbolsRoundTrip(i: nat)
    requires i < 64
    ensures IndexOf(UrlChar(Symbol(i))) == Some(i) && UrlChar(Symbol(i)) != '='
  {
  }

  lemma {:induction false} IndicesOfSymbols(s: string, parts: seq<nat>)
    requires |s| == |parts| && AreSixBits(parts) && forall k :: 0 <= k < |s| ==> s[k] == UrlChar(Symbol(parts[k]))
    ensures Indices(s) == Some(parts)
  {
    if s != "" {
      SymbolsRoundTrip(parts[0]);
      IndicesOfSymbols(s[1..], parts[1..]);
      assert parts == [parts[0]] + parts[1..];
    }
  }

  lemma {:induction false} StripsToPlain(s: string, n: nat)
    requires n <= |s| && (n > 0 ==> s[n - 1] != '=') && forall k :: n <= k < |s| ==> s[k] == '='
    ensures StripPadding(s) == s[..n]
    decreases |s|
  {
    if n < |s| {
      StripsToPlain(s[..|s| - 1], n);
      assert s[..|s| - 1][..n] == s[..n];
    } else {
      assert s[..n] == s;
    }
  }

  /** Whatever bytes are encoded decode to themselves. */
  lemma Base64UrlRoundTrips(bs: seq<Byte>)
    ensures Base64UrlDecode(Base64UrlEncode(bs)) == Some(bs)
  {
    var parts, plain := Parts(bs), Base64(bs);
    var u := Replace(Replace(plain, '+', '-'), '/', '_');
    var n := |parts|;
    PartsAreSixBits(bs);
    SymbolsMap(parts);
    UrlMaps(plain);
    assert forall k :: 0 <= k < n ==> plain[k] == Symbol(parts[k]);
    if n > 0 { SymbolsRoundTrip(parts[n - 1]); }
    StripsToPlain(u, n);
    IndicesOfSymbols(u[..n], parts);
    PartsRoundTrip(bs);
  }
}
