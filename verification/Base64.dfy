/** Base64 with the two alphabets of RFC 4648, the strict validator in front of the throwing
 decoder, and the line breaking used for PEM and MIME text. */
module Base64 {
  import opened Arithmetic
  import opened Collections

  type sextet = n: int | 0 <= n < 64

  /** What the decoder yields: bytes, or one of its two exceptions. */
  datatype Decoding = Bytes(bytes: seq<byte>) | BadCharacter | OutOfRange

  // ----- alphabets (tables 1 and 2 of RFC 4648)

  function CharOf(v: sextet, url: bool): char {
    if v < 26 then 'A' + v as char
    else if v < 52 then 'a' + (v - 26) as char
    else if v < 62 then '0' + (v - 52) as char
    else if v == 62 then (if url then '-' else '+')
    else if url then '_' else '/'
  }

  function PadOf(url: bool): char { if url then '.' else '=' }

  predicate IsPad(c: char) { c == '=' || c == '.' }

  predicate IsDataChar(c: char) {
    'A' <= c <= 'Z' || 'a' <= c <= 'z' || '0' <= c <= '9' || c == '+' || c == '-' || c == '/' || c == '_'
  }

  function PosOf(c: char): sextet
    requires IsDataChar(c)
  {
    if 'A' <= c <= 'Z' then c as int - 'A' as int
    else if 'a' <= c <= 'z' then c as int - 'a' as int + 26
    else if '0' <= c <= '9' then c as int - '0' as int + 52
    else if c == '+' || c == '-' then 62 else 63
  }

  /** Tables 1 and 2 of RFC 4648, but for the padding of the second, which is a dot here. */
  lemma AlphabetsAreTheStandardOnes(v: sextet, url: bool)
    ensures CharOf(0, url) == 'A' && CharOf(26, url) == 'a' && CharOf(52, url) == '0'
    ensures v + 1 < 62 && v != 25 && v != 51 ==> CharOf(v + 1, url) as int == CharOf(v, url) as int + 1
    ensures CharOf(62, false) == '+' && CharOf(63, false) == '/' && CharOf(62, true) == '-' && CharOf(63, true) == '_'
    ensures PadOf(false) == '=' && PadOf(true) == '.'
  {
  }

  lemma CharRoundTrip(v: sextet, url: bool)
    ensures IsDataChar(CharOf(v, url)) && PosOf(CharOf(v, url)) == v
  {
  }

  /** The data characters are those of the two alphabets and no others. */
  lemma DataCharsAreTheAlphabets(c: char)
    ensures IsDataChar(c) <==> exists v, url :: CharOf(v, url) == c
  {
    if IsDataChar(c) {
      assert CharOf(PosOf(c), false) == c || CharOf(PosOf(c), true) == c;
    }
    if v, url :| CharOf(v, url) == c {
      CharRoundTrip(v, url);
    }
  }

  /** The masks and shifts of the encoder and the decoder, as the divisions written below. */
  lemma MasksAreDivisions(b: bv8)
    ensures ((b & 0xfc) >> 2) as int == b as int / 4
    ensures ((b & 0x03) << 4) as int == b as int % 4 * 16
    ensures ((b & 0xf0) >> 4) as int == b as int / 16
    ensures ((b & 0x0f) << 2) as int == b as int % 16 * 4
    ensures ((b & 0xc0) >> 6) as int == b as int / 64
    ensures (b & 0x3f) as int == b as int % 64
    ensures b < 64 ==> ((b & 0x30) >> 4) as int == b as int / 16 && ((b & 0x3c) >> 2) as int == b as int / 4
    ensures ((b & 0x0f) << 4) as int == b as int % 16 * 16 && ((b & 0x03) << 6) as int == b as int % 4 * 64
  {
    assert (b & 0xfc) >> 2 == b / 4;
    assert (b & 0x03) << 4 == b % 4 * 16;
    assert (b & 0xf0) >> 4 == b / 16;
    assert (b & 0x0f) << 2 == b % 16 * 4;
    assert (b & 0xc0) >> 6 == b / 64;
    assert b & 0x3f == b % 64;
    assert b < 64 ==> (b & 0x30) >> 4 == b / 16 && (b & 0x3c) >> 2 == b / 4;
    assert (b & 0x0f) << 4 == b % 16 * 16 && (b & 0x03) << 6 == b % 4 * 64;
  }

  // ----- sextets and bytes

  function High6(a: byte): sextet { a / 4 }
  function Low2High4(a: byte, b: byte): sextet { a % 4 * 16 + b / 16 }
  function Low4High2(b: byte, c: byte): sextet { b % 16 * 4 + c / 64 }
  function Low6(c: byte): sextet { c % 64 }

  // The decoder narrows these sums to a char; the types show that nothing is cut off.
  function FirstByte(p: sextet, q: sextet): byte { p * 4 + q / 16 }
  function SecondByte(q: sextet, r: sextet): byte { q % 16 * 16 + r / 4 }
  function ThirdByte(r: sextet, t: sextet): byte { r % 4 * 64 + t }

  lemma SextetsRoundTrip(a: byte, b: byte, c: byte)
    ensures FirstByte(High6(a), Low2High4(a, b)) == a
    ensures SecondByte(Low2High4(a, b), Low4High2(b, c)) == b
    ensures ThirdByte(Low4High2(b, c), Low6(c)) == c
  {
  }

  /** section 4 of RFC 4648: four sextets, big end first, are the 24 bits of three bytes; a
      shorter last group is filled with zero bytes. */
  lemma SextetsSpellTheBits(a: byte, b: byte, c: byte)
    ensures ((High6(a) as int * 64 + Low2High4(a, b)) * 64 + Low4High2(b, c)) * 64 + Low6(c)
         == (a as int * 256 + b) * 256 + c
  {
  }

  // ----- encoding

  /** The sextets of one group of at most three bytes, filled with zeros. */
  function Sextets(g: seq<byte>): (sextet, sextet, sextet, sextet)
    requires 1 <= |g| <= 3
  {
    var second: byte := if |g| > 1 then g[1] else 0;
    var third: byte := if |g| > 2 then g[2] else 0;
    (High6(g[0]), Low2High4(g[0], second), Low4High2(second, third), Low6(third))
  }

  /** The i-th character of the encoding of one group. */
  function GroupChar(g: seq<byte>, url: bool, i: nat): char
    requires 1 <= |g| <= 3 && i < 4
  {
    if i > |g| then PadOf(url)
    else if i == 0 then CharOf(Sextets(g).0, url)
    else if i == 1 then CharOf(Sextets(g).1, url)
    else if i == 2 then CharOf(Sextets(g).2, url)
    else CharOf(Sextets(g).3, url)
  }

  function EncodeGroup(g: seq<byte>, url: bool): string
    requires 1 <= |g| <= 3
  {
    seq(4, i requires 0 <= i < 4 => GroupChar(g, url, i))
  }

  function FirstGroup(b: seq<byte>): seq<byte> { if |b| <= 3 then b else b[..3] }
  function LaterGroups(b: seq<byte>): seq<byte> { if |b| <= 3 then [] else b[3..] }

  function Encoded(b: seq<byte>, url: bool): string
    decreases |b|
  {
    if |b| == 0 then "" else EncodeGroup(FirstGroup(b), url) + Encoded(LaterGroups(b), url)
  }

  const UINT32_LIMIT := 0x1_0000_0000

  /** One round of the encoder's loop, at the head of what is left. */
  method AppendGroup(b: seq<byte>, pos: nat, url: bool) returns (text: string)
    requires pos < |b| < UINT32_LIMIT && pos + 3 <= UINT32_LIMIT
    ensures text == EncodeGroup(FirstGroup(b[pos..]), url)
  {
    text := [CharOf(High6(b[pos]), url)];
    if (pos + 1) % UINT32_LIMIT < |b| {
      text := text + [CharOf(Low2High4(b[pos], b[pos + 1]), url)];
      if (pos + 2) % UINT32_LIMIT < |b| {
        text := text + [CharOf(Low4High2(b[pos + 1], b[pos + 2]), url)];
        text := text + [CharOf(Low6(b[pos + 2]), url)];
      } else {
        text := text + [CharOf(Low4High2(b[pos + 1], 0), url)];
        text := text + [PadOf(url)];
      }
    } else {
      text := text + [CharOf(Low2High4(b[pos], 0), url)];
      text := text + [PadOf(url)];
      text := text + [PadOf(url)];
    }
  }

  /** What is left to encode from a position on. */
  ghost function Rest(b: seq<byte>, pos: nat): seq<byte> { if pos < |b| then b[pos..] else [] }

  lemma OneRound(b: seq<byte>, pos: nat, url: bool)
    requires pos < |b| < UINT32_LIMIT && pos % 3 == 0
    ensures pos + 3 < UINT32_LIMIT && (pos + 3) % UINT32_LIMIT == pos + 3 && (pos + 3) % 3 == 0
    ensures Encoded(Rest(b, pos), url) == EncodeGroup(FirstGroup(b[pos..]), url) + Encoded(Rest(b, pos + 3), url)
  {
    assert LaterGroups(b[pos..]) == Rest(b, pos + 3);
  }

  /** The encoder counts positions in 32 bits; up to 2^32 - 1 bytes the counter never wraps. */
  method Encode(b: seq<byte>, url: bool) returns (text: string)
    requires |b| < UINT32_LIMIT
    ensures text == Encoded(b, url)
  {
    text := "";
    var pos := 0;
    while pos < |b|
      invariant 0 <= pos < UINT32_LIMIT && pos % 3 == 0
      invariant Encoded(b, url) == text + Encoded(Rest(b, pos), url)
      decreases |b| - pos
    {
      OneRound(b, pos, url);
      var group := AppendGroup(b, pos, url);
      text := text + group;
      pos := (pos + 3) % UINT32_LIMIT;
    }
  }

  /** The position counter after k rounds of the encoder's loop. */
  function Counter(k: nat): nat { 3 * k % UINT32_LIMIT }

  /** The bound of Encode is the exact one: from 2^32 bytes on the loop test holds for ever. */
  lemma EncoderStopsExactlyBelowTheLimit(n: nat)
    ensures (exists k: nat :: Counter(k) >= n) <==> n < UINT32_LIMIT
  {
    if n < UINT32_LIMIT {
      assert Counter((n + 2) / 3) >= n;
    }
  }

  lemma {:induction false} EncodedLength(b: seq<byte>, url: bool)
    ensures |Encoded(b, url)| == 4 * ((|b| + 2) / 3)
    decreases |b|
  {
    if |b| > 0 {
      EncodedLength(LaterGroups(b), url);
    }
  }

  lemma GroupShape(g: seq<byte>, url: bool)
    requires 1 <= |g| <= 3
    ensures var t := EncodeGroup(g, url);
            && (forall i :: 0 <= i <= |g| ==> IsDataChar(t[i]) && t[i] != '\n')
            && (forall i :: |g| < i < 4 ==> t[i] == PadOf(url))
  {
  }

  // ----- decoding

  function DecodeChunk(c: string): Decoding
    requires 1 <= |c| <= 4
  {
    if |c| < 2 then OutOfRange
    else if !IsDataChar(c[1]) || !IsDataChar(c[0]) then BadCharacter
    else
      var p0, p1 := PosOf(c[0]), PosOf(c[1]);
      var first: seq<byte> := [FirstByte(p0, p1)];
      if |c| == 2 || IsPad(c[2]) then Bytes(first)
      else if !IsDataChar(c[2]) then BadCharacter
      else
        var p2 := PosOf(c[2]);
        var second: seq<byte> := first + [SecondByte(p1, p2)];
        if |c| == 3 || IsPad(c[3]) then Bytes(second)
        else if !IsDataChar(c[3]) then BadCharacter
        else Bytes(second + [ThirdByte(p2, PosOf(c[3]))])
  }

  function Head(s: string): string { if |s| <= 4 then s else s[..4] }
  function Tail(s: string): string { if |s| <= 4 then "" else s[4..] }

  /** Bytes so far, followed by what a later part yields. */
  function Joined(bytes: seq<byte>, later: Decoding): Decoding {
    if later.Bytes? then Bytes(bytes + later.bytes) else later
  }

  function Decoded(s: string): Decoding
    decreases |s|
  {
    if |s| == 0 then Bytes([]) else
    var chunk := DecodeChunk(Head(s));
    if chunk.Bytes? then Joined(chunk.bytes, Decoded(Tail(s))) else chunk
  }

  lemma JoinedTwice(a: seq<byte>, b: seq<byte>, later: Decoding)
    ensures Joined(a, Joined(b, later)) == Joined(a + b, later)
  {
    if later.Bytes? {
      assert a + (b + later.bytes) == a + b + later.bytes;
    }
  }

  /** The decoding loop; an exception ends it. */
  method Decode(s: string) returns (result: Decoding)
    ensures result == Decoded(s)
  {
    var bytes: seq<byte> := [];
    var pos := 0;
    ghost var rest := s;
    while pos < |s|
      invariant 0 <= pos && rest == if pos < |s| then s[pos..] else ""
      invariant Decoded(s) == Joined(bytes, Decoded(rest))
    {
      var chunk := DecodeChunk(s[pos..if pos + 4 < |s| then pos + 4 else |s|]);
      assert s[pos..if pos + 4 < |s| then pos + 4 else |s|] == Head(rest);
      if !chunk.Bytes? {
        return chunk;
      }
      JoinedTwice(bytes, chunk.bytes, Decoded(Tail(rest)));
      bytes := bytes + chunk.bytes;
      pos := pos + 4;
      rest := Tail(rest);
    }
    return Bytes(bytes);
  }

  /** The characters of a group stand for the sextets p, q, r, t; padding replaces the unused ones. */
  ghost predicate StandsFor(text: string, size: nat, url: bool, p: sextet, q: sextet, r: sextet, t: sextet) {
    && |text| == 4 && text[0] == CharOf(p, url) && text[1] == CharOf(q, url)
    && text[2] == (if size > 1 then CharOf(r, url) else PadOf(url))
    && text[3] == (if size > 2 then CharOf(t, url) else PadOf(url))
  }

  ghost predicate Assemble(g: seq<byte>, p: sextet, q: sextet, r: sextet, t: sextet) {
    && 1 <= |g| <= 3 && FirstByte(p, q) == g[0]
    && (|g| > 1 ==> SecondByte(q, r) == g[1]) && (|g| > 2 ==> ThirdByte(r, t) == g[2])
  }

  lemma ChunkOfSextets(text: string, g: seq<byte>, url: bool, p: sextet, q: sextet, r: sextet, t: sextet)
    requires StandsFor(text, |g|, url, p, q, r, t) && Assemble(g, p, q, r, t)
    ensures DecodeChunk(text) == Bytes(g)
  {
    CharRoundTrip(p, url);
    CharRoundTrip(q, url);
    CharRoundTrip(r, url);
    CharRoundTrip(t, url);
    assert g == if |g| == 1 then [g[0]] else if |g| == 2 then [g[0], g[1]] else [g[0], g[1], g[2]];
  }

  lemma GroupStandsFor(g: seq<byte>, url: bool, p: sextet, q: sextet, r: sextet, t: sextet)
    requires 1 <= |g| <= 3
    requires Sextets(g) == (p, q, r, t)
    ensures StandsFor(EncodeGroup(g, url), |g|, url, p, q, r, t)
  {
  }

  lemma SextetsAssemble(g: seq<byte>)
    requires 1 <= |g| <= 3
    ensures var (p, q, r, t) := Sextets(g); Assemble(g, p, q, r, t)
  {
    SextetsRoundTrip(g[0], if |g| > 1 then g[1] else 0, if |g| > 2 then g[2] else 0);
  }

  lemma GroupRoundTrip(g: seq<byte>, url: bool)
    requires 1 <= |g| <= 3
    ensures DecodeChunk(EncodeGroup(g, url)) == Bytes(g)
  {
    var (p, q, r, t) := Sextets(g);
    GroupStandsFor(g, url, p, q, r, t);
    SextetsAssemble(g);
    ChunkOfSextets(EncodeGroup(g, url), g, url, p, q, r, t);
  }

  lemma DecodedGroup(group: string, rest: string)
    requires |group| == 4
    ensures Decoded(group + rest) ==
            if DecodeChunk(group).Bytes? then Joined(DecodeChunk(group).bytes, Decoded(rest)) else DecodeChunk(group)
  {
    assert Head(group + rest) == group && Tail(group + rest) == rest;
  }

  /** Decoding undoes encoding, in either alphabet. */
  lemma {:induction false} RoundTrip(b: seq<byte>, url: bool)
    ensures Decoded(Encoded(b, url)) == Bytes(b)
    decreases |b|
  {
    if |b| > 0 {
      GroupRoundTrip(FirstGroup(b), url);
      RoundTrip(LaterGroups(b), url);
      DecodedGroup(EncodeGroup(FirstGroup(b), url), Encoded(LaterGroups(b), url));
      assert b == FirstGroup(b) + LaterGroups(b);
    }
  }

  // ----- validation

  /** The text is data characters and then k equal padding characters that complete a chunk. */
  ghost predicate SplitsAt(s: string, k: nat) {
    && k <= |s| && k <= 2
    && (forall i :: 0 <= i < |s| - k ==> IsDataChar(s[i]))
    && (forall i :: |s| - k <= i < |s| ==> IsPad(s[i]) && s[i] == s[|s| - 1])
    && (k > 0 ==> |s| % 4 == 0)
    && |s| % 4 != 1
  }

  ghost predicate WellFormed(s: string) { exists k :: SplitsAt(s, k) }

  lemma OnlyTheWholePadding(s: string, padding: nat)
    requires padding <= |s|
    requires forall i :: |s| - padding <= i < |s| ==> IsPad(s[i])
    requires padding < |s| ==> !IsPad(s[|s| - padding - 1])
    ensures forall k: nat :: SplitsAt(s, k) ==> k == padding
  {
    forall k: nat | SplitsAt(s, k)
      ensures k == padding
    {
      var below := k < |s| && IsPad(s[|s| - 1 - k]);
      var above := padding < |s| && IsDataChar(s[|s| - 1 - padding]);
    }
  }

  method IsValidBase64(s: string) returns (valid: bool)
    ensures valid <==> WellFormed(s)
  {
    if |s| == 0 {
      assert SplitsAt(s, 0);
      return true;
    }
    if |s| % 4 == 1 {
      return false;
    }
    var padding := 0;
    while padding < |s| && IsPad(s[|s| - padding - 1])
      invariant 0 <= padding <= |s|
      invariant forall i :: |s| - padding <= i < |s| ==> IsPad(s[i]) && s[i] == s[|s| - 1]
    {
      if s[|s| - padding - 1] != s[|s| - 1] {
        forall k: nat ensures !SplitsAt(s, k) {
          assert IsPad(s[|s| - 1]) && IsPad(s[|s| - padding - 1]);
        }
        return false;
      }
      padding := padding + 1;
    }
    OnlyTheWholePadding(s, padding);
    if padding > 2 || (padding != 0 && |s| % 4 != 0) {
      return false;
    }
    var index := 0;
    while index < |s| - padding
      invariant 0 <= index <= |s| - padding
      invariant forall i :: 0 <= i < index ==> IsDataChar(s[i])
    {
      if !IsDataChar(s[index]) {
        assert !SplitsAt(s, padding);
        return false;
      }
      index := index + 1;
    }
    assert SplitsAt(s, padding);
    return true;
  }

  /** Data characters with a given ending are valid exactly if no group is left with one character,
      or, with padding, if the last group is full. */
  lemma ValidExactly(data: string, ending: string)
    requires forall i :: 0 <= i < |data| ==> IsDataChar(data[i])
    requires ending in {"", "=", "==", ".", ".."}
    ensures WellFormed(data + ending) <==> if ending == "" then |data| % 4 != 1 else (|data| + |ending|) % 4 == 0
  {
    var s := data + ending;
    if WellFormed(s) {
      var k :| SplitsAt(s, k);
      assert forall i :: |data| <= i < |s| ==> IsPad(s[i]);
      OnlyTheWholePadding(s, |ending|);
    } else {
      assert !SplitsAt(s, |ending|);
    }
  }

  // ----- texts and bytes as bits, two at a time

  type pair = n: int | 0 <= n < 4

  /** The bits of a byte and of a sextet in pairs, high bits first. */
  function BytePairs(b: byte): seq<pair> { [b / 64, b / 16 % 4, b / 4 % 4, b % 4] }

  function SextetPairs(v: sextet): seq<pair> { [v / 16, v / 4 % 4, v % 4] }

  /** The bits a character of the alphabet stands for; other characters stand for none. */
  function CharPairs(c: char): seq<pair> { if IsDataChar(c) then SextetPairs(PosOf(c)) else [] }

  function PairsOf(bytes: seq<byte>): seq<pair> { Spell(bytes, BytePairs) }

  function PairsOfText(text: string): seq<pair> { Spell(text, CharPairs) }

  predicate AllData(text: string) { forall i :: 0 <= i < |text| ==> IsDataChar(text[i]) }

  lemma PairsOfSum(w: pair, x: pair, y: pair, z: pair)
    ensures var n := 64 * w + 16 * x + 4 * y + z;
            n / 64 == w && n / 16 % 4 == x && n / 4 % 4 == y && n % 4 == z
  {
    var n := 64 * w + 16 * x + 4 * y + z;
    assert n / 4 == 16 * w + 4 * x + y;
    assert n / 16 == 4 * w + x;
  }

  lemma SextetParts(v: sextet)
    ensures v / 4 == 4 * (v / 16) + v / 4 % 4 && v % 16 == 4 * (v / 4 % 4) + v % 4 && 0 <= v / 16 < 4
  {
    assert v / 4 / 4 == v / 16;
    assert v == 4 * (v / 4) + v % 4;
  }

  lemma FirstBytePairs(p: sextet, q: sextet)
    ensures BytePairs(FirstByte(p, q)) == [p / 16, p / 4 % 4, p % 4, q / 16]
  {
    SextetParts(p);
    SextetParts(q);
    PairsOfSum(p / 16, p / 4 % 4, p % 4, q / 16);
  }

  lemma SecondBytePairs(q: sextet, r: sextet)
    ensures BytePairs(SecondByte(q, r)) == [q / 4 % 4, q % 4, r / 16, r / 4 % 4]
  {
    SextetParts(q);
    SextetParts(r);
    PairsOfSum(q / 4 % 4, q % 4, r / 16, r / 4 % 4);
  }

  lemma ThirdBytePairs(r: sextet, t: sextet)
    ensures BytePairs(ThirdByte(r, t)) == [r % 4, t / 16, t / 4 % 4, t % 4]
  {
    SextetParts(t);
    PairsOfSum(r % 4, t / 16, t / 4 % 4, t % 4);
  }

  /** The output is the leading bits of the text's characters, those of the padding left out, as far
      as they make up whole bytes. */
  ghost predicate Reads(s: string, k: nat, output: seq<byte>) {
    && SplitsAt(s, k) && |output| == 3 * (|s| - k) / 4
    && PairsOf(output) <= PairsOfText(s[..|s| - k])
  }

  lemma PairsSnoc(bytes: seq<byte>, x: byte)
    ensures PairsOf(bytes + [x]) == PairsOf(bytes) + BytePairs(x)
  {
    SpellConcat(bytes, [x], BytePairs);
    SpellOne(x, BytePairs);
  }

  lemma TextPairsSnoc(text: string, c: char)
    ensures PairsOfText(text + [c]) == PairsOfText(text) + CharPairs(c)
  {
    SpellConcat(text, [c], CharPairs);
    SpellOne(c, CharPairs);
  }

  lemma TwoCharacters(a: char, b: char)
    requires IsDataChar(a) && IsDataChar(b)
    ensures PairsOfText([a, b]) == PairsOf([FirstByte(PosOf(a), PosOf(b))]) + [PosOf(b) / 4 % 4, PosOf(b) % 4]
  {
    SpellOne(a, CharPairs);
    TextPairsSnoc([a], b);
    assert [a, b] == [a] + [b];
    SpellOne(FirstByte(PosOf(a), PosOf(b)), BytePairs);
    FirstBytePairs(PosOf(a), PosOf(b));
  }

  lemma ThreeCharacters(a: char, b: char, c: char)
    requires IsDataChar(a) && IsDataChar(b) && IsDataChar(c)
    ensures PairsOfText([a, b, c])
         == PairsOf([FirstByte(PosOf(a), PosOf(b)), SecondByte(PosOf(b), PosOf(c))]) + [PosOf(c) % 4]
  {
    var x, y := FirstByte(PosOf(a), PosOf(b)), SecondByte(PosOf(b), PosOf(c));
    TwoCharacters(a, b);
    TextPairsSnoc([a, b], c);
    assert [a, b, c] == [a, b] + [c] && [x, y] == [x] + [y];
    PairsSnoc([x], y);
    SecondBytePairs(PosOf(b), PosOf(c));
  }

  lemma FourCharacters(a: char, b: char, c: char, d: char)
    requires IsDataChar(a) && IsDataChar(b) && IsDataChar(c) && IsDataChar(d)
    ensures PairsOfText([a, b, c, d])
         == PairsOf([FirstByte(PosOf(a), PosOf(b)), SecondByte(PosOf(b), PosOf(c)), ThirdByte(PosOf(c), PosOf(d))])
  {
    var x, y, z := FirstByte(PosOf(a), PosOf(b)), SecondByte(PosOf(b), PosOf(c)), ThirdByte(PosOf(c), PosOf(d));
    ThreeCharacters(a, b, c);
    TextPairsSnoc([a, b, c], d);
    assert [a, b, c, d] == [a, b, c] + [d] && [x, y, z] == [x, y] + [z];
    PairsSnoc([x, y], z);
    ThirdBytePairs(PosOf(c), PosOf(d));
  }

  /** One chunk: two, three or four characters are one, two or three bytes. */
  ghost predicate ReadsChunk(c: string, n: nat, output: seq<byte>)
    requires n <= |c|
  {
    && |output| == n - 1 && PairsOf(output) <= PairsOfText(c[..n])
    && (n == 4 ==> PairsOf(output) == PairsOfText(c[..n]))
  }

  lemma ChunkPairs(c: string, n: nat)
    requires 2 <= n <= |c| <= 4 && AllData(c[..n]) && forall i :: n <= i < |c| ==> IsPad(c[i])
    ensures DecodeChunk(c).Bytes? && ReadsChunk(c, n, DecodeChunk(c).bytes)
  {
    assert forall i :: 0 <= i < n ==> c[..n][i] == c[i] && IsDataChar(c[i]) && !IsPad(c[i]);
    if n == 2 {
      TwoCharacters(c[0], c[1]);
      assert c[..n] == [c[0], c[1]];
    } else if n == 3 {
      ThreeCharacters(c[0], c[1], c[2]);
      assert c[..n] == [c[0], c[1], c[2]];
      assert DecodeChunk(c).bytes == [FirstByte(PosOf(c[0]), PosOf(c[1])), SecondByte(PosOf(c[1]), PosOf(c[2]))];
    } else {
      FourCharacters(c[0], c[1], c[2], c[3]);
      assert c[..n] == [c[0], c[1], c[2], c[3]];
      assert DecodeChunk(c).bytes == [FirstByte(PosOf(c[0]), PosOf(c[1])), SecondByte(PosOf(c[1]), PosOf(c[2])),
                                      ThirdByte(PosOf(c[2]), PosOf(c[3]))];
    }
  }

  lemma SplitFacts(s: string, k: nat)
    requires SplitsAt(s, k)
    ensures k <= |s| && AllData(s[..|s| - k]) && (|s| > 0 ==> |s| - k >= 2)
    ensures forall i :: |s| - k <= i < |s| ==> IsPad(s[i])
  {
  }

  lemma SplitTail(s: string, k: nat)
    requires SplitsAt(s, k) && |s| > 4
    ensures |s| - k > 4 && AllData(s[..4]) && SplitsAt(s[4..], k)
  {
    var tail := s[4..];
    assert |tail| % 4 == |s| % 4;
    assert forall i :: 0 <= i < |tail| ==> tail[i] == s[i + 4];
  }

  lemma OneChunk(s: string)
    requires 0 < |s| <= 4 && DecodeChunk(s).Bytes?
    ensures Decoded(s) == DecodeChunk(s)
  {
    assert Head(s) == s && Tail(s) == "";
    assert Decoded("") == Bytes([]);
    assert DecodeChunk(s).bytes + [] == DecodeChunk(s).bytes;
  }

  lemma ShortTextIsRead(s: string, k: nat)
    requires 0 < |s| <= 4 && SplitsAt(s, k)
    ensures Decoded(s).Bytes? && Reads(s, k, Decoded(s).bytes)
  {
    SplitFacts(s, k);
    ChunkPairs(s, |s| - k);
    OneChunk(s);
  }

  lemma ThreeQuarters(m: nat)
    ensures 3 * (m + 4) / 4 == 3 + 3 * m / 4
  {
  }

  lemma FirstOfMore(s: string)
    requires |s| > 4 && AllData(s[..4]) && Decoded(s[4..]).Bytes?
    ensures DecodeChunk(s[..4]).Bytes? && |DecodeChunk(s[..4]).bytes| == 3
    ensures PairsOf(DecodeChunk(s[..4]).bytes) == PairsOfText(s[..4])
    ensures Decoded(s) == Bytes(DecodeChunk(s[..4]).bytes + Decoded(s[4..]).bytes)
  {
    assert s[..4][..4] == s[..4];
    ChunkPairs(s[..4], 4);
  }

  lemma LongerTextIsRead(s: string, k: nat)
    requires |s| > 4 && SplitsAt(s, k) && SplitsAt(s[4..], k)
    requires Decoded(s[4..]).Bytes? && Reads(s[4..], k, Decoded(s[4..]).bytes)
    ensures Decoded(s).Bytes? && Reads(s, k, Decoded(s).bytes)
  {
    SplitTail(s, k);
    FirstOfMore(s);
    var head, rest := s[..4], s[4..|s| - k];
    assert s[4..][..|s[4..]| - k] == rest && s[..|s| - k] == head + rest;
    ThreeQuarters(|rest|);
    SpellInARow(head, DecodeChunk(head).bytes, rest, Decoded(s[4..]).bytes, CharPairs, BytePairs);
  }

  /** Every text the validator accepts decodes to the leading bits of its characters. */
  lemma {:induction false} ValidTextsAreRead(s: string, k: nat)
    requires SplitsAt(s, k)
    ensures Decoded(s).Bytes? && Reads(s, k, Decoded(s).bytes)
  {
    if |s| > 4 {
      SplitTail(s, k);
      ValidTextsAreRead(s[4..], k);
      LongerTextIsRead(s, k);
    } else if |s| > 0 {
      ShortTextIsRead(s, k);
    }
  }

  /** On a well-formed text the decoder meets no bad character and no missing one. */
  lemma WellFormedDecodes(s: string, k: nat)
    requires SplitsAt(s, k)
    ensures Decoded(s).Bytes? && |Decoded(s).bytes| == 3 * (|s| - k) / 4
  {
    ValidTextsAreRead(s, k);
  }

  /** The checked decoder: true exactly on the well-formed texts. */
  method DecodeChecked(s: string) returns (ok: bool, output: seq<byte>)
    ensures ok <==> WellFormed(s)
    ensures ok ==> exists k :: Reads(s, k, output)
    ensures !ok ==> output == []
  {
    var valid := IsValidBase64(s);
    if !valid {
      return false, [];
    }
    ghost var k :| SplitsAt(s, k);
    ValidTextsAreRead(s, k);
    var result := Decode(s);
    match result
    case Bytes(bytes) => return true, bytes;
    case BadCharacter => return false, [];
    case OutOfRange => return false, [];
  }

  function PadCount(n: nat): nat { (3 - n % 3) % 3 }

  lemma GroupSplits(g: seq<byte>, url: bool)
    requires 1 <= |g| <= 3
    ensures SplitsAt(EncodeGroup(g, url), PadCount(|g|))
    ensures |g| == 3 ==> forall i :: 0 <= i < 4 ==> IsDataChar(EncodeGroup(g, url)[i])
  {
    GroupShape(g, url);
  }

  lemma SplitsBehindData(head: string, tail: string, k: nat)
    requires |head| == 4 && forall i :: 0 <= i < 4 ==> IsDataChar(head[i])
    requires SplitsAt(tail, k)
    ensures SplitsAt(head + tail, k)
  {
  }

  lemma PadCountStep(n: nat)
    requires n > 3
    ensures PadCount(n) == PadCount(n - 3)
  {
  }

  /** What the encoder writes passes the validator. */
  lemma {:induction false} EncodedIsWellFormed(b: seq<byte>, url: bool)
    ensures SplitsAt(Encoded(b, url), PadCount(|b|))
    decreases |b|
  {
    if |b| > 0 {
      var head, tail := EncodeGroup(FirstGroup(b), url), Encoded(LaterGroups(b), url);
      GroupSplits(FirstGroup(b), url);
      EncodedIsWellFormed(LaterGroups(b), url);
      if |b| <= 3 {
        assert head + tail == head;
      } else {
        PadCountStep(|b|);
        SplitsBehindData(head, tail, PadCount(|b|));
      }
    }
  }

  // ----- the encoder's output as bits

  lemma ByteIsItsPairs(x: byte)
    ensures x == 64 * (x / 64) + 16 * (x / 16 % 4) + 4 * (x / 4 % 4) + x % 4
  {
    assert x / 16 / 4 == x / 64 && x / 4 / 4 == x / 16;
  }

  lemma SamePairsSameByte(x: byte, y: byte)
    requires BytePairs(x) == BytePairs(y)
    ensures x == y
  {
    ByteIsItsPairs(x);
    ByteIsItsPairs(y);
    assert BytePairs(x)[0] == BytePairs(y)[0] && BytePairs(x)[1] == BytePairs(y)[1]
        && BytePairs(x)[2] == BytePairs(y)[2] && BytePairs(x)[3] == BytePairs(y)[3];
  }

  /** There is only one output that reads a text. */
  lemma ReadingIsUnique(data: seq<pair>, a: seq<byte>, b: seq<byte>)
    requires |a| == |b| && PairsOf(a) <= data && PairsOf(b) <= data
    ensures a == b
  {
    SpellLength(a, BytePairs, 4);
    SpellLength(b, BytePairs, 4);
    forall i, j | 0 <= i < |a| && 0 <= j < |b| && BytePairs(a[i]) == BytePairs(b[j])
      ensures a[i] == b[j]
    {
      SamePairsSameByte(a[i], b[j]);
    }
    assert PairsOf(a) == data[..4 * |a|] == PairsOf(b);
    SpellIsInjective(a, b, BytePairs, 4);
  }

  lemma WithoutPadding(s: string, k: nat)
    requires SplitsAt(s, k)
    ensures k <= |s| && SplitsAt(s[..|s| - k], 0)
  {
  }

  /** A valid text without its padding is valid and decodes to the same bytes. */
  lemma PaddingDoesNotMatter(s: string, k: nat, b: seq<byte>)
    requires SplitsAt(s, k) && Decoded(s) == Bytes(b)
    ensures k <= |s| && SplitsAt(s[..|s| - k], 0) && Decoded(s[..|s| - k]) == Bytes(b)
  {
    var data := s[..|s| - k];
    ValidTextsAreRead(s, k);
    WithoutPadding(s, k);
    ValidTextsAreRead(data, 0);
    assert data[..|data| - 0] == data;
    ReadingIsUnique(PairsOfText(data), b, Decoded(data).bytes);
  }

  /** The part of an encoding before its padding. */
  function DataOf(b: seq<byte>, url: bool): string {
    EncodedIsWellFormed(b, url);
    Encoded(b, url)[..|Encoded(b, url)| - PadCount(|b|)]
  }

  /** The encoding without its padding decodes to the bytes as well. */
  lemma UnpaddedRoundTrip(b: seq<byte>, url: bool)
    ensures SplitsAt(DataOf(b, url), 0) && Decoded(DataOf(b, url)) == Bytes(b)
  {
    EncodedIsWellFormed(b, url);
    RoundTrip(b, url);
    var text, k, data := Encoded(b, url), PadCount(|b|), DataOf(b, url);
    assert data == text[..|text| - k];
    PaddingDoesNotMatter(text, k, b);
  }

  lemma FillIsZero(a: byte)
    ensures Low2High4(a, 0) % 16 == 0 && Low4High2(a, 0) % 4 == 0
  {
    assert Low2High4(a, 0) == 16 * (a % 4) && Low4High2(a, 0) == 4 * (a % 16);
  }

  lemma DataOfLast(b: seq<byte>, url: bool)
    requires 0 < |b| <= 3
    ensures DataOf(b, url) == EncodeGroup(b, url)[..|b| + 1]
  {
    assert FirstGroup(b) == b && Encoded(LaterGroups(b), url) == "";
    assert Encoded(b, url) == EncodeGroup(b, url) + "" == EncodeGroup(b, url);
    assert PadCount(|b|) == 3 - |b|;
  }

  lemma DataOfMore(b: seq<byte>, url: bool)
    requires |b| > 3
    ensures DataOf(b, url) == EncodeGroup(b[..3], url) + DataOf(b[3..], url)
  {
    PadCountStep(|b|);
    EncodedLength(b, url);
    EncodedIsWellFormed(b[3..], url);
  }

  function LastSextet(b: seq<byte>): sextet
    requires |b| % 3 != 0
  {
    if |b| % 3 == 1 then Low2High4(b[|b| - 1], 0) else Low4High2(b[|b| - 1], 0)
  }

  lemma LastOfGroup(g: seq<byte>, url: bool)
    requires |g| == 1 || |g| == 2
    ensures EncodeGroup(g, url)[|g|] == CharOf(LastSextet(g), url)
  {
    var n := |g|;
    assert EncodeGroup(g, url)[n] == GroupChar(g, url, n);
    if n == 1 {
      assert n % 3 == 1 && Sextets(g).1 == Low2High4(g[0], 0) == LastSextet(g);
    } else {
      assert n % 3 == 2 && Sextets(g).2 == Low4High2(g[1], 0) == LastSextet(g);
    }
  }

  lemma {:induction false} LastCharacter(b: seq<byte>, url: bool)
    requires |b| % 3 != 0
    ensures |DataOf(b, url)| > 0 && DataOf(b, url)[|DataOf(b, url)| - 1] == CharOf(LastSextet(b), url)
    decreases |b|
  {
    if |b| > 3 {
      var rest := DataOf(b[3..], url);
      LastCharacter(b[3..], url);
      DataOfMore(b, url);
      assert DataOf(b, url)[|DataOf(b, url)| - 1] == rest[|rest| - 1];
    } else {
      DataOfLast(b, url);
      LastOfGroup(b, url);
    }
  }

  /** The encoding spells the bits of the bytes, section 4 of RFC 4648; what is left of a last
      character is zero bits. */
  lemma EncodedSpellsTheBits(b: seq<byte>, url: bool)
    ensures PairsOf(b) <= PairsOfText(DataOf(b, url))
  {
    UnpaddedRoundTrip(b, url);
    ValidTextsAreRead(DataOf(b, url), 0);
    assert DataOf(b, url)[..|DataOf(b, url)| - 0] == DataOf(b, url);
  }

  lemma LastCharacterIsFilled(b: seq<byte>, url: bool)
    requires |b| % 3 != 0
    ensures var data := DataOf(b, url);
            |data| > 0 && IsDataChar(data[|data| - 1]) && PosOf(data[|data| - 1]) % (if |b| % 3 == 1 then 16 else 4) == 0
  {
    LastCharacter(b, url);
    CharRoundTrip(LastSextet(b), url);
    FillIsZero(b[|b| - 1]);
  }

  predicate InAlphabet(c: char, url: bool) { if url then c != '+' && c != '/' else c != '-' && c != '_' }

  /** One alphabet only, and its own padding. */
  lemma {:induction false} EncodedUsesItsAlphabet(b: seq<byte>, url: bool)
    ensures forall i :: 0 <= i < |Encoded(b, url)| ==>
              InAlphabet(Encoded(b, url)[i], url)
              && (IsPad(Encoded(b, url)[i]) ==> Encoded(b, url)[i] == if url then '.' else '=')
    decreases |b|
  {
    if |b| > 0 {
      EncodedUsesItsAlphabet(LaterGroups(b), url);
      var group := EncodeGroup(FirstGroup(b), url);
      assert forall i :: 0 <= i < 4 ==> InAlphabet(group[i], url) && (IsPad(group[i]) ==> group[i] == PadOf(url));
    }
  }

  // ----- line breaks

  function Broken(s: string, d: nat): string
    requires d > 0
  {
    if |s| <= d then s else s[..d] + "\n" + Broken(s[d..], d)
  }

  function WithoutBreaks(s: string): string {
    if |s| == 0 then ""
    else if s[0] == '\n' then WithoutBreaks(s[1..]) else [s[0]] + WithoutBreaks(s[1..])
  }

  /** The insertion loop: the text grows while it is scanned, and the scan still ends. */
  method InsertLineBreaks(s: string, distance: nat) returns (text: string)
    requires distance > 0
    ensures text == Broken(s, distance)
  {
    if |s| == 0 {
      return "";
    }
    text := s;
    var pos := distance;
    ghost var done, rest := "", s;
    while pos < |text|
      invariant text == done + rest && pos == |done| + distance
      invariant Broken(s, distance) == done + Broken(rest, distance)
      decreases |rest|
    {
      assert text[..pos] == done + rest[..distance] && text[pos..] == rest[distance..];
      text := text[..pos] + "\n" + text[pos..];
      pos := pos + distance + 1;
      done, rest := done + (rest[..distance] + "\n"), rest[distance..];
    }
  }

  lemma {:induction false} BreaksVanish(a: string, b: string)
    requires '\n' !in a
    ensures WithoutBreaks(a + b) == a + WithoutBreaks(b)
  {
    if |a| == 0 {
      assert a + b == b;
    } else {
      BreaksVanish(a[1..], b);
      assert (a + b)[1..] == a[1..] + b && (a + b)[0] == a[0];
      assert a + WithoutBreaks(b) == [a[0]] + (a[1..] + WithoutBreaks(b));
    }
  }

  lemma BreakGoes(text: string)
    ensures WithoutBreaks("\n" + text) == WithoutBreaks(text)
  {
    assert ("\n" + text)[1..] == text;
  }

  lemma {:induction false} BreakingLosesNothing(s: string, d: nat)
    requires d > 0 && '\n' !in s
    ensures WithoutBreaks(Broken(s, d)) == s
  {
    if |s| <= d {
      BreaksVanish(s, "");
      assert s + "" == s;
    } else {
      var later := Broken(s[d..], d);
      BreakingLosesNothing(s[d..], d);
      BreaksVanish(s[..d], "\n" + later);
      BreakGoes(later);
      ConcatAssociates(s[..d], "\n", later);
      assert s == s[..d] + s[d..];
    }
  }

  lemma SmallMod(a: nat, d: nat)
    requires a < d
    ensures a % d == a
  {
  }

  lemma SmallDiv(a: nat, d: nat)
    requires a < d
    ensures a / d == 0
  {
  }

  /** Line breaks stand exactly after every d characters and never at the end, so that a text of
      n characters gets ceil(n/d) - 1 of them; section 6.8 of RFC 2045 asks for lines of at most 76. */
  lemma {:induction false} BreaksStandAtTheLineEnds(s: string, d: nat)
    requires d > 0 && |s| > 0 && '\n' !in s
    ensures |Broken(s, d)| == |s| + (|s| - 1) / d
    ensures forall i :: 0 <= i < |Broken(s, d)| ==> (Broken(s, d)[i] == '\n' <==> i % (d + 1) == d)
  {
    if |s| > d {
      var rest := Broken(s[d..], d);
      BreaksStandAtTheLineEnds(s[d..], d);
      assert (|s| - 1) / d == (|s| - d - 1) / d + 1 by { DivStep(|s| - d - 1, d); }
      var all := Broken(s, d);
      forall i | 0 <= i < |all|
        ensures all[i] == '\n' <==> i % (d + 1) == d
      {
        if i >= d + 1 {
          assert all[i] == rest[i - d - 1];
          DivStep(i - d - 1, d + 1);
        } else if i < d {
          assert all[i] == s[i];
          SmallMod(i, d + 1);
        } else {
          SmallMod(i, d + 1);
        }
      }
    } else {
      SmallDiv(|s| - 1, d);
      forall i | 0 <= i < |s|
        ensures s[i] == '\n' <==> i % (d + 1) == d
      {
        SmallMod(i, d + 1);
      }
    }
  }

  lemma {:induction false} EncodedHasNoBreaks(b: seq<byte>, url: bool)
    ensures '\n' !in Encoded(b, url)
  {
    EncodedIsWellFormed(b, url);
  }

  /** PEM and MIME text, decoded with its line breaks removed, gives the bytes back. */
  lemma LineBreakRoundTrip(b: seq<byte>, d: nat)
    requires d > 0
    ensures Decoded(WithoutBreaks(Broken(Encoded(b, false), d))) == Bytes(b)
  {
    EncodedHasNoBreaks(b, false);
    BreakingLosesNothing(Encoded(b, false), d);
    RoundTrip(b, false);
  }
}
