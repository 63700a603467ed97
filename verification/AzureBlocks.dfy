/**
 Block IDs of multipart uploads to Azure, S3Manager_azure.go: a prefix of the upload ID and the part
 number, in base64 (section 4 of RFC 4648), and the listing that reads them back. Strings are byte
 strings: a character is a byte.
 */
module AzureBlocks {
  import opened Strings

  type Byte = b: nat | b < 256
  type Sextet = v: nat | v < 64

  // ------------------------------------------------------------------ base64

  /** The base 64 alphabet. */
  function Symbol(v: Sextet): char {
    if v < 26 then 'A' + v as char
    else if v < 52 then 'a' + (v - 26) as char
    else if v < 62 then '0' + (v - 52) as char
    else if v == 62 then '+' else '/'
  }

  function Value(c: char): (v: Option<nat>)
    ensures v.Some? ==> v.value < 64
  {
    if 'A' <= c <= 'Z' then Some((c - 'A') as nat)
    else if 'a' <= c <= 'z' then Some((c - 'a') as nat + 26)
    else if '0' <= c <= '9' then Some((c - '0') as nat + 52)
    else if c == '+' then Some(62) else if c == '/' then Some(63) else None
  }

  lemma SymbolValue(v: Sextet)
    ensures Value(Symbol(v)) == Some(v) && Symbol(v) !in {'=', '\r', '\n'}
  {}

  /** One to three bytes as four characters, the last one or two of which may be padding. */
  function EncodeGroup(g: seq<Byte>): (r: string)
    requires 1 <= |g| <= 3
    ensures |r| == 4
  {
    if |g| == 1 then [Symbol(g[0] / 4), Symbol(g[0] % 4 * 16), '=', '=']
    else if |g| == 2 then [Symbol(g[0] / 4), Symbol(g[0] % 4 * 16 + g[1] / 16), Symbol(g[1] % 16 * 4), '=']
    else [Symbol(g[0] / 4), Symbol(g[0] % 4 * 16 + g[1] / 16), Symbol(g[1] % 16 * 4 + g[2] / 64), Symbol(g[2] % 64)]
  }

  function Encode(bs: seq<Byte>): string {
    if |bs| <= 3 then (if bs == [] then "" else EncodeGroup(bs))
    else EncodeGroup(bs[..3]) + Encode(bs[3..])
  }

  function DecodeGroup(g: string): Option<seq<Byte>>
    requires |g| == 4
  {
    match (Value(g[0]), Value(g[1]))
    case (Some(p), Some(q)) =>
      if g[2] == '=' then (if g[3] == '=' then Some([p * 4 + q / 16]) else None)
      else (
        match (Value(g[2]), Value(g[3]))
        case (Some(r), None) => if g[3] == '=' then Some([p * 4 + q / 16, q % 16 * 16 + r / 4]) else None
        case (Some(r), Some(t)) => Some([p * 4 + q / 16, q % 16 * 16 + r / 4, r % 4 * 64 + t])
        case _ => None)
    case _ => None
  }

  function DecodeGroups(s: string): Option<seq<Byte>> {
    if s == "" then Some([])
    else if |s| < 4 then None
    else
      match DecodeGroup(s[..4])
      case None => None
      case Some(g) =>
        if |s| == 4 then Some(g)
        else if |g| < 3 then None
        else (
          match DecodeGroups(s[4..])
          case None => None
          case Some(rest) => Some(g + rest))
  }

  function WithoutLineBreaks(s: string): string {
    if s == "" then "" else (if s[0] in {'\r', '\n'} then "" else [s[0]]) + WithoutLineBreaks(s[1..])
  }

  /** The decoder skips line breaks and ignores the unused bits before padding. */
  function Decode(s: string): Option<seq<Byte>> { DecodeGroups(WithoutLineBreaks(s)) }

  lemma GroupOne(x: Byte)
    ensures DecodeGroup(EncodeGroup([x])) == Some([x])
  {}

  lemma PaddedGroup(g: string, p: nat, q: nat, r: nat)
    requires |g| == 4 && Value(g[0]) == Some(p) && Value(g[1]) == Some(q) && Value(g[2]) == Some(r) && g[3] == '='
    ensures p < 64 && q < 64 && r < 64
    ensures DecodeGroup(g) == Some([p * 4 + q / 16, q % 16 * 16 + r / 4])
  {}

  lemma GroupTwo(x: Byte, y: Byte)
    ensures DecodeGroup(EncodeGroup([x, y])) == Some([x, y])
  {
    var p, q, r := x / 4, x % 4 * 16 + y / 16, y % 16 * 4;
    SymbolValue(p);
    SymbolValue(q);
    SymbolValue(r);
    PaddedGroup(EncodeGroup([x, y]), p, q, r);
    Bits(x, y, 0);
  }

  /** Three bytes cut into four sextets and put together again. */
  lemma Bits(x: Byte, y: Byte, z: Byte)
    ensures x / 4 * 4 + (x % 4 * 16 + y / 16) / 16 == x
    ensures (x % 4 * 16 + y / 16) % 16 * 16 + (y % 16 * 4 + z / 64) / 4 == y
    ensures (y % 16 * 4 + z / 64) % 4 * 64 + z % 64 == z
  {}

  lemma FullGroup(g: string, p: nat, q: nat, r: nat, t: nat)
    requires |g| == 4 && Value(g[0]) == Some(p) && Value(g[1]) == Some(q) && Value(g[2]) == Some(r) && Value(g[3]) == Some(t)
    ensures p < 64 && q < 64 && r < 64 && t < 64
    ensures DecodeGroup(g) == Some([p * 4 + q / 16, q % 16 * 16 + r / 4, r % 4 * 64 + t])
  {}

  lemma GroupThree(x: Byte, y: Byte, z: Byte)
    ensures DecodeGroup(EncodeGroup([x, y, z])) == Some([x, y, z])
  {
    var p, q, r, t := x / 4, x % 4 * 16 + y / 16, y % 16 * 4 + z / 64, z % 64;
    SymbolValue(p);
    SymbolValue(q);
    SymbolValue(r);
    SymbolValue(t);
    FullGroup(EncodeGroup([x, y, z]), p, q, r, t);
    Bits(x, y, z);
  }

  lemma GroupRoundTrip(g: seq<Byte>)
    requires 1 <= |g| <= 3
    ensures DecodeGroup(EncodeGroup(g)) == Some(g)
  {
    if |g| == 1 {
      assert g == [g[0]];
      GroupOne(g[0]);
    } else if |g| == 2 {
      assert g == [g[0], g[1]];
      GroupTwo(g[0], g[1]);
    } else {
      assert g == [g[0], g[1], g[2]];
      GroupThree(g[0], g[1], g[2]);
    }
  }

  lemma {:induction false} GroupsRoundTrip(bs: seq<Byte>)
    ensures DecodeGroups(Encode(bs)) == Some(bs)
    ensures bs != [] ==> |Encode(bs)| >= 4
  {
    if |bs| > 3 {
      GroupsRoundTrip(bs[3..]);
      GroupRoundTrip(bs[..3]);
      FirstGroup(EncodeGroup(bs[..3]), Encode(bs[3..]), bs[..3], bs[3..]);
      assert bs[..3] + bs[3..] == bs;
    } else if bs != [] {
      GroupRoundTrip(bs);
      assert Encode(bs)[..4] == EncodeGroup(bs);
    }
  }

  lemma FirstGroup(g: string, s: string, x: seq<Byte>, y: seq<Byte>)
    requires |g| == 4 && s != "" && |x| == 3 && DecodeGroup(g) == Some(x) && DecodeGroups(s) == Some(y)
    ensures DecodeGroups(g + s) == Some(x + y)
  {}

  lemma {:induction false} EncodeOnOneLine(bs: seq<Byte>)
    ensures WithoutLineBreaks(Encode(bs)) == Encode(bs)
  {
    forall i | 0 <= i < |Encode(bs)| ensures Encode(bs)[i] !in {'\r', '\n'} { EncodeChars(bs, Encode(bs)[i]); }
    NoLineBreaks(Encode(bs));
  }

  lemma {:induction false} EncodeChars(bs: seq<Byte>, c: char)
    requires c in Encode(bs)
    ensures c !in {'\r', '\n'}
  {
    if |bs| > 3 && c in Encode(bs[3..]) { EncodeChars(bs[3..], c); }
  }

  lemma {:induction false} NoLineBreaks(s: string)
    requires forall i | 0 <= i < |s| :: s[i] !in {'\r', '\n'}
    ensures WithoutLineBreaks(s) == s
  {
    if s != "" {
      assert s == [s[0]] + s[1..];
      NoLineBreaks(s[1..]);
    }
  }

  /** Decoding undoes encoding, for all bytes. */
  lemma Base64RoundTrip(bs: seq<Byte>)
    ensures Decode(Encode(bs)) == Some(bs)
  {
    EncodeOnOneLine(bs);
    GroupsRoundTrip(bs);
  }

  lemma {:induction false} EncodeSize(bs: seq<Byte>)
    ensures |Encode(bs)| == (|bs| + 2) / 3 * 4
  {
    if |bs| > 3 {
      EncodeSize(bs[3..]);
      assert (|bs| + 2) / 3 == (|bs[3..]| + 2) / 3 + 1;
    }
  }

  // ------------------------------------------------------------------ block IDs

  predicate Ascii(s: string) { forall i | 0 <= i < |s| :: s[i] < 128 as char }

  predicate ByteString(s: string) { forall i | 0 <= i < |s| :: s[i] < 256 as char }

  function Bytes(s: string): seq<Byte>
    requires ByteString(s)
  {
    seq(|s|, i requires 0 <= i < |s| => s[i] as nat)
  }

  function Text(bs: seq<Byte>): string {
    seq(|bs|, i requires 0 <= i < |bs| => bs[i] as char)
  }

  /** The upload ID without dashes, cut to eight characters. */
  function Prefix(uploadID: string): (p: string)
    ensures |p| <= 8
  {
    var clean := RemoveAll(uploadID, "-");
    if |clean| > 8 then clean[..8] else clean
  }

  /** "%06d". */
  function SixDigits(n: int): (s: string)
    ensures ByteString(s)
  {
    if n >= 0 then Padded(n, 6) else "-" + Padded(-n, 5)
  }

  lemma {:induction false} RemoveAllChars(s: string, p: string, c: char)
    requires p != "" && c in RemoveAll(s, p)
    ensures c in s
    decreases |s|
  {
    var i := Index(s, p);
    if i != -1 {
      if c in RemoveAll(s[i + |p|..], p) { RemoveAllChars(s[i + |p|..], p, c); }
    }
  }

  lemma PrefixIsBytes(uploadID: string)
    requires Ascii(uploadID)
    ensures ByteString(Prefix(uploadID))
  {
    var p := Prefix(uploadID);
    forall i | 0 <= i < |p| ensures p[i] < 256 as char {
      assert p[i] in RemoveAll(uploadID, "-");
      RemoveAllChars(uploadID, "-", p[i]);
    }
  }

  /** What a block ID encodes. */
  function Raw(uploadID: string, n: int): (raw: string)
    requires Ascii(uploadID)
    ensures ByteString(raw)
  {
    PrefixIsBytes(uploadID);
    Prefix(uploadID) + SixDigits(n)
  }

  function AzureBlockID(uploadID: string, n: int): string
    requires Ascii(uploadID)
  {
    Encode(Bytes(Raw(uploadID, n)))
  }

  lemma TextOfBytes(s: string)
    requires ByteString(s)
    ensures Text(Bytes(s)) == s
  {}

  /** A block ID decodes to what it was made of. */
  lemma BlockIDDecodes(uploadID: string, n: int)
    requires Ascii(uploadID)
    ensures Decode(AzureBlockID(uploadID, n)) == Some(Bytes(Raw(uploadID, n)))
    ensures Text(Decode(AzureBlockID(uploadID, n)).value) == Prefix(uploadID) + SixDigits(n)
  {
    Base64RoundTrip(Bytes(Raw(uploadID, n)));
    TextOfBytes(Raw(uploadID, n));
  }

  // ------------------------------------------------------------------ reading part numbers

  function SkipSpaces(s: string): string {
    if s != "" && IsSpace(s[0]) && s[0] != '\n' then SkipSpaces(s[1..]) else s
  }

  /** The characters that "%d" takes for a number. */
  function DigitRun(s: string): (r: string)
    ensures Digits(r)
  {
    if s != "" && IsDigit(s[0]) then [s[0]] + DigitRun(s[1..]) else ""
  }

  const INT64_MAX := 0x7fff_ffff_ffff_ffff

  /** The number that `fmt.Sscanf(s, "%d", &n)` leaves in an `n` of 0. */
  function ScanInt(s: string): int {
    var t := SkipSpaces(s);
    var signed := t != "" && t[0] in {'+', '-'};
    var run := DigitRun(if signed then t[1..] else t);
    if run == "" then 0
    else
      var v := if signed && t[0] == '-' then -(DigitsValue(run) as int) else DigitsValue(run);
      if -INT64_MAX - 1 <= v <= INT64_MAX then v else 0
  }

  lemma {:induction false} DigitRunOfDigits(s: string)
    requires Digits(s)
    ensures DigitRun(s) == s
  {
    if s != "" {
      DigitRunOfDigits(s[1..]);
      assert s == [s[0]] + s[1..];
    }
  }

  lemma ScanDigits(s: string)
    requires Digits(s) && DigitsValue(s) <= INT64_MAX
    ensures ScanInt(s) == DigitsValue(s)
  {
    DigitRunOfDigits(s);
    assert SkipSpaces(s) == s;
  }

  lemma ScanNegative(d: string)
    requires Digits(d) && d != "" && DigitsValue(d) <= INT64_MAX + 1
    ensures ScanInt("-" + d) == -(DigitsValue(d) as int)
  {
    var s := "-" + d;
    assert s[1..] == d && SkipSpaces(s) == s;
    DigitRunOfDigits(d);
  }

  lemma ScanSixDigits(n: int)
    requires -INT64_MAX - 1 <= n <= INT64_MAX
    ensures ScanInt(SixDigits(n)) == n
  {
    if n >= 0 {
      ScanDigits(Padded(n, 6));
    } else {
      ScanNegative(Padded(-n, 5));
    }
  }

  // ------------------------------------------------------------------ the listing

  datatype Block = Block(name: Option<string>, size: Option<int>)
  datatype Part = Part(number: int, etag: string, size: int)

  /** One block of the listing: skipped, or a part, or a slice out of range. */
  datatype Reading = Skipped | Read(part: Part) | Panics

  function ReadBlock(uploadPrefix: string, b: Block): Reading {
    if b.name.None? || Decode(b.name.value).None? then Skipped
    else
      var text := Text(Decode(b.name.value).value);
      if !HasPrefix(text, uploadPrefix) then Skipped
      else if |text| < 8 then Panics
      else Read(Part(ScanInt(text[8..]), b.name.value, if b.size.Some? then b.size.value else 0))
  }

  /** Reading a block whose name decodes to `text`. */
  lemma ReadText(uploadPrefix: string, name: string, size: Option<int>, text: string)
    requires Decode(name).Some? && Text(Decode(name).value) == text
    ensures ReadBlock(uploadPrefix, Block(Some(name), size)) ==
            if !HasPrefix(text, uploadPrefix) then Skipped
            else if |text| < 8 then Panics
            else Read(Part(ScanInt(text[8..]), name, if size.Some? then size.value else 0))
  {}

  /** The parts read from the blocks, unless one of them panics. */
  function PartsOf(uploadPrefix: string, blocks: seq<Block>): Option<seq<Part>> {
    if blocks == [] then Some([])
    else
      match (PartsOf(uploadPrefix, blocks[..|blocks| - 1]), ReadBlock(uploadPrefix, blocks[|blocks| - 1]))
      case (Some(parts), Skipped) => Some(parts)
      case (Some(parts), Read(part)) => Some(parts + [part])
      case _ => None
  }

  lemma {:induction false} PanicsStay(uploadPrefix: string, blocks: seq<Block>, i: nat)
    requires i <= |blocks| && PartsOf(uploadPrefix, blocks[..i]).None?
    ensures PartsOf(uploadPrefix, blocks).None?
  {
    if i < |blocks| {
      var n := |blocks| - 1;
      assert blocks[..n][..i] == blocks[..i];
      PanicsStay(uploadPrefix, blocks[..n], i);
    } else {
      assert blocks[..i] == blocks;
    }
  }

  /** listAzureParts on the blocks of the answer; None is a panic. */
  method ListAzureParts(uploadID: string, blocks: seq<Block>) returns (r: Option<seq<Part>>)
    ensures r == PartsOf(Prefix(uploadID), blocks)
  {
    var uploadPrefix := RemoveAll(uploadID, "-");
    if |uploadPrefix| > 8 {
      uploadPrefix := uploadPrefix[..8];
    }
    var parts := [];
    for i := 0 to |blocks|
      invariant PartsOf(uploadPrefix, blocks[..i]) == Some(parts)
    {
      assert blocks[..i + 1][..i] == blocks[..i];
      var block := blocks[i];
      if block.name.None? { continue; }
      var decoded := Decode(block.name.value);
      if decoded.None? { continue; }
      var decodedStr := Text(decoded.value);
      if !HasPrefix(decodedStr, uploadPrefix) { continue; }
      if |decodedStr| < 8 {
        PanicsStay(uploadPrefix, blocks, i + 1);
        return None;
      }
      var blockSize := 0;
      if block.size.Some? { blockSize := block.size.value; }
      parts := parts + [Part(ScanInt(decodedStr[8..]), block.name.value, blockSize)];
    }
    assert blocks[..|blocks|] == blocks;
    return Some(parts);
  }

  // ------------------------------------------------------------------ reading back what was uploaded

  /** An upload ID that has a full prefix. */
  predicate Long(uploadID: string) { Ascii(uploadID) && |Prefix(uploadID)| == 8 }

  /**
   A block of an upload is listed under another upload's ID exactly when the two share their prefix,
   and then with its own part number.
   */
  lemma BlockReadsBack(u: string, v: string, n: int, size: Option<int>)
    requires Long(u) && Long(v) && -INT64_MAX - 1 <= n <= INT64_MAX
    ensures ReadBlock(Prefix(u), Block(Some(AzureBlockID(v, n)), size)) ==
            if Prefix(u) == Prefix(v) then Read(Part(n, AzureBlockID(v, n), if size.Some? then size.value else 0)) else Skipped
  {
    BlockIDDecodes(v, n);
    ReadText(Prefix(u), AzureBlockID(v, n), size, Prefix(v) + SixDigits(n));
    ScanSixDigits(n);
    FullPrefix(Prefix(u), Prefix(v), SixDigits(n));
  }

  lemma FullPrefix(p: string, q: string, rest: string)
    requires |p| == |q| == 8
    ensures (HasPrefix(q + rest, p) <==> p == q) && (q + rest)[8..] == rest
  {}

  /** Block IDs are equal exactly when prefix and part number are: the rest of the upload ID does not count. */
  lemma BlockIDsEqual(u: string, v: string, n: int, m: int)
    requires Long(u) && Long(v)
    ensures AzureBlockID(u, n) == AzureBlockID(v, m) <==> Prefix(u) == Prefix(v) && n == m
  {
    BlockIDDecodes(u, n);
    BlockIDDecodes(v, m);
    if AzureBlockID(u, n) == AzureBlockID(v, m) {
      var s, t := Prefix(u) + SixDigits(n), Prefix(v) + SixDigits(m);
      assert s == t && s[..8] == Prefix(u) && t[..8] == Prefix(v) && s[8..] == SixDigits(n) && t[8..] == SixDigits(m);
      SixDigitsInjective(n, m);
    }
  }

  lemma SixDigitsInjective(n: int, m: int)
    requires SixDigits(n) == SixDigits(m)
    ensures n == m
  {
    SignOf(n);
    SignOf(m);
    if n < 0 {
      assert SixDigits(n)[1..] == Padded(-n, 5) && SixDigits(m)[1..] == Padded(-m, 5);
    } else {
      assert DigitsValue(SixDigits(n)) == DigitsValue(SixDigits(m));
    }
  }

  lemma SignOf(n: int)
    ensures IsDigit(SixDigits(n)[0]) <==> n >= 0
  {}

  /** All block IDs have the one length that Azure asks for exactly as long as the number fits six places. */
  lemma BlockIDSize(u: string, n: int)
    requires Long(u)
    ensures |Raw(u, n)| == 14 <==> -99999 <= n <= 999999
    ensures |Raw(u, n)| == 14 ==> |AzureBlockID(u, n)| == 20
  {
    SixPlaces(n);
    if |Raw(u, n)| == 14 { EncodedSize(Raw(u, n)); }
  }

  lemma EncodedSize(raw: string)
    requires ByteString(raw) && |raw| == 14
    ensures |Encode(Bytes(raw))| == 20
  {
    EncodeSize(Bytes(raw));
  }

  lemma SixPlaces(n: int)
    ensures |SixDigits(n)| == 6 <==> -99999 <= n <= 999999
  {
    Powers();
    if n >= 0 { PaddedFits(n, 6); } else { PaddedFits(-n, 5); }
  }

  /** A padded number has the width it was padded to exactly when it fits. */
  lemma PaddedFits(n: nat, w: nat)
    requires w >= 1
    ensures |Padded(n, w)| == w <==> n < Pow10(w)
  {
    if n < Pow10(w) {
      PaddedSize(n, w);
    } else {
      DigitsBound(Padded(n, w));
    }
  }

  /** A part that some upload has staged on the blob. */
  datatype Staged = Staged(uploadID: string, number: int, size: int)

  function StagedBlock(p: Staged): Block
    requires Ascii(p.uploadID)
  {
    Block(Some(AzureBlockID(p.uploadID, p.number)), Some(p.size))
  }

  function StagedPart(p: Staged): Part
    requires Ascii(p.uploadID)
  {
    Part(p.number, AzureBlockID(p.uploadID, p.number), p.size)
  }

  predicate Sound(p: Staged) { Long(p.uploadID) && -INT64_MAX - 1 <= p.number <= INT64_MAX }

  /** What a listing under upload ID `u` should make of a staged part. */
  function StagedReading(u: string, p: Staged): Reading
    requires Ascii(p.uploadID)
  {
    if Prefix(p.uploadID) == Prefix(u) then Read(StagedPart(p)) else Skipped
  }

  /** The parts among the readings, in order. */
  function Collected(readings: seq<Reading>): seq<Part> {
    if readings == [] then []
    else
      var last := readings[|readings| - 1];
      Collected(readings[..|readings| - 1]) + if last.Read? then [last.part] else []
  }

  lemma {:induction false} PartsAreCollected(uploadPrefix: string, blocks: seq<Block>, readings: seq<Reading>)
    requires |blocks| == |readings|
    requires forall i | 0 <= i < |blocks| :: ReadBlock(uploadPrefix, blocks[i]) == readings[i] && readings[i] != Panics
    ensures PartsOf(uploadPrefix, blocks) == Some(Collected(readings))
  {
    if blocks != [] {
      var n := |blocks| - 1;
      PartsAreCollected(uploadPrefix, blocks[..n], readings[..n]);
      assert ReadBlock(uploadPrefix, blocks[n]) == readings[n] && readings[n] != Panics;
      match readings[n]
      case Skipped => assert Collected(readings) == Collected(readings[..n]);
      case Read(part) => assert Collected(readings) == Collected(readings[..n]) + [part];
    }
  }

  lemma StagedReadsBack(u: string, p: Staged, b: Block)
    requires Long(u) && Sound(p) && b == StagedBlock(p)
    ensures ReadBlock(Prefix(u), b) == StagedReading(u, p)
  {
    BlockReadsBack(u, p.uploadID, p.number, Some(p.size));
  }

  /**
   Listing an upload's parts gives, in the blob's order and with their numbers, exactly the parts that
   were staged under upload IDs with its prefix.
   */
  lemma ListsStagedParts(u: string, staged: seq<Staged>, blocks: seq<Block>, readings: seq<Reading>)
    requires Long(u) && |blocks| == |staged| == |readings|
    requires forall i | 0 <= i < |staged| ::
               Sound(staged[i]) && blocks[i] == StagedBlock(staged[i]) && readings[i] == StagedReading(u, staged[i])
    ensures PartsOf(Prefix(u), blocks) == Some(Collected(readings))
  {
    forall i | 0 <= i < |blocks| ensures ReadBlock(Prefix(u), blocks[i]) == readings[i] && readings[i] != Panics {
      StagedReadsBack(u, staged[i], blocks[i]);
    }
    PartsAreCollected(Prefix(u), blocks, readings);
  }

  // ------------------------------------------------------------------ short upload IDs

  /** Dropping leading digits keeps the number exactly when the number fits in what is left. */
  lemma SuffixKeeps(s: string, k: nat)
    requires Digits(s) && k <= |s|
    ensures DigitsValue(s[k..]) == DigitsValue(s) <==> DigitsValue(s) < Pow10(|s| - k)
  {
    DigitsSplit(s, k);
    DigitsBound(s[k..]);
    Remainder(DigitsValue(s[..k]), Pow10(|s| - k), DigitsValue(s[k..]));
  }

  lemma Remainder(q: nat, p: nat, r: nat)
    requires r < p
    ensures q * p + r == r <==> q * p + r < p
  {}

  /**
   With an upload ID of fewer than eight characters the listing cuts into the number: with k of them
   it panics for k < 2, and else gives the part number back exactly when it is below 10^(k-2).
   */
  lemma ShortPrefix(u: string, n: nat, size: Option<int>)
    requires Ascii(u) && n <= 999999
    ensures var k, r := |Prefix(u)|, ReadBlock(Prefix(u), Block(Some(AzureBlockID(u, n)), size));
            if k < 2 then r == Panics else r.Read? && (r.part.number == n <==> n < Pow10(k - 2))
  {
    var k, text, digits := |Prefix(u)|, Prefix(u) + SixDigits(n), SixDigits(n);
    BlockIDDecodes(u, n);
    ReadText(Prefix(u), AzureBlockID(u, n), size, text);
    Powers();
    PaddedSize(n, 6);
    assert text[..k] == Prefix(u);
    if k >= 2 {
      assert text[8..] == digits[8 - k..];
      CutNumber(digits, 8 - k);
    }
  }

  /** What is read of a six-digit number whose first `cut` digits are missing. */
  lemma CutNumber(digits: string, cut: nat)
    requires Digits(digits) && |digits| == 6 && cut <= 6
    ensures ScanInt(digits[cut..]) == DigitsValue(digits) <==> DigitsValue(digits) < Pow10(6 - cut)
  {
    SuffixKeeps(digits, cut);
    DigitsBound(digits[cut..]);
    PowGrows(6 - cut, 6);
    Powers();
    ScanDigits(digits[cut..]);
  }

  lemma {:induction false} PowGrows(a: nat, b: nat)
    requires a <= b
    ensures Pow10(a) <= Pow10(b)
  {
    if a < b { PowGrows(a, b - 1); }
  }
}
