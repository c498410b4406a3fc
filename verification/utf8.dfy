/** UTF-8 in and out of the text buffer. */
module Utf8 {
  import opened Rope

  type Byte = bv8

  const CR: CodePoint := 0x0D
  const BOM: CodePoint := 0xFEFF
  const REPLACEMENT: CodePoint := 0xFFFD

  /** Unicode scalar values: up to U+10FFFF, surrogates excluded. */
  predicate Scalar(cp: CodePoint) {
    cp < 0xD800 || 0xE000 <= cp < 0x11_0000
  }

  // ----- encoding (section 3 of RFC 3629) -----

  function Low8(x: CodePoint): Byte {
    (x & 0xFF) as Byte
  }

  function Tail(x: CodePoint): Byte {
    Low8(0x80 | (x & 0x3F))
  }

  function EncodeOne(cp: CodePoint): (r: seq<Byte>)
    ensures 1 <= |r| <= 4
  {
    if cp < 0x80 then [Low8(cp)]
    else if cp < 0x800 then [Low8(0xC0 | (cp >> 6)), Tail(cp)]
    else if cp < 0x1_0000 then [Low8(0xE0 | (cp >> 12)), Tail(cp >> 6), Tail(cp)]
    else [Low8(0xF0 | (cp >> 18)), Tail(cp >> 12), Tail(cp >> 6), Tail(cp)]
  }

  /** What is no scalar value is written as U+FFFD. */
  function Shown(cp: CodePoint): CodePoint {
    if Scalar(cp) then cp else REPLACEMENT
  }

  function Encode(cps: seq<CodePoint>): seq<Byte> {
    if cps == [] then [] else EncodeOne(Shown(cps[0])) + Encode(cps[1..])
  }

  /** Surrogates and what is past U+10FFFF are written as the three bytes of U+FFFD, and nothing
      else is but U+FFFD itself. */
  lemma ReplacedExactly(cp: CodePoint)
    ensures EncodeOne(Shown(cp)) == [0xEF, 0xBF, 0xBD] <==> cp == 0xFFFD || 0xD800 <= cp <= 0xDFFF || cp > 0x10_FFFF
  {
    if EncodeOne(Shown(cp)) == [0xEF, 0xBF, 0xBD] {
      ThreeBytes(Shown(cp));
    }
  }

  lemma ThreeBytes(cp: CodePoint)
    requires EncodeOne(cp) == [0xEF, 0xBF, 0xBD]
    ensures cp == 0xFFFD
  {
  }

  // ----- decoding -----

  predicate IsTail(b: Byte) {
    b & 0xC0 == 0x80
  }

  function Wide(b: Byte, mask: Byte): CodePoint {
    (b & mask) as CodePoint
  }

  /** The code point at the start of the bytes, and how many bytes it takes. Line ends become
      a newline; a sequence that is not UTF-8 becomes U+FFFD and takes one byte. */
  function DecodeOne(u: seq<Byte>): (r: (CodePoint, nat))
    requires u != []
    ensures 1 <= r.1 <= |u|
  {
    var b := u[0];
    if b == 0x0D then (NEWLINE, if |u| > 1 && u[1] == 0x0A then 2 else 1)
    else if b < 0x80 then (b as CodePoint, 1)
    else if b & 0xE0 == 0xC0 then
      if |u| > 1 && IsTail(u[1]) then ((Wide(b, 0x1F) << 6) | Wide(u[1], 0x3F), 2) else (REPLACEMENT, 1)
    else if b & 0xF0 == 0xE0 then
      if |u| > 2 && IsTail(u[1]) && IsTail(u[2])
      then ((Wide(b, 0x0F) << 12) | (Wide(u[1], 0x3F) << 6) | Wide(u[2], 0x3F), 3)
      else (REPLACEMENT, 1)
    else if b & 0xF8 == 0xF0 then
      if |u| > 3 && IsTail(u[1]) && IsTail(u[2]) && IsTail(u[3])
      then ((Wide(b, 0x07) << 18) | (Wide(u[1], 0x3F) << 12) | (Wide(u[2], 0x3F) << 6) | Wide(u[3], 0x3F), 4)
      else (REPLACEMENT, 1)
    else (REPLACEMENT, 1)
  }

  // ----- what is not UTF-8 -----

  predicate Continues(b: Byte) {
    0x80 <= b <= 0xBF
  }

  /** The bytes start with a character: a byte below 0x80, or a lead byte and as many
      continuation bytes as it announces. */
  predicate StartsComplete(u: seq<Byte>)
    requires u != []
  {
    || u[0] < 0x80
    || (0xC0 <= u[0] <= 0xDF && |u| >= 2 && Continues(u[1]))
    || (0xE0 <= u[0] <= 0xEF && |u| >= 3 && Continues(u[1]) && Continues(u[2]))
    || (0xF0 <= u[0] <= 0xF7 && |u| >= 4 && Continues(u[1]) && Continues(u[2]) && Continues(u[3]))
  }

  lemma TailIs(b: Byte)
    ensures IsTail(b) <==> Continues(b)
  {
  }

  lemma LeadIs(b: Byte)
    ensures b & 0xE0 == 0xC0 <==> 0xC0 <= b <= 0xDF
    ensures b & 0xF0 == 0xE0 <==> 0xE0 <= b <= 0xEF
    ensures b & 0xF8 == 0xF0 <==> 0xF0 <= b <= 0xF7
  {
  }

  /** Bytes that start with no character give U+FFFD for one byte, and no others do; a
      character takes one byte, the two of CR LF, or as many as its lead byte announces. */
  lemma MalformedExactly(u: seq<Byte>)
    requires u != []
    ensures !StartsComplete(u) <==> DecodeOne(u) == (0xFFFD, 1)
    ensures StartsComplete(u) ==>
              DecodeOne(u).1 == if u[0] == 0x0D && |u| >= 2 && u[1] == 0x0A then 2
                                else if u[0] < 0x80 then 1 else if u[0] <= 0xDF then 2
                                else if u[0] <= 0xEF then 3 else 4
  {
    hide IsTail, Continues, Wide;
    LeadIs(u[0]);
    AsciiIs(u[0]);
    if |u| > 1 {
      TailIs(u[1]);
    }
    if |u| > 2 {
      TailIs(u[2]);
    }
    if |u| > 3 {
      TailIs(u[3]);
    }
  }

  lemma AsciiIs(b: Byte)
    ensures b < 0x80 ==> b as CodePoint != 0xFFFD
  {
  }

  function DecodeRest(u: seq<Byte>): seq<CodePoint>
    decreases |u|
  {
    if u == [] then []
    else
      var (cp, n) := DecodeOne(u);
      [cp] + DecodeRest(u[n..])
  }

  predicate StartsWithBom(u: seq<Byte>) {
    |u| >= 3 && u[0] == 0xEF && u[1] == 0xBB && u[2] == 0xBF
  }

  function Decode(u: seq<Byte>): seq<CodePoint> {
    DecodeRest(if StartsWithBom(u) then u[3..] else u)
  }

  method DecodeBytes(utf8: seq<Byte>) returns (result: seq<CodePoint>)
    ensures result == Decode(utf8)
  {
    hide DecodeOne;
    result := [];
    var i := if StartsWithBom(utf8) then 3 else 0;
    assert utf8[0..] == utf8;
    while i < |utf8|
      invariant 0 <= i <= |utf8|
      invariant result + DecodeRest(utf8[i..]) == Decode(utf8)
    {
      var (cp, n) := DecodeOne(utf8[i..]);
      assert utf8[i..][n..] == utf8[i + n..];
      result := result + [cp];
      i := i + n;
    }
    assert utf8[i..] == [];
  }

  // ----- decoding undoes encoding -----

  lemma DecodeOneByte(cp: CodePoint)
    requires cp < 0x80
    ensures Low8(cp) < 0x80 && (Low8(cp) as CodePoint) == cp && (Low8(cp) == 0x0D <==> cp == CR)
    ensures Low8(cp) == 0x0A <==> cp == NEWLINE
  {
  }

  lemma DecodeTwoBytes(cp: CodePoint)
    requires 0x80 <= cp < 0x800
    ensures var b, c := Low8(0xC0 | (cp >> 6)), Tail(cp);
            b >= 0x80 && b & 0xE0 == 0xC0 && IsTail(c) && (Wide(b, 0x1F) << 6) | Wide(c, 0x3F) == cp
  {
  }

  lemma DecodeThreeBytes(cp: CodePoint)
    requires 0x800 <= cp < 0x1_0000
    ensures var b, c, d := Low8(0xE0 | (cp >> 12)), Tail(cp >> 6), Tail(cp);
            b >= 0x80 && b & 0xE0 != 0xC0 && b & 0xF0 == 0xE0 && IsTail(c) && IsTail(d)
            && (Wide(b, 0x0F) << 12) | (Wide(c, 0x3F) << 6) | Wide(d, 0x3F) == cp
            && (b == 0xEF && c == 0xBB && d == 0xBF <==> cp == BOM)
  {
  }

  lemma DecodeFourBytes(cp: CodePoint)
    requires 0x1_0000 <= cp < 0x11_0000
    ensures var b, c, d, e := Low8(0xF0 | (cp >> 18)), Tail(cp >> 12), Tail(cp >> 6), Tail(cp);
            b >= 0x80 && b != 0xEF && b & 0xE0 != 0xC0 && b & 0xF0 != 0xE0 && b & 0xF8 == 0xF0
            && IsTail(c) && IsTail(d) && IsTail(e)
            && (Wide(b, 0x07) << 18) | (Wide(c, 0x3F) << 12) | (Wide(d, 0x3F) << 6) | Wide(e, 0x3F) == cp
  {
  }

  predicate AllScalar(cps: seq<CodePoint>) {
    forall k | 0 <= k < |cps| :: Scalar(cps[k])
  }

  /** Line ends as the decoder writes them. */
  function Normal(cps: seq<CodePoint>): seq<CodePoint>
    decreases |cps|
  {
    if cps == [] then []
    else if cps[0] != CR then [cps[0]] + Normal(cps[1..])
    else [NEWLINE] + Normal(if |cps| > 1 && cps[1] == NEWLINE then cps[2..] else cps[1..])
  }

  function DropBom(cps: seq<CodePoint>): seq<CodePoint> {
    if cps != [] && cps[0] == BOM then cps[1..] else cps
  }

  /** The first bytes of an encoded code point decide its form. */
  lemma FirstByte(cp: CodePoint)
    requires Scalar(cp)
    ensures var e := EncodeOne(cp);
            (e[0] == 0x0D <==> cp == CR) && (e[0] == 0x0A <==> cp == NEWLINE)
            && (cp == BOM ==> |e| == 3) && (e[0] == 0xEF ==> |e| == 3)
            && (|e| == 3 ==> (e[0] == 0xEF && e[1] == 0xBB && e[2] == 0xBF <==> cp == BOM))
  {
    if cp < 0x80 {
      DecodeOneByte(cp);
    } else if cp < 0x800 {
      DecodeTwoBytes(cp);
    } else if cp < 0x1_0000 {
      DecodeThreeBytes(cp);
    } else {
      DecodeFourBytes(cp);
    }
  }

  lemma DecodeForms(b: Byte, c: Byte, d: Byte, e: Byte, rest: seq<Byte>)
    requires b >= 0x80
    ensures b & 0xE0 == 0xC0 && IsTail(c) ==>
              DecodeOne([b, c] + rest) == ((Wide(b, 0x1F) << 6) | Wide(c, 0x3F), 2)
    ensures b & 0xE0 != 0xC0 && b & 0xF0 == 0xE0 && IsTail(c) && IsTail(d) ==>
              DecodeOne([b, c, d] + rest) == ((Wide(b, 0x0F) << 12) | (Wide(c, 0x3F) << 6) | Wide(d, 0x3F), 3)
    ensures b & 0xE0 != 0xC0 && b & 0xF0 != 0xE0 && b & 0xF8 == 0xF0 && IsTail(c) && IsTail(d) && IsTail(e) ==>
              DecodeOne([b, c, d, e] + rest)
              == ((Wide(b, 0x07) << 18) | (Wide(c, 0x3F) << 12) | (Wide(d, 0x3F) << 6) | Wide(e, 0x3F), 4)
  {
    hide Wide, IsTail;
  }

  lemma DecodeAscii(b: Byte, rest: seq<Byte>)
    requires b < 0x80 && b != 0x0D
    ensures DecodeOne([b] + rest) == (b as CodePoint, 1)
  {
  }

  lemma EncodedTwo(cp: CodePoint, rest: seq<Byte>)
    requires 0x80 <= cp < 0x800
    ensures DecodeOne(EncodeOne(cp) + rest) == (cp, 2) && |EncodeOne(cp)| == 2
  {
    hide Low8, Tail, Wide, IsTail, DecodeOne;
    DecodeTwoBytes(cp);
    DecodeForms(Low8(0xC0 | (cp >> 6)), Tail(cp), 0, 0, rest);
  }

  lemma EncodedThree(cp: CodePoint, rest: seq<Byte>)
    requires 0x800 <= cp < 0x1_0000
    ensures DecodeOne(EncodeOne(cp) + rest) == (cp, 3) && |EncodeOne(cp)| == 3
  {
    hide Low8, Tail, Wide, IsTail, DecodeOne;
    DecodeThreeBytes(cp);
    DecodeForms(Low8(0xE0 | (cp >> 12)), Tail(cp >> 6), Tail(cp), 0, rest);
  }

  lemma EncodedFour(cp: CodePoint, rest: seq<Byte>)
    requires 0x1_0000 <= cp < 0x11_0000
    ensures DecodeOne(EncodeOne(cp) + rest) == (cp, 4) && |EncodeOne(cp)| == 4
  {
    hide Low8, Tail, Wide, IsTail, DecodeOne;
    DecodeFourBytes(cp);
    DecodeForms(Low8(0xF0 | (cp >> 18)), Tail(cp >> 12), Tail(cp >> 6), Tail(cp), rest);
  }

  lemma EncodedAscii(cp: CodePoint, rest: seq<Byte>)
    requires cp < 0x80 && cp != CR
    ensures DecodeOne(EncodeOne(cp) + rest) == (cp, 1) && |EncodeOne(cp)| == 1
  {
    hide Low8, Tail, Wide, IsTail, DecodeOne;
    DecodeOneByte(cp);
    DecodeAscii(Low8(cp), rest);
  }

  /** One code point, not CR, decodes back from its bytes, whatever follows. */
  lemma DecodeEncodedOne(cp: CodePoint, rest: seq<Byte>)
    requires Scalar(cp) && cp != CR
    ensures DecodeOne(EncodeOne(cp) + rest) == (cp, |EncodeOne(cp)|)
  {
    hide EncodeOne, DecodeOne;
    if cp < 0x80 {
      EncodedAscii(cp, rest);
    } else if cp < 0x800 {
      EncodedTwo(cp, rest);
    } else if cp < 0x1_0000 {
      EncodedThree(cp, rest);
    } else {
      EncodedFour(cp, rest);
    }
  }

  lemma EncodeHead(cps: seq<CodePoint>)
    requires cps != [] && AllScalar(cps)
    ensures Encode(cps) == EncodeOne(cps[0]) + Encode(cps[1..]) && AllScalar(cps[1..]) && Scalar(cps[0])
    ensures Encode(cps) != [] && (Encode(cps)[0] == 0x0A <==> cps[0] == NEWLINE)
  {
    hide EncodeOne;
    FirstByte(cps[0]);
  }

  /** Decoding the bytes of scalar values gives them back, line ends normalised. */
  lemma {:induction false} DecodeEncoded(cps: seq<CodePoint>)
    requires AllScalar(cps)
    ensures DecodeRest(Encode(cps)) == Normal(cps)
    decreases |cps|
  {
    hide EncodeOne, DecodeOne, AllScalar;
    if cps != [] {
      var e, rest := EncodeOne(cps[0]), Encode(cps[1..]);
      EncodeHead(cps);
      if cps[0] != CR {
        DecodeEncodedOne(cps[0], rest);
        DecodeEncoded(cps[1..]);
        assert (e + rest)[|e|..] == rest;
      } else {
        DecodeCr(cps);
        if |cps| > 1 && cps[1] == NEWLINE {
          EncodeHead(cps[1..]);
          assert cps[1..][1..] == cps[2..];
          DecodeEncoded(cps[2..]);
        } else {
          DecodeEncoded(cps[1..]);
        }
      }
    }
  }

  /** CR takes a newline after it along. */
  lemma DecodeCr(cps: seq<CodePoint>)
    requires cps != [] && AllScalar(cps) && cps[0] == CR
    ensures var u := Encode(cps);
            var both := |cps| > 1 && cps[1] == NEWLINE;
            DecodeOne(u) == (NEWLINE, if both then 2 else 1)
            && (|cps| > 1 ==> AllScalar(cps[1..][1..]))
            && u[if both then 2 else 1..] == Encode(if both then cps[2..] else cps[1..])
  {
    hide DecodeOne;
    EncodeHead(cps);
    var rest := Encode(cps[1..]);
    CrByte();
    assert Encode(cps) == [0x0D] + rest;
    if |cps| > 1 {
      EncodeHead(cps[1..]);
      if cps[1] == NEWLINE {
        assert cps[1..][1..] == cps[2..];
        assert rest == [0x0A] + Encode(cps[2..]);
        assert Encode(cps)[2..] == Encode(cps[2..]);
      }
    }
    DecodeCrByte(rest);
  }

  lemma CrByte()
    ensures EncodeOne(CR) == [0x0D] && EncodeOne(NEWLINE) == [0x0A]
  {
  }

  lemma DecodeCrByte(rest: seq<Byte>)
    ensures DecodeOne([0x0D] + rest) == (NEWLINE, if rest != [] && rest[0] == 0x0A then 2 else 1)
  {
  }

  /** Decoding what was encoded: a leading U+FEFF goes, line ends are normalised, nothing else
      changes. */
  lemma EncodeDecode(cps: seq<CodePoint>)
    requires AllScalar(cps)
    ensures Decode(Encode(cps)) == Normal(DropBom(cps))
  {
    hide EncodeOne, DecodeRest, Normal;
    if cps != [] {
      EncodeHead(cps);
      var e, rest := EncodeOne(cps[0]), Encode(cps[1..]);
      FirstByte(cps[0]);
      DecodeEncoded(cps);
      DecodeEncoded(cps[1..]);
      if cps[0] == BOM {
        assert (e + rest)[3..] == rest;
      } else {
        NoBom(cps[0], rest);
      }
    } else {
      DecodeEncoded(cps);
    }
  }

  lemma NoBom(cp: CodePoint, rest: seq<Byte>)
    requires Scalar(cp) && cp != BOM
    ensures !StartsWithBom(EncodeOne(cp) + rest)
  {
    hide EncodeOne;
    FirstByte(cp);
  }

  lemma {:induction false} NormalKeeps(cps: seq<CodePoint>)
    ensures |Normal(cps)| <= |cps| && (forall k | 0 <= k < |Normal(cps)| :: Normal(cps)[k] != CR)
    ensures (forall k | 0 <= k < |cps| :: cps[k] != CR) ==> Normal(cps) == cps
    decreases |cps|
  {
    if cps != [] {
      var rest := if cps[0] == CR && |cps| > 1 && cps[1] == NEWLINE then cps[2..] else cps[1..];
      NormalKeeps(rest);
      assert cps == [cps[0]] + cps[1..];
    }
  }

  /** The bytes decode to the same text exactly when it has no CR and does not start with
      U+FEFF. */
  lemma RoundTripExactly(cps: seq<CodePoint>)
    requires AllScalar(cps)
    ensures Decode(Encode(cps)) == cps
       <==> (forall k | 0 <= k < |cps| :: cps[k] != CR) && (cps == [] || cps[0] != BOM)
  {
    EncodeDecode(cps);
    NormalKeeps(DropBom(cps));
  }
}
