/**
 Unpadded base64url (RFC 4648 section 5) as the Go backend and the C++ client use it. Both sides
 accept a segment by decoding it leniently and comparing the re-encoding; the proof builder
 instead inspects the characters. The lemmas show that all three are the same test.
 */
module Base64Url {
  import opened Prelude

  type Sextet = x: int | 0 <= x < 64

  /** `base64UrlValue`: the 6-bit value of an alphabet character, -1 for any other. */
  function DigitValue(c: char): (v: int)
    ensures -1 <= v < 64
  {
    if 'A' <= c <= 'Z' then c as int - 'A' as int
    else if 'a' <= c <= 'z' then 26 + c as int - 'a' as int
    else if '0' <= c <= '9' then 52 + c as int - '0' as int
    else if c == '-' then 62
    else if c == '_' then 63
    else -1
  }

  function Digit(v: Sextet): (c: char)
    ensures DigitValue(c) == v
  {
    if v < 26 then 'A' + v as char
    else if v < 52 then 'a' + (v - 26) as char
    else if v < 62 then '0' + (v - 52) as char
    else if v == 62 then '-'
    else '_'
  }

  ghost predicate AllDigits(s: string) {
    forall i :: 0 <= i < |s| ==> DigitValue(s[i]) >= 0
  }

  function Text(v: seq<Sextet>): (s: string)
    ensures |s| == |v| && AllDigits(s)
  {
    seq(|v|, i requires 0 <= i < |v| => Digit(v[i]))
  }

  function Values(s: string): (v: seq<Sextet>)
    requires AllDigits(s)
    ensures |v| == |s|
  {
    seq(|s|, i requires 0 <= i < |s| => DigitValue(s[i]))
  }

  /** Three bytes as four 6-bit values. */
  function Quad(a: Byte, b: Byte, c: Byte): seq<Sextet> {
    [a / 4, a % 4 * 16 + b / 16, b % 16 * 4 + c / 64, c % 64]
  }

  /** Four 6-bit values as three bytes. */
  function Triple(v: Sextet, w: Sextet, x: Sextet, y: Sextet): seq<Byte> {
    [v * 4 + w / 16, w % 16 * 16 + x / 4, x % 4 * 64 + y]
  }

  /** A final group of one or two bytes is padded with zero bits and cut to the values it needs. */
  function ToSextets(b: seq<Byte>): (v: seq<Sextet>)
    ensures |v| == (4 * |b| + 2) / 3
  {
    if |b| == 0 then []
    else if |b| == 1 then Quad(b[0], 0, 0)[..2]
    else if |b| == 2 then Quad(b[0], b[1], 0)[..3]
    else Quad(b[0], b[1], b[2]) + ToSextets(b[3..])
  }

  /** The bytes carried by 6-bit values; surplus low bits of the last value are dropped. */
  function FromSextets(v: seq<Sextet>): seq<Byte> {
    if |v| < 2 then []
    else if |v| == 2 then Triple(v[0], v[1], 0, 0)[..1]
    else if |v| == 3 then Triple(v[0], v[1], v[2], 0)[..2]
    else Triple(v[0], v[1], v[2], v[3]) + FromSextets(v[4..])
  }

  function Encode(b: seq<Byte>): (s: string)
    ensures AllDigits(s)
    ensures |s| == (4 * |b| + 2) / 3
  {
    Text(ToSextets(b))
  }

  /** `canonicalBase64UrlSegment`: alphabet, length and zero pad bits, read off the characters. */
  ghost predicate Canonical(s: string) {
    s != "" && AllDigits(s) && CleanTail(Values(s))
  }

  predicate CleanTail(v: seq<Sextet>)
    requires v != []
  {
    && |v| % 4 != 1
    && (|v| % 4 == 2 ==> v[|v| - 1] % 16 == 0)
    && (|v| % 4 == 3 ==> v[|v| - 1] % 4 == 0)
  }

  /** The client's character loop. */
  method CanonicalSegment(s: string) returns (ok: bool)
    ensures ok <==> Canonical(s)
  {
    if s == "" || |s| % 4 == 1 {
      return false;
    }
    for i := 0 to |s|
      invariant forall j :: 0 <= j < i ==> DigitValue(s[j]) >= 0
    {
      if DigitValue(s[i]) < 0 {
        return false;
      }
    }
    var finalValue := DigitValue(s[|s| - 1]);
    if |s| % 4 == 2 && finalValue % 16 != 0 {
      return false;
    }
    if |s| % 4 == 3 && finalValue % 4 != 0 {
      return false;
    }
    return true;
  }

  // ---- The two lenient decoders of the standard libraries ----

  /** The characters of `s` that satisfy `keep`, in order. */
  function Keep(s: string, keep: char -> bool): string {
    if s == "" then "" else (if keep(s[0]) then [s[0]] else "") + Keep(s[1..], keep)
  }

  predicate NoLineBreak(c: char) { c != '\r' && c != '\n' }

  predicate IsDigit(c: char) { DigitValue(c) >= 0 }

  /** Go's `RawURLEncoding.DecodeString`: line breaks are skipped, surplus bits are ignored. */
  function GoDecode(s: string): Option<seq<Byte>> {
    var t := Keep(s, NoLineBreak);
    if (forall i :: 0 <= i < |t| ==> IsDigit(t[i])) && |t| % 4 != 1 then Some(FromSextets(Values(t))) else None
  }

  /** Qt's `fromBase64` with `Base64UrlEncoding`: every foreign character is skipped. */
  function QtDecode(s: string): seq<Byte> {
    KeepAll(s, IsDigit);
    FromSextets(Values(Keep(s, IsDigit)))
  }

  /** `decodeTokenSegment` of the backend. */
  function GoSegment(s: string): Option<seq<Byte>> {
    match GoDecode(s)
    case Some(b) => if Encode(b) == s then Some(b) else None
    case None => None
  }

  /** `decodeCanonicalBase64Url` of the client. */
  function QtSegment(s: string): Option<seq<Byte>> {
    if s == "" || '=' in s || '+' in s || '/' in s then None
    else
      var b := QtDecode(s);
      if b == [] || Encode(b) != s then None else Some(b)
  }

  // ---- What an encoding is ----

  /** The alphabet of RFC 4648 section 5 by code points: capitals, small letters, digits, hyphen, underscore. */
  lemma Alphabet(v: Sextet)
    ensures Digit(v) as int
         == if v < 26 then 65 + v else if v < 52 then 97 + (v - 26) else if v < 62 then 48 + (v - 52)
            else if v == 62 then 45 else 95
  {
  }

  /** The element at `i`, zero behind the end. */
  ghost function At(values: seq<int>, i: nat): int {
    if i < |values| then values[i] else 0
  }

  /** Group `k` of three bytes and of four 6-bit values are the same 24 bits. */
  ghost predicate SameBits(b: seq<int>, v: seq<int>, k: nat) {
    0x1_0000 * At(b, 3 * k) + 0x100 * At(b, 3 * k + 1) + At(b, 3 * k + 2)
    == 0x4_0000 * At(v, 4 * k) + 0x1000 * At(v, 4 * k + 1) + 0x40 * At(v, 4 * k + 2) + At(v, 4 * k + 3)
  }

  lemma QuadBits(a: Byte, b: Byte, c: Byte)
    ensures var q := Quad(a, b, c);
            && |q| == 4
            && 0x1_0000 * (a as int) + 0x100 * (b as int) + c as int
               == 0x4_0000 * (q[0] as int) + 0x1000 * (q[1] as int) + 0x40 * (q[2] as int) + q[3] as int
    ensures c == 0 ==> Quad(a, b, c)[3] == 0
    ensures b == c == 0 ==> Quad(a, b, c)[2] == 0
  {
  }

  /** The first four 6-bit values are those of the first three bytes, zero for each that is missing. */
  lemma FirstSextets(b: seq<Byte>)
    requires b != []
    ensures var q := Quad(b[0], if |b| > 1 then b[1] else 0, if |b| > 2 then b[2] else 0);
            |q| == 4 && forall i :: 0 <= i < 4 ==> At(ToSextets(b), i) == q[i]
  {
    hide Quad;
    QuadBits(b[0], if |b| > 1 then b[1] else 0, if |b| > 2 then b[2] else 0);
  }

  lemma FirstBits(b: seq<Byte>)
    ensures SameBits(b, ToSextets(b), 0)
  {
    if b != [] {
      hide Quad, ToSextets;
      FirstSextets(b);
      QuadBits(b[0], if |b| > 1 then b[1] else 0, if |b| > 2 then b[2] else 0);
    }
  }

  lemma AtBehind(s: seq<int>, n: nat, i: nat)
    requires n <= |s| && n <= i
    ensures At(s, i) == At(s[n..], i - n)
  {
  }

  lemma LaterBits(b: seq<int>, v: seq<int>, k: nat)
    requires k > 0 && |b| >= 3 && |v| >= 4 && SameBits(b[3..], v[4..], k - 1)
    ensures SameBits(b, v, k)
  {
    hide At;
    AtBehind(b, 3, 3 * k);
    AtBehind(b, 3, 3 * k + 1);
    AtBehind(b, 3, 3 * k + 2);
    AtBehind(v, 4, 4 * k);
    AtBehind(v, 4, 4 * k + 1);
    AtBehind(v, 4, 4 * k + 2);
    AtBehind(v, 4, 4 * k + 3);
  }

  lemma NextGroup(b: seq<Byte>)
    requires |b| >= 3
    ensures |ToSextets(b)| >= 4 && ToSextets(b)[4..] == ToSextets(b[3..])
  {
    assert ToSextets(b) == Quad(b[0], b[1], b[2]) + ToSextets(b[3..]);
  }

  lemma NoBits(b: seq<Byte>, k: nat)
    requires |b| < 3 && k > 0
    ensures SameBits(b, ToSextets(b), k)
  {
  }

  lemma {:induction false} SextetBits(b: seq<Byte>, k: nat)
    ensures SameBits(b, ToSextets(b), k)
  {
    hide ToSextets, SameBits;
    if k == 0 {
      FirstBits(b);
    } else if |b| < 3 {
      NoBits(b, k);
    } else {
      NextGroup(b);
      SextetBits(b[3..], k - 1);
      LaterBits(b, ToSextets(b), k);
    }
  }

  /** Every character of an encoding carries six bits of the bytes, in order; zero bits fill up the last one. */
  lemma EncodedBits(b: seq<Byte>)
    ensures exists v: seq<Sextet> ::
              && |Encode(b)| == |v|
              && (forall k :: 0 <= k < |v| ==> Encode(b)[k] == Digit(v[k]))
              && forall k: nat :: SameBits(b, v, k)
  {
    var v := ToSextets(b);
    forall k: nat ensures SameBits(b, v, k) {
      SextetBits(b, k);
    }
    assert forall k :: 0 <= k < |v| ==> Encode(b)[k] == Digit(v[k]);
  }

  // ---- Round trips ----

  lemma TripleOfQuad(a: Byte, b: Byte, c: Byte)
    ensures var q := Quad(a, b, c); Triple(q[0], q[1], q[2], q[3]) == [a, b, c]
  {
  }

  lemma QuadOfTriple(v: Sextet, w: Sextet, x: Sextet, y: Sextet)
    ensures var t := Triple(v, w, x, y); Quad(t[0], t[1], t[2]) == [v, w, x, y]
  {
    MiddleSextet(v, w, x);
    ThirdSextet(w, x, y);
  }

  lemma ThirdSextet(w: Sextet, x: Sextet, y: Sextet)
    ensures (w % 16 * 16 + x / 4) % 16 * 4 + (x % 4 * 64 + y) / 64 == x
  {
  }

  lemma MiddleSextet(v: Sextet, w: Sextet, x: Sextet)
    ensures (v * 4 + w / 16) % 4 * 16 + (w % 16 * 16 + x / 4) / 16 == w
  {
  }

  lemma {:induction false} SextetsOfBytes(b: seq<Byte>)
    ensures FromSextets(ToSextets(b)) == b
  {
    if |b| == 1 {
      TripleOfQuad(b[0], 0, 0);
    } else if |b| == 2 {
      TripleOfQuad(b[0], b[1], 0);
    } else if |b| > 2 {
      TripleOfQuad(b[0], b[1], b[2]);
      SextetsOfBytes(b[3..]);
      assert ToSextets(b)[4..] == ToSextets(b[3..]);
    }
  }

  lemma TailOfConcat(q: seq<Sextet>, v: seq<Sextet>)
    requires |q| == 4 && v != []
    ensures CleanTail(q + v) <==> CleanTail(v)
  {
    assert (q + v)[|q + v| - 1] == v[|v| - 1];
  }

  lemma {:induction false} SextetsAreClean(b: seq<Byte>)
    requires b != []
    ensures CleanTail(ToSextets(b))
  {
    if |b| > 3 {
      SextetsAreClean(b[3..]);
      TailOfConcat(Quad(b[0], b[1], b[2]), ToSextets(b[3..]));
    }
  }

  lemma {:induction false} BytesOfSextets(v: seq<Sextet>)
    requires v == [] || CleanTail(v)
    ensures ToSextets(FromSextets(v)) == v
    ensures v != [] ==> FromSextets(v) != []
  {
    if |v| == 2 {
      QuadOfTriple(v[0], v[1], 0, 0);
    } else if |v| == 3 {
      QuadOfTriple(v[0], v[1], v[2], 0);
    } else if |v| > 3 {
      QuadOfTriple(v[0], v[1], v[2], v[3]);
      if |v| > 4 {
        assert v == v[..4] + v[4..];
        TailOfConcat(v[..4], v[4..]);
      }
      BytesOfSextets(v[4..]);
      assert FromSextets(v)[3..] == FromSextets(v[4..]);
    }
  }

  lemma ValuesOfText(v: seq<Sextet>)
    ensures Values(Text(v)) == v
  {
  }

  lemma TextOfValues(s: string)
    requires AllDigits(s)
    ensures Text(Values(s)) == s
  {
    forall i | 0 <= i < |s| ensures Digit(DigitValue(s[i])) == s[i] {
      DigitOfValue(s[i]);
    }
  }

  lemma DigitOfValue(c: char)
    requires DigitValue(c) >= 0
    ensures Digit(DigitValue(c)) == c
  {
  }

  /** Decoding undoes encoding. */
  lemma DecodeEncode(b: seq<Byte>)
    ensures FromSextets(Values(Encode(b))) == b
  {
    ValuesOfText(ToSextets(b));
    SextetsOfBytes(b);
  }

  lemma EncodeInjective(a: seq<Byte>, b: seq<Byte>)
    requires Encode(a) == Encode(b)
    ensures a == b
  {
    DecodeEncode(a);
    DecodeEncode(b);
  }

  /** A segment that passes the character test is the encoding of what it decodes to. */
  lemma EncodeDecode(s: string)
    requires Canonical(s)
    ensures FromSextets(Values(s)) != [] && Encode(FromSextets(Values(s))) == s
  {
    BytesOfSextets(Values(s));
    TextOfValues(s);
  }

  lemma EncodeIsCanonical(b: seq<Byte>)
    requires b != []
    ensures Canonical(Encode(b))
  {
    ValuesOfText(ToSextets(b));
    SextetsAreClean(b);
  }

  /** No alphabet character is one that a lenient decoder treats specially. */
  lemma DigitsAreOrdinary(s: string)
    requires AllDigits(s)
    ensures '=' !in s && '+' !in s && '/' !in s && '\r' !in s && '\n' !in s && '.' !in s
  {
  }

  lemma {:induction false} KeepAll(s: string, keep: char -> bool)
    ensures forall i :: 0 <= i < |Keep(s, keep)| ==> keep(Keep(s, keep)[i])
    ensures (forall i :: 0 <= i < |s| ==> keep(s[i])) ==> Keep(s, keep) == s
  {
    if s != "" {
      KeepAll(s[1..], keep);
    }
  }

  /** The syntactic test holds exactly for encodings of non-empty byte strings. */
  lemma CanonicalIffEncoding(s: string)
    ensures Canonical(s) <==> exists b: seq<Byte> :: b != [] && s == Encode(b)
  {
    if Canonical(s) {
      EncodeDecode(s);
    }
    forall b: seq<Byte> | b != [] && s == Encode(b) ensures Canonical(s) {
      EncodeIsCanonical(b);
    }
  }

  /** On alphabet characters the lenient decoders skip nothing. */
  lemma LenientOnDigits(s: string)
    requires AllDigits(s)
    ensures QtDecode(s) == FromSextets(Values(s))
    ensures |s| % 4 != 1 ==> GoDecode(s) == Some(FromSextets(Values(s)))
  {
    DigitsAreOrdinary(s);
    KeepAll(s, NoLineBreak);
    KeepAll(s, IsDigit);
  }

  lemma EncodedLength(n: nat)
    ensures (4 * n + 2) / 3 % 4 != 1
  {
    var q, r := n / 3, n % 3;
    assert (4 * n + 2) / 3 == 4 * q + (4 * r + 2) / 3;
  }

  lemma LenientOnEncoding(b: seq<Byte>)
    ensures GoDecode(Encode(b)) == Some(b) && QtDecode(Encode(b)) == b
  {
    var s := Encode(b);
    assert |s| % 4 != 1 by {
      EncodedLength(|b|);
    }
    LenientOnDigits(s);
    assert FromSextets(Values(s)) == b by {
      DecodeEncode(b);
    }
  }

  /** The backend's decode-and-compare test succeeds exactly on encodings, the empty one included. */
  lemma GoSegmentExact(s: string, b: seq<Byte>)
    ensures GoSegment(s) == Some(b) <==> s == Encode(b)
  {
    LenientOnEncoding(b);
  }

  /** The client's decode-and-compare test succeeds exactly on encodings of non-empty strings. */
  lemma QtSegmentExact(s: string, b: seq<Byte>)
    ensures QtSegment(s) == Some(b) <==> b != [] && s == Encode(b)
  {
    LenientOnEncoding(b);
    DigitsAreOrdinary(Encode(b));
  }

  /** On every non-empty segment the three independent tests agree, and so do the decoded bytes. */
  lemma SegmentTestsAgree(s: string)
    requires s != ""
    ensures GoSegment(s) == QtSegment(s)
    ensures GoSegment(s).Some? <==> Canonical(s)
  {
    if Canonical(s) {
      EncodeDecode(s);
      GoSegmentExact(s, FromSextets(Values(s)));
      QtSegmentExact(s, FromSextets(Values(s)));
    }
    if GoSegment(s).Some? {
      EncodeIsCanonical(GoSegment(s).value);
      QtSegmentExact(s, GoSegment(s).value);
    }
    if QtSegment(s).Some? {
      GoSegmentExact(s, QtSegment(s).value);
    }
  }
}
