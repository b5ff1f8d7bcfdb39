/**
 The three-segment compact form (RFC 7515 section 7.1). The backend splits at dots and decodes each
 segment in a loop; the client's proof builder finds the dots and inspects characters. Both accept
 the same strings: those produced by `Compact` from three non-empty byte strings.
 */
module CompactToken {
  import opened Prelude
  import opened Base64Url

  const MAX_TOKEN_BYTES := 16 * 1024

  datatype Parts = Parts(header: seq<Byte>, payload: seq<Byte>, signature: seq<Byte>)

  function SigningInput(p: Parts): string {
    Encode(p.header) + "." + Encode(p.payload)
  }

  function Compact(p: Parts): string {
    SigningInput(p) + "." + Encode(p.signature)
  }

  /** `token` is the compact form of `p`, no segment is empty, and the size cap holds. */
  ghost predicate CompactOf(token: string, p: Parts) {
    && token == Compact(p)
    && |token| <= MAX_TOKEN_BYTES
    && p.header != [] && p.payload != [] && p.signature != []
  }

  /** Go's `strings.Split(s, ".")`. */
  function Split(s: string): (parts: seq<string>)
    ensures |parts| >= 1
  {
    if s == "" then [""]
    else
      var rest := Split(s[1..]);
      if s[0] == '.' then [""] + rest else [[s[0]] + rest[0]] + rest[1..]
  }

  lemma {:induction false} SplitNoDot(a: string)
    requires '.' !in a
    ensures Split(a) == [a]
  {
    if a != "" {
      SplitNoDot(a[1..]);
      assert [a[0]] + a[1..] == a;
    }
  }

  lemma {:induction false} SplitAtDot(a: string, b: string)
    requires '.' !in a
    ensures Split(a + "." + b) == [a] + Split(b)
  {
    var s := a + "." + b;
    if a == "" {
      assert s[1..] == b;
    } else {
      SplitAtDot(a[1..], b);
      assert s[1..] == a[1..] + "." + b;
      assert [s[0]] + a[1..] == a;
    }
  }

  /** The first part is what precedes the first dot; the others are the parts of what follows it. */
  lemma {:induction false} SplitHead(s: string) returns (a: string, b: string)
    requires |Split(s)| > 1
    ensures s == a + "." + b && '.' !in a && Split(s)[0] == a && Split(s)[1..] == Split(b)
  {
    if s[0] == '.' {
      a, b := "", s[1..];
    } else {
      a, b := SplitHead(s[1..]);
      a := [s[0]] + a;
    }
  }

  lemma {:induction false} SplitOne(s: string)
    requires |Split(s)| == 1
    ensures '.' !in s && Split(s) == [s]
  {
    if s != "" {
      SplitOne(s[1..]);
      assert s == [s[0]] + s[1..];
    }
  }

  /** Exactly the strings with two dots split into three dot-free parts. */
  lemma SplitThree(s: string, h: string, p: string, g: string)
    ensures Split(s) == [h, p, g] <==>
            s == h + "." + p + "." + g && '.' !in h && '.' !in p && '.' !in g
  {
    if Split(s) == [h, p, g] {
      var h', s' := SplitHead(s);
      assert h' == h && Split(s') == [p, g];
      var p', g' := SplitHead(s');
      assert p' == p && Split(g') == [g];
      SplitOne(g');
      assert s == h + "." + (p + "." + g);
    }
    if s == h + "." + p + "." + g && '.' !in h && '.' !in p && '.' !in g {
      assert s == h + "." + (p + "." + g);
      SplitAtDot(h, p + "." + g);
      SplitAtDot(p, g);
      SplitNoDot(g);
    }
  }

  /** `decodeCompactToken`. */
  function DecodeCompact(token: string): Option<Parts> {
    var split := Split(token);
    if token == "" || |token| > MAX_TOKEN_BYTES || |split| != 3 || "" in split then None
    else
      match (GoSegment(split[0]), GoSegment(split[1]), GoSegment(split[2]))
      case (Some(h), Some(p), Some(g)) => Some(Parts(h, p, g))
      case _ => None
  }

  /** Decoding inverts `Compact` exactly: it accepts nothing else and loses nothing. */
  lemma DecodeCompactExact(token: string, p: Parts)
    ensures DecodeCompact(token) == Some(p) <==> CompactOf(token, p)
  {
    hide Split, GoSegment, Encode;
    var h, q, g := Encode(p.header), Encode(p.payload), Encode(p.signature);
    DigitsAreOrdinary(h);
    DigitsAreOrdinary(q);
    DigitsAreOrdinary(g);
    SplitThree(token, h, q, g);
    assert token == Compact(p) <==> token == h + "." + q + "." + g;
    var split := Split(token);
    if |split| == 3 {
      GoSegmentExact(split[0], p.header);
      GoSegmentExact(split[1], p.payload);
      GoSegmentExact(split[2], p.signature);
      assert split == [split[0], split[1], split[2]];
    }
  }

  /** The backend's loop over the split segments. */
  method DecodeCompactToken(token: string) returns (result: Option<Parts>)
    ensures result == DecodeCompact(token)
  {
    hide GoSegment, Split;
    if |token| == 0 || |token| > MAX_TOKEN_BYTES {
      return None;
    }
    var split := Split(token);
    if |split| != 3 {
      return None;
    }
    var decoded: seq<seq<Byte>> := [];
    for index := 0 to 3
      invariant |decoded| == index
      invariant forall k :: 0 <= k < index ==> split[k] != "" && GoSegment(split[k]) == Some(decoded[k])
    {
      if split[index] == "" {
        assert "" in split;
        return None;
      }
      match GoSegment(split[index]) {
        case None => return None;
        case Some(value) => decoded := decoded + [value];
      }
    }
    return Some(Parts(decoded[0], decoded[1], decoded[2]));
  }

  /** The first two dots among the first `end` characters, -1 for each that is missing. */
  ghost predicate DotsUpTo(token: string, end: nat, first: int, second: int) {
    && -1 <= first < end <= |token| && -1 <= second < end
    && (if first < 0 then second == -1 && '.' !in token[..end]
        else token[first] == '.' && '.' !in token[..first]
             && if second < 0 then '.' !in token[first + 1..end]
                else first < second && token[second] == '.'
                     && '.' !in token[first + 1..second] && '.' !in token[second + 1..end])
  }

  lemma NextDot(token: string, end: nat, first: int, second: int)
    requires end < |token| && (end == 0 ==> first == second == -1) && (end > 0 ==> DotsUpTo(token, end, first, second))
    ensures token[end] != '.' ==> DotsUpTo(token, end + 1, first, second)
    ensures token[end] == '.' && first < 0 ==> DotsUpTo(token, end + 1, end, second)
    ensures token[end] == '.' && first >= 0 && second < 0 ==> DotsUpTo(token, end + 1, first, end)
  {
  }

  /** The loop over the characters; `many` says that it met a third dot. */
  method FindDots(token: string) returns (many: bool, firstDot: int, secondDot: int)
    requires token != ""
    ensures many ==> |Split(token)| > 3
    ensures !many ==> DotsUpTo(token, |token|, firstDot, secondDot)
  {
    hide Split;
    many, firstDot, secondDot := false, -1, -1;
    for index := 0 to |token|
      invariant index == 0 ==> firstDot == secondDot == -1
      invariant index > 0 ==> DotsUpTo(token, index, firstDot, secondDot)
    {
      NextDot(token, index, firstDot, secondDot);
      if token[index] == '.' {
        if firstDot < 0 {
          firstDot := index;
        } else if secondDot < 0 {
          secondDot := index;
        } else {
          ThreeDots(token, firstDot, secondDot, index);
          many := true;
          return;
        }
      }
    }
  }

  lemma AroundDot(s: string, i: nat)
    requires i < |s| && s[i] == '.'
    ensures s == s[..i] + "." + s[i + 1..]
  {
  }

  lemma Inside(s: string, i: nat, j: nat)
    requires i <= j < |s|
    ensures s[i..][..j - i] == s[i..j] && s[i..][j - i] == s[j] && s[i..][j - i + 1..] == s[j + 1..]
  {
  }

  lemma SplitAtDots(token: string, first: nat, second: nat)
    requires token != "" && DotsUpTo(token, |token|, first, second)
    ensures Split(token) == [token[..first], token[first + 1..second], token[second + 1..]]
  {
    hide Split;
    assert token[second + 1..|token|] == token[second + 1..];
    AroundDot(token, first);
    SplitAtDot(token[..first], token[first + 1..]);
    var rest := token[first + 1..];
    Inside(token, first + 1, second);
    AroundDot(rest, second - first - 1);
    SplitAtDot(token[first + 1..second], token[second + 1..]);
    SplitNoDot(token[second + 1..]);
  }

  /** `validCompactAccessToken`: dot positions, then the character test on each segment. */
  method ValidCompactAccessToken(token: string) returns (ok: bool)
    ensures ok <==> DecodeCompact(token).Some? && |DecodeCompact(token).value.signature| == 64
  {
    hide Split, Canonical, Encode, GoSegment;
    if token == "" || |token| > MAX_TOKEN_BYTES {
      return false;
    }
    var many, firstDot, secondDot := FindDots(token);
    if many {
      return false;
    }
    if firstDot < 0 || secondDot < 0 {
      FewDots(token, firstDot);
      return false;
    }
    SplitAtDots(token, firstDot, secondDot);
    if firstDot <= 0 || secondDot <= firstDot + 1 || secondDot >= |token| - 1 {
      return false;
    }
    var header, payload, signature := token[..firstDot], token[firstDot + 1..secondDot], token[secondDot + 1..];
    DecodeOfSegments(token, header, payload, signature);
    ok := SegmentsValid(header, payload, signature);
  }

  lemma DecodeOfSegments(token: string, header: string, payload: string, signature: string)
    requires token != "" && |token| <= MAX_TOKEN_BYTES && Split(token) == [header, payload, signature]
    requires header != "" && payload != "" && signature != ""
    ensures DecodeCompact(token).Some? && |DecodeCompact(token).value.signature| == 64
       <==> |signature| == 86 && Canonical(header) && Canonical(payload) && Canonical(signature)
  {
    hide Split, Encode, GoSegment, QtSegment, Canonical;
    SegmentTestsAgree(header);
    SegmentTestsAgree(payload);
    SegmentTestsAgree(signature);
    if GoSegment(signature).Some? {
      SignatureLength(signature, GoSegment(signature).value);
    }
  }

  lemma SignatureLength(signature: string, bytes: seq<Byte>)
    requires GoSegment(signature) == Some(bytes)
    ensures |signature| == 86 <==> |bytes| == 64
  {
    GoSegmentExact(signature, bytes);
    hide GoSegment;
  }

  method SegmentsValid(header: string, payload: string, signature: string) returns (ok: bool)
    ensures ok <==> |signature| == 86 && Canonical(header) && Canonical(payload) && Canonical(signature)
  {
    hide Canonical;
    ok := |signature| == 86;
    if ok {
      ok := CanonicalSegment(header);
    }
    if ok {
      ok := CanonicalSegment(payload);
    }
    if ok {
      ok := CanonicalSegment(signature);
    }
  }

  lemma ThreeDots(token: string, i: nat, j: nat, k: nat)
    requires i < j < k < |token| && token[i] == token[j] == token[k] == '.'
    requires '.' !in token[..i] && '.' !in token[i + 1..j]
    ensures |Split(token)| > 3
  {
    assert token == token[..i] + "." + token[i + 1..];
    SplitAtDot(token[..i], token[i + 1..]);
    var rest := token[i + 1..];
    assert rest == token[i + 1..j] + "." + token[j + 1..];
    SplitAtDot(token[i + 1..j], token[j + 1..]);
    var last := token[j + 1..];
    assert last[k - j - 1] == '.';
    if |Split(last)| == 1 {
      SplitOne(last);
      assert false;
    }
  }

  lemma FewDots(token: string, i: int)
    requires -1 <= i < |token|
    requires i < 0 ==> '.' !in token
    requires i >= 0 ==> token[i] == '.' && '.' !in token[..i] && '.' !in token[i + 1..]
    ensures |Split(token)| < 3
  {
    if i < 0 {
      SplitNoDot(token);
    } else {
      assert token == token[..i] + "." + token[i + 1..];
      SplitAtDot(token[..i], token[i + 1..]);
      SplitNoDot(token[i + 1..]);
    }
  }

  /** The compact form determines its parts. */
  lemma CompactInjective(p: Parts, q: Parts)
    requires Compact(p) == Compact(q)
    requires CompactOf(Compact(p), p) && CompactOf(Compact(q), q)
    ensures p == q
  {
    DecodeCompactExact(Compact(p), p);
    DecodeCompactExact(Compact(p), q);
  }
}
