/**
 The server's duplicate-member check, a recursive descent over the tokens of a stream decoder, and where it agrees with
 the client's scanner, which reads characters and decodes names by another library.
 */
module JsonTokens {
  import opened Prelude
  import opened JsonScanner
  import P = JsonPrinted

  /** Commas, colons and white space are consumed by the decoder and never surface as tokens. */
  datatype Token = OpenObject | CloseObject | OpenArray | CloseArray | Word(text: Units) | Scalar

  // ---- The descent as functions on the tokens that are left ----

  /** `Decoder.More`: another element of the current object or array follows. */
  predicate More(tokens: seq<Token>) {
    tokens != [] && tokens[0] != CloseObject && tokens[0] != CloseArray
  }

  /** The tokens behind the first value, or nothing when it is rejected. */
  function ReadValue(tokens: seq<Token>): (rest: Option<seq<Token>>)
    ensures rest.Some? ==> |rest.value| < |tokens|
    decreases |tokens|, 0
  {
    if tokens == [] then None else
    match tokens[0]
    case OpenObject => ReadMembers(tokens[1..], {})
    case OpenArray => ReadItems(tokens[1..])
    case Word(_) => Some(tokens[1..])
    case Scalar => Some(tokens[1..])
    case _ => None
  }

  function ReadMembers(tokens: seq<Token>, seen: set<Units>): (rest: Option<seq<Token>>)
    ensures rest.Some? ==> |rest.value| < |tokens|
    decreases |tokens|, 1
  {
    if !More(tokens) then
      if tokens != [] && tokens[0] == CloseObject then Some(tokens[1..]) else None
    else if !tokens[0].Word? || tokens[0].text in seen then None
    else
      var rest :- ReadValue(tokens[1..]);
      ReadMembers(rest, seen + {tokens[0].text})
  }

  function ReadItems(tokens: seq<Token>): (rest: Option<seq<Token>>)
    ensures rest.Some? ==> |rest.value| < |tokens|
    decreases |tokens|, 1
  {
    if !More(tokens) then
      if tokens != [] && tokens[0] == CloseArray then Some(tokens[1..]) else None
    else
      var rest :- ReadValue(tokens);
      ReadItems(rest)
  }

  // ---- The descent as it is written ----

  /** A stream decoder: the tokens it has yet to give, up to the end of the text or the first error in it. */
  class Decoder {
    var tokens: seq<Token>
    const endsClean: bool

    constructor (tokens: seq<Token>, endsClean: bool)
      ensures this.tokens == tokens && this.endsClean == endsClean
    {
      this.tokens, this.endsClean := tokens, endsClean;
    }

    method Token() returns (token: Option<Token>)
      modifies this
      ensures if old(tokens) == [] then token == None && tokens == []
              else token == Some(old(tokens)[0]) && tokens == old(tokens)[1..]
    {
      if tokens == [] {
        return None;
      }
      token, tokens := Some(tokens[0]), tokens[1..];
    }
  }

  /** What a call leaves: its verdict, and on success the decoder behind the value. */
  twostate predicate Did(decoder: Decoder, new spec: Option<seq<Token>>, ok: bool)
    reads decoder
  {
    && |decoder.tokens| <= |old(decoder.tokens)|
    && spec == if ok then Some(decoder.tokens) else None
  }

  method ReadMemberLoop(decoder: Decoder) returns (ok: bool)
    modifies decoder
    ensures Did(decoder, ReadMembers(old(decoder.tokens), {}), ok)
    decreases |decoder.tokens|, 1
  {
    hide ReadValue;
    ghost var start := decoder.tokens;
    var members: set<Units> := {};
    while More(decoder.tokens)
      invariant |decoder.tokens| <= |start|
      invariant ReadMembers(decoder.tokens, members) == ReadMembers(start, {})
      decreases |decoder.tokens|
    {
      var member := decoder.Token();
      if !member.value.Word? || member.value.text in members {
        return false;
      }
      members := members + {member.value.text};
      ok := ReadUniqueJsonValue(decoder);
      if !ok {
        return;
      }
    }
    var closing := decoder.Token();
    ok := closing == Some(CloseObject);
  }

  method ReadItemLoop(decoder: Decoder) returns (ok: bool)
    modifies decoder
    ensures Did(decoder, ReadItems(old(decoder.tokens)), ok)
    decreases |decoder.tokens|, 1
  {
    hide ReadValue;
    ghost var start := decoder.tokens;
    while More(decoder.tokens)
      invariant |decoder.tokens| <= |start|
      invariant ReadItems(decoder.tokens) == ReadItems(start)
      decreases |decoder.tokens|
    {
      ok := ReadUniqueJsonValue(decoder);
      if !ok {
        return;
      }
    }
    var closing := decoder.Token();
    ok := closing == Some(CloseArray);
  }

  method ReadUniqueJsonValue(decoder: Decoder) returns (ok: bool)
    modifies decoder
    ensures Did(decoder, ReadValue(old(decoder.tokens)), ok)
    decreases |decoder.tokens|, 0
  {
    hide ReadMembers, ReadItems;
    var token := decoder.Token();
    match token {
      case None => ok := false;
      case Some(OpenObject) => ok := ReadMemberLoop(decoder);
      case Some(OpenArray) => ok := ReadItemLoop(decoder);
      case Some(Word(_)) => ok := true;
      case Some(Scalar) => ok := true;
      case _ => ok := false;
    }
  }

  /** `rejectDuplicateJSONMembers`: one value, then the clean end of the text. */
  method RejectDuplicateJsonMembers(decoder: Decoder) returns (ok: bool)
    modifies decoder
    ensures ok <==> ReadValue(old(decoder.tokens)) == Some([]) && decoder.endsClean
  {
    hide ReadValue;
    ok := ReadUniqueJsonValue(decoder);
    if ok {
      var next := decoder.Token();
      ok := next.None? && decoder.endsClean;
    }
  }

  // ---- Literals (RFC 8259 sections 3 and 6) ----

  predicate Digit(c: char) {
    '0' <= c <= '9'
  }

  function DigitsEnd(text: string, i: nat): (j: nat)
    requires i <= |text|
    ensures i <= j <= |text|
    decreases |text| - i
  {
    if i < |text| && Digit(text[i]) then DigitsEnd(text, i + 1) else i
  }

  predicate ExponentOk(text: string, i: nat)
    requires i <= |text|
  {
    || i == |text|
    || (&& (text[i] == 'e' || text[i] == 'E')
        && var j := if i + 1 < |text| && (text[i + 1] == '+' || text[i + 1] == '-') then i + 2 else i + 1;
        && j < |text| && Digit(text[j]) && DigitsEnd(text, j) == |text|)
  }

  predicate FractionOk(text: string, i: nat)
    requires i <= |text|
  {
    if i < |text| && text[i] == '.' then
      i + 1 < |text| && Digit(text[i + 1]) && ExponentOk(text, DigitsEnd(text, i + 1))
    else ExponentOk(text, i)
  }

  predicate NumberOk(text: string) {
    var i := if text != "" && text[0] == '-' then 1 else 0;
    && i < |text| && Digit(text[i])
    && FractionOk(text, if text[i] == '0' then i + 1 else DigitsEnd(text, i))
  }

  /** A bare literal that the server's decoder reads; the client's scan takes any run of characters. */
  predicate LiteralValid(text: string) {
    text == "true" || text == "false" || text == "null" || NumberOk(text)
  }

  // ---- The tokens of a document ----

  /** The tokens up to the end of a text, or up to the first error in it. */
  datatype Stream = Stream(tokens: seq<Token>, clean: bool) {
    function Then(next: Stream): Stream {
      if clean then Stream(tokens + next.tokens, next.clean) else this
    }
  }

  function One(token: Token): Stream {
    Stream([token], true)
  }

  function WordStream(go: Unquote, body: string): Stream {
    match go(P.Quoted(body)) case Some(text) => One(Word(text)) case None => Stream([], false)
  }

  /** What the decoder gives for a document; `go` is how Go decodes a text. */
  function Tokens(go: Unquote, v: P.Value): Stream
    decreases v
  {
    match v
    case Text(body) => WordStream(go, body)
    case Literal(text) => if LiteralValid(text) then One(Scalar) else Stream([], false)
    case EmptyArray(_) => One(OpenArray).Then(One(CloseArray))
    case Array(items) => One(OpenArray).Then(ItemTokens(go, items))
    case EmptyObject(_) => One(OpenObject).Then(One(CloseObject))
    case Object(members) => One(OpenObject).Then(MemberTokens(go, members))
  }

  function ItemTokens(go: Unquote, i: P.Items): Stream
    decreases i
  {
    match i
    case NoItem => One(CloseArray)
    case Item(_, v, _, rest) => Tokens(go, v).Then(ItemTokens(go, rest))
  }

  function MemberTokens(go: Unquote, m: P.Members): Stream
    decreases m
  {
    match m
    case NoMember => One(CloseObject)
    case Member(_, name, _, _, v, _, more) => WordStream(go, name).Then(Tokens(go, v).Then(MemberTokens(go, more)))
  }

  /** The server's verdict on a document. */
  predicate ServerAccepts(go: Unquote, v: P.Value) {
    ReadValue(Tokens(go, v).tokens) == Some([]) && Tokens(go, v).clean
  }

  // ---- What the server decides, exactly ----

  /** Every literal of the document is valid and Go decodes every text in it. */
  predicate Legal(go: Unquote, v: P.Value)
    decreases v
  {
    match v
    case Text(body) => go(P.Quoted(body)).Some?
    case Literal(text) => LiteralValid(text)
    case Array(items) => LegalItems(go, items)
    case Object(members) => LegalMembers(go, members)
    case _ => true
  }

  predicate LegalItems(go: Unquote, i: P.Items)
    decreases i
  {
    i.Item? ==> Legal(go, i.value) && LegalItems(go, i.rest)
  }

  predicate LegalMembers(go: Unquote, m: P.Members)
    decreases m
  {
    m.Member? ==> go(P.Quoted(m.name)).Some? && Legal(go, m.value) && LegalMembers(go, m.more)
  }

  lemma {:induction false} CleanIffLegal(go: Unquote, v: P.Value)
    ensures Tokens(go, v).clean <==> Legal(go, v)
    decreases v
  {
    match v
    case Array(items) => CleanItems(go, items);
    case Object(members) => CleanMembers(go, members);
    case _ =>
  }

  lemma {:induction false} CleanItems(go: Unquote, i: P.Items)
    ensures ItemTokens(go, i).clean <==> LegalItems(go, i)
    decreases i
  {
    if i.Item? {
      CleanIffLegal(go, i.value);
      CleanItems(go, i.rest);
    }
  }

  lemma {:induction false} CleanMembers(go: Unquote, m: P.Members)
    ensures MemberTokens(go, m).clean <==> LegalMembers(go, m)
    decreases m
  {
    if m.Member? {
      CleanIffLegal(go, m.value);
      CleanMembers(go, m.more);
    }
  }

  lemma StartsValue(go: Unquote, v: P.Value)
    requires Tokens(go, v).clean
    ensures More(Tokens(go, v).tokens)
  {
  }

  /** On the tokens of a document without errors, with anything behind, the descent takes exactly the document. */
  lemma {:induction false} ReadTree(go: Unquote, v: P.Value, rest: seq<Token>)
    requires Tokens(go, v).clean
    ensures ReadValue(Tokens(go, v).tokens + rest) == if P.Unique(go, v) then Some(rest) else None
    decreases v
  {
    hide ReadMembers, ReadItems;
    var all := Tokens(go, v).tokens + rest;
    match v
    case Array(items) =>
      ReadItemTree(go, items, rest);
      assert all[1..] == ItemTokens(go, items).tokens + rest;
    case Object(members) =>
      ReadMemberTree(go, members, rest, {});
      assert all[1..] == MemberTokens(go, members).tokens + rest;
    case EmptyArray(_) =>
      assert all[1..] == [CloseArray] + rest;
      NoMoreItems(rest);
    case EmptyObject(_) =>
      assert all[1..] == [CloseObject] + rest;
      NoMoreMembers(rest, {});
    case _ =>
      assert all[1..] == rest;
  }

  lemma NoMoreItems(rest: seq<Token>)
    ensures ReadItems([CloseArray] + rest) == Some(rest)
  {
    assert ([CloseArray] + rest)[1..] == rest;
  }

  lemma NoMoreMembers(rest: seq<Token>, seen: set<Units>)
    ensures ReadMembers([CloseObject] + rest, seen) == Some(rest)
  {
    assert ([CloseObject] + rest)[1..] == rest;
  }

  lemma {:induction false} ReadItemTree(go: Unquote, i: P.Items, rest: seq<Token>)
    requires ItemTokens(go, i).clean
    ensures ReadItems(ItemTokens(go, i).tokens + rest) == if P.UniqueItems(go, i) then Some(rest) else None
    decreases i
  {
    hide ReadValue;
    match i
    case NoItem => NoMoreItems(rest);
    case Item(_, v, _, more) =>
      var head, tail := Tokens(go, v).tokens, ItemTokens(go, more).tokens;
      StartsValue(go, v);
      ReadTree(go, v, tail + rest);
      ReadItemTree(go, more, rest);
      assert ItemTokens(go, i).tokens + rest == head + (tail + rest);
      hide Tokens, ItemTokens;
  }

  lemma {:induction false} ReadMemberTree(go: Unquote, m: P.Members, rest: seq<Token>, seen: set<Units>)
    requires MemberTokens(go, m).clean
    ensures ReadMembers(MemberTokens(go, m).tokens + rest, seen) == if P.UniqueNames(go, m, seen) then Some(rest)
          else None
    decreases m
  {
    hide ReadValue;
    match m
    case NoMember => NoMoreMembers(rest, seen);
    case Member(_, name, _, _, v, _, more) =>
      var behind := MemberTokens(go, more).tokens + rest;
      ReadTree(go, v, behind);
      ReadMemberTree(go, more, rest, seen + {P.Decoded(go, name)});
      assert (MemberTokens(go, m).tokens + rest)[1..] == Tokens(go, v).tokens + behind;
  }

  /**
   The server's check is exact: it accepts a document if and only if every literal is valid, Go decodes every text, and
   no object repeats a name as Go decodes it.
   */
  lemma ServerExact(go: Unquote, v: P.Value)
    ensures ServerAccepts(go, v) <==> Legal(go, v) && P.Unique(go, v)
  {
    CleanIffLegal(go, v);
    if Tokens(go, v).clean {
      ReadTree(go, v, []);
      assert Tokens(go, v).tokens + [] == Tokens(go, v).tokens;
    }
  }

  // ---- Where the two checks agree ----

  /** Within each object the two decodings identify the same names. */
  ghost predicate SameNames(go: Unquote, qt: Unquote, v: P.Value)
    decreases v
  {
    match v
    case Array(items) => SameItems(go, qt, items)
    case Object(members) => SameMembers(go, qt, members, [])
    case _ => true
  }

  ghost predicate SameItems(go: Unquote, qt: Unquote, i: P.Items)
    decreases i
  {
    i.Item? ==> SameNames(go, qt, i.value) && SameItems(go, qt, i.rest)
  }

  /** `before` are the names that precede `m` in its object. */
  ghost predicate SameMembers(go: Unquote, qt: Unquote, m: P.Members, before: seq<string>)
    decreases m
  {
    m.Member? ==>
      && (Repeats(go, m.name, before) <==> Repeats(qt, m.name, before))
      && SameNames(go, qt, m.value)
      && SameMembers(go, qt, m.more, before + [m.name])
  }

  ghost predicate Repeats(unquote: Unquote, name: string, before: seq<string>) {
    exists i :: 0 <= i < |before| && P.Decoded(unquote, before[i]) == P.Decoded(unquote, name)
  }

  ghost function Seen(unquote: Unquote, before: seq<string>): set<Units> {
    set i | 0 <= i < |before| :: P.Decoded(unquote, before[i])
  }

  lemma SeenGrows(unquote: Unquote, before: seq<string>, name: string)
    ensures Seen(unquote, before + [name]) == Seen(unquote, before) + {P.Decoded(unquote, name)}
    ensures P.Decoded(unquote, name) in Seen(unquote, before) <==> Repeats(unquote, name, before)
  {
    var after := before + [name];
    forall units | units in Seen(unquote, before) + {P.Decoded(unquote, name)} ensures units in Seen(unquote, after) {
      if units in Seen(unquote, before) {
        var i :| 0 <= i < |before| && P.Decoded(unquote, before[i]) == units;
        assert after[i] == before[i];
      } else {
        assert after[|before|] == name;
      }
    }
  }

  lemma {:induction false} SameVerdict(go: Unquote, qt: Unquote, v: P.Value)
    ensures SameNames(go, qt, v) ==> (P.Unique(go, v) <==> P.Unique(qt, v))
    ensures P.Unique(go, v) && P.Unique(qt, v) ==> SameNames(go, qt, v)
    decreases v
  {
    match v
    case Array(items) => SameItemVerdict(go, qt, items);
    case Object(members) =>
      assert Seen(go, []) == {} == Seen(qt, []);
      SameMemberVerdict(go, qt, members, []);
    case _ =>
  }

  lemma {:induction false} SameItemVerdict(go: Unquote, qt: Unquote, i: P.Items)
    ensures SameItems(go, qt, i) ==> (P.UniqueItems(go, i) <==> P.UniqueItems(qt, i))
    ensures P.UniqueItems(go, i) && P.UniqueItems(qt, i) ==> SameItems(go, qt, i)
    decreases i
  {
    if i.Item? {
      SameVerdict(go, qt, i.value);
      SameItemVerdict(go, qt, i.rest);
    }
  }

  lemma {:induction false} SameMemberVerdict(go: Unquote, qt: Unquote, m: P.Members, before: seq<string>)
    ensures var g, q := P.UniqueNames(go, m, Seen(go, before)), P.UniqueNames(qt, m, Seen(qt, before));
            && (SameMembers(go, qt, m, before) ==> (g <==> q))
            && (g && q ==> SameMembers(go, qt, m, before))
    decreases m
  {
    hide Seen, Repeats;
    if m.Member? {
      SeenGrows(go, before, m.name);
      SeenGrows(qt, before, m.name);
      SameVerdict(go, qt, m.value);
      SameMemberVerdict(go, qt, m.more, before + [m.name]);
    }
  }

  /**
   Where both decodings identify the same names and Go finds no error, the checks agree: the client accepts the text, in
   every layout, exactly when the server does and no value lies deeper than 64 levels below the root.
   */
  lemma ChecksAgree(go: Unquote, qt: Unquote, lead: string, v: P.Value, trail: string)
    requires P.WellFormed(qt, v) && P.Spaces(lead) && P.Spaces(trail)
    requires Legal(go, v) && SameNames(go, qt, v)
    ensures UniqueMembers(qt, lead + P.Print(v) + trail) <==> ServerAccepts(go, v) && P.Height(v) <= MAX_DEPTH
  {
    P.ScannerExact(qt, lead, v, trail);
    ServerExact(go, v);
    SameVerdict(go, qt, v);
  }

  /** And nowhere else: on a document that either check accepts, within the depth limit, that condition is exact. */
  lemma ChecksAgreeExactly(go: Unquote, qt: Unquote, lead: string, v: P.Value, trail: string)
    requires P.WellFormed(qt, v) && P.Spaces(lead) && P.Spaces(trail) && P.Height(v) <= MAX_DEPTH
    requires UniqueMembers(qt, lead + P.Print(v) + trail) || ServerAccepts(go, v)
    ensures (UniqueMembers(qt, lead + P.Print(v) + trail) <==> ServerAccepts(go, v))
       <==> Legal(go, v) && SameNames(go, qt, v)
  {
    P.ScannerExact(qt, lead, v, trail);
    ServerExact(go, v);
    SameVerdict(go, qt, v);
  }

  /** The client's scan lets a malformed literal through, which the server refuses. */
  lemma MalformedLiteralDivides(go: Unquote, qt: Unquote)
    ensures UniqueMembers(qt, "" + P.Print(P.Literal("abc")) + "") && !ServerAccepts(go, P.Literal("abc"))
  {
    P.ScannerExact(qt, "", P.Literal("abc"), "");
  }

  function TwoMembers(a: string, b: string): P.Value {
    var one := P.Literal("1");
    P.Object(P.Member("", a, "", "", one, "", P.Member("", b, "", "", one, "", P.NoMember)))
  }

  lemma TwoMembersUnique(unquote: Unquote, a: string, b: string)
    ensures P.Unique(unquote, TwoMembers(a, b)) <==> P.Decoded(unquote, a) != P.Decoded(unquote, b)
    ensures P.Height(TwoMembers(a, b)) == 1
  {
    hide P.Decoded;
    var last := P.Member("", b, "", "", P.Literal("1"), "", P.NoMember);
    var first := P.Decoded(unquote, a);
    assert P.UniqueNames(unquote, last, {} + {first}) <==> P.Decoded(unquote, b) != first;
    assert P.MembersHeight(last) == 0;
  }

  lemma TwoMembersWellFormed(unquote: Unquote, a: string, b: string)
    requires P.TextOk(unquote, a) && P.TextOk(unquote, b)
    ensures P.WellFormed(unquote, TwoMembers(a, b))
  {
    hide P.TextOk;
    var last := P.Member("", b, "", "", P.Literal("1"), "", P.NoMember);
    assert P.MembersOk(unquote, last);
  }

  lemma {:induction false} PlainBodyOk(body: string)
    requires forall i :: 0 <= i < |body| ==> body[i] >= ' ' && body[i] != '"' && body[i] != '\\'
    ensures P.BodyOk(body)
  {
    if body != "" {
      PlainBodyOk(body[1..]);
    }
  }

  lemma EscapeBodyOk(digits: string)
    requires forall i :: 0 <= i < |digits| ==> digits[i] >= ' ' && digits[i] != '"' && digits[i] != '\\'
    ensures P.BodyOk("\\u" + digits)
  {
    PlainBodyOk(digits);
    assert ("\\u" + digits)[2..] == digits;
  }

  /**
   Names that are lone surrogates divide the checks the other way round: Go decodes both to the replacement character
   and sees a repetition, Qt keeps the code units apart.
   */
  lemma LoneSurrogatesDivide(go: Unquote, qt: Unquote)
    requires go(P.Quoted("\\ud800")) == Some([0xFFFD]) && go(P.Quoted("\\udc01")) == Some([0xFFFD])
    requires qt(P.Quoted("\\ud800")) == Some([0xD800]) && qt(P.Quoted("\\udc01")) == Some([0xDC01])
    ensures var v := TwoMembers("\\ud800", "\\udc01");
            UniqueMembers(qt, "" + P.Print(v) + "") && !ServerAccepts(go, v)
  {
    var a, b := "\\ud800", "\\udc01";
    var v := TwoMembers(a, b);
    EscapeBodyOk("d800");
    EscapeBodyOk("dc01");
    assert "\\u" + "d800" == a && "\\u" + "dc01" == b;
    assert P.TextOk(qt, a) && P.TextOk(qt, b);
    assert P.Decoded(go, a) == P.Decoded(go, b) && P.Decoded(qt, a) != P.Decoded(qt, b);
    hide *;
    TwoMembersWellFormed(qt, a, b);
    TwoMembersUnique(go, a, b);
    TwoMembersUnique(qt, a, b);
    ServerExact(go, v);
    NoSpaces();
    P.ScannerExact(qt, "", v, "");
  }

  lemma NoSpaces()
    ensures P.Spaces("")
  {
  }
}
