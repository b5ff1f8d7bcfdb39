/** The scanner on printed documents: exact for every JSON tree and every placement of whitespace. */
module JsonPrinted {
  import opened Prelude
  import opened JsonScanner

  /** A JSON document with its layout. Text bodies and names are as printed between the quotes. */
  datatype Value =
    | Text(body: string)
    | Literal(text: string)
    | EmptyArray(space: string)
    | Array(items: Items)
    | EmptyObject(space: string)
    | Object(members: Members)

  datatype Items = NoItem | Item(before: string, value: Value, after: string, rest: Items)

  datatype Members = NoMember | Member(before: string, name: string, mid: string, lead: string, value: Value,
      after: string, more: Members)

  function Quoted(body: string): string {
    "\"" + body + "\""
  }

  function Print(v: Value): string {
    match v
    case Text(body) => Quoted(body)
    case Literal(text) => text
    case EmptyArray(space) => "[" + space + "]"
    case Array(items) => "[" + PrintItems(items)
    case EmptyObject(space) => "{" + space + "}"
    case Object(members) => "{" + PrintMembers(members)
  }

  /** The items with their closing bracket. */
  function PrintItems(i: Items): string {
    match i
    case NoItem => "]"
    case Item(before, v, after, rest) =>
      before + (Print(v) + (after + (if rest.NoItem? then "]" else "," + PrintItems(rest))))
  }

  /** The members with their closing brace. */
  function PrintMembers(m: Members): string {
    match m
    case NoMember => "}"
    case Member(before, name, mid, lead, v, after, more) =>
      before + (Quoted(name) + (mid + (":" + ((lead + Print(v))
          + (after + (if more.NoMember? then "}" else "," + PrintMembers(more)))))))
  }

  // ---- Well-formed documents ----

  predicate Spaces(s: string) {
    forall i :: 0 <= i < |s| ==> IsSpace(s[i])
  }

  /** Characters that may stand between quotes: no bare quote or control character, no dangling backslash. */
  predicate BodyOk(body: string) {
    if body == "" then true
    else if body[0] == '"' || body[0] < ' ' then false
    else if body[0] == '\\' then |body| >= 2 && BodyOk(body[2..])
    else BodyOk(body[1..])
  }

  predicate TextOk(unquote: Unquote, body: string) {
    BodyOk(body) && unquote(Quoted(body)).Some?
  }

  predicate LiteralOk(text: string) {
    && text != ""
    && text[0] != '{' && text[0] != '[' && text[0] != '"'
    && forall i :: 0 <= i < |text| ==> !IsDelimiter(text[i])
  }

  predicate WellFormed(unquote: Unquote, v: Value) {
    match v
    case Text(body) => TextOk(unquote, body)
    case Literal(text) => LiteralOk(text)
    case EmptyArray(space) => Spaces(space)
    case Array(items) => items.Item? && ItemsOk(unquote, items)
    case EmptyObject(space) => Spaces(space)
    case Object(members) => members.Member? && MembersOk(unquote, members)
  }

  predicate ItemsOk(unquote: Unquote, i: Items) {
    match i
    case NoItem => true
    case Item(before, v, after, rest) =>
      Spaces(before) && WellFormed(unquote, v) && Spaces(after) && ItemsOk(unquote, rest)
  }

  predicate MembersOk(unquote: Unquote, m: Members) {
    match m
    case NoMember => true
    case Member(before, name, mid, lead, v, after, more) =>
      && Spaces(before) && TextOk(unquote, name) && Spaces(mid) && Spaces(lead)
      && WellFormed(unquote, v) && Spaces(after) && MembersOk(unquote, more)
  }

  // ---- What the scanner is meant to decide ----

  function Max(a: nat, b: nat): nat { if a < b then b else a }

  /** How many levels the deepest value lies below this one. */
  function Height(v: Value): nat {
    match v
    case Array(items) => 1 + ItemsHeight(items)
    case Object(members) => 1 + MembersHeight(members)
    case _ => 0
  }

  function ItemsHeight(i: Items): nat {
    match i
    case NoItem => 0
    case Item(_, v, _, rest) => Max(Height(v), ItemsHeight(rest))
  }

  function MembersHeight(m: Members): nat {
    match m
    case NoMember => 0
    case Member(_, _, _, _, v, _, more) => Max(Height(v), MembersHeight(more))
  }

  /** No object in the tree repeats a decoded member name. */
  predicate Unique(unquote: Unquote, v: Value) {
    match v
    case Array(items) => UniqueItems(unquote, items)
    case Object(members) => UniqueNames(unquote, members, {})
    case _ => true
  }

  predicate UniqueItems(unquote: Unquote, i: Items) {
    match i
    case NoItem => true
    case Item(_, v, _, rest) => Unique(unquote, v) && UniqueItems(unquote, rest)
  }

  function Decoded(unquote: Unquote, body: string): Units {
    match unquote(Quoted(body)) case Some(name) => name case None => []
  }

  predicate UniqueNames(unquote: Unquote, m: Members, seen: set<Units>) {
    match m
    case NoMember => true
    case Member(_, name, _, _, v, _, more) =>
      && Decoded(unquote, name) !in seen
      && Unique(unquote, v)
      && UniqueNames(unquote, more, seen + {Decoded(unquote, name)})
  }

  // ---- Text at a position ----

  ghost predicate At(json: string, pos: nat, text: string) {
    pos + |text| <= |json| && json[pos..pos + |text|] == text
  }

  lemma AtParts(json: string, pos: nat, a: string, b: string)
    requires At(json, pos, a + b)
    ensures At(json, pos, a) && At(json, pos + |a|, b)
  {
    var both := json[pos..pos + |a + b|];
    assert json[pos..pos + |a|] == both[..|a|];
    assert json[pos + |a|..pos + |a| + |b|] == both[|a|..];
  }

  lemma AtChar(json: string, pos: nat, text: string, i: nat)
    requires At(json, pos, text) && i < |text|
    ensures json[pos + i] == text[i]
  {
    assert json[pos..pos + |text|][i] == text[i];
  }

  lemma AtFits(json: string, pos: nat, text: string)
    requires At(json, pos, text)
    ensures pos + |text| <= |json|
  {
  }

  /** A position that ends a bare literal. */
  ghost predicate Delimited(json: string, pos: nat) {
    pos == |json| || (pos < |json| && IsDelimiter(json[pos]))
  }

  lemma {:induction false} SkipSpaces(json: string, pos: nat, space: string)
    requires At(json, pos, space) && Spaces(space)
    requires pos + |space| == |json| || !IsSpace(json[pos + |space|])
    ensures Skip(json, pos) == pos + |space|
    decreases |space|
  {
    if space != "" {
      AtChar(json, pos, space, 0);
      assert space == space[..1] + space[1..];
      AtParts(json, pos, space[..1], space[1..]);
      SkipSpaces(json, pos + 1, space[1..]);
    }
  }

  lemma {:induction false} BodyEnd(json: string, pos: nat, body: string)
    requires BodyOk(body) && At(json, pos, body + "\"")
    ensures StringEnd(json, pos) == Some(pos + |body| + 1)
    decreases |body|
  {
    var text := body + "\"";
    AtChar(json, pos, text, 0);
    if body != "" {
      var n := if body[0] == '\\' then 2 else 1;
      assert text == body[..n] + (body[n..] + "\"");
      AtParts(json, pos, body[..n], body[n..] + "\"");
      BodyEnd(json, pos + n, body[n..]);
    }
  }

  lemma QuotedScan(unquote: Unquote, json: string, pos: nat, body: string)
    requires TextOk(unquote, body) && At(json, pos, Quoted(body))
    ensures ConsumeString(unquote, json, pos) == Some((pos + |Quoted(body)|, Decoded(unquote, body)))
  {
    assert Quoted(body) == "\"" + (body + "\"");
    AtParts(json, pos, "\"", body + "\"");
    AtChar(json, pos, Quoted(body), 0);
    BodyEnd(json, pos + 1, body);
  }

  lemma {:induction false} LiteralScan(json: string, pos: nat, text: string)
    requires (forall i :: 0 <= i < |text| ==> !IsDelimiter(text[i])) && At(json, pos, text)
    requires Delimited(json, pos + |text|)
    ensures LiteralEnd(json, pos) == pos + |text|
    decreases |text|
  {
    if text != "" {
      AtChar(json, pos, text, 0);
      assert text == text[..1] + text[1..];
      AtParts(json, pos, text[..1], text[1..]);
      LiteralScan(json, pos + 1, text[1..]);
    }
  }

  lemma PrintStarts(unquote: Unquote, v: Value)
    requires WellFormed(unquote, v)
    ensures Print(v) != "" && !IsDelimiter(Print(v)[0])
    ensures match v
            case Text(_) => Print(v)[0] == '"'
            case Literal(_) => Print(v)[0] != '{' && Print(v)[0] != '[' && Print(v)[0] != '"'
            case EmptyArray(_) => Print(v)[0] == '['
            case Array(_) => Print(v)[0] == '['
            case EmptyObject(_) => Print(v)[0] == '{'
            case Object(_) => Print(v)[0] == '{'
  {
  }

  // ---- One step of each loop ----

  lemma SkipTwice(json: string, pos: nat)
    requires pos <= |json|
    ensures Skip(json, Skip(json, pos)) == Skip(json, pos)
    decreases |json| - pos
  {
  }

  lemma ScanFrom(unquote: Unquote, json: string, pos: nat, depth: int)
    requires pos <= |json|
    ensures ScanValue(unquote, json, pos, depth) == ScanValue(unquote, json, Skip(json, pos), depth)
  {
    SkipTwice(json, pos);
    hide Skip, ScanMembers, ScanItems, ConsumeString, LiteralEnd;
  }

  /** After a value: spaces, then the character that continues or closes the list. */
  lemma AfterValue(json: string, e: nat, after: string, close: string)
    requires Spaces(after) && close != "" && IsDelimiter(close[0]) && !IsSpace(close[0])
    requires At(json, e, after + close)
    ensures Delimited(json, e)
    ensures Skip(json, e) == e + |after| < |json| && json[e + |after|] == close[0] && At(json, e + |after|, close)
  {
    AtParts(json, e, after, close);
    AtChar(json, e + |after|, close, 0);
    SkipSpaces(json, e, after);
    if after != "" {
      AtChar(json, e, after, 0);
    }
  }

  /** The first character of a value decides how it is scanned. */
  lemma ValueStep(unquote: Unquote, json: string, p: nat, depth: int)
    requires p < |json| && Skip(json, p) == p
    ensures var q := Skip(json, p + 1);
            ScanValue(unquote, json, p, depth) ==
            if depth > MAX_DEPTH then None
            else if json[p] == '{' then
              if q < |json| && json[q] == '}' then Some(q + 1) else ScanMembers(unquote, json, q, depth, {})
            else if json[p] == '[' then
              if q < |json| && json[q] == ']' then Some(q + 1) else ScanItems(unquote, json, q, depth)
            else if json[p] == '"' then
              match ConsumeString(unquote, json, p) case None => None case Some(pair) => Some(pair.0)
            else if LiteralEnd(json, p) > p then Some(LiteralEnd(json, p))
            else None
  {
    hide Skip, ScanMembers, ScanItems, ConsumeString, LiteralEnd;
  }

  lemma ItemFails(unquote: Unquote, json: string, q: nat, depth: int)
    requires q < |json| && ScanValue(unquote, json, q, depth + 1).None?
    ensures ScanItems(unquote, json, q, depth).None?
  {
    hide Skip, ScanValue;
  }

  /** After an accepted item: the list ends at a bracket and goes on at a comma. */
  lemma ItemGoesOn(unquote: Unquote, json: string, q: nat, depth: int, e: nat, s: nat)
    requires q < |json| && ScanValue(unquote, json, q, depth + 1) == Some(e)
    requires e <= |json| && Skip(json, e) == s < |json|
    ensures json[s] == ']' ==> ScanItems(unquote, json, q, depth) == Some(s + 1)
    ensures json[s] == ',' ==> ScanItems(unquote, json, q, depth) == ScanItems(unquote, json, Skip(json, s + 1), depth)
  {
    hide Skip, ScanValue;
  }

  lemma MemberFails(unquote: Unquote, json: string, q: nat, depth: int, seen: set<Units>, end: nat, name: Units)
    requires q <= |json| && ConsumeString(unquote, json, q) == Some((end, name))
    requires var c := Skip(json, end); c < |json| && json[c] == ':'
    requires name in seen || ScanValue(unquote, json, Skip(json, end) + 1, depth + 1).None?
    ensures ScanMembers(unquote, json, q, depth, seen).None?
  {
    hide Skip, ScanValue, ConsumeString;
  }

  /** After an accepted member: the object ends at a brace and goes on at a comma. */
  lemma MemberGoesOn(unquote: Unquote, json: string, q: nat, depth: int, seen: set<Units>, end: nat, name: Units,
      e: nat, s: nat)
    requires q <= |json| && ConsumeString(unquote, json, q) == Some((end, name)) && name !in seen
    requires var c := Skip(json, end);
             c < |json| && json[c] == ':' && ScanValue(unquote, json, c + 1, depth + 1) == Some(e)
    requires e <= |json| && Skip(json, e) == s < |json|
    ensures json[s] == '}' ==> ScanMembers(unquote, json, q, depth, seen) == Some(s + 1)
    ensures json[s] == ',' ==>
              ScanMembers(unquote, json, q, depth, seen)
              == ScanMembers(unquote, json, Skip(json, s + 1), depth, seen + {name})
  {
    hide Skip, ScanValue, ConsumeString;
  }

  // ---- The main induction ----

  function Verdict(ok: bool, end: nat): Option<nat> {
    if ok then Some(end) else None
  }

  /** A printed value is accepted, up to its end, exactly when it is unique and not too deep. */
  lemma {:induction false} ValueScan(unquote: Unquote, json: string, pos: nat, depth: int, lead: string, v: Value)
    requires WellFormed(unquote, v) && Spaces(lead) && At(json, pos, lead + Print(v))
    requires Delimited(json, pos + |lead| + |Print(v)|)
    ensures ScanValue(unquote, json, pos, depth)
            == Verdict(ValuePasses(unquote, depth, v), pos + |lead| + |Print(v)|)
    decreases v, 2
  {
    hide Print, ScanValue;
    var p := pos + |lead|;
    AtParts(json, pos, lead, Print(v));
    PrintStarts(unquote, v);
    AtChar(json, p, Print(v), 0);
    SkipSpaces(json, pos, lead);
    ScanFrom(unquote, json, pos, depth);
    SkipTwice(json, pos);
    ValueScanAt(unquote, json, p, depth, v);
  }

  lemma {:induction false} ValueScanAt(unquote: Unquote, json: string, p: nat, depth: int, v: Value)
    requires WellFormed(unquote, v) && At(json, p, Print(v)) && Delimited(json, p + |Print(v)|)
    requires p < |json| && Skip(json, p) == p && json[p] == Print(v)[0]
    ensures ScanValue(unquote, json, p, depth)
            == Verdict(ValuePasses(unquote, depth, v), p + |Print(v)|)
    decreases v, 1
  {
    hide *;
    PrintStarts(unquote, v);
    ValueStep(unquote, json, p, depth);
    VerdictMeaning(ValuePasses(unquote, depth, v), p + |Print(v)|);
    match v
    case Array(items) => ArrayCase(unquote, json, p, depth, v);
    case Object(members) => ObjectCase(unquote, json, p, depth, v);
    case _ => FlatCase(unquote, json, p, depth, v);
  }

  /** A value with no value inside it passes unless it is itself too deep. */
  lemma FlatCase(unquote: Unquote, json: string, p: nat, depth: int, v: Value)
    requires WellFormed(unquote, v) && !v.Array? && !v.Object?
    requires At(json, p, Print(v)) && Delimited(json, p + |Print(v)|)
    ensures ValuePasses(unquote, depth, v) <==> depth <= MAX_DEPTH
    ensures match v
            case Text(_) => ConsumeString(unquote, json, p).Some?
                && ConsumeString(unquote, json, p).value.0 == p + |Print(v)|
            case Literal(_) => LiteralEnd(json, p) == p + |Print(v)|
            case EmptyArray(_) =>
              p + 1 <= |json| && var q := Skip(json, p + 1); q < |json| && json[q] == ']' && q + 1 == p + |Print(v)|
            case EmptyObject(_) =>
              p + 1 <= |json| && var q := Skip(json, p + 1); q < |json| && json[q] == '}' && q + 1 == p + |Print(v)|
            case _ => true
  {
    hide Skip, ConsumeString, LiteralEnd, At;
    AtFits(json, p, Print(v));
    match v
    case Text(body) => QuotedScan(unquote, json, p, body);
    case Literal(text) => LiteralScan(json, p, text);
    case EmptyArray(space) => EmptyScan(json, p, "[", space, "]");
    case EmptyObject(space) => EmptyScan(json, p, "{", space, "}");
  }

  lemma {:induction false} ArrayCase(unquote: Unquote, json: string, p: nat, depth: int, v: Value)
    requires v.Array? && WellFormed(unquote, v) && At(json, p, Print(v))
    ensures p + 1 <= |json| && var q := Skip(json, p + 1);
            && q < |json| && json[q] != ']' && (depth > MAX_DEPTH ==> !ValuePasses(unquote, depth, v))
            && ScanItems(unquote, json, q, depth) == if ValuePasses(unquote, depth, v) then Some(p + |Print(v)|)
               else None
    decreases v, 0
  {
    hide Skip, ScanItems, At, ItemsOk;
    AtParts(json, p, "[", PrintItems(v.items));
    AtFits(json, p, "[");
    hide PrintItems, ItemsHeight, UniqueItems;
    ItemsScan(unquote, json, p + 1, depth, v.items);
  }

  lemma {:induction false} ObjectCase(unquote: Unquote, json: string, p: nat, depth: int, v: Value)
    requires v.Object? && WellFormed(unquote, v) && At(json, p, Print(v))
    ensures p + 1 <= |json| && var q := Skip(json, p + 1);
            && q < |json| && json[q] != '}' && (depth > MAX_DEPTH ==> !ValuePasses(unquote, depth, v))
            && ScanMembers(unquote, json, q, depth, {}) == if ValuePasses(unquote, depth, v) then Some(p + |Print(v)|)
               else None
    decreases v, 0
  {
    hide Skip, ScanMembers, At, MembersOk;
    AtParts(json, p, "{", PrintMembers(v.members));
    AtFits(json, p, "{");
    hide PrintMembers, MembersHeight, UniqueNames;
    MembersScan(unquote, json, p + 1, depth, v.members, {});
  }

  lemma EmptyScan(json: string, p: nat, open: string, space: string, close: string)
    requires |open| == |close| == 1 && !IsSpace(close[0]) && Spaces(space)
    requires At(json, p, open + space + close)
    ensures var q := Skip(json, p + 1);
            q < |json| && json[q] == close[0] && q + 1 == p + |open + space + close|
  {
    assert open + space + close == open + (space + close);
    AtParts(json, p, open, space + close);
    AtParts(json, p + 1, space, close);
    AtChar(json, p + 1 + |space|, close, 0);
    SkipSpaces(json, p + 1, space);
  }

  /** What follows an item: the closing bracket, or a comma and the other items. */
  function ItemsTail(rest: Items): string {
    if rest.NoItem? then "]" else "," + PrintItems(rest)
  }

  function MembersTail(more: Members): string {
    if more.NoMember? then "}" else "," + PrintMembers(more)
  }

  /** The verdict on a list of items, its first item included. */
  predicate ItemsPass(unquote: Unquote, depth: int, i: Items) {
    depth + 1 + ItemsHeight(i) <= MAX_DEPTH && UniqueItems(unquote, i)
  }

  predicate MembersPass(unquote: Unquote, depth: int, m: Members, seen: set<Units>) {
    depth + 1 + MembersHeight(m) <= MAX_DEPTH && UniqueNames(unquote, m, seen)
  }

  predicate ValuePasses(unquote: Unquote, depth: int, v: Value) {
    depth + Height(v) <= MAX_DEPTH && Unique(unquote, v)
  }

  lemma ItemsPassStep(unquote: Unquote, depth: int, i: Items)
    requires i.Item?
    ensures ItemsPass(unquote, depth, i)
            <==> ValuePasses(unquote, depth + 1, i.value) && (i.rest.Item? ==> ItemsPass(unquote, depth, i.rest))
  {
    match i.rest
    case NoItem => assert ItemsHeight(i.rest) == 0 && UniqueItems(unquote, i.rest);
    case Item(_, _, _, _) =>
  }

  lemma MembersPassStep(unquote: Unquote, depth: int, m: Members, seen: set<Units>)
    requires m.Member?
    ensures MembersPass(unquote, depth, m, seen)
            <==> && Decoded(unquote, m.name) !in seen && ValuePasses(unquote, depth + 1, m.value)
                 && (m.more.Member? ==> MembersPass(unquote, depth, m.more, seen + {Decoded(unquote, m.name)}))
  {
    hide Decoded;
    match m.more
    case NoMember =>
      assert MembersHeight(m.more) == 0 && UniqueNames(unquote, m.more, seen + {Decoded(unquote, m.name)});
    case Member(_, _, _, _, _, _, _) =>
  }

  lemma {:induction false} ItemsScan(unquote: Unquote, json: string, pos: nat, depth: int, i: Items)
    requires i.Item? && ItemsOk(unquote, i) && At(json, pos, PrintItems(i))
    ensures var q := Skip(json, pos);
            && q == pos + |i.before| < |json| && json[q] != ']'
            && ScanItems(unquote, json, q, depth) == Verdict(ItemsPass(unquote, depth, i), pos + |PrintItems(i)|)
    decreases i
  {
    hide *;
    var Item(before, v, after, rest) := i;
    ItemsOkStep(unquote, i);
    var q, e := ItemPlace(unquote, json, pos, i);
    ItemsPassStep(unquote, depth, i);
    ValueScanHere(unquote, json, q, depth + 1, v);
    var end := pos + |PrintItems(i)|;
    if !ValuePasses(unquote, depth + 1, v) {
      ItemFails(unquote, json, q, depth);
    } else {
      var s := e + |after|;
      ItemGoesOn(unquote, json, q, depth, e, s);
      if rest.Item? {
        MoreItems(json, s, rest);
        ItemsScan(unquote, json, s + 1, depth, rest);
      } else {
        LastItem(json, s, rest);
      }
    }
    VerdictMeaning(ItemsPass(unquote, depth, i), end);
    if rest.Item? {
      VerdictMeaning(ItemsPass(unquote, depth, rest), end);
    }
  }

  lemma VerdictMeaning(ok: bool, end: nat)
    ensures Verdict(ok, end) == if ok then Some(end) else None
  {
  }

  lemma ItemsOkStep(unquote: Unquote, i: Items)
    requires i.Item? && ItemsOk(unquote, i)
    ensures WellFormed(unquote, i.value) && ItemsOk(unquote, i.rest) && Spaces(i.before) && Spaces(i.after)
  {
  }

  lemma MoreItems(json: string, s: nat, rest: Items)
    requires rest.Item? && At(json, s, ItemsTail(rest))
    ensures At(json, s + 1, PrintItems(rest)) && ItemsTail(rest)[0] == ','
          && |ItemsTail(rest)| == 1 + |PrintItems(rest)|
  {
    AtParts(json, s, ",", PrintItems(rest));
  }

  lemma LastItem(json: string, s: nat, rest: Items)
    requires rest.NoItem?
    ensures ItemsTail(rest) == "]"
  {
  }

  lemma ValueScanHere(unquote: Unquote, json: string, q: nat, depth: int, v: Value)
    requires WellFormed(unquote, v) && At(json, q, Print(v)) && Delimited(json, q + |Print(v)|)
    ensures ScanValue(unquote, json, q, depth) == if ValuePasses(unquote, depth, v) then Some(q + |Print(v)|) else None
    decreases v, 3
  {
    hide ScanValue, Print, At;
    assert "" + Print(v) == Print(v);
    ValueScan(unquote, json, q, depth, "", v);
  }

  /** The place of a printed item and what follows it. */
  lemma ItemPlace(unquote: Unquote, json: string, pos: nat, i: Items) returns (q: nat, e: nat)
    requires i.Item? && ItemsOk(unquote, i) && At(json, pos, PrintItems(i))
    ensures q == Skip(json, pos) == pos + |i.before| < |json| && json[q] != ']'
    ensures e == q + |Print(i.value)| && Delimited(json, e) && At(json, q, Print(i.value))
    ensures Skip(json, e) == e + |i.after| < |json| && At(json, e + |i.after|, ItemsTail(i.rest))
    ensures json[e + |i.after|] == ItemsTail(i.rest)[0]
    ensures e + |i.after| + |ItemsTail(i.rest)| == pos + |PrintItems(i)|
  {
    hide *;
    var Item(before, v, after, rest) := i;
    var tail := after + ItemsTail(rest);
    PrintedItem(i);
    ItemsOkStep(unquote, i);
    PrintStarts(unquote, v);
    ItemsTailStart(rest);
    q := pos + |before|;
    e := q + |Print(v)|;
    AtParts(json, pos, before, Print(v) + tail);
    AtParts(json, q, Print(v), tail);
    AtChar(json, q, Print(v), 0);
    AtFits(json, q, Print(v));
    Delimiters(json[q]);
    SkipSpaces(json, pos, before);
    AfterValue(json, e, after, ItemsTail(rest));
  }

  lemma PrintedItem(i: Items)
    requires i.Item?
    ensures PrintItems(i) == i.before + (Print(i.value) + (i.after + ItemsTail(i.rest)))
  {
    hide Print;
  }

  lemma ItemsTailStart(rest: Items)
    ensures ItemsTail(rest) != "" && IsDelimiter(ItemsTail(rest)[0]) && !IsSpace(ItemsTail(rest)[0])
  {
  }

  lemma Delimiters(c: char)
    ensures !IsDelimiter(c) ==> !IsSpace(c) && c != ']' && c != '}' && c != ','
  {
  }

  lemma {:induction false} MembersScan(unquote: Unquote, json: string, pos: nat, depth: int, m: Members,
      seen: set<Units>)
    requires m.Member? && MembersOk(unquote, m) && At(json, pos, PrintMembers(m))
    ensures var q := Skip(json, pos);
            && q == pos + |m.before| < |json| && json[q] != '}'
            && ScanMembers(unquote, json, q, depth, seen)
               == Verdict(MembersPass(unquote, depth, m, seen), pos + |PrintMembers(m)|)
    decreases m
  {
    hide *;
    var Member(before, name, mid, lead, v, after, more) := m;
    MembersOkStep(unquote, m);
    var q, start, e := NameScan(unquote, json, pos, m);
    MembersPassStep(unquote, depth, m, seen);
    ValueScan(unquote, json, start, depth + 1, lead, v);
    VerdictMeaning(ValuePasses(unquote, depth + 1, v), e);
    var name', end, last := Decoded(unquote, name), q + |Quoted(name)|, pos + |PrintMembers(m)|;
    if name' in seen || !ValuePasses(unquote, depth + 1, v) {
      MemberFails(unquote, json, q, depth, seen, end, name');
    } else {
      var s := e + |after|;
      MemberGoesOn(unquote, json, q, depth, seen, end, name', e, s);
      if more.Member? {
        MoreMembers(json, s, more);
        MembersScan(unquote, json, s + 1, depth, more, seen + {name'});
        VerdictMeaning(MembersPass(unquote, depth, more, seen + {name'}), last);
      } else {
        LastMember(json, s, more);
      }
    }
    VerdictMeaning(MembersPass(unquote, depth, m, seen), last);
  }

  lemma MembersOkStep(unquote: Unquote, m: Members)
    requires m.Member? && MembersOk(unquote, m)
    ensures WellFormed(unquote, m.value) && MembersOk(unquote, m.more) && Spaces(m.lead) && Spaces(m.after)
  {
  }

  lemma MoreMembers(json: string, s: nat, more: Members)
    requires more.Member? && At(json, s, MembersTail(more))
    ensures At(json, s + 1, PrintMembers(more)) && MembersTail(more)[0] == ','
          && |MembersTail(more)| == 1 + |PrintMembers(more)|
  {
    AtParts(json, s, ",", PrintMembers(more));
  }

  lemma LastMember(json: string, s: nat, more: Members)
    requires more.NoMember?
    ensures MembersTail(more) == "}"
  {
  }

  /** The texts of a printed member, each at its place. */
  lemma MemberPlaces(json: string, pos: nat, m: Members)
    requires m.Member? && At(json, pos, PrintMembers(m))
    ensures var q := pos + |m.before|;
            var c := q + |Quoted(m.name)| + |m.mid|;
            var e := c + 1 + |m.lead| + |Print(m.value)|;
            && At(json, pos, m.before) && At(json, q, Quoted(m.name)) && At(json, q + |Quoted(m.name)|, m.mid)
               && At(json, c, ":")
            && At(json, c + 1, m.lead + Print(m.value)) && At(json, e, m.after + MembersTail(m.more))
            && e + |m.after| + |MembersTail(m.more)| == pos + |PrintMembers(m)|
  {
    hide *;
    var Member(before, name, mid, lead, v, after, more) := m;
    var tail := after + MembersTail(more);
    var text := (lead + Print(v)) + tail;
    PrintedMember(m);
    var q := pos + |before|;
    var c := q + |Quoted(name)| + |mid|;
    AtParts(json, pos, before, Quoted(name) + (mid + (":" + text)));
    AtParts(json, q, Quoted(name), mid + (":" + text));
    AtParts(json, q + |Quoted(name)|, mid, ":" + text);
    AtParts(json, c, ":", text);
    AtParts(json, c + 1, lead + Print(v), tail);
  }

  lemma PrintedMember(m: Members)
    requires m.Member?
    ensures PrintMembers(m)
            == m.before + (Quoted(m.name) + (m.mid + (":"
                + ((m.lead + Print(m.value)) + (m.after + MembersTail(m.more))))))
  {
    hide Print, Quoted;
  }

  /** The name and colon of a printed member, the place of its value and what follows it. */
  lemma NameScan(unquote: Unquote, json: string, pos: nat, m: Members) returns (q: nat, start: nat, e: nat)
    requires m.Member? && MembersOk(unquote, m) && At(json, pos, PrintMembers(m))
    ensures q == Skip(json, pos) == pos + |m.before| < |json| && json[q] != '}'
    ensures ConsumeString(unquote, json, q) == Some((q + |Quoted(m.name)|, Decoded(unquote, m.name)))
    ensures start == Skip(json, q + |Quoted(m.name)|) + 1 <= |json| && json[start - 1] == ':'
    ensures e == start + |m.lead| + |Print(m.value)| && Delimited(json, e) && At(json, start, m.lead + Print(m.value))
    ensures Skip(json, e) == e + |m.after| < |json| && At(json, e + |m.after|, MembersTail(m.more))
    ensures json[e + |m.after|] == MembersTail(m.more)[0]
    ensures e + |m.after| + |MembersTail(m.more)| == pos + |PrintMembers(m)|
  {
    hide *;
    MemberPlaces(json, pos, m);
    MembersOkStep(unquote, m);
    q := pos + |m.before|;
    var c := q + |Quoted(m.name)| + |m.mid|;
    start := c + 1;
    e := start + |m.lead| + |Print(m.value)|;
    NameAndColon(unquote, json, pos, m, c);
    TailStart(m.more);
    AfterValue(json, e, m.after, MembersTail(m.more));
  }

  lemma TailStart(more: Members)
    ensures MembersTail(more) != "" && IsDelimiter(MembersTail(more)[0]) && !IsSpace(MembersTail(more)[0])
  {
  }

  lemma NameAndColon(unquote: Unquote, json: string, pos: nat, m: Members, c: nat)
    requires m.Member? && MembersOk(unquote, m)
    requires var q := pos + |m.before|;
             && At(json, pos, m.before) && At(json, q, Quoted(m.name)) && At(json, q + |Quoted(m.name)|, m.mid)
             && c == q + |Quoted(m.name)| + |m.mid| && At(json, c, ":")
    ensures var q := pos + |m.before|;
            && Skip(json, pos) == q < |json| && json[q] != '}'
            && ConsumeString(unquote, json, q) == Some((q + |Quoted(m.name)|, Decoded(unquote, m.name)))
            && Skip(json, q + |Quoted(m.name)|) == c < |json| && json[c] == ':'
  {
    hide Skip, WellFormed, Decoded, ConsumeString, BodyOk;
    var q := pos + |m.before|;
    AtChar(json, q, Quoted(m.name), 0);
    AtChar(json, c, ":", 0);
    QuotedScan(unquote, json, q, m.name);
    hide Quoted, At;
    SkipSpaces(json, pos, m.before);
    SkipSpaces(json, q + |Quoted(m.name)|, m.mid);
  }

  /**
   The scanner is exact on printed documents: whatever the whitespace, it accepts the text if and only if no
   object repeats a decoded member name and no value lies deeper than 64 levels below the root.
   */
  lemma ScannerExact(unquote: Unquote, lead: string, v: Value, trail: string)
    requires WellFormed(unquote, v) && Spaces(lead) && Spaces(trail)
    ensures UniqueMembers(unquote, lead + Print(v) + trail) <==> Unique(unquote, v) && Height(v) <= MAX_DEPTH
  {
    hide Print;
    var json := lead + Print(v) + trail;
    var e := |lead| + |Print(v)|;
    assert At(json, 0, lead + Print(v)) && At(json, e, trail);
    if trail != "" {
      AtChar(json, e, trail, 0);
    }
    ValueScan(unquote, json, 0, 0, lead, v);
    SkipSpaces(json, e, trail);
  }
}
