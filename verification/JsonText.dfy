/**
 JSON values as the token layer exchanges them, and what is assumed of the two JSON libraries: a printed value
 is a well-formed document that shows it, and either parser reads back what either printer wrote.
 */
module JsonText {
  import opened Prelude
  import opened JsonScanner
  import P = JsonPrinted

  /** A value (RFC 8259 section 3). `Integer` is a number written without fraction and exponent. */
  datatype Json =
    | Null
    | Boolean(b: bool)
    | Integer(n: int)
    | Decimal(r: real)
    | Text(text: string)
    | Array(items: seq<Json>)
    | Object(members: map<string, Json>)

  /** Integers up to this size are doubles. */
  const EXACT: int := 0x20_0000_0000_0000
  const INT64_LIMIT: int := 0x8000_0000_0000_0000

  /** Values the two libraries exchange without loss: 64-bit integers, nesting no deeper than `depth`. */
  ghost predicate Plain(j: Json, depth: nat)
    decreases depth
  {
    match j
    case Integer(n) => -INT64_LIMIT <= n < INT64_LIMIT
    case Decimal(_) => false
    case Array(items) => depth > 0 && forall i :: 0 <= i < |items| ==> Plain(items[i], depth - 1)
    case Object(members) => depth > 0 && forall name :: name in members ==> Plain(members[name], depth - 1)
    case _ => true
  }

  /** The reading of a literal: a number, a Boolean or null. */
  type Literals = string -> Option<Json>

  /** The UTF-16 code units of a character: one, or a surrogate pair beyond the first plane. */
  function CharUnits(c: char): Units {
    var n := c as int;
    if n < 0x1_0000 then [n] else [0xD800 + (n - 0x1_0000) / 0x400, 0xDC00 + (n - 0x1_0000) % 0x400]
  }

  function UnitsOf(text: string): Units {
    if text == "" then [] else CharUnits(text[0]) + UnitsOf(text[1..])
  }

  lemma CharUnitsInjective(a: char, b: char, s: Units, t: Units)
    requires CharUnits(a) + s == CharUnits(b) + t
    ensures a == b && s == t
  {
    var x, y := CharUnits(a) + s, CharUnits(b) + t;
    assert x[0] == y[0] && x[|CharUnits(a)|..] == s && y[|CharUnits(b)|..] == t;
    if a as int >= 0x1_0000 {
      assert x[1] == y[1];
    }
  }

  /** UTF-16 identifies no two texts. */
  lemma {:induction false} UnitsInjective(a: string, b: string)
    requires UnitsOf(a) == UnitsOf(b)
    ensures a == b
  {
    if a != "" && b != "" {
      CharUnitsInjective(a[0], b[0], UnitsOf(a[1..]), UnitsOf(b[1..]));
      UnitsInjective(a[1..], b[1..]);
      assert a == [a[0]] + a[1..] && b == [b[0]] + b[1..];
    }
  }

  /** The document `v` shows the value `j`: every member of an object stands in it once. */
  ghost predicate Shows(unquote: Unquote, literals: Literals, v: P.Value, j: Json)
    decreases v
  {
    match v
    case Text(body) => j.Text? && unquote(P.Quoted(body)) == Some(UnitsOf(j.text))
    case Literal(text) => literals(text) == Some(j)
    case EmptyArray(_) => j == Array([])
    case Array(items) => j.Array? && ShowsItems(unquote, literals, items, j.items)
    case EmptyObject(_) => j == Object(map[])
    case Object(members) => j.Object? && ShowsMembers(unquote, literals, members, j.members)
  }

  ghost predicate ShowsItems(unquote: Unquote, literals: Literals, i: P.Items, values: seq<Json>)
    decreases i
  {
    match i
    case NoItem => values == []
    case Item(_, v, _, rest) =>
      values != [] && Shows(unquote, literals, v, values[0]) && ShowsItems(unquote, literals, rest, values[1..])
  }

  ghost predicate ShowsMembers(unquote: Unquote, literals: Literals, m: P.Members, fields: map<string, Json>)
    decreases m
  {
    match m
    case NoMember => fields == map[]
    case Member(_, name, _, _, v, _, more) =>
      exists key :: Names(unquote, name, key) && key in fields
                    && Shows(unquote, literals, v, fields[key])
                    && ShowsMembers(unquote, literals, more, fields - {key})
  }

  /** The quoted text `body` decodes to `key`. */
  ghost predicate Names(unquote: Unquote, body: string, key: string) {
    P.Decoded(unquote, body) == UnitsOf(key)
  }

  // ---- A document that shows a value passes the member scan ----

  lemma {:induction false} ShownIsUnique(unquote: Unquote, literals: Literals, v: P.Value, j: Json)
    requires Shows(unquote, literals, v, j)
    ensures P.Unique(unquote, v)
    decreases v
  {
    match v
    case Array(items) => ShownItemsUnique(unquote, literals, items, j.items);
    case Object(members) => ShownNamesUnique(unquote, literals, members, j.members, {});
    case _ =>
  }

  lemma {:induction false} ShownItemsUnique(unquote: Unquote, literals: Literals, i: P.Items, values: seq<Json>)
    requires ShowsItems(unquote, literals, i, values)
    ensures P.UniqueItems(unquote, i)
    decreases i
  {
    if i.Item? {
      ShownIsUnique(unquote, literals, i.value, values[0]);
      ShownItemsUnique(unquote, literals, i.rest, values[1..]);
    }
  }

  lemma {:induction false} ShownNamesUnique(unquote: Unquote, literals: Literals, m: P.Members,
                                            fields: map<string, Json>, seen: set<Units>)
    requires ShowsMembers(unquote, literals, m, fields) && forall key :: key in fields ==> UnitsOf(key) !in seen
    ensures P.UniqueNames(unquote, m, seen)
    decreases m
  {
    if m.Member? {
      var key :| Names(unquote, m.name, key) && key in fields
                 && Shows(unquote, literals, m.value, fields[key])
                 && ShowsMembers(unquote, literals, m.more, fields - {key});
      var rest := fields - {key};
      forall other | other in rest ensures UnitsOf(other) !in seen + {UnitsOf(key)} {
        if UnitsOf(other) == UnitsOf(key) {
          UnitsInjective(other, key);
        }
      }
      ShownIsUnique(unquote, literals, m.value, fields[key]);
      ShownNamesUnique(unquote, literals, m.more, rest, seen + {UnitsOf(key)});
    }
  }

  lemma {:induction false} ShownHeight(unquote: Unquote, literals: Literals, v: P.Value, j: Json, depth: nat)
    requires Shows(unquote, literals, v, j) && Plain(j, depth)
    ensures P.Height(v) <= depth
    decreases v
  {
    match v
    case Array(items) => ShownItemsHeight(unquote, literals, items, j.items, depth - 1);
    case Object(members) => ShownMembersHeight(unquote, literals, members, j.members, depth - 1);
    case _ =>
  }

  lemma {:induction false} ShownItemsHeight(unquote: Unquote, literals: Literals, i: P.Items, values: seq<Json>,
                                            depth: nat)
    requires ShowsItems(unquote, literals, i, values)
    requires forall k :: 0 <= k < |values| ==> Plain(values[k], depth)
    ensures P.ItemsHeight(i) <= depth
    decreases i
  {
    if i.Item? {
      ShownHeight(unquote, literals, i.value, values[0], depth);
      ShownItemsHeight(unquote, literals, i.rest, values[1..], depth);
    }
  }

  lemma {:induction false} ShownMembersHeight(unquote: Unquote, literals: Literals, m: P.Members,
                                              fields: map<string, Json>, depth: nat)
    requires ShowsMembers(unquote, literals, m, fields)
    requires forall name :: name in fields ==> Plain(fields[name], depth)
    ensures P.MembersHeight(m) <= depth
    decreases m
  {
    if m.Member? {
      var key :| Names(unquote, m.name, key) && key in fields
                 && Shows(unquote, literals, m.value, fields[key])
                 && ShowsMembers(unquote, literals, m.more, fields - {key});
      ShownHeight(unquote, literals, m.value, fields[key], depth);
      ShownMembersHeight(unquote, literals, m.more, fields - {key}, depth);
    }
  }

  // ---- The libraries ----

  /** The bytes of a document as the characters the scanner reads. */
  function Chars(bytes: seq<Byte>): string {
    seq(|bytes|, i requires 0 <= i < |bytes| => bytes[i] as char)
  }

  /**
   Go's encoding/json, Qt's QJsonDocument, which holds objects, and the double nearest to an integer; `unquote` is how
   Qt decodes a text.
   */
  datatype JsonLibrary = JsonLibrary(
    unquote: Unquote,
    literals: Literals,
    goPrint: Json -> seq<Byte>,
    goParse: seq<Byte> -> Option<Json>,
    qtPrint: Json -> seq<Byte>,
    qtParse: seq<Byte> -> Option<Json>,
    nearest: int -> real)

  ghost predicate PrintsDocument(lib: JsonLibrary, bytes: seq<Byte>, j: Json) {
    exists v :: P.WellFormed(lib.unquote, v) && Shows(lib.unquote, lib.literals, v, j) && P.Print(v) == Chars(bytes)
  }

  ghost predicate Lawful(lib: JsonLibrary) {
    && (forall j: Json {:trigger lib.goPrint(j)} :: Plain(j, MAX_DEPTH) ==>
          && PrintsDocument(lib, lib.goPrint(j), j)
          && lib.goParse(lib.goPrint(j)) == Some(j)
          && (j.Object? ==> lib.qtParse(lib.goPrint(j)) == Some(j)))
    && (forall j: Json {:trigger lib.qtPrint(j)} :: j.Object? && Plain(j, MAX_DEPTH) ==>
          && PrintsDocument(lib, lib.qtPrint(j), j)
          && lib.goParse(lib.qtPrint(j)) == Some(j))
    && forall n {:trigger lib.nearest(n)} :: -EXACT <= n <= EXACT ==> lib.nearest(n) == n as real
  }

  /** A printed value is not empty, and the client's member scan accepts it. */
  lemma PrintedPassesScan(lib: JsonLibrary, bytes: seq<Byte>, j: Json)
    requires PrintsDocument(lib, bytes, j) && Plain(j, MAX_DEPTH)
    ensures bytes != [] && UniqueMembers(lib.unquote, Chars(bytes))
  {
    var v :| P.WellFormed(lib.unquote, v) && Shows(lib.unquote, lib.literals, v, j) && P.Print(v) == Chars(bytes);
    hide P.Print, Shows, P.WellFormed, Plain, UniqueMembers, P.Unique;
    ShownIsUnique(lib.unquote, lib.literals, v, j);
    ShownHeight(lib.unquote, lib.literals, v, j, MAX_DEPTH);
    P.ScannerExact(lib.unquote, "", v, "");
    assert "" + P.Print(v) + "" == P.Print(v);
    P.PrintStarts(lib.unquote, v);
  }
}
