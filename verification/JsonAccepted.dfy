/** Every text that the scanner accepts is a printed document; with `JsonPrinted`, what it accepts on any text. */
module JsonAccepted {
  import opened Prelude
  import opened JsonScanner
  import opened JsonPrinted

  lemma Joined(json: string, a: nat, b: nat, c: nat)
    requires a <= b <= c <= |json|
    ensures json[a..c] == json[a..b] + json[b..c]
  {
  }

  lemma {:induction false} SkippedIsSpace(json: string, pos: nat)
    requires pos <= |json|
    ensures Spaces(json[pos..Skip(json, pos)])
    ensures Skip(json, pos) < |json| ==> !IsSpace(json[Skip(json, pos)])
    decreases |json| - pos
  {
    if pos < |json| && IsSpace(json[pos]) {
      SkippedIsSpace(json, pos + 1);
      Joined(json, pos, pos + 1, Skip(json, pos));
    }
  }

  lemma {:induction false} BodyRead(json: string, pos: nat)
    requires pos <= |json| && StringEnd(json, pos).Some?
    ensures var end := StringEnd(json, pos).value;
            BodyOk(json[pos..end - 1]) && json[end - 1] == '"'
    decreases |json| - pos
  {
    var end := StringEnd(json, pos).value;
    if json[pos] != '"' {
      var n := if json[pos] == '\\' then 2 else 1;
      BodyRead(json, pos + n);
      assert json[pos..end - 1][n..] == json[pos + n..end - 1];
    }
  }

  lemma TextRead(unquote: Unquote, json: string, pos: nat) returns (body: string)
    requires pos <= |json| && ConsumeString(unquote, json, pos).Some?
    ensures var (end, name) := ConsumeString(unquote, json, pos).value;
            TextOk(unquote, body) && json[pos..end] == Quoted(body)
  {
    var end := ConsumeString(unquote, json, pos).value.0;
    BodyRead(json, pos + 1);
    body := json[pos + 1..end - 1];
    assert json[pos..end] == Quoted(body);
  }

  lemma {:induction false} LiteralRead(json: string, pos: nat)
    requires pos <= |json|
    ensures forall i :: pos <= i < LiteralEnd(json, pos) ==> !IsDelimiter(json[i])
    decreases |json| - pos
  {
    if pos < |json| && !IsDelimiter(json[pos]) {
      LiteralRead(json, pos + 1);
    }
  }

  // ---- One round of each loop ----

  lemma ItemParts(unquote: Unquote, json: string, q: nat, depth: int) returns (e: nat, s: nat)
    requires q <= |json| && ScanItems(unquote, json, q, depth).Some?
    ensures q < e <= s < |json| && s == Skip(json, e) && ScanValue(unquote, json, q, depth + 1) == Some(e)
    ensures || (json[s] == ']' && ScanItems(unquote, json, q, depth) == Some(s + 1))
            || (json[s] == ',' && Skip(json, s + 1) > q
                && ScanItems(unquote, json, q, depth) == ScanItems(unquote, json, Skip(json, s + 1), depth))
  {
    hide Skip, ScanValue;
    e := ScanValue(unquote, json, q, depth + 1).value;
    s := Skip(json, e);
  }

  lemma ItemText(json: string, from: nat, q: nat, e: nat, s: nat, end: nat, v: Value, rest: Items)
    requires from <= q <= e <= s <= end <= |json|
    requires json[q..e] == Print(v) && json[s..end] == if rest.NoItem? then "]" else "," + PrintItems(rest)
    ensures json[from..end] == PrintItems(Item(json[from..q], v, json[e..s], rest))
  {
    hide Print;
    Joined(json, e, s, end);
    Joined(json, q, e, end);
    Joined(json, from, q, end);
  }

  lemma MemberParts(unquote: Unquote, json: string, q: nat, depth: int, seen: set<Units>)
    returns (n: nat, name: Units, c: nat, e: nat, s: nat)
    requires q <= |json| && ScanMembers(unquote, json, q, depth, seen).Some?
    ensures q < n <= c < e <= s < |json| && ConsumeString(unquote, json, q) == Some((n, name))
    ensures c == Skip(json, n) && json[c] == ':' && s == Skip(json, e)
    ensures ScanValue(unquote, json, c + 1, depth + 1) == Some(e)
    ensures || (json[s] == '}' && ScanMembers(unquote, json, q, depth, seen) == Some(s + 1))
            || (json[s] == ',' && Skip(json, s + 1) > q
                && ScanMembers(unquote, json, q, depth, seen)
                   == ScanMembers(unquote, json, Skip(json, s + 1), depth, seen + {name}))
  {
    hide Skip, ScanValue, ConsumeString;
    var pair := ConsumeString(unquote, json, q).value;
    n, name := pair.0, pair.1;
    c := Skip(json, n);
    e := ScanValue(unquote, json, c + 1, depth + 1).value;
    s := Skip(json, e);
  }

  lemma MemberText(json: string, from: nat, q: nat, n: nat, c: nat, p: nat, e: nat, s: nat, end: nat,
                   body: string, v: Value, more: Members)
    requires from <= q <= n <= c < p <= e <= s <= end <= |json| && json[c] == ':'
    requires json[q..n] == Quoted(body) && json[p..e] == Print(v)
    requires json[s..end] == if more.NoMember? then "}" else "," + PrintMembers(more)
    ensures json[from..end]
         == PrintMembers(Member(json[from..q], body, json[n..c], json[c + 1..p], v, json[e..s], more))
  {
    hide Print, Quoted;
    Joined(json, e, s, end);
    assert json[c + 1..end] == (json[c + 1..p] + json[p..e]) + json[e..end];
    assert json[c..end] == ":" + json[c + 1..end];
    Joined(json, n, c, end);
    Joined(json, q, n, end);
    Joined(json, from, q, end);
  }

  // ---- Reading ----

  /** An accepted value is a printed value behind the white space that is skipped. */
  lemma {:induction false} ValueRead(unquote: Unquote, json: string, pos: nat, depth: int) returns (v: Value)
    requires pos <= |json| && ScanValue(unquote, json, pos, depth).Some?
    ensures var end := ScanValue(unquote, json, pos, depth).value;
            Skip(json, pos) < end && WellFormed(unquote, v) && json[Skip(json, pos)..end] == Print(v)
    decreases |json| - pos, 0
  {
    hide Skip, ScanValue, ScanItems, ScanMembers, ConsumeString, LiteralEnd, ItemsOk, MembersOk, PrintItems,
         PrintMembers, TextOk, Quoted;
    var p := Skip(json, pos);
    var end := ScanValue(unquote, json, pos, depth).value;
    NotAtEnd(unquote, json, pos, depth);
    SkippedIsSpace(json, pos);
    ScanFrom(unquote, json, pos, depth);
    SkipTwice(json, pos);
    ValueStep(unquote, json, p, depth);
    var q := Skip(json, p + 1);
    SkippedIsSpace(json, p + 1);
    if json[p] == '{' {
      if q < |json| && json[q] == '}' {
        v := EmptyObject(json[p + 1..q]);
        assert json[p..q + 1] == "{" + json[p + 1..q] + "}";
      } else {
        var members := MembersRead(unquote, json, p + 1, depth, {});
        v := Object(members);
        assert json[p..end] == "{" + json[p + 1..end];
      }
    } else if json[p] == '[' {
      if q < |json| && json[q] == ']' {
        v := EmptyArray(json[p + 1..q]);
        assert json[p..q + 1] == "[" + json[p + 1..q] + "]";
      } else {
        var items := ItemsRead(unquote, json, p + 1, depth);
        v := Array(items);
        assert json[p..end] == "[" + json[p + 1..end];
      }
    } else if json[p] == '"' {
      var body := TextRead(unquote, json, p);
      v := Text(body);
    } else {
      LiteralRead(json, p);
      v := Literal(json[p..end]);
    }
  }

  lemma NotAtEnd(unquote: Unquote, json: string, pos: nat, depth: int)
    requires pos <= |json| && ScanValue(unquote, json, pos, depth).Some?
    ensures Skip(json, pos) < |json|
  {
    hide Skip, ScanItems, ScanMembers;
  }

  /** Accepted elements, read from behind the bracket or comma before them. */
  lemma {:induction false} ItemsRead(unquote: Unquote, json: string, from: nat, depth: int) returns (i: Items)
    requires from <= |json| && ScanItems(unquote, json, Skip(json, from), depth).Some?
    ensures var end := ScanItems(unquote, json, Skip(json, from), depth).value;
            from < end && i.Item? && ItemsOk(unquote, i) && json[from..end] == PrintItems(i)
    decreases |json| - Skip(json, from), 1
  {
    hide Skip, ScanValue, ScanItems, WellFormed, Print, PrintItems;
    var q := Skip(json, from);
    var end := ScanItems(unquote, json, q, depth).value;
    var e, s := ItemParts(unquote, json, q, depth);
    SkippedIsSpace(json, from);
    SkippedIsSpace(json, e);
    SkipTwice(json, from);
    var v := ValueRead(unquote, json, q, depth + 1);
    var rest := NoItem;
    if json[s] == ']' {
      assert json[s..end] == "]";
    } else {
      rest := ItemsRead(unquote, json, s + 1, depth);
      assert json[s..end] == "," + json[s + 1..end];
    }
    i := Item(json[from..q], v, json[e..s], rest);
    ItemText(json, from, q, e, s, end, v, rest);
  }

  /** Accepted members, read from behind the brace or comma before them. */
  lemma {:induction false} MembersRead(unquote: Unquote, json: string, from: nat, depth: int, seen: set<Units>)
    returns (m: Members)
    requires from <= |json| && ScanMembers(unquote, json, Skip(json, from), depth, seen).Some?
    ensures var end := ScanMembers(unquote, json, Skip(json, from), depth, seen).value;
            from < end && m.Member? && MembersOk(unquote, m) && json[from..end] == PrintMembers(m)
    decreases |json| - Skip(json, from), 1
  {
    hide Skip, ScanValue, ScanMembers, ConsumeString, WellFormed, TextOk, Quoted, Print, PrintMembers;
    var q := Skip(json, from);
    var end := ScanMembers(unquote, json, q, depth, seen).value;
    var n, name, c, e, s := MemberParts(unquote, json, q, depth, seen);
    var p := Skip(json, c + 1);
    SkippedIsSpace(json, from);
    SkippedIsSpace(json, n);
    SkippedIsSpace(json, c + 1);
    SkippedIsSpace(json, e);
    var body := TextRead(unquote, json, q);
    var v := ValueRead(unquote, json, c + 1, depth + 1);
    var more := NoMember;
    if json[s] == '}' {
      assert json[s..end] == "}";
    } else {
      more := MembersRead(unquote, json, s + 1, depth, seen + {name});
      assert json[s..end] == "," + json[s + 1..end];
    }
    m := Member(json[from..q], body, json[n..c], json[c + 1..p], v, json[e..s], more);
    MemberText(json, from, q, n, c, p, e, s, end, body, v, more);
  }

  /**
   The scanner on any text at all: it accepts exactly the printed documents, in any layout, whose objects repeat no
   decoded name and whose values lie at most 64 levels deep.
   */
  lemma AcceptsExactly(unquote: Unquote, json: string)
    ensures UniqueMembers(unquote, json) <==>
            exists lead, v, trail ::
              && Spaces(lead) && WellFormed(unquote, v) && Spaces(trail) && json == lead + Print(v) + trail
              && Unique(unquote, v) && Height(v) <= 64
  {
    hide Print, WellFormed, Unique, Height, ScanValue, Skip;
    if UniqueMembers(unquote, json) {
      var p, end := Skip(json, 0), ScanValue(unquote, json, 0, 0).value;
      var v := ValueRead(unquote, json, 0, 0);
      SkippedIsSpace(json, 0);
      SkippedIsSpace(json, end);
      var lead, trail := json[0..p], json[end..Skip(json, end)];
      assert json == lead + json[p..end] + trail;
      ScannerExact(unquote, lead, v, trail);
    }
    if lead, v, trail :|
      && Spaces(lead) && WellFormed(unquote, v) && Spaces(trail) && json == lead + Print(v) + trail
      && Unique(unquote, v) && Height(v) <= 64
    {
      ScannerExact(unquote, lead, v, trail);
    }
  }
}
