/**
 The raw SMBIOS table parser (DMTF DSP0134 sections 6.1.2, 6.1.3 and 7.2.1).

 A table is a run of structures: a formatted area whose second byte is its length, then text strings, each ended
 by a NUL, the last one followed by one NUL more. `Parse` is the loop over the raw buffer; `Records` is what the
 buffer says, and `Serialize` is the format itself.
 */
module Smbios {
  import opened Prelude

  const UUID_OFFSET := 8
  const UUID_SIZE := 16
  const END_OF_TABLE: Byte := 127

  /** The two answers the parser gives; an absent answer is the empty text. */
  datatype Info = Info(systemUuid: string, motherboardSerial: string)

  /** A structure: its formatted area, and its strings as the fields between NULs (one empty field if none). */
  datatype Record = Record(formatted: seq<Byte>, fields: seq<seq<Byte>>)

  // ---- Text ----

  /** White space of the first 256 code points. */
  predicate IsSpace(b: Byte) {
    9 <= b <= 13 || b == 32 || b == 0x85 || b == 0xA0
  }

  function TrimStart(s: seq<Byte>): (t: seq<Byte>)
    ensures t != [] ==> !IsSpace(t[0])
    ensures |t| <= |s| && s[|s| - |t|..] == t
    ensures forall k :: 0 <= k < |s| - |t| ==> IsSpace(s[k])
  {
    if s == [] || !IsSpace(s[0]) then s else TrimStart(s[1..])
  }

  function TrimEnd(s: seq<Byte>): (t: seq<Byte>)
    ensures t != [] ==> !IsSpace(t[|t| - 1])
    ensures t <= s
    ensures forall k :: |t| <= k < |s| ==> IsSpace(s[k])
  {
    if s == [] || !IsSpace(s[|s| - 1]) then s else TrimEnd(s[..|s| - 1])
  }

  /** Each byte is one Latin-1 character. */
  function Latin1(s: seq<Byte>): (text: string) {
    seq(|s|, i requires 0 <= i < |s| => s[i] as char)
  }

  function Trimmed(s: seq<Byte>): string {
    Latin1(TrimEnd(TrimStart(s)))
  }

  // ---- The strings behind a formatted area ----

  predicate DoubleNul(b: seq<Byte>, k: int) {
    0 <= k && k + 1 < |b| && b[k] == 0 && b[k + 1] == 0
  }

  /** The first position from `start` on where two NULs stand. */
  ghost predicate IsStringSetEnd(b: seq<Byte>, start: nat, found: Option<nat>) {
    match found
    case Some(end) => start <= end && DoubleNul(b, end) && forall k :: start <= k < end ==> !DoubleNul(b, k)
    case None => forall k :: start <= k ==> !DoubleNul(b, k)
  }

  function StringSetEnd(b: seq<Byte>, start: nat): (found: Option<nat>)
    ensures IsStringSetEnd(b, start, found)
    decreases |b| - start
  {
    if start + 1 >= |b| then None
    else if DoubleNul(b, start) then Some(start)
    else StringSetEnd(b, start + 1)
  }

  /** The index of the first NUL, or the length when there is none. */
  function FirstNul(s: seq<Byte>): (n: nat)
    ensures n <= |s|
    ensures forall k :: 0 <= k < n ==> s[k] != 0
    ensures n < |s| ==> s[n] == 0
  {
    if s == [] || s[0] == 0 then 0 else 1 + FirstNul(s[1..])
  }

  /** The fields between the NULs of `s`. */
  function Split(s: seq<Byte>): (fields: seq<seq<Byte>>)
    ensures |fields| > 0
    decreases |s|
  {
    var n := FirstNul(s);
    if n == |s| then [s] else [s[..n]] + Split(s[n + 1..])
  }

  /** String number `wanted`, counting from 1; 0 means that the structure names no string. */
  function StringNumber(fields: seq<seq<Byte>>, wanted: Byte): string {
    if 1 <= wanted <= |fields| then Trimmed(fields[wanted - 1]) else ""
  }

  method FindStringSetEnd(table: array<Byte>, start: nat) returns (found: Option<nat>)
    ensures IsStringSetEnd(table[..], start, found)
  {
    var offset := start;
    while offset + 1 < table.Length
      invariant start <= offset
      invariant forall k :: start <= k < offset ==> !DoubleNul(table[..], k)
    {
      if table[offset] == 0 && table[offset + 1] == 0 {
        return Some(offset);
      }
      offset := offset + 1;
    }
    found := None;
  }

  lemma StringSetEndIsUnique(b: seq<Byte>, start: nat, found: Option<nat>)
    requires IsStringSetEnd(b, start, found)
    ensures found == StringSetEnd(b, start)
  {
    var other := StringSetEnd(b, start);
    if found.Some? && other.Some? {
      assert !(found.value < other.value) && !(other.value < found.value);
    }
  }

  lemma {:induction false} FirstNulIs(s: seq<Byte>, n: nat)
    requires n <= |s| && forall k :: 0 <= k < n ==> s[k] != 0
    requires n < |s| ==> s[n] == 0
    ensures FirstNul(s) == n
  {
    if n > 0 {
      FirstNulIs(s[1..], n - 1);
    }
  }

  /** One round of the string loop: the field that ends at `nul` is the first field of what is left. */
  lemma SplitOnce(b: seq<Byte>, start: nat, nul: nat, end: nat)
    requires start <= nul <= end < |b| && b[nul] == 0
    requires forall k :: start <= k < nul ==> b[k] != 0
    ensures Split(b[start..end])
         == if nul == end then [b[start..nul]] else [b[start..nul]] + Split(b[nul + 1..end])
  {
    hide Split, FirstNul;
    var rest := b[start..end];
    FirstNulIs(rest, nul - start);
    SplitAtFirst(rest);
    assert rest[..nul - start] == b[start..nul];
    if nul < end {
      assert rest[nul - start + 1..] == b[nul + 1..end];
    }
  }

  lemma SplitAtFirst(s: seq<Byte>)
    ensures var n := FirstNul(s);
            Split(s) == if n == |s| then [s] else [s[..n]] + Split(s[n + 1..])
  {
    hide FirstNul;
  }

  /**
   The string loop, with its eight-bit counter. The counter never wraps before the answer is decided, so the
   answer is the one an unbounded counter gives.
   */
  method SmbiosString(table: array<Byte>, stringsStart: nat, stringsEnd: nat, wantedIndex: Byte)
    returns (text: string)
    requires stringsStart <= stringsEnd < table.Length && table[stringsEnd] == 0
    ensures text == StringNumber(Split(table[..][stringsStart..stringsEnd]), wantedIndex)
  {
    hide Split, StringNumber, Trimmed;
    if wantedIndex == 0 {
      NoString(Split(table[..][stringsStart..stringsEnd]));
      return "";
    }
    var currentIndex: Byte := 1;
    var stringStart := stringsStart;
    ghost var b := table[..];
    ghost var answer := StringNumber(Split(b[stringsStart..stringsEnd]), wantedIndex);
    while stringStart <= stringsEnd
      invariant stringsStart <= stringStart <= stringsEnd
      invariant 1 <= currentIndex <= wantedIndex
      invariant answer == StringNumber(Split(b[stringStart..stringsEnd]), wantedIndex - currentIndex + 1)
      decreases stringsEnd - stringStart
    {
      var stringEnd := stringStart;
      while stringEnd <= stringsEnd && table[stringEnd] != 0
        invariant stringStart <= stringEnd <= stringsEnd
        invariant forall k :: stringStart <= k < stringEnd ==> b[k] != 0
      {
        stringEnd := stringEnd + 1;
      }
      NumberOnce(b, stringStart, stringEnd, stringsEnd, wantedIndex - currentIndex + 1);
      if currentIndex == wantedIndex {
        assert table[stringStart..stringEnd] == b[stringStart..stringEnd];
        return Trimmed(table[stringStart..stringEnd]);
      }
      if stringEnd == stringsEnd {
        break;
      }
      stringStart := stringEnd + 1;
      currentIndex := (currentIndex + 1) % 256;
    }
    text := "";
  }

  lemma NoString(fields: seq<seq<Byte>>)
    ensures StringNumber(fields, 0) == ""
  {
  }

  lemma NumberOfRest(first: seq<Byte>, rest: seq<seq<Byte>>, wanted: Byte)
    requires wanted >= 1
    ensures StringNumber([first] + rest, wanted)
         == if wanted == 1 then Trimmed(first) else StringNumber(rest, wanted - 1)
  {
    hide Trimmed;
  }

  lemma NumberOfOne(first: seq<Byte>, wanted: Byte)
    requires wanted >= 1
    ensures StringNumber([first], wanted) == if wanted == 1 then Trimmed(first) else ""
  {
    hide Trimmed;
  }

  /** The same round for the string asked for: it is the first field, or one less of what is left, or missing. */
  lemma NumberOnce(b: seq<Byte>, start: nat, nul: nat, end: nat, wanted: Byte)
    requires start <= nul <= end < |b| && b[nul] == 0 && wanted >= 1
    requires forall k :: start <= k < nul ==> b[k] != 0
    ensures StringNumber(Split(b[start..end]), wanted)
         == if wanted == 1 then Trimmed(b[start..nul])
            else if nul == end then ""
            else StringNumber(Split(b[nul + 1..end]), wanted - 1)
  {
    hide *;
    SplitOnce(b, start, nul, end);
    if nul == end {
      NumberOfOne(b[start..nul], wanted);
    } else {
      NumberOfRest(b[start..nul], Split(b[nul + 1..end]), wanted);
    }
  }

  // ---- The UUID ----

  /** The sixteen bytes of a type 1 structure's UUID, unless it is too short or holds the "not set" values. */
  function UuidBytes(formatted: seq<Byte>): (uuid: Option<seq<Byte>>)
    ensures uuid.Some? ==> |uuid.value| == UUID_SIZE
  {
    if |formatted| < UUID_OFFSET + UUID_SIZE then None else
    var uuid := formatted[UUID_OFFSET..UUID_OFFSET + UUID_SIZE];
    if (forall b :: b in uuid ==> b == 0) || (forall b :: b in uuid ==> b == 0xff) then None
    else Some(uuid)
  }

  /** Where the text of a UUID shows the two hex digits of byte `k`: the first three groups are little-endian. */
  function Place(k: nat): nat
    requires k < UUID_SIZE
  {
    if k < 4 then 6 - 2 * k
    else if k < 6 then 9 + 2 * (5 - k)
    else if k < 8 then 14 + 2 * (7 - k)
    else if k < 10 then 19 + 2 * (k - 8)
    else 24 + 2 * (k - 10)
  }

  /** `text` is the 8-4-4-4-12 form of the sixteen bytes. */
  ghost predicate IsUuidText(text: string, uuid: seq<Byte>) {
    && |uuid| == UUID_SIZE
    && |text| == 36
    && (forall k :: k == 8 || k == 13 || k == 18 || k == 23 ==> text[k] == '-')
    && forall k {:trigger uuid[k]} :: 0 <= k < UUID_SIZE ==>
         text[Place(k)] == HexDigit(uuid[k] / 16) && text[Place(k) + 1] == HexDigit(uuid[k] % 16)
  }

  function Ordered(uuid: seq<Byte>): (ordered: seq<Byte>)
    requires |uuid| == UUID_SIZE
  {
    [uuid[3], uuid[2], uuid[1], uuid[0], uuid[5], uuid[4], uuid[7], uuid[6]] + uuid[8..]
  }

  function UuidText(uuid: seq<Byte>): (text: string)
    requires |uuid| == UUID_SIZE
  {
    var hex := Hex(Ordered(uuid));
    hex[0..8] + "-" + hex[8..12] + "-" + hex[12..16] + "-" + hex[16..20] + "-" + hex[20..32]
  }

  /** The text a type 1 structure gives: none when the UUID is absent or not set. */
  function UuidOf(formatted: seq<Byte>): string {
    match UuidBytes(formatted)
    case None => ""
    case Some(uuid) => UuidText(uuid)
  }

  method AllOf(bytes: seq<Byte>, value: Byte) returns (all: bool)
    ensures all <==> forall b :: b in bytes ==> b == value
  {
    for i := 0 to |bytes|
      invariant forall k :: 0 <= k < i ==> bytes[k] == value
    {
      if bytes[i] != value {
        assert bytes[i] in bytes;
        return false;
      }
    }
    all := true;
  }

  method FormatUuid(formatted: seq<Byte>) returns (text: string)
    ensures text == UuidOf(formatted)
  {
    if |formatted| < UUID_OFFSET + UUID_SIZE {
      return "";
    }
    var uuid := formatted[UUID_OFFSET..UUID_OFFSET + UUID_SIZE];
    var allZero := AllOf(uuid, 0);
    var allOnes := AllOf(uuid, 0xff);
    if allZero || allOnes {
      return "";
    }
    var ordered: seq<Byte> := [uuid[3]];
    ordered := ordered + [uuid[2]];
    ordered := ordered + [uuid[1]];
    ordered := ordered + [uuid[0]];
    ordered := ordered + [uuid[5]];
    ordered := ordered + [uuid[4]];
    ordered := ordered + [uuid[7]];
    ordered := ordered + [uuid[6]];
    ordered := ordered + uuid[8..];
    assert ordered == Ordered(uuid);
    var hex := Hex(ordered);
    text := hex[0..8] + "-" + hex[8..12] + "-" + hex[12..16] + "-" + hex[16..20] + "-" + hex[20..32];
  }

  /** Which byte stands at position `k` of the text order. */
  function Source(k: nat): nat
    requires k < UUID_SIZE
  {
    if k < 4 then 3 - k else if k < 6 then 9 - k else if k < 8 then 13 - k else k
  }

  /** Every byte's two digits stand where the 8-4-4-4-12 form puts them. */
  lemma UuidIsReadable(uuid: seq<Byte>)
    requires |uuid| == UUID_SIZE
    ensures IsUuidText(UuidText(uuid), uuid)
  {
    hide HexDigit, Hex;
    var hex := Hex(Ordered(uuid));
    var text := UuidText(uuid);
    forall k {:trigger uuid[k]} | 0 <= k < UUID_SIZE
      ensures text[Place(k)] == HexDigit(uuid[k] / 16) && text[Place(k) + 1] == HexDigit(uuid[k] % 16)
    {
      DigitsPlaced(hex, uuid, k);
    }
  }

  lemma DigitsPlaced(hex: string, uuid: seq<Byte>, k: nat)
    requires |uuid| == UUID_SIZE && hex == Hex(Ordered(uuid)) && k < UUID_SIZE
    ensures var text := UuidText(uuid);
            && |text| == 36
            && text[Place(k)] == HexDigit(uuid[k] / 16) && text[Place(k) + 1] == HexDigit(uuid[k] % 16)
  {
    hide HexDigit, Hex;
    var j := Source(k);
    assert Ordered(uuid)[j] == uuid[k];
    assert hex[2 * j] == HexDigit(uuid[k] / 16) && hex[2 * j + 1] == HexDigit(uuid[k] % 16);
  }

  /** Two UUIDs with the same text are the same sixteen bytes. */
  lemma UuidTextIsInjective(a: seq<Byte>, b: seq<Byte>)
    requires |a| == UUID_SIZE && |b| == UUID_SIZE && UuidText(a) == UuidText(b)
    ensures a == b
  {
    UuidIsReadable(a);
    UuidIsReadable(b);
    hide UuidText, Hex, HexDigit, Place;
    forall k | 0 <= k < UUID_SIZE
      ensures a[k] == b[k]
    {
      assert HexDigit(a[k] / 16) == HexDigit(b[k] / 16) && HexDigit(a[k] % 16) == HexDigit(b[k] % 16);
      HexDigitsInjective(a[k], b[k]);
    }
  }

  // ---- The table ----

  /** The structure at `start` and the offset behind it, or nothing when the loop stops there. */
  function NextRecord(b: seq<Byte>, start: nat): (found: Option<(Record, nat)>)
    ensures found.Some? ==> start < found.value.1 <= |b|
  {
    if start + 4 > |b| then None else
    var length := b[start + 1];
    if length < 4 || length > |b| - start then None else
    match StringSetEnd(b, start + length)
    case None => None
    case Some(end) => Some((Record(b[start..start + length], Split(b[start + length..end])), end + 2))
  }

  /** The structures of a table from `start` on: up to the end-of-table structure or the first unreadable one. */
  function Records(b: seq<Byte>, start: nat): seq<Record>
    decreases |b| - start
  {
    match NextRecord(b, start)
    case None => []
    case Some((record, next)) => if IsEnd(record) then [record] else [record] + Records(b, next)
  }

  predicate IsEnd(record: Record) {
    record.formatted != [] && record.formatted[0] == END_OF_TABLE
  }

  predicate HasUuid(record: Record) {
    record.formatted != [] && record.formatted[0] == 1
  }

  predicate HasSerial(record: Record) {
    |record.formatted| > 7 && record.formatted[0] == 2
  }

  function SerialOf(record: Record): string
    requires HasSerial(record)
  {
    StringNumber(record.fields, record.formatted[7])
  }

  function Update(info: Info, record: Record): Info {
    Info(if HasUuid(record) then UuidOf(record.formatted) else info.systemUuid,
         if HasSerial(record) then SerialOf(record) else info.motherboardSerial)
  }

  function Fold(info: Info, records: seq<Record>): Info
    decreases |records|
  {
    if records == [] then info else Fold(Update(info, records[0]), records[1..])
  }

  /** The answer for a list of structures: what the last ones of them say. */
  function Answer(records: seq<Record>): Info {
    Fold(Info("", ""), records)
  }

  lemma OneMore(b: seq<Byte>, start: nat, info: Info)
    requires NextRecord(b, start).Some?
    ensures var (record, next) := NextRecord(b, start).value;
            Fold(info, Records(b, start))
            == if IsEnd(record) then Update(info, record) else Fold(Update(info, record), Records(b, next))
  {
    hide NextRecord, Update;
    var (record, next) := NextRecord(b, start).value;
    if !IsEnd(record) {
      assert Records(b, start)[1..] == Records(b, next);
    }
  }

  /** What one structure contributes. */
  method AddRecord(table: array<Byte>, recordStart: nat, stringsEnd: nat, info: Info) returns (result: Info)
    requires recordStart + 4 <= table.Length && 4 <= table[recordStart + 1]
    requires recordStart + table[recordStart + 1] <= stringsEnd < table.Length && table[stringsEnd] == 0
    ensures var b := table[..];
            var stringsStart := recordStart + b[recordStart + 1];
            result == Update(info, Record(b[recordStart..stringsStart], Split(b[stringsStart..stringsEnd])))
  {
    hide Split, UuidOf, StringNumber;
    result := info;
    var formatted := table[recordStart..recordStart + table[recordStart + 1]];
    assert formatted == table[..][recordStart..recordStart + table[recordStart + 1]];
    if formatted[0] == 1 {
      var uuid := FormatUuid(formatted);
      result := result.(systemUuid := uuid);
    } else if formatted[0] == 2 && |formatted| > 7 {
      var serial := SmbiosString(table, recordStart + |formatted|, stringsEnd, formatted[7]);
      result := result.(motherboardSerial := serial);
    }
  }

  /**
   The parser's loop. Every read is within the buffer, the offset strictly grows, and the answer is the one for
   the structures of the table: what the last ones of them say.
   */
  method Parse(table: array<Byte>) returns (result: Info)
    ensures result == Answer(Records(table[..], 0))
    ensures SaysUuid(Records(table[..], 0), result.systemUuid)
    ensures SaysSerial(Records(table[..], 0), result.motherboardSerial)
  {
    hide Split, StringSetEnd, IsStringSetEnd, Update, NextRecord, Records, Fold, Answer, SaysUuid, SaysSerial;
    result := Info("", "");
    var recordStart: nat := 0;
    ghost var b := table[..];
    AnswerIsTheLast(Records(b, 0));
    AnswerIsFold(Records(b, 0));
    while recordStart + 4 <= table.Length
      invariant recordStart <= table.Length
      invariant Fold(result, Records(b, recordStart)) == Answer(Records(b, 0))
      decreases table.Length - recordStart
    {
      var type_ := table[recordStart];
      var formattedLength := table[recordStart + 1];
      if formattedLength < 4 || formattedLength > table.Length - recordStart {
        NoRecordAt(b, recordStart);
        break;
      }
      var stringsStart := recordStart + formattedLength;
      var stringsEnd := FindStringSetEnd(table, stringsStart);
      RecordAt(b, recordStart, stringsEnd);
      if stringsEnd.None? {
        break;
      }
      OneMore(b, recordStart, result);
      result := AddRecord(table, recordStart, stringsEnd.value, result);
      recordStart := stringsEnd.value + 2;
      if type_ == 127 {
        return;
      }
    }
    if recordStart + 4 > table.Length {
      NoRecordAt(b, recordStart);
    }
    NoMore(b, recordStart, result);
  }

  lemma NoRecordAt(b: seq<Byte>, start: nat)
    requires start + 4 > |b| || b[start + 1] < 4 || b[start + 1] > |b| - start
    ensures NextRecord(b, start).None?
  {
    hide StringSetEnd, Split;
  }

  lemma AnswerIsFold(records: seq<Record>)
    ensures Fold(Info("", ""), records) == Answer(records)
  {
  }

  /** Where the loop stops short nothing is left to read. */
  lemma NoMore(b: seq<Byte>, start: nat, info: Info)
    requires NextRecord(b, start).None?
    ensures Fold(info, Records(b, start)) == info
  {
    hide NextRecord;
  }

  /** What the loop reads at an offset, given the end of the string set. */
  lemma RecordAt(b: seq<Byte>, start: nat, found: Option<nat>)
    requires start + 4 <= |b| && 4 <= b[start + 1] <= |b| - start
    requires IsStringSetEnd(b, start + b[start + 1], found)
    ensures match found
            case None => NextRecord(b, start).None?
            case Some(end) =>
              var strings := start + b[start + 1];
              && strings <= end && end + 2 <= |b| && b[end] == 0
              && var record := Record(b[start..strings], Split(b[strings..end]));
              && NextRecord(b, start) == Some((record, end + 2))
              && (IsEnd(record) <==> b[start] == END_OF_TABLE)
  {
    StringSetEndIsUnique(b, start + b[start + 1], found);
    hide Split;
  }

  // ---- The serialized form ----

  function Join(fields: seq<seq<Byte>>): seq<Byte> {
    if fields == [] then [] else if |fields| == 1 then fields[0] else fields[0] + [0] + Join(fields[1..])
  }

  function Serialize(record: Record): seq<Byte> {
    record.formatted + Join(record.fields) + [0, 0]
  }

  predicate NulFree(field: seq<Byte>) {
    0 !in field
  }

  /** Fields as a string set can hold them: only the first can be empty, or two NULs would stand too early. */
  predicate FieldsOk(fields: seq<seq<Byte>>) {
    && |fields| > 0
    && (forall i :: 0 <= i < |fields| ==> NulFree(fields[i]))
    && forall i :: 1 <= i < |fields| ==> fields[i] != []
  }

  predicate RecordOk(record: Record) {
    && 4 <= |record.formatted| < 256
    && record.formatted[1] == |record.formatted|
    && FieldsOk(record.fields)
  }

  /** A whole run of structures: an end-of-table structure only at the end. */
  predicate RunOk(records: seq<Record>) {
    && (forall i :: 0 <= i < |records| ==> RecordOk(records[i]))
    && forall i :: 0 <= i < |records| - 1 ==> !IsEnd(records[i])
  }

  function SerializeAll(records: seq<Record>): seq<Byte> {
    if records == [] then [] else Serialize(records[0]) + SerializeAll(records[1..])
  }

  ghost predicate NoDoubleNul(b: seq<Byte>) {
    forall k :: !DoubleNul(b, k)
  }

  lemma {:induction false} JoinSplit(s: seq<Byte>)
    ensures Join(Split(s)) == s
    ensures forall i :: 0 <= i < |Split(s)| ==> NulFree(Split(s)[i])
    decreases |s|
  {
    var n := FirstNul(s);
    if n < |s| {
      JoinSplit(s[n + 1..]);
      assert Split(s)[1..] == Split(s[n + 1..]);
      assert s == s[..n] + [0] + s[n + 1..];
    }
  }

  lemma SplitFirst(field: seq<Byte>, rest: seq<Byte>)
    requires NulFree(field)
    ensures Split(field + [0] + rest) == [field] + Split(rest)
  {
    var s := field + [0] + rest;
    FirstNulIs(s, |field|);
    assert s[..|field|] == field && s[|field| + 1..] == rest;
  }

  lemma {:induction false} SplitJoin(fields: seq<seq<Byte>>)
    requires |fields| > 0 && forall i :: 0 <= i < |fields| ==> NulFree(fields[i])
    ensures Split(Join(fields)) == fields
    decreases |fields|
  {
    hide NulFree;
    assert NulFree(fields[0]);
    if |fields| == 1 {
      WholeIsOneField(fields[0]);
    } else {
      hide Split;
      SplitFirst(fields[0], Join(fields[1..]));
      SplitJoin(fields[1..]);
      assert fields == [fields[0]] + fields[1..];
    }
  }

  lemma WholeIsOneField(field: seq<Byte>)
    requires NulFree(field)
    ensures Split(field) == [field]
  {
    FirstNulIs(field, |field|);
  }

  /** The fields of a string set never put two NULs side by side, nor end in one. */
  lemma {:induction false} JoinHasNoDoubleNul(fields: seq<seq<Byte>>)
    requires FieldsOk(fields)
    ensures NoDoubleNul(Join(fields) + [0])
    ensures fields[0] != [] ==> Join(fields)[0] != 0
    decreases |fields|
  {
    assert NulFree(fields[0]);
    var n := |fields[0]|;
    if |fields| > 1 {
      JoinHasNoDoubleNul(fields[1..]);
      var rest := Join(fields[1..]) + [0];
      var all := Join(fields) + [0];
      assert all == fields[0] + [0] + rest;
      forall k ensures !DoubleNul(all, k) {
        if n < k && k + 1 < |all| {
          assert !DoubleNul(rest, k - n - 1);
          assert all[k] == rest[k - n - 1] && all[k + 1] == rest[k - n];
        }
      }
    }
  }

  lemma {:induction false} SplitHasFields(s: seq<Byte>)
    requires NoDoubleNul(s + [0])
    ensures FieldsOk(Split(s))
    ensures s != [] && s[0] != 0 ==> Split(s)[0] != []
    decreases |s|
  {
    JoinSplit(s);
    var n := FirstNul(s);
    if n < |s| {
      var rest := s[n + 1..];
      assert !DoubleNul(s + [0], n);
      forall k ensures !DoubleNul(rest + [0], k) {
        assert !DoubleNul(s + [0], k + n + 1);
      }
      SplitHasFields(rest);
      assert Split(s) == [s[..n]] + Split(rest);
    }
  }

  // ---- The parser reads exactly what the format writes ----

  /** The serialized structure stands in `b` at `start`, the last two NULs at `end`. */
  ghost predicate StandsAt(b: seq<Byte>, start: nat, record: Record, end: nat) {
    var strings := start + |record.formatted|;
    && strings <= end && end + 2 <= |b|
    && b[start..strings] == record.formatted
    && b[strings..end] == Join(record.fields)
    && DoubleNul(b, end)
  }

  lemma SerializedStands(before: seq<Byte>, record: Record, after: seq<Byte>)
    ensures StandsAt(before + Serialize(record) + after, |before|, record, |before| + |Serialize(record)| - 2)
  {
    hide Join;
  }

  /** The string set of a serialized structure ends where the structure does, whatever follows. */
  lemma StringSetEnds(b: seq<Byte>, start: nat, end: nat, fields: seq<seq<Byte>>)
    requires FieldsOk(fields)
    requires start <= end <= |b| && b[start..end] == Join(fields) && DoubleNul(b, end)
    ensures StringSetEnd(b, start) == Some(end)
  {
    var text := b[start..end];
    JoinHasNoDoubleNul(fields);
    hide Join, FieldsOk;
    forall k | start <= k < end ensures !DoubleNul(b, k) {
      assert !DoubleNul(text + [0], k - start);
    }
    StringSetEndIsUnique(b, start, Some(end));
  }

  lemma ReadsWhatStands(b: seq<Byte>, start: nat, record: Record, end: nat)
    requires RecordOk(record) && StandsAt(b, start, record, end)
    ensures NextRecord(b, start) == Some((record, end + 2))
  {
    var length := |record.formatted|;
    assert FieldsOk(record.fields);
    StringSetEnds(b, start + length, end, record.fields);
    SplitJoin(record.fields);
    hide Join, Split, FieldsOk, IsStringSetEnd;
    assert b[start + 1] == b[start..start + length][1];
  }

  lemma ReadsOne(before: seq<Byte>, record: Record, after: seq<Byte>)
    requires RecordOk(record)
    ensures NextRecord(before + Serialize(record) + after, |before|)
         == Some((record, |before| + |Serialize(record)|))
  {
    hide *;
    SerializeLength(record);
    SerializedStands(before, record, after);
    ReadsWhatStands(before + Serialize(record) + after, |before|, record, |before| + |Serialize(record)| - 2);
  }

  lemma SerializeLength(record: Record)
    ensures |Serialize(record)| >= 2
  {
  }

  /**
   Reading back: the structures of a serialized run are that run, at any offset and before any bytes that end
   the run, either because its last structure is the end-of-table one or because no structure follows.
   */
  lemma {:induction false} RecordsOfSerialized(before: seq<Byte>, records: seq<Record>, after: seq<Byte>)
    requires RunOk(records)
    requires var b := before + SerializeAll(records) + after;
             || (records != [] && IsEnd(records[|records| - 1]))
             || NextRecord(b, |before| + |SerializeAll(records)|).None?
    ensures Records(before + SerializeAll(records) + after, |before|) == records
    decreases |records|
  {
    hide NextRecord, Serialize, RecordOk, IsEnd;
    var b := before + SerializeAll(records) + after;
    if records != [] {
      var one := Serialize(records[0]);
      var rest := SerializeAll(records[1..]);
      assert b == before + one + (rest + after);
      ReadsOne(before, records[0], rest + after);
      if !IsEnd(records[0]) {
        assert b == (before + one) + rest + after;
        RecordsOfSerialized(before + one, records[1..], after);
      }
    }
  }

  lemma StringSetIsOk(b: seq<Byte>, start: nat, end: nat)
    requires start <= end && StringSetEnd(b, start) == Some(end)
    ensures FieldsOk(Split(b[start..end]))
    ensures b[start..end + 2] == Join(Split(b[start..end])) + [0, 0]
  {
    hide Split, Join, FieldsOk, NoDoubleNul, StringSetEnd;
    NoEarlyEnd(b, start, end);
    SplitHasFields(b[start..end]);
    JoinSplit(b[start..end]);
  }

  lemma NoEarlyEnd(b: seq<Byte>, start: nat, end: nat)
    requires start <= end && StringSetEnd(b, start) == Some(end)
    ensures end + 2 <= |b| && b[start..end + 2] == b[start..end] + [0, 0]
    ensures NoDoubleNul(b[start..end] + [0])
  {
    hide StringSetEnd;
    var text := b[start..end];
    forall k ensures !DoubleNul(text + [0], k) {
      if 0 <= k < |text| {
        assert !DoubleNul(b, start + k);
      }
    }
  }

  lemma RecordParts(b: seq<Byte>, start: nat)
    requires NextRecord(b, start).Some?
    ensures var (record, next) := NextRecord(b, start).value;
            && start + 4 <= |b| && 4 <= b[start + 1] <= |b| - start
            && var strings := start + b[start + 1];
            && strings + 2 <= next <= |b| && StringSetEnd(b, strings) == Some(next - 2)
            && record == Record(b[start..strings], Split(b[strings..next - 2]))
  {
    hide Split;
  }

  lemma ReadIsOk(b: seq<Byte>, start: nat)
    requires NextRecord(b, start).Some?
    ensures var (record, next) := NextRecord(b, start).value;
            RecordOk(record) && b[start..next] == Serialize(record)
  {
    hide *;
    RecordParts(b, start);
    var (record, next) := NextRecord(b, start).value;
    var strings := start + b[start + 1];
    StringSetIsOk(b, strings, next - 2);
    Halves(b, start, strings, next);
    PartsAreOk(b, start, strings, record);
    SerializeIs(record, b[strings..next]);
  }

  lemma PartsAreOk(b: seq<Byte>, start: nat, strings: nat, record: Record)
    requires start + 4 <= strings <= |b| && strings == start + b[start + 1]
    requires record.formatted == b[start..strings] && FieldsOk(record.fields)
    ensures RecordOk(record)
  {
    hide FieldsOk;
  }

  lemma SerializeIs(record: Record, strings: seq<Byte>)
    requires strings == Join(record.fields) + [0, 0]
    ensures Serialize(record) == record.formatted + strings
  {
    hide Join;
  }

  lemma Halves(b: seq<Byte>, i: nat, j: nat, k: nat)
    requires i <= j <= k <= |b|
    ensures b[i..k] == b[i..j] + b[j..k]
  {
  }

  /**
   The other direction, on arbitrary bytes: what the parser reads is a well-formed run, its serialization is
   what stands in the buffer, and the parser stops there only for an end-of-table structure or for bytes that
   start no structure.
   */
  lemma {:induction false} EveryTableIsARun(b: seq<Byte>, start: nat)
    requires start <= |b|
    ensures var records := Records(b, start);
            && RunOk(records)
            && start + |SerializeAll(records)| <= |b|
            && b[start..start + |SerializeAll(records)|] == SerializeAll(records)
            && ((records != [] && IsEnd(records[|records| - 1]))
                || NextRecord(b, start + |SerializeAll(records)|).None?)
    decreases |b| - start
  {
    hide NextRecord, Serialize, RecordOk, IsEnd;
    if NextRecord(b, start).Some? {
      var (record, next) := NextRecord(b, start).value;
      ReadIsOk(b, start);
      if !IsEnd(record) {
        EveryTableIsARun(b, next);
        assert Records(b, start)[1..] == Records(b, next);
      } else {
        assert SerializeAll([record]) == Serialize(record);
      }
    }
  }

  // ---- The standard's own layout ----

  /** A structure as the standard writes it: its strings are non-empty and NUL-free. */
  datatype Structure = Structure(formatted: seq<Byte>, strings: seq<seq<Byte>>) {
    predicate Valid() {
      && 4 <= |formatted| < 256
      && formatted[1] == |formatted|
      && forall i :: 0 <= i < |strings| ==> strings[i] != [] && NulFree(strings[i])
    }

    function Bytes(): seq<Byte> {
      formatted + Terminated(strings) + (if strings == [] then [0, 0] else [0])
    }

    function AsRecord(): Record {
      Record(formatted, if strings == [] then [[]] else strings)
    }
  }

  /** Every string followed by its NUL. */
  function Terminated(strings: seq<seq<Byte>>): seq<Byte> {
    if strings == [] then [] else strings[0] + [0] + Terminated(strings[1..])
  }

  function TableBytes(structures: seq<Structure>): seq<Byte> {
    if structures == [] then [] else structures[0].Bytes() + TableBytes(structures[1..])
  }

  /** The structures a reader meets: up to and including the first end-of-table one. */
  function Met(structures: seq<Structure>): seq<Record> {
    if structures == [] then []
    else if IsEnd(structures[0].AsRecord()) then [structures[0].AsRecord()]
    else [structures[0].AsRecord()] + Met(structures[1..])
  }

  /** The bytes of the structures behind those. */
  function Behind(structures: seq<Structure>): seq<Byte> {
    if structures == [] then []
    else if IsEnd(structures[0].AsRecord()) then TableBytes(structures[1..])
    else Behind(structures[1..])
  }

  predicate HasEnd(structures: seq<Structure>) {
    exists i :: 0 <= i < |structures| && IsEnd(structures[i].AsRecord())
  }

  lemma {:induction false} JoinIsTerminated(strings: seq<seq<Byte>>)
    requires strings != []
    ensures Join(strings) + [0] == Terminated(strings)
    decreases |strings|
  {
    if |strings| > 1 {
      JoinIsTerminated(strings[1..]);
    } else {
      assert Terminated(strings) == strings[0] + [0] + [];
    }
  }

  lemma LayoutAgrees(one: Structure)
    requires one.Valid()
    ensures one.Bytes() == Serialize(one.AsRecord()) && RecordOk(one.AsRecord())
  {
    if one.strings != [] {
      JoinIsTerminated(one.strings);
      assert Join(one.strings) + [0, 0] == (Join(one.strings) + [0]) + [0];
    }
  }

  lemma {:induction false} MetIsRun(structures: seq<Structure>)
    requires forall i :: 0 <= i < |structures| ==> structures[i].Valid()
    ensures RunOk(Met(structures))
    decreases |structures|
  {
    hide RecordOk, IsEnd;
    if structures != [] {
      LayoutAgrees(structures[0]);
      if !IsEnd(structures[0].AsRecord()) {
        MetIsRun(structures[1..]);
      }
    }
  }

  lemma {:induction false} MetBytes(structures: seq<Structure>)
    requires forall i :: 0 <= i < |structures| ==> structures[i].Valid()
    ensures TableBytes(structures) == SerializeAll(Met(structures)) + Behind(structures)
    decreases |structures|
  {
    hide Serialize, IsEnd;
    if structures != [] {
      var first := structures[0].AsRecord();
      LayoutAgrees(structures[0]);
      if IsEnd(first) {
        assert SerializeAll([first]) == Serialize(first);
      } else {
        MetBytes(structures[1..]);
        assert Met(structures)[1..] == Met(structures[1..]);
      }
    }
  }

  /** Behind a structure that is not the end of the table everything is as for the rest alone. */
  lemma NotEndedYet(structures: seq<Structure>)
    requires structures != [] && !IsEnd(structures[0].AsRecord())
    ensures HasEnd(structures) <==> HasEnd(structures[1..])
    ensures Behind(structures) == Behind(structures[1..])
    ensures Met(structures) == [structures[0].AsRecord()] + Met(structures[1..])
  {
    hide IsEnd;
    var rest := structures[1..];
    if i :| 0 <= i < |structures| && IsEnd(structures[i].AsRecord()) {
      assert rest[i - 1] == structures[i];
    }
    if i :| 0 <= i < |rest| && IsEnd(rest[i].AsRecord()) {
      assert structures[i + 1] == rest[i];
    }
  }

  lemma EndedAtOnce(structures: seq<Structure>)
    requires structures != [] && IsEnd(structures[0].AsRecord())
    ensures HasEnd(structures) && Met(structures) == [structures[0].AsRecord()]
  {
    hide IsEnd;
  }

  lemma NothingEnds()
    ensures !HasEnd([]) && Behind([]) == [] && Met([]) == []
  {
  }

  lemma {:induction false} MetEnds(structures: seq<Structure>)
    ensures if HasEnd(structures) then var met := Met(structures); met != [] && IsEnd(met[|met| - 1])
            else Behind(structures) == []
    decreases |structures|
  {
    hide IsEnd, HasEnd, Met, Behind;
    if structures == [] {
      NothingEnds();
    } else if IsEnd(structures[0].AsRecord()) {
      EndedAtOnce(structures);
    } else {
      NotEndedYet(structures);
      MetEnds(structures[1..]);
    }
  }

  ghost predicate LastWith(records: seq<Record>, i: nat, holds: Record -> bool) {
    && i < |records| && holds(records[i])
    && forall j :: i < j < |records| ==> !holds(records[j])
  }

  lemma {:induction false} FoldKeepsUuid(info: Info, records: seq<Record>)
    requires forall j :: 0 <= j < |records| ==> !HasUuid(records[j])
    ensures Fold(info, records).systemUuid == info.systemUuid
    decreases |records|
  {
    if records != [] {
      FoldKeepsUuid(Update(info, records[0]), records[1..]);
    }
  }

  lemma {:induction false} FoldKeepsSerial(info: Info, records: seq<Record>)
    requires forall j :: 0 <= j < |records| ==> !HasSerial(records[j])
    ensures Fold(info, records).motherboardSerial == info.motherboardSerial
    decreases |records|
  {
    if records != [] {
      FoldKeepsSerial(Update(info, records[0]), records[1..]);
    }
  }

  lemma {:induction false} LastUuidCounts(info: Info, records: seq<Record>, i: nat)
    requires LastWith(records, i, HasUuid)
    ensures Fold(info, records).systemUuid == UuidOf(records[i].formatted)
    decreases |records|
  {
    hide Update, UuidOf;
    var next := Update(info, records[0]);
    if i == 0 {
      UpdateTakes(info, records[0]);
      FoldKeepsUuid(next, records[1..]);
    } else {
      LastUuidCounts(next, records[1..], i - 1);
    }
  }

  lemma {:induction false} LastSerialCounts(info: Info, records: seq<Record>, i: nat)
    requires LastWith(records, i, HasSerial)
    ensures Fold(info, records).motherboardSerial == SerialOf(records[i])
    decreases |records|
  {
    hide Update, SerialOf;
    var next := Update(info, records[0]);
    if i == 0 {
      UpdateTakes(info, records[0]);
      FoldKeepsSerial(next, records[1..]);
    } else {
      LastSerialCounts(next, records[1..], i - 1);
    }
  }

  lemma UpdateTakes(info: Info, record: Record)
    ensures HasUuid(record) ==> Update(info, record).systemUuid == UuidOf(record.formatted)
    ensures HasSerial(record) ==> Update(info, record).motherboardSerial == SerialOf(record)
  {
  }

  // ---- What a table says by the standard ----

  /** Tabulator to carriage return, space, next line, no-break space. */
  ghost predicate White(b: Byte) {
    b == 9 || b == 10 || b == 11 || b == 12 || b == 13 || b == 32 || b == 0x85 || b == 0xA0
  }

  /** The characters from `a` to `z`, with nothing but white space outside and none at either end. */
  ghost predicate StrippedTo(bytes: seq<Byte>, text: string, a: nat, z: nat) {
    && a <= z <= |bytes| && |text| == z - a
    && (forall k :: 0 <= k < a ==> White(bytes[k])) && (forall k :: z <= k < |bytes| ==> White(bytes[k]))
    && (forall k :: 0 <= k < z - a ==> text[k] as int == bytes[a + k])
    && (a < z ==> !White(bytes[a]) && !White(bytes[z - 1]))
  }

  /** The Latin-1 text of the bytes without surrounding white space. */
  ghost predicate Stripped(bytes: seq<Byte>, text: string) {
    exists a, z :: StrippedTo(bytes, text, a, z)
  }

  /** String number `n` of a structure, counting from 1; empty for number 0 and beyond the last string. */
  ghost predicate NumberSays(strings: seq<seq<Byte>>, n: Byte, text: string) {
    if 1 <= n <= |strings| then Stripped(strings[n - 1], text) else text == ""
  }

  /** The UUID of bytes 8 to 23; empty when the area is too short or all bytes are 0 or all are 255. */
  ghost predicate UuidSays(formatted: seq<Byte>, text: string) {
    if |formatted| < 24 || (forall k :: 8 <= k < 24 ==> formatted[k] == 0)
       || (forall k :: 8 <= k < 24 ==> formatted[k] == 255)
    then text == "" else IsUuidText(text, formatted[8..24])
  }

  /** A structure of this type, longer than `length`. */
  ghost predicate OfType(formatted: seq<Byte>, type_: Byte, length: nat) {
    |formatted| > length && formatted[0] == type_
  }

  ghost predicate LastOf(records: seq<Record>, i: nat, type_: Byte, length: nat) {
    && i < |records| && OfType(records[i].formatted, type_, length)
    && forall j :: i < j < |records| ==> !OfType(records[j].formatted, type_, length)
  }

  ghost predicate NoneOf(records: seq<Record>, type_: Byte, length: nat) {
    forall j :: 0 <= j < |records| ==> !OfType(records[j].formatted, type_, length)
  }

  /** The UUID of the last structure of type 1. */
  ghost predicate SaysUuid(records: seq<Record>, uuid: string) {
    || (exists i: nat :: LastOf(records, i, 1, 0) && UuidSays(records[i].formatted, uuid))
    || (uuid == "" && NoneOf(records, 1, 0))
  }

  /** The string that byte 7 of the last structure of type 2 with such a byte names. */
  ghost predicate SaysSerial(records: seq<Record>, serial: string) {
    || (exists i: nat :: && LastOf(records, i, 2, 7)
                         && NumberSays(records[i].fields, records[i].formatted[7], serial))
    || (serial == "" && NoneOf(records, 2, 7))
  }

  lemma WhiteIsSpace(b: Byte)
    ensures White(b) <==> IsSpace(b)
  {
  }

  lemma TrimmedMeaning(bytes: seq<Byte>)
    ensures Stripped(bytes, Trimmed(bytes))
  {
    hide TrimStart, TrimEnd, IsSpace, White, Latin1, StrippedTo;
    forall b {
      WhiteIsSpace(b);
    }
    var front := TrimStart(bytes);
    var a := |bytes| - |front|;
    PartIsStripped(bytes, front, TrimEnd(front), a);
  }

  lemma PartIsStripped(bytes: seq<Byte>, front: seq<Byte>, text: seq<Byte>, a: nat)
    requires a == |bytes| - |front| && front == bytes[a..] && text <= front
    requires forall k :: 0 <= k < a ==> White(bytes[k])
    requires forall k :: |text| <= k < |front| ==> White(front[k])
    requires front != [] ==> !White(front[0])
    requires text != [] ==> !White(text[|text| - 1])
    ensures StrippedTo(bytes, Latin1(text), a, a + |text|)
  {
    hide White;
    Window(bytes, front, text, a);
    forall k | a + |text| <= k < |bytes| ensures White(bytes[k]) {
      assert front[k - a] == bytes[k];
    }
    if text != [] {
      assert text[|text| - 1] == bytes[a + |text| - 1];
    }
  }

  /** Positions of a part in the whole. */
  lemma Window(bytes: seq<Byte>, front: seq<Byte>, text: seq<Byte>, a: nat)
    requires a == |bytes| - |front| && front == bytes[a..] && text <= front
    ensures forall k :: 0 <= k < |text| ==> text[k] == bytes[a + k]
    ensures forall k :: a <= k < |bytes| ==> front[k - a] == bytes[k]
    ensures text != [] ==> front[0] == bytes[a]
  {
  }

  lemma NumberMeaning(strings: seq<seq<Byte>>, n: Byte)
    ensures NumberSays(strings, n, StringNumber(strings, n))
  {
    hide Trimmed, Stripped;
    if 1 <= n <= |strings| {
      TrimmedMeaning(strings[n - 1]);
    }
  }

  lemma UuidMeaning(formatted: seq<Byte>)
    ensures UuidSays(formatted, UuidOf(formatted))
  {
    hide UuidText, IsUuidText;
    if |formatted| >= 24 {
      var uuid := formatted[8..24];
      assert forall k :: 8 <= k < 24 ==> formatted[k] == uuid[k - 8] && uuid[k - 8] in uuid;
      assert forall b :: b in uuid ==> exists k :: 8 <= k < 24 && formatted[k] == b;
      UuidIsReadable(uuid);
    }
  }

  lemma TypesMeaning(record: Record)
    ensures HasUuid(record) <==> OfType(record.formatted, 1, 0)
    ensures HasSerial(record) <==> OfType(record.formatted, 2, 7)
    ensures HasSerial(record) ==> NumberSays(record.fields, record.formatted[7], SerialOf(record))
  {
    if HasSerial(record) {
      NumberMeaning(record.fields, record.formatted[7]);
    }
    hide NumberSays, StringNumber;
  }

  lemma {:induction false} SomeLast(records: seq<Record>, holds: Record -> bool)
    ensures (exists i: nat :: LastWith(records, i, holds)) || forall j :: 0 <= j < |records| ==> !holds(records[j])
    decreases |records|
  {
    if records != [] {
      var n := |records| - 1;
      if holds(records[n]) {
        assert LastWith(records, n, holds);
      } else {
        SomeLast(records[..n], holds);
        if i: nat :| LastWith(records[..n], i, holds) {
          assert LastWith(records, i, holds);
        }
      }
    }
  }

  /** The answer for any list of structures is what the last ones of them say. */
  lemma AnswerIsTheLast(records: seq<Record>)
    ensures SaysUuid(records, Answer(records).systemUuid)
    ensures SaysSerial(records, Answer(records).motherboardSerial)
  {
    hide Update, UuidOf, SerialOf, HasUuid, HasSerial, OfType, NumberSays, UuidSays, Fold;
    UuidIsTheLast(records);
    SerialIsTheLast(records);
    AnswerIsFold(records);
  }

  lemma UuidIsTheLast(records: seq<Record>)
    ensures SaysUuid(records, Fold(Info("", ""), records).systemUuid)
  {
    SomeLast(records, HasUuid);
    hide Update, UuidOf, HasUuid, OfType, UuidSays, Fold;
    forall record: Record {
      TypesMeaning(record);
    }
    if i: nat :| LastWith(records, i, HasUuid) {
      LastUuidCounts(Info("", ""), records, i);
      UuidMeaning(records[i].formatted);
      assert LastOf(records, i, 1, 0);
    } else {
      FoldKeepsUuid(Info("", ""), records);
    }
  }

  lemma SerialIsTheLast(records: seq<Record>)
    ensures SaysSerial(records, Fold(Info("", ""), records).motherboardSerial)
  {
    SomeLast(records, HasSerial);
    hide Update, SerialOf, HasSerial, OfType, NumberSays, Fold;
    forall record: Record {
      TypesMeaning(record);
    }
    if i: nat :| LastWith(records, i, HasSerial) {
      LastSerialCounts(Info("", ""), records, i);
      assert LastOf(records, i, 2, 7);
    } else {
      FoldKeepsSerial(Info("", ""), records);
    }
  }

  /** No end-of-table structure stands before structure `i`. */
  ghost predicate Reached(structures: seq<Structure>, i: nat) {
    i < |structures| && forall j :: 0 <= j < i ==> !OfType(structures[j].formatted, 127, 0)
  }

  ghost predicate LastReached(structures: seq<Structure>, i: nat, type_: Byte, length: nat) {
    && Reached(structures, i) && OfType(structures[i].formatted, type_, length)
    && forall j: nat :: i < j && Reached(structures, j) ==> !OfType(structures[j].formatted, type_, length)
  }

  ghost predicate NoneReached(structures: seq<Structure>, type_: Byte, length: nat) {
    forall j: nat :: Reached(structures, j) ==> !OfType(structures[j].formatted, type_, length)
  }

  /** The structures met are the structures reached. */
  lemma {:induction false} MetReached(structures: seq<Structure>)
    ensures |Met(structures)| <= |structures|
    ensures forall i :: 0 <= i < |Met(structures)| ==> Met(structures)[i] == structures[i].AsRecord()
    ensures forall i: nat :: i < |Met(structures)| <==> Reached(structures, i)
    decreases |structures|
  {
    if structures != [] {
      var rest := structures[1..];
      assert IsEnd(structures[0].AsRecord()) <==> OfType(structures[0].formatted, 127, 0);
      if !IsEnd(structures[0].AsRecord()) {
        MetReached(rest);
        hide OfType, IsEnd;
        forall i: nat | i > 0 ensures Reached(structures, i) <==> Reached(rest, i - 1) {
          assert forall j :: 0 <= j < |rest| ==> rest[j] == structures[j + 1];
          assert forall j :: 0 < j < |structures| ==> structures[j] == rest[j - 1];
        }
      }
    }
  }

  /** String number `n` of a structure is that of its fields. */
  lemma FieldsSayAlike(one: Structure, n: Byte, text: string)
    requires NumberSays(one.AsRecord().fields, n, text)
    ensures NumberSays(one.strings, n, text)
  {
    if one.strings == [] && n == 1 {
      assert Stripped([], text);
    }
  }

  lemma MetLast(structures: seq<Structure>, i: nat, type_: Byte, length: nat)
    ensures LastOf(Met(structures), i, type_, length) ==> LastReached(structures, i, type_, length)
    ensures NoneOf(Met(structures), type_, length) ==> NoneReached(structures, type_, length)
  {
    MetReached(structures);
    hide OfType, Reached, Met;
  }

  /**
   The round trip. A table written by the standard's layout, followed by anything if it holds an end-of-table structure
   and by fewer than four bytes otherwise, is read up to its first end-of-table structure: the UUID is that of bytes 8
   to 23 of the last structure of type 1, and the board serial is the string that byte 7 of the last structure of
   type 2 with such a byte names.
   */
  lemma RoundTrip(structures: seq<Structure>, after: seq<Byte>)
    requires forall i :: 0 <= i < |structures| ==> structures[i].Valid()
    requires HasEnd(structures) || |after| < 4
    ensures var uuid := Answer(Records(TableBytes(structures) + after, 0)).systemUuid;
            || (exists i: nat :: LastReached(structures, i, 1, 0) && UuidSays(structures[i].formatted, uuid))
            || (uuid == "" && NoneReached(structures, 1, 0))
    ensures var serial := Answer(Records(TableBytes(structures) + after, 0)).motherboardSerial;
            || (exists i: nat :: && LastReached(structures, i, 2, 7)
                                 && NumberSays(structures[i].strings, structures[i].formatted[7], serial))
            || (serial == "" && NoneReached(structures, 2, 7))
  {
    hide *;
    ReadsMet(structures, after);
    AnswerIsTheLast(Met(structures));
    UuidOfMet(structures, Answer(Met(structures)).systemUuid);
    SerialOfMet(structures, Answer(Met(structures)).motherboardSerial);
  }

  lemma UuidOfMet(structures: seq<Structure>, uuid: string)
    requires SaysUuid(Met(structures), uuid)
    ensures || (exists i: nat :: LastReached(structures, i, 1, 0) && UuidSays(structures[i].formatted, uuid))
            || (uuid == "" && NoneReached(structures, 1, 0))
  {
    var met := Met(structures);
    hide Met, NoneOf, NoneReached, UuidSays, OfType;
    MetReached(structures);
    MetLast(structures, 0, 1, 0);
    if i: nat :| LastOf(met, i, 1, 0) && UuidSays(met[i].formatted, uuid) {
      MetLast(structures, i, 1, 0);
    }
  }

  lemma SerialOfMet(structures: seq<Structure>, serial: string)
    requires SaysSerial(Met(structures), serial)
    ensures || (exists i: nat :: && LastReached(structures, i, 2, 7)
                                 && NumberSays(structures[i].strings, structures[i].formatted[7], serial))
            || (serial == "" && NoneReached(structures, 2, 7))
  {
    var met := Met(structures);
    hide Met, NoneOf, NoneReached, NumberSays;
    MetReached(structures);
    MetLast(structures, 0, 2, 7);
    if i: nat :| LastOf(met, i, 2, 7) && NumberSays(met[i].fields, met[i].formatted[7], serial) {
      MetLast(structures, i, 2, 7);
      FieldsSayAlike(structures[i], structures[i].formatted[7], serial);
    }
  }

  /** What is read of such a table is what the standard's reader meets. */
  lemma ReadsMet(structures: seq<Structure>, after: seq<Byte>)
    requires forall i :: 0 <= i < |structures| ==> structures[i].Valid()
    requires HasEnd(structures) || |after| < 4
    ensures Records(TableBytes(structures) + after, 0) == Met(structures)
  {
    hide *;
    var met := Met(structures);
    var rest := Behind(structures) + after;
    MetIsRun(structures);
    MetBytes(structures);
    MetEnds(structures);
    if !HasEnd(structures) {
      assert rest == after;
      NoRecordAt([] + SerializeAll(met) + rest, |SerializeAll(met)|);
    }
    RecordsOfSerialized([], met, rest);
    assert TableBytes(structures) + after == [] + SerializeAll(met) + rest;
  }
}
