/**
 * `LoraDTO`, the radio payload: an array of `SerializableData` records and
 * the number of them in use, with its text codec
 * `key1=val1&key2=val2&...&keyN=valN` (no escaping, no trailing `&`).
 */
module Lora {
  import opened ArduinoString
  import opened Serializable

  // ---------------------------------------------------------------------
  // Specification of the codec on values
  // ---------------------------------------------------------------------

  /** The number of `&` characters in `s`. */
  function AmpCount(s: string): nat
  {
    multiset(s)[RecordSeparator]
  }

  /** Every record can be carried by the wire format. */
  predicate AllWellFormed(ds: seq<SerializableData>)
  {
    forall i :: 0 <= i < |ds| ==> WellFormed(ds[i])
  }

  /**
   * The serialized form: each record as `key=val`, in order, with one `&`
   * between neighbours and none after the last.
   */
  function Join(ds: seq<SerializableData>): string
  {
    if |ds| == 0 then ""
    else if |ds| == 1 then ToString(ds[0])
    else ToString(ds[0]) + [RecordSeparator] + Join(ds[1..])
  }

  /** What one turn of the parsing loop yields: a record and the new cursor. */
  datatype Turn = Turn(record: SerializableData, next: nat)

  /**
   * One turn of the parsing loop from cursor `index`. When no `=` follows,
   * the key runs to the end of the text and the value is read from 0; when
   * no `&` follows, the value runs to the end and the cursor returns to 0.
   */
  function Step(data: string, index: nat): Turn
  {
    var keyEnd := IndexOf(data, KeyValueSeparator, index);
    var key := Substring(data, index, keyEnd);
    var valStart := keyEnd + 1;
    var valEnd := IndexOf(data, RecordSeparator, valStart);
    Turn(SerializableData(key, Substring(data, valStart, valEnd)), valEnd + 1)
  }

  /** The turns of the parsing loop over `data`, as a function of the cursor. */
  function Turns(data: string): nat -> Turn
  {
    (index: nat) => Step(data, index)
  }

  /**
   * The records a loop with turn function `turn` still adds from cursor
   * `index` with `slots` free slots, over a text of length `len`: it stops
   * once the cursor reaches the end or the slots run out.
   */
  function Collect(turn: nat -> Turn, len: nat, index: nat, slots: nat): seq<SerializableData>
    decreases slots
  {
    if index >= len || slots == 0 then []
    else [turn(index).record] + Collect(turn, len, turn(index).next, slots - 1)
  }

  /** The records the parsing loop adds from cursor `index` with `slots` free slots. */
  function ParseFrom(data: string, index: nat, slots: nat): seq<SerializableData>
  {
    Collect(Turns(data), |data|, index, slots)
  }

  /** `fromString`: one slot per `&` plus one, cursor at 0. */
  function Parse(data: string): seq<SerializableData>
  {
    ParseFrom(data, 0, AmpCount(data) + 1)
  }

  // ---------------------------------------------------------------------
  // Properties of the codec
  // ---------------------------------------------------------------------

  /** The loop never fills more slots than it has. */
  lemma {:induction false} CollectBound(turn: nat -> Turn, len: nat, index: nat, slots: nat)
    ensures |Collect(turn, len, index, slots)| <= slots
    decreases slots
  {
    if index < len && slots > 0 {
      CollectBound(turn, len, turn(index).next, slots - 1);
    }
  }

  /** At most one record more than there are `&` characters. */
  lemma ParseBound(data: string)
    ensures |Parse(data)| <= AmpCount(data) + 1
  {
    CollectBound(Turns(data), |data|, 0, AmpCount(data) + 1);
  }

  /** Appending a record adds `&` and `key=val` at the end, or just `key=val` to nothing. */
  lemma {:induction false} JoinAppend(ds: seq<SerializableData>, d: SerializableData)
    ensures Join(ds + [d]) == if ds == [] then ToString(d) else Join(ds) + [RecordSeparator] + ToString(d)
  {
    if |ds| > 1 {
      assert (ds + [d])[1..] == ds[1..] + [d];
      JoinAppend(ds[1..], d);
    } else if |ds| == 1 {
      assert (ds + [d])[1..] == [d];
    }
  }

  /** The records after the first are well-formed too. */
  lemma AllWellFormedTail(ds: seq<SerializableData>)
    requires |ds| > 0 && AllWellFormed(ds)
    ensures WellFormed(ds[0]) && AllWellFormed(ds[1..])
  {
    forall k | 0 <= k < |ds[1..]| ensures WellFormed(ds[1..][k]) {
      assert ds[1..][k] == ds[k + 1];
    }
  }

  /** A joined text of well-formed records holds exactly one `&` between neighbours. */
  lemma {:induction false} AmpCountJoin(ds: seq<SerializableData>)
    requires |ds| > 0 && AllWellFormed(ds)
    ensures AmpCount(Join(ds)) == |ds| - 1
  {
    var d := ds[0];
    AllWellFormedTail(ds);
    assert multiset(d.key)[RecordSeparator] == 0;
    assert multiset(d.val)[RecordSeparator] == 0;
    assert AmpCount(ToString(d)) == 0;
    if |ds| > 1 {
      AmpCountJoin(ds[1..]);
      assert Join(ds) == ToString(d) + [RecordSeparator] + Join(ds[1..]);
    }
  }

  /**
   * The loop with turn function `turn`, started at `index` with `slots`
   * slots, reads exactly the records `ds`: each turn yields the next record,
   * and after the last one the cursor leaves the text or the slots run out.
   */
  predicate Reads(turn: nat -> Turn, len: nat, index: nat, ds: seq<SerializableData>, slots: nat)
    decreases |ds|
  {
    |ds| > 0 && slots > 0 && index < len && turn(index).record == ds[0] &&
    if |ds| == 1 then turn(index).next >= len || slots == 1
    else Reads(turn, len, turn(index).next, ds[1..], slots - 1)
  }

  /** A last turn that yields the record and then stops the loop reads it. */
  lemma ReadsOne(turn: nat -> Turn, len: nat, index: nat, ds: seq<SerializableData>, slots: nat)
    requires |ds| == 1 && slots > 0 && index < len && turn(index).record == ds[0]
    requires turn(index).next >= len || slots == 1
    ensures Reads(turn, len, index, ds, slots)
  {
  }

  /** A turn that yields the first record, followed by a loop that reads the rest, reads them all. */
  lemma ReadsCons(turn: nat -> Turn, len: nat, index: nat, ds: seq<SerializableData>, slots: nat)
    requires |ds| > 1 && slots > 0 && index < len && turn(index).record == ds[0]
    requires Reads(turn, len, turn(index).next, ds[1..], slots - 1)
    ensures Reads(turn, len, index, ds, slots)
  {
  }

  /** A loop that reads `ds` collects `ds`. */
  lemma {:induction false} CollectReads(turn: nat -> Turn, len: nat, index: nat, ds: seq<SerializableData>, slots: nat)
    requires Reads(turn, len, index, ds, slots)
    ensures Collect(turn, len, index, slots) == ds
    decreases |ds|
  {
    if |ds| > 1 {
      CollectReads(turn, len, turn(index).next, ds[1..], slots - 1);
    }
    assert ds == [ds[0]] + ds[1..];
  }

  /** Where the serialized form of `d` ends when it starts at `i`. */
  function RecordEnd(i: nat, d: SerializableData): nat
  {
    i + |d.key| + 1 + |d.val|
  }

  /** `data` holds `d`'s key, `=` and value from position `i` on. */
  predicate RecordAt(data: string, i: nat, d: SerializableData)
  {
    RecordEnd(i, d) <= |data| && data[i..i + |d.key|] == d.key &&
    data[i + |d.key|] == KeyValueSeparator && data[i + |d.key| + 1..RecordEnd(i, d)] == d.val
  }

  /**
   * `data` holds the well-formed records `ds`, serialized, from position `i`
   * to its end, optionally followed by one `&` that ends the text.
   */
  predicate LaidOut(data: string, i: nat, ds: seq<SerializableData>)
    decreases |ds|
  {
    |ds| > 0 && WellFormed(ds[0]) && RecordAt(data, i, ds[0]) &&
    var e := RecordEnd(i, ds[0]);
    if |ds| == 1 then e == |data| || (e + 1 == |data| && data[e] == RecordSeparator)
    else e < |data| && data[e] == RecordSeparator && LaidOut(data, e + 1, ds[1..])
  }

  /** A slice holding `key=val` holds the record's three parts. */
  lemma RecordAtSlice(data: string, i: nat, d: SerializableData)
    requires i + |ToString(d)| <= |data| && data[i..i + |ToString(d)|] == ToString(d)
    ensures RecordAt(data, i, d) && RecordEnd(i, d) == i + |ToString(d)|
  {
    SliceParts(data, i, d.key, KeyValueSeparator, d.val);
  }

  /** Serialized records followed by the end of the text, or by a final `&`, are laid out. */
  lemma {:induction false} JoinLaidOut(data: string, i: nat, ds: seq<SerializableData>)
    requires |ds| > 0 && AllWellFormed(ds)
    requires i + |Join(ds)| <= |data| && data[i..i + |Join(ds)|] == Join(ds)
    requires i + |Join(ds)| == |data| || (i + |Join(ds)| + 1 == |data| && data[i + |Join(ds)|] == RecordSeparator)
    ensures LaidOut(data, i, ds)
    decreases |ds|
  {
    var d := ds[0];
    AllWellFormedTail(ds);
    if |ds| == 1 {
      RecordAtSlice(data, i, d);
    } else {
      var rest := Join(ds[1..]);
      assert Join(ds) == ToString(d) + [RecordSeparator] + rest;
      SliceParts(data, i, ToString(d), RecordSeparator, rest);
      RecordAtSlice(data, i, d);
      JoinLaidOut(data, i + |ToString(d)| + 1, ds[1..]);
    }
  }

  /** The key part of a turn: a key without `=`, then `=`, is read up to that `=`. */
  lemma StepKey(data: string, i: nat, key: string, k: nat)
    requires k == i + |key| && k < |data| && data[i..k] == key
    requires KeyValueSeparator !in key && data[k] == KeyValueSeparator
    ensures IndexOf(data, KeyValueSeparator, i) == k
    ensures Substring(data, i, k) == key
  {
    IndexOfAfter(data, KeyValueSeparator, i, key);
  }

  /** The value part of a turn: a value without `&` is read up to the `&` or the end that follows it. */
  lemma StepValue(data: string, j: nat, val: string, end: nat)
    requires end == j + |val| && end <= |data| && data[j..end] == val && RecordSeparator !in val
    requires end == |data| || data[end] == RecordSeparator
    ensures Substring(data, j, IndexOf(data, RecordSeparator, j)) == val
    ensures IndexOf(data, RecordSeparator, j) + 1 == if end == |data| then 0 else end + 1
  {
    if end == |data| {
      IndexOfPast(data, RecordSeparator, j, val);
    } else {
      IndexOfAfter(data, RecordSeparator, j, val);
    }
  }

  /**
   * One turn of the loop at the start of a well-formed record reads that
   * record; the cursor moves past the `&` that follows it, or back to 0 when
   * the record ends the text.
   */
  lemma StepReadsRecord(data: string, i: nat, d: SerializableData, end: nat)
    requires WellFormed(d) && end == i + |d.key| + 1 + |d.val| && end <= |data|
    requires data[i..i + |d.key|] == d.key && data[i + |d.key|] == KeyValueSeparator
    requires data[i + |d.key| + 1..end] == d.val
    requires end == |data| || data[end] == RecordSeparator
    ensures Turns(data)(i) == Turn(d, if end == |data| then 0 else end + 1)
  {
    var k := i + |d.key|;
    var next := if end == |data| then 0 else end + 1;
    StepKey(data, i, d.key, k);
    StepValue(data, k + 1, d.val, end);
    StepOf(data, i, k, d.key, d.val, next);
  }

  /** A turn whose two searches and two cuts are known yields their record and cursor. */
  lemma StepOf(data: string, i: nat, k: nat, key: string, val: string, next: nat)
    requires IndexOf(data, KeyValueSeparator, i) == k && Substring(data, i, k) == key
    requires Substring(data, k + 1, IndexOf(data, RecordSeparator, k + 1)) == val
    requires IndexOf(data, RecordSeparator, k + 1) + 1 == next
    ensures Turns(data)(i) == Turn(SerializableData(key, val), next)
  {
    assert Turns(data)(i) == Step(data, i);
  }

  /** A well-formed record never ends in `&`: its last character is `=` or the value's last. */
  lemma LastCharNotSeparator(data: string, i: nat, d: SerializableData)
    requires WellFormed(d) && RecordAt(data, i, d)
    ensures data[RecordEnd(i, d) - 1] != RecordSeparator
  {
    if d.val != [] {
      assert data[RecordEnd(i, d) - 1] == data[i + |d.key| + 1..RecordEnd(i, d)][|d.val| - 1];
    }
  }

  /**
   * The heart of the round trip: the parsing loop, started at the first of
   * a run of laid-out records, reads them back one by one. Without a
   * trailing `&` the last record sends the cursor back to 0 and only a slot
   * bound equal to the number of records ends the loop; with a trailing `&`
   * the cursor reaches the end of the text first.
   */
  lemma {:induction false} LaidOutReads(data: string, i: nat, ds: seq<SerializableData>, slots: nat)
    requires LaidOut(data, i, ds)
    requires slots == |ds| || (data[|data| - 1] == RecordSeparator && slots >= |ds|)
    ensures Reads(Turns(data), |data|, i, ds, slots)
    decreases |ds|
  {
    if |ds| == 1 {
      LaidOutReadsLast(data, i, ds, slots);
    } else {
      var next := LaidOutTurn(data, i, ds);
      LaidOutReads(data, next, ds[1..], slots - 1);
      ReadsCons(Turns(data), |data|, i, ds, slots);
    }
  }

  /** The last laid-out record is read, and then the loop stops. */
  lemma LaidOutReadsLast(data: string, i: nat, ds: seq<SerializableData>, slots: nat)
    requires |ds| == 1 && LaidOut(data, i, ds)
    requires slots == 1 || (data[|data| - 1] == RecordSeparator && slots >= 1)
    ensures Reads(Turns(data), |data|, i, ds, slots)
  {
    var d := ds[0];
    var e := RecordEnd(i, d);
    StepReadsRecord(data, i, d, e);
    if e == |data| {
      LastCharNotSeparator(data, i, d);
    }
    ReadsOne(Turns(data), |data|, i, ds, slots);
  }

  /** A laid-out record that others follow is read, and the cursor moves to the next one. */
  lemma LaidOutTurn(data: string, i: nat, ds: seq<SerializableData>) returns (next: nat)
    requires |ds| > 1 && LaidOut(data, i, ds)
    ensures i < |data| && Turns(data)(i) == Turn(ds[0], next) && LaidOut(data, next, ds[1..])
  {
    var d := ds[0];
    var e := RecordEnd(i, d);
    StepReadsRecord(data, i, d, e);
    next := e + 1;
  }

  /** Round trip: parsing the serialized form of well-formed records gives them back. */
  lemma ParseJoin(ds: seq<SerializableData>)
    requires AllWellFormed(ds)
    ensures Parse(Join(ds)) == ds
  {
    if ds == [] {
      assert Join(ds) == "";
    } else {
      ParseJoinNonEmpty(ds);
    }
  }

  lemma ParseJoinNonEmpty(ds: seq<SerializableData>)
    requires |ds| > 0 && AllWellFormed(ds)
    ensures Parse(Join(ds)) == ds
  {
    AmpCountJoin(ds);
    JoinIsLaidOut(ds);
    ParseLaidOut(Join(ds), ds);
  }

  /** The serialized form of well-formed records lays them out from position 0. */
  lemma JoinIsLaidOut(ds: seq<SerializableData>)
    requires |ds| > 0 && AllWellFormed(ds)
    ensures LaidOut(Join(ds), 0, ds)
  {
    var data := Join(ds);
    assert data[0..|data|] == data;
    JoinLaidOut(data, 0, ds);
  }

  /** Text that holds laid-out records, with one slot per record or a final `&`, parses to them. */
  lemma ParseLaidOut(data: string, ds: seq<SerializableData>)
    requires LaidOut(data, 0, ds)
    requires AmpCount(data) + 1 == |ds| || (data[|data| - 1] == RecordSeparator && AmpCount(data) + 1 >= |ds|)
    ensures Parse(data) == ds
  {
    var slots := AmpCount(data) + 1;
    LaidOutReads(data, 0, ds, slots);
    CollectReads(Turns(data), |data|, 0, ds, slots);
    ParseIsCollect(data);
  }

  /** The loop starts with nothing read, at cursor 0, with one slot per `&` and one more. */
  lemma LoopStart(data: string)
    ensures LoopState(Turns(data), |data|, [], 0, AmpCount(data) + 1, Parse(data))
  {
    ParseIsCollect(data);
  }

  /** An empty payload has no records. */
  lemma ParseEmpty()
    ensures Parse("") == []
  {
    ParseIsCollect("");
  }

  lemma ParseIsCollect(data: string)
    ensures Parse(data) == Collect(Turns(data), |data|, 0, AmpCount(data) + 1)
  {
  }

  /** A trailing `&` adds nothing: the cursor reaches the end before the spare slot is used. */
  lemma ParseJoinTrailingSeparator(ds: seq<SerializableData>)
    requires |ds| > 0 && AllWellFormed(ds)
    ensures Parse(Join(ds) + [RecordSeparator]) == ds
  {
    var data := Join(ds) + [RecordSeparator];
    AmpCountJoin(ds);
    assert AmpCount(data) == |ds|;
    assert data[0..|Join(ds)|] == Join(ds);
    JoinLaidOut(data, 0, ds);
    ParseLaidOut(data, ds);
  }

  /** `"k="`: one record whose value is empty. */
  lemma ParseEmptyValue()
    ensures Parse("k=") == [SerializableData("k", "")]
  {
    var d := SerializableData("k", "");
    assert AllWellFormed([d]);
    assert Join([d]) == "k=";
    ParseJoin([d]);
  }

  /** `"a=1&"`: one record, not two. */
  lemma ParseTrailingSeparator()
    ensures Parse("a=1&") == [SerializableData("a", "1")]
  {
    var d := SerializableData("a", "1");
    assert AllWellFormed([d]);
    assert Join([d]) + [RecordSeparator] == "a=1&";
    ParseJoinTrailingSeparator([d]);
  }

  /**
   * Only the slot bound ends the loop after a last record: given a spare
   * slot, the rewound cursor reads `"k=v"` a second time.
   */
  lemma SpareSlotRereads()
    ensures ParseFrom("k=v", 0, 2) == [SerializableData("k", "v"), SerializableData("k", "v")]
  {
    var data := "k=v";
    var d := SerializableData("k", "v");
    assert data[0..3] == ToString(d);
    RecordAtSlice(data, 0, d);
    StepReadsRecord(data, 0, d, 3);
    assert Turns(data)(0) == Turn(d, 0);
    assert Collect(Turns(data), 3, 0, 0) == [];
    assert Collect(Turns(data), 3, 0, 1) == [d];
  }

  // ---------------------------------------------------------------------
  // The loop of `fromString`, one turn at a time
  // ---------------------------------------------------------------------

  /**
   * The state of a loop with turn function `turn`: the records it has read,
   * followed by those it will still add from cursor `index` with `slots`
   * free slots, are `all`.
   */
  predicate LoopState(turn: nat -> Turn, len: nat, read: seq<SerializableData>, index: nat, slots: nat, all: seq<SerializableData>)
  {
    read + Collect(turn, len, index, slots) == all
  }

  /** One turn moves one record from the records still to come to the records read. */
  lemma LoopStep(turn: nat -> Turn, len: nat, read: seq<SerializableData>, index: nat, slots: nat,
                 next: nat, read': seq<SerializableData>, slots': nat, all: seq<SerializableData>)
    requires index < len && slots > 0 && LoopState(turn, len, read, index, slots, all)
    requires read' == read + [turn(index).record] && next == turn(index).next && slots' == slots - 1
    ensures LoopState(turn, len, read', next, slots', all)
  {
    assert read + ([turn(index).record] + Collect(turn, len, next, slots')) == read' + Collect(turn, len, next, slots');
  }

  /** Once the cursor reaches the end or the slots run out, the records read are all there is. */
  lemma LoopDone(turn: nat -> Turn, len: nat, read: seq<SerializableData>, index: nat, slots: nat, all: seq<SerializableData>)
    requires index >= len || slots == 0
    requires LoopState(turn, len, read, index, slots, all)
    ensures read == all
  {
    assert read + [] == read;
  }

  // ---------------------------------------------------------------------
  // The class
  // ---------------------------------------------------------------------

  class LoraDto {
    /** The records; slots beyond `dataListSize` are not part of the payload. */
    var dataList: array<SerializableData>
    /** The number of records in use. */
    var dataListSize: int

    ghost predicate Valid()
      reads this
    {
      0 <= dataListSize <= dataList.Length
    }

    /** The payload: the records in use, in order. */
    ghost function Records(): seq<SerializableData>
      reads this, dataList
      requires Valid()
    {
      dataList[..dataListSize]
    }

    /** Stores the given array and count as they are. */
    constructor (dataList: array<SerializableData>, dataListSize: int)
      requires 0 <= dataListSize <= dataList.Length
      ensures Valid()
      ensures this.dataList == dataList && this.dataListSize == dataListSize
      ensures Records() == dataList[..dataListSize]
    {
      this.dataList := dataList;
      this.dataListSize := dataListSize;
    }

    /** `fromString`: counts the `&`, then fills `amps + 1` slots from a cursor. */
    static method FromString(data: string) returns (dto: LoraDto)
      ensures fresh(dto) && fresh(dto.dataList) && dto.Valid()
      ensures dto.dataList.Length == AmpCount(data) + 1
      ensures dto.Records() == Parse(data)
      ensures dto.dataListSize <= AmpCount(data) + 1
      ensures data == "" ==> dto.dataListSize == 0
    {
      var amps := CountSeparators(data);
      var list := new SerializableData[amps + 1](_ => SerializableData());
      var size := 0;
      var index: nat := 0;
      ghost var turn, slots: nat, all := Turns(data), amps + 1, Parse(data);
      LoopStart(data);
      assert list[..size] == [];
      while index < |data| && size < amps + 1
        invariant 0 <= size <= amps + 1 == list.Length
        invariant slots == amps + 1 - size
        invariant LoopState(turn, |data|, list[..size], index, slots, all)
        decreases slots
      {
        ghost var read, from, before := list[..size], index, slots;
        index := ReadRecord(data, index, list, size);
        size := size + 1;
        slots := slots - 1;
        LoopStep(turn, |data|, read, from, before, index, list[..size], slots, all);
      }
      LoopDone(turn, |data|, list[..size], index, slots, all);
      if data == "" {
        ParseEmpty();
      }
      dto := new LoraDto(list, size);
    }

    /**
     * The body of the second loop of `fromString`: reads one record from
     * cursor `index` into slot `size` and answers the new cursor.
     */
    static method ReadRecord(data: string, index: nat, list: array<SerializableData>, size: nat) returns (next: nat)
      requires size < list.Length
      modifies list
      ensures list[..] == old(list[..])[size := Turns(data)(index).record]
      ensures list[..size + 1] == old(list[..size]) + [Turns(data)(index).record]
      ensures next == Turns(data)(index).next
    {
      var record, cursor := ScanRecord(data, index);
      list[size] := record;
      next := cursor;
    }

    /** The reading half of that body: the record at cursor `index`, and the cursor after it. */
    static method ScanRecord(data: string, index: nat) returns (record: SerializableData, next: nat)
      ensures Turns(data)(index) == Turn(record, next)
    {
      var keyEndIndex := IndexOf(data, KeyValueSeparator, index);
      var key := Substring(data, index, keyEndIndex);
      var valStart := keyEndIndex + 1;
      var valEndIndex := IndexOf(data, RecordSeparator, valStart);
      var val := Substring(data, valStart, valEndIndex);
      record := SerializableData(key, val);
      next := valEndIndex + 1;
    }

    /** The first loop of `fromString`: the number of `&` in the text. */
    static method CountSeparators(data: string) returns (amps: nat)
      ensures amps == AmpCount(data)
    {
      amps := 0;
      for i := 0 to |data|
        invariant amps == AmpCount(data[..i])
      {
        assert data[..i + 1] == data[..i] + [data[i]];
        if data[i] == RecordSeparator {
          amps := amps + 1;
        }
      }
      assert data[..|data|] == data;
    }

    /** `getDataList`: the stored array itself. */
    method GetDataList() returns (list: array<SerializableData>)
      ensures list == dataList
    {
      list := dataList;
    }

    /** `getDataListSize`: the stored count. */
    method GetDataListSize() returns (size: int)
      ensures size == dataListSize
    {
      size := dataListSize;
    }

    /** `toString`: appends each record and, except after the last, an `&`. */
    method ToString() returns (s: string)
      requires Valid()
      ensures s == Join(Records())
      ensures dataListSize == 0 ==> s == ""
    {
      s := "";
      for i := 0 to dataListSize
        invariant s == if i == 0 then "" else Join(dataList[..i]) + (if i < dataListSize then [RecordSeparator] else [])
      {
        JoinAppend(dataList[..i], dataList[i]);
        assert dataList[..i + 1] == dataList[..i] + [dataList[i]];
        s := s + Serializable.ToString(dataList[i]);
        if i != dataListSize - 1 {
          s := s + [RecordSeparator];
        }
      }
      assert dataList[..dataListSize] == Records();
    }
  }
}
