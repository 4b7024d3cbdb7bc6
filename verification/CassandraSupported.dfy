/**
 The parser for the string multimap of a Cassandra SUPPORTED message (sections 3 and 4.2.4 of version 4
 of the CQL binary protocol), on complete, truncated and arbitrary payloads.
 */
module CassandraSupported {
  import opened Basics

  type Bytes = seq<Byte>
  type Capabilities = map<Bytes, Bytes>

  /** A string of the protocol: its length fits a short. */
  type Text = t: Bytes | |t| < 65536

  /** The value lists that the parser accepts. */
  type Texts = ts: seq<Text> | |ts| <= 32

  /** An item read from the front of some bytes, and the bytes behind it. */
  datatype Parsed<T> = Nothing | Got(item: T, rest: Bytes)

  /** The text functions that the parser applies to keys and values. */
  datatype Cleanup = Cleanup(upper: Bytes -> Bytes, clean: Bytes -> Bytes)

  // ---------------------------------------------------------------- what is recorded for an entry

  datatype Entry = Entry(name: Text, values: Texts)

  /** The non-empty values, cleaned. */
  function Kept(c: Cleanup, values: seq<Text>): seq<Bytes> {
    if values == [] then []
    else
      var last := values[|values| - 1];
      Kept(c, values[..|values| - 1]) + (if last != [] then [c.clean(last)] else [])
  }

  function Record(c: Cleanup, caps: Capabilities, e: Entry): Capabilities {
    var kept := Kept(c, e.values);
    if kept == [] then caps else caps[c.upper(e.name) := Join(kept, [44])]
  }

  /** The entries one after the other, so the last writer of a key wins. */
  function RecordAll(c: Cleanup, entries: seq<Entry>): Capabilities {
    if entries == [] then map[] else Record(c, RecordAll(c, entries[..|entries| - 1]), entries[|entries| - 1])
  }

  ghost predicate Writes(c: Cleanup, e: Entry, key: Bytes) {
    c.upper(e.name) == key && Kept(c, e.values) != []
  }

  /** The entry is the last one that writes the key. */
  ghost predicate WritesLast(c: Cleanup, entries: seq<Entry>, key: Bytes, i: nat) {
    i < |entries| && Writes(c, entries[i], key) && forall j :: i < j < |entries| ==> !Writes(c, entries[j], key)
  }

  /** A key has the values of the last entry that writes it. */
  lemma {:induction false} LastWriterWins(c: Cleanup, entries: seq<Entry>, key: Bytes, i: nat)
    requires WritesLast(c, entries, key, i)
    ensures key in RecordAll(c, entries)
    ensures RecordAll(c, entries)[key] == Join(Kept(c, entries[i].values), [44])
  {
    var n := |entries| - 1;
    if i < n {
      assert forall j :: 0 <= j < n ==> entries[..n][j] == entries[j];
      LastWriterWins(c, entries[..n], key, i);
      assert !Writes(c, entries[n], key);
    }
  }

  /** A key that no entry writes is not there. */
  lemma {:induction false} OnlyWrittenKeys(c: Cleanup, entries: seq<Entry>, key: Bytes)
    requires forall j :: 0 <= j < |entries| ==> !Writes(c, entries[j], key)
    ensures key !in RecordAll(c, entries)
  {
    if entries != [] {
      OnlyWrittenKeys(c, entries[..|entries| - 1], key);
      assert !Writes(c, entries[|entries| - 1], key);
    }
  }

  // ---------------------------------------------------------------- the wire format

  function Short(n: nat): (s: Bytes)
    requires n < 65536
    ensures |s| == 2
  {
    [n / 256, n % 256]
  }

  function ShortAt(s: Bytes, o: nat): (n: nat)
    requires o + 2 <= |s|
    ensures n < 65536
  {
    256 * (s[o] as int) + (s[o + 1] as int)
  }

  function EncodeText(t: Text): Bytes {
    Short(|t|) + t
  }

  function EncodeTexts(texts: seq<Text>): Bytes {
    if texts == [] then [] else EncodeText(texts[0]) + EncodeTexts(texts[1..])
  }

  function EncodeEntry(e: Entry): Bytes {
    EncodeText(e.name) + (Short(|e.values|) + EncodeTexts(e.values))
  }

  function EncodeEntries(entries: seq<Entry>): Bytes {
    if entries == [] then [] else EncodeEntry(entries[0]) + EncodeEntries(entries[1..])
  }

  function Encode(entries: seq<Entry>): Bytes
    requires |entries| <= 64
  {
    Short(|entries|) + EncodeEntries(entries)
  }

  // ---------------------------------------------------------------- the parser as a function of the remaining bytes

  function ReadText(s: Bytes): Parsed<Text> {
    if |s| < 2 || |s| < 2 + ShortAt(s, 0) then Nothing
    else
      var text: Text := s[2..2 + ShortAt(s, 0)];
      Got(text, s[2 + ShortAt(s, 0)..])
  }

  function ReadTexts(s: Bytes, n: nat): (r: Parsed<seq<Text>>)
    ensures r.Got? ==> |r.item| == n
    decreases n
  {
    if n == 0 then Got([], s)
    else
      match ReadText(s)
      case Nothing => Nothing
      case Got(first, afterFirst) =>
        match ReadTexts(afterFirst, n - 1)
        case Nothing => Nothing
        case Got(others, rest) => Got([first] + others, rest)
  }

  function ReadEntry(s: Bytes): Parsed<Entry> {
    match ReadText(s)
    case Nothing => Nothing
    case Got(name, afterName) =>
      if |afterName| < 2 || ShortAt(afterName, 0) > 32 then Nothing
      else
        match ReadTexts(afterName[2..], ShortAt(afterName, 0))
        case Nothing => Nothing
        case Got(values, rest) => Got(Entry(name, values), rest)
  }

  /** At most n entries, up to the first one that cannot be read. */
  function ReadEntries(s: Bytes, n: nat): seq<Entry>
    decreases n
  {
    if n == 0 then []
    else
      match ReadEntry(s)
      case Nothing => []
      case Got(e, rest) => [e] + ReadEntries(rest, n - 1)
  }

  /** The entries that can be read from a payload; more than 64 announced entries are refused. */
  function EntriesOf(s: Bytes): seq<Entry> {
    if |s| < 2 || ShortAt(s, 0) > 64 then [] else ReadEntries(s[2..], ShortAt(s, 0))
  }

  function Supported(c: Cleanup, s: Bytes): Capabilities {
    RecordAll(c, EntriesOf(s))
  }

  // ---------------------------------------------------------------- the parser with a moving offset

  method ReadString(p: Bytes, offset0: nat) returns (value: Text, offset: nat, ok: bool)
    requires offset0 <= |p|
    ensures offset <= |p| && (ok <==> ReadText(p[offset0..]).Got?)
    ensures ok ==> ReadText(p[offset0..]) == Got(value, p[offset..])
  {
    ghost var s := p[offset0..];
    value, offset := [], offset0;
    if offset + 2 > |p| {
      return [], offset, false;
    }
    var length := ShortAt(p, offset);
    assert ShortAt(s, 0) == length;
    offset := offset + 2;
    if offset + length > |p| {
      return [], offset, false;
    }
    value := p[offset..offset + length];
    assert s[2..2 + length] == value && s[2 + length..] == p[offset + length..];
    offset := offset + length;
    ok := true;
  }

  method ReadValues(c: Cleanup, p: Bytes, offset0: nat, valueCount: nat)
    returns (kept: seq<Bytes>, offset: nat, ok: bool)
    requires offset0 <= |p|
    ensures offset <= |p| && (ok <==> ReadTexts(p[offset0..], valueCount).Got?)
    ensures ok ==> p[offset..] == ReadTexts(p[offset0..], valueCount).rest
    ensures ok ==> kept == Kept(c, ReadTexts(p[offset0..], valueCount).item)
  {
    kept, offset := [], offset0;
    ghost var whole, read: seq<Text> := ReadTexts(p[offset0..], valueCount), [];
    for j := 0 to valueCount
      invariant offset <= |p| && KeepsReading(whole, read, ReadTexts(p[offset..], valueCount - j))
      invariant kept == Kept(c, read)
    {
      var value, next, ok1 := ReadString(p, offset);
      if !ok1 {
        return kept, offset, false;
      }
      ReadOne(whole, read, p[offset..], valueCount - j);
      read := read + [value];
      assert read[..|read| - 1] + [value] == read;
      offset := next;
      if value != [] {
        kept := kept + [c.clean(value)];
      }
    }
    assert whole.Got? ==> whole.item == read + [] == read;
    ok := true;
  }

  /** Reading on from here, behind the values read already, gives the same as reading the whole. */
  ghost predicate KeepsReading(whole: Parsed<seq<Text>>, read: seq<Text>, here: Parsed<seq<Text>>) {
    && (whole.Got? <==> here.Got?)
    && (whole.Got? ==> whole.rest == here.rest && whole.item == read + here.item)
  }

  lemma ReadOne(whole: Parsed<seq<Text>>, read: seq<Text>, s: Bytes, n: nat)
    requires n > 0 && KeepsReading(whole, read, ReadTexts(s, n)) && ReadText(s).Got?
    ensures KeepsReading(whole, read + [ReadText(s).item], ReadTexts(ReadText(s).rest, n - 1))
  {
  }

  /** Name, kept values and following offset of one entry. */
  method ParseEntry(c: Cleanup, p: Bytes, offset0: nat)
    returns (name: Text, kept: seq<Bytes>, offset: nat, ok: bool, ghost e: Entry)
    requires offset0 <= |p|
    ensures offset <= |p| && (ok <==> ReadEntry(p[offset0..]).Got?)
    ensures ok ==> ReadEntry(p[offset0..]) == Got(e, p[offset..]) && name == e.name && kept == Kept(c, e.values)
  {
    kept, e := [], Entry([], []);
    name, offset, ok := ReadString(p, offset0);
    if !ok || offset + 2 > |p| {
      return name, kept, offset, false, e;
    }
    var valueCount := ShortAt(p, offset);
    assert valueCount == ShortAt(p[offset..], 0) && p[offset..][2..] == p[offset + 2..];
    offset := offset + 2;
    if valueCount > 32 {
      return name, kept, offset, false, e;
    }
    kept, offset, ok := ReadValues(c, p, offset, valueCount);
    if ok { e := ReadEntry(p[offset0..]).item; }
  }

  lemma RecordOne(c: Cleanup, read: seq<Entry>, e: Entry)
    ensures RecordAll(c, read + [e]) ==
      if Kept(c, e.values) == [] then RecordAll(c, read)
      else RecordAll(c, read)[c.upper(e.name) := Join(Kept(c, e.values), [44])]
  {
    assert (read + [e])[..|read|] == read;
  }

  lemma ReadOneEntry(whole: seq<Entry>, read: seq<Entry>, s: Bytes, n: nat)
    requires n > 0 && whole == read + ReadEntries(s, n)
    ensures match ReadEntry(s)
            case Nothing => whole == read
            case Got(e, rest) => whole == read + [e] + ReadEntries(rest, n - 1)
  {
  }

  method ParseEntries(c: Cleanup, payload: Bytes, offset0: nat, count: nat) returns (capabilities: Capabilities)
    requires offset0 <= |payload|
    ensures capabilities == RecordAll(c, ReadEntries(payload[offset0..], count))
  {
    capabilities := map[];
    var offset: nat := offset0;
    ghost var whole, read: seq<Entry> := ReadEntries(payload[offset0..], count), [];
    for i := 0 to count
      invariant offset <= |payload| && whole == read + ReadEntries(payload[offset..], count - i)
      invariant capabilities == RecordAll(c, read)
    {
      ReadOneEntry(whole, read, payload[offset..], count - i);
      var name, kept, next, ok, e := ParseEntry(c, payload, offset);
      if !ok {
        return;
      }
      RecordOne(c, read, e);
      read := read + [e];
      offset := next;
      if |kept| > 0 {
        capabilities := capabilities[c.upper(name) := Join(kept, [44])];
      }
    }
    assert whole == read;
  }

  method CassandraSupportedCapabilities(c: Cleanup, payload: Bytes) returns (capabilities: Capabilities)
    ensures capabilities == Supported(c, payload)
  {
    if |payload| < 2 {
      return map[];
    }
    var count := ShortAt(payload, 0);
    if count > 64 {
      return map[];
    }
    capabilities := ParseEntries(c, payload, 2, count);
  }

  // ---------------------------------------------------------------- complete and cut items

  lemma ShortIsRead(n: nat, rest: Bytes)
    requires n < 65536
    ensures ShortAt(Short(n) + rest, 0) == n && (Short(n) + rest)[2..] == rest
  {
  }

  lemma TextIsRead(t: Text, rest: Bytes)
    ensures ReadText(EncodeText(t) + rest) == Got(t, rest)
  {
    assert EncodeText(t) + rest == Short(|t|) + (t + rest);
    ShortIsRead(|t|, t + rest);
  }

  lemma TextIsCut(t: Text, n: nat)
    requires n < |EncodeText(t)|
    ensures ReadText(EncodeText(t)[..n]) == Nothing
  {
    if n >= 2 {
      assert EncodeText(t)[..n] == Short(|t|) + t[..n - 2];
      ShortIsRead(|t|, t[..n - 2]);
    }
  }

  lemma {:induction false} TextsAreRead(ts: seq<Text>, rest: Bytes)
    ensures ReadTexts(EncodeTexts(ts) + rest, |ts|) == Got(ts, rest)
  {
    if ts == [] {
      assert EncodeTexts(ts) + rest == rest;
    } else {
      var more := EncodeTexts(ts[1..]) + rest;
      assert EncodeTexts(ts) + rest == EncodeText(ts[0]) + more;
      TextIsRead(ts[0], more);
      TextsAreRead(ts[1..], rest);
      assert ts == [ts[0]] + ts[1..];
    }
  }

  lemma {:induction false} TextsAreCut(ts: seq<Text>, n: nat)
    requires n < |EncodeTexts(ts)|
    ensures ReadTexts(EncodeTexts(ts)[..n], |ts|) == Nothing
  {
    var size := |EncodeText(ts[0])|;
    if n < size {
      assert EncodeTexts(ts)[..n] == EncodeText(ts[0])[..n];
      TextIsCut(ts[0], n);
    } else {
      var more := EncodeTexts(ts[1..])[..n - size];
      assert EncodeTexts(ts)[..n] == EncodeText(ts[0]) + more;
      TextIsRead(ts[0], more);
      TextsAreCut(ts[1..], n - size);
    }
  }

  lemma EntryIsRead(e: Entry, rest: Bytes)
    ensures ReadEntry(EncodeEntry(e) + rest) == Got(e, rest)
  {
    var values := EncodeTexts(e.values) + rest;
    assert EncodeEntry(e) + rest == EncodeText(e.name) + (Short(|e.values|) + values);
    TextIsRead(e.name, Short(|e.values|) + values);
    ShortIsRead(|e.values|, values);
    TextsAreRead(e.values, rest);
  }

  lemma EntryIsCut(e: Entry, n: nat)
    requires n < |EncodeEntry(e)|
    ensures ReadEntry(EncodeEntry(e)[..n]) == Nothing
  {
    var size, values := |EncodeText(e.name)|, EncodeTexts(e.values);
    if n < size {
      assert EncodeEntry(e)[..n] == EncodeText(e.name)[..n];
      TextIsCut(e.name, n);
    } else {
      var more := (Short(|e.values|) + values)[..n - size];
      assert EncodeEntry(e)[..n] == EncodeText(e.name) + more;
      TextIsRead(e.name, more);
      if n >= size + 2 {
        assert more == Short(|e.values|) + values[..n - size - 2];
        ShortIsRead(|e.values|, values[..n - size - 2]);
        TextsAreCut(e.values, n - size - 2);
      }
    }
  }

  // ---------------------------------------------------------------- truncated messages

  /** Number of entries that lie wholly within the first t bytes. */
  function WholeEntries(entries: seq<Entry>, t: int): (k: nat)
    ensures k <= |entries|
  {
    if entries == [] || t < |EncodeEntry(entries[0])| then 0
    else 1 + WholeEntries(entries[1..], t - |EncodeEntry(entries[0])|)
  }

  lemma NothingMore(e: Entry, tail: Bytes, t: nat, n: nat)
    requires t < |EncodeEntry(e)| && n > 0
    ensures ReadEntries((EncodeEntry(e) + tail)[..t], n) == []
  {
    EntryIsCut(e, t);
    assert (EncodeEntry(e) + tail)[..t] == EncodeEntry(e)[..t];
  }

  lemma OneAndMore(e: Entry, tail: Bytes, t: nat, n: nat)
    requires |EncodeEntry(e)| <= t <= |EncodeEntry(e)| + |tail| && n > 0
    ensures ReadEntries((EncodeEntry(e) + tail)[..t], n) == [e] + ReadEntries(tail[..t - |EncodeEntry(e)|], n - 1)
  {
    EntryIsRead(e, tail[..t - |EncodeEntry(e)|]);
    assert (EncodeEntry(e) + tail)[..t] == EncodeEntry(e) + tail[..t - |EncodeEntry(e)|];
  }

  lemma {:induction false} EntriesAreRead(entries: seq<Entry>, tail: Bytes, t: nat)
    requires t <= |EncodeEntries(entries)| + |tail|
    ensures ReadEntries((EncodeEntries(entries) + tail)[..t], |entries|) == entries[..WholeEntries(entries, t)]
    decreases |entries|
  {
    if entries != [] {
      var size, more := |EncodeEntry(entries[0])|, EncodeEntries(entries[1..]) + tail;
      assert EncodeEntries(entries) + tail == EncodeEntry(entries[0]) + more;
      if t < size {
        NothingMore(entries[0], more, t, |entries|);
      } else {
        OneAndMore(entries[0], more, t, |entries|);
        EntriesAreRead(entries[1..], tail, t - size);
        PrefixOfMore(entries, WholeEntries(entries[1..], t - size));
      }
    }
  }

  lemma PrefixOfMore<T>(s: seq<T>, k: nat)
    requires k < |s|
    ensures s[..1 + k] == [s[0]] + s[1..][..k]
  {
  }

  /**
   Any truncation of a well-formed message, with or without bytes behind it, yields exactly the
   last-writer-wins record of the entries that are wholly contained.
   */
  lemma TruncationKeepsWholeEntries(c: Cleanup, entries: seq<Entry>, tail: Bytes, t: nat)
    requires |entries| <= 64 && t <= |Encode(entries) + tail|
    ensures Supported(c, (Encode(entries) + tail)[..t]) == RecordAll(c, entries[..WholeEntries(entries, t - 2)])
  {
    var body := EncodeEntries(entries) + tail;
    assert Encode(entries) + tail == Short(|entries|) + body;
    if t >= 2 {
      CutBehindShort(|entries|, body, t);
      EntriesAreRead(entries, tail, t - 2);
    }
  }

  lemma CutBehindShort(n: nat, body: Bytes, t: nat)
    requires n <= 64 && 2 <= t <= 2 + |body|
    ensures EntriesOf((Short(n) + body)[..t]) == ReadEntries(body[..t - 2], n)
  {
    assert (Short(n) + body)[..t] == Short(n) + body[..t - 2];
    ShortIsRead(n, body[..t - 2]);
  }

  lemma {:induction false} AllEntriesFit(entries: seq<Entry>, t: nat)
    requires t >= |EncodeEntries(entries)|
    ensures WholeEntries(entries, t) == |entries|
  {
    if entries != [] { AllEntriesFit(entries[1..], t - |EncodeEntry(entries[0])|); }
  }

  lemma WholeMessage(entries: seq<Entry>, tail: Bytes)
    requires |entries| <= 64
    ensures var t := |Encode(entries) + tail|;
      && t >= 2 && entries[..WholeEntries(entries, t - 2)] == entries
      && (Encode(entries) + tail)[..t] == Encode(entries) + tail
  {
    AllEntriesFit(entries, |Encode(entries) + tail| - 2);
  }

  /** The round trip on complete messages. */
  lemma CompleteMessageIsRead(c: Cleanup, entries: seq<Entry>, tail: Bytes)
    requires |entries| <= 64
    ensures Supported(c, Encode(entries) + tail) == RecordAll(c, entries)
  {
    TruncationKeepsWholeEntries(c, entries, tail, |Encode(entries) + tail|);
    WholeMessage(entries, tail);
  }

  // ---------------------------------------------------------------- limits

  lemma OneInFront(entries: seq<Entry>, tail: Bytes, n: nat)
    requires entries != [] && n > 0
    requires ReadEntries(EncodeEntries(entries[1..]) + tail, n - 1) == entries[1..]
    ensures ReadEntries(EncodeEntries(entries) + tail, n) == entries
  {
    var more := EncodeEntries(entries[1..]) + tail;
    assert EncodeEntries(entries) + tail == EncodeEntry(entries[0]) + more;
    EntryIsRead(entries[0], more);
    assert entries == [entries[0]] + entries[1..];
  }

  /** What cannot be read behind complete entries ends the parse. */
  lemma {:induction false} EntriesInFront(entries: seq<Entry>, tail: Bytes, n: nat)
    requires |entries| < n && ReadEntry(tail) == Nothing
    ensures ReadEntries(EncodeEntries(entries) + tail, n) == entries
    decreases |entries|
  {
    if entries == [] {
      NothingInFront(tail, n);
    } else {
      EntriesInFront(entries[1..], tail, n - 1);
      OneInFront(entries, tail, n);
    }
  }

  lemma NothingInFront(tail: Bytes, n: nat)
    requires ReadEntry(tail) == Nothing
    ensures ReadEntries(EncodeEntries([]) + tail, n) == []
  {
    assert EncodeEntries([]) + tail == tail;
  }

  /** More than 64 announced entries are refused as a whole. */
  lemma TooManyEntries(c: Cleanup, n: nat, rest: Bytes)
    requires 64 < n < 65536
    ensures Supported(c, Short(n) + rest) == map[]
  {
    ShortIsRead(n, rest);
  }

  /** An entry with more than 32 values ends the parse; what was read before it stays. */
  lemma TooManyValues(c: Cleanup, entries: seq<Entry>, n: nat, name: Text, values: nat, rest: Bytes)
    requires |entries| < n <= 64 && 32 < values < 65536
    ensures Supported(c, Short(n) + (EncodeEntries(entries) + (EncodeText(name) + (Short(values) + rest)))) ==
      RecordAll(c, entries)
  {
    var tail := EncodeText(name) + (Short(values) + rest);
    ShortIsRead(n, EncodeEntries(entries) + tail);
    TextIsRead(name, Short(values) + rest);
    ShortIsRead(values, rest);
    EntriesInFront(entries, tail, n);
  }
}
