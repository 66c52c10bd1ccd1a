/**
 * The container file written by mkbundle's package mode (class
 * `PackageMaker`): payloads at 4096-byte boundaries, then an index of
 * `(name, offset, size)` entries, the offset where the index starts and a
 * 16-byte trailer, so that a reader finds the index from the end of the file.
 */
module Container {
  import opened Wrappers
  import opened Bytes
  import opened Utf8

  const ALIGN: nat := 4096
  const TRAILER: string := "xmonkeysloveplay"

  /** `(offset, size)` of an entry, as stored in `_locations`. */
  type Location = (int, int)

  /** The trailer's bytes, least address first. */
  const MAGIC: seq<byte> :=
    [0x78, 0x6d, 0x6f, 0x6e, 0x6b, 0x65, 0x79, 0x73, 0x6c, 0x6f, 0x76, 0x65, 0x70, 0x6c, 0x61, 0x79]

  /** The trailer is the 16 ASCII codes of "xmonkeysloveplay" (its UTF-8 form). */
  lemma MagicIsTrailer()
    ensures |MAGIC| == |TRAILER| == 16
    ensures forall i :: 0 <= i < 16 ==> MAGIC[i] == TRAILER[i] as int
  {
  }

  /** `p + (Align - p % Align)`: the write position after a payload that ends at p. */
  function NextBlock(p: nat): (r: nat)
    ensures r % ALIGN == 0
    ensures p < r <= p + ALIGN
  {
    assert p + (ALIGN - p % ALIGN) == ALIGN * (p / ALIGN + 1);
    p + (ALIGN - p % ALIGN)
  }

  /** No multiple of 4096 lies strictly between p and NextBlock(p): an aligned p still moves a whole block. */
  lemma NextBlockIsLeast(p: nat, q: nat)
    requires q % ALIGN == 0 && p < q
    ensures NextBlock(p) <= q
  {
    assert q == ALIGN * (q / ALIGN);
    assert NextBlock(p) == ALIGN * (p / ALIGN + 1);
    assert p / ALIGN < q / ALIGN;
  }

  /** What the stream holds after writing `bytes` at `position`: a position past the end zero-fills the gap. */
  function WriteAt(data: seq<byte>, position: nat, bytes: seq<byte>): (r: seq<byte>)
    requires |data| <= position
    ensures |r| == position + |bytes|
    ensures r[..|data|] == data
    ensures r[position..] == bytes
  {
    data + Zeros(position - |data|) + bytes
  }

  predicate DistinctOffsets(m: map<string, Location>)
  {
    forall e, e' :: e in m && e' in m && e != e' ==> m[e].0 != m[e'].0
  }

  /** The key/value payload of `AddStringPair`: key length, key, NUL, value, NUL. */
  function KeyValueBytes(key: string, value: string): (r: seq<byte>)
    requires |Encode(key)| <= 255
    ensures |r| == |Encode(key)| + |Encode(value)| + 3
  {
    [|Encode(key)|] + Encode(key) + [0] + Encode(value) + [0]
  }

  /** Reads a key/value payload back. */
  function ParseKeyValue(payload: seq<byte>): Option<(string, string)>
  {
    if |payload| < 3 then None
    else
      var n := payload[0] as int;
      if |payload| < n + 3 || payload[n + 1] != 0 || payload[|payload| - 1] != 0 then None
      else
        var k := Decode(payload[1..n + 1]);
        var v := Decode(payload[n + 2..|payload| - 1]);
        if k.Some? && v.Some? then Some((k.value, v.value)) else None
  }

  lemma KeyValueRoundTrip(key: string, value: string)
    requires |Encode(key)| <= 255
    ensures ParseKeyValue(KeyValueBytes(key, value)) == Some((key, value))
  {
    ParseKeyValueFields(Encode(key), Encode(value));
    DecodeEncode(key);
    DecodeEncode(value);
  }

  /** The parser reads the key and the value from where the payload put them. */
  lemma ParseKeyValueFields(kb: seq<byte>, vb: seq<byte>)
    requires |kb| <= 255
    ensures ParseKeyValue([|kb|] + kb + [0] + vb + [0])
         == if Decode(kb).Some? && Decode(vb).Some? then Some((Decode(kb).value, Decode(vb).value)) else None
  {
    var p := [|kb|] + kb + [0] + vb + [0];
    assert p[1..|kb| + 1] == kb;
    assert p[|kb| + 2..|p| - 1] == vb;
  }

  // ---------------------------------------------------------------- the index

  /** Entries listed by strictly ascending offset (so without repetition). */
  predicate SortedByOffset(order: seq<string>, m: map<string, Location>)
  {
    && (forall i :: 0 <= i < |order| ==> order[i] in m)
    && (forall i, j :: 0 <= i < j < |order| ==> m[order[i]].0 < m[order[j]].0)
  }

  /** One index record: name length (including the NUL), name, NUL, offset, size. */
  function EntryBytes(name: string, loc: Location): (r: seq<byte>)
    ensures |r| == |Encode(name)| + 17
  {
    Int32Bytes(|Encode(name)| + 1) + Encode(name) + [0] + Int64Bytes(loc.0) + Int32Bytes(loc.1)
  }

  function EntriesBytes(order: seq<string>, m: map<string, Location>): seq<byte>
    requires forall i :: 0 <= i < |order| ==> order[i] in m
  {
    if order == [] then [] else EntryBytes(order[0], m[order[0]]) + EntriesBytes(order[1..], m)
  }

  lemma {:induction false} EntriesBytesSnoc(order: seq<string>, e: string, m: map<string, Location>)
    requires forall i :: 0 <= i < |order| ==> order[i] in m
    requires e in m
    ensures EntriesBytes(order + [e], m) == EntriesBytes(order, m) + EntryBytes(e, m[e])
  {
    if order != [] {
      assert (order + [e])[1..] == order[1..] + [e];
      EntriesBytesSnoc(order[1..], e, m);
    } else {
      assert order + [e] == [e];
    }
  }

  /** Everything `WriteIndex` writes. */
  function IndexBytes(order: seq<string>, m: map<string, Location>, indexStart: int): seq<byte>
    requires forall i :: 0 <= i < |order| ==> order[i] in m
  {
    Int32Bytes(|m|) + EntriesBytes(order, m) + Int64Bytes(indexStart) + MAGIC
  }

  /** What the index can represent: the count and name lengths fit an `int`, offsets a `long`, sizes an `int`. */
  predicate IndexFits(m: map<string, Location>, indexStart: int)
  {
    && |m| < TWO_31
    && IsInt64(indexStart)
    && forall e :: e in m ==> IsInt64(m[e].0) && IsInt32(m[e].1) && |Encode(e)| + 1 < TWO_31
  }

  /** The reader's view: entries read one by one, each stored under its decoded name. */
  function ParseEntries(b: seq<byte>, count: int, acc: map<string, Location>): Option<map<string, Location>>
    decreases |b|
  {
    if count <= 0 then (if b == [] then Some(acc) else None)
    else if |b| < 4 then None
    else
      var len := ReadInt32(b[..4]);
      if len < 1 || |b| < len + 16 || b[len + 3] != 0 then None
      else
        var name := Decode(b[4..len + 3]);
        if name.None? then None
        else
          var loc := (ReadInt64(b[len + 4..len + 12]), ReadInt32(b[len + 12..len + 16]));
          ParseEntries(b[len + 16..], count - 1, acc[name.value := loc])
  }

  /** Locates the index from the end of the file and reads it. */
  function ParseIndex(file: seq<byte>): Option<map<string, Location>>
  {
    var t := |MAGIC|;
    if |file| < t + 8 || file[|file| - t..] != MAGIC then None
    else
      var start := ReadInt64(file[|file| - t - 8..|file| - t]);
      if start < 0 || start + 4 > |file| - t - 8 then None
      else ParseEntries(file[start + 4..|file| - t - 8], ReadInt32(file[start..start + 4]), map[])
  }

  /** acc updated with the entries of `order`, in order. */
  function Apply(acc: map<string, Location>, order: seq<string>, m: map<string, Location>): map<string, Location>
    requires forall i :: 0 <= i < |order| ==> order[i] in m
    decreases |order|
  {
    if order == [] then acc else Apply(acc[order[0] := m[order[0]]], order[1..], m)
  }

  lemma {:induction false} ApplyContents(acc: map<string, Location>, order: seq<string>, m: map<string, Location>)
    requires forall i :: 0 <= i < |order| ==> order[i] in m
    ensures forall x :: x in Apply(acc, order, m) <==> x in acc || x in order
    ensures forall x :: x in order ==> Apply(acc, order, m)[x] == m[x]
    ensures forall x :: x in acc && x !in order ==> Apply(acc, order, m)[x] == acc[x]
    decreases |order|
  {
    if order != [] {
      ApplyContents(acc[order[0] := m[order[0]]], order[1..], m);
      assert forall x :: x in order <==> x == order[0] || x in order[1..];
    }
  }

  /** The fields of one record, read back at their offsets. */
  lemma EntryFields(name: string, loc: Location, rest: seq<byte>)
    requires |Encode(name)| + 1 < TWO_31 && IsInt64(loc.0) && IsInt32(loc.1)
    ensures var b, len := EntryBytes(name, loc) + rest, |Encode(name)| + 1;
      && |b| >= len + 16
      && ReadInt32(b[..4]) == len
      && b[4..len + 3] == Encode(name)
      && b[len + 3] == 0
      && ReadInt64(b[len + 4..len + 12]) == loc.0
      && ReadInt32(b[len + 12..len + 16]) == loc.1
      && b[len + 16..] == rest
  {
    RecordFields(Encode(name), loc, rest);
  }

  lemma RecordFields(nb: seq<byte>, loc: Location, rest: seq<byte>)
    requires |nb| + 1 < TWO_31 && IsInt64(loc.0) && IsInt32(loc.1)
    ensures var b, len := Int32Bytes(|nb| + 1) + nb + [0] + Int64Bytes(loc.0) + Int32Bytes(loc.1) + rest, |nb| + 1;
      && |b| >= len + 16
      && ReadInt32(b[..4]) == len
      && b[4..len + 3] == nb
      && b[len + 3] == 0
      && ReadInt64(b[len + 4..len + 12]) == loc.0
      && ReadInt32(b[len + 12..len + 16]) == loc.1
      && b[len + 16..] == rest
  {
    var len := |nb| + 1;
    var head := Int32Bytes(len) + nb + [0];
    var tail := Int32Bytes(loc.1) + rest;
    var b := head + Int64Bytes(loc.0) + tail;
    assert b == Int32Bytes(|nb| + 1) + nb + [0] + Int64Bytes(loc.0) + Int32Bytes(loc.1) + rest;
    assert |head| == len + 4;
    assert b[..4] == head[..4] == Int32Bytes(len);
    assert b[4..len + 3] == head[4..len + 3] == nb;
    assert b[len + 3] == head[len + 3] == 0;
    assert b[len + 4..len + 12] == Int64Bytes(loc.0);
    assert b[len + 12..] == tail;
    assert b[len + 12..len + 16] == tail[..4] == Int32Bytes(loc.1);
    assert b[len + 16..] == tail[4..] == rest;
    Int32RoundTrip(len);
    Int64RoundTrip(loc.0);
    Int32RoundTrip(loc.1);
  }

  lemma {:induction false} ParseEntriesRoundTrip(order: seq<string>, m: map<string, Location>, acc: map<string, Location>)
    requires forall i :: 0 <= i < |order| ==> order[i] in m
    requires IndexFits(m, 0)
    ensures ParseEntries(EntriesBytes(order, m), |order|, acc) == Some(Apply(acc, order, m))
  {
    if order != [] {
      var e := order[0];
      var rest := EntriesBytes(order[1..], m);
      EntryFields(e, m[e], rest);
      DecodeEncode(e);
      ParseEntriesRoundTrip(order[1..], m, acc[e := m[e]]);
    }
  }

  lemma {:induction false} DistinctCount(order: seq<string>, m: map<string, Location>)
    requires SortedByOffset(order, m)
    ensures |set x | x in order| == |order|
  {
    if order != [] {
      DistinctCount(order[1..], m);
      assert order[0] !in order[1..];
      assert (set x | x in order) == {order[0]} + (set x | x in order[1..]);
    }
  }

  /** The reader finds the trailer at the end of the file and starts on the entries right after the count. */
  lemma TrailerFields(prefix: seq<byte>, count: int, entries: seq<byte>)
    requires IsInt64(|prefix|)
    ensures ParseIndex(prefix + (Int32Bytes(count) + entries + Int64Bytes(|prefix|) + MAGIC))
         == ParseEntries(entries, ReadInt32(Int32Bytes(count)), map[])
  {
    var body := prefix + Int32Bytes(count) + entries;
    assert prefix + (Int32Bytes(count) + entries + Int64Bytes(|prefix|) + MAGIC) == body + Int64Bytes(|prefix|) + MAGIC;
    TrailerStart(body, |prefix|);
    assert body[|prefix|..|prefix| + 4] == Int32Bytes(count);
    assert body[|prefix| + 4..] == entries;
  }

  /** The eight bytes before the trailer give back where the index starts. */
  lemma TrailerStart(body: seq<byte>, start: int)
    requires IsInt64(start) && 0 <= start && start + 4 <= |body|
    ensures ParseIndex(body + Int64Bytes(start) + MAGIC)
         == ParseEntries(body[start + 4..], ReadInt32(body[start..start + 4]), map[])
  {
    var file := body + Int64Bytes(start) + MAGIC;
    var t := |MAGIC|;
    assert file[|file| - t..] == MAGIC;
    assert file[|file| - t - 8..|file| - t] == Int64Bytes(start);
    Int64RoundTrip(start);
    assert file[..|body|] == body;
    assert file[start..start + 4] == body[start..start + 4];
    assert file[start + 4..|file| - t - 8] == body[start + 4..];
  }

  /** Applying every entry of a listing of m to the empty map gives m back. */
  lemma ApplyListing(order: seq<string>, m: map<string, Location>)
    requires SortedByOffset(order, m) && forall e :: e in m ==> e in order
    ensures Apply(map[], order, m) == m
    ensures |order| == |m|
  {
    ApplyContents(map[], order, m);
    var r := Apply(map[], order, m);
    assert r.Keys == m.Keys;
    assert forall x :: x in m ==> r[x] == m[x];
    DistinctCount(order, m);
    assert (set x | x in order) == m.Keys;
  }

  /**
   * Reading the index back from the end of the file recovers the entry map
   * exactly, whatever precedes the index.
   */
  lemma IndexRoundTrip(prefix: seq<byte>, order: seq<string>, m: map<string, Location>)
    requires SortedByOffset(order, m) && forall e :: e in m ==> e in order
    requires IndexFits(m, |prefix|)
    ensures ParseIndex(prefix + IndexBytes(order, m, |prefix|)) == Some(m)
  {
    var entries := EntriesBytes(order, m);
    TrailerFields(prefix, |m|, entries);
    Int32RoundTrip(|m|);
    ApplyListing(order, m);
    ParseEntriesRoundTrip(order, m, map[]);
  }

  /** Inserts e at its place in a list sorted by offset (one step of `orderby`). */
  function InsertByOffset(order: seq<string>, e: string, m: map<string, Location>): (r: seq<string>)
    requires e in m && SortedByOffset(order, m)
    requires forall i :: 0 <= i < |order| ==> m[order[i]].0 != m[e].0
    ensures SortedByOffset(r, m)
    ensures forall x :: x in r <==> x == e || x in order
  {
    if order == [] then [e]
    else if m[e].0 < m[order[0]].0 then [e] + order
    else
      var r := InsertByOffset(order[1..], e, m);
      assert forall i :: 0 <= i < |r| ==> m[order[0]].0 < m[r[i]].0 by {
        forall i | 0 <= i < |r| ensures m[order[0]].0 < m[r[i]].0 {
          if r[i] != e {
            assert r[i] in r;
            var j :| 0 <= j < |order[1..]| && order[1..][j] == r[i];
            assert order[j + 1] == r[i];
          }
        }
      }
      [order[0]] + r
  }

  /** `from entry in _locations orderby entry.Value.Item1`: the entry names by ascending offset. */
  method SortByOffset(m: map<string, Location>) returns (order: seq<string>)
    requires DistinctOffsets(m)
    ensures SortedByOffset(order, m)
    ensures forall e :: e in order <==> e in m
  {
    order := [];
    var pending := m.Keys;
    while pending != {}
      invariant pending <= m.Keys
      invariant SortedByOffset(order, m)
      invariant forall e :: e in order <==> e in m && e !in pending
      decreases |pending|
    {
      var e :| e in pending;
      order := InsertByOffset(order, e, m);
      pending := pending - {e};
    }
  }

  /** The head of a list sorted by offset has the least offset, and no other element shares it. */
  lemma SortedHeadIsLeast(order: seq<string>, m: map<string, Location>)
    requires SortedByOffset(order, m) && order != []
    ensures forall x :: x in order ==> m[order[0]].0 <= m[x].0
    ensures forall x :: x in order && m[x].0 == m[order[0]].0 ==> x == order[0]
  {
    forall x | x in order
      ensures m[order[0]].0 <= m[x].0
      ensures m[x].0 == m[order[0]].0 ==> x == order[0]
    {
      var i :| 0 <= i < |order| && order[i] == x;
      if i > 0 {
        assert m[order[0]].0 < m[x].0;
      }
    }
  }

  /** Offsets are distinct, so there is only one way to list the entries by offset. */
  lemma {:induction false} SortedOrderUnique(o1: seq<string>, o2: seq<string>, m: map<string, Location>)
    requires SortedByOffset(o1, m) && SortedByOffset(o2, m)
    requires forall e :: e in o1 <==> e in o2
    ensures o1 == o2
    decreases |o1|
  {
    SameElementsEmpty(o1, o2);
    if o1 != [] {
      SortedHeadIsLeast(o1, m);
      SortedHeadIsLeast(o2, m);
      assert o1[0] in o2 && o2[0] in o1;
      SortedTails(o1, o2, m);
      SortedOrderUnique(o1[1..], o2[1..], m);
      assert o1 == [o1[0]] + o1[1..] && o2 == [o2[0]] + o2[1..];
    }
  }

  lemma SameElementsEmpty(o1: seq<string>, o2: seq<string>)
    requires forall e :: e in o1 <==> e in o2
    ensures o1 == [] <==> o2 == []
  {
    if o1 != [] {
      assert o1[0] in o1;
    }
    if o2 != [] {
      assert o2[0] in o2;
    }
  }

  /** Two listings by offset with the same head list the same remaining elements. */
  lemma SortedTails(o1: seq<string>, o2: seq<string>, m: map<string, Location>)
    requires SortedByOffset(o1, m) && SortedByOffset(o2, m)
    requires forall e :: e in o1 <==> e in o2
    requires o1 != [] && o2 != [] && o1[0] == o2[0]
    ensures forall e :: e in o1[1..] <==> e in o2[1..]
  {
    forall e | e in o1[1..]
      ensures e in o2[1..]
    {
      SortedTailOf(o1, o2, m, e);
    }
    forall e | e in o2[1..]
      ensures e in o1[1..]
    {
      SortedTailOf(o2, o1, m, e);
    }
  }

  lemma SortedTailOf(o1: seq<string>, o2: seq<string>, m: map<string, Location>, e: string)
    requires SortedByOffset(o1, m) && SortedByOffset(o2, m)
    requires forall e :: e in o1 <==> e in o2
    requires o1 != [] && o2 != [] && o1[0] == o2[0]
    requires e in o1[1..]
    ensures e in o2[1..]
  {
    var i :| 0 <= i < |o1[1..]| && o1[1..][i] == e;
    assert o1[i + 1] == e && m[o1[0]].0 < m[e].0;
    assert e in o2;
    var j :| 0 <= j < |o2| && o2[j] == e;
    assert j != 0;
    assert o2[1..][j - 1] == e;
  }

  /** The bytes the BinaryWriter of `WriteIndex` produces for the entries in the given order. */
  method IndexWriter(m: map<string, Location>, sorted: seq<string>, indexStart: int) returns (index: seq<byte>)
    requires forall i :: 0 <= i < |sorted| ==> sorted[i] in m
    ensures index == IndexBytes(sorted, m, indexStart)
  {
    index := Int32Bytes(|m|);
    var i := 0;
    while i < |sorted|
      invariant 0 <= i <= |sorted|
      invariant index == Int32Bytes(|m|) + EntriesBytes(sorted[..i], m)
    {
      var record := WriteRecord(sorted[i], m[sorted[i]]);
      IndexStep(m, sorted, i, index);
      index := index + record;
      i := i + 1;
    }
    assert sorted[..i] == sorted;
    index := index + Int64Bytes(indexStart) + MAGIC;
  }

  /** One record of the index, written field by field. */
  method WriteRecord(name: string, loc: Location) returns (record: seq<byte>)
    ensures record == EntryBytes(name, loc)
  {
    var bytes := Encode(name);
    record := Int32Bytes(|bytes| + 1) + bytes + [0] + Int64Bytes(loc.0) + Int32Bytes(loc.1);
  }

  /** Appending the next record extends the index written so far by that entry. */
  lemma IndexStep(m: map<string, Location>, sorted: seq<string>, i: nat, index: seq<byte>)
    requires i < |sorted| && forall k :: 0 <= k < |sorted| ==> sorted[k] in m
    requires index == Int32Bytes(|m|) + EntriesBytes(sorted[..i], m)
    ensures index + EntryBytes(sorted[i], m[sorted[i]]) == Int32Bytes(|m|) + EntriesBytes(sorted[..i + 1], m)
  {
    var e := sorted[i];
    var body, last := EntriesBytes(sorted[..i], m), EntryBytes(e, m[e]);
    assert EntriesBytes(sorted[..i + 1], m) == body + last by {
      var prefix := sorted[..i];
      assert sorted[..i + 1] == prefix + [e];
      EntriesBytesSnoc(prefix, e, m);
    }
  }

  // ---------------------------------------------------------------- the writer

  class PackageMaker {
    /** The bytes of the output file so far. */
    var data: seq<byte>
    /** `_package.Position`. */
    var position: nat
    /** `_locations`: entry name to (offset, size). */
    var locations: map<string, Location>
    /** `_package` set to null by `Close`. */
    var closed: bool

    ghost predicate Valid()
      reads this
    {
      && !closed
      && |data| <= position
      && position % ALIGN == 0
      && (forall e :: e in locations ==> 0 <= locations[e].0 < position && locations[e].0 % ALIGN == 0)
      && DistinctOffsets(locations)
    }

    constructor ()
      ensures Valid()
      ensures data == [] && position == 0 && locations == map[]
    {
      data, position, locations, closed := [], 0, map[], false;
    }

    /** Copies a file's bytes in at the position and moves to the next block; records no entry. */
    method AddFile(content: seq<byte>) returns (size: int)
      requires Valid()
      modifies this
      ensures Valid()
      ensures data == WriteAt(old(data), old(position), content)
      ensures position == NextBlock(|data|)
      ensures locations == old(locations)
      ensures size == Int32Wrap(|content|)
    {
      var ret := |content|;
      Append(content);
      size := Int32Wrap(ret);
    }

    method Add(entry: string, content: seq<byte>)
      requires Valid()
      modifies this
      ensures Valid()
      ensures data == WriteAt(old(data), old(position), content)
      ensures position == NextBlock(|data|)
      ensures locations == old(locations)[entry := (old(position), Int32Wrap(|content|))]
    {
      var p := position;
      var size := AddFile(content);
      Record(entry, p, size);
    }

    method AddString(entry: string, text: string)
      requires Valid()
      modifies this
      ensures Valid()
      ensures data == WriteAt(old(data), old(position), Encode(text))
      ensures position == NextBlock(|data|)
      ensures locations == old(locations)[entry := (old(position), |Encode(text)|)]
    {
      var bytes := Encode(text);
      var p := position;
      Append(bytes);
      Record(entry, p, |bytes|);
    }

    /** Fails, writing nothing, when the key's UTF-8 form is longer than 255 bytes. */
    method AddStringPair(entry: string, key: string, value: string) returns (ok: bool)
      requires Valid()
      modifies this
      ensures Valid()
      ensures ok <==> |Encode(key)| <= 255
      ensures !ok ==> data == old(data) && position == old(position) && locations == old(locations)
      ensures ok ==> data == WriteAt(old(data), old(position), KeyValueBytes(key, value))
      ensures ok ==> position == NextBlock(|data|)
      ensures ok ==> locations == old(locations)[entry := (old(position), |Encode(key)| + |Encode(value)| + 3)]
    {
      var kbytes := Encode(key);
      var vbytes := Encode(value);
      if |kbytes| > 255 {
        return false;
      }
      var p := position;
      Append([|kbytes|] + kbytes + [0] + vbytes + [0]);
      Record(entry, p, |kbytes| + |vbytes| + 3);
      ok := true;
    }

    /** Writes `bytes` at the position, then moves the position to the next 4096-byte boundary. */
    method Append(bytes: seq<byte>)
      requires Valid()
      modifies this
      ensures Valid()
      ensures data == WriteAt(old(data), old(position), bytes)
      ensures position == NextBlock(|data|)
      ensures locations == old(locations)
    {
      data := WriteAt(data, position, bytes);
      position := position + |bytes|;
      position := position + (ALIGN - position % ALIGN);
    }

    /** `_locations[entry] = (p, size)` for a payload written at the block p, before the position. */
    method Record(entry: string, p: nat, size: int)
      requires Valid() && p < position && p % ALIGN == 0
      requires forall e :: e in locations ==> locations[e].0 < p
      modifies this
      ensures Valid()
      ensures data == old(data) && position == old(position)
      ensures locations == old(locations)[entry := (p, size)]
    {
      locations := locations[entry := (p, size)];
    }
    /** Writes the index at the position, entries by ascending offset. */
    method WriteIndex() returns (ghost order: seq<string>)
      requires Valid()
      modifies this
      ensures SortedByOffset(order, locations) && forall e :: e in order <==> e in locations
      ensures locations == old(locations)
      ensures data == WriteAt(old(data), old(position), IndexBytes(order, locations, old(position)))
      ensures position == |data|
    {
      var indexStart := position;
      var sorted := SortByOffset(locations);
      var index := IndexWriter(locations, sorted, indexStart);
      data := WriteAt(data, position, index);
      position := |data|;
      order := sorted;
    }

    /** Writes the index and closes the stream; the index reads back as the entry map. */
    method Close()
      requires Valid()
      modifies this
      ensures closed
      ensures locations == old(locations)
      ensures |data| >= old(position) && data[..old(position)] == old(data) + Zeros(old(position) - |old(data)|)
      ensures exists order :: SortedByOffset(order, locations) && (forall e :: e in order <==> e in locations)
                && data == WriteAt(old(data), old(position), IndexBytes(order, locations, old(position)))
      ensures IndexFits(locations, old(position)) ==> ParseIndex(data) == Some(locations)
    {
      ghost var prefix := data + Zeros(position - |data|);
      ghost var order := WriteIndex();
      assert data == prefix + IndexBytes(order, locations, old(position));
      if IndexFits(locations, old(position)) {
        IndexRoundTrip(prefix, order, locations);
      }
      closed := true;
    }
  }
}
