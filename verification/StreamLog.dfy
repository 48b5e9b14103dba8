/** The append-only item format of stream_manager.cpp: a 5-byte relative time, then the item's bytes. */
module StreamLog {
  import opened Basics

  type u64 = x: int | 0 <= x < 0x1_0000_0000_0000_0000

  const HEADER_SIZE := 64
  const TIME_BYTES := 5
  const WORD := 0x1_0000_0000
  const TIME_RANGE := 0x100_0000_0000  // what TIME_BYTES bytes can tell apart

  datatype Item = Item(time: u64, data: seq<byte>)

  // ---------------------------------------------------------------- the format

  function LittleEndian(v: nat, n: nat): (r: seq<byte>)
    ensures |r| == n
  {
    if n == 0 then [] else [v % 256] + LittleEndian(v / 256, n - 1)
  }

  function FromLittleEndian(s: seq<byte>): nat {
    if s == [] then 0 else s[0] + 256 * FromLittleEndian(s[1..])
  }

  /** The offset that is stored: a 64-bit difference, which wraps for a time before the stream's first. */
  function RelativeTime(time: u64, begin: u64): u64 { (time - begin) % 0x1_0000_0000_0000_0000 }

  function Encode(item: Item, begin: u64): seq<byte> {
    LittleEndian(RelativeTime(item.time, begin), TIME_BYTES) + item.data
  }

  function EncodeAll(items: seq<Item>, begin: u64): seq<byte> {
    if items == [] then [] else EncodeAll(items[..|items| - 1], begin) + Encode(items[|items| - 1], begin)
  }

  /** The reader of a stream of k-byte items; the stored offset counts from begin. */
  function DecodeAll(bytes: seq<byte>, k: nat, begin: u64): seq<(nat, seq<byte>)> {
    if |bytes| < TIME_BYTES + k then []
    else [(begin + FromLittleEndian(bytes[..TIME_BYTES]), bytes[TIME_BYTES..TIME_BYTES + k])]
         + DecodeAll(bytes[TIME_BYTES + k..], k, begin)
  }

  function MaxTime(items: seq<Item>, least: u64): u64 {
    if items == [] then least
    else
      var time, others := items[|items| - 1].time, MaxTime(items[..|items| - 1], least);
      if time > others then time else others
  }

  predicate ItemSize(items: seq<Item>, k: nat) { forall item :: item in items ==> |item.data| == k }

  /** The time that the stored offset stands for; it is the time written only within TIME_RANGE. */
  function TimeRead(time: u64, begin: u64): nat { begin + (time - begin) % TIME_RANGE }

  predicate InRange(time: u64, begin: u64) { begin <= time < begin + TIME_RANGE }

  lemma TimeReadExactly(time: u64, begin: u64)
    ensures TimeRead(time, begin) == time <==> InRange(time, begin)
  {
  }

  function Power256(n: nat): (p: nat)
    ensures p > 0
  {
    if n == 0 then 1 else 256 * Power256(n - 1)
  }

  /** Byte i of those stored is the i-th lowest of the value. */
  lemma {:induction false} LowestFirst(v: nat, n: nat, i: nat)
    requires i < n
    ensures LittleEndian(v, n)[i] == v / Power256(i) % 256
  {
    if i > 0 {
      LowestFirst(v / 256, n - 1, i - 1);
      assert LittleEndian(v, n)[i] == LittleEndian(v / 256, n - 1)[i - 1];
      DivideTwice(v, Power256(i - 1));
    }
  }

  lemma DivideTwice(v: nat, p: nat)
    requires p > 0
    ensures v / 256 / p == v / (256 * p)
  {
    var q, r := v / 256 / p, v / 256 % p;
    assert v / 256 == p * q + r;
    assert v == 256 * (v / 256) + v % 256;
    assert 256 * (p * q + r) == 256 * p * q + 256 * r;
    assert v == 256 * p * q + (256 * r + v % 256);
    DivisionIs(v, 256 * p, q, 256 * r + v % 256);
  }

  /** An item is stored as the five low bytes of its time since begin, lowest first, and then its data. */
  lemma ItemBytes(item: Item, begin: u64, i: nat)
    ensures var b := Encode(item, begin); |b| == TIME_BYTES + |item.data| && b[TIME_BYTES..] == item.data
    ensures i < TIME_BYTES ==> Encode(item, begin)[i] == (item.time - begin) / Power256(i) % 256
  {
    if i < TIME_BYTES {
      LowestFirst(RelativeTime(item.time, begin), TIME_BYTES, i);
      WrapKeepsByte(item.time - begin, i);
    }
  }

  /** Adding a multiple of 256 * p does not change the byte that p shifts down. */
  lemma ShiftedByte(d: int, p: int, m: int)
    requires p > 0
    ensures (d + 256 * p * m) / p % 256 == d / p % 256
  {
    assert d + 256 * p * m == p * (d / p + 256 * m) + d % p;
    DivisionIs(d + 256 * p * m, p, d / p + 256 * m, d % p);
  }

  lemma SmallPowers()
    ensures Power256(0) == 1 && Power256(1) == 256 && Power256(2) == 0x1_0000
    ensures Power256(3) == 0x100_0000 && Power256(4) == 0x1_0000_0000
  {
  }

  lemma WrapKeepsByte(d: int, i: nat)
    requires i < TIME_BYTES && -0x1_0000_0000_0000_0000 < d < 0x1_0000_0000_0000_0000
    ensures d % 0x1_0000_0000_0000_0000 / Power256(i) % 256 == d / Power256(i) % 256
  {
    SmallPowers();
    if d < 0 {
      DivisionIs(d, 0x1_0000_0000_0000_0000, -1, d + 0x1_0000_0000_0000_0000);
      match i {
        case 0 => ShiftedByte(d, 1, 0x100_0000_0000_0000);
        case 1 => ShiftedByte(d, 0x100, 0x1_0000_0000_0000);
        case 2 => ShiftedByte(d, 0x1_0000, 0x100_0000_0000);
        case 3 => ShiftedByte(d, 0x100_0000, 0x1_0000_0000);
        case 4 => ShiftedByte(d, 0x1_0000_0000, 0x100_0000);
      }
    } else {
      DivisionIs(d, 0x1_0000_0000_0000_0000, 0, d);
    }
  }

  /** Of any value, the low n bytes are stored and read back, and the rest is lost. */
  lemma {:induction false} ReadsLowBytes(v: nat, n: nat) returns (lost: nat)
    ensures FromLittleEndian(LittleEndian(v, n)) < Power256(n)
    ensures v == FromLittleEndian(LittleEndian(v, n)) + Power256(n) * lost
  {
    if n == 0 {
      lost := v;
    } else {
      lost := ReadsLowBytes(v / 256, n - 1);
      assert LittleEndian(v, n)[1..] == LittleEndian(v / 256, n - 1);
      assert 256 * (Power256(n - 1) * lost) == 256 * Power256(n - 1) * lost;
    }
  }

  lemma TwoBytes(v: nat) returns (lost: nat)
    ensures FromLittleEndian(LittleEndian(v, 2)) < 0x1_0000
    ensures v == FromLittleEndian(LittleEndian(v, 2)) + 0x1_0000 * lost
  {
    lost := ReadsLowBytes(v, 2);
    assert Power256(2) == 0x1_0000;
  }

  lemma FourBytes(v: nat) returns (lost: nat)
    ensures FromLittleEndian(LittleEndian(v, 4)) < 0x1_0000_0000
    ensures v == FromLittleEndian(LittleEndian(v, 4)) + 0x1_0000_0000 * lost
  {
    lost := ReadsLowBytes(v, 4);
    assert Power256(4) == 0x1_0000_0000;
  }

  lemma FiveBytes(v: nat) returns (lost: nat)
    ensures FromLittleEndian(LittleEndian(v, TIME_BYTES)) < TIME_RANGE
    ensures v == FromLittleEndian(LittleEndian(v, TIME_BYTES)) + TIME_RANGE * lost
  {
    lost := ReadsLowBytes(v, 5);
    assert Power256(5) == 0x100_0000_0000;
  }

  lemma WrapKeepsLow(d: int)
    requires -0x1_0000_0000_0000_0000 < d < 0x1_0000_0000_0000_0000
    ensures (d % 0x1_0000_0000_0000_0000) % TIME_RANGE == d % TIME_RANGE
  {
  }

  lemma OffsetReadBack(time: u64, begin: u64)
    ensures begin + FromLittleEndian(LittleEndian(RelativeTime(time, begin), TIME_BYTES)) == TimeRead(time, begin)
  {
    var lost := FiveBytes(RelativeTime(time, begin));
    WrapKeepsLow(time - begin);
  }

  lemma {:induction false} EncodedSize(items: seq<Item>, k: nat, begin: u64)
    requires ItemSize(items, k)
    ensures |EncodeAll(items, begin)| == |items| * (TIME_BYTES + k)
  {
    if items != [] {
      assert |items| * (TIME_BYTES + k) == (|items| - 1) * (TIME_BYTES + k) + (TIME_BYTES + k);
      EncodedSize(items[..|items| - 1], k, begin);
    }
  }

  lemma {:induction false} EncodeAllFirst(items: seq<Item>, begin: u64)
    requires items != []
    ensures EncodeAll(items, begin) == Encode(items[0], begin) + EncodeAll(items[1..], begin)
  {
    var last := |items| - 1;
    if last > 0 {
      assert items[..last][1..] == items[1..][..last - 1];
      EncodeAllFirst(items[..last], begin);
    } else {
      assert items[..0] == [] && items[1..] == [];
    }
  }

  predicate LiesAt(bytes: seq<byte>, at: nat, piece: seq<byte>) {
    at + |piece| <= |bytes| && bytes[at..at + |piece|] == piece
  }

  /** Every item lies behind those written before it. */
  lemma {:induction false} ItemFollows(items: seq<Item>, begin: u64, i: nat)
    requires i < |items|
    ensures LiesAt(EncodeAll(items, begin), |EncodeAll(items[..i], begin)|, Encode(items[i], begin))
  {
    var last := |items| - 1;
    if i < last {
      assert items[..last][..i] == items[..i];
      ItemFollows(items[..last], begin, i);
      LiesBefore(EncodeAll(items[..last], begin), Encode(items[last], begin),
                 |EncodeAll(items[..i], begin)|, Encode(items[i], begin));
    }
  }

  lemma LiesBefore(bytes: seq<byte>, more: seq<byte>, at: nat, piece: seq<byte>)
    requires LiesAt(bytes, at, piece)
    ensures LiesAt(bytes + more, at, piece)
  {
  }

  lemma {:induction false} DecodesWhatWasWritten(items: seq<Item>, k: nat, begin: u64)
    requires ItemSize(items, k)
    ensures var read := DecodeAll(EncodeAll(items, begin), k, begin);
            && |read| == |items|
            && forall i :: 0 <= i < |items| ==> read[i] == (TimeRead(items[i].time, begin), items[i].data)
  {
    if items != [] {
      var item, bytes := items[0], EncodeAll(items, begin);
      EncodeAllFirst(items, begin);
      DecodesWhatWasWritten(items[1..], k, begin);
      OffsetReadBack(item.time, begin);
      assert item in items;
      assert bytes[..TIME_BYTES] == LittleEndian(RelativeTime(item.time, begin), TIME_BYTES);
      assert bytes[TIME_BYTES..TIME_BYTES + k] == item.data;
      assert bytes[TIME_BYTES + k..] == EncodeAll(items[1..], begin);
    }
  }

  /** The greatest of the written times and the one the stream had before. */
  lemma {:induction false} MaxTimeIsMax(items: seq<Item>, least: u64)
    ensures forall item :: item in items ==> item.time <= MaxTime(items, least)
    ensures least <= MaxTime(items, least)
    ensures MaxTime(items, least) == least || exists item :: item in items && item.time == MaxTime(items, least)
  {
    if items != [] {
      var last := |items| - 1;
      assert items == items[..last] + [items[last]];
      MaxTimeIsMax(items[..last], least);
      if MaxTime(items, least) == items[last].time { assert items[last] in items; }
    }
  }

  // ---------------------------------------------------------------- the writers

  /** stream_write_u64_le and stream_write_u32_le: the low count bytes of value, lowest first. */
  method WriteLittleEndian(bytes: array<byte>, at: nat, value: nat, count: nat)
    requires at + count <= bytes.Length
    modifies bytes
    ensures bytes[..] == old(bytes[..at]) + LittleEndian(value, count) + old(bytes[at + count..])
  {
    ghost var all := LittleEndian(value, count);
    var v := value;
    for i := 0 to count
      invariant LittleEndian(v, count - i) == all[i..]
      invariant forall p :: 0 <= p < bytes.Length ==>
                  bytes[p] == if at <= p < at + i then all[p - at] else old(bytes[p])
    {
      assert LittleEndian(v, count - i)[0] == v % 256 == all[i];
      assert LittleEndian(v, count - i)[1..] == LittleEndian(v / 256, count - i - 1) == all[i + 1..];
      bytes[at + i] := v % 256;
      v := v / 256;
    }
  }

  /** stream_write_u16_le */
  method WriteTwoBytes(bytes: array<byte>, at: nat, value: nat)
    requires at + 2 <= bytes.Length && value < 0x1_0000
    modifies bytes
    ensures bytes[..] == old(bytes[..at]) + LittleEndian(value, 2) + old(bytes[at + 2..])
  {
    bytes[at], bytes[at + 1] := value % 256, value / 256 % 256;
    assert LittleEndian(value, 2) == [value % 256, value / 256 % 256] by {
      assert LittleEndian(value / 256, 1) == [value / 256 % 256] + LittleEndian(value / 256 / 256, 0);
    }
  }

  /** A piece written behind another is as good as both written at once. */
  lemma WrittenBehind(was: seq<byte>, mid: seq<byte>, now: seq<byte>, at: nat, a: seq<byte>, b: seq<byte>)
    requires at + |a| + |b| <= |was| && mid == was[..at] + a + was[at + |a|..]
    requires now == mid[..at + |a|] + b + mid[at + |a| + |b|..]
    ensures now == was[..at] + (a + b) + was[at + |a| + |b|..]
  {
  }

  method CopyBytes(bytes: array<byte>, at: nat, data: seq<byte>)
    requires at + |data| <= bytes.Length
    modifies bytes
    ensures bytes[..] == old(bytes[..at]) + data + old(bytes[at + |data|..])
  {
    for i := 0 to |data|
      invariant forall p :: 0 <= p < bytes.Length ==>
                  bytes[p] == if at <= p < at + i then data[p - at] else old(bytes[p])
    {
      bytes[at + i] := data[i];
    }
  }

  /** A mapped stream: its header fields and the bytes of the file. */
  class Stream {
    const bytes: array<byte>
    const timeBegin: u64
    var itemCount: nat
    var timeEnd: u64
    var writeCursor: nat
    ghost const start: nat
    ghost const leastEnd: u64
    ghost var items: seq<Item>

    ghost predicate Valid()
      reads this, bytes
    {
      && HEADER_SIZE <= start <= writeCursor <= bytes.Length
      && bytes[start..writeCursor] == EncodeAll(items, timeBegin)
      && itemCount == |items|
      && timeEnd == MaxTime(items, leastEnd)
    }

    /** A stream without items whose header names the place of the first. */
    constructor (bytes: array<byte>, cursor: nat, timeBegin: u64, timeEnd: u64)
      requires HEADER_SIZE <= cursor <= bytes.Length
      ensures Valid() && this.bytes == bytes && this.timeBegin == timeBegin && items == []
      ensures start == writeCursor == cursor && leastEnd == timeEnd
    {
      this.bytes := bytes;
      this.timeBegin := timeBegin;
      this.timeEnd := timeEnd;
      itemCount, writeCursor, start, leastEnd, items := 0, cursor, cursor, timeEnd, [];
    }

    /** Whether an item with size bytes of data fits behind the cursor. */
    predicate Fits(size: nat)
      reads this
    {
      writeCursor + TIME_BYTES + size <= bytes.Length
    }

    /** The test of stream_write_data, whose sum has 32 bits. */
    predicate Accepts(size: nat)
      reads this
    {
      writeCursor + (TIME_BYTES + size) % WORD <= bytes.Length
    }

    /**
     The test lets through only what fits, whatever the size, if and only if there is room for the greatest size
     of 32 bits: without it, one of the sizes whose sum wraps is accepted.
     */
    lemma AcceptsExactly()
      requires writeCursor <= bytes.Length
      ensures (forall size :: 0 <= size < WORD && Accepts(size) ==> Fits(size))
              <==> TIME_BYTES + WORD - 1 <= bytes.Length - writeCursor
    {
      assert Accepts(WORD - TIME_BYTES);
      if Fits(WORD - TIME_BYTES) { assert Accepts(WORD - 1); }
    }

    /** While the sum does not wrap the test is right: just what fits is accepted. */
    lemma OrdinaryAccepted(size: nat)
      requires size < WORD && writeCursor <= bytes.Length
      ensures TIME_BYTES + size < WORD ==> (Accepts(size) <==> Fits(size))
      ensures TIME_BYTES + size >= WORD ==>
                (Accepts(size) <==> writeCursor + TIME_BYTES + size - WORD <= bytes.Length)
    {
    }

    /** From the state was, the item was appended, and no byte outside its place changed. */
    ghost predicate Appended(was: seq<byte>, cursor: nat, before: seq<Item>, item: Item)
      reads this, bytes
    {
      && items == before + [item]
      && writeCursor == cursor + TIME_BYTES + |item.data| <= |was| == bytes.Length
      && bytes[..] == was[..cursor] + Encode(item, timeBegin) + was[writeCursor..]
    }

    /** From the state was, the item's bytes were stored behind cursor, and no others changed. */
    ghost predicate Stored(was: seq<byte>, cursor: nat, item: Item)
      reads this, bytes
    {
      && cursor + TIME_BYTES + |item.data| <= |was| == bytes.Length
      && bytes[..] == was[..cursor] + Encode(item, timeBegin) + was[cursor + TIME_BYTES + |item.data|..]
    }

    method WriteTime(time: u64)
      requires Fits(0)
      modifies bytes
      ensures bytes[..] == old(bytes[..writeCursor]) + LittleEndian(RelativeTime(time, timeBegin), TIME_BYTES)
                           + old(bytes[writeCursor + TIME_BYTES..])
    {
      WriteLittleEndian(bytes, writeCursor, RelativeTime(time, timeBegin), TIME_BYTES);
    }

    lemma Joined(time: u64, data: seq<byte>, was: seq<byte>, mid: seq<byte>)
      requires Fits(|data|) && |was| == |mid| == bytes.Length
      requires mid == was[..writeCursor] + LittleEndian(RelativeTime(time, timeBegin), TIME_BYTES)
                      + was[writeCursor + TIME_BYTES..]
      requires bytes[..] == mid[..writeCursor + TIME_BYTES] + data + mid[writeCursor + TIME_BYTES + |data|..]
      ensures Stored(was, writeCursor, Item(time, data))
    {
      WrittenBehind(was, mid, bytes[..], writeCursor, LittleEndian(RelativeTime(time, timeBegin), TIME_BYTES), data);
    }

    /** How far an item of that size moves the cursor: the sum has 32 bits here as well. */
    function Moved(size: nat): nat { (TIME_BYTES + size) % WORD }

    /** With an item's bytes in place, the file holds the longer list of items. */
    lemma LongerLog(item: Item, was: seq<byte>)
      requires Stored(was, writeCursor, item) && start <= writeCursor
      requires was[start..writeCursor] == EncodeAll(items, timeBegin)
      ensures bytes[start..writeCursor + TIME_BYTES + |item.data|] == EncodeAll(items + [item], timeBegin)
      ensures MaxTime(items + [item], leastEnd)
           == if item.time > MaxTime(items, leastEnd) then item.time else MaxTime(items, leastEnd)
    {
      var end := writeCursor + TIME_BYTES + |item.data|;
      assert (items + [item])[..|items|] == items;
      assert bytes[start..end] == bytes[..][start..end];
      assert bytes[..][start..end] == was[start..writeCursor] + Encode(item, timeBegin);
    }

    /** With an item's bytes in place, moves the cursor and updates the header. */
    method Advance(time: u64, ghost data: seq<byte>, size: nat, ghost was: seq<byte>)
      requires Fits(size) && |data| == size < WORD && Stored(was, writeCursor, Item(time, data))
      requires HEADER_SIZE <= start <= writeCursor && was[start..writeCursor] == EncodeAll(items, timeBegin)
      requires itemCount == |items| && timeEnd == MaxTime(items, leastEnd)
      modifies this
      ensures items == old(items) + [Item(time, data)] && itemCount == |items| && timeEnd == MaxTime(items, leastEnd)
      ensures writeCursor == old(writeCursor) + Moved(size)
      ensures Valid() <==> TIME_BYTES + size < WORD
      ensures TIME_BYTES + size < WORD ==> Appended(was, old(writeCursor), old(items), Item(time, data))
    {
      ghost var item, cursor := Item(time, data), writeCursor;
      LongerLog(item, was);
      items := items + [item];
      writeCursor := writeCursor + (TIME_BYTES + size) % WORD;
      itemCount := itemCount + 1;
      timeEnd := if time > timeEnd then time else timeEnd;
      CursorRight(cursor, size);
    }

    /** The cursor is where the item ends only if the sum has not wrapped. */
    lemma CursorRight(cursor: nat, size: nat)
      requires size < WORD && HEADER_SIZE <= start <= cursor && cursor + TIME_BYTES + size <= bytes.Length
      requires itemCount == |items| && timeEnd == MaxTime(items, leastEnd)
      requires bytes[start..cursor + TIME_BYTES + size] == EncodeAll(items, timeBegin)
      requires writeCursor == cursor + Moved(size)
      ensures Valid() <==> TIME_BYTES + size < WORD
    {
      assert |EncodeAll(items, timeBegin)| == cursor + TIME_BYTES + size - start;
    }

    /**
     stream_write_data: the one writer that looks whether there is room. An item that is accepted is appended if
     and only if the 32-bit sum of its size has not wrapped.
     */
    method WriteData(time: u64, data: seq<byte>) returns (ok: bool)
      requires Valid() && |data| < WORD && (Accepts(|data|) ==> Fits(|data|))
      modifies this, bytes
      ensures TIME_BYTES + |data| < WORD ==> (ok <==> old(Fits(|data|)))
      ensures ok == old(Accepts(|data|))
      ensures !ok ==> Valid() && unchanged(this) && unchanged(bytes)
      ensures ok ==> Stored(old(bytes[..]), old(writeCursor), Item(time, data)) && itemCount == old(itemCount) + 1
                     && items == old(items) + [Item(time, data)] && writeCursor == old(writeCursor) + Moved(|data|)
      ensures ok ==> (Valid() <==> TIME_BYTES + |data| < WORD)
      ensures ok && TIME_BYTES + |data| < WORD ==>
                Appended(old(bytes[..]), old(writeCursor), old(items), Item(time, data))
    {
      OrdinaryAccepted(|data|);
      ok := Accepts(|data|);
      if ok { StoreItem(time, data); }
    }

    /** The writing part, for an item there is room for. */
    method StoreItem(time: u64, data: seq<byte>)
      requires Valid() && |data| < WORD && Fits(|data|)
      modifies this, bytes
      ensures Stored(old(bytes[..]), old(writeCursor), Item(time, data)) && itemCount == old(itemCount) + 1
      ensures items == old(items) + [Item(time, data)] && writeCursor == old(writeCursor) + Moved(|data|)
      ensures Valid() <==> TIME_BYTES + |data| < WORD
      ensures TIME_BYTES + |data| < WORD ==>
                Appended(old(bytes[..]), old(writeCursor), old(items), Item(time, data))
    {
      ghost var was := bytes[..];
      WriteTime(time);
      ghost var mid := bytes[..];
      CopyBytes(bytes, writeCursor + TIME_BYTES, data);
      Joined(time, data, was, mid);
      Advance(time, data, |data|, was);
    }

    /** An item of 2^32 - 5 bytes is accepted in every file, and does not move the cursor. */
    lemma GreatItemLost()
      requires writeCursor <= bytes.Length
      ensures Accepts(WORD - TIME_BYTES) && Moved(WORD - TIME_BYTES) == 0
      ensures Fits(WORD - TIME_BYTES) <==> WORD <= bytes.Length - writeCursor
    {
    }

    method WriteU8(time: u64, value: byte)
      requires Valid() && Fits(1)
      modifies this, bytes
      ensures Valid() && Appended(old(bytes[..]), old(writeCursor), old(items), Item(time, [value]))
    {
      ghost var was := bytes[..];
      WriteTime(time);
      ghost var mid := bytes[..];
      bytes[writeCursor + TIME_BYTES] := value;
      Joined(time, [value], was, mid);
      Advance(time, [value], 1, was);
    }

    method WriteU16(time: u64, value: nat)
      requires Valid() && Fits(2) && value < 0x1_0000
      modifies this, bytes
      ensures Valid()
      ensures Appended(old(bytes[..]), old(writeCursor), old(items), Item(time, LittleEndian(value, 2)))
    {
      ghost var was := bytes[..];
      WriteTime(time);
      ghost var mid := bytes[..];
      WriteTwoBytes(bytes, writeCursor + TIME_BYTES, value);
      Joined(time, LittleEndian(value, 2), was, mid);
      Advance(time, LittleEndian(value, 2), 2, was);
    }

    /** stream_write_u32; stream_write_f32 does the same with the bits of its value. */
    method WriteU32(time: u64, value: nat)
      requires Valid() && Fits(4) && value < 0x1_0000_0000
      modifies this, bytes
      ensures Valid()
      ensures Appended(old(bytes[..]), old(writeCursor), old(items), Item(time, LittleEndian(value, 4)))
    {
      ghost var was := bytes[..];
      WriteTime(time);
      ghost var mid := bytes[..];
      WriteLittleEndian(bytes, writeCursor + TIME_BYTES, value, 4);
      Joined(time, LittleEndian(value, 4), was, mid);
      Advance(time, LittleEndian(value, 4), 4, was);
    }
  }

  /**
   Whatever was written to a stream of k-byte items is what its bytes decode to, except that a time is
   told modulo TIME_RANGE; so the items come back unchanged just when every time is within range.
   */
  lemma StreamReadsBack(s: Stream, k: nat)
    requires s.Valid() && ItemSize(s.items, k)
    ensures s.writeCursor == s.start + s.itemCount * (TIME_BYTES + k)
    ensures var read := DecodeAll(s.bytes[s.start..s.writeCursor], k, s.timeBegin);
            && |read| == s.itemCount
            && (forall i :: 0 <= i < |read| ==>
                  read[i] == (TimeRead(s.items[i].time, s.timeBegin), s.items[i].data))
            && ((forall i :: 0 <= i < |read| ==> read[i] == (s.items[i].time as nat, s.items[i].data))
                <==> (forall i :: 0 <= i < |read| ==> InRange(s.items[i].time, s.timeBegin)))
  {
    EncodedSize(s.items, k, s.timeBegin);
    DecodesWhatWasWritten(s.items, k, s.timeBegin);
    forall i | 0 <= i < s.itemCount
      ensures TimeRead(s.items[i].time, s.timeBegin) == s.items[i].time <==> InRange(s.items[i].time, s.timeBegin)
    {
      TimeReadExactly(s.items[i].time, s.timeBegin);
    }
  }

  /** Where item i is in the file. */
  lemma StreamItemPlace(s: Stream, k: nat, i: nat)
    requires s.Valid() && ItemSize(s.items, k) && i < s.itemCount
    ensures LiesAt(s.bytes[..s.writeCursor], s.start + i * (TIME_BYTES + k), Encode(s.items[i], s.timeBegin))
  {
    ItemFollows(s.items, s.timeBegin, i);
    EncodedSize(s.items[..i], k, s.timeBegin);
    LiesFurther(s.bytes[..s.writeCursor], s.start, i * (TIME_BYTES + k), Encode(s.items[i], s.timeBegin));
  }

  lemma LiesFurther(bytes: seq<byte>, start: nat, at: nat, piece: seq<byte>)
    requires start <= |bytes| && LiesAt(bytes[start..], at, piece)
    ensures LiesAt(bytes, start + at, piece)
  {
  }

  /** The payloads of the typed writers read back as the values written. */
  lemma ValuesReadBack(value: nat)
    ensures value < 0x1_0000 ==> FromLittleEndian(LittleEndian(value, 2)) == value
    ensures value < 0x1_0000_0000 ==> FromLittleEndian(LittleEndian(value, 4)) == value
  {
    var _ := TwoBytes(value);
    var _ := FourBytes(value);
  }
}
