/** The reassembly of an image from blocks in imagepacket.cpp. */
module ImageAssembly {
  import opened Basics
  import opened Counting

  datatype Block = Block(offset: nat, data: seq<byte>)

  predicate Fits(b: Block, size: nat) { b.offset + |b.data| <= size }

  predicate AllFit(bs: seq<Block>, size: nat) { forall b :: b in bs ==> Fits(b, size) }

  /** memcpy of a block to its place. */
  function Written(buffer: seq<byte>, b: Block): (r: seq<byte>)
    requires Fits(b, |buffer|)
    ensures |r| == |buffer|
  {
    buffer[..b.offset] + b.data + buffer[b.offset + |b.data|..]
  }

  function Assembled(before: seq<byte>, arrived: seq<Block>): (r: seq<byte>)
    requires AllFit(arrived, |before|)
    ensures |r| == |before|
  {
    if arrived == [] then before
    else
      assert arrived[|arrived| - 1] in arrived;
      Written(Assembled(before, arrived[..|arrived| - 1]), arrived[|arrived| - 1])
  }

  predicate Holds(b: Block, p: nat) { b.offset <= p < b.offset + |b.data| }

  predicate Covered(bs: seq<Block>, p: nat) { exists i :: 0 <= i < |bs| && Holds(bs[i], p) }

  predicate Covers(bs: seq<Block>, size: nat) { forall p :: 0 <= p < size ==> Covered(bs, p) }

  /** The block is a part of the image. */
  predicate PartOf(b: Block, image: seq<byte>) {
    Fits(b, |image|) && image[b.offset..b.offset + |b.data|] == b.data
  }

  predicate PartsOf(bs: seq<Block>, image: seq<byte>) { forall b :: b in bs ==> PartOf(b, image) }

  /** The blocks make up the image, each byte in one of them, none of them empty. */
  ghost predicate Tiles(bs: seq<Block>, image: seq<byte>) {
    && PartsOf(bs, image) && Covers(bs, |image|)
    && (forall i :: 0 <= i < |bs| ==> bs[i].data != [])
    && forall i, j :: 0 <= i < j < |bs| ==> Disjoint(bs[i], bs[j])
  }

  predicate Disjoint(b: Block, c: Block) {
    b.offset + |b.data| <= c.offset || c.offset + |c.data| <= b.offset
  }

  // ---------------------------------------------------------------- any order of arrival

  /**
   Whatever parts of an image have arrived, in whatever order and however often: a byte that one of them
   holds is the image's, and every other is as it was.
   */
  lemma {:induction false} ArrivedBytesRight(before: seq<byte>, arrived: seq<Block>, image: seq<byte>, p: nat)
    requires |before| == |image| && PartsOf(arrived, image) && p < |image|
    ensures AllFit(arrived, |before|)
    ensures Assembled(before, arrived)[p] == if Covered(arrived, p) then image[p] else before[p]
  {
    assert AllFit(arrived, |before|) by { assert forall b :: b in arrived ==> PartOf(b, image); }
    if arrived != [] {
      var last, earlier := arrived[|arrived| - 1], arrived[..|arrived| - 1];
      ArrivedBytesRight(before, earlier, image, p);
      assert last in arrived && PartOf(last, image);
      if Holds(last, p) {
        assert image[p] == image[last.offset..last.offset + |last.data|][p - last.offset];
        assert Covered(arrived, p);
      } else {
        CoveredEarlier(arrived, p);
      }
    }
  }

  lemma CoveredEarlier(bs: seq<Block>, p: nat)
    requires bs != [] && !Holds(bs[|bs| - 1], p)
    ensures Covered(bs, p) <==> Covered(bs[..|bs| - 1], p)
  {
    if Covered(bs, p) {
      var i :| 0 <= i < |bs| && Holds(bs[i], p);
      assert Holds(bs[..|bs| - 1][i], p);
    }
    if Covered(bs[..|bs| - 1], p) {
      var i :| 0 <= i < |bs| - 1 && Holds(bs[..|bs| - 1][i], p);
      assert Holds(bs[i], p);
    }
  }

  lemma PartsFit(bs: seq<Block>, image: seq<byte>)
    requires PartsOf(bs, image)
    ensures AllFit(bs, |image|)
  {
    assert forall b :: b in bs ==> PartOf(b, image);
  }

  lemma CoveredIsImage(before: seq<byte>, arrived: seq<Block>, image: seq<byte>)
    requires |before| == |image| && PartsOf(arrived, image) && Covers(arrived, |image|)
    ensures AllFit(arrived, |before|) && Assembled(before, arrived) == image
  {
    PartsFit(arrived, image);
    forall p | 0 <= p < |image| ensures Assembled(before, arrived)[p] == image[p] {
      ArrivedBytesRight(before, arrived, image, p);
    }
  }

  lemma UncoveredShows(arrived: seq<Block>, image: seq<byte>) returns (before: seq<byte>)
    requires PartsOf(arrived, image) && !Covers(arrived, |image|)
    ensures |before| == |image| && AllFit(arrived, |before|) && Assembled(before, arrived) != image
  {
    PartsFit(arrived, image);
    var p :| 0 <= p < |image| && !Covered(arrived, p);
    before := image[p := if image[p] == 0 then 1 else 0];
    ArrivedBytesRight(before, arrived, image, p);
  }

  /** Whatever the buffer held before, the image is there if and only if the arrived parts cover it. */
  lemma ImageWhenCovered(arrived: seq<Block>, image: seq<byte>)
    requires PartsOf(arrived, image) && AllFit(arrived, |image|)
    ensures (forall before: seq<byte> :: |before| == |image| ==> Assembled(before, arrived) == image)
            <==> Covers(arrived, |image|)
  {
    if Covers(arrived, |image|) {
      forall before: seq<byte> | |before| == |image| ensures Assembled(before, arrived) == image {
        CoveredIsImage(before, arrived, image);
      }
    } else {
      var before := UncoveredShows(arrived, image);
    }
  }

  /** As the blocks of a tiling come in, the image is covered with the last of them, and not before. */
  lemma CoveredWithTheLast(tiles: seq<Block>, image: seq<byte>, k: nat)
    requires Tiles(tiles, image) && k <= |tiles|
    ensures Covers(tiles[..k], |image|) <==> k == |tiles|
  {
    assert tiles[..|tiles|] == tiles;
    if k < |tiles| {
      var p := tiles[k].offset;
      assert tiles[k] in tiles && PartOf(tiles[k], image);
      forall i | 0 <= i < k ensures !Holds(tiles[..k][i], p) { assert Disjoint(tiles[i], tiles[k]); }
      assert !Covered(tiles[..k], p);
    }
  }

  /** The same blocks, each as often. */
  ghost predicate SameBlocks(bs: seq<Block>, cs: seq<Block>) {
    |bs| == |cs| && forall b :: Times(bs, b) == Times(cs, b)
  }

  lemma {:induction false} TimesAt(bs: seq<Block>, i: nat)
    requires i < |bs|
    ensures Times(bs, bs[i]) >= 1 && Times(bs, bs[i]) >= Times(bs[..i], bs[i]) + 1
  {
    assert bs == bs[..i] + ([bs[i]] + bs[i + 1..]);
    CountConcat(bs[..i], [bs[i]] + bs[i + 1..], Is(bs[i]));
  }

  lemma TwoPlaces(bs: seq<Block>, b: Block) returns (i: nat, j: nat)
    requires Times(bs, b) >= 2
    ensures i < j < |bs| && bs[i] == b && bs[j] == b
  {
    if bs[0] == b {
      CountPositive(bs[1..], Is(b));
      var k :| 0 <= k < |bs[1..]| && Is(b)(bs[1..][k]);
      i, j := 0, k + 1;
    } else {
      i, j := TwoPlaces(bs[1..], b);
      i, j := i + 1, j + 1;
    }
  }

  /** A tiling stays one in every other order. */
  lemma TilesInAnyOrder(tiles: seq<Block>, arrived: seq<Block>, image: seq<byte>)
    requires Tiles(tiles, image) && SameBlocks(tiles, arrived)
    ensures Tiles(arrived, image)
  {
    forall b ensures b in tiles <==> b in arrived {
      InTimes(tiles, b);
      InTimes(arrived, b);
    }
    assert forall i :: 0 <= i < |arrived| ==> arrived[i] in arrived;
    assert forall i :: 0 <= i < |tiles| ==> tiles[i] in tiles;
    forall p | 0 <= p < |image| ensures Covered(arrived, p) {
      assert Covered(tiles, p);
      var i :| 0 <= i < |tiles| && Holds(tiles[i], p);
      var j :| 0 <= j < |arrived| && arrived[j] == tiles[i];
      assert Holds(arrived[j], p);
    }
    forall i | 0 <= i < |arrived| ensures arrived[i].data != [] {
      var m :| 0 <= m < |tiles| && tiles[m] == arrived[i];
    }
    forall i, j | 0 <= i < j < |arrived| ensures Disjoint(arrived[i], arrived[j]) {
      ArrivedApart(tiles, arrived, image, i, j);
    }
  }

  lemma InTimes(bs: seq<Block>, b: Block)
    ensures b in bs <==> Times(bs, b) > 0
  {
    CountPositive(bs, Is(b));
  }

  lemma ArrivedApart(tiles: seq<Block>, arrived: seq<Block>, image: seq<byte>, i: nat, j: nat)
    requires Tiles(tiles, image) && SameBlocks(tiles, arrived) && i < j < |arrived|
    ensures Disjoint(arrived[i], arrived[j])
  {
    var b, c := arrived[i], arrived[j];
    if b == c {
      TimesAt(arrived, j);
      InTimes(arrived[..j], c);
      assert arrived[..j][i] == c;
      var m, n := TwoPlaces(tiles, c);
      assert Disjoint(tiles[m], tiles[n]);
    } else {
      InTimes(tiles, b);
      InTimes(tiles, c);
      InTimes(arrived, b);
      InTimes(arrived, c);
      var m :| 0 <= m < |tiles| && tiles[m] == b;
      var n :| 0 <= n < |tiles| && tiles[n] == c;
      assert Disjoint(tiles[if m < n then m else n], tiles[if m < n then n else m]);
    }
  }

  // ---------------------------------------------------------------- blocks that arrive twice

  predicate Distinct(bs: seq<Block>) { forall i, j :: 0 <= i < j < |bs| ==> bs[i] != bs[j] }

  function Set(bs: seq<Block>): set<Block> { set b | b in bs }

  lemma {:induction false} SetSize(bs: seq<Block>)
    ensures |Set(bs)| <= |bs| && (|Set(bs)| == |bs| <==> Distinct(bs))
  {
    if bs != [] {
      var last, before := bs[|bs| - 1], bs[..|bs| - 1];
      SetSize(before);
      assert bs == before + [last];
      assert Set(bs) == Set(before) + {last};
      if last in before {
        assert Set(bs) == Set(before);
        var i :| 0 <= i < |before| && before[i] == last;
        assert bs[i] == bs[|bs| - 1];
      }
    }
  }

  /**
   The count says that the image is complete once as many blocks have arrived as it has. When blocks may
   arrive more than once, that is so if and only if none of those has.
   */
  lemma CompleteMeansNoRepeats(tiles: seq<Block>, arrived: seq<Block>, image: seq<byte>)
    requires Tiles(tiles, image) && |arrived| == |tiles| && forall b :: b in arrived ==> b in tiles
    ensures Covers(arrived, |image|) <==> Distinct(arrived)
  {
    TilesDistinct(tiles, image);
    SetSize(tiles);
    SetSize(arrived);
    if Distinct(arrived) {
      assert Set(arrived) <= Set(tiles);
      SubsetOfSameSize(Set(arrived), Set(tiles));
      forall p | 0 <= p < |image| ensures Covered(arrived, p) {
        assert Covered(tiles, p);
        var i :| 0 <= i < |tiles| && Holds(tiles[i], p);
        assert tiles[i] in Set(tiles);
        var j :| 0 <= j < |arrived| && arrived[j] == tiles[i];
        assert Holds(arrived[j], p);
      }
    }
    if Covers(arrived, |image|) {
      forall b | b in tiles ensures b in arrived { TileArrived(tiles, arrived, image, b); }
      assert Set(arrived) == Set(tiles);
    }
  }

  /** An image of two blocks of which the first comes twice: the count is reached, and the second is missing. */
  lemma RepeatedTile(x: byte, y: byte)
    ensures var tiles, arrived := [Block(0, [x]), Block(1, [y])], [Block(0, [x]), Block(0, [x])];
            Tiles(tiles, [x, y]) && |arrived| == |tiles| && !Covers(arrived, 2)
  {
    var tiles, arrived := [Block(0, [x]), Block(1, [y])], [Block(0, [x]), Block(0, [x])];
    assert Holds(tiles[0], 0) && Holds(tiles[1], 1);
    assert !Covered(arrived, 1);
  }

  lemma SubsetOfSameSize(a: set<Block>, b: set<Block>)
    requires a <= b && |a| == |b|
    ensures a == b
  {
    assert |b| == |a| + |b - a|;
    assert b == a + (b - a);
  }

  lemma TilesDistinct(tiles: seq<Block>, image: seq<byte>)
    requires Tiles(tiles, image)
    ensures Distinct(tiles)
  {
    forall i, j | 0 <= i < j < |tiles| ensures tiles[i] != tiles[j] { assert Disjoint(tiles[i], tiles[j]); }
  }

  lemma TileArrived(tiles: seq<Block>, arrived: seq<Block>, image: seq<byte>, b: Block)
    requires Tiles(tiles, image) && b in tiles && Covers(arrived, |image|)
    requires forall c :: c in arrived ==> c in tiles
    ensures b in arrived
  {
    assert PartOf(b, image);
    var m :| 0 <= m < |tiles| && tiles[m] == b;
    assert Covered(arrived, b.offset);
    var j :| 0 <= j < |arrived| && Holds(arrived[j], b.offset);
    assert arrived[j] in tiles;
    var n :| 0 <= n < |tiles| && tiles[n] == arrived[j];
    forall i, j | 0 <= i < j < |tiles| && (Holds(tiles[i], b.offset) || Holds(tiles[j], b.offset))
      ensures !(Holds(tiles[i], b.offset) && Holds(tiles[j], b.offset))
    {
      assert Disjoint(tiles[i], tiles[j]);
    }
  }

  // ---------------------------------------------------------------- the image object

  class Image {
    const buffer: array<byte>
    const totalBlocks: nat
    var receivedBlocks: nat
    ghost var arrived: seq<Block>
    ghost const before: seq<byte>

    ghost predicate Valid()
      reads this, buffer
    {
      && |before| == buffer.Length && AllFit(arrived, |before|)
      && buffer[..] == Assembled(before, arrived)
      && receivedBlocks == |arrived|
    }

    /** An image in newly allocated memory, with the sizes of the first packet's header. */
    constructor (buffer: array<byte>, totalBlocks: nat)
      ensures Valid() && this.buffer == buffer && this.totalBlocks == totalBlocks && arrived == []
    {
      this.buffer, this.totalBlocks, receivedBlocks, arrived, before := buffer, totalBlocks, 0, [], buffer[..];
    }

    method CopyBlock(b: Block)
      requires Fits(b, buffer.Length)
      modifies buffer
      ensures buffer[..] == Written(old(buffer[..]), b)
    {
      for i := 0 to |b.data|
        invariant forall p :: 0 <= p < buffer.Length ==>
                    buffer[p] == if b.offset <= p < b.offset + i then b.data[p - b.offset] else old(buffer[p])
      {
        buffer[b.offset + i] := b.data[i];
      }
    }

    /** The tail of decoder_write_to_stream: copies the block and tells whether all blocks are there. */
    method Receive(b: Block) returns (complete: bool)
      requires Valid() && Fits(b, buffer.Length)
      modifies this, buffer
      ensures Valid() && arrived == old(arrived) + [b]
      ensures complete == (|arrived| == totalBlocks)
    {
      CopyBlock(b);
      arrived := arrived + [b];
      assert arrived[..|arrived| - 1] == old(arrived);
      receivedBlocks := receivedBlocks + 1;
      complete := receivedBlocks == totalBlocks;
    }
  }

  /**
   While the blocks of a tiling come in, in any order: complete is told exactly when the buffer is covered,
   the buffer then is the image, and until then every byte that has arrived is right.
   */
  lemma ImageProgress(img: Image, tiles: seq<Block>, order: seq<Block>, image: seq<byte>)
    requires img.Valid() && Tiles(tiles, image) && SameBlocks(tiles, order) && img.buffer.Length == |image|
    requires img.totalBlocks == |tiles| && |img.arrived| <= |order| && img.arrived == order[..|img.arrived|]
    ensures img.receivedBlocks == img.totalBlocks <==> Covers(img.arrived, |image|)
    ensures img.receivedBlocks == img.totalBlocks ==> img.buffer[..] == image
    ensures forall p :: 0 <= p < |image| && Covered(img.arrived, p) ==> img.buffer[p] == image[p]
  {
    TilesInAnyOrder(tiles, order, image);
    CoveredWithTheLast(order, image, |img.arrived|);
    assert PartsOf(img.arrived, image);
    forall p | 0 <= p < |image| && Covered(img.arrived, p) ensures img.buffer[p] == image[p] {
      ArrivedBytesRight(img.before, img.arrived, image, p);
      assert img.buffer[p] == img.buffer[..][p];
    }
  }
}
