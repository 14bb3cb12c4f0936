/** The two GOP rings, proved against one bounded list of lists. */
module GopCache {
  import opened Bytes
  import opened RtmpMsg

  type Chunk = seq<byte>
  type Gop = seq<Chunk>

  // ------------------------------------------------------- abstract cache

  /** One item offered to a ring: a key frame opens a GOP, anything else is
      appended to the last one. */
  datatype Item = Item(chunk: Chunk, key: bool)

  /** Room left for one more item after the key frame. */
  predicate HasRoom(len: nat, maxFrames: int) {
    len <= maxFrames || maxFrames == 0
  }

  function Feed(gops: seq<Gop>, gopNum: nat, maxFrames: int, item: Item): seq<Gop> {
    if gopNum == 0 then gops
    else if item.key then
      (if |gops| == gopNum then gops[1..] else gops) + [[item.chunk]]
    else if gops != [] && HasRoom(|gops[|gops| - 1]|, maxFrames) then
      gops[|gops| - 1 := gops[|gops| - 1] + [item.chunk]]
    else gops
  }

  function FeedAll(gopNum: nat, maxFrames: int, items: seq<Item>): seq<Gop> {
    if items == [] then []
    else Feed(FeedAll(gopNum, maxFrames, items[..|items| - 1]), gopNum, maxFrames, items[|items| - 1])
  }

  lemma FeedAllPush(gopNum: nat, maxFrames: int, items: seq<Item>, item: Item)
    ensures FeedAll(gopNum, maxFrames, items + [item]) == Feed(FeedAll(gopNum, maxFrames, items), gopNum, maxFrames, item)
  {
    assert (items + [item])[..|items|] == items;
  }

  // ------------------------------------------- what the cache should hold

  /** The items split at key frames; items before the first key frame are lost. */
  function Split(items: seq<Item>): seq<Gop> {
    if items == [] then [] else SplitOne(Split(items[..|items| - 1]), items[|items| - 1])
  }

  function SplitOne(gops: seq<Gop>, item: Item): seq<Gop> {
    if item.key then gops + [[item.chunk]]
    else if gops == [] then []
    else gops[|gops| - 1 := gops[|gops| - 1] + [item.chunk]]
  }

  /** A GOP cut to its limit: the key frame and at most maxFrames more. */
  function Cut(gop: Gop, maxFrames: int): Gop {
    var limit := if maxFrames < 0 then 1 else maxFrames + 1;
    if maxFrames == 0 || |gop| <= limit then gop else gop[..limit]
  }

  function CutAll(gops: seq<Gop>, maxFrames: int): (r: seq<Gop>)
    ensures |r| == |gops|
  {
    seq(|gops|, i requires 0 <= i < |gops| => Cut(gops[i], maxFrames))
  }

  function LastOf(gops: seq<Gop>, n: nat): seq<Gop> {
    if |gops| <= n then gops else gops[|gops| - n..]
  }

  /** Whatever is fed, the cache holds the last gopNum GOPs of the stream, each
      starting at its key frame and cut to its limit. */
  lemma {:induction false} HoldsLastGops(gopNum: nat, maxFrames: int, items: seq<Item>)
    ensures FeedAll(gopNum, maxFrames, items) == LastOf(CutAll(Split(items), maxFrames), gopNum)
  {
    if items != [] {
      var before := items[..|items| - 1];
      HoldsLastGops(gopNum, maxFrames, before);
      NoEmptyGop(before);
      FeedLast(gopNum, maxFrames, Split(before), items[|items| - 1]);
    }
  }

  /** One item, on a cache that holds the last GOPs of what came before. */
  lemma FeedLast(gopNum: nat, maxFrames: int, gops: seq<Gop>, item: Item)
    requires forall i :: 0 <= i < |gops| ==> gops[i] != []
    ensures Feed(LastOf(CutAll(gops, maxFrames), gopNum), gopNum, maxFrames, item)
         == LastOf(CutAll(SplitOne(gops, item), maxFrames), gopNum)
  {
    var cut := CutAll(gops, maxFrames);
    hide LastOf;
    if gopNum == 0 {
      LastOfNone(cut);
      LastOfNone(CutAll(SplitOne(gops, item), maxFrames));
    } else {
      if item.key {
        assert CutAll(gops + [[item.chunk]], maxFrames) == cut + [[item.chunk]];
        LastOfPush(cut, gopNum, [item.chunk]);
      } else if gops != [] {
        var last := |gops| - 1;
        hide Cut;
        CutGrows(gops[last], maxFrames, item.chunk);
        assert CutAll(gops[last := gops[last] + [item.chunk]], maxFrames)
            == cut[last := Cut(gops[last] + [item.chunk], maxFrames)];
        LastOfUpdate(cut, gopNum, Cut(gops[last] + [item.chunk], maxFrames));
        assert cut[last := cut[last]] == cut;
      } else {
        LastOfFew([], gopNum);
      }
    }
  }

  lemma LastOfNone(gops: seq<Gop>)
    ensures LastOf(gops, 0) == []
  {
  }

  lemma LastOfFew(gops: seq<Gop>, n: nat)
    requires |gops| <= n
    ensures LastOf(gops, n) == gops
  {
  }

  lemma LastOfPush(gops: seq<Gop>, n: nat, gop: Gop)
    requires n > 0
    ensures LastOf(gops + [gop], n)
         == (if |LastOf(gops, n)| == n then LastOf(gops, n)[1..] else LastOf(gops, n)) + [gop]
  {
  }

  lemma LastOfUpdate(gops: seq<Gop>, n: nat, gop: Gop)
    requires n > 0 && gops != []
    ensures LastOf(gops, n) != [] && LastOf(gops, n)[|LastOf(gops, n)| - 1] == gops[|gops| - 1]
    ensures LastOf(gops[|gops| - 1 := gop], n) == LastOf(gops, n)[|LastOf(gops, n)| - 1 := gop]
  {
  }

  /** Appending to a cut GOP while it has room is cutting the longer GOP. */
  lemma CutGrows(gop: Gop, maxFrames: int, chunk: Chunk)
    requires gop != []
    ensures Cut(gop + [chunk], maxFrames)
         == if HasRoom(|Cut(gop, maxFrames)|, maxFrames) then Cut(gop, maxFrames) + [chunk] else Cut(gop, maxFrames)
  {
    var limit := if maxFrames < 0 then 1 else maxFrames + 1;
    if maxFrames != 0 && |gop| >= limit {
      assert (gop + [chunk])[..limit] == gop[..limit];
    }
  }

  lemma {:induction false} NoEmptyGop(items: seq<Item>)
    ensures forall i :: 0 <= i < |Split(items)| ==> Split(items)[i] != []
  {
    if items != [] {
      NoEmptyGop(items[..|items| - 1]);
    }
  }

  /** Every stored GOP begins with a key frame that was fed. */
  lemma {:induction false} GopsStartAtKeys(gopNum: nat, maxFrames: int, items: seq<Item>)
    ensures var gops := FeedAll(gopNum, maxFrames, items);
            && |gops| <= gopNum
            && forall i :: 0 <= i < |gops| ==> && gops[i] != []
                                               && Item(gops[i][0], true) in items
                                               && (maxFrames > 0 ==> |gops[i]| <= maxFrames + 1)
  {
    if items != [] {
      GopsStartAtKeys(gopNum, maxFrames, items[..|items| - 1]);
      var gops := FeedAll(gopNum, maxFrames, items[..|items| - 1]);
      var last := items[|items| - 1];
      forall i | 0 <= i < |gops|
        ensures Item(gops[i][0], true) in items
      {
        assert Item(gops[i][0], true) in items[..|items| - 1];
      }
    }
  }

  // ------------------------------------------------------------- the ring

  /** A position at most one round too far, brought back into the ring. */
  function Wrap(x: nat, size: nat): nat
    requires x < 2 * size
  {
    if x < size then x else x - size
  }

  lemma ModIsWrap(x: nat, size: nat)
    requires x < 2 * size
    ensures x % size == Wrap(x, size)
  {
    if x >= size {
      assert x == size * 1 + (x - size);
      assert x / size == 1;
    }
  }

  /** Slot of the i-th GOP of a ring whose first GOP is at `first`. */
  function Slot(first: nat, i: nat, size: nat): nat
    requires first < size && i < size
  {
    Wrap(first + i, size)
  }

  /** The number of GOPs between two ring positions. */
  function Count(first: nat, last: nat, size: nat): (n: nat)
    requires first < size && last < size
    ensures n < size
  {
    Wrap(last + size - first, size)
  }

  /** The GOPs a ring stands for, oldest first. */
  function Listed(ring: seq<Gop>, first: nat, last: nat): (r: seq<Gop>)
    requires first < |ring| && last < |ring|
    ensures |r| == Count(first, last, |ring|)
  {
    seq(Count(first, last, |ring|),
        i requires 0 <= i < Count(first, last, |ring|) => ring[Slot(first, i, |ring|)])
  }

  /** Moving the start of a nonempty ring drops its oldest GOP. */
  lemma ListedDrop(ring: seq<Gop>, first: nat, last: nat)
    requires first < |ring| && last < |ring| && first != last
    ensures Listed(ring, Wrap(first + 1, |ring|), last) == Listed(ring, first, last)[1..]
  {
  }

  /** Writing the free slot and moving the end appends a GOP. */
  lemma ListedPush(ring: seq<Gop>, first: nat, last: nat, gop: Gop)
    requires first < |ring| && last < |ring| && Wrap(last + 1, |ring|) != first
    ensures Listed(ring[last := gop], first, Wrap(last + 1, |ring|)) == Listed(ring, first, last) + [gop]
  {
    var n := Count(first, last, |ring|);
    assert Count(first, Wrap(last + 1, |ring|), |ring|) == n + 1;
    assert Slot(first, n, |ring|) == last;
    forall i | 0 <= i < n
      ensures Slot(first, i, |ring|) != last
    {
    }
  }

  /** Writing the slot before the end replaces the newest GOP. */
  lemma ListedUpdate(ring: seq<Gop>, first: nat, last: nat, gop: Gop)
    requires first < |ring| && last < |ring| && first != last
    ensures var at := Wrap(last - 1 + |ring|, |ring|);
            var n := |Listed(ring, first, last)|;
            && Listed(ring, first, last)[n - 1] == ring[at]
            && Listed(ring[at := gop], first, last) == Listed(ring, first, last)[n - 1 := gop]
  {
    var n := Count(first, last, |ring|);
    assert Slot(first, n - 1, |ring|) == Wrap(last - 1 + |ring|, |ring|);
  }

  /** The fields the two Go rings have in common, and the list they stand for. */
  class Ring {
    const gopSize: nat
    const singleGopMaxFrameNum: int
    const gopRing: array<Gop>
    var gopRingFirst: nat
    var gopRingLast: nat
    ghost var items: seq<Item>

    ghost predicate Shaped()
      reads this
    {
      && gopSize > 0 && gopRing.Length == gopSize
      && gopRingFirst < gopSize && gopRingLast < gopSize
    }

    ghost function Gops(): seq<Gop>
      requires Shaped()
      reads this, gopRing
    {
      Listed(gopRing[..], gopRingFirst, gopRingLast)
    }

    /** The ring holds what the abstract cache holds after the items fed since
        the last clear. */
    ghost predicate Valid()
      reads this, gopRing
    {
      Shaped() && Gops() == FeedAll(gopSize - 1, singleGopMaxFrameNum, items)
    }

    constructor (gopNum: nat, singleGopMaxFrameNum: int)
      ensures Valid() && items == [] && gopSize == gopNum + 1
      ensures this.singleGopMaxFrameNum == singleGopMaxFrameNum
      ensures fresh(gopRing)
    {
      gopSize := gopNum + 1;
      this.singleGopMaxFrameNum := singleGopMaxFrameNum;
      gopRing := new Gop[gopNum + 1](_ => []);
      gopRingFirst, gopRingLast := 0, 0;
      items := [];
    }

    method GetGopCount() returns (n: nat)
      requires Valid()
      ensures n == |FeedAll(gopSize - 1, singleGopMaxFrameNum, items)|
    {
      ModIsWrap(gopRingLast + gopSize - gopRingFirst, gopSize);
      n := (gopRingLast + gopSize - gopRingFirst) % gopSize;
    }

    method GetGopDataAt(pos: int) returns (gop: Option<Gop>)
      requires Valid()
      ensures var gops := FeedAll(gopSize - 1, singleGopMaxFrameNum, items);
              gop == if 0 <= pos < |gops| then Some(gops[pos]) else None
    {
      var n := GetGopCount();
      if pos >= n || pos < 0 {
        return None;
      }
      ModIsWrap(pos + gopRingFirst, gopSize);
      return Some(gopRing[(pos + gopRingFirst) % gopSize]);
    }

    method Clear()
      requires Valid()
      modifies this
      ensures Valid() && items == []
    {
      gopRingFirst, gopRingLast := 0, 0;
      items := [];
    }

    method FeedLastGop(b: Chunk) returns (stored: bool)
      requires Valid() && gopSize > 1
      modifies this`items, gopRing
      ensures Valid() && items == old(items) + [Item(b, false)]
      ensures var gops := FeedAll(gopSize - 1, singleGopMaxFrameNum, old(items));
              stored <==> gops == [] || HasRoom(|gops[|gops| - 1]|, singleGopMaxFrameNum)
    {
      hide Listed, FeedAll;
      ghost var was, ring := Gops(), gopRing[..];
      stored := true;
      if gopRingFirst != gopRingLast {
        ModIsWrap(gopRingLast - 1 + gopSize, gopSize);
        var gopPos := (gopRingLast - 1 + gopSize) % gopSize;
        ListedUpdate(ring, gopRingFirst, gopRingLast, ring[gopPos] + [b]);
        if |gopRing[gopPos]| <= singleGopMaxFrameNum || singleGopMaxFrameNum == 0 {
          gopRing[gopPos] := gopRing[gopPos] + [b];
          assert gopRing[..] == ring[gopPos := ring[gopPos] + [b]];
        } else {
          stored := false;
        }
      }
      FeedAllPush(gopSize - 1, singleGopMaxFrameNum, items, Item(b, false));
      items := items + [Item(b, false)];
    }

    method FeedNewGop(b: Chunk)
      requires Valid() && gopSize > 1
      modifies this, gopRing
      ensures Valid() && items == old(items) + [Item(b, true)]
    {
      hide Listed, FeedAll;
      ghost var ring := gopRing[..];
      ModIsWrap(gopRingLast + 1, gopSize);
      if (gopRingLast + 1) % gopSize == gopRingFirst {
        ModIsWrap(gopRingFirst + 1, gopSize);
        ListedDrop(ring, gopRingFirst, gopRingLast);
        gopRingFirst := (gopRingFirst + 1) % gopSize;
      }
      ListedPush(ring, gopRingFirst, gopRingLast, [b]);
      gopRing[gopRingLast] := [];
      gopRing[gopRingLast] := gopRing[gopRingLast] + [b];
      assert gopRing[gopRingLast] == [b];
      assert gopRing[..] == ring[gopRingLast := [b]];
      gopRingLast := (gopRingLast + 1) % gopSize;
      FeedAllPush(gopSize - 1, singleGopMaxFrameNum, items, Item(b, true));
      items := items + [Item(b, true)];
    }

    /** With no room for GOPs nothing is kept. */
    ghost method Skip(b: Chunk, key: bool)
      requires Valid() && gopSize == 1
      modifies this`items
      ensures Valid() && items == old(items) + [Item(b, key)]
    {
      FeedAllPush(0, singleGopMaxFrameNum, items, Item(b, key));
      items := items + [Item(b, key)];
    }
  }

  // --------------------------------------------------- the two Go caches

  /** What a message does to the RTMP cache: some messages only set headers. */
  predicate IsGopItem(m: Msg)
    requires m.Readable()
  {
    m.typeId != METADATA && !m.IsAacSeqHeader() && !m.IsVideoKeySeqHeader()
  }

  /** In bytes: everything but metadata, AAC sequence headers and video sequence
      headers; and what opens a GOP is among it. */
  lemma GopItemsInBytes(m: Msg)
    requires m.Readable()
    ensures IsGopItem(m)
       <==> && m.typeId != 18
            && !(m.typeId == 8 && 0xA0 <= m.payload[0] <= 0xAF && m.payload[1] == 0)
            && !(m.typeId == 9 && m.payload[0] in {0x17, 0x1C} && m.payload[1] == 0)
            && !(m.typeId == 9 && m.payload[0] >= 0x80 && m.payload[0] % 0x10 == 0
                 && |m.payload| >= 5 && m.payload[1..5] == [0x68, 0x76, 0x63, 0x31])
    ensures m.IsVideoKeyNalu() ==> IsGopItem(m)
  {
    AnswersInBytes(m);
    hide Msg.IsAacSeqHeader, Msg.IsVideoKeySeqHeader, Msg.IsVideoKeyNalu;
  }

  class GopCache {
    var videoSeqHeader: Option<Chunk>
    var aacSeqHeader: Option<Chunk>
    const ring: Ring

    ghost predicate Valid()
      reads this, ring, ring.gopRing
    {
      ring.Valid()
    }

    constructor (gopNum: nat, singleGopMaxFrameNum: int)
      ensures Valid() && ring.items == [] && ring.gopSize == gopNum + 1
      ensures ring.singleGopMaxFrameNum == singleGopMaxFrameNum
      ensures videoSeqHeader == None && aacSeqHeader == None
      ensures fresh(ring) && fresh(ring.gopRing)
    {
      videoSeqHeader, aacSeqHeader := None, None;
      ring := new Ring(gopNum, singleGopMaxFrameNum);
    }

    method Feed(m: Msg, b: Chunk) returns (stored: bool)
      requires Valid() && m.Readable()
      modifies this, ring, ring.gopRing
      ensures Valid()
      ensures ring.items == if IsGopItem(m) then old(ring.items) + [Item(b, m.IsVideoKeyNalu())] else old(ring.items)
      ensures aacSeqHeader == if m.IsAacSeqHeader() then Some(b) else old(aacSeqHeader)
      ensures videoSeqHeader == if m.IsVideoKeySeqHeader() then Some(b) else old(videoSeqHeader)
      ensures var gops := FeedAll(ring.gopSize - 1, ring.singleGopMaxFrameNum, old(ring.items));
              !stored <==> && IsGopItem(m) && !m.IsVideoKeyNalu() && gops != []
                           && !HasRoom(|gops[|gops| - 1]|, ring.singleGopMaxFrameNum)
    {
      hide FeedAll;
      if m.typeId == METADATA {
        return true;
      } else if m.typeId == AUDIO {
        if m.IsAacSeqHeader() {
          aacSeqHeader := Some(b);
          return true;
        }
      } else if m.typeId == VIDEO {
        if m.IsVideoKeySeqHeader() {
          videoSeqHeader := Some(b);
          return true;
        }
      }
      if ring.gopSize > 1 {
        if m.IsVideoKeyNalu() {
          ring.FeedNewGop(b);
        } else {
          stored := ring.FeedLastGop(b);
          return;
        }
      } else {
        ring.Skip(b, m.IsVideoKeyNalu());
      }
      return true;
    }

    method Clear()
      requires Valid()
      modifies this, ring
      ensures Valid() && ring.items == [] && videoSeqHeader == None && aacSeqHeader == None
    {
      videoSeqHeader, aacSeqHeader := None, None;
      ring.Clear();
    }

    method GetGopDataAt(pos: int) returns (gop: Option<Gop>)
      requires Valid()
      ensures var gops := LastOf(CutAll(Split(ring.items), ring.singleGopMaxFrameNum), ring.gopSize - 1);
              gop == if 0 <= pos < |gops| then Some(gops[pos]) else None
    {
      hide FeedAll, Split, CutAll, LastOf;
      HoldsLastGops(ring.gopSize - 1, ring.singleGopMaxFrameNum, ring.items);
      gop := ring.GetGopDataAt(pos);
    }

    method GetGopCount() returns (n: nat)
      requires Valid()
      ensures n == |LastOf(CutAll(Split(ring.items), ring.singleGopMaxFrameNum), ring.gopSize - 1)|
    {
      hide FeedAll, Split, CutAll, LastOf;
      HoldsLastGops(ring.gopSize - 1, ring.singleGopMaxFrameNum, ring.items);
      n := ring.GetGopCount();
    }
  }

  class GopCacheMpegts {
    const ring: Ring

    ghost predicate Valid()
      reads this, ring, ring.gopRing
    {
      ring.Valid()
    }

    constructor (gopNum: nat, singleGopMaxFrameNum: int)
      ensures Valid() && ring.items == [] && ring.gopSize == gopNum + 1
      ensures ring.singleGopMaxFrameNum == singleGopMaxFrameNum
      ensures fresh(ring) && fresh(ring.gopRing)
    {
      ring := new Ring(gopNum, singleGopMaxFrameNum);
    }

    method Feed(b: Chunk, boundary: bool)
      requires Valid()
      modifies ring, ring.gopRing
      ensures Valid() && ring.items == old(ring.items) + [Item(b, boundary)]
    {
      if ring.gopSize > 1 {
        if boundary {
          ring.FeedNewGop(b);
        } else {
          var _ := ring.FeedLastGop(b);
        }
      } else {
        ring.Skip(b, boundary);
      }
    }

    method Clear()
      requires Valid()
      modifies ring
      ensures Valid() && ring.items == []
    {
      ring.Clear();
    }

    method GetGopDataAt(pos: int) returns (gop: Option<Gop>)
      requires Valid()
      ensures var gops := LastOf(CutAll(Split(ring.items), ring.singleGopMaxFrameNum), ring.gopSize - 1);
              gop == if 0 <= pos < |gops| then Some(gops[pos]) else None
    {
      hide FeedAll, Split, CutAll, LastOf;
      HoldsLastGops(ring.gopSize - 1, ring.singleGopMaxFrameNum, ring.items);
      gop := ring.GetGopDataAt(pos);
    }

    method GetGopCount() returns (n: nat)
      requires Valid()
      ensures n == |LastOf(CutAll(Split(ring.items), ring.singleGopMaxFrameNum), ring.gopSize - 1)|
    {
      hide FeedAll, Split, CutAll, LastOf;
      HoldsLastGops(ring.gopSize - 1, ring.singleGopMaxFrameNum, ring.items);
      n := ring.GetGopCount();
    }
  }
}
