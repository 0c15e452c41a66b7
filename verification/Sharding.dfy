/**
 w7/src/master/dbconn.h and Master::create_sharding_data: the blobs of a container are cut
 into pieces, a remainder is carried from blob to blob, and the pieces are grouped into
 shards of equal size.
 */
module Sharding {
  import opened Arithmetic
  import opened FloatArithmetic
  import opened Sequences

  datatype Blob = Blob(name: string, data: string)

  /** struct shard_info */
  datatype ShardInfo = ShardInfo(blobName: string, beginOffset: nat, endOffset: nat, isPartial: bool)

  /** struct ShardData */
  datatype ShardData = ShardData(blobName: string, begin: nat, end: nat)

  /** struct FileShard */
  datatype FileShard = FileShard(shardId: int, sets: seq<ShardData>)

  function TotalSize(blobs: seq<Blob>): nat {
    if blobs == [] then 0 else |blobs[0].data| + TotalSize(blobs[1..])
  }

  lemma {:induction false} TotalSizeSnoc(blobs: seq<Blob>, i: nat)
    requires i < |blobs|
    ensures TotalSize(blobs[..i + 1]) == TotalSize(blobs[..i]) + |blobs[i].data|
  {
    if i > 0 {
      TotalSizeSnoc(blobs[1..], i - 1);
      assert blobs[..i + 1][1..] == blobs[1..][..i] && blobs[..i][1..] == blobs[1..][..i - 1];
    }
  }

  /** `tot_sz += blob_sz` over the blobs: each size and each sum is rounded. */
  function FloatTotal(round: real -> real, blobs: seq<Blob>): real {
    if blobs == [] then 0.0
    else round(FloatTotal(round, blobs[..|blobs| - 1]) + round(|blobs[|blobs| - 1].data| as real))
  }

  /** The size of a shard as the code computes it, in floating point. */
  function FloatShardSz(round: real -> real, blobs: seq<Blob>, n: nat): int
    requires n > 0 && round(n as real) > 0.0
  {
    CeilQuotient(round, FloatTotal(round, blobs), n)
  }

  lemma {:induction false} FloatTotalExact(round: real -> real, blobs: seq<Blob>)
    requires IsRounding(round) && TotalSize(blobs) <= TWO_24
    ensures FloatTotal(round, blobs) == TotalSize(blobs) as real
  {
    if blobs != [] {
      var k := |blobs| - 1;
      TotalSizeSnoc(blobs, k);
      assert blobs[..k + 1] == blobs;
      FloatTotalExact(round, blobs[..k]);
      assert round(|blobs[k].data| as real) == |blobs[k].data| as real;
      assert round(TotalSize(blobs) as real) == TotalSize(blobs) as real;
    }
  }

  lemma {:induction false} FloatTotalZero(round: real -> real, blobs: seq<Blob>)
    requires IsRounding(round)
    ensures FloatTotal(round, blobs) >= 0.0
    ensures FloatTotal(round, blobs) == 0.0 <==> TotalSize(blobs) == 0
  {
    if blobs != [] {
      var k := |blobs| - 1;
      TotalSizeSnoc(blobs, k);
      assert blobs[..k + 1] == blobs;
      FloatTotalZero(round, blobs[..k]);
      RoundedSum(round, FloatTotal(round, blobs[..k]), |blobs[k].data|);
    }
  }

  lemma {:induction false} RoundedSum(round: real -> real, sum: real, size: nat)
    requires IsRounding(round) && sum >= 0.0
    ensures round(sum + round(size as real)) >= 0.0
    ensures round(sum + round(size as real)) == 0.0 <==> sum == 0.0 && size == 0
  {
    assert round(0 as real) == 0 as real;
    RoundAtLeast(round, size as real, 0);
    RoundAtLeast(round, sum + round(size as real), 0);
    if size > 0 {
      RoundPositive(round, size as real);
    }
    if sum + round(size as real) > 0.0 {
      RoundPositive(round, sum + round(size as real));
    }
  }

  /** The shard size is zero exactly when there is nothing to cut. */
  lemma {:induction false} FloatShardSzZero(round: real -> real, blobs: seq<Blob>, n: nat)
    requires IsRounding(round) && n > 0
    ensures round(n as real) > 0.0 && FloatShardSz(round, blobs, n) >= 0
    ensures FloatShardSz(round, blobs, n) == 0 <==> TotalSize(blobs) == 0
  {
    FloatTotalZero(round, blobs);
    CeilQuotientZero(round, FloatTotal(round, blobs), n);
  }

  /** Below 2^24 bytes rounding does not show: the size is the exact ceiling. */
  lemma {:induction false} FloatShardSzExact(round: real -> real, blobs: seq<Blob>, n: nat)
    requires IsRounding(round) && 0 < n <= TWO_24 && TotalSize(blobs) < TWO_24
    ensures round(n as real) > 0.0 && FloatShardSz(round, blobs, n) == CeilDiv(TotalSize(blobs), n)
  {
    FloatTotalExact(round, blobs);
    CeilQuotientExact(round, TotalSize(blobs), n);
  }

  /** calc_shard_sz, for any rounding that single precision may use. */
  method CalcShardSz(blobs: seq<Blob>, nshards: nat, round: real -> real) returns (shardSz: nat)
    requires nshards > 0 && IsRounding(round)
    ensures round(nshards as real) > 0.0 && shardSz == FloatShardSz(round, blobs, nshards)
    ensures TotalSize(blobs) < TWO_24 && nshards <= TWO_24 ==> shardSz == CeilDiv(TotalSize(blobs), nshards)
    ensures shardSz == 0 <==> TotalSize(blobs) == 0
  {
    var totSz := 0.0;
    for i := 0 to |blobs|
      invariant totSz == FloatTotal(round, blobs[..i])
    {
      assert blobs[..i + 1][..i] == blobs[..i];
      totSz := round(totSz + round(|blobs[i].data| as real));
    }
    assert blobs[..|blobs|] == blobs;
    FloatShardSzZero(round, blobs, nshards);
    shardSz := Ceiling(round(totSz / round(nshards as real)));
    if TotalSize(blobs) < TWO_24 && nshards <= TWO_24 {
      FloatShardSzExact(round, blobs, nshards);
    }
  }

  // ----- tiling -----

  function ToData(p: ShardInfo): ShardData
    requires p.beginOffset <= p.endOffset
  {
    ShardData(p.blobName, p.beginOffset, p.endOffset)
  }

  /** Non-empty pieces of one blob that follow each other from one offset to another. */
  predicate Chain(ps: seq<ShardData>, name: string, from: nat, to: nat)
    decreases ps
  {
    if ps == [] then from == to
    else
      && ps[0].blobName == name && ps[0].begin == from < ps[0].end
      && Chain(ps[1..], name, ps[0].end, to)
  }

  /** The pieces cover the blob in order without gap or overlap. */
  predicate Tiles(ps: seq<ShardData>, blob: Blob) {
    if blob.data == "" then ps == [ShardData(blob.name, 0, 0)]
    else Chain(ps, blob.name, 0, |blob.data|)
  }

  predicate TilesAll(groups: seq<seq<ShardData>>, blobs: seq<Blob>) {
    |groups| == |blobs| && forall i :: 0 <= i < |blobs| ==> Tiles(groups[i], blobs[i])
  }

  lemma {:induction false} ChainSnoc(ps: seq<ShardData>, name: string, from: nat, mid: nat, to: nat)
    requires Chain(ps, name, from, mid) && mid < to
    ensures Chain(ps + [ShardData(name, mid, to)], name, from, to)
    decreases ps
  {
    var p := ShardData(name, mid, to);
    if ps == [] {
      assert [p][1..] == [];
    } else {
      ChainSnoc(ps[1..], name, ps[0].end, mid, to);
      assert (ps + [p])[1..] == ps[1..] + [p];
    }
  }

  function Bytes(ps: seq<ShardData>): int {
    if ps == [] then 0 else ps[0].end - ps[0].begin + Bytes(ps[1..])
  }

  lemma {:induction false} BytesConcat(a: seq<ShardData>, b: seq<ShardData>)
    ensures Bytes(a + b) == Bytes(a) + Bytes(b)
  {
    if a == [] {
      assert a + b == b;
    } else {
      assert (a + b)[1..] == a[1..] + b;
      BytesConcat(a[1..], b);
    }
  }

  lemma {:induction false} ChainBytes(ps: seq<ShardData>, name: string, from: nat, to: nat)
    requires Chain(ps, name, from, to)
    ensures Bytes(ps) == to - from
    ensures ps != [] ==> ps[|ps| - 1].begin < ps[|ps| - 1].end
    decreases ps
  {
    if ps != [] {
      ChainBytes(ps[1..], name, ps[0].end, to);
    }
  }

  lemma {:induction false} TilingBytes(groups: seq<seq<ShardData>>, blobs: seq<Blob>)
    requires TilesAll(groups, blobs)
    ensures Bytes(Flatten(groups)) == TotalSize(blobs)
  {
    if blobs != [] {
      TilingBytes(groups[1..], blobs[1..]);
      BytesConcat(groups[0], Flatten(groups[1..]));
      if blobs[0].data != "" {
        ChainBytes(groups[0], blobs[0].name, 0, |blobs[0].data|);
      }
    }
  }

  // ----- exact size -----

  function Size(p: ShardInfo): int {
    p.endOffset - p.beginOffset
  }

  /** The bytes gathered since the last piece that completed a shard. */
  function OpenBytes(ps: seq<ShardInfo>): int {
    if ps == [] || !ps[|ps| - 1].isPartial then 0
    else OpenBytes(ps[..|ps| - 1]) + Size(ps[|ps| - 1])
  }

  /** A piece is marked as not partial exactly when it fills its shard up to `shardSz`. */
  predicate ExactFlags(ps: seq<ShardInfo>, shardSz: nat) {
    forall k :: 0 <= k < |ps| ==>
      && OpenBytes(ps[..k]) + Size(ps[k]) <= shardSz
      && (ps[k].isPartial <==> OpenBytes(ps[..k]) + Size(ps[k]) < shardSz)
  }

  predicate Ordered(ps: seq<ShardInfo>) {
    forall k :: 0 <= k < |ps| ==> ps[k].beginOffset <= ps[k].endOffset
  }

  function Datas(ps: seq<ShardInfo>): (r: seq<ShardData>)
    requires Ordered(ps)
    ensures |r| == |ps| && forall k :: 0 <= k < |ps| ==> r[k] == ToData(ps[k])
  {
    seq(|ps|, k requires 0 <= k < |ps| && Ordered(ps) => ToData(ps[k]))
  }

  lemma {:induction false} AppendPiece(ps: seq<ShardInfo>, p: ShardInfo, shardSz: nat)
    requires Ordered(ps) && ExactFlags(ps, shardSz) && p.beginOffset <= p.endOffset
    requires OpenBytes(ps) + Size(p) <= shardSz
    requires p.isPartial <==> OpenBytes(ps) + Size(p) < shardSz
    ensures Ordered(ps + [p]) && ExactFlags(ps + [p], shardSz)
    ensures OpenBytes(ps + [p]) == if p.isPartial then OpenBytes(ps) + Size(p) else 0
    ensures Datas(ps + [p]) == Datas(ps) + [ToData(p)]
  {
    var q := ps + [p];
    assert q[..|q| - 1] == ps;
    forall k | 0 <= k < |q|
      ensures OpenBytes(q[..k]) + Size(q[k]) <= shardSz
      ensures q[k].isPartial <==> OpenBytes(q[..k]) + Size(q[k]) < shardSz
    {
      if k < |ps| {
        assert q[..k] == ps[..k];
      }
    }
  }

  /** The pieces so far cover the blob up to offset `to`. */
  predicate Covers(group: seq<ShardData>, blob: Blob, to: nat) {
    if blob.data == "" then to == 0 && (group == [] || Tiles(group, blob))
    else Chain(group, blob.name, 0, to)
  }

  /** The pieces `group` of a blob, up to offset `to`, have been appended to `before`. */
  predicate Appended(before: seq<ShardInfo>, ps: seq<ShardInfo>, group: seq<ShardData>, shardSz: nat,
      blob: Blob, to: nat) {
    && Ordered(before) && Ordered(ps) && ExactFlags(ps, shardSz)
    && Datas(ps) == Datas(before) + group
    && Covers(group, blob, to)
  }

  lemma {:induction false} AppendToBlob(before: seq<ShardInfo>, ps: seq<ShardInfo>, group: seq<ShardData>,
      shardSz: nat, blob: Blob, p: ShardInfo)
    requires Appended(before, ps, group, shardSz, blob, p.beginOffset) && p.blobName == blob.name
    requires p.beginOffset < p.endOffset <= |blob.data| ||
        (p.beginOffset == p.endOffset == |blob.data| == 0 && group == [])
    requires OpenBytes(ps) + Size(p) <= shardSz
    requires p.isPartial <==> OpenBytes(ps) + Size(p) < shardSz
    ensures Appended(before, ps + [p], group + [ToData(p)], shardSz, blob, p.endOffset)
    ensures p.endOffset == |blob.data| ==> Tiles(group + [ToData(p)], blob)
    ensures OpenBytes(ps + [p]) == if p.isPartial then OpenBytes(ps) + Size(p) else 0
  {
    var x := ToData(p);
    AppendPiece(ps, p, shardSz);
    CoverMore(group, blob, x);
    Associate(Datas(before), group, [x]);
  }

  lemma {:induction false} CoverMore(group: seq<ShardData>, blob: Blob, x: ShardData)
    requires Covers(group, blob, x.begin) && x.blobName == blob.name
    requires x.begin < x.end <= |blob.data| || (x.begin == x.end == |blob.data| == 0 && group == [])
    ensures Covers(group + [x], blob, x.end) && (x.end == |blob.data| ==> Tiles(group + [x], blob))
  {
    if x.begin < x.end {
      ChainSnoc(group, x.blobName, 0, x.begin, x.end);
    }
  }

  /** The loop of make_shards over one blob. */
  method ShardBlob(blob: Blob, shardSz: nat, remIn: nat, before: seq<ShardInfo>)
    returns (shardList: seq<ShardInfo>, rem: nat, ghost group: seq<ShardData>)
    requires shardSz == 0 ==> blob.data == ""
    requires Ordered(before) && ExactFlags(before, shardSz)
    requires remIn == shardSz - OpenBytes(before) && (shardSz > 0 ==> remIn > 0)
    ensures Appended(before, shardList, group, shardSz, blob, |blob.data|) && Tiles(group, blob)
    ensures rem == shardSz - OpenBytes(shardList) && (shardSz > 0 ==> rem > 0)
  {
    shardList, rem, group := before, remIn, [];
    var blobSz := |blob.data|;
    var begin := 0;
    var end := rem;
    while end <= blobSz
      invariant end == begin + rem && (begin < blobSz || (begin == blobSz == 0 && group == []))
      invariant Appended(before, shardList, group, shardSz, blob, begin)
      invariant rem == shardSz - OpenBytes(shardList) && (shardSz > 0 ==> rem > 0)
      decreases blobSz - begin
    {
      var piece := ShardInfo(blob.name, begin, end, false);
      AppendToBlob(before, shardList, group, shardSz, blob, piece);
      shardList := shardList + [piece];
      group := group + [ToData(piece)];
      rem := shardSz;
      if end == blobSz {
        break;
      }
      begin := end;
      end := begin + shardSz;
      if end > blobSz {
        break;
      }
    }
    if end > blobSz {
      var piece := ShardInfo(blob.name, begin, blobSz, true);
      AppendToBlob(before, shardList, group, shardSz, blob, piece);
      shardList := shardList + [piece];
      group := group + [ToData(piece)];
      rem := rem - (blobSz - begin);
    }
  }

  lemma {:induction false} TilesAllSnoc(groups: seq<seq<ShardData>>, group: seq<ShardData>, blobs: seq<Blob>, i: nat)
    requires i < |blobs| && TilesAll(groups, blobs[..i]) && Tiles(group, blobs[i])
    ensures TilesAll(groups + [group], blobs[..i + 1])
    ensures Flatten(groups + [group]) == Flatten(groups) + group
  {
    FlattenSnoc(groups, group);
  }

  method MakeShards(blobs: seq<Blob>, shardSz: nat)
    returns (shardList: seq<ShardInfo>, ghost groups: seq<seq<ShardData>>)
    requires shardSz == 0 ==> forall b :: b in blobs ==> b.data == ""
    ensures Ordered(shardList) && ExactFlags(shardList, shardSz)
    ensures Datas(shardList) == Flatten(groups) && TilesAll(groups, blobs)
  {
    var rem := shardSz;
    shardList, groups := [], [];
    for i := 0 to |blobs|
      invariant Ordered(shardList) && ExactFlags(shardList, shardSz)
      invariant rem == shardSz - OpenBytes(shardList) && (shardSz > 0 ==> rem > 0)
      invariant Datas(shardList) == Flatten(groups) && TilesAll(groups, blobs[..i])
    {
      ghost var group;
      shardList, rem, group := ShardBlob(blobs[i], shardSz, rem, shardList);
      TilesAllSnoc(groups, group, blobs, i);
      groups := groups + [group];
    }
    assert blobs[..|blobs|] == blobs;
  }

  // ----- grouping pieces into shards -----

  /** `getShardId` and its static counter. */
  class ShardIds {
    var id: int

    constructor ()
      ensures id == -1
    {
      id := -1;
    }

    method GetShardId(reset: bool) returns (r: int)
      modifies this
      ensures id == (if reset then -1 else old(id) + 1) && r == id
    {
      if reset {
        id := -1;
        return id;
      }
      id := id + 1;
      r := id;
    }
  }

  function AllSets(shards: seq<FileShard>): seq<ShardData> {
    if shards == [] then [] else shards[0].sets + AllSets(shards[1..])
  }

  lemma {:induction false} AllSetsSnoc(shards: seq<FileShard>, s: FileShard)
    ensures AllSets(shards + [s]) == AllSets(shards) + s.sets
  {
    if shards == [] {
      assert [s][1..] == [];
      assert AllSets([s]) == s.sets + AllSets([s][1..]);
    } else {
      assert (shards + [s])[1..] == shards[1..] + [s];
      AllSetsSnoc(shards[1..], s);
    }
  }

  predicate Numbered(shards: seq<FileShard>) {
    forall i :: 0 <= i < |shards| ==> shards[i].shardId == i
  }

  predicate AllFull(shards: seq<FileShard>, shardSz: nat) {
    forall i :: 0 <= i < |shards| ==> Bytes(shards[i].sets) == shardSz
  }

  lemma {:induction false} FullBytes(shards: seq<FileShard>, shardSz: nat)
    requires AllFull(shards, shardSz)
    ensures Bytes(AllSets(shards)) == Times(|shards|, shardSz)
  {
    if shards != [] {
      FullBytes(shards[1..], shardSz);
      BytesConcat(shards[0].sets, AllSets(shards[1..]));
    }
  }

  /** The number of shards: one more than expected when an empty blob trails full shards. */
  function ShardCount(blobs: seq<Blob>, shardSz: nat): nat
    requires shardSz > 0 && blobs != []
  {
    CeilDiv(TotalSize(blobs), shardSz)
    + if TotalSize(blobs) % shardSz == 0 && blobs[|blobs| - 1].data == "" then 1 else 0
  }

  /** What create_sharding_data leaves in m_shards. */
  ghost predicate Sharded(blobs: seq<Blob>, shards: seq<FileShard>, shardSz: int) {
    && Numbered(shards)
    && (exists groups :: TilesAll(groups, blobs) && AllSets(shards) == Flatten(groups))
    && (forall i :: 0 <= i < |shards| ==> Bytes(shards[i].sets) <= shardSz)
    && (forall i :: 0 <= i < |shards| - 1 ==> Bytes(shards[i].sets) == shardSz)
    && (shardSz > 0 && blobs != [] ==> |shards| == ShardCount(blobs, shardSz))
    && (shardSz == 0 ==> |shards| == |blobs|)
  }

  predicate NonePartial(ps: seq<ShardInfo>, k: nat)
    requires k <= |ps|
  {
    forall j :: 0 <= j < k ==> !ps[j].isPartial
  }

  /** The pieces before position k have been put into full shards and an open set. */
  predicate Grouped(ps: seq<ShardInfo>, k: nat, shards: seq<FileShard>, infoSet: seq<ShardData>, shardSz: nat)
    requires k <= |ps| && Ordered(ps)
  {
    && Numbered(shards) && AllFull(shards, shardSz)
    && AllSets(shards) + infoSet == Datas(ps)[..k]
    && Bytes(infoSet) == OpenBytes(ps[..k])
    && (infoSet != [] <==> k > 0 && ps[k - 1].isPartial)
    && (NonePartial(ps, k) ==> |shards| == k)
    && (if k == 0 then shards == [] else !ps[k - 1].isPartial ==> shards != [])
  }

  lemma {:induction false} GroupOne(ps: seq<ShardInfo>, k: nat, shards: seq<FileShard>,
      infoSet: seq<ShardData>, shardSz: nat)
    requires k < |ps| && Ordered(ps) && ExactFlags(ps, shardSz) && Grouped(ps, k, shards, infoSet, shardSz)
    ensures var more := infoSet + [ToData(ps[k])];
            if ps[k].isPartial then Grouped(ps, k + 1, shards, more, shardSz)
            else Grouped(ps, k + 1, shards + [FileShard(|shards|, more)], [], shardSz)
  {
    GroupBytes(ps, k, infoSet);
    GroupDatas(ps, k, AllSets(shards), infoSet);
    if !ps[k].isPartial {
      GroupFull(ps, k, shards, infoSet, shardSz);
    }
  }

  lemma {:induction false} GroupFull(ps: seq<ShardInfo>, k: nat, shards: seq<FileShard>,
      infoSet: seq<ShardData>, shardSz: nat)
    requires k < |ps| && Ordered(ps) && ExactFlags(ps, shardSz) && Grouped(ps, k, shards, infoSet, shardSz)
    requires !ps[k].isPartial && AllSets(shards) + (infoSet + [ToData(ps[k])]) == Datas(ps)[..k + 1]
    requires Bytes(infoSet + [ToData(ps[k])]) == OpenBytes(ps[..k]) + Size(ps[k]) && OpenBytes(ps[..k + 1]) == 0
    ensures Grouped(ps, k + 1, shards + [FileShard(|shards|, infoSet + [ToData(ps[k])])], [], shardSz)
  {
    AllSetsSnoc(shards, FileShard(|shards|, infoSet + [ToData(ps[k])]));
  }

  lemma {:induction false} GroupBytes(ps: seq<ShardInfo>, k: nat, infoSet: seq<ShardData>)
    requires k < |ps| && Ordered(ps) && Bytes(infoSet) == OpenBytes(ps[..k])
    ensures Bytes(infoSet + [ToData(ps[k])]) == OpenBytes(ps[..k]) + Size(ps[k])
    ensures OpenBytes(ps[..k + 1]) == if ps[k].isPartial then OpenBytes(ps[..k]) + Size(ps[k]) else 0
  {
    var data := ToData(ps[k]);
    BytesConcat(infoSet, [data]);
    assert Bytes([data]) == data.end - data.begin + Bytes([data][1..]);
    assert ps[..k + 1][..k] == ps[..k];
  }

  lemma {:induction false} GroupDatas(ps: seq<ShardInfo>, k: nat, sets: seq<ShardData>, infoSet: seq<ShardData>)
    requires k < |ps| && Ordered(ps) && sets + infoSet == Datas(ps)[..k]
    ensures sets + (infoSet + [ToData(ps[k])]) == Datas(ps)[..k + 1]
  {
    assert Datas(ps)[..k + 1] == Datas(ps)[..k] + [Datas(ps)[k]];
    assert sets + (infoSet + [ToData(ps[k])]) == (sets + infoSet) + [ToData(ps[k])];
  }

  /** All shards but the last are full; the last holds what was left open, if anything. */
  predicate AllButLastFull(ps: seq<ShardInfo>, shards: seq<FileShard>, shardSz: nat)
    requires ps != []
  {
    && shards != []
    && AllFull(shards[..|shards| - 1], shardSz)
    && Bytes(shards[|shards| - 1].sets) == if ps[|ps| - 1].isPartial then OpenBytes(ps) else shardSz
  }

  lemma {:induction false} GroupRest(ps: seq<ShardInfo>, shards: seq<FileShard>, infoSet: seq<ShardData>, shardSz: nat)
    requires Ordered(ps) && Grouped(ps, |ps|, shards, infoSet, shardSz)
    ensures var all := if infoSet == [] then shards else shards + [FileShard(|shards|, infoSet)];
            && Numbered(all) && AllSets(all) == Datas(ps)
            && (ps == [] ==> all == shards) && (ps != [] ==> AllButLastFull(ps, all, shardSz))
            && (NonePartial(ps, |ps|) ==> |all| == |ps|)
  {
    assert ps[..|ps|] == ps && Datas(ps)[..|ps|] == Datas(ps);
    if infoSet == [] {
      assert AllSets(shards) + [] == AllSets(shards);
    } else {
      AllSetsSnoc(shards, FileShard(|shards|, infoSet));
      assert (shards + [FileShard(|shards|, infoSet)])[..|shards|] == shards;
    }
  }

  /** The loop of create_sharding_data over the pieces. */
  method GroupPieces(shardList: seq<ShardInfo>, ids: ShardIds, ghost shardSz: nat)
    returns (shards: seq<FileShard>, infoSet: seq<ShardData>)
    requires Ordered(shardList) && ExactFlags(shardList, shardSz) && ids.id == -1
    modifies ids
    ensures Grouped(shardList, |shardList|, shards, infoSet, shardSz) && ids.id == |shards| - 1
  {
    shards, infoSet := [], [];
    for k := 0 to |shardList|
      invariant Grouped(shardList, k, shards, infoSet, shardSz) && ids.id == |shards| - 1
    {
      var item := shardList[k];
      GroupOne(shardList, k, shards, infoSet, shardSz);
      infoSet := infoSet + [ToData(item)];
      if !item.isPartial {
        var id := ids.GetShardId(false);
        shards := shards + [FileShard(id, infoSet)];
        infoSet := [];
      }
    }
  }

  /** Joins partial pieces into shards; what is left open at the end makes one more. */
  method JoinPartialShards(shardList: seq<ShardInfo>, ghost shardSz: nat) returns (shards: seq<FileShard>)
    requires Ordered(shardList) && ExactFlags(shardList, shardSz)
    ensures Numbered(shards) && AllSets(shards) == Datas(shardList)
    ensures shardList == [] ==> shards == []
    ensures shardList != [] ==> AllButLastFull(shardList, shards, shardSz)
    ensures NonePartial(shardList, |shardList|) ==> |shards| == |shardList|
  {
    var infoSet: seq<ShardData>;
    var ids := new ShardIds();
    var _ := ids.GetShardId(true);
    shards, infoSet := GroupPieces(shardList, ids, shardSz);
    GroupRest(shardList, shards, infoSet, shardSz);
    if |infoSet| > 0 {
      var id := ids.GetShardId(false);
      shards := shards + [FileShard(id, infoSet)];
    }
  }

  method CreateShardingData(blobs: seq<Blob>, nmappers: nat, round: real -> real) returns (shards: seq<FileShard>)
    requires nmappers > 0 && IsRounding(round)
    ensures round(nmappers as real) > 0.0 && Sharded(blobs, shards, FloatShardSz(round, blobs, nmappers))
  {
    var shardSz := CalcShardSz(blobs, nmappers, round);
    SizeAtMostTotal(blobs);
    var shardList;
    ghost var groups;
    shardList, groups := MakeShards(blobs, shardSz);
    shards := JoinPartialShards(shardList, shardSz);
    ShardsAreSharded(blobs, shardList, groups, shards, shardSz);
  }

  lemma {:induction false} ShardsAreSharded(blobs: seq<Blob>, ps: seq<ShardInfo>, groups: seq<seq<ShardData>>,
      shards: seq<FileShard>, shardSz: nat)
    requires shardSz == 0 ==> forall b :: b in blobs ==> b.data == ""
    requires Ordered(ps) && ExactFlags(ps, shardSz) && Datas(ps) == Flatten(groups) && TilesAll(groups, blobs)
    requires Numbered(shards) && AllSets(shards) == Datas(ps)
    requires ps == [] ==> shards == []
    requires ps != [] ==> AllButLastFull(ps, shards, shardSz)
    requires NonePartial(ps, |ps|) ==> |shards| == |ps|
    ensures Sharded(blobs, shards, shardSz)
  {
    if shardSz == 0 {
      ZeroSizePieces(ps);
      EmptyBlobPieces(groups, blobs);
    }
    if ps == [] {
      if blobs != [] {
        NoPieces(groups, blobs);
      }
    } else {
      ShardSizes(ps, shards, shardSz);
      if shardSz > 0 && blobs != [] {
        ShardNumber(blobs, ps, groups, shards, shardSz);
      }
    }
  }

  lemma {:induction false} ShardSizes(ps: seq<ShardInfo>, shards: seq<FileShard>, shardSz: nat)
    requires ps != [] && Ordered(ps) && ExactFlags(ps, shardSz) && AllButLastFull(ps, shards, shardSz)
    ensures forall i :: 0 <= i < |shards| ==> Bytes(shards[i].sets) <= shardSz
    ensures forall i :: 0 <= i < |shards| - 1 ==> Bytes(shards[i].sets) == shardSz
  {
    OpenBytesAtMost(ps, shardSz);
    assert forall i :: 0 <= i < |shards| - 1 ==> shards[i] == shards[..|shards| - 1][i];
  }

  /** Shards of size zero are filled by every piece. */
  lemma {:induction false} ZeroSizePieces(ps: seq<ShardInfo>)
    requires Ordered(ps) && ExactFlags(ps, 0)
    ensures NonePartial(ps, |ps|)
  {
    forall j | 0 <= j < |ps| ensures !ps[j].isPartial {
      assert forall k :: 0 <= k < j ==> ps[..j][..k] == ps[..k];
      OpenBytesAtMost(ps[..j], 0);
    }
  }

  lemma {:induction false} EmptyBlobPieces(groups: seq<seq<ShardData>>, blobs: seq<Blob>)
    requires TilesAll(groups, blobs) && forall b :: b in blobs ==> b.data == ""
    ensures |Flatten(groups)| == |blobs|
  {
    if blobs != [] {
      EmptyBlobPieces(groups[1..], blobs[1..]);
      assert blobs[0] in blobs && Tiles(groups[0], blobs[0]);
    }
  }

  lemma {:induction false} ShardNumber(blobs: seq<Blob>, ps: seq<ShardInfo>, groups: seq<seq<ShardData>>,
      shards: seq<FileShard>, shardSz: nat)
    requires shardSz > 0 && blobs != [] && ps != [] && shards != []
    requires Ordered(ps) && ExactFlags(ps, shardSz) && Datas(ps) == Flatten(groups) && TilesAll(groups, blobs)
    requires AllSets(shards) == Datas(ps) && AllButLastFull(ps, shards, shardSz)
    ensures |shards| == ShardCount(blobs, shardSz)
  {
    var full, last := shards[..|shards| - 1], shards[|shards| - 1];
    FullBytes(full, shardSz);
    AllSetsSnoc(full, last);
    assert shards == full + [last];
    BytesConcat(AllSets(full), last.sets);
    TilingBytes(groups, blobs);
    CountShards(blobs, ps, groups, shardSz, if ps[|ps| - 1].isPartial then |full| else |shards|);
  }

  lemma {:induction false} NoPieces(groups: seq<seq<ShardData>>, blobs: seq<Blob>)
    requires blobs != [] && TilesAll(groups, blobs)
    ensures Flatten(groups) != []
  {
    assert Tiles(groups[0], blobs[0]);
  }

  lemma {:induction false} SizeAtMostTotal(blobs: seq<Blob>)
    ensures forall b :: b in blobs ==> |b.data| <= TotalSize(blobs)
  {
    if blobs != [] {
      SizeAtMostTotal(blobs[1..]);
    }
  }

  lemma {:induction false} CeilDivIs(q: nat, r: nat, b: nat)
    requires r < b
    ensures CeilDiv(q * b + r, b) == q + if r > 0 then 1 else 0
  {
    var a := q * b + r + b - 1;
    if r > 0 {
      assert (q + 1) * b == q * b + b;
      DivIs(a, q + 1, r - 1, b);
    } else {
      DivIs(a, q, b - 1, b);
    }
  }

  lemma {:induction false} CountShards(blobs: seq<Blob>, ps: seq<ShardInfo>, groups: seq<seq<ShardData>>,
      shardSz: nat, full: nat)
    requires shardSz > 0 && blobs != [] && ps != [] && Ordered(ps) && ExactFlags(ps, shardSz)
    requires Datas(ps) == Flatten(groups) && TilesAll(groups, blobs)
    requires TotalSize(blobs) == Times(full, shardSz) + OpenBytes(ps)
    ensures ShardCount(blobs, shardSz) == full + if ps[|ps| - 1].isPartial then 1 else 0
  {
    TimesIsProduct(full, shardSz);
    OpenBytesAtMost(ps, shardSz);
    DivIs(TotalSize(blobs), full, OpenBytes(ps), shardSz);
    CeilDivIs(full, OpenBytes(ps), shardSz);
    LastPiece(blobs, ps, groups);
    LastFlag(ps, shardSz);
  }

  /** The last piece completes a shard unless bytes stay open, or it is itself empty. */
  lemma {:induction false} LastFlag(ps: seq<ShardInfo>, shardSz: nat)
    requires shardSz > 0 && ps != [] && Ordered(ps) && ExactFlags(ps, shardSz)
    ensures ps[|ps| - 1].isPartial <==> OpenBytes(ps) > 0 || Size(ps[|ps| - 1]) == 0
  {
    var front := ps[..|ps| - 1];
    assert forall k :: 0 <= k < |front| ==> front[..k] == ps[..k];
    OpenBytesAtMost(front, shardSz);
  }

  lemma {:induction false} LastPiece(blobs: seq<Blob>, ps: seq<ShardInfo>, groups: seq<seq<ShardData>>)
    requires blobs != [] && ps != [] && Ordered(ps)
    requires Datas(ps) == Flatten(groups) && TilesAll(groups, blobs)
    ensures Size(ps[|ps| - 1]) == 0 <==> blobs[|blobs| - 1].data == ""
  {
    var n := |blobs|;
    var last := groups[n - 1];
    assert Tiles(last, blobs[n - 1]);
    if blobs[n - 1].data != "" {
      ChainBytes(last, blobs[n - 1].name, 0, |blobs[n - 1].data|);
    }
    FlattenSnoc(groups[..n - 1], last);
    assert groups == groups[..n - 1] + [last];
    assert Datas(ps)[|ps| - 1] == last[|last| - 1];
  }

  lemma {:induction false} OpenBytesAtMost(ps: seq<ShardInfo>, shardSz: nat)
    requires Ordered(ps) && ExactFlags(ps, shardSz)
    ensures 0 <= OpenBytes(ps) <= shardSz && (shardSz > 0 ==> OpenBytes(ps) < shardSz)
  {
    if ps != [] && ps[|ps| - 1].isPartial {
      var front := ps[..|ps| - 1];
      assert forall k :: 0 <= k < |front| ==> front[..k] == ps[..k];
      OpenBytesAtMost(front, shardSz);
    }
  }

  // ----- how many shards n mappers give -----

  /** How many shards of size s hold all bytes. */
  lemma {:induction false} CeilDivIsExactly(total: nat, s: nat, n: nat)
    requires s > 0
    ensures CeilDiv(total, s) == n <==> (n - 1) * s < total <= n * s
  {
    CeilDivBounds(total, s);
    var c := CeilDiv(total, s);
    if c > n {
      MulMonotone(n, c - 1, s);
    } else if c < n {
      MulMonotone(c, n - 1, s);
    }
  }

  /** With the exact ceiling as shard size there are never more than n shards, and exactly n for enough bytes. */
  lemma {:induction false} CountForMappers(total: nat, n: nat)
    requires total > 0 && n > 0
    ensures CeilDiv(total, n) > 0
    ensures CeilDiv(total, CeilDiv(total, n)) <= n
    ensures CeilDiv(total, CeilDiv(total, n)) == n <==> (n - 1) * CeilDiv(total, n) < total
  {
    var s := CeilDiv(total, n);
    CeilDivBounds(total, n);
    CeilDivBounds(total, s);
    var c := CeilDiv(total, s);
    assert n * s == s * n;
    CeilDivIsExactly(total, s, n);
    if c > n {
      MulMonotone(n, c - 1, s);
    }
  }

  /** More than (n - 1)^2 bytes are always enough to give every mapper a shard. */
  lemma {:induction false} EnoughBytes(total: nat, n: nat)
    requires n > 0 && (n - 1) * (n - 1) < total
    ensures (n - 1) * CeilDiv(total, n) < total
  {
    var s := CeilDiv(total, n);
    CeilDivBounds(total, n);
    var m := n - 1;
    assert s * n <= total + m by {
      assert (s - 1) * n == s * n - n;
    }
    MulMonotone(s * n, total + m, m);
    assert (m * s) * n == (s * n) * m;
    assert (total + m) * m == total * m + m * m;
    assert total * n == total * m + total;
    if m * s >= total {
      MulMonotone(total, m * s, n);
    }
  }

  /** With an empty blob behind full shards the count is n exactly when one shard fewer holds all bytes. */
  lemma {:induction false} CountWithEmptyTail(total: nat, s: nat, n: nat)
    requires s > 0 && total % s == 0
    ensures CeilDiv(total, s) + 1 == n <==> total == (n - 1) * s
  {
    var q := total / s;
    assert total == q * s;
    CeilDivIs(q, 0, s);
    if q < n - 1 {
      MulMonotone(q + 1, n - 1, s);
      assert (q + 1) * s == q * s + s;
    } else if q > n - 1 {
      MulMonotone(n, q, s);
      assert n * s == (n - 1) * s + s;
    }
  }

  /** A blob without bytes behind full shards makes one shard more than there are mappers. */
  lemma {:induction false} TrailingEmptyBlob(shards: seq<FileShard>)
    requires var blobs := [Blob("one", "ab"), Blob("two", "")]; Sharded(blobs, shards, CeilDiv(TotalSize(blobs), 2))
    ensures |shards| == 3
  {
    var blobs := [Blob("one", "ab"), Blob("two", "")];
    assert blobs[1..] == [Blob("two", "")] && blobs[1..][1..] == [];
    assert TotalSize(blobs[1..]) == 0 && TotalSize(blobs) == 2;
  }

  /** Four bytes for three mappers make two shards only. */
  lemma {:induction false} TooFewBytes(shards: seq<FileShard>)
    requires var blobs := [Blob("one", "a bc")]; Sharded(blobs, shards, CeilDiv(TotalSize(blobs), 3))
    ensures |shards| == 2
  {
    var blobs := [Blob("one", "a bc")];
    assert blobs[1..] == [] && TotalSize(blobs) == 4;
  }
}
