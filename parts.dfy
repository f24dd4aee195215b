/** Immutable data parts of a merge-tree table and their version chains.

    Parts live in an arena, `store`, and are addressed by their index, a
    `PartId`. A part may point back to one logically previous version of the
    same base part; the arena is well formed when that back-reference always
    names a part with a smaller index, so every chain is finite and acyclic. */
module MergeParts {
  import opened Wrappers

  type PartId = nat

  datatype PartModel = PartModel(
    name: string,
    partitionId: string,
    level: nat,
    size: nat,                 // bytes of this part alone
    rows: nat,
    commitTime: nat,           // commit time, in seconds
    columnsCommitTime: nat,
    mutationCommitTime: nat,
    bucketNumber: int,
    tableDefinitionHash: nat,  // hash of the clustering definition the part was written with
    previous: Option<PartId>)

  /** Per-part record handed to the merge selector. */
  datatype PartInfo = PartInfo(
    size: nat,
    rows: nat,
    age: nat,
    level: nat,
    chainDepth: nat,
    data: PartId,
    shallParticipateInMerges: bool)

  type PartsRange = seq<PartInfo>

  ghost predicate ValidStore(store: seq<PartModel>)
  {
    forall i | 0 <= i < |store| :: store[i].previous.Some? ==> store[i].previous.value < i
  }

  ghost predicate AllIn(store: seq<PartModel>, ids: seq<PartId>)
  {
    forall i | 0 <= i < |ids| :: ids[i] < |store|
  }

  /** The version chain of `id`: the part itself, then its previous version,
      and so on down to the base part, which has no previous version. */
  ghost function Chain(store: seq<PartModel>, id: PartId): (c: seq<PartId>)
    requires ValidStore(store) && id < |store|
    ensures |c| >= 1 && c[0] == id && AllIn(store, c)
    decreases id
  {
    [id] + match store[id].previous
           case None => []
           case Some(q) => Chain(store, q)
  }

  /** The chain that starts at an optional back-reference. */
  ghost function ChainFrom(store: seq<PartModel>, p: Option<PartId>): (c: seq<PartId>)
    requires ValidStore(store) && (p.Some? ==> p.value < |store|)
    ensures AllIn(store, c)
  {
    match p
    case None => []
    case Some(q) => Chain(store, q)
  }

  /** Sum of the own sizes of the given parts. */
  ghost function SumSizes(store: seq<PartModel>, ids: seq<PartId>): nat
    requires AllIn(store, ids)
  {
    if ids == [] then 0 else SumSizes(store, ids[..|ids| - 1]) + store[ids[|ids| - 1]].size
  }

  /** Seconds elapsed since `since`, clamped at zero. */
  function Age(now: nat, since: nat): (a: nat)
    ensures now > since ==> a + since == now
    ensures now <= since ==> a == 0
  {
    if now > since then now - since else 0
  }

  /** Own size plus the sizes of all older versions. */
  ghost function ChainSize(store: seq<PartModel>, id: PartId): nat
    requires ValidStore(store) && id < |store|
    decreases id
  {
    store[id].size + match store[id].previous
                     case None => 0
                     case Some(q) => ChainSize(store, q)
  }

  /** Number of older versions below the part. */
  ghost function ChainDepth(store: seq<PartModel>, id: PartId): nat
    requires ValidStore(store) && id < |store|
    decreases id
  {
    match store[id].previous
    case None => 0
    case Some(q) => 1 + ChainDepth(store, q)
  }

  /** Commit time of the base (oldest) version of the chain. */
  ghost function BaseCommitTime(store: seq<PartModel>, id: PartId): nat
    requires ValidStore(store) && id < |store|
    decreases id
  {
    match store[id].previous
    case None => store[id].commitTime
    case Some(q) => BaseCommitTime(store, q)
  }

  /** The record the planner builds for an admitted part: the size of the whole
      chain, the age of the chain's base commit, the number of previous
      versions, and the rows and level of the part itself. */
  ghost function PartInfoOf(store: seq<PartModel>, id: PartId, now: nat): PartInfo
    requires ValidStore(store) && id < |store|
  {
    PartInfo(
      ChainSize(store, id),
      store[id].rows,
      Age(now, BaseCommitTime(store, id)),
      store[id].level,
      ChainDepth(store, id),
      id,
      true)
  }

  /** The chain measures, stated over the explicit chain: the size is the sum
      of the own sizes of every link, the depth is the number of links below
      the part, and the base commit time is that of the last link. */
  lemma {:induction false} ChainMeasures(store: seq<PartModel>, id: PartId)
    requires ValidStore(store) && id < |store|
    ensures var c := Chain(store, id);
      && ChainSize(store, id) == SumSizes(store, c)
      && ChainDepth(store, id) == |c| - 1
      && BaseCommitTime(store, id) == store[c[|c| - 1]].commitTime
    decreases id
  {
    var c := Chain(store, id);
    match store[id].previous
    case None =>
      assert c == [id];
      assert c[..0] == [];
    case Some(q) =>
      ChainMeasures(store, q);
      SumSizesPrepend(store, id, Chain(store, q));
  }

  lemma {:induction false} SumSizesPrepend(store: seq<PartModel>, x: PartId, ids: seq<PartId>)
    requires x < |store| && AllIn(store, ids)
    ensures AllIn(store, [x] + ids)
    ensures SumSizes(store, [x] + ids) == store[x].size + SumSizes(store, ids)
    decreases |ids|
  {
    if ids != [] {
      var init := ids[..|ids| - 1];
      assert ([x] + ids)[..|ids|] == [x] + init;
      SumSizesPrepend(store, x, init);
    }
  }

  /** The chain size is at least the part's own size; a part without previous
      versions has chain depth 0 and reports exactly its own size and the age
      of its own commit. */
  lemma PartInfoOfBasics(store: seq<PartModel>, id: PartId, now: nat)
    requires ValidStore(store) && id < |store|
    ensures PartInfoOf(store, id, now).size >= store[id].size
    ensures PartInfoOf(store, id, now).chainDepth == 0 <==> store[id].previous.None?
    ensures store[id].previous.None? ==>
      PartInfoOf(store, id, now).size == store[id].size &&
      PartInfoOf(store, id, now).age == Age(now, store[id].commitTime)
  {
  }

  /** Walks the version chain of `id` from the part down to its base,
      accumulating the sizes, counting the hops and remembering the commit time
      of the last part visited. */
  method ComputePartInfo(store: seq<PartModel>, id: PartId, now: nat) returns (info: PartInfo)
    requires ValidStore(store) && id < |store|
    ensures info == PartInfoOf(store, id, now)
  {
    var size := store[id].size;
    var depth := 0;
    var partCommitTime := store[id].commitTime;
    var p: Option<PartId> := store[id].previous;
    while p.Some?
      invariant p.Some? ==> p.value < |store|
      invariant size + (if p.Some? then ChainSize(store, p.value) else 0) == ChainSize(store, id)
      invariant depth + (if p.Some? then 1 + ChainDepth(store, p.value) else 0) == ChainDepth(store, id)
      invariant p.Some? ==> BaseCommitTime(store, p.value) == BaseCommitTime(store, id)
      invariant p.None? ==> partCommitTime == BaseCommitTime(store, id)
      decreases if p.Some? then p.value + 1 else 0
    {
      var q := p.value;
      depth := depth + 1;
      size := size + store[q].size;
      partCommitTime := store[q].commitTime;
      p := store[q].previous;
    }
    info := PartInfo(size, store[id].rows, Age(now, partCommitTime), store[id].level, depth, id, true);
  }
}
