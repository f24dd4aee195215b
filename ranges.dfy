/** Building the candidate part ranges: one pass over each group of parts
    (the body of the range loop of selectPartsToMerge). A range is opened
    whenever the partition changes or, when non-adjacent parts may not be
    merged, when the open range has reached `max_parts_to_break` parts. A part
    joins the open range when the eligibility oracle accepts it after its
    predecessor; a part that cannot follow its predecessor closes the range
    and, if the oracle accepts it on its own, starts the next one; a part the
    oracle accepts neither way is skipped. */
module RangeBuilder {
  import opened Wrappers
  import opened MergeParts
  import opened Seqs

  /** The fixed inputs of one range-building pass. `canMerge(prev, part)` is
      the external eligibility oracle; `None` stands for the null previous part. */
  datatype ScanConfig = ScanConfig(
    nonadjacent: bool,
    maxPartsToBreak: nat,
    canMerge: (Option<PartId>, PartId) -> bool,
    now: nat)

  /** The ids of the parts of a range, in order. */
  function Ids(r: PartsRange): (ids: seq<PartId>)
    ensures |ids| == |r| && forall k | 0 <= k < |r| :: ids[k] == r[k].data
  {
    if r == [] then [] else Ids(r[..|r| - 1]) + [r[|r| - 1].data]
  }

  /** The ids of all parts of a list of ranges, in order. */
  function RangesIds(rs: seq<PartsRange>): seq<PartId>
  {
    if rs == [] then [] else RangesIds(rs[..|rs| - 1]) + Ids(rs[|rs| - 1])
  }

  function Last<T>(s: seq<T>): T
    requires s != []
  {
    s[|s| - 1]
  }

  /** The largest size a range may reach in strict mode: with a limit of 0
      every part opens a range of its own. */
  function SplitBound(maxPartsToBreak: nat): nat
  {
    if maxPartsToBreak == 0 then 1 else maxPartsToBreak
  }

  ghost predicate SamePartition(store: seq<PartModel>, r: PartsRange)
  {
    forall k | 0 <= k < |r| :: r[k].data < |store| && r[0].data < |store|
      && store[r[k].data].partitionId == store[r[0].data].partitionId
  }

  /** The first part was accepted on its own, every later part after its predecessor. */
  ghost predicate Admitted(cfg: ScanConfig, r: PartsRange)
  {
    && (|r| > 0 ==> cfg.canMerge(None, r[0].data))
    && forall k | 0 < k < |r| :: cfg.canMerge(Some(r[k - 1].data), r[k].data)
  }

  ghost predicate Bounded(cfg: ScanConfig, r: PartsRange)
  {
    !cfg.nonadjacent ==> |r| <= SplitBound(cfg.maxPartsToBreak)
  }

  /** Every record describes its part's version chain. */
  ghost predicate Described(store: seq<PartModel>, cfg: ScanConfig, r: PartsRange)
    requires ValidStore(store)
  {
    forall k | 0 <= k < |r| :: r[k].data < |store| && r[k] == PartInfoOf(store, r[k].data, cfg.now)
  }

  ghost predicate GoodRange(store: seq<PartModel>, cfg: ScanConfig, r: PartsRange)
    requires ValidStore(store)
  {
    SamePartition(store, r) && Admitted(cfg, r) && Bounded(cfg, r) && Described(store, cfg, r)
  }

  /** The shape of the range list: every range but possibly the last is
      non-empty, and every range is good. */
  ghost predicate GoodRanges(store: seq<PartModel>, cfg: ScanConfig, rs: seq<PartsRange>)
    requires ValidStore(store)
  {
    && (forall k | 0 <= k < |rs| - 1 :: rs[k] != [])
    && (forall k | 0 <= k < |rs| :: GoodRange(store, cfg, rs[k]))
  }

  /** The list without a trailing empty range. */
  function Trim(rs: seq<PartsRange>): (t: seq<PartsRange>)
    ensures |t| <= |rs| && t == rs[..|t|]
    ensures |rs| - |t| <= 1
    ensures |t| < |rs| ==> rs[|rs| - 1] == []
  {
    if rs != [] && rs[|rs| - 1] == [] then rs[..|rs| - 1] else rs
  }

  /** Appends a part record to the last range. */
  function Append(rs: seq<PartsRange>, e: PartInfo): (r: seq<PartsRange>)
    requires rs != []
    ensures |r| == |rs| && r[..|rs| - 1] == rs[..|rs| - 1] && r[|rs| - 1] == rs[|rs| - 1] + [e]
  {
    rs[..|rs| - 1] + [rs[|rs| - 1] + [e]]
  }

  lemma IdsAppend(r: PartsRange, e: PartInfo)
    ensures Ids(r + [e]) == Ids(r) + [e.data]
  {
    assert (r + [e])[..|r|] == r;
  }

  lemma RangesIdsAppendRange(rs: seq<PartsRange>, r: PartsRange)
    ensures RangesIds(rs + [r]) == RangesIds(rs) + Ids(r)
  {
    assert (rs + [r])[..|rs|] == rs;
  }

  /** A range can be extended by a part that is described, lies in the
      range's partition, is accepted by the oracle after the range's last part
      (or on its own when the range is empty), and fits under the split bound. */
  lemma ExtendRange(store: seq<PartModel>, cfg: ScanConfig, r: PartsRange, e: PartInfo)
    requires ValidStore(store) && GoodRange(store, cfg, r)
    requires e.data < |store| && e == PartInfoOf(store, e.data, cfg.now)
    requires r == [] ==> cfg.canMerge(None, e.data)
    requires r != [] ==> cfg.canMerge(Some(r[|r| - 1].data), e.data)
    requires r != [] ==> store[e.data].partitionId == store[r[0].data].partitionId
    requires !cfg.nonadjacent ==> |r| < SplitBound(cfg.maxPartsToBreak)
    ensures GoodRange(store, cfg, r + [e])
  {
    var r' := r + [e];
    assert forall k | 0 <= k < |r| :: r'[k] == r[k];
    if r == [] {
      assert r' == [e];
    }
  }

  lemma AppendKeeps(store: seq<PartModel>, cfg: ScanConfig, rs: seq<PartsRange>, e: PartInfo, start: nat)
    requires ValidStore(store) && GoodRanges(store, cfg, rs) && start < |rs|
    requires GoodRange(store, cfg, rs[|rs| - 1] + [e])
    ensures GoodRanges(store, cfg, Append(rs, e))
    ensures TotalLength(Append(rs, e)) == TotalLength(rs) + 1
    ensures Append(rs, e)[..start] == rs[..start]
    ensures RangesIds(Append(rs, e)[start..]) == RangesIds(rs[start..]) + [e.data]
  {
    AppendGood(store, cfg, rs, e);
    AppendLength(rs, e);
    AppendIds(rs, e, start);
  }

  lemma AppendLength(rs: seq<PartsRange>, e: PartInfo)
    requires rs != []
    ensures TotalLength(Append(rs, e)) == TotalLength(rs) + 1
  {
    var n := |rs| - 1;
    assert rs == rs[..n] + [rs[n]];
    TotalLengthAppend(rs[..n], rs[n]);
    TotalLengthAppend(rs[..n], rs[n] + [e]);
  }

  lemma AppendGood(store: seq<PartModel>, cfg: ScanConfig, rs: seq<PartsRange>, e: PartInfo)
    requires ValidStore(store) && GoodRanges(store, cfg, rs) && rs != []
    requires GoodRange(store, cfg, rs[|rs| - 1] + [e])
    ensures GoodRanges(store, cfg, Append(rs, e))
  {
    var rs' := Append(rs, e);
    assert forall k | 0 <= k < |rs| - 1 :: rs'[k] == rs[k];
  }

  lemma AppendIds(rs: seq<PartsRange>, e: PartInfo, start: nat)
    requires start < |rs|
    ensures Append(rs, e)[..start] == rs[..start]
    ensures RangesIds(Append(rs, e)[start..]) == RangesIds(rs[start..]) + [e.data]
  {
    var n := |rs| - 1;
    var rs' := Append(rs, e);
    var mid := rs[start..n];
    assert rs'[start..] == mid + [rs[n] + [e]];
    assert rs[start..] == mid + [rs[n]];
    calc {
      RangesIds(rs'[start..]);
      { RangesIdsAppendRange(mid, rs[n] + [e]); }
      RangesIds(mid) + Ids(rs[n] + [e]);
      { IdsAppend(rs[n], e); }
      RangesIds(mid) + (Ids(rs[n]) + [e.data]);
      (RangesIds(mid) + Ids(rs[n])) + [e.data];
      { RangesIdsAppendRange(mid, rs[n]); }
      RangesIds(rs[start..]) + [e.data];
    }
  }

  lemma PushKeeps(store: seq<PartModel>, cfg: ScanConfig, rs: seq<PartsRange>, start: nat)
    requires ValidStore(store) && GoodRanges(store, cfg, rs) && start <= |rs|
    requires rs == [] || rs[|rs| - 1] != []
    ensures GoodRanges(store, cfg, rs + [[]])
    ensures TotalLength(rs + [[]]) == TotalLength(rs)
    ensures (rs + [[]])[..start] == rs[..start]
    ensures RangesIds((rs + [[]])[start..]) == RangesIds(rs[start..])
  {
    PushGood(store, cfg, rs);
    TotalLengthAppend(rs, []);
    PushIds(rs, start);
  }

  lemma PushGood(store: seq<PartModel>, cfg: ScanConfig, rs: seq<PartsRange>)
    requires ValidStore(store) && GoodRanges(store, cfg, rs)
    requires rs == [] || rs[|rs| - 1] != []
    ensures GoodRanges(store, cfg, rs + [[]])
  {
    var rs' := rs + [[]];
    assert forall k | 0 <= k < |rs| :: rs'[k] == rs[k];
    assert GoodRange(store, cfg, []);
  }

  lemma PushIds(rs: seq<PartsRange>, start: nat)
    requires start <= |rs|
    ensures (rs + [[]])[..start] == rs[..start]
    ensures RangesIds((rs + [[]])[start..]) == RangesIds(rs[start..])
  {
    assert (rs + [[]])[start..] == rs[start..] + [[]];
    RangesIdsAppendRange(rs[start..], []);
  }

  // ---------------------------------------------------------------------
  // The reference definition of one pass: each step of the range loop as a
  // function of the cursors before it.

  /** The state of the range loop: the range list, the partition of the open
      frame (`prev_partition_id`) and the previous part admitted to the open
      range (`prev_part`). */
  datatype ScanCursor = ScanCursor(ranges: seq<PartsRange>, prevPartition: Option<string>, prevPart: Option<PartId>)

  /** Once a frame is open the range list is not empty. */
  predicate Opened(c: ScanCursor)
  {
    c.prevPartition.Some? ==> c.ranges != []
  }

  /** `part` starts a new partition frame: there is no frame yet, the
      partition changes, or in strict mode the last range is full. */
  predicate OpensFrame(store: seq<PartModel>, cfg: ScanConfig, c: ScanCursor, part: PartId)
    requires part < |store|
  {
    || c.prevPartition.None?
    || store[part].partitionId != c.prevPartition.value
    || (!cfg.nonadjacent && c.ranges != [] && |Last(c.ranges)| >= cfg.maxPartsToBreak)
  }

  /** A new empty range is pushed unless the last one is still empty. */
  function PushIfUsed(rs: seq<PartsRange>): (r: seq<PartsRange>)
    ensures r != [] && Last(r) == []
  {
    if rs == [] || Last(rs) != [] then rs + [[]] else rs
  }

  /** The first half of an iteration: opening a frame resets the previous part. */
  function OpenStep(store: seq<PartModel>, cfg: ScanConfig, c: ScanCursor, part: PartId): (c': ScanCursor)
    requires part < |store| && Opened(c)
    ensures c'.ranges != [] && c'.prevPartition == Some(store[part].partitionId)
  {
    if OpensFrame(store, cfg, c, part) then ScanCursor(PushIfUsed(c.ranges), Some(store[part].partitionId), None)
    else c
  }

  /** The second half: the new cursors and whether `part` is admitted. A
      part with no previous part is admitted when the oracle accepts it on
      its own, into a fresh range; a part that may follow its previous part
      joins the open range; otherwise the previous part is forgotten and the
      part starts a new range if the oracle accepts it on its own. */
  function ChooseStep(cfg: ScanConfig, c: ScanCursor, part: PartId): (ScanCursor, bool)
    requires c.ranges != []
  {
    match c.prevPart
    case None =>
      if !cfg.canMerge(None, part) then (c, false) else (c.(ranges := PushIfUsed(c.ranges)), true)
    case Some(prev) =>
      if cfg.canMerge(Some(prev), part) then (c, true)
      else if !cfg.canMerge(None, part) then (c.(prevPart := None), false)
      else (c.(ranges := c.ranges + [[]], prevPart := None), true)
  }

  /** One iteration of the range loop for `part`: an admitted part's record
      is appended to the last range and becomes the previous part. */
  ghost function Step(store: seq<PartModel>, cfg: ScanConfig, c: ScanCursor, part: PartId): (c': ScanCursor)
    requires ValidStore(store) && part < |store| && Opened(c)
    ensures Opened(c') && c'.prevPartition == Some(store[part].partitionId)
  {
    var o := OpenStep(store, cfg, c, part);
    var (ch, admit) := ChooseStep(cfg, o, part);
    if admit then ch.(ranges := Append(ch.ranges, PartInfoOf(store, part, cfg.now)), prevPart := Some(part))
    else ch
  }

  /** The range loop over `xs` from the cursors `c`. */
  ghost function BuildRanges(store: seq<PartModel>, cfg: ScanConfig, c: ScanCursor, xs: seq<PartId>): (c': ScanCursor)
    requires ValidStore(store) && AllIn(store, xs) && Opened(c)
    ensures Opened(c')
    decreases |xs|
  {
    if xs == [] then c
    else
      var n := |xs| - 1;
      assert AllIn(store, xs[..n]);
      Step(store, cfg, BuildRanges(store, cfg, c, xs[..n]), xs[n])
  }

  /** A part that may follow the previous part of its frame joins the open
      range, even when the oracle would reject it on its own. */
  lemma StepFollows(store: seq<PartModel>, cfg: ScanConfig, c: ScanCursor, part: PartId)
    requires ValidStore(store) && part < |store| && Opened(c)
    requires !OpensFrame(store, cfg, c, part) && c.prevPart.Some? && cfg.canMerge(c.prevPart, part)
    ensures Step(store, cfg, c, part) == ScanCursor(Append(c.ranges, PartInfoOf(store, part, cfg.now)),
                                                    c.prevPartition, Some(part))
  {
  }

  /** A part the oracle rejects both after its previous part and on its own
      leaves the range list as it was. */
  lemma StepSkips(store: seq<PartModel>, cfg: ScanConfig, c: ScanCursor, part: PartId)
    requires ValidStore(store) && part < |store| && Opened(c)
    requires !cfg.canMerge(None, part)
    requires c.prevPart.Some? && !OpensFrame(store, cfg, c, part) ==> !cfg.canMerge(c.prevPart, part)
    ensures Step(store, cfg, c, part).ranges == OpenStep(store, cfg, c, part).ranges
    ensures Step(store, cfg, c, part).prevPart.None?
  {
  }

  /** What the loop of ScanRange keeps about the range list and its cursors:
      the previous partition and the previous part admitted to the open range. */
  ghost predicate Cursor(store: seq<PartModel>, cfg: ScanConfig, ranges: seq<PartsRange>, start: nat,
                         prevPartition: Option<string>, prevPart: Option<PartId>)
    requires ValidStore(store)
  {
    && GoodRanges(store, cfg, ranges)
    && start <= |ranges|
    && (prevPartition.Some? ==> start < |ranges|)
    && (prevPartition.Some? && Last(ranges) != [] ==> store[Last(ranges)[0].data].partitionId == prevPartition.value)
    && (prevPart.Some? ==> prevPartition.Some? && Last(ranges) != [] && Last(Last(ranges)).data == prevPart.value)
  }

  /** The first half of one iteration of the range loop for `part`: a new
      range is opened when the partition changes or, in strict mode, when the
      open range is full; the previous-part cursor is then reset. */
  method OpenRange(store: seq<PartModel>, cfg: ScanConfig, ranges: seq<PartsRange>, ghost start: nat,
                   prevPartition: Option<string>, prevPart: Option<PartId>, part: PartId)
    returns (ranges': seq<PartsRange>, prevPartition': Option<string>, prevPart': Option<PartId>)
    requires ValidStore(store) && part < |store|
    requires Cursor(store, cfg, ranges, start, prevPartition, prevPart)
    requires prevPartition.None? ==> start == |Trim(ranges)|
    ensures Cursor(store, cfg, ranges', start, prevPartition', prevPart')
    ensures TotalLength(ranges') == TotalLength(ranges)
    ensures prevPartition' == Some(store[part].partitionId)
    ensures ranges'[..start] == ranges[..start]
    ensures RangesIds(ranges'[start..]) == RangesIds(ranges[start..])
    ensures prevPart'.Some? && !cfg.nonadjacent ==> |Last(ranges')| < SplitBound(cfg.maxPartsToBreak)
    ensures ScanCursor(ranges', prevPartition', prevPart') == OpenStep(store, cfg, ScanCursor(ranges, prevPartition, prevPart), part)
  {
    ranges', prevPartition', prevPart' := ranges, prevPartition, prevPart;
    var partitionId := store[part].partitionId;
    var needSplit := !cfg.nonadjacent && ranges' != [] && |Last(ranges')| >= cfg.maxPartsToBreak;
    if prevPartition'.None? || partitionId != prevPartition'.value || needSplit {
      if ranges' == [] || Last(ranges') != [] {
        PushKeeps(store, cfg, ranges', start);
        ranges' := ranges' + [[]];
      }
      prevPartition' := Some(partitionId);
      prevPart' := None;
    }
  }

  /** The second half: decides whether `part` is admitted to the open range,
      opening a fresh one when it cannot follow the previous part. */
  method ChooseRange(store: seq<PartModel>, cfg: ScanConfig, ranges: seq<PartsRange>, ghost start: nat,
                     prevPartition: Option<string>, prevPart: Option<PartId>, part: PartId)
    returns (ranges': seq<PartsRange>, prevPart': Option<PartId>, admit: bool)
    requires ValidStore(store) && part < |store|
    requires Cursor(store, cfg, ranges, start, prevPartition, prevPart)
    requires prevPartition == Some(store[part].partitionId)
    requires prevPart.Some? && !cfg.nonadjacent ==> |Last(ranges)| < SplitBound(cfg.maxPartsToBreak)
    ensures Cursor(store, cfg, ranges', start, prevPartition, prevPart')
    ensures TotalLength(ranges') == TotalLength(ranges)
    ensures ranges'[..start] == ranges[..start]
    ensures RangesIds(ranges'[start..]) == RangesIds(ranges[start..])
    ensures cfg.canMerge(None, part) ==> admit
    ensures admit && Last(ranges') == [] ==> cfg.canMerge(None, part)
    ensures admit && Last(ranges') != [] ==> cfg.canMerge(Some(Last(Last(ranges')).data), part)
    ensures admit && !cfg.nonadjacent ==> |Last(ranges')| < SplitBound(cfg.maxPartsToBreak)
    ensures prevPart.Some? && cfg.canMerge(prevPart, part) ==> admit && ranges' == ranges && prevPart' == prevPart
    ensures (ScanCursor(ranges', prevPartition, prevPart'), admit) == ChooseStep(cfg, ScanCursor(ranges, prevPartition, prevPart), part)
  {
    ranges', prevPart' := ranges, prevPart;
    admit := false;
    if prevPart'.None? {
      if !cfg.canMerge(None, part) {
        return;
      }
      if Last(ranges') != [] {
        PushKeeps(store, cfg, ranges', start);
        ranges' := ranges' + [[]];
      }
    } else {
      if !cfg.canMerge(prevPart', part) {
        prevPart' := None;
        assert Last(ranges') != [];
        if !cfg.canMerge(None, part) {
          return;
        }
        PushKeeps(store, cfg, ranges', start);
        ranges' := ranges' + [[]];
      }
    }
    admit := true;
  }

  /** Appends the record of `part` to the open range. */
  method AdmitPart(store: seq<PartModel>, cfg: ScanConfig, ranges: seq<PartsRange>, count: nat, ghost start: nat,
                   prevPartition: Option<string>, prevPart: Option<PartId>, part: PartId)
    returns (ranges': seq<PartsRange>, count': nat)
    requires ValidStore(store) && part < |store|
    requires Cursor(store, cfg, ranges, start, prevPartition, prevPart) && count == TotalLength(ranges)
    requires prevPartition == Some(store[part].partitionId)
    requires Last(ranges) == [] ==> cfg.canMerge(None, part)
    requires Last(ranges) != [] ==> cfg.canMerge(Some(Last(Last(ranges)).data), part)
    requires !cfg.nonadjacent ==> |Last(ranges)| < SplitBound(cfg.maxPartsToBreak)
    ensures Cursor(store, cfg, ranges', start, prevPartition, Some(part)) && count' == TotalLength(ranges')
    ensures ranges'[..start] == ranges[..start]
    ensures RangesIds(ranges'[start..]) == RangesIds(ranges[start..]) + [part]
    ensures ranges' == Append(ranges, PartInfoOf(store, part, cfg.now))
  {
    var info := ComputePartInfo(store, part, cfg.now);
    assert info.data == part;
    count' := count + 1;
    ghost var open := Last(ranges);
    ExtendRange(store, cfg, open, info);
    AppendKeeps(store, cfg, ranges, info, start);
    ranges' := Append(ranges, info);
    assert Last(ranges') == open + [info];
    assert Last(ranges')[0] == if open == [] then info else open[0];
  }

  lemma TrimmedTail(rs: seq<PartsRange>)
    ensures RangesIds(rs[|Trim(rs)|..]) == []
  {
    var t := rs[|Trim(rs)|..];
    assert t == [] || t == [[]];
    assert RangesIds([[]]) == RangesIds([]) + Ids([]);
  }

  /** Every part of `xs[..i]` that the oracle accepts on its own is listed in `ids`. */
  ghost predicate Covered(cfg: ScanConfig, xs: seq<PartId>, i: nat, ids: seq<PartId>)
    requires i <= |xs|
  {
    forall j | 0 <= j < i && cfg.canMerge(None, xs[j]) :: xs[j] in ids
  }

  lemma CoveredExtend(cfg: ScanConfig, xs: seq<PartId>, i: nat, ids: seq<PartId>, admit: bool)
    requires i < |xs| && Covered(cfg, xs, i, ids)
    requires cfg.canMerge(None, xs[i]) ==> admit
    ensures Covered(cfg, xs, i + 1, if admit then ids + [xs[i]] else ids)
  {
    var ids' := if admit then ids + [xs[i]] else ids;
    forall j | 0 <= j < i + 1 && cfg.canMerge(None, xs[j])
      ensures xs[j] in ids'
    {
      if j < i {
        assert xs[j] in ids;
      }
    }
  }

  /** Every record of the range refers to a part of `xs`. */
  ghost predicate RangeWithin(r: PartsRange, xs: seq<PartId>)
  {
    forall k | 0 <= k < |r| :: r[k].data in xs
  }

  lemma {:induction false} RangesIdsLength(rs: seq<PartsRange>)
    ensures |RangesIds(rs)| == TotalLength(rs)
    decreases |rs|
  {
    if rs != [] {
      RangesIdsLength(rs[..|rs| - 1]);
    }
  }

  lemma {:induction false} RangesIdsSplit(rs: seq<PartsRange>, i: nat)
    requires i <= |rs|
    ensures RangesIds(rs) == RangesIds(rs[..i]) + RangesIds(rs[i..])
    decreases |rs|
  {
    if i < |rs| {
      var n := |rs| - 1;
      var init := rs[..n];
      var tail := init[i..];
      RangesIdsSplit(init, i);
      assert init[..i] == rs[..i];
      assert rs[i..] == tail + [rs[n]];
      RangesIdsAppendRange(tail, rs[n]);
      calc {
        RangesIds(rs);
        RangesIds(init) + Ids(rs[n]);
        (RangesIds(rs[..i]) + RangesIds(tail)) + Ids(rs[n]);
        RangesIds(rs[..i]) + (RangesIds(tail) + Ids(rs[n]));
        RangesIds(rs[..i]) + RangesIds(rs[i..]);
      }
    } else {
      assert rs[..i] == rs;
      assert rs[i..] == [];
    }
  }

  lemma RangesIdsTrim(rs: seq<PartsRange>)
    ensures RangesIds(Trim(rs)) == RangesIds(rs)
  {
    if |Trim(rs)| < |rs| {
      assert Ids([]) == [];
    }
  }

  /** The id of every record of every range is listed by RangesIds. */
  lemma RangeMemberInIds(rs: seq<PartsRange>, k: nat, i: nat)
    requires k < |rs| && i < |rs[k]|
    ensures rs[k][i].data in RangesIds(rs)
  {
    RangesIdsSplit(rs, k + 1);
    assert rs[..k + 1][..k] == rs[..k];
    assert Ids(rs[k])[i] == rs[k][i].data;
  }

  /** The ranges from `start` on only hold parts of `xs` when their ids form a
      subsequence of `xs`. */
  lemma NewRangesWithin(rs: seq<PartsRange>, start: nat, xs: seq<PartId>)
    requires start <= |rs| && IsSubsequence(RangesIds(rs[start..]), xs)
    ensures forall k | start <= k < |rs| :: RangeWithin(rs[k], xs)
  {
    SubsequenceMembers(RangesIds(rs[start..]), xs);
    forall k, i | start <= k < |rs| && 0 <= i < |rs[k]|
      ensures rs[k][i].data in xs
    {
      assert rs[start..][k - start] == rs[k];
      RangeMemberInIds(rs[start..], k - start, i);
    }
  }

  /** The loop over one group of parts (`range_before_split`), continuing the
      shared range list. The ranges already complete are left alone, and the
      new ranges (those from index |Trim(ranges0)| on) list a subsequence of
      the group that contains every part the oracle accepts on its own. */
  method ScanRange(store: seq<PartModel>, cfg: ScanConfig, ranges0: seq<PartsRange>, count0: nat, xs: seq<PartId>)
    returns (ranges: seq<PartsRange>, count: nat)
    requires ValidStore(store) && AllIn(store, xs)
    requires GoodRanges(store, cfg, ranges0) && count0 == TotalLength(ranges0)
    ensures GoodRanges(store, cfg, ranges) && count == TotalLength(ranges)
    ensures |Trim(ranges0)| <= |ranges| && ranges[..|Trim(ranges0)|] == Trim(ranges0)
    ensures xs != [] ==> |Trim(ranges0)| < |ranges|
    ensures xs == [] ==> ranges == ranges0
    ensures RangesIds(ranges) == RangesIds(ranges0) + RangesIds(ranges[|Trim(ranges0)|..])
    ensures forall k | |Trim(ranges0)| <= k < |ranges| :: RangeWithin(ranges[k], xs)
    ensures IsSubsequence(RangesIds(ranges[|Trim(ranges0)|..]), xs)
    ensures forall i | 0 <= i < |xs| && cfg.canMerge(None, xs[i]) :: xs[i] in RangesIds(ranges[|Trim(ranges0)|..])
    ensures ranges == BuildRanges(store, cfg, ScanCursor(ranges0, None, None), xs).ranges
  {
    ranges, count := ranges0, count0;
    var prevPartition: Option<string> := None;
    var prevPart: Option<PartId> := None;
    TrimmedTail(ranges0);
    ghost var ids: seq<PartId> := [];
    for i := 0 to |xs|
      invariant ScanState(store, cfg, ranges0, xs, i, ranges, count, prevPartition, prevPart, ids)
    {
      ranges, count, prevPartition, prevPart, ids := ScanNext(store, cfg, ranges0, xs, i, ranges, count, prevPartition, prevPart, ids);
    }
    assert xs[..|xs|] == xs;
    FinishScan(ranges0, ranges, xs);
  }

  /** The loop invariant of ScanRange after the first `i` parts of `xs`, with
      `ids` the ids placed so far. */
  ghost predicate ScanState(store: seq<PartModel>, cfg: ScanConfig, ranges0: seq<PartsRange>, xs: seq<PartId>, i: nat,
                            ranges: seq<PartsRange>, count: nat, prevPartition: Option<string>, prevPart: Option<PartId>,
                            ids: seq<PartId>)
    requires ValidStore(store) && AllIn(store, xs)
  {
    var start := |Trim(ranges0)|;
    && i <= |xs|
    && Cursor(store, cfg, ranges, start, prevPartition, prevPart) && count == TotalLength(ranges)
    && ranges[..start] == Trim(ranges0)
    && (prevPartition.None? ==> i == 0)
    && (i == 0 ==> ranges == ranges0)
    && ids == RangesIds(ranges[start..])
    && IsSubsequence(ids, xs[..i])
    && Covered(cfg, xs, i, ids)
    && Replays(store, cfg, ranges0, xs, i, ScanCursor(ranges, prevPartition, prevPart))
  }

  /** The cursors after the first `i` parts of `xs` are those of the reference pass. */
  ghost predicate Replays(store: seq<PartModel>, cfg: ScanConfig, ranges0: seq<PartsRange>, xs: seq<PartId>, i: nat,
                          c: ScanCursor)
    requires ValidStore(store) && AllIn(store, xs) && i <= |xs|
  {
    assert AllIn(store, xs[..i]);
    c == BuildRanges(store, cfg, ScanCursor(ranges0, None, None), xs[..i])
  }

  /** One turn of the loop of ScanRange, with its bookkeeping. */
  method ScanNext(store: seq<PartModel>, cfg: ScanConfig, ghost ranges0: seq<PartsRange>, xs: seq<PartId>, i: nat,
                  ranges: seq<PartsRange>, count: nat, prevPartition: Option<string>, prevPart: Option<PartId>,
                  ghost ids: seq<PartId>)
    returns (ranges': seq<PartsRange>, count': nat, prevPartition': Option<string>, prevPart': Option<PartId>,
             ghost ids': seq<PartId>)
    requires ValidStore(store) && AllIn(store, xs) && i < |xs|
    requires ScanState(store, cfg, ranges0, xs, i, ranges, count, prevPartition, prevPart, ids)
    ensures ScanState(store, cfg, ranges0, xs, i + 1, ranges', count', prevPartition', prevPart', ids')
    ensures ScanCursor(ranges', prevPartition', prevPart') == Step(store, cfg, ScanCursor(ranges, prevPartition, prevPart), xs[i])
  {
    ghost var start := |Trim(ranges0)|;
    assert xs[..i + 1] == xs[..i] + [xs[i]];
    SubsequenceExtend(ids, xs[..i], xs[i]);
    var part := xs[i];
    var admit;
    ranges', prevPartition', prevPart' := OpenRange(store, cfg, ranges, start, prevPartition, prevPart, part);
    ranges', prevPart', admit := ChooseRange(store, cfg, ranges', start, prevPartition', prevPart', part);
    CoveredExtend(cfg, xs, i, ids, admit);
    count', ids' := count, ids;
    if admit {
      ranges', count' := AdmitPart(store, cfg, ranges', count', start, prevPartition', prevPart', part);
      prevPart' := Some(part);
      ids' := ids' + [part];
    }
  }

  lemma FinishScan(ranges0: seq<PartsRange>, ranges: seq<PartsRange>, xs: seq<PartId>)
    requires |Trim(ranges0)| <= |ranges| && ranges[..|Trim(ranges0)|] == Trim(ranges0)
    requires IsSubsequence(RangesIds(ranges[|Trim(ranges0)|..]), xs)
    ensures RangesIds(ranges) == RangesIds(ranges0) + RangesIds(ranges[|Trim(ranges0)|..])
    ensures forall k | |Trim(ranges0)| <= k < |ranges| :: RangeWithin(ranges[k], xs)
  {
    RangesIdsSplit(ranges, |Trim(ranges0)|);
    RangesIdsTrim(ranges0);
    NewRangesWithin(ranges, |Trim(ranges0)|, xs);
  }
}
