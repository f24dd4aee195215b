/** selectPartsToMerge: plans merges for a table by grouping its parts,
    building candidate ranges, configuring the merge selector and turning the
    selector's choice into lists of parts to merge. The selector, the
    eligibility callback, the clustering-hash check and the part comparator are
    parameters; their code is not part of this model. */
module SelectPartsToMerge {
  import opened Wrappers
  import opened MergeParts
  import opened Seqs
  import opened PartGrouping
  import opened RangeBuilder
  import opened PartOrder
  import opened Orders

  /** std::numeric_limits<UInt32>::max(). */
  const UInt32Max: nat := 0xFFFF_FFFF

  datatype Decision = Selected | CannotSelect | NothingToMerge

  /** The table-level settings the planner reads. */
  datatype TableSettings = TableSettings(
    selectNonadjacentParts: bool,        // cnch_merge_select_nonadjacent_parts
    maxPartsToMerge: nat,                // cnch_merge_max_parts_to_merge
    maxPartsToMergeAtOnce: nat,          // max_parts_to_merge_at_once
    maxTotalRowsToMerge: nat,            // cnch_merge_max_total_rows_to_merge
    expectedPartsNumber: int,            // cnch_merge_expected_parts_number
    writeAmplificationOptimizeThreshold: nat,
    mergeWithTtlTimeout: nat)

  /** What the planner asks of the table. `hasTaskStats` stands for the
      background-task statistics lookup returning a record. */
  datatype Table = Table(isBucketTable: bool, hasUniqueKey: bool, settings: TableSettings, hasTaskStats: bool)

  /** The caller's settings for one planning pass. */
  datatype SelectSettings = SelectSettings(
    maxTotalSizeToMerge: nat,
    numDefaultWorkers: nat,
    aggressive: bool,
    enableBatchSelect: bool,
    final: bool)

  /** The merge selector's settings. */
  datatype SelectorSettings = SelectorSettings(
    maxPartsToMergeBase: nat,
    minPartsToMergeBase: nat,
    maxTotalRowsToMerge: nat,
    enableBatchSelect: bool,
    final: bool,
    maxAgeForSinglePartChain: nat,
    selectNonadjacentPartsAllowed: bool)

  /** The constructor arguments of the adaptive controller. */
  datatype AdaptiveController = AdaptiveController(
    isBucketTable: bool,
    expectedPartsNumber: nat,
    writeAmplificationOptimizeThreshold: nat,
    maxPartsToMergeBase: nat)

  type Selector = (seq<PartsRange>, nat, SelectorSettings, Option<AdaptiveController>) -> seq<PartsRange>

  // ---------------------------------------------------------------------
  // Selector settings

  /** The row cap of the selector. For a table with a unique key row ids must
      fit in four bytes, so a cap of 0 or one above UInt32 max becomes UInt32 max. */
  function RowCap(hasUniqueKey: bool, cap: nat): (r: nat)
    ensures !hasUniqueKey ==> r == cap
    ensures hasUniqueKey ==> 0 < r <= UInt32Max
    ensures hasUniqueKey && 0 < cap <= UInt32Max ==> r == cap
    ensures r != cap ==> r == UInt32Max
  {
    if hasUniqueKey && !(0 < cap <= UInt32Max) then UInt32Max else cap
  }

  /** Clamping the row cap a second time changes nothing. */
  lemma RowCapIdempotent(hasUniqueKey: bool, cap: nat)
    ensures RowCap(hasUniqueKey, RowCap(hasUniqueKey, cap)) == RowCap(hasUniqueKey, cap)
  {
  }

  function Min(a: nat, b: nat): (m: nat)
    ensures m <= a && m <= b && (m == a || m == b)
  {
    if a < b then a else b
  }

  /** The expected parts number the controller is built with: 0 means the number of default workers. */
  function EffectiveExpectedParts(expected: int, numDefaultWorkers: nat): int
  {
    if expected == 0 then numDefaultWorkers else expected
  }

  /** The adaptive controller is attached exactly when the expected parts
      number is not negative, the pass is neither aggressive nor final, the
      table has task statistics and the effective expected parts number is positive. */
  predicate AdaptiveAttached(table: Table, s: SelectSettings, aggressive: bool)
  {
    && table.settings.expectedPartsNumber >= 0
    && !aggressive && !s.final
    && table.hasTaskStats
    && EffectiveExpectedParts(table.settings.expectedPartsNumber, s.numDefaultWorkers) > 0
  }

  /** The selector settings the planner derives from the configured defaults
      `config`, the table and the pass settings. */
  ghost predicate SettingsConfigured(ms: SelectorSettings, config: SelectorSettings, table: Table,
                                     s: SelectSettings, aggressive: bool)
  {
    && ms.maxPartsToMergeBase == Min(table.settings.maxPartsToMerge, table.settings.maxPartsToMergeAtOnce)
    && ms.maxTotalRowsToMerge == RowCap(table.hasUniqueKey, table.settings.maxTotalRowsToMerge)
    && ms.minPartsToMergeBase == (if aggressive then 1 else config.minPartsToMergeBase)
    && ms.enableBatchSelect == s.enableBatchSelect
    && ms.final == s.final
    && ms.maxAgeForSinglePartChain == table.settings.mergeWithTtlTimeout
    && ms.selectNonadjacentPartsAllowed == table.settings.selectNonadjacentParts
  }

  /** The controller is present exactly when AdaptiveAttached holds, and is
      then built from the table, the effective expected parts number and the
      selector's maximum parts base. */
  ghost predicate ControllerConfigured(controller: Option<AdaptiveController>, table: Table, s: SelectSettings,
                                       aggressive: bool, maxPartsToMergeBase: nat)
  {
    && (controller.Some? <==> AdaptiveAttached(table, s, aggressive))
    && (controller.Some? ==> controller.value == AdaptiveController(
          table.isBucketTable,
          EffectiveExpectedParts(table.settings.expectedPartsNumber, s.numDefaultWorkers) as nat,
          table.settings.writeAmplificationOptimizeThreshold,
          maxPartsToMergeBase))
  }

  /** Loads the defaults and overrides them from the table and the pass settings. */
  method ConfigureSelector(config: SelectorSettings, table: Table, s: SelectSettings, aggressive: bool)
    returns (ms: SelectorSettings)
    ensures SettingsConfigured(ms, config, table, s, aggressive)
  {
    ms := config;
    ms := ms.(maxPartsToMergeBase := Min(table.settings.maxPartsToMerge, table.settings.maxPartsToMergeAtOnce));
    ms := ms.(maxTotalRowsToMerge := table.settings.maxTotalRowsToMerge);
    if table.hasUniqueKey {
      if !(0 < ms.maxTotalRowsToMerge <= UInt32Max) {
        ms := ms.(maxTotalRowsToMerge := UInt32Max);
      }
    }
    ms := ms.(enableBatchSelect := s.enableBatchSelect);
    if aggressive {
      ms := ms.(minPartsToMergeBase := 1);
    }
    ms := ms.(final := s.final);
    ms := ms.(maxAgeForSinglePartChain := table.settings.mergeWithTtlTimeout);
    ms := ms.(selectNonadjacentPartsAllowed := table.settings.selectNonadjacentParts);
  }

  /** Decides whether to attach the adaptive controller, and with what. */
  method ChooseController(table: Table, s: SelectSettings, aggressive: bool, maxPartsToMergeBase: nat)
    returns (controller: Option<AdaptiveController>)
    ensures ControllerConfigured(controller, table, s, aggressive, maxPartsToMergeBase)
  {
    controller := None;
    var expected := table.settings.expectedPartsNumber;
    if expected >= 0 && !aggressive && !s.final {
      if table.hasTaskStats {
        if expected == 0 {
          expected := s.numDefaultWorkers;
        }
        if expected > 0 {
          controller := Some(AdaptiveController(
            table.isBucketTable, expected, table.settings.writeAmplificationOptimizeThreshold, maxPartsToMergeBase));
        }
      }
    }
  }

  /** A bucket table always plans aggressively, so the controller is never
      attached for it, and its `isBucketTable` argument is false whenever it is. */
  lemma BucketTablesSkipController(table: Table, s: SelectSettings, ms: SelectorSettings,
                                   controller: Option<AdaptiveController>, config: SelectorSettings)
    requires SettingsConfigured(ms, config, table, s, s.aggressive || table.isBucketTable)
    requires ControllerConfigured(controller, table, s, s.aggressive || table.isBucketTable, ms.maxPartsToMergeBase)
    ensures table.isBucketTable ==> controller.None? && ms.minPartsToMergeBase == 1
    ensures controller.Some? ==> !controller.value.isBucketTable && controller.value.expectedPartsNumber > 0
  {
  }

  // ---------------------------------------------------------------------
  // Post-processing of the selector's choice

  /** A range holding one part without previous versions: merging it would
      merge a part with itself. */
  predicate LoneBasePart(r: PartsRange)
  {
    |r| == 1 && r[0].chainDepth == 0
  }

  /** The parts emitted for one chosen range: in selector order, or sorted by
      the comparator when non-adjacent parts may be merged. */
  function EmitRange(r: PartsRange, nonadjacent: bool, less: (PartId, PartId) -> bool): seq<PartId>
  {
    if nonadjacent then SortParts(Ids(r), less) else Ids(r)
  }

  /** The part lists appended to `res` for the selector's output `out`. */
  function PostProcessed(out: seq<PartsRange>, nonadjacent: bool, less: (PartId, PartId) -> bool): (pp: seq<seq<PartId>>)
    ensures |pp| <= |out|
  {
    if out == [] then []
    else
      var r := out[|out| - 1];
      PostProcessed(out[..|out| - 1], nonadjacent, less) + if LoneBasePart(r) then [] else [EmitRange(r, nonadjacent, less)]
  }

  /** The lists of all chosen ranges, skipped or not. */
  function EmitAll(out: seq<PartsRange>, nonadjacent: bool, less: (PartId, PartId) -> bool): seq<seq<PartId>>
  {
    if out == [] then [] else EmitAll(out[..|out| - 1], nonadjacent, less) + [EmitRange(out[|out| - 1], nonadjacent, less)]
  }

  /** An emitted list holds exactly the parts of its range; sorted when
      non-adjacent parts may be merged, in selector order otherwise. */
  lemma EmitRangeSpec(r: PartsRange, nonadjacent: bool, less: (PartId, PartId) -> bool)
    requires StrictWeakOrder(less)
    ensures multiset(EmitRange(r, nonadjacent, less)) == multiset(Ids(r))
    ensures nonadjacent ==> Sorted(EmitRange(r, nonadjacent, less), less)
    ensures !nonadjacent ==> EmitRange(r, nonadjacent, less) == Ids(r)
  {
    if nonadjacent {
      SortPartsSorted(Ids(r), less);
    }
  }

  /** The emitted lists are those of the chosen ranges that are not lone base
      parts, in the selector's order: a subsequence of the lists of all chosen
      ranges that contains the list of every range that is not skipped. */
  lemma {:induction false} PostProcessedSpec(out: seq<PartsRange>, nonadjacent: bool, less: (PartId, PartId) -> bool)
    ensures IsSubsequence(PostProcessed(out, nonadjacent, less), EmitAll(out, nonadjacent, less))
    ensures forall j | 0 <= j < |out| && !LoneBasePart(out[j]) ::
      EmitRange(out[j], nonadjacent, less) in PostProcessed(out, nonadjacent, less)
    decreases |out|
  {
    if out != [] {
      var n := |out| - 1;
      var init := out[..n];
      PostProcessedSpec(init, nonadjacent, less);
      var pp0 := PostProcessed(init, nonadjacent, less);
      var pp := PostProcessed(out, nonadjacent, less);
      var e := EmitRange(out[n], nonadjacent, less);
      var all0 := EmitAll(init, nonadjacent, less);
      assert EmitAll(out, nonadjacent, less) == all0 + [e];
      SubsequenceExtend(pp0, all0, e);
      if LoneBasePart(out[n]) {
        assert pp == pp0 + [];
        assert pp == pp0;
      } else {
        assert pp == pp0 + [e];
      }
      forall j | 0 <= j < |out| && !LoneBasePart(out[j])
        ensures EmitRange(out[j], nonadjacent, less) in pp
      {
        if j < n {
          assert init[j] == out[j];
          assert EmitRange(init[j], nonadjacent, less) in pp0;
        }
      }
    }
  }

  /** When every chosen range is a lone base part nothing is emitted, although
      the pass still reports SELECTED. */
  lemma {:induction false} AllLoneEmitsNothing(out: seq<PartsRange>, nonadjacent: bool, less: (PartId, PartId) -> bool)
    requires forall j | 0 <= j < |out| :: LoneBasePart(out[j])
    ensures PostProcessed(out, nonadjacent, less) == []
    decreases |out|
  {
    if out != [] {
      var init := out[..|out| - 1];
      assert forall j | 0 <= j < |init| :: init[j] == out[j];
      AllLoneEmitsNothing(init, nonadjacent, less);
    }
  }

  /** Copies the part of every record of a chosen range, in order. */
  method CopyParts(range: PartsRange) returns (emplaced: seq<PartId>)
    ensures emplaced == Ids(range)
  {
    emplaced := [];
    for j := 0 to |range|
      invariant emplaced == Ids(range[..j])
    {
      assert range[..j + 1][..j] == range[..j];
      emplaced := emplaced + [range[j].data];
    }
    assert range[..|range|] == range;
  }

  /** The loop over the selector's output: skips lone base parts, copies the
      part of every record of the other ranges and, when non-adjacent parts may
      be merged, sorts the copy; each list is appended to `res`. */
  method AppendSelectedRanges(out: seq<PartsRange>, nonadjacent: bool, less: (PartId, PartId) -> bool,
                              res0: seq<seq<PartId>>)
    returns (res: seq<seq<PartId>>)
    ensures res == res0 + PostProcessed(out, nonadjacent, less)
  {
    res := res0;
    for i := 0 to |out|
      invariant res == res0 + PostProcessed(out[..i], nonadjacent, less)
    {
      PostProcessedStep(out, i, nonadjacent, less);
      var range := out[i];
      if |range| == 1 {
        if range[0].chainDepth == 0 {
          continue;
        }
      }
      var emplaced := CopyParts(range);
      if nonadjacent {
        emplaced := SortParts(emplaced, less);
      }
      assert emplaced == EmitRange(range, nonadjacent, less);
      res := res + [emplaced];
    }
    assert out[..|out|] == out;
  }

  lemma PostProcessedStep(out: seq<PartsRange>, i: nat, nonadjacent: bool, less: (PartId, PartId) -> bool)
    requires i < |out|
    ensures PostProcessed(out[..i + 1], nonadjacent, less)
         == PostProcessed(out[..i], nonadjacent, less)
            + if LoneBasePart(out[i]) then [] else [EmitRange(out[i], nonadjacent, less)]
  {
    assert out[..i + 1][..i] == out[..i];
  }

  // ---------------------------------------------------------------------
  // Building the ranges of one bucket

  /** All records of the range have the commit key of its first record. */
  ghost predicate SameCommitKey(store: seq<PartModel>, r: PartsRange)
  {
    forall k | 0 <= k < |r| :: r[k].data < |store| && r[0].data < |store|
      && CommitKey(store, r[k].data) == CommitKey(store, r[0].data)
  }

  /** A group of a bucket: its parts lie in the bucket and, when non-adjacent
      parts may be merged, share the commit key of its first part. */
  ghost predicate GroupWithin(store: seq<PartModel>, bucket: seq<PartId>, g: seq<PartId>, nonadjacent: bool)
  {
    forall i | 0 <= i < |g| :: g[i] in bucket && g[i] < |store| && g[0] < |store|
      && (nonadjacent ==> CommitKey(store, g[i]) == CommitKey(store, g[0]))
  }

  /** The groups a bucket is split into: each is a group of the bucket, and
      together they hold every part of the bucket. */
  ghost predicate GroupsOf(store: seq<PartModel>, bucket: seq<PartId>, groups: seq<seq<PartId>>, nonadjacent: bool)
  {
    && (forall j | 0 <= j < |groups| :: GroupWithin(store, bucket, groups[j], nonadjacent))
    && (forall x | x in bucket :: x in Flatten<PartId>(groups))
  }

  /** The commit-time groups of `parts`: each is non-empty and holds, in
      input order, the parts with its key; no two share a key; together they
      hold every part as often as `parts` does. */
  ghost predicate CommitGrouping(store: seq<PartModel>, parts: seq<PartId>, groups: seq<seq<PartId>>)
    requires AllIn(store, parts)
  {
    && (forall j | 0 <= j < |groups| ::
          groups[j] != [] && groups[j] == CommitGroup(store, parts, GroupKey(store, groups[j])))
    && (forall j, j' | 0 <= j < j' < |groups| :: GroupKey(store, groups[j]) != GroupKey(store, groups[j']))
    && (forall x: PartId :: multiset(Flatten<PartId>(groups))[x] == multiset(parts)[x])
  }

  /** How `part_ranges_before_split` splits a bucket: into the bucket alone,
      or into its commit-time groups when non-adjacent parts may be merged. */
  ghost predicate BucketSplit(store: seq<PartModel>, bucket: seq<PartId>, groups: seq<seq<PartId>>, nonadjacent: bool)
  {
    && AllIn(store, bucket)
    && GroupsOf(store, bucket, groups, nonadjacent)
    && (!nonadjacent ==> groups == [bucket])
    && (nonadjacent ==> CommitGrouping(store, bucket, groups))
  }

  /** Every part of every group lies in the store. */
  ghost predicate EachIn(store: seq<PartModel>, groups: seq<seq<PartId>>)
  {
    forall j | 0 <= j < |groups| :: AllIn(store, groups[j])
  }

  /** The reference pass over a list of groups: the range loop over each
      group in turn, from fresh cursors, continuing the range list. */
  ghost function BuildGroups(store: seq<PartModel>, cfg: ScanConfig, ranges0: seq<PartsRange>, groups: seq<seq<PartId>>)
    : seq<PartsRange>
    requires ValidStore(store) && EachIn(store, groups)
    decreases |groups|
  {
    if groups == [] then ranges0
    else
      var n := |groups| - 1;
      assert EachIn(store, groups[..n]) && AllIn(store, groups[n]);
      BuildRanges(store, cfg, ScanCursor(BuildGroups(store, cfg, ranges0, groups[..n]), None, None), groups[n]).ranges
  }

  /** Scanning one more group extends the reference pass by that group. */
  lemma BuildGroupsStep(store: seq<PartModel>, cfg: ScanConfig, ranges0: seq<PartsRange>, groups: seq<seq<PartId>>,
                        gi: nat)
    requires ValidStore(store) && EachIn(store, groups) && gi < |groups|
    ensures EachIn(store, groups[..gi]) && EachIn(store, groups[..gi + 1])
    ensures BuildGroups(store, cfg, ranges0, groups[..gi + 1])
         == BuildRanges(store, cfg, ScanCursor(BuildGroups(store, cfg, ranges0, groups[..gi]), None, None), groups[gi]).ranges
  {
    assert groups[..gi + 1][..gi] == groups[..gi];
  }

  lemma CommitGroupWithin(store: seq<PartModel>, bucket: seq<PartId>, g: seq<PartId>)
    requires AllIn(store, bucket)
    requires g != [] && g == CommitGroup(store, bucket, GroupKey(store, g))
    ensures GroupWithin(store, bucket, g, true)
  {
    CommitGroupMembers(store, bucket, GroupKey(store, g));
    assert g[0] in g;
  }

  lemma CommitGroupsWithin(store: seq<PartModel>, bucket: seq<PartId>, groups: seq<seq<PartId>>)
    requires AllIn(store, bucket)
    requires forall j | 0 <= j < |groups| ::
      groups[j] != [] && groups[j] == CommitGroup(store, bucket, GroupKey(store, groups[j]))
    ensures forall j | 0 <= j < |groups| :: GroupWithin(store, bucket, groups[j], true)
  {
    forall j | 0 <= j < |groups|
      ensures GroupWithin(store, bucket, groups[j], true)
    {
      CommitGroupWithin(store, bucket, groups[j]);
    }
  }

  lemma CoverFromCounts(flat: seq<PartId>, bucket: seq<PartId>)
    requires forall x: PartId :: multiset(flat)[x] == multiset(bucket)[x]
    ensures forall x | x in bucket :: x in flat
  {
    forall x | x in bucket
      ensures x in flat
    {
      assert x in multiset(bucket);
      assert multiset(flat)[x] == multiset(bucket)[x];
    }
  }

  lemma SingleGroupOf(store: seq<PartModel>, bucket: seq<PartId>)
    requires AllIn(store, bucket)
    ensures GroupsOf(store, bucket, [bucket], false)
  {
    assert Flatten<PartId>([bucket]) == Flatten<PartId>([]) + bucket;
  }

  /** What the loop of ScanBucket keeps after the first `gi` groups. */
  ghost predicate BucketState(store: seq<PartModel>, cfg: ScanConfig, ranges0: seq<PartsRange>, bucket: seq<PartId>,
                              groups: seq<seq<PartId>>, gi: nat, ranges: seq<PartsRange>, count: nat)
    requires ValidStore(store) && EachIn(store, groups)
  {
    && gi <= |groups|
    && GroupsReplayed(store, cfg, ranges0, groups, gi, ranges)
    && GoodRanges(store, cfg, ranges) && count == TotalLength(ranges)
    && PrefixKept(ranges0, ranges)
    && NewRangesIn(store, cfg.nonadjacent, ranges0, bucket, ranges)
    && CoversGroups(cfg, groups, gi, ranges)
    && IdsFrom(ranges0, bucket, ranges)
    && IdsKept(ranges0, ranges)
  }

  /** The range list is the reference pass over the first `gi` groups. */
  ghost predicate GroupsReplayed(store: seq<PartModel>, cfg: ScanConfig, ranges0: seq<PartsRange>,
                                 groups: seq<seq<PartId>>, gi: nat, ranges: seq<PartsRange>)
    requires ValidStore(store) && EachIn(store, groups) && gi <= |groups|
  {
    assert EachIn(store, groups[..gi]);
    ranges == BuildGroups(store, cfg, ranges0, groups[..gi])
  }

  /** The closed ranges that were there before the bucket are kept. */
  ghost predicate PrefixKept(ranges0: seq<PartsRange>, ranges: seq<PartsRange>)
  {
    |Trim(ranges0)| <= |Trim(ranges)| && ranges[..|Trim(ranges0)|] == Trim(ranges0)
  }

  /** The ranges opened for the bucket lie in it and, when non-adjacent parts
      may be merged, share one commit key. */
  ghost predicate NewRangesIn(store: seq<PartModel>, nonadjacent: bool, ranges0: seq<PartsRange>, bucket: seq<PartId>,
                              ranges: seq<PartsRange>)
  {
    forall k | |Trim(ranges0)| <= k < |ranges| ::
      RangeWithin(ranges[k], bucket) && (nonadjacent ==> SameCommitKey(store, ranges[k]))
  }

  /** Every admissible part of the first `gi` groups is in some range. */
  ghost predicate CoversGroups(cfg: ScanConfig, groups: seq<seq<PartId>>, gi: nat, ranges: seq<PartsRange>)
    requires gi <= |groups|
  {
    forall x | x in Flatten<PartId>(groups[..gi]) && cfg.canMerge(None, x) :: x in RangesIds(ranges)
  }

  /** Every part that was in a range before the bucket still is. */
  ghost predicate IdsKept(ranges0: seq<PartsRange>, ranges: seq<PartsRange>)
  {
    forall x | x in RangesIds(ranges0) :: x in RangesIds(ranges)
  }

  /** Every part in a range was there before the bucket or is in the bucket. */
  ghost predicate IdsFrom(ranges0: seq<PartsRange>, bucket: seq<PartId>, ranges: seq<PartsRange>)
  {
    forall x | x in RangesIds(ranges) :: x in RangesIds(ranges0) || x in bucket
  }

  lemma NewRangesHomogeneous(store: seq<PartModel>, cfg: ScanConfig, bucket: seq<PartId>, g: seq<PartId>, r: PartsRange)
    requires GroupWithin(store, bucket, g, cfg.nonadjacent)
    requires RangeWithin(r, g)
    ensures RangeWithin(r, bucket) && (cfg.nonadjacent ==> SameCommitKey(store, r))
  {
    forall k | 0 <= k < |r|
      ensures r[k].data in bucket && r[k].data < |store| && g != []
      ensures cfg.nonadjacent ==> CommitKey(store, r[k].data) == CommitKey(store, g[0])
    {
      assert r[k].data in g;
    }
  }

  lemma PrefixAgree<T>(a: seq<T>, b: seq<T>, m: nat, n: nat)
    requires n <= m <= |a| && m <= |b| && a[..m] == b[..m]
    ensures a[..n] == b[..n]
    ensures forall k | 0 <= k < m :: a[k] == b[k]
  {
    assert a[..n] == a[..m][..n];
    assert b[..n] == b[..m][..n];
    forall k | 0 <= k < m
      ensures a[k] == b[k]
    {
      assert a[k] == a[..m][k];
    }
  }

  lemma FlattenPrefixStep<T>(groups: seq<seq<T>>, gi: nat)
    requires gi < |groups|
    ensures Flatten(groups[..gi + 1]) == Flatten(groups[..gi]) + groups[gi]
  {
    assert groups[..gi + 1][..gi] == groups[..gi];
  }

  /** One turn of the loop of ScanBucket: the range loop over group `gi`. */
  method ScanGroup(store: seq<PartModel>, cfg: ScanConfig, ghost ranges0: seq<PartsRange>, bucket: seq<PartId>,
                   groups: seq<seq<PartId>>, gi: nat, ranges: seq<PartsRange>, count: nat)
    returns (ranges': seq<PartsRange>, count': nat)
    requires ValidStore(store) && AllIn(store, bucket) && gi < |groups| && GroupsOf(store, bucket, groups, cfg.nonadjacent)
    requires EachIn(store, groups)
    requires BucketState(store, cfg, ranges0, bucket, groups, gi, ranges, count)
    ensures BucketState(store, cfg, ranges0, bucket, groups, gi + 1, ranges', count')
  {
    var g := groups[gi];
    assert GroupWithin(store, bucket, g, cfg.nonadjacent);
    assert AllIn(store, g);
    ranges', count' := ScanRange(store, cfg, ranges, count, g);
    ScanGroupPrefix(ranges0, g, ranges, ranges');
    ScanGroupHomogeneous(store, cfg, ranges0, bucket, g, ranges, ranges');
    ScanGroupCoverage(cfg, groups, gi, ranges, ranges');
    ScanGroupSound(store, ranges0, bucket, g, cfg.nonadjacent, ranges, ranges');
    ScanGroupKeeps(ranges0, ranges, ranges');
    BuildGroupsStep(store, cfg, ranges0, groups, gi);
  }

  lemma ScanGroupKeeps(ranges0: seq<PartsRange>, ranges: seq<PartsRange>, ranges': seq<PartsRange>)
    requires IdsKept(ranges0, ranges)
    requires |Trim(ranges)| <= |ranges'|
    requires RangesIds(ranges') == RangesIds(ranges) + RangesIds(ranges'[|Trim(ranges)|..])
    ensures IdsKept(ranges0, ranges')
  {
  }

  lemma ScanGroupPrefix(ranges0: seq<PartsRange>, g: seq<PartId>, ranges: seq<PartsRange>, ranges': seq<PartsRange>)
    requires PrefixKept(ranges0, ranges)
    requires |Trim(ranges)| <= |ranges'| && ranges'[..|Trim(ranges)|] == Trim(ranges)
    requires g != [] ==> |Trim(ranges)| < |ranges'|
    requires g == [] ==> ranges' == ranges
    ensures PrefixKept(ranges0, ranges')
  {
    var start := |Trim(ranges0)|;
    var mid := |Trim(ranges)|;
    PrefixAgree(ranges', ranges, mid, start);
  }

  lemma ScanGroupHomogeneous(store: seq<PartModel>, cfg: ScanConfig, ranges0: seq<PartsRange>, bucket: seq<PartId>,
                             g: seq<PartId>, ranges: seq<PartsRange>, ranges': seq<PartsRange>)
    requires GroupWithin(store, bucket, g, cfg.nonadjacent)
    requires PrefixKept(ranges0, ranges) && NewRangesIn(store, cfg.nonadjacent, ranges0, bucket, ranges)
    requires |Trim(ranges)| <= |ranges'| && ranges'[..|Trim(ranges)|] == Trim(ranges)
    requires forall k | |Trim(ranges)| <= k < |ranges'| :: RangeWithin(ranges'[k], g)
    ensures NewRangesIn(store, cfg.nonadjacent, ranges0, bucket, ranges')
  {
    var start := |Trim(ranges0)|;
    var mid := |Trim(ranges)|;
    PrefixAgree(ranges', ranges, mid, start);
    forall k | start <= k < |ranges'|
      ensures RangeWithin(ranges'[k], bucket) && (cfg.nonadjacent ==> SameCommitKey(store, ranges'[k]))
    {
      if k >= mid {
        NewRangesHomogeneous(store, cfg, bucket, g, ranges'[k]);
      }
    }
  }

  lemma ScanGroupCoverage(cfg: ScanConfig, groups: seq<seq<PartId>>, gi: nat, ranges: seq<PartsRange>,
                          ranges': seq<PartsRange>)
    requires gi < |groups| && CoversGroups(cfg, groups, gi, ranges)
    requires |Trim(ranges)| <= |ranges'|
    requires RangesIds(ranges') == RangesIds(ranges) + RangesIds(ranges'[|Trim(ranges)|..])
    requires forall i | 0 <= i < |groups[gi]| && cfg.canMerge(None, groups[gi][i]) ::
      groups[gi][i] in RangesIds(ranges'[|Trim(ranges)|..])
    ensures CoversGroups(cfg, groups, gi + 1, ranges')
  {
    FlattenPrefixStep<PartId>(groups, gi);
  }

  lemma ScanGroupSound(store: seq<PartModel>, ranges0: seq<PartsRange>, bucket: seq<PartId>, g: seq<PartId>,
                       nonadjacent: bool, ranges: seq<PartsRange>, ranges': seq<PartsRange>)
    requires GroupWithin(store, bucket, g, nonadjacent)
    requires IdsFrom(ranges0, bucket, ranges)
    requires |Trim(ranges)| <= |ranges'|
    requires RangesIds(ranges') == RangesIds(ranges) + RangesIds(ranges'[|Trim(ranges)|..])
    requires IsSubsequence(RangesIds(ranges'[|Trim(ranges)|..]), g)
    ensures IdsFrom(ranges0, bucket, ranges')
  {
    var added := RangesIds(ranges'[|Trim(ranges)|..]);
    SubsequenceMembers(added, g);
    forall x | x in RangesIds(ranges')
      ensures x in RangesIds(ranges0) || x in bucket
    {
      if x !in RangesIds(ranges) {
        assert x in added;
        var i :| 0 <= i < |g| && g[i] == x;
      }
    }
  }

  /** `part_ranges_before_split`: the commit-time groups of the bucket when
      non-adjacent parts may be merged, the bucket alone otherwise. */
  method RangesBeforeSplit(store: seq<PartModel>, bucket: seq<PartId>, nonadjacent: bool)
    returns (groups: seq<seq<PartId>>)
    requires AllIn(store, bucket)
    ensures GroupsOf(store, bucket, groups, nonadjacent)
    ensures !nonadjacent ==> groups == [bucket]
    ensures nonadjacent ==> CommitGrouping(store, bucket, groups)
    ensures EachIn(store, groups)
  {
    if nonadjacent {
      groups := GroupPartsByColumnsMutationsCommitTime(store, bucket);
      CommitGroupsWithin(store, bucket, groups);
      ghost var flat: seq<PartId> := Flatten<PartId>(groups);
      assert forall x: PartId :: multiset(flat)[x] == multiset(bucket)[x];
      CoverFromCounts(flat, bucket);
    } else {
      groups := [bucket];
      SingleGroupOf(store, bucket);
    }
  }

  /** The loop over the groups of one bucket: the bucket itself, or its
      commit-time groups when non-adjacent parts may be merged. */
  method ScanBucket(store: seq<PartModel>, cfg: ScanConfig, ranges0: seq<PartsRange>, count0: nat, bucket: seq<PartId>)
    returns (ranges: seq<PartsRange>, count: nat, ghost groups: seq<seq<PartId>>)
    requires ValidStore(store) && AllIn(store, bucket)
    requires GoodRanges(store, cfg, ranges0) && count0 == TotalLength(ranges0)
    ensures GoodRanges(store, cfg, ranges) && count == TotalLength(ranges)
    ensures PrefixKept(ranges0, ranges) && NewRangesIn(store, cfg.nonadjacent, ranges0, bucket, ranges)
    ensures forall x | x in bucket && cfg.canMerge(None, x) :: x in RangesIds(ranges)
    ensures IdsFrom(ranges0, bucket, ranges) && IdsKept(ranges0, ranges)
    ensures BucketSplit(store, bucket, groups, cfg.nonadjacent) && EachIn(store, groups)
    ensures ranges == BuildGroups(store, cfg, ranges0, groups)
  {
    var split := RangesBeforeSplit(store, bucket, cfg.nonadjacent);
    groups := split;
    ranges, count := ScanGroups(store, cfg, ranges0, count0, bucket, split);
  }

  /** The loop of ScanBucket over the groups of the bucket. */
  method ScanGroups(store: seq<PartModel>, cfg: ScanConfig, ranges0: seq<PartsRange>, count0: nat, bucket: seq<PartId>,
                    groups: seq<seq<PartId>>)
    returns (ranges: seq<PartsRange>, count: nat)
    requires ValidStore(store) && AllIn(store, bucket)
    requires GroupsOf(store, bucket, groups, cfg.nonadjacent) && EachIn(store, groups)
    requires GoodRanges(store, cfg, ranges0) && count0 == TotalLength(ranges0)
    ensures GoodRanges(store, cfg, ranges) && count == TotalLength(ranges)
    ensures PrefixKept(ranges0, ranges) && NewRangesIn(store, cfg.nonadjacent, ranges0, bucket, ranges)
    ensures forall x | x in bucket && cfg.canMerge(None, x) :: x in RangesIds(ranges)
    ensures IdsFrom(ranges0, bucket, ranges) && IdsKept(ranges0, ranges)
    ensures ranges == BuildGroups(store, cfg, ranges0, groups)
  {
    ranges, count := ranges0, count0;
    assert groups[..0] == [];
    for gi := 0 to |groups|
      invariant BucketState(store, cfg, ranges0, bucket, groups, gi, ranges, count)
    {
      ranges, count := ScanGroup(store, cfg, ranges0, bucket, groups, gi, ranges, count);
    }
    GroupsDone(store, cfg, bucket, groups, ranges);
    assert groups[..|groups|] == groups;
  }

  /** Once every group is scanned, every admissible part of the bucket is in a range. */
  lemma GroupsDone(store: seq<PartModel>, cfg: ScanConfig, bucket: seq<PartId>, groups: seq<seq<PartId>>,
                   ranges: seq<PartsRange>)
    requires GroupsOf(store, bucket, groups, cfg.nonadjacent)
    requires CoversGroups(cfg, groups, |groups|, ranges)
    ensures forall x | x in bucket && cfg.canMerge(None, x) :: x in RangesIds(ranges)
  {
    assert groups[..|groups|] == groups;
  }

  // ---------------------------------------------------------------------
  // The buckets of the table

  /** The parts the planner works on: every input part of a plain table,
      the clustered ones of a bucket table. */
  predicate Considered(store: seq<PartModel>, table: Table, hashMatches: nat -> bool, dataParts: seq<PartId>, p: PartId)
  {
    p in dataParts && p < |store| && (table.isBucketTable ==> Clustered(store, hashMatches, p))
  }

  /** `buckets`: the bucket groups of a bucket table, the single bucket 0
      holding every input part otherwise. */
  ghost predicate BucketsOf(store: seq<PartModel>, table: Table, hashMatches: nat -> bool, dataParts: seq<PartId>,
                            buckets: map<int, seq<PartId>>)
    requires AllIn(store, dataParts)
  {
    && (table.isBucketTable ==>
          && (forall b :: b in buckets <==> BucketGroup(store, hashMatches, dataParts, b) != [])
          && (forall b | b in buckets :: buckets[b] == BucketGroup(store, hashMatches, dataParts, b)))
    && (!table.isBucketTable ==> buckets == map[0 := dataParts])
  }

  /** All records of the range belong to one bucket. */
  ghost predicate InOneBucket(store: seq<PartModel>, r: PartsRange)
  {
    forall k | 0 <= k < |r| :: r[k].data < |store| && r[0].data < |store|
      && store[r[k].data].bucketNumber == store[r[0].data].bucketNumber
  }

  /** A range the planner may hand to the selector: made of considered parts,
      inside one bucket of a bucket table and, when non-adjacent parts may be
      merged, of parts with one commit key. */
  ghost predicate HomogeneousRange(store: seq<PartModel>, table: Table, nonadjacent: bool, dataParts: seq<PartId>,
                                   r: PartsRange)
  {
    && RangeWithin(r, dataParts)
    && (table.isBucketTable ==> InOneBucket(store, r))
    && (nonadjacent ==> SameCommitKey(store, r))
  }

  ghost predicate Homogeneous(store: seq<PartModel>, table: Table, nonadjacent: bool, dataParts: seq<PartId>,
                              ranges: seq<PartsRange>)
  {
    forall k | 0 <= k < |ranges| :: HomogeneousRange(store, table, nonadjacent, dataParts, ranges[k])
  }

  /** Every admissible part of the buckets in `done` is in some range. */
  ghost predicate BucketsCovered(cfg: ScanConfig, buckets: map<int, seq<PartId>>, done: set<int>, ranges: seq<PartsRange>)
  {
    forall b, x | b in done && b in buckets && x in buckets[b] && cfg.canMerge(None, x) :: x in RangesIds(ranges)
  }

  /** Every part in a range is considered. */
  ghost predicate AllConsidered(store: seq<PartModel>, table: Table, hashMatches: nat -> bool, dataParts: seq<PartId>,
                                ranges: seq<PartsRange>)
  {
    forall x | x in RangesIds(ranges) :: Considered(store, table, hashMatches, dataParts, x)
  }

  /** The parts of a bucket are considered and, in a bucket table, carry its number. */
  lemma BucketMembers(store: seq<PartModel>, table: Table, hashMatches: nat -> bool, dataParts: seq<PartId>,
                      buckets: map<int, seq<PartId>>, b: int)
    requires AllIn(store, dataParts) && BucketsOf(store, table, hashMatches, dataParts, buckets) && b in buckets
    ensures AllIn(store, buckets[b])
    ensures forall x | x in buckets[b] :: Considered(store, table, hashMatches, dataParts, x)
    ensures table.isBucketTable ==> forall x | x in buckets[b] :: x < |store| && store[x].bucketNumber == b
  {
    if table.isBucketTable {
      BucketGroupMembers(store, hashMatches, dataParts, b);
    }
  }

  lemma BucketsHomogeneous(store: seq<PartModel>, table: Table, hashMatches: nat -> bool, nonadjacent: bool,
                           dataParts: seq<PartId>, buckets: map<int, seq<PartId>>, b: int,
                           ranges: seq<PartsRange>, ranges': seq<PartsRange>)
    requires AllIn(store, dataParts) && BucketsOf(store, table, hashMatches, dataParts, buckets) && b in buckets
    requires Homogeneous(store, table, nonadjacent, dataParts, ranges)
    requires |Trim(ranges)| <= |ranges'| && ranges'[..|Trim(ranges)|] == Trim(ranges)
    requires forall k | |Trim(ranges)| <= k < |ranges'| ::
      RangeWithin(ranges'[k], buckets[b]) && (nonadjacent ==> SameCommitKey(store, ranges'[k]))
    ensures Homogeneous(store, table, nonadjacent, dataParts, ranges')
  {
    BucketMembers(store, table, hashMatches, dataParts, buckets, b);
    var mid := |Trim(ranges)|;
    forall k | 0 <= k < |ranges'|
      ensures HomogeneousRange(store, table, nonadjacent, dataParts, ranges'[k])
    {
      if k < mid {
        assert ranges'[k] == ranges'[..mid][k] == ranges[k];
      } else {
        var r := ranges'[k];
        forall i | 0 <= i < |r|
          ensures r[i].data in dataParts
          ensures table.isBucketTable ==> r[i].data < |store| && store[r[i].data].bucketNumber == b
        {
          assert r[i].data in buckets[b];
        }
      }
    }
  }

  lemma BucketsCoverStep(cfg: ScanConfig, buckets: map<int, seq<PartId>>, done: set<int>, b: int,
                         ranges: seq<PartsRange>, ranges': seq<PartsRange>)
    requires b in buckets && BucketsCovered(cfg, buckets, done, ranges)
    requires forall x | x in RangesIds(ranges) :: x in RangesIds(ranges')
    requires forall x | x in buckets[b] && cfg.canMerge(None, x) :: x in RangesIds(ranges')
    ensures BucketsCovered(cfg, buckets, done + {b}, ranges')
  {
  }

  lemma BucketsSound(store: seq<PartModel>, table: Table, hashMatches: nat -> bool, dataParts: seq<PartId>,
                     buckets: map<int, seq<PartId>>, b: int, ranges: seq<PartsRange>, ranges': seq<PartsRange>)
    requires AllIn(store, dataParts) && BucketsOf(store, table, hashMatches, dataParts, buckets) && b in buckets
    requires AllConsidered(store, table, hashMatches, dataParts, ranges)
    requires forall x | x in RangesIds(ranges') :: x in RangesIds(ranges) || x in buckets[b]
    ensures AllConsidered(store, table, hashMatches, dataParts, ranges')
  {
    BucketMembers(store, table, hashMatches, dataParts, buckets, b);
  }

  /** Once every bucket is done, every considered part the callback accepts on its own is in a range. */
  lemma BucketsComplete(store: seq<PartModel>, cfg: ScanConfig, table: Table, hashMatches: nat -> bool,
                        dataParts: seq<PartId>, buckets: map<int, seq<PartId>>, ranges: seq<PartsRange>)
    requires AllIn(store, dataParts) && BucketsOf(store, table, hashMatches, dataParts, buckets)
    requires BucketsCovered(cfg, buckets, buckets.Keys, ranges)
    ensures forall i | 0 <= i < |dataParts| && Considered(store, table, hashMatches, dataParts, dataParts[i])
                       && cfg.canMerge(None, dataParts[i]) :: dataParts[i] in RangesIds(ranges)
  {
    forall i | 0 <= i < |dataParts| && Considered(store, table, hashMatches, dataParts, dataParts[i])
                && cfg.canMerge(None, dataParts[i])
      ensures dataParts[i] in RangesIds(ranges)
    {
      var x := dataParts[i];
      if table.isBucketTable {
        var b := store[x].bucketNumber;
        ClusteredPartHasBucket(store, hashMatches, dataParts, i);
        assert b in buckets;
        assert x in buckets[b];
      } else {
        assert 0 in buckets && x in buckets[0];
      }
    }
  }

  /** Every group of every visit lies in the store. */
  ghost predicate VisitsIn(store: seq<PartModel>, visits: seq<seq<seq<PartId>>>)
  {
    forall k | 0 <= k < |visits| :: EachIn(store, visits[k])
  }

  /** The reference pass over the buckets: the groups of each visited bucket
      in turn, continuing one range list. */
  ghost function BuildBuckets(store: seq<PartModel>, cfg: ScanConfig, ranges0: seq<PartsRange>,
                              visits: seq<seq<seq<PartId>>>): seq<PartsRange>
    requires ValidStore(store) && VisitsIn(store, visits)
    decreases |visits|
  {
    if visits == [] then ranges0
    else
      var n := |visits| - 1;
      assert VisitsIn(store, visits[..n]) && EachIn(store, visits[n]);
      BuildGroups(store, cfg, BuildBuckets(store, cfg, ranges0, visits[..n]), visits[n])
  }

  /** The range list is the reference pass over the buckets of `keys` in the
      order `order`, each visited once, bucket `order[k]` split into `visits[k]`. */
  ghost predicate BucketsReplayed(store: seq<PartModel>, cfg: ScanConfig, buckets: map<int, seq<PartId>>, keys: set<int>,
                                  order: seq<int>, visits: seq<seq<seq<PartId>>>, ranges: seq<PartsRange>)
    requires ValidStore(store)
  {
    && |order| == |visits| && NoDup(order)
    && (forall b | b in keys :: b in order)
    && (forall k | 0 <= k < |order| ::
          order[k] in keys && order[k] in buckets && BucketSplit(store, buckets[order[k]], visits[k], cfg.nonadjacent))
    && VisitsIn(store, visits)
    && ranges == BuildBuckets(store, cfg, [], visits)
  }

  /** Visiting one more bucket extends the reference pass by its groups. */
  lemma BucketsReplayStep(store: seq<PartModel>, cfg: ScanConfig, buckets: map<int, seq<PartId>>, done: set<int>,
                          order: seq<int>, visits: seq<seq<seq<PartId>>>, ranges: seq<PartsRange>,
                          b: int, groups: seq<seq<PartId>>, ranges': seq<PartsRange>)
    requires ValidStore(store) && BucketsReplayed(store, cfg, buckets, done, order, visits, ranges)
    requires b in buckets && b !in done && BucketSplit(store, buckets[b], groups, cfg.nonadjacent) && EachIn(store, groups)
    requires ranges' == BuildGroups(store, cfg, ranges, groups)
    ensures BucketsReplayed(store, cfg, buckets, done + {b}, order + [b], visits + [groups], ranges')
  {
    assert (order + [b])[..|order|] == order;
    assert (visits + [groups])[..|visits|] == visits;
    assert b !in order;
  }

  /** The next bucket of an unordered map: any key not yet visited. */
  method PickBucket(rest: set<int>) returns (b: int)
    requires rest != {}
    ensures b in rest
  {
    // A set with no member is the empty set, so the non-empty `rest` has one.
    assert (forall x :: x !in rest) ==> rest == {};
    b :| b in rest;
  }

  /** The loop over the buckets: the range loop of every group of every bucket,
      in an unspecified order of the buckets. */
  method ScanBuckets(store: seq<PartModel>, cfg: ScanConfig, table: Table, hashMatches: nat -> bool,
                     dataParts: seq<PartId>, buckets: map<int, seq<PartId>>)
    returns (ranges: seq<PartsRange>, count: nat, ghost order: seq<int>, ghost visits: seq<seq<seq<PartId>>>)
    requires ValidStore(store) && AllIn(store, dataParts) && BucketsOf(store, table, hashMatches, dataParts, buckets)
    ensures GoodRanges(store, cfg, ranges) && count == TotalLength(ranges)
    ensures Homogeneous(store, table, cfg.nonadjacent, dataParts, ranges)
    ensures forall i | 0 <= i < |dataParts| && Considered(store, table, hashMatches, dataParts, dataParts[i])
                       && cfg.canMerge(None, dataParts[i]) :: dataParts[i] in RangesIds(ranges)
    ensures AllConsidered(store, table, hashMatches, dataParts, ranges)
    ensures BucketsReplayed(store, cfg, buckets, buckets.Keys, order, visits, ranges)
  {
    ranges, count := [], 0;
    var rest := buckets.Keys;
    ghost var done: set<int> := {};
    order, visits := [], [];
    while rest != {}
      invariant BucketsState(store, cfg, table, hashMatches, dataParts, buckets, rest, done, ranges, count, order, visits)
      decreases rest
    {
      ranges, count, rest, done, order, visits :=
        VisitBucket(store, cfg, table, hashMatches, dataParts, buckets, rest, done, ranges, count, order, visits);
    }
    BucketsComplete(store, cfg, table, hashMatches, dataParts, buckets, ranges);
  }

  /** What the loop of ScanBuckets keeps, with `rest` the buckets still to
      visit and `done` those visited. */
  ghost predicate BucketsState(store: seq<PartModel>, cfg: ScanConfig, table: Table, hashMatches: nat -> bool,
                               dataParts: seq<PartId>, buckets: map<int, seq<PartId>>, rest: set<int>, done: set<int>,
                               ranges: seq<PartsRange>, count: nat, order: seq<int>, visits: seq<seq<seq<PartId>>>)
    requires ValidStore(store) && AllIn(store, dataParts)
  {
    && BucketsOf(store, table, hashMatches, dataParts, buckets)
    && rest <= buckets.Keys && done == buckets.Keys - rest
    && GoodRanges(store, cfg, ranges) && count == TotalLength(ranges)
    && Homogeneous(store, table, cfg.nonadjacent, dataParts, ranges)
    && BucketsCovered(cfg, buckets, done, ranges)
    && AllConsidered(store, table, hashMatches, dataParts, ranges)
    && BucketsReplayed(store, cfg, buckets, done, order, visits, ranges)
  }

  /** One turn of the loop of ScanBuckets: the groups of one bucket not yet visited. */
  method VisitBucket(store: seq<PartModel>, cfg: ScanConfig, table: Table, hashMatches: nat -> bool,
                     dataParts: seq<PartId>, buckets: map<int, seq<PartId>>, rest: set<int>, ghost done: set<int>,
                     ranges: seq<PartsRange>, count: nat, ghost order: seq<int>, ghost visits: seq<seq<seq<PartId>>>)
    returns (ranges': seq<PartsRange>, count': nat, rest': set<int>, ghost done': set<int>,
             ghost order': seq<int>, ghost visits': seq<seq<seq<PartId>>>)
    requires ValidStore(store) && AllIn(store, dataParts) && rest != {}
    requires BucketsState(store, cfg, table, hashMatches, dataParts, buckets, rest, done, ranges, count, order, visits)
    ensures BucketsState(store, cfg, table, hashMatches, dataParts, buckets, rest', done', ranges', count', order', visits')
    ensures rest' < rest
  {
    var b := PickBucket(rest);
    BucketMembers(store, table, hashMatches, dataParts, buckets, b);
    ghost var groups;
    ranges', count', groups := ScanBucket(store, cfg, ranges, count, buckets[b]);
    rest', done' := rest - {b}, done + {b};
    order', visits' := order + [b], visits + [groups];
    assert BucketsReplayed(store, cfg, buckets, done', order', visits', ranges') by {
      BucketsReplayStep(store, cfg, buckets, done, order, visits, ranges, b, groups, ranges');
    }
    assert Homogeneous(store, table, cfg.nonadjacent, dataParts, ranges') by {
      BucketsHomogeneous(store, table, hashMatches, cfg.nonadjacent, dataParts, buckets, b, ranges, ranges');
    }
    assert BucketsCovered(cfg, buckets, done', ranges') by {
      BucketsCoverStep(cfg, buckets, done, b, ranges, ranges');
    }
    assert AllConsidered(store, table, hashMatches, dataParts, ranges') by {
      BucketsSound(store, table, hashMatches, dataParts, buckets, b, ranges, ranges');
    }
  }

  // ---------------------------------------------------------------------
  // The planning pass

  /** Some considered part is accepted by the callback on its own. */
  ghost predicate HasEligiblePart(store: seq<PartModel>, table: Table, hashMatches: nat -> bool,
                                  canMerge: (Option<PartId>, PartId) -> bool, dataParts: seq<PartId>)
  {
    exists i | 0 <= i < |dataParts| ::
      Considered(store, table, hashMatches, dataParts, dataParts[i]) && canMerge(None, dataParts[i])
  }

  /** The ranges hold no part exactly when no considered part is accepted on its own. */
  lemma NoRangesIff(store: seq<PartModel>, cfg: ScanConfig, table: Table, hashMatches: nat -> bool,
                    dataParts: seq<PartId>, ranges: seq<PartsRange>)
    requires ValidStore(store) && GoodRanges(store, cfg, ranges)
    requires forall i | 0 <= i < |dataParts| && Considered(store, table, hashMatches, dataParts, dataParts[i])
                        && cfg.canMerge(None, dataParts[i]) :: dataParts[i] in RangesIds(ranges)
    requires AllConsidered(store, table, hashMatches, dataParts, ranges)
    ensures TotalLength(ranges) == 0 <==> !HasEligiblePart(store, table, hashMatches, cfg.canMerge, dataParts)
  {
    RangesIdsLength(ranges);
    TotalLengthZero(ranges);
    if TotalLength(ranges) != 0 {
      var k :| 0 <= k < |ranges| && ranges[k] != [];
      RangeMemberInIds(ranges, k, 0);
      var x := ranges[k][0].data;
      assert GoodRange(store, cfg, ranges[k]);
      assert Considered(store, table, hashMatches, dataParts, x);
      var i :| 0 <= i < |dataParts| && dataParts[i] == x;
    }
  }

  /** `selectPartsToMerge`. No input parts is NOTHING_TO_MERGE. Otherwise the
      ranges are built bucket by bucket; when they hold no part, or the
      selector chooses nothing, the pass is CANNOT_SELECT; else the chosen
      ranges are post-processed onto `res` and the pass is SELECTED. The
      ranges, the selector settings and the controller are returned as ghost
      values so that the contract can speak of them. */
  method SelectPartsToMerge(store: seq<PartModel>, table: Table, dataParts: seq<PartId>,
                            canMerge: (Option<PartId>, PartId) -> bool, hashMatches: nat -> bool,
                            selector: Selector, less: (PartId, PartId) -> bool, s: SelectSettings,
                            config: SelectorSettings, maxPartsToBreak: nat, now: nat, res0: seq<seq<PartId>>)
    returns (decision: Decision, res: seq<seq<PartId>>, ghost partsRanges: seq<PartsRange>,
             ghost ms: SelectorSettings, ghost controller: Option<AdaptiveController>,
             ghost bucketMap: map<int, seq<PartId>>, ghost order: seq<int>, ghost visits: seq<seq<seq<PartId>>>)
    requires ValidStore(store) && AllIn(store, dataParts)
    ensures decision == NothingToMerge <==> dataParts == []
    ensures decision != Selected ==> res == res0
    ensures var cfg := ScanConfig(table.settings.selectNonadjacentParts, maxPartsToBreak, canMerge, now);
      dataParts != [] ==>
        && GoodRanges(store, cfg, partsRanges)
        && Homogeneous(store, table, cfg.nonadjacent, dataParts, partsRanges)
        && (forall i | 0 <= i < |dataParts| && Considered(store, table, hashMatches, dataParts, dataParts[i])
                       && canMerge(None, dataParts[i]) :: dataParts[i] in RangesIds(partsRanges))
        && AllConsidered(store, table, hashMatches, dataParts, partsRanges)
        && BucketsOf(store, table, hashMatches, dataParts, bucketMap)
        && BucketsReplayed(store, cfg, bucketMap, bucketMap.Keys, order, visits, partsRanges)
    ensures dataParts != [] && HasEligiblePart(store, table, hashMatches, canMerge, dataParts) ==>
      && SettingsConfigured(ms, config, table, s, s.aggressive || table.isBucketTable)
      && ControllerConfigured(controller, table, s, s.aggressive || table.isBucketTable, ms.maxPartsToMergeBase)
    ensures decision == Selected <==>
      && dataParts != []
      && HasEligiblePart(store, table, hashMatches, canMerge, dataParts)
      && selector(partsRanges, s.maxTotalSizeToMerge, ms, controller) != []
    ensures decision == Selected ==>
      res == res0 + PostProcessed(selector(partsRanges, s.maxTotalSizeToMerge, ms, controller),
                                     table.settings.selectNonadjacentParts, less)
  {
    res, partsRanges, ms, controller := res0, [], config, None;
    bucketMap, order, visits := map[], [], [];
    if dataParts == [] {
      decision := NothingToMerge;
      return;
    }
    var nonadjacent := table.settings.selectNonadjacentParts;
    var aggressive := s.aggressive;
    var cfg := ScanConfig(nonadjacent, maxPartsToBreak, canMerge, now);
    var buckets: map<int, seq<PartId>>;
    if table.isBucketTable {
      aggressive := true;
      buckets := GroupPartsByBucketNumber(store, hashMatches, dataParts);
    } else {
      buckets := map[0 := dataParts];
    }
    var ranges, count;
    ranges, count, order, visits := ScanBuckets(store, cfg, table, hashMatches, dataParts, buckets);
    partsRanges, bucketMap := ranges, buckets;
    NoRangesIff(store, cfg, table, hashMatches, dataParts, ranges);
    if count == 0 {
      decision := CannotSelect;
      return;
    }
    var settings := ConfigureSelector(config, table, s, aggressive);
    var chosen := ChooseController(table, s, aggressive, settings.maxPartsToMergeBase);
    ms, controller := settings, chosen;
    var out := selector(ranges, s.maxTotalSizeToMerge, settings, chosen);
    if out == [] {
      decision := CannotSelect;
      return;
    }
    res := AppendSelectedRanges(out, nonadjacent, less, res0);
    decision := Selected;
  }
}
