# ByConity merge planning, server topology and syntax-tree helpers in Dafny

This project models three pieces of ByConity's source and proves properties of
the models.

- **Merge-candidate planning** (`src/CloudServices/selectPartsToMerge.cpp`). The
  server takes a snapshot of the data parts of a table and does the following:
  - splits the parts into bucket groups (bucket tables) or one group;
  - regroups each bucket by columns/mutation commit time when nonadjacent
    selection is on;
  - cuts every group into *parts ranges* along partition frames, the
    `max_parts_to_break` rule and the `can_merge` callback;
  - measures each admitted part along its version chain;
  - configures the dance merge selector and, when it applies, the adaptive
    controller;
  - post-processes what the selector returns into the result list and a
    `Selected` / `CannotSelect` / `NothingToMerge` decision.

  The model is imperative: the loops, cursors, counters and out-list are
  methods with loop invariants. Each method is proved against ghost
  specifications (range shape, admission, homogeneity, coverage, chain
  metrics).
- **Server topology bookkeeping** (`src/MergeTreeCommon/CnchServerTopology.cpp`).
  - A `ServerTopology` class holds the name-ordered map of virtual-warehouse
    (vw) topologies, the flat server list, the term, the lease fields, the
    leader info and the reason.
  - `CnchServerVwTopology` is held by value in the map, so it is a datatype.
  - The `std::map` is a sequence of entries sorted by name. `std::string`'s
    `<` is lexicographic, and a sorted entry list is proved to be determined
    by its members.
  - `diffWith` is a `std::set_difference` merge walk. It is proved equal to the
    set-theoretic difference under the vw ordering.
- **Syntax-tree measures, identifier writing and hint serialisation**
  (`src/Parsers/IAST.cpp`).
  - The tree is a rose tree, and `size`, `checkSize` and `checkDepthImpl` are
    recursive measures with their error cases.
  - `SqlHint` / `SqlHints` serialise to and deserialise from a buffer of
    abstract tokens. The decoder is proved to invert the encoder.

Behaviour that lives outside the modelled files enters as function-valued
parameters, and their names say what they stand for. They are:

| Stands for | Parameter |
|---|---|
| `can_merge_callback` | `canMerge` |
| `DanceMergeSelector::selectMulti` | `selector` |
| `PartComparator` | `less` |
| The cluster-by table hash match | `hashMatches` |
| `consistentHashForString` | `hash` |
| `HostWithPorts::lessThan` | `hostLess` |
| `toDebugString` | `show` |
| `hasSecretParts` | `hasSecretParts` |
| `clone` | `clone` |
| `setOption` / `setKvOption` | `setOption` / `setKv` |
| The quoting helpers of `writeIdentifier` | `quote` |

The current time, the commit seconds and `max_parts_to_break` are plain
naturals.

Files:

| File | Contents |
|---|---|
| `wrappers.dfy` | Option/Result |
| `seqs.dfy` | Subsequences, flattening, distinctness |
| `orders.dfy` | Strict weak orders, `lexicographical_compare`, string `<` |
| `parts.dfy` | Parts and version chains |
| `grouping.dfy` | The two grouping helpers |
| `ranges.dfy` | Building ranges from one group |
| `sorting.dfy` | The comparator sort |
| `select_parts.dfy` | The planning pass |
| `topology.dfy` | The topology |
| `syntax_tree.dfy` | The syntax tree |
| `hints.dfy` | Hints |

Where the code and its documentation differ, the code is followed:
- After the selector returns a non-empty list, the code answers `SELECTED`
  even when post-processing drops every range (`AllLoneEmitsNothing`).
- Building ranges can leave one empty range at the end of the list.

## Model

| member | source | states |
|---|---|---|
| MergeParts.Age | src/CloudServices/selectPartsToMerge.cpp:169 | The age is `now - since` when `now > since`, and 0 otherwise. |
| MergeParts.Chain | src/CloudServices/selectPartsToMerge.cpp:159-166 | The version chain starts at the part itself and stays inside the store. |
| MergeParts.ChainMeasures | src/CloudServices/selectPartsToMerge.cpp:156-169 | The chain size is the sum of the sizes along the chain. The depth is the number of predecessors. The base commit time is that of the oldest link. |
| MergeParts.SumSizesPrepend | src/CloudServices/selectPartsToMerge.cpp:163 | Prepending a part adds its size to the chain sum. |
| MergeParts.PartInfoOfBasics | src/CloudServices/selectPartsToMerge.cpp:156-171 | The record size is at least the part's own size. The depth is 0 exactly when there is no previous part, and a lone part keeps its own size and age. |
| MergeParts.ComputePartInfo | src/CloudServices/selectPartsToMerge.cpp:156-177 | The chain-walking loop builds exactly the record PartInfoOf describes: chain size, leaf rows and level, base-commit age, depth. |
| PartGrouping.BucketGroup | src/CloudServices/selectPartsToMerge.cpp:323-336 | A bucket group only holds parts of the store. |
| PartGrouping.GroupPartsByBucketNumber | src/CloudServices/selectPartsToMerge.cpp:323-336 | Keys are exactly the bucket numbers with a non-empty group. Each key maps to the hash-matching parts of that bucket, in input order. |
| PartGrouping.BucketGroupCount | src/CloudServices/selectPartsToMerge.cpp:326-334 | A part occurs in bucket `b`'s group as often as in the input if it is clustered with bucket number `b`, and otherwise never. |
| PartGrouping.BucketGroupMembers | src/CloudServices/selectPartsToMerge.cpp:329-334 | Every member of a bucket group is an input part, is clustered and carries that bucket number. |
| PartGrouping.BucketGroupIsSubsequence | src/CloudServices/selectPartsToMerge.cpp:326-334 | A bucket group keeps the input order. |
| PartGrouping.ClusteredPartHasBucket | src/CloudServices/selectPartsToMerge.cpp:329-334 | A clustered input part lands in the group of its own bucket. |
| PartGrouping.CommitGroup | src/CloudServices/selectPartsToMerge.cpp:343-348 | A commit-time group only holds parts of the store. |
| PartGrouping.GroupPartsByColumnsMutationsCommitTime | src/CloudServices/selectPartsToMerge.cpp:338-355 | Each output group is the non-empty, order-keeping group of one (columns, mutation) commit key. Keys are pairwise distinct, and the groups together are a permutation of the input. |
| PartGrouping.EmittedGroupsPartition | src/CloudServices/selectPartsToMerge.cpp:350-354 | Emitting every map entry once, in any order, yields groups with the properties above. |
| PartGrouping.FlattenMultiset | src/CloudServices/selectPartsToMerge.cpp:350-354 | The concatenated groups of distinct keys covering every input part are a permutation of the input. |
| PartGrouping.CommitGroupMembers | src/CloudServices/selectPartsToMerge.cpp:345-347 | Every member of a commit group is an input part with that key. |
| PartGrouping.CommitGroupCount | src/CloudServices/selectPartsToMerge.cpp:345-347 | A part occurs in its key's group as often as in the input, and in no other group. |
| PartGrouping.CommitGroupIsSubsequence | src/CloudServices/selectPartsToMerge.cpp:343-348 | A commit group keeps the input order. |
| PartGrouping.FlattenCount | src/CloudServices/selectPartsToMerge.cpp:350-354 | Counts in the concatenation are the sums of counts in the groups of the listed keys. |
| RangeBuilder.Ids | src/CloudServices/selectPartsToMerge.cpp:172 | The parts of a range are the `data` fields of its records, in order. |
| RangeBuilder.Trim | src/CloudServices/selectPartsToMerge.cpp:109-110 | Trimming drops at most one trailing range, and only an empty one. |
| RangeBuilder.Append | src/CloudServices/selectPartsToMerge.cpp:181 | Appending a record changes only the last range, which grows by that record. |
| RangeBuilder.AppendKeeps | src/CloudServices/selectPartsToMerge.cpp:179-181 | An admitted record keeps the range list good. The counter and the placed parts grow by one, and earlier groups' ranges are untouched. |
| RangeBuilder.PushKeeps | src/CloudServices/selectPartsToMerge.cpp:107-154 | Opening an empty range keeps the list good and changes no placed part. |
| RangeBuilder.OpenRange | src/CloudServices/selectPartsToMerge.cpp:101-115 | Its new cursors are exactly `OpenStep`. A frame opens when there is none yet, the partition changes, or the last range is full in strict mode. Then an empty range is pushed unless the last range is already empty, and the previous part is reset. Otherwise nothing changes. The cursor invariant and the strict-mode room bound are kept. |
| RangeBuilder.ChooseRange | src/CloudServices/selectPartsToMerge.cpp:117-154 | Its cursors and admission are exactly `ChooseStep`. When `can_merge(prev, p)` holds, the part is admitted and the list and `prev_part` are unchanged. A part with no previous part is admitted exactly when `can_merge(null, p)` holds, into a fresh range. A rejected follower resets `prev_part`; if `can_merge(null, p)` then accepts it, one empty range is pushed. The cursor invariant is kept. |
| RangeBuilder.AdmitPart | src/CloudServices/selectPartsToMerge.cpp:156-183 | It appends exactly the part's chain record (`PartInfoOf`) to the last range. It keeps the cursor invariant with `prev_part` set to the part, and the counter equals the placed parts. |
| RangeBuilder.ScanRange | src/CloudServices/selectPartsToMerge.cpp:93-184 | The range list over one group is exactly the reference pass `BuildRanges` from fresh cursors. Also: the ranges stay good (one partition each, admitted by the oracle, bounded in strict mode, records = chain metrics, only the last may be empty), and the counter equals the placed parts. New ranges are drawn from the group in order, and every part accepted on its own is placed. Earlier ranges are kept. |
| RangeBuilder.ScanNext | src/CloudServices/selectPartsToMerge.cpp:99-183 | One iteration moves the cursors exactly as `Step` does and keeps the loop invariant. That invariant includes agreement with `BuildRanges` on the prefix scanned so far. |
| RangeBuilder.PushIfUsed | src/CloudServices/selectPartsToMerge.cpp:108-109 | After the conditional push, the list ends with an empty range. |
| RangeBuilder.OpenStep | src/CloudServices/selectPartsToMerge.cpp:101-115 | After the frame check, the list is non-empty and the current partition is the part's. |
| RangeBuilder.Step | src/CloudServices/selectPartsToMerge.cpp:99-183 | One reference iteration keeps an open frame non-empty and makes the part's partition current. |
| RangeBuilder.BuildRanges | src/CloudServices/selectPartsToMerge.cpp:93-184 | The reference pass over a group keeps an open frame non-empty. |
| RangeBuilder.StepFollows | src/CloudServices/selectPartsToMerge.cpp:129-183 | A part that may follow the previous part of its frame, with no new frame, is appended to the open range even if `can_merge(null, p)` rejects it. It then becomes the previous part. |
| RangeBuilder.StepSkips | src/CloudServices/selectPartsToMerge.cpp:117-150 | A part rejected on its own, and after its previous part when there is one in the same frame, leaves the list as the frame check left it. The previous part is reset. |
| RangeBuilder.CoveredExtend | src/CloudServices/selectPartsToMerge.cpp:117-154 | A part that `can_merge(null, p)` accepts is never skipped. |
| RangeBuilder.RangesIdsLength | src/CloudServices/selectPartsToMerge.cpp:179-181 | The number of placed parts is the total length of the ranges. |
| RangeBuilder.RangesIdsSplit | src/CloudServices/selectPartsToMerge.cpp:181 | The placed parts of a list split at any index. |
| RangeBuilder.RangesIdsTrim | src/CloudServices/selectPartsToMerge.cpp:109-110 | A trailing empty range holds no placed part. |
| RangeBuilder.TrimmedTail | src/CloudServices/selectPartsToMerge.cpp:109-110 | The part after the trimmed prefix holds no placed part. |
| RangeBuilder.RangeMemberInIds | src/CloudServices/selectPartsToMerge.cpp:181 | Every record of every range is a placed part. |
| RangeBuilder.NewRangesWithin | src/CloudServices/selectPartsToMerge.cpp:99-181 | Ranges opened for a group only hold parts of that group. |
| RangeBuilder.FinishScan | src/CloudServices/selectPartsToMerge.cpp:99-184 | The placed parts after a scan are the earlier ones plus those of the new ranges, all from the group. |
| PartOrder.Insert | src/CloudServices/selectPartsToMerge.cpp:316 | Insertion adds exactly one element. |
| PartOrder.SortParts | src/CloudServices/selectPartsToMerge.cpp:316 | Sorting is a permutation. |
| PartOrder.InsertSorted | src/CloudServices/selectPartsToMerge.cpp:316 | Insertion into a sorted list under a strict weak order stays sorted. |
| PartOrder.SortPartsSorted | src/CloudServices/selectPartsToMerge.cpp:316 | `std::sort` with the comparator yields a sorted permutation. |
| SelectPartsToMerge.RowCap | src/CloudServices/selectPartsToMerge.cpp:241-248 | Without a unique key the cap is kept. With one it is kept when `0 < cap <= UInt32::max`, and otherwise it becomes `UInt32::max`. |
| SelectPartsToMerge.RowCapIdempotent | src/CloudServices/selectPartsToMerge.cpp:243-248 | Clamping twice is clamping once. |
| SelectPartsToMerge.Min | src/CloudServices/selectPartsToMerge.cpp:240 | `std::min` is a lower bound equal to one of its arguments. |
| SelectPartsToMerge.ConfigureSelector | src/CloudServices/selectPartsToMerge.cpp:237-257 | The selector settings are set from the table and pass settings. Concretely: max parts = min of the two table limits, the row cap is clamped, min parts is 1 when aggressive, and batch/final/TTL/nonadjacent are copied. |
| SelectPartsToMerge.ChooseController | src/CloudServices/selectPartsToMerge.cpp:260-283 | The controller is attached exactly when expected parts ≥ 0, not aggressive, not final, table stats exist and the effective expected parts (0 → default workers) is positive. It is built from those values. |
| SelectPartsToMerge.BucketTablesSkipController | src/CloudServices/selectPartsToMerge.cpp:253-262 | Bucket tables merge aggressively (forced at lines 76-80): min parts 1 and no controller. An attached controller has positive expected parts. |
| SelectPartsToMerge.PostProcessed | src/CloudServices/selectPartsToMerge.cpp:293-317 | Post-processing yields at most one list per selector range. |
| SelectPartsToMerge.EmitRangeSpec | src/CloudServices/selectPartsToMerge.cpp:308-316 | An emitted range is a permutation of the range's parts: in selector order in strict mode, sorted by the comparator in nonadjacent mode. |
| SelectPartsToMerge.PostProcessedSpec | src/CloudServices/selectPartsToMerge.cpp:293-317 | The output is a subsequence of all emitted ranges, and every range that is not a lone base part is emitted. |
| SelectPartsToMerge.AllLoneEmitsNothing | src/CloudServices/selectPartsToMerge.cpp:293-319 | When every selector range is one part with chain depth 0, nothing is emitted, although the decision is still SELECTED. |
| SelectPartsToMerge.CopyParts | src/CloudServices/selectPartsToMerge.cpp:308-311 | The copying loop emplaces the range's parts in order. |
| SelectPartsToMerge.AppendSelectedRanges | src/CloudServices/selectPartsToMerge.cpp:293-317 | The loop over the selector's ranges appends exactly the post-processed ranges to `res`. |
| SelectPartsToMerge.PostProcessedStep | src/CloudServices/selectPartsToMerge.cpp:293-317 | Post-processing one more range either skips it or appends its emitted form. |
| SelectPartsToMerge.RangesBeforeSplit | src/CloudServices/selectPartsToMerge.cpp:87-91 | Nonadjacent mode yields exactly the commit-time grouping of the bucket (non-empty key groups in input order, distinct keys, same multiset). Strict mode yields the bucket itself as one group. |
| SelectPartsToMerge.ScanGroup | src/CloudServices/selectPartsToMerge.cpp:93-185 | Scanning one more group keeps the bucket state. |
| SelectPartsToMerge.ScanBucket | src/CloudServices/selectPartsToMerge.cpp:85-186 | The bucket is split as `part_ranges_before_split` does (`BucketSplit`). The range list is exactly the reference pass `BuildGroups` over those groups. Also: the ranges stay good and counted, and earlier ranges are kept. New ranges hold parts of the bucket, and in nonadjacent mode each shares one commit key. Every part of the bucket accepted on its own is placed. |
| SelectPartsToMerge.ScanGroups | src/CloudServices/selectPartsToMerge.cpp:93-185 | The loop over the groups of a bucket yields exactly `BuildGroups`, with the same shape, coverage and soundness facts as `ScanBucket`. |
| SelectPartsToMerge.BuildGroupsStep | src/CloudServices/selectPartsToMerge.cpp:93-185 | Scanning one more group extends the reference pass by the range loop over that group, from a null previous partition and part. |
| SelectPartsToMerge.GroupsDone | src/CloudServices/selectPartsToMerge.cpp:85-186 | Once every group is scanned, every admissible part of the bucket is placed. |
| SelectPartsToMerge.BucketMembers | src/CloudServices/selectPartsToMerge.cpp:76-83 | Bucket members are considered input parts. In a bucket table they carry the bucket's number. |
| SelectPartsToMerge.BucketsHomogeneous | src/CloudServices/selectPartsToMerge.cpp:85-186 | After a bucket is scanned, every range lies within the input and in one bucket (bucket tables) and shares a commit key (nonadjacent mode). |
| SelectPartsToMerge.BucketsCoverStep | src/CloudServices/selectPartsToMerge.cpp:85-186 | Scanning a bucket extends coverage to that bucket without losing earlier buckets. |
| SelectPartsToMerge.BucketsSound | src/CloudServices/selectPartsToMerge.cpp:85-186 | Only considered parts are placed: input parts that are clustered, in bucket tables. |
| SelectPartsToMerge.BucketsComplete | src/CloudServices/selectPartsToMerge.cpp:85-186 | After all buckets, every considered part that `can_merge(null, p)` accepts is placed. |
| SelectPartsToMerge.PickBucket | src/CloudServices/selectPartsToMerge.cpp:85 | The next bucket is one not yet visited; the `unordered_map` order is left open. |
| SelectPartsToMerge.ScanBuckets | src/CloudServices/selectPartsToMerge.cpp:74-186 | The ranges are exactly the reference pass `BuildBuckets` over every bucket, visited once each in some order, and each bucket is split as `BucketSplit` says. Over all buckets the ranges are good, counted, homogeneous, complete for admissible parts and sound. |
| SelectPartsToMerge.VisitBucket | src/CloudServices/selectPartsToMerge.cpp:85-186 | One visit scans a bucket not yet visited, removes it from the rest, and keeps the loop invariant, including agreement with `BuildBuckets`. |
| SelectPartsToMerge.BucketsReplayStep | src/CloudServices/selectPartsToMerge.cpp:85-186 | Visiting one more bucket extends the order by that bucket. The reference pass grows by that bucket's groups. |
| SelectPartsToMerge.NoRangesIff | src/CloudServices/selectPartsToMerge.cpp:179-193 | No part is placed exactly when no considered part is accepted on its own. |
| SelectPartsToMerge.SelectPartsToMerge | src/CloudServices/selectPartsToMerge.cpp:33-320 | The decision is NothingToMerge exactly on empty input. It is Selected exactly when some considered part is admissible and the selector returns something; otherwise it is CannotSelect. `res` is unchanged unless Selected. The built ranges are exactly the reference pass over the buckets (`BucketsOf`, `BucketsReplayed`), and they are good, homogeneous, complete and sound. Whenever some considered part is admissible, the settings and controller handed to the selector are as configured. When Selected, `res` grows by the post-processed selector output. |
| CnchTopology.Find | src/MergeTreeCommon/CnchServerTopology.cpp:79-83 | `map::find`: a found index holds the name, and a miss means no entry has it. |
| CnchTopology.FindUnique | src/MergeTreeCommon/CnchServerTopology.cpp:65-72 | In a name-sorted entry list, finding an entry's name returns that entry. |
| CnchTopology.ServersAt | src/MergeTreeCommon/CnchServerTopology.cpp:79-87 | The servers looked up by an entry's name are that entry's servers. |
| CnchTopology.EntriesDetermined | src/MergeTreeCommon/CnchServerTopology.cpp:194-210 | Two name-sorted entry lists with the same members are equal, so the ordered map is a canonical form. |
| CnchTopology.IsSameVwIsEquality | src/MergeTreeCommon/CnchServerTopology.cpp:59-63 | `isSameToplogyWith` holds exactly when name and server list are equal. |
| CnchTopology.VwLessAsymmetric | src/MergeTreeCommon/CnchServerTopology.cpp:212-223 | The vw order is asymmetric. |
| CnchTopology.VwLessNegTransitive | src/MergeTreeCommon/CnchServerTopology.cpp:212-223 | "Not less" under the vw order is transitive. |
| CnchTopology.VwLessStrictWeak | src/MergeTreeCommon/CnchServerTopology.cpp:212-223 | Ordering by name, then lexicographically by servers under a strict weak `lessThan`, is a strict weak order, as `std::set_difference` requires. |
| CnchTopology.VwEquivalentMeans | src/MergeTreeCommon/CnchServerTopology.cpp:212-223 | Two vw topologies are equivalent exactly when their names agree and their server lists are equivalent position by position. |
| CnchTopology.VwFacts | src/MergeTreeCommon/CnchServerTopology.cpp:212-223 | The vw order is irreflexive, transitive and compatible with equivalence. |
| CnchTopology.SortedEntriesLess | src/MergeTreeCommon/CnchServerTopology.cpp:212-223 | Earlier map entries are less than later ones under the vw order. |
| CnchTopology.DifferenceSubsequence | src/MergeTreeCommon/CnchServerTopology.cpp:224-244 | Each side of the diff is a sub-map of its input, in order. |
| CnchTopology.DifferenceSpec | src/MergeTreeCommon/CnchServerTopology.cpp:224-244 | An entry is in the difference exactly when it is in the left map and has no equivalent in the right one. |
| CnchTopology.DifferenceSorted | src/MergeTreeCommon/CnchServerTopology.cpp:224-244 | The difference is again a name-sorted map. |
| CnchTopology.DifferenceSelf | src/MergeTreeCommon/CnchServerTopology.cpp:224-244 | Diffing against a map that contains every entry is empty, so a self-diff gives two empty maps. |
| CnchTopology.DifferenceExact | src/MergeTreeCommon/CnchServerTopology.cpp:224-244 | With a total `lessThan`, the difference holds exactly the left entries absent from the right. |
| CnchTopology.DifferenceStep | src/MergeTreeCommon/CnchServerTopology.cpp:228-233 | The difference of a longer prefix extends the shorter one by the new entry exactly when it has no equivalent. |
| CnchTopology.SetDifference | src/MergeTreeCommon/CnchServerTopology.cpp:228-233 | The `std::set_difference` merge walk over two sorted maps computes the difference. |
| CnchTopology.ServerTopology.DiffWith | src/MergeTreeCommon/CnchServerTopology.cpp:224-244 | Returns (entries of this missing from other, entries of other missing from this), each the difference above. |
| CnchTopology.ServerTopology.IsSameTopologyWith | src/MergeTreeCommon/CnchServerTopology.cpp:194-210 | The size check and paired walk answer true exactly when the two vw maps are equal. |
| CnchTopology.ServerTopology.AddServer | src/MergeTreeCommon/CnchServerTopology.cpp:65-72 | Appends the server to the flat list and to the vw's list, creating the entry if absent. The size grows by one and the topology is non-empty. Other vws, term, lease, leader and reason are unchanged, and the map stays sorted. |
| CnchTopology.AddToVw | src/MergeTreeCommon/CnchServerTopology.cpp:65-70 | Find-or-emplace keeps the map sorted, makes the name present with the server appended, and leaves other names unchanged. |
| CnchTopology.InsertPosition | src/MergeTreeCommon/CnchServerTopology.cpp:67-69 | The insertion point of an absent name has only greater names after it. |
| CnchTopology.ReplaceKeeps | src/MergeTreeCommon/CnchServerTopology.cpp:70 | Appending to an existing entry keeps the map sorted and changes only that name's servers. |
| CnchTopology.InsertSorted | src/MergeTreeCommon/CnchServerTopology.cpp:69 | Emplacing at the insertion point keeps the map sorted. |
| CnchTopology.InsertKeeps | src/MergeTreeCommon/CnchServerTopology.cpp:69-70 | The emplaced entry is found under its name, and other names are unchanged. |
| CnchTopology.InsertOther | src/MergeTreeCommon/CnchServerTopology.cpp:69 | Emplacing a name leaves the lookup of every other name unchanged. |
| CnchTopology.ServerTopology.GetTargetServer | src/MergeTreeCommon/CnchServerTopology.cpp:79-87 | A missing vw or an empty list gives the default host. Otherwise it is the list element at the hashed index, a member of the list, given a hash into `[0, n)`. |
| CnchTopology.ServerTopology.Empty | src/MergeTreeCommon/CnchServerTopology.cpp:94-97 | Empty exactly when the flat server list is empty. |
| CnchTopology.ServerTopology.SetTerm | src/MergeTreeCommon/CnchServerTopology.cpp:124-132 | `getTerm` then returns the new term, and nothing else changes. |
| CnchTopology.ServerTopology.SetExpiration | src/MergeTreeCommon/CnchServerTopology.cpp:104-117 | `getExpiration` then returns the new value, and nothing else changes. |
| CnchTopology.ServerTopology.SetInitialTime | src/MergeTreeCommon/CnchServerTopology.cpp:109-122 | `getInitialTime` then returns the new value, and nothing else changes. |
| CnchTopology.JoinEnds | src/MergeTreeCommon/CnchServerTopology.cpp:43-57 | The joined list starts with the first item and ends with the last, with no leading or trailing separator. |
| CnchTopology.JoinLength | src/MergeTreeCommon/CnchServerTopology.cpp:134-154 | The joined length is the items' total plus one separator between each pair. |
| CnchTopology.AppendJoined | src/MergeTreeCommon/CnchServerTopology.cpp:48-53 | The stream loop writes the prefix followed by the items joined by the separator. |
| CnchTopology.Shown | src/MergeTreeCommon/CnchServerTopology.cpp:52 | Each server is shown by `toDebugString`, in order. |
| CnchTopology.FormatVw | src/MergeTreeCommon/CnchServerTopology.cpp:43-57 | Writes `{server_vw_name: <name>, [<servers joined by ", ">]}`. |
| CnchTopology.VwFormats | src/MergeTreeCommon/CnchServerTopology.cpp:145-150 | One formatted vw per map entry, in map order. |
| CnchTopology.FormatVws | src/MergeTreeCommon/CnchServerTopology.cpp:145-150 | The loop formats every vw entry in map order. |
| CnchTopology.FormatHeader | src/MergeTreeCommon/CnchServerTopology.cpp:136-144 | Writes term, initial and expiration, then leader and reason only when non-empty. |
| CnchTopology.ServerTopology.FormatTopology | src/MergeTreeCommon/CnchServerTopology.cpp:134-154 | Writes the header, then the vw formats joined by ", " inside `[...]}`. |
| CnchTopology.Decimal | src/MergeTreeCommon/CnchServerTopology.cpp:137-139 | A number is written as a non-empty string of decimal digits. |
| CnchTopology.DecimalRoundTrip | src/MergeTreeCommon/CnchServerTopology.cpp:137-139 | Reading the digits back gives the number, and only 0 starts with '0'. |
| SyntaxTree.Size | src/Parsers/IAST.cpp:33-40 | A tree's size is at least 1. |
| SyntaxTree.ChildSmaller | src/Parsers/IAST.cpp:33-40 | A child is strictly smaller than its parent. |
| SyntaxTree.SizeCountsNodes | src/Parsers/IAST.cpp:178-189 | The size equals the number of lines `dumpTree` writes, one per node. |
| SyntaxTree.LengthsSum | src/Parsers/IAST.cpp:184-188 | Concatenated child dumps have the summed length. |
| SyntaxTree.SumElement | src/Parsers/IAST.cpp:36-37 | Each child size is at most the sum. |
| SyntaxTree.MaxOfBounds | src/Parsers/IAST.cpp:88 | The running `std::max` bounds and attains its elements. |
| SyntaxTree.ComputeSize | src/Parsers/IAST.cpp:33-40 | The recursive loop computes 1 plus the children's sizes, i.e. Size. |
| SyntaxTree.CheckSize | src/Parsers/IAST.cpp:42-52 | Returns the size when it is at most the limit, and TOO_BIG_AST otherwise. |
| SyntaxTree.Height | src/Parsers/IAST.cpp:81-92 | A tree's height is at least 1 (a leaf has height 1). |
| SyntaxTree.TooDeepByHeight | src/Parsers/IAST.cpp:81-92 | Some node at depth ≥ max has a child exactly when the height exceeds 1 and `level + height > max + 1`. |
| SyntaxTree.CheckDepthImpl | src/Parsers/IAST.cpp:81-92 | Returns `level + height` unless some node at depth ≥ max has a child, in which case it fails with TOO_DEEP_AST. |
| SyntaxTree.DepthBeyondLimit | src/Parsers/IAST.cpp:86-87 | A failing child makes the parent fail. |
| SyntaxTree.DepthWithinLimit | src/Parsers/IAST.cpp:83-91 | Without a too-deep node the check succeeds. |
| SyntaxTree.ChildrenHaveSecretParts | src/Parsers/IAST.cpp:106-114 | True exactly when some child has secret parts. |
| SyntaxTree.CloneChildren | src/Parsers/IAST.cpp:116-120 | Every child is replaced in place by its clone, and the count is kept. |
| SyntaxTree.IdentifierWriter | src/Parsers/IAST.cpp:139-176 | BAD_ARGUMENTS exactly for style None with always-quote. None writes plain, always-quote picks a quoting writer, and otherwise a "probably" writer. |
| SyntaxTree.WriteIdentifier | src/Parsers/IAST.cpp:139-176 | Fails exactly for style None with always-quote. Plain style appends the name, and the others append the chosen writer's quoting. |
| Hints.StrTokens | src/Parsers/IAST.cpp:204-205 | One string token per option, in order. |
| Hints.PairTokensSnoc | src/Parsers/IAST.cpp:206-210 | Each key/value pair adds its key then its value token. |
| Hints.EncodeHintListSnoc | src/Parsers/IAST.cpp:245-246 | Each further hint appends its own encoding. |
| Hints.ReadStr | src/Parsers/IAST.cpp:215-217 | Reading a string consumes one token, and fails on an exhausted buffer. |
| Hints.ReadNum | src/Parsers/IAST.cpp:219-221 | Reading a count consumes one token, and fails on an exhausted buffer. |
| Hints.RebuiltAll | src/Parsers/IAST.cpp:253-257 | Each decoded hint is rebuilt through the setters. |
| Hints.DecodeOptionsEncoded | src/Parsers/IAST.cpp:222-227 | Decoding encoded options replays them through `setOption` and leaves the rest. |
| Hints.DecodeKvsEncoded | src/Parsers/IAST.cpp:229-237 | Decoding encoded pairs replays them through `setKvOption` and leaves the rest. |
| Hints.DecodeHintEncoded | src/Parsers/IAST.cpp:198-240 | `deserialize(serialize(h) ++ rest)` replays h's name, options and pairs through the setters and leaves `rest`. |
| Hints.DecodeHintListEncoded | src/Parsers/IAST.cpp:253-257 | Decoding n encoded hints appends their rebuilt forms. |
| Hints.DecodeHintsEncoded | src/Parsers/IAST.cpp:242-258 | Decoding an encoded hint list appends the rebuilt hints after existing ones and leaves the rest. |
| Hints.ReplayOptionsAppends | src/Parsers/IAST.cpp:222-227 | With an appending `setOption`, replay appends the options. |
| Hints.ReplayKvsAppends | src/Parsers/IAST.cpp:229-237 | With an appending `setKvOption`, replay appends the pairs. |
| Hints.RebuiltAppends | src/Parsers/IAST.cpp:213-240 | With appending setters, rebuilding a hint gives it back. |
| Hints.HintsRoundTrip | src/Parsers/IAST.cpp:242-258 | With appending setters, deserialising serialised hints appends exactly those hints. |
| Hints.WriteBuffer.WriteString | src/Parsers/IAST.cpp:200 | Writing a string appends one string token. |
| Hints.WriteBuffer.WriteNum | src/Parsers/IAST.cpp:201 | Writing a count appends one count token. |
| Hints.ReadBuffer.ReadString | src/Parsers/IAST.cpp:215-216 | Reads as ReadStr does and advances the buffer. |
| Hints.ReadBuffer.ReadNumber | src/Parsers/IAST.cpp:219-220 | Reads as ReadNum does and advances the buffer. |
| Hints.WriteOptions | src/Parsers/IAST.cpp:202-203 | The loop writes one token per option. |
| Hints.WritePairs | src/Parsers/IAST.cpp:206-210 | The loop writes key and value tokens for each pair. |
| Hints.SerializeHint | src/Parsers/IAST.cpp:198-211 | Appends name, option count, options, pair count and pairs. |
| Hints.ReadOptions | src/Parsers/IAST.cpp:222-227 | The loop decodes the counted options as DecodeOptions does. |
| Hints.ReadKvs | src/Parsers/IAST.cpp:229-237 | The loop decodes the counted pairs as DecodeKvs does. |
| Hints.DeserializeHint | src/Parsers/IAST.cpp:213-240 | Reads a hint as DecodeHint does, leaving the buffer after it. |
| Hints.WriteHintList | src/Parsers/IAST.cpp:245-246 | The loop appends every hint's encoding. |
| Hints.SqlHints.Serialize | src/Parsers/IAST.cpp:242-247 | Appends the count, then each hint. |
| Hints.SqlHints.Deserialize | src/Parsers/IAST.cpp:249-258 | Succeeds exactly when the buffer decodes. On success it appends the decoded hints and leaves the buffer after them, and it never clears existing hints. |

## Left out

- The commented-out TTL merge branch of the planning pass is not modelled,
  because it is not compiled.
- The inside of `DanceMergeSelector` (`selectMulti` scoring, `loadFromConfig`
  defaults) is not modelled. The selector is a function parameter, and its
  loaded defaults are an input record.
- `MergeSelectorAdaptiveController::init` and the background-statistics
  singleton are not modelled. The model keeps only when the controller is
  attached and what it is built from; whether table statistics exist is a
  table flag.
- A parameter stands in for each of these: the current time, the config read
  of `max_parts_to_break`, `TxnTimestamp::toSecond` (commit times are seconds
  already), the cluster-by hash match, and the comparator.
- Logging and `shared_from_this` are not modelled (parts are indices).
- The order of `unordered_map` iteration is not modelled. It is chosen
  nondeterministically, and the properties hold for every order.
- The `unselectable_part_rows` argument is not modelled. It is only handed
  to the controller.
- The internals of `HostWithPorts` (`isExactlySameVec` is list equality here;
  `lessThan`, `toDebugString`) and `consistentHashForString` are not
  modelled. They are parameters or plain equality.
- `getVwTopologies` and `getServerList` are not modelled as separate members.
  They return the fields (`vwTopologies`, `servers`) unchanged.
- Both overloads of `dumpTopologies` are not modelled. They are
  logging-string helpers outside the member functions named here.
- The `std::stringstream` rendering of numbers is modelled only as decimal
  digits. Locale effects are not modelled.
- Syntax-tree hashing (SipHash) is not modelled.
- `formatWithHiddenSecrets` with its data masker is not modelled.
- `getColumnName` / `getColumnNameWithoutAlias` are not modelled. They
  depend on virtual formatting not part of this model.
- The quoting helpers of `writeIdentifier` are a parameter.
- The hexadecimal node address and the null-child check of `dumpTree` are not modelled.
  `dumpTree` appears only as the line count used in `SizeCountsNodes`.
- `SqlHint::setOption` and `setKvOption` are declared in `IAST.h`, which is
  not part of this model. They are parameters, and `HintsRoundTrip` takes
  the appending ones.
- `WriteBuffer` / `ReadBuffer` byte formats are not modelled. Buffers are
  sequences of abstract string and count tokens. The `UnexpectedToken`
  error of the model (a count where a string is expected, or the other way
  round) stands for reading garbage bytes.
- `CheckSize`: `size_t` overflow of the sizes is not modelled, because
  integers are unbounded.
- `ComputeSize`: `size_t` overflow of the sizes is not modelled, because
  integers are unbounded.
- `CheckDepthImpl`: `size_t` overflow of the levels is not modelled, because
  integers are unbounded.
- `GetTargetServer` assumes the hash lands in `[0, n)` for every `n > 0`,
  as `consistentHashForString` promises.
- CnchTopology.ServerTopology.constructor: the default-constructed state
  (empty containers, zero term and lease fields) is assumed from the class
  declaration in `CnchServerTopology.h`, which is not part of this model.
- ComputePartInfo: `size_t` overflow of the chain size sum is not modelled,
  because integers are unbounded.
- EmitRange: the model sorts with a stable insertion sort, so the order among
  comparator-equivalent parts is fixed. `std::sort` is not stable, so the
  program leaves that order open. Only the sorted permutation is what the
  program promises.
- SelectPartsToMerge: like `EmitRange`, the order in `res` of parts that
  the comparator ranks equal is fixed by the model but not by the program.
