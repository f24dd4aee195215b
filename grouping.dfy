/** Splitting a part list into independent groups before ranges are built:
    by bucket number for a bucket table, and by the (columns commit time,
    mutation commit time) key when non-adjacent parts may be merged. The
    source keeps both groupings in hash maps, so the order of the groups is
    unspecified; only the contents of each group are. */
module PartGrouping {
  import opened Wrappers
  import opened MergeParts
  import opened Seqs

  // ---------------------------------------------------------------------
  // Bucket groups

  /** Parts that take part in merges of a bucket table: those written with the
      table's current clustering definition. */
  predicate Clustered(store: seq<PartModel>, hashMatches: nat -> bool, p: PartId)
    requires p < |store|
  {
    hashMatches(store[p].tableDefinitionHash)
  }

  /** The parts of `parts`, in order, that are clustered and lie in bucket `b`. */
  function BucketGroup(store: seq<PartModel>, hashMatches: nat -> bool, parts: seq<PartId>, b: int): (g: seq<PartId>)
    requires AllIn(store, parts)
    ensures AllIn(store, g)
  {
    if parts == [] then []
    else
      var last := parts[|parts| - 1];
      BucketGroup(store, hashMatches, parts[..|parts| - 1], b)
        + if Clustered(store, hashMatches, last) && store[last].bucketNumber == b then [last] else []
  }

  /** groupPartsByBucketNumber: skips parts whose clustering hash does not match
      and appends every other part to the group of its bucket number. */
  method GroupPartsByBucketNumber(store: seq<PartModel>, hashMatches: nat -> bool, dataParts: seq<PartId>)
    returns (buckets: map<int, seq<PartId>>)
    requires AllIn(store, dataParts)
    ensures forall b :: b in buckets <==> BucketGroup(store, hashMatches, dataParts, b) != []
    ensures forall b | b in buckets :: buckets[b] == BucketGroup(store, hashMatches, dataParts, b)
  {
    buckets := map[];
    for i := 0 to |dataParts|
      invariant forall b :: b in buckets <==> BucketGroup(store, hashMatches, dataParts[..i], b) != []
      invariant forall b | b in buckets :: buckets[b] == BucketGroup(store, hashMatches, dataParts[..i], b)
    {
      var part := dataParts[i];
      assert dataParts[..i + 1][..i] == dataParts[..i];
      if !Clustered(store, hashMatches, part) {
        continue;
      }
      var b := store[part].bucketNumber;
      if b in buckets {
        buckets := buckets[b := buckets[b] + [part]];
      } else {
        buckets := buckets[b := [part]];
      }
    }
    assert dataParts[..|dataParts|] == dataParts;
  }

  /** A part occurs in the group of bucket `b` exactly as often as it occurs in
      the input when it is clustered and lies in bucket `b`, and never otherwise. */
  lemma {:induction false} BucketGroupCount(store: seq<PartModel>, hashMatches: nat -> bool, parts: seq<PartId>, b: int, p: PartId)
    requires AllIn(store, parts) && p < |store|
    ensures multiset(BucketGroup(store, hashMatches, parts, b))[p]
         == if Clustered(store, hashMatches, p) && store[p].bucketNumber == b then multiset(parts)[p] else 0
    decreases |parts|
  {
    if parts != [] {
      var init := parts[..|parts| - 1];
      assert parts == init + [parts[|parts| - 1]];
      BucketGroupCount(store, hashMatches, init, b, p);
    }
  }

  /** Every member of a bucket group is a clustered input part of that bucket. */
  lemma {:induction false} BucketGroupMembers(store: seq<PartModel>, hashMatches: nat -> bool, parts: seq<PartId>, b: int)
    requires AllIn(store, parts)
    ensures forall p | p in BucketGroup(store, hashMatches, parts, b) ::
      p in parts && Clustered(store, hashMatches, p) && store[p].bucketNumber == b
    decreases |parts|
  {
    if parts != [] {
      var init := parts[..|parts| - 1];
      assert parts == init + [parts[|parts| - 1]];
      BucketGroupMembers(store, hashMatches, init, b);
    }
  }

  /** A bucket group keeps the input order: it is a subsequence of the input. */
  lemma {:induction false} BucketGroupIsSubsequence(store: seq<PartModel>, hashMatches: nat -> bool, parts: seq<PartId>, b: int)
    requires AllIn(store, parts)
    ensures IsSubsequence(BucketGroup(store, hashMatches, parts, b), parts)
    decreases |parts|
  {
    if parts != [] {
      var init := parts[..|parts| - 1];
      var last := parts[|parts| - 1];
      assert parts == init + [last];
      BucketGroupIsSubsequence(store, hashMatches, init, b);
      SubsequenceExtend(BucketGroup(store, hashMatches, init, b), init, last);
      if Clustered(store, hashMatches, last) && store[last].bucketNumber == b {
        assert BucketGroup(store, hashMatches, parts, b) == BucketGroup(store, hashMatches, init, b) + [last];
      } else {
        assert BucketGroup(store, hashMatches, parts, b) == BucketGroup(store, hashMatches, init, b);
      }
    }
  }

  /** Every clustered part lies in the group of its own bucket, and that group exists. */
  lemma ClusteredPartHasBucket(store: seq<PartModel>, hashMatches: nat -> bool, parts: seq<PartId>, i: nat)
    requires AllIn(store, parts) && i < |parts| && Clustered(store, hashMatches, parts[i])
    ensures parts[i] in BucketGroup(store, hashMatches, parts, store[parts[i]].bucketNumber)
  {
    var p := parts[i];
    assert p in multiset(parts);
    BucketGroupCount(store, hashMatches, parts, store[p].bucketNumber, p);
  }


  // ---------------------------------------------------------------------
  // Commit-time groups

  /** The grouping key of a part: its columns commit time and its mutation commit time. */
  function CommitKey(store: seq<PartModel>, p: PartId): (nat, nat)
    requires p < |store|
  {
    (store[p].columnsCommitTime, store[p].mutationCommitTime)
  }

  /** The parts of `parts`, in order, whose commit key is `k`. */
  function CommitGroup(store: seq<PartModel>, parts: seq<PartId>, k: (nat, nat)): (g: seq<PartId>)
    requires AllIn(store, parts)
    ensures AllIn(store, g)
  {
    if parts == [] then []
    else
      var last := parts[|parts| - 1];
      CommitGroup(store, parts[..|parts| - 1], k) + if CommitKey(store, last) == k then [last] else []
  }

  /** The commit key shared by the members of a group (0, 0 for a group that
      has no member in the store). */
  function GroupKey(store: seq<PartModel>, g: seq<PartId>): (nat, nat)
  {
    if g != [] && g[0] < |store| then CommitKey(store, g[0]) else (0, 0)
  }

  /** groupPartsByColumnsMutationsCommitTime: collects the parts by commit key
      in a hash map, then emits one group per key in the map's (unspecified)
      iteration order. Every group is non-empty and holds, in input order, all
      the parts with its key; no two groups share a key; together the groups
      hold every part exactly as often as the input does. */
  method GroupPartsByColumnsMutationsCommitTime(store: seq<PartModel>, parts: seq<PartId>)
    returns (groups: seq<seq<PartId>>)
    requires AllIn(store, parts)
    ensures forall j | 0 <= j < |groups| ::
      groups[j] != [] && groups[j] == CommitGroup(store, parts, GroupKey(store, groups[j]))
    ensures forall j, j' | 0 <= j < j' < |groups| :: GroupKey(store, groups[j]) != GroupKey(store, groups[j'])
    ensures forall x: PartId :: multiset(Flatten<PartId>(groups))[x] == multiset(parts)[x]
  {
    var grouped: map<(nat, nat), seq<PartId>> := map[];
    for i := 0 to |parts|
      invariant forall k :: k in grouped <==> CommitGroup(store, parts[..i], k) != []
      invariant forall k | k in grouped :: grouped[k] == CommitGroup(store, parts[..i], k)
    {
      assert parts[..i + 1][..i] == parts[..i];
      var key := CommitKey(store, parts[i]);
      grouped := grouped[key := (if key in grouped then grouped[key] else []) + [parts[i]]];
    }
    assert parts[..|parts|] == parts;

    groups := [];
    var rest := grouped.Keys;
    ghost var emitted: seq<(nat, nat)> := [];
    while rest != {}
      invariant rest <= grouped.Keys
      invariant |emitted| == |groups|
      invariant forall j | 0 <= j < |groups| :: emitted[j] in grouped && emitted[j] !in rest && groups[j] == grouped[emitted[j]]
      invariant forall j, j' | 0 <= j < j' < |emitted| :: emitted[j] != emitted[j']
      invariant forall k | k in grouped :: k in rest || k in emitted
      decreases rest
    {
      var k :| k in rest;
      groups := groups + [grouped[k]];
      emitted := emitted + [k];
      rest := rest - {k};
    }
    EmittedGroupsPartition(store, parts, grouped, groups, emitted);
  }

  lemma EmittedGroupsPartition(store: seq<PartModel>, parts: seq<PartId>, grouped: map<(nat, nat), seq<PartId>>,
                               groups: seq<seq<PartId>>, emitted: seq<(nat, nat)>)
    requires AllIn(store, parts)
    requires forall k :: k in grouped <==> CommitGroup(store, parts, k) != []
    requires forall k | k in grouped :: grouped[k] == CommitGroup(store, parts, k)
    requires |emitted| == |groups|
    requires forall j | 0 <= j < |groups| :: emitted[j] in grouped && groups[j] == grouped[emitted[j]]
    requires forall j, j' | 0 <= j < j' < |emitted| :: emitted[j] != emitted[j']
    requires forall k | k in grouped :: k in emitted
    ensures forall j | 0 <= j < |groups| ::
      groups[j] != [] && groups[j] == CommitGroup(store, parts, GroupKey(store, groups[j]))
    ensures forall j, j' | 0 <= j < j' < |groups| :: GroupKey(store, groups[j]) != GroupKey(store, groups[j'])
    ensures forall x: PartId :: multiset(Flatten<PartId>(groups))[x] == multiset(parts)[x]
  {
    forall j | 0 <= j < |groups|
      ensures groups[j] != [] && GroupKey(store, groups[j]) == emitted[j]
    {
      CommitGroupMembers(store, parts, emitted[j]);
      assert groups[j][0] in groups[j];
    }
    forall j | 0 <= j < |groups|
      ensures groups[j] == CommitGroup(store, parts, emitted[j])
    {
    }
    forall i | 0 <= i < |parts|
      ensures CommitKey(store, parts[i]) in emitted
    {
      var k := CommitKey(store, parts[i]);
      CommitGroupCount(store, parts, k, parts[i]);
      assert parts[i] in multiset(parts);
      assert multiset(CommitGroup(store, parts, k))[parts[i]] > 0;
      assert k in grouped;
    }
    DistinctNoDup(emitted);
    FlattenMultiset(store, parts, groups, emitted);
  }

  lemma FlattenMultiset(store: seq<PartModel>, parts: seq<PartId>, groups: seq<seq<PartId>>, keys: seq<(nat, nat)>)
    requires AllIn(store, parts) && |keys| == |groups|
    requires forall j | 0 <= j < |groups| :: groups[j] == CommitGroup(store, parts, keys[j])
    requires NoDup(keys)
    requires forall i | 0 <= i < |parts| :: CommitKey(store, parts[i]) in keys
    ensures forall x: PartId :: multiset(Flatten<PartId>(groups))[x] == multiset(parts)[x]
  {
    forall x: PartId
      ensures multiset(Flatten<PartId>(groups))[x] == multiset(parts)[x]
    {
      FlattenCount(store, parts, groups, keys, x);
      if x in parts {
        var i :| 0 <= i < |parts| && parts[i] == x;
        assert x < |store|;
        assert CommitKey(store, parts[i]) in keys;
        assert multiset(Flatten<PartId>(groups))[x] == multiset(parts)[x];
      } else {
        assert multiset(parts)[x] == 0;
      }
    }
  }

  /** Every member of a commit group is an input part with that commit key. */
  lemma {:induction false} CommitGroupMembers(store: seq<PartModel>, parts: seq<PartId>, k: (nat, nat))
    requires AllIn(store, parts)
    ensures forall p | p in CommitGroup(store, parts, k) :: p in parts && CommitKey(store, p) == k
    decreases |parts|
  {
    if parts != [] {
      var init := parts[..|parts| - 1];
      assert parts == init + [parts[|parts| - 1]];
      CommitGroupMembers(store, parts[..|parts| - 1], k);
    }
  }

  /** A part occurs in the group of key `k` as often as in the input when its
      key is `k`, and never otherwise. */
  lemma {:induction false} CommitGroupCount(store: seq<PartModel>, parts: seq<PartId>, k: (nat, nat), x: PartId)
    requires AllIn(store, parts)
    ensures multiset(CommitGroup(store, parts, k))[x]
         == if x < |store| && CommitKey(store, x) == k then multiset(parts)[x] else 0
    decreases |parts|
  {
    if parts != [] {
      var init := parts[..|parts| - 1];
      assert parts == init + [parts[|parts| - 1]];
      CommitGroupCount(store, init, k, x);
    }
  }

  /** A commit group keeps the input order: it is a subsequence of the input. */
  lemma {:induction false} CommitGroupIsSubsequence(store: seq<PartModel>, parts: seq<PartId>, k: (nat, nat))
    requires AllIn(store, parts)
    ensures IsSubsequence(CommitGroup(store, parts, k), parts)
    decreases |parts|
  {
    if parts != [] {
      var init := parts[..|parts| - 1];
      var last := parts[|parts| - 1];
      assert parts == init + [last];
      CommitGroupIsSubsequence(store, init, k);
      SubsequenceExtend(CommitGroup(store, init, k), init, last);
      if CommitKey(store, last) == k {
        assert CommitGroup(store, parts, k) == CommitGroup(store, init, k) + [last];
      } else {
        assert CommitGroup(store, parts, k) == CommitGroup(store, init, k);
      }
    }
  }

  lemma MultisetCountConcat<T>(a: seq<T>, b: seq<T>, x: T)
    ensures multiset(a + b)[x] == multiset(a)[x] + multiset(b)[x]
  {
  }

  lemma {:induction false} FlattenCount(store: seq<PartModel>, parts: seq<PartId>, groups: seq<seq<PartId>>, keys: seq<(nat, nat)>, x: PartId)
    requires AllIn(store, parts) && |keys| == |groups|
    requires forall j | 0 <= j < |groups| :: groups[j] == CommitGroup(store, parts, keys[j])
    requires NoDup(keys)
    ensures multiset(Flatten<PartId>(groups))[x]
         == if x < |store| && CommitKey(store, x) in keys then multiset(parts)[x] else 0
    decreases |groups|
  {
    if groups != [] {
      var n := |groups| - 1;
      var initG, initK := groups[..n], keys[..n];
      FlattenCount(store, parts, initG, initK, x);
      assert Flatten<PartId>(groups) == Flatten<PartId>(initG) + groups[n];
      MultisetCountConcat(Flatten<PartId>(initG), groups[n], x);
      CommitGroupCount(store, parts, keys[n], x);
      if x < |store| {
        var k := CommitKey(store, x);
        LastSplit(keys, k);
      }
    }
  }

  lemma LastSplit<T>(s: seq<T>, x: T)
    requires s != []
    ensures x in s <==> x in s[..|s| - 1] || x == s[|s| - 1]
  {
    assert s == s[..|s| - 1] + [s[|s| - 1]];
  }
}
