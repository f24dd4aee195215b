/** The server topology: for every server virtual warehouse (vw) the list of
    its servers, the flat list of all servers, and the lease fields (term,
    initial time, expiration) of the topology record.

    `std::map<String, CnchServerVwTopology>` is the sequence of its entries
    in key order; an entry's key is always its vw name, so an entry is the
    vw topology itself. A vw topology is held in the map by value, so it is a
    datatype. `HostWithPorts::lessThan`, `toDebugString` and the consistent
    hash are parameters; their code is not part of this model. */
module CnchTopology {
  import opened Wrappers
  import opened Orders
  import opened Seqs

  newtype UInt64 = x: int | 0 <= x < 0x1_0000_0000_0000_0000

  /** A server address. `isExactlySame` compares every field, so it is `==`. */
  datatype HostWithPorts = HostWithPorts(
    id: string, host: string, rpcPort: nat, tcpPort: nat, httpPort: nat, exchangePort: nat, exchangeStatusPort: nat)

  /** The default-constructed address, returned when no server can be chosen. */
  const DefaultHost: HostWithPorts := HostWithPorts("", "", 0, 0, 0, 0, 0)

  /** CnchServerVwTopology: a vw name and its servers in the order they were added. */
  datatype VwTopology = VwTopology(name: string, servers: seq<HostWithPorts>)

  // ---------------------------------------------------------------------
  // Entries in key order

  /** The entries of a `std::map` keyed by vw name: names strictly increasing. */
  ghost predicate NamesSorted(e: seq<VwTopology>)
  {
    forall i, j | 0 <= i < j < |e| :: StrLess(e[i].name, e[j].name)
  }

  /** `std::map::find`: the position of the entry with that name, if any. */
  function Find(e: seq<VwTopology>, name: string): (r: Option<nat>)
    ensures r.Some? ==> r.value < |e| && e[r.value].name == name
    ensures r.None? ==> forall i | 0 <= i < |e| :: e[i].name != name
  {
    if e == [] then None
    else if e[0].name == name then Some(0)
    else match Find(e[1..], name)
      case None => None
      case Some(i) => Some(i + 1)
  }

  /** The servers of a vw, empty when the vw has no entry. */
  function ServersOf(e: seq<VwTopology>, name: string): seq<HostWithPorts>
  {
    match Find(e, name)
    case None => []
    case Some(i) => e[i].servers
  }

  /** With names strictly increasing, an entry is the only one with its name. */
  lemma FindUnique(e: seq<VwTopology>, i: nat)
    requires NamesSorted(e) && i < |e|
    ensures Find(e, e[i].name) == Some(i)
  {
    StrLessStrictWeak();
    assert !StrLess(e[i].name, e[i].name);
    assert forall j | 0 <= j < |e| && j != i :: e[j].name != e[i].name;
  }

  lemma ServersAt(e: seq<VwTopology>, i: nat)
    requires NamesSorted(e) && i < |e|
    ensures ServersOf(e, e[i].name) == e[i].servers
  {
    FindUnique(e, i);
  }

  /** A map's entries are determined by which entries it holds: two
      name-sorted entry lists with the same members are equal. */
  lemma {:induction false} EntriesDetermined(a: seq<VwTopology>, b: seq<VwTopology>)
    requires NamesSorted(a) && NamesSorted(b)
    requires forall x :: x in a <==> x in b
    ensures a == b
    decreases |a| + |b|
  {
    assert a != [] ==> a[0] in b;
    assert b != [] ==> b[0] in a;
    if a != [] && b != [] {
      LastEntriesEqual(a, b);
      var ia, ib := a[..|a| - 1], b[..|b| - 1];
      InitEntries(a, b, ia, ib);
      assert NamesSorted(ia) && NamesSorted(ib);
      EntriesDetermined(ia, ib);
      assert a == ia + [a[|a| - 1]] && b == ib + [b[|b| - 1]];
    }
  }

  /** The entries with the greatest name agree. */
  lemma LastEntriesEqual(a: seq<VwTopology>, b: seq<VwTopology>)
    requires NamesSorted(a) && NamesSorted(b) && a != [] && b != []
    requires forall x :: x in a <==> x in b
    ensures a[|a| - 1] == b[|b| - 1]
  {
    var x, y := a[|a| - 1], b[|b| - 1];
    assert x in b;
    assert y in a;
    var k :| 0 <= k < |b| && b[k] == x;
    var m :| 0 <= m < |a| && a[m] == y;
    LastEntry(a, m);
    LastEntry(b, k);
    StrLessTotal(x.name, y.name);
  }

  /** Without their common last entry, the lists still have the same members. */
  lemma InitEntries(a: seq<VwTopology>, b: seq<VwTopology>, ia: seq<VwTopology>, ib: seq<VwTopology>)
    requires NamesSorted(a) && NamesSorted(b) && a != [] && b != []
    requires forall x :: x in a <==> x in b
    requires a[|a| - 1] == b[|b| - 1] && ia == a[..|a| - 1] && ib == b[..|b| - 1]
    ensures forall z :: z in ia <==> z in ib
  {
    assert a == ia + [a[|a| - 1]] && b == ib + [b[|b| - 1]];
    forall z
      ensures z in ia <==> z in ib
    {
      if z in ia {
        NotLast(a, z);
      }
      if z in ib {
        NotLast(b, z);
      }
    }
  }

  /** No entry's name is greater than the last entry's. */
  lemma LastEntry(e: seq<VwTopology>, m: nat)
    requires NamesSorted(e) && m < |e|
    ensures !StrLess(e[|e| - 1].name, e[m].name)
    ensures m < |e| - 1 ==> StrLess(e[m].name, e[|e| - 1].name)
  {
    StrLessStrictWeak();
  }

  /** An entry of the list without its last entry is not the last entry. */
  lemma NotLast(e: seq<VwTopology>, z: VwTopology)
    requires NamesSorted(e) && e != [] && z in e[..|e| - 1]
    ensures z in e && z != e[|e| - 1]
  {
    StrLessStrictWeak();
    var i :| 0 <= i < |e| - 1 && e[..|e| - 1][i] == z;
    assert e[i] == z;
    assert StrLess(z.name, e[|e| - 1].name);
  }

  // ---------------------------------------------------------------------
  // Comparing vw topologies

  /** `isExactlySameVec`: the same servers, position by position. */
  predicate IsExactlySameVec(a: seq<HostWithPorts>, b: seq<HostWithPorts>)
  {
    |a| == |b| && forall i | 0 <= i < |a| :: a[i] == b[i]
  }

  /** `isSameToplogyWith`: the same name and exactly the same servers. */
  predicate IsSameVw(a: VwTopology, b: VwTopology)
  {
    a.name == b.name && IsExactlySameVec(a.servers, b.servers)
  }

  /** Two vw topologies are the same exactly when they are equal. */
  lemma IsSameVwIsEquality(a: VwTopology, b: VwTopology)
    ensures IsSameVw(a, b) <==> a == b
  {
    if IsSameVw(a, b) {
      assert a.servers == b.servers;
    }
  }

  /** `CnchServerVwTopology::operator<`: by name, then the server lists
      lexicographically under `HostWithPorts::lessThan`. */
  function VwLess(a: VwTopology, b: VwTopology, hostLess: (HostWithPorts, HostWithPorts) -> bool): bool
  {
    if a.name != b.name then StrLess(a.name, b.name) else LexLess(a.servers, b.servers, hostLess)
  }

  predicate VwEquivalent(a: VwTopology, b: VwTopology, hostLess: (HostWithPorts, HostWithPorts) -> bool)
  {
    !VwLess(a, b, hostLess) && !VwLess(b, a, hostLess)
  }

  /** When `lessThan` is a strict weak order, so is the vw order: it is
      asymmetric and "not less" is transitive. */
  lemma VwLessAsymmetric(a: VwTopology, b: VwTopology, hostLess: (HostWithPorts, HostWithPorts) -> bool)
    requires StrictWeakOrder(hostLess)
    ensures VwLess(a, b, hostLess) ==> !VwLess(b, a, hostLess)
  {
    StrLessStrictWeak();
    LexLessAsymmetric(a.servers, b.servers, hostLess);
  }

  lemma VwLessNegTransitive(a: VwTopology, b: VwTopology, c: VwTopology,
                            hostLess: (HostWithPorts, HostWithPorts) -> bool)
    requires StrictWeakOrder(hostLess)
    requires !VwLess(a, b, hostLess) && !VwLess(b, c, hostLess)
    ensures !VwLess(a, c, hostLess)
  {
    StrLessStrictWeak();
    StrLessTotal(a.name, b.name);
    StrLessTotal(b.name, c.name);
    StrLessTotal(a.name, c.name);
    assert !StrLess(a.name, b.name) && !StrLess(b.name, c.name);
    if a.name == c.name && a.name == b.name {
      LexLessNegTransitive(a.servers, b.servers, c.servers, hostLess);
    }
  }

  lemma VwLessStrictWeak(hostLess: (HostWithPorts, HostWithPorts) -> bool)
    requires StrictWeakOrder(hostLess)
    ensures StrictWeakOrder((a: VwTopology, b: VwTopology) => VwLess(a, b, hostLess))
  {
    forall a: VwTopology, b: VwTopology
      ensures VwLess(a, b, hostLess) ==> !VwLess(b, a, hostLess)
    {
      VwLessAsymmetric(a, b, hostLess);
    }
    forall a: VwTopology, b: VwTopology, c: VwTopology | !VwLess(a, b, hostLess) && !VwLess(b, c, hostLess)
      ensures !VwLess(a, c, hostLess)
    {
      VwLessNegTransitive(a, b, c, hostLess);
    }
  }

  /** Two vw topologies are equivalent under the vw order exactly when they
      have the same name and their server lists are equivalent position by position. */
  lemma VwEquivalentMeans(a: VwTopology, b: VwTopology, hostLess: (HostWithPorts, HostWithPorts) -> bool)
    requires StrictWeakOrder(hostLess)
    ensures VwEquivalent(a, b, hostLess) <==>
      a.name == b.name && |a.servers| == |b.servers|
      && forall i | 0 <= i < |a.servers| :: Equivalent(hostLess, a.servers[i], b.servers[i])
  {
    StrLessTotal(a.name, b.name);
    LexEquivalent(a.servers, b.servers, hostLess);
  }

  /** The facts about the vw order the difference walk needs. */
  lemma VwFacts(a: VwTopology, b: VwTopology, c: VwTopology, hostLess: (HostWithPorts, HostWithPorts) -> bool)
    requires StrictWeakOrder(hostLess)
    ensures !VwLess(a, a, hostLess)
    ensures VwLess(a, b, hostLess) && VwLess(b, c, hostLess) ==> VwLess(a, c, hostLess)
    ensures VwEquivalent(a, b, hostLess) && VwLess(b, c, hostLess) ==> VwLess(a, c, hostLess)
  {
    VwLessAsymmetric(a, a, hostLess);
    VwLessAsymmetric(b, c, hostLess);
    VwLessAsymmetric(a, b, hostLess);
    if !VwLess(a, c, hostLess) {
      assert VwLess(b, c, hostLess) ==> !VwLess(c, b, hostLess);
      if !VwLess(c, b, hostLess) {
        VwLessNegTransitive(a, c, b, hostLess);
      }
      if VwEquivalent(a, b, hostLess) {
        VwLessNegTransitive(b, a, c, hostLess);
      }
    }
  }

  /** Entries of one map are ordered as their names are. */
  lemma SortedEntriesLess(e: seq<VwTopology>, i: nat, j: nat, hostLess: (HostWithPorts, HostWithPorts) -> bool)
    requires NamesSorted(e) && i < j < |e|
    ensures VwLess(e[i], e[j], hostLess)
  {
    StrLessStrictWeak();
    assert StrLess(e[i].name, e[j].name);
  }

  // ---------------------------------------------------------------------
  // diffWith

  /** Some entry of `b` is equivalent to `x`, so `std::set_difference` drops `x`. */
  ghost predicate HasEquivalent(b: seq<VwTopology>, x: VwTopology, hostLess: (HostWithPorts, HostWithPorts) -> bool)
  {
    exists k | 0 <= k < |b| :: VwEquivalent(x, b[k], hostLess)
  }

  /** The entries of `a`, in order, that have no equivalent entry in `b`. */
  ghost function Difference(a: seq<VwTopology>, b: seq<VwTopology>, hostLess: (HostWithPorts, HostWithPorts) -> bool)
    : seq<VwTopology>
  {
    if a == [] then []
    else
      var x := a[|a| - 1];
      Difference(a[..|a| - 1], b, hostLess) + if HasEquivalent(b, x, hostLess) then [] else [x]
  }

  lemma DifferenceStep(a: seq<VwTopology>, b: seq<VwTopology>, i: nat, hostLess: (HostWithPorts, HostWithPorts) -> bool)
    requires i < |a|
    ensures Difference(a[..i + 1], b, hostLess)
         == Difference(a[..i], b, hostLess) + if HasEquivalent(b, a[i], hostLess) then [] else [a[i]]
  {
    assert a[..i + 1][..i] == a[..i];
  }

  /** The difference keeps the order of `a`. */
  lemma {:induction false} DifferenceSubsequence(a: seq<VwTopology>, b: seq<VwTopology>,
                                                 hostLess: (HostWithPorts, HostWithPorts) -> bool)
    ensures IsSubsequence(Difference(a, b, hostLess), a)
    decreases |a|
  {
    if a != [] {
      var init := a[..|a| - 1];
      var x := a[|a| - 1];
      var d := Difference(init, b, hostLess);
      DifferenceSubsequence(init, b, hostLess);
      SubsequenceExtend(d, init, x);
      assert a == init + [x];
      assert d + [] == d;
    }
  }

  /** The difference holds exactly the entries of `a` without an equivalent in `b`. */
  lemma {:induction false} DifferenceSpec(a: seq<VwTopology>, b: seq<VwTopology>,
                                          hostLess: (HostWithPorts, HostWithPorts) -> bool)
    ensures forall x :: x in Difference(a, b, hostLess) <==> x in a && !HasEquivalent(b, x, hostLess)
    decreases |a|
  {
    if a != [] {
      var init := a[..|a| - 1];
      var x := a[|a| - 1];
      DifferenceSpec(init, b, hostLess);
      assert a == init + [x];
      assert forall y :: y in a <==> y in init || y == x;
    }
  }

  /** The difference of a map's entries is again the entries of a map: the
      names stay strictly increasing. */
  lemma {:induction false} DifferenceSorted(a: seq<VwTopology>, b: seq<VwTopology>,
                                            hostLess: (HostWithPorts, HostWithPorts) -> bool)
    requires NamesSorted(a)
    ensures NamesSorted(Difference(a, b, hostLess))
    decreases |a|
  {
    if a != [] {
      var init := a[..|a| - 1];
      var x := a[|a| - 1];
      var d := Difference(init, b, hostLess);
      assert NamesSorted(init);
      DifferenceSorted(init, b, hostLess);
      DifferenceSpec(init, b, hostLess);
      if !HasEquivalent(b, x, hostLess) {
        forall p, q | 0 <= p < q < |d + [x]|
          ensures StrLess((d + [x])[p].name, (d + [x])[q].name)
        {
          if q == |d| {
            assert d[p] in init;
            var k :| 0 <= k < |init| && init[k] == d[p];
            assert a[k] == d[p];
          }
        }
      }
    }
  }

  /** Every entry is equivalent to itself, so a map minus itself is empty. */
  lemma {:induction false} DifferenceSelf(a: seq<VwTopology>, b: seq<VwTopology>,
                                          hostLess: (HostWithPorts, HostWithPorts) -> bool)
    requires StrictWeakOrder(hostLess)
    requires forall x | x in a :: x in b
    ensures Difference(a, b, hostLess) == []
    decreases |a|
  {
    if a != [] {
      var x := a[|a| - 1];
      assert x in a;
      assert x in b;
      var k :| 0 <= k < |b| && b[k] == x;
      VwLessAsymmetric(x, x, hostLess);
      assert VwEquivalent(x, b[k], hostLess);
      DifferenceSelf(a[..|a| - 1], b, hostLess);
    }
  }

  /** When `lessThan` tells every two distinct addresses apart, equivalence is
      equality and the difference is the entries of `a` that are not in `b`. */
  lemma DifferenceExact(a: seq<VwTopology>, b: seq<VwTopology>, hostLess: (HostWithPorts, HostWithPorts) -> bool)
    requires StrictWeakOrder(hostLess)
    requires forall h1, h2 :: h1 != h2 ==> hostLess(h1, h2) || hostLess(h2, h1)
    ensures forall x :: x in Difference(a, b, hostLess) <==> x in a && x !in b
  {
    DifferenceSpec(a, b, hostLess);
    forall x | x in a
      ensures HasEquivalent(b, x, hostLess) <==> x in b
    {
      if HasEquivalent(b, x, hostLess) {
        var k :| 0 <= k < |b| && VwEquivalent(x, b[k], hostLess);
        VwEquivalentMeans(x, b[k], hostLess);
        assert x.servers == b[k].servers;
      }
      if x in b {
        var k :| 0 <= k < |b| && b[k] == x;
        VwLessAsymmetric(x, x, hostLess);
        assert VwEquivalent(x, b[k], hostLess);
      }
    }
  }

  /** Neither `a[i]` nor anything after it has an equivalent among `b[..j]`. */
  ghost predicate BelowCursor(a: seq<VwTopology>, b: seq<VwTopology>, i: nat, j: nat,
                              hostLess: (HostWithPorts, HostWithPorts) -> bool)
    requires i < |a| && j <= |b|
  {
    forall k | 0 <= k < j :: VwLess(b[k], a[i], hostLess)
  }

  /** `std::set_difference` of two maps' entries, in key order. */
  method SetDifference(a: seq<VwTopology>, b: seq<VwTopology>, hostLess: (HostWithPorts, HostWithPorts) -> bool)
    returns (r: seq<VwTopology>)
    requires NamesSorted(a) && NamesSorted(b) && StrictWeakOrder(hostLess)
    ensures r == Difference(a, b, hostLess)
  {
    r := [];
    var i, j := 0, 0;
    while i < |a|
      invariant i <= |a| && j <= |b|
      invariant r == Difference(a[..i], b, hostLess)
      invariant i < |a| ==> BelowCursor(a, b, i, j, hostLess)
      decreases |a| - i + |b| - j
    {
      DifferenceStep(a, b, i, hostLess);
      if j == |b| {
        NoEquivalentBelow(a, b, i, j, hostLess);
        r := r + [a[i]];
        AdvanceA(a, b, i, j, hostLess);
        i := i + 1;
      } else if VwLess(a[i], b[j], hostLess) {
        NoEquivalentBelow(a, b, i, j, hostLess);
        NoEquivalentAbove(a, b, i, j, hostLess);
        r := r + [a[i]];
        AdvanceA(a, b, i, j, hostLess);
        i := i + 1;
      } else {
        if !VwLess(b[j], a[i], hostLess) {
          assert VwEquivalent(a[i], b[j], hostLess);
          AdvanceBoth(a, b, i, j, hostLess);
          i := i + 1;
        }
        j := j + 1;
      }
    }
    assert a[..|a|] == a;
  }

  lemma NoEquivalentBelow(a: seq<VwTopology>, b: seq<VwTopology>, i: nat, j: nat,
                          hostLess: (HostWithPorts, HostWithPorts) -> bool)
    requires StrictWeakOrder(hostLess) && i < |a| && j <= |b| && BelowCursor(a, b, i, j, hostLess)
    requires j == |b| || VwLess(a[i], b[j], hostLess)
    ensures forall k | 0 <= k < j :: !VwEquivalent(a[i], b[k], hostLess)
  {
  }

  lemma NoEquivalentAbove(a: seq<VwTopology>, b: seq<VwTopology>, i: nat, j: nat,
                          hostLess: (HostWithPorts, HostWithPorts) -> bool)
    requires StrictWeakOrder(hostLess) && NamesSorted(b) && i < |a| && j < |b|
    requires VwLess(a[i], b[j], hostLess)
    requires forall k | 0 <= k < j :: !VwEquivalent(a[i], b[k], hostLess)
    ensures !HasEquivalent(b, a[i], hostLess)
  {
    forall k | j <= k < |b|
      ensures VwLess(a[i], b[k], hostLess)
    {
      if k > j {
        SortedEntriesLess(b, j, k, hostLess);
        VwFacts(a[i], b[j], b[k], hostLess);
      }
    }
  }

  lemma AdvanceA(a: seq<VwTopology>, b: seq<VwTopology>, i: nat, j: nat, hostLess: (HostWithPorts, HostWithPorts) -> bool)
    requires StrictWeakOrder(hostLess) && NamesSorted(a) && i < |a| && j <= |b| && BelowCursor(a, b, i, j, hostLess)
    ensures i + 1 < |a| ==> BelowCursor(a, b, i + 1, j, hostLess)
  {
    if i + 1 < |a| {
      SortedEntriesLess(a, i, i + 1, hostLess);
      forall k | 0 <= k < j
        ensures VwLess(b[k], a[i + 1], hostLess)
      {
        VwFacts(b[k], a[i], a[i + 1], hostLess);
      }
    }
  }

  lemma AdvanceBoth(a: seq<VwTopology>, b: seq<VwTopology>, i: nat, j: nat,
                    hostLess: (HostWithPorts, HostWithPorts) -> bool)
    requires StrictWeakOrder(hostLess) && NamesSorted(a) && i < |a| && j < |b| && BelowCursor(a, b, i, j, hostLess)
    requires VwEquivalent(a[i], b[j], hostLess)
    ensures HasEquivalent(b, a[i], hostLess)
    ensures i + 1 < |a| ==> BelowCursor(a, b, i + 1, j + 1, hostLess)
  {
    if i + 1 < |a| {
      AdvanceA(a, b, i, j, hostLess);
      SortedEntriesLess(a, i, i + 1, hostLess);
      VwLessAsymmetric(a[i], b[j], hostLess);
      VwFacts(b[j], a[i], a[i + 1], hostLess);
    }
  }

  // ---------------------------------------------------------------------
  // Formatting

  /** The items separated by `sep`: no separator before the first item or after the last. */
  function Join(items: seq<string>, sep: string): string
  {
    if items == [] then ""
    else if |items| == 1 then items[0]
    else Join(items[..|items| - 1], sep) + sep + items[|items| - 1]
  }

  /** The joined string starts with the first item and ends with the last. */
  lemma {:induction false} JoinEnds(items: seq<string>, sep: string)
    requires items != []
    ensures items[0] <= Join(items, sep)
    ensures items[|items| - 1] <= Join(items, sep)[|Join(items, sep)| - |items[|items| - 1]|..]
    decreases |items|
  {
    if |items| > 1 {
      var init := items[..|items| - 1];
      var last := items[|items| - 1];
      JoinEnds(init, sep);
      assert init[0] == items[0];
      var j := Join(init, sep);
      var r := j + sep + last;
      assert Join(items, sep) == r;
      assert r[..|j|] == j;
      assert r[|r| - |last|..] == last;
    }
  }

  /** The joined string holds the items plus one separator between each two of them. */
  lemma {:induction false} JoinLength(items: seq<string>, sep: string)
    ensures |Join(items, sep)| == TotalLength(items) + if items == [] then 0 else (|items| - 1) * |sep|
    decreases |items|
  {
    if |items| > 1 {
      var init := items[..|items| - 1];
      JoinLength(init, sep);
    }
  }

  /** The loop that writes the items with `sep` between them. */
  method AppendJoined(prefix: string, items: seq<string>, sep: string) returns (s: string)
    ensures s == prefix + Join(items, sep)
  {
    s := prefix;
    for i := 0 to |items|
      invariant s == prefix + Join(items[..i], sep)
    {
      assert items[..i + 1][..i] == items[..i];
      if i > 0 {
        s := s + sep;
      }
      s := s + items[i];
    }
    assert items[..|items|] == items;
  }

  function Shown<T>(xs: seq<T>, show: T -> string): (r: seq<string>)
    ensures |r| == |xs| && forall i | 0 <= i < |xs| :: r[i] == show(xs[i])
  {
    seq(|xs|, i requires 0 <= i < |xs| => show(xs[i]))
  }

  /** `CnchServerVwTopology::format`. */
  function VwFormat(vt: VwTopology, show: HostWithPorts -> string): string
  {
    "{server_vw_name: " + vt.name + ", [" + Join(Shown(vt.servers, show), ", ") + "]}"
  }

  method FormatVw(vt: VwTopology, show: HostWithPorts -> string) returns (s: string)
    ensures s == VwFormat(vt, show)
  {
    s := "{server_vw_name: " + vt.name;
    s := s + ", [";
    s := AppendJoined(s, Shown(vt.servers, show), ", ");
    s := s + "]}";
  }

  /** Each vw topology's format, in key order. */
  function VwFormats(vts: seq<VwTopology>, show: HostWithPorts -> string): (r: seq<string>)
    ensures |r| == |vts| && forall i | 0 <= i < |vts| :: r[i] == VwFormat(vts[i], show)
  {
    seq(|vts|, i requires 0 <= i < |vts| => VwFormat(vts[i], show))
  }

  method FormatVws(vts: seq<VwTopology>, show: HostWithPorts -> string) returns (parts: seq<string>)
    ensures parts == VwFormats(vts, show)
  {
    parts := [];
    for k := 0 to |vts|
      invariant |parts| == k && forall i | 0 <= i < k :: parts[i] == VwFormat(vts[i], show)
    {
      var f := FormatVw(vts[k], show);
      parts := parts + [f];
    }
  }

  /** The lease fields and the optional leader and reason that open a topology's format. */
  function Header(term: UInt64, initial: UInt64, expiration: UInt64, leader: string, reason: string): string
  {
    "{term: " + Decimal(term as nat) + ", initial: " + Decimal(initial as nat)
      + ", expiration: " + Decimal(expiration as nat)
      + (if leader != [] then ", leader: " + leader else "")
      + (if reason != [] then ", reason: " + reason else "")
  }

  method FormatHeader(term: UInt64, initial: UInt64, expiration: UInt64, leader: string, reason: string)
    returns (s: string)
    ensures s == Header(term, initial, expiration, leader, reason)
  {
    s := "{term: " + Decimal(term as nat);
    s := s + ", initial: " + Decimal(initial as nat);
    s := s + ", expiration: " + Decimal(expiration as nat);
    ghost var lease := s;
    if leader != [] {
      s := s + ", leader: " + leader;
    }
    if reason != [] {
      s := s + ", reason: " + reason;
    }
    assert s == lease + (if leader != [] then ", leader: " + leader else "")
      + (if reason != [] then ", reason: " + reason else "");
  }

  function DigitChar(d: nat): char
    requires d < 10
  {
    "0123456789"[d]
  }

  /** How a stream writes an unsigned number: its decimal digits. */
  function Decimal(n: nat): (s: string)
    ensures s != [] && forall k | 0 <= k < |s| :: '0' <= s[k] <= '9'
    decreases n
  {
    if n < 10 then [DigitChar(n)] else Decimal(n / 10) + [DigitChar(n % 10)]
  }

  function DecimalValue(s: string): nat
    requires forall k | 0 <= k < |s| :: '0' <= s[k] <= '9'
  {
    if s == [] then 0 else 10 * DecimalValue(s[..|s| - 1]) + (s[|s| - 1] - '0') as nat
  }

  /** Reading the digits back gives the number, and only 0 starts with '0'. */
  lemma {:induction false} DecimalRoundTrip(n: nat)
    ensures DecimalValue(Decimal(n)) == n
    ensures Decimal(n)[0] == '0' ==> n == 0
    decreases n
  {
    if n >= 10 {
      DecimalRoundTrip(n / 10);
      var s := Decimal(n);
      assert s[..|s| - 1] == Decimal(n / 10);
    }
  }

  // ---------------------------------------------------------------------
  // CnchServerTopology

  class ServerTopology {
    /** The entries of `vw_topologies` in key order. */
    var vwTopologies: seq<VwTopology>
    /** Every server, in the order it was added. */
    var servers: seq<HostWithPorts>
    var term: UInt64
    var leaseInitialTime: UInt64
    var leaseExpiration: UInt64
    var leaderInfo: string
    var reason: string

    ghost predicate Valid()
      reads this
    {
      NamesSorted(vwTopologies)
    }

    constructor()
      ensures Valid() && vwTopologies == [] && servers == []
      ensures term == 0 && leaseInitialTime == 0 && leaseExpiration == 0 && leaderInfo == [] && reason == []
    {
      vwTopologies, servers := [], [];
      term, leaseInitialTime, leaseExpiration := 0, 0, 0;
      leaderInfo, reason := [], [];
    }

    /** Whether the topology has an entry for the vw. */
    function HasVw(name: string): bool
      reads this
    {
      Find(vwTopologies, name).Some?
    }

    function Servers(name: string): seq<HostWithPorts>
      reads this
    {
      ServersOf(vwTopologies, name)
    }

    function Empty(): (r: bool)
      reads this
      ensures r <==> |servers| == 0
    {
      servers == []
    }

    function GetServerSize(): nat
      reads this
    {
      |servers|
    }

    function GetTerm(): UInt64
      reads this
    {
      term
    }

    function GetExpiration(): UInt64
      reads this
    {
      leaseExpiration
    }

    function GetInitialTime(): UInt64
      reads this
    {
      leaseInitialTime
    }

    /** `addServer`: appends the server to the flat list and to its vw's
        list, creating the vw's entry when it has none. */
    method AddServer(server: HostWithPorts, name: string)
      requires Valid()
      modifies this
      ensures Valid()
      ensures servers == old(servers) + [server]
      ensures GetServerSize() == old(GetServerSize()) + 1 && !Empty()
      ensures HasVw(name) && Servers(name) == old(Servers(name)) + [server]
      ensures forall n | n != name :: HasVw(n) == old(HasVw(n)) && Servers(n) == old(Servers(n))
      ensures term == old(term) && leaseInitialTime == old(leaseInitialTime) && leaseExpiration == old(leaseExpiration)
      ensures leaderInfo == old(leaderInfo) && reason == old(reason)
    {
      vwTopologies := AddToVw(vwTopologies, server, name);
      servers := servers + [server];
    }

    method SetTerm(newTerm: UInt64)
      modifies this
      ensures GetTerm() == newTerm
      ensures vwTopologies == old(vwTopologies) && servers == old(servers)
      ensures leaseInitialTime == old(leaseInitialTime) && leaseExpiration == old(leaseExpiration)
      ensures leaderInfo == old(leaderInfo) && reason == old(reason)
    {
      term := newTerm;
    }

    method SetExpiration(newExpiration: UInt64)
      modifies this
      ensures GetExpiration() == newExpiration
      ensures vwTopologies == old(vwTopologies) && servers == old(servers)
      ensures term == old(term) && leaseInitialTime == old(leaseInitialTime)
      ensures leaderInfo == old(leaderInfo) && reason == old(reason)
    {
      leaseExpiration := newExpiration;
    }

    method SetInitialTime(initialTime: UInt64)
      modifies this
      ensures GetInitialTime() == initialTime
      ensures vwTopologies == old(vwTopologies) && servers == old(servers)
      ensures term == old(term) && leaseExpiration == old(leaseExpiration)
      ensures leaderInfo == old(leaderInfo) && reason == old(reason)
    {
      leaseInitialTime := initialTime;
    }

    /** `getTargetServer`: the default address when the vw is missing or has
        no servers; otherwise the server the consistent hash picks among them. */
    function GetTargetServer(uuid: string, name: string, hash: (string, nat) -> nat): (h: HostWithPorts)
      reads this
      requires forall n: nat | 0 < n :: hash(uuid, n) < n
      ensures Servers(name) == [] ==> h == DefaultHost
      ensures Servers(name) != [] ==> h in Servers(name) && h == Servers(name)[hash(uuid, |Servers(name)|)]
    {
      match Find(vwTopologies, name)
      case None => HostWithPorts("", "", 0, 0, 0, 0, 0)
      case Some(i) =>
        var list := vwTopologies[i].servers;
        if list == [] then HostWithPorts("", "", 0, 0, 0, 0, 0) else list[hash(uuid, |list|)]
    }

    /** `isSameTopologyWith`: the same number of vws, and the vws paired in
        key order are the same. */
    method IsSameTopologyWith(other: ServerTopology) returns (same: bool)
      ensures same <==> vwTopologies == other.vwTopologies
    {
      if |vwTopologies| != |other.vwTopologies| {
        return false;
      }
      var i := 0;
      while i < |vwTopologies| && i < |other.vwTopologies|
        invariant i <= |vwTopologies|
        invariant forall k | 0 <= k < i :: vwTopologies[k] == other.vwTopologies[k]
      {
        IsSameVwIsEquality(vwTopologies[i], other.vwTopologies[i]);
        if !IsSameVw(vwTopologies[i], other.vwTopologies[i]) {
          return false;
        }
        i := i + 1;
      }
      return true;
    }

    /** `diffWith`: the entries of this topology with no equivalent in the
        other, and the entries of the other with no equivalent in this one. */
    method DiffWith(other: ServerTopology, hostLess: (HostWithPorts, HostWithPorts) -> bool)
      returns (notInRight: seq<VwTopology>, notInLeft: seq<VwTopology>)
      requires Valid() && other.Valid() && StrictWeakOrder(hostLess)
      ensures notInRight == Difference(vwTopologies, other.vwTopologies, hostLess)
      ensures notInLeft == Difference(other.vwTopologies, vwTopologies, hostLess)
    {
      notInRight := SetDifference(vwTopologies, other.vwTopologies, hostLess);
      notInLeft := SetDifference(other.vwTopologies, vwTopologies, hostLess);
    }

    /** `CnchServerTopology::format`. */
    function Format(show: HostWithPorts -> string): string
      reads this
    {
      Header(term, leaseInitialTime, leaseExpiration, leaderInfo, reason)
        + ", [" + Join(VwFormats(vwTopologies, show), ", ") + "]}"
    }

    method FormatTopology(show: HostWithPorts -> string) returns (s: string)
      ensures s == Format(show)
    {
      s := FormatHeader(term, leaseInitialTime, leaseExpiration, leaderInfo, reason);
      s := s + ", [";
      var parts := FormatVws(vwTopologies, show);
      s := AppendJoined(s, parts, ", ");
      s := s + "]}";
    }
  }

  /** `addServer` on the map: find the vw's entry in key order, create it
      when missing, and append the server to it. */
  method AddToVw(e: seq<VwTopology>, server: HostWithPorts, name: string) returns (e': seq<VwTopology>)
    requires NamesSorted(e)
    ensures NamesSorted(e')
    ensures Find(e', name).Some? && ServersOf(e', name) == ServersOf(e, name) + [server]
    ensures forall n | n != name :: Find(e', n).Some? == Find(e, n).Some? && ServersOf(e', n) == ServersOf(e, n)
  {
    var i := 0;
    while i < |e| && StrLess(e[i].name, name)
      invariant i <= |e|
      invariant forall k | 0 <= k < i :: StrLess(e[k].name, name)
    {
      i := i + 1;
    }
    if i < |e| && e[i].name == name {
      e' := e[i := e[i].(servers := e[i].servers + [server])];
      ReplaceKeeps(e, i, e', name, server);
    } else {
      InsertPosition(e, i, name);
      e' := e[..i] + [VwTopology(name, [server])] + e[i..];
      InsertKeeps(e, i, e', name);
    }
  }

  /** The search stops at the entry with the name or at the first greater one. */
  lemma InsertPosition(e: seq<VwTopology>, i: nat, name: string)
    requires NamesSorted(e) && i <= |e|
    requires forall k | 0 <= k < i :: StrLess(e[k].name, name)
    requires i < |e| ==> !StrLess(e[i].name, name) && e[i].name != name
    ensures forall k | i <= k < |e| :: StrLess(name, e[k].name)
    ensures forall k | 0 <= k < |e| :: e[k].name != name
  {
    StrLessStrictWeak();
    if i < |e| {
      StrLessTotal(e[i].name, name);
      forall k | i < k < |e|
        ensures StrLess(name, e[k].name)
      {
        StrictWeakFacts(StrLess, name, e[i].name, e[k].name);
      }
    }
  }

  lemma ReplaceKeeps(e: seq<VwTopology>, i: nat, e': seq<VwTopology>, name: string, server: HostWithPorts)
    requires NamesSorted(e) && i < |e| && e[i].name == name
    requires e' == e[i := e[i].(servers := e[i].servers + [server])]
    ensures NamesSorted(e')
    ensures Find(e', name).Some? && ServersOf(e', name) == ServersOf(e, name) + [server]
    ensures forall n | n != name :: Find(e', n).Some? == Find(e, n).Some? && ServersOf(e', n) == ServersOf(e, n)
  {
    ServersAt(e, i);
    ServersAt(e', i);
    forall n | n != name
      ensures Find(e', n).Some? == Find(e, n).Some? && ServersOf(e', n) == ServersOf(e, n)
    {
      match Find(e, n)
      case Some(k) =>
        ServersAt(e, k);
        ServersAt(e', k);
      case None =>
        assert forall k | 0 <= k < |e'| :: e'[k].name != n;
    }
  }

  lemma InsertSorted(e: seq<VwTopology>, i: nat, e': seq<VwTopology>, name: string)
    requires NamesSorted(e) && i <= |e|
    requires forall k | 0 <= k < i :: StrLess(e[k].name, name)
    requires forall k | i <= k < |e| :: StrLess(name, e[k].name)
    requires |e'| == |e| + 1 && e'[..i] == e[..i] && e'[i].name == name && e'[i + 1..] == e[i..]
    ensures NamesSorted(e')
  {
    StrLessStrictWeak();
    forall p, q | 0 <= p < q < |e'|
      ensures StrLess(e'[p].name, e'[q].name)
    {
      if q < i {
        assert e'[p] == e[p] && e'[q] == e[q];
      } else if q == i {
        assert e'[p] == e[p];
      } else if p == i {
        assert e'[q] == e[q - 1];
      } else if p < i {
        assert e'[p] == e[p] && e'[q] == e[q - 1];
        StrictWeakFacts(StrLess, e[p].name, name, e[q - 1].name);
      } else {
        assert e'[p] == e[p - 1] && e'[q] == e[q - 1];
      }
    }
  }

  lemma InsertKeeps(e: seq<VwTopology>, i: nat, e': seq<VwTopology>, name: string)
    requires NamesSorted(e) && i <= |e|
    requires forall k | 0 <= k < i :: StrLess(e[k].name, name)
    requires forall k | i <= k < |e| :: StrLess(name, e[k].name)
    requires |e'| == |e| + 1 && e'[..i] == e[..i] && e'[i].name == name && e'[i + 1..] == e[i..]
    ensures NamesSorted(e')
    ensures Find(e', name).Some? && ServersOf(e', name) == e'[i].servers
    ensures forall n | n != name :: Find(e', n).Some? == Find(e, n).Some? && ServersOf(e', n) == ServersOf(e, n)
  {
    InsertSorted(e, i, e', name);
    ServersAt(e', i);
    forall n | n != name
      ensures Find(e', n).Some? == Find(e, n).Some? && ServersOf(e', n) == ServersOf(e, n)
    {
      InsertOther(e, i, e', name, n);
    }
  }

  lemma InsertOther(e: seq<VwTopology>, i: nat, e': seq<VwTopology>, name: string, n: string)
    requires NamesSorted(e) && NamesSorted(e') && i <= |e| && n != name
    requires |e'| == |e| + 1 && e'[..i] == e[..i] && e'[i].name == name && e'[i + 1..] == e[i..]
    ensures Find(e', n).Some? == Find(e, n).Some? && ServersOf(e', n) == ServersOf(e, n)
  {
    match Find(e, n)
    case Some(k) =>
      var k' := if k < i then k else k + 1;
      assert e'[k'] == e[k];
      ServersAt(e, k);
      ServersAt(e', k');
    case None =>
      forall k' | 0 <= k' < |e'|
        ensures e'[k'].name != n
      {
        if k' < i {
          assert e'[k'] == e[k'];
        } else if k' > i {
          assert e'[k'] == e[k' - 1];
        }
      }
  }
}
