/** Identity selection of src/stages/stage2.ts: the DIDs read from the dump are
    grouped by their host (`groupedByPDS`), each accepted host gets a health
    entry, and `selectAllDids` keeps the (did, pds) pairs of healthy hosts. A
    JavaScript object is modelled as the list of its entries in insertion order. */
module Hosts {
  import opened Wrappers
  import opened Seqs
  import opened Sanitize

  /** One line of the dump, as `JSON.parse` returns it. */
  datatype DidPds = DidPds(did: string, pds: string)

  /** `groupedByPDS`: each host with its DIDs, hosts in insertion order. */
  type Groups = seq<(string, seq<string>)>

  function HostsOf(gs: Groups): (ks: seq<string>)
    ensures |ks| == |gs| && forall i :: 0 <= i < |gs| ==> ks[i] == gs[i].0
  {
    seq(|gs|, i requires 0 <= i < |gs| => gs[i].0)
  }

  /** The host of every line, in file order. */
  function LineHosts(lines: seq<DidPds>): (hs: seq<string>)
    ensures |hs| == |lines| && forall i :: 0 <= i < |lines| ==> hs[i] == lines[i].pds
  {
    seq(|lines|, i requires 0 <= i < |lines| => lines[i].pds)
  }

  /** The DIDs of the lines whose host is `h`, in file order. */
  function DidsOf(lines: seq<DidPds>, h: string): seq<string>
    decreases |lines|
  {
    if |lines| == 0 then []
    else DidsOf(lines[..|lines| - 1], h) + (if lines[|lines| - 1].pds == h then [lines[|lines| - 1].did] else [])
  }

  // ---------------------------------------------------------------------------
  // Grouping

  /** One turn of the loop: create the host's list if it has none, then push. */
  function AddDid(gs: Groups, pds: string, did: string): Groups {
    var i := FirstPos(HostsOf(gs), pds);
    if i < |gs| then gs[i := (pds, gs[i].1 + [did])] else gs + [(pds, [did])]
  }

  /** `groupedByPDS` after the loop over `lines`. */
  function Grouped(lines: seq<DidPds>): Groups
    decreases |lines|
  {
    if |lines| == 0 then []
    else AddDid(Grouped(lines[..|lines| - 1]), lines[|lines| - 1].pds, lines[|lines| - 1].did)
  }

  lemma {:induction false} DidsOfAbsent(lines: seq<DidPds>, h: string)
    requires h !in LineHosts(lines)
    ensures DidsOf(lines, h) == []
    decreases |lines|
  {
    if |lines| > 0 {
      var init := lines[..|lines| - 1];
      assert LineHosts(init) == LineHosts(lines)[..|lines| - 1];
      DidsOfAbsent(init, h);
      assert LineHosts(lines)[|lines| - 1] == lines[|lines| - 1].pds;
    }
  }

  lemma DidsOfSnoc(init: seq<DidPds>, l: DidPds, h: string)
    ensures DidsOf(init + [l], h) == DidsOf(init, h) + (if l.pds == h then [l.did] else [])
  {
    assert (init + [l])[..|init|] == init;
  }

  lemma LineHostsSnoc(init: seq<DidPds>, l: DidPds)
    ensures LineHosts(init + [l]) == LineHosts(init) + [l.pds]
  {
  }

  /** What the grouping of `lines` promises: hosts once each in order of first
      line, and each host's list its lines' DIDs in file order. */
  ghost predicate GroupsLines(g: Groups, lines: seq<DidPds>) {
    HostsOf(g) == Dedupe(LineHosts(lines))
    && forall k :: 0 <= k < |g| ==> g[k].1 == DidsOf(lines, g[k].0)
  }

  /** A line of a host already present extends that host's list. */
  lemma AddDidFound(g: Groups, init: seq<DidPds>, l: DidPds)
    requires GroupsLines(g, init)
    requires FirstPos(HostsOf(g), l.pds) < |g|
    ensures GroupsLines(AddDid(g, l.pds, l.did), init + [l])
  {
    var hs := HostsOf(g);
    var i := FirstPos(hs, l.pds);
    var after := g[i := (l.pds, g[i].1 + [l.did])];
    assert AddDid(g, l.pds, l.did) == after;
    LineHostsSnoc(init, l);
    DedupeSnoc(LineHosts(init), l.pds);
    assert Dedupe(LineHosts(init + [l])) == hs;
    DedupeElements(LineHosts(init));
    assert NoDup(hs);
    assert HostsOf(after) == hs by {
      assert after[i].0 == hs[i];
    }
    forall k | 0 <= k < |after| ensures after[k].1 == DidsOf(init + [l], after[k].0) {
      assert k != i ==> hs[k] != hs[i];
      ExtendOne(g, init, l, i, k);
    }
  }

  /** The list of host k after a line of host i: extended when k is i, kept otherwise. */
  lemma ExtendOne(g: Groups, init: seq<DidPds>, l: DidPds, i: nat, k: nat)
    requires i < |g| && k < |g| && g[i].0 == l.pds
    requires k != i ==> g[k].0 != l.pds
    requires g[k].1 == DidsOf(init, g[k].0)
    ensures g[i := (l.pds, g[i].1 + [l.did])][k].1 == DidsOf(init + [l], g[k].0)
  {
    DidsOfSnoc(init, l, g[k].0);
  }

  /** A line of a new host adds that host at the end with its one DID. */
  lemma AddDidNew(g: Groups, init: seq<DidPds>, l: DidPds)
    requires GroupsLines(g, init)
    requires FirstPos(HostsOf(g), l.pds) == |g|
    ensures GroupsLines(AddDid(g, l.pds, l.did), init + [l])
  {
    var after := AddDid(g, l.pds, l.did);
    LineHostsSnoc(init, l);
    DedupeSnoc(LineHosts(init), l.pds);
    DedupeElements(LineHosts(init));
    assert HostsOf(after) == HostsOf(g) + [l.pds];
    DidsOfAbsent(init, l.pds);
    forall k | 0 <= k < |after| ensures after[k].1 == DidsOf(init + [l], after[k].0) {
      DidsOfSnoc(init, l, after[k].0);
      if k < |g| {
        assert after[k] == g[k];
        assert HostsOf(g)[k] != l.pds;
      } else {
        assert after[k] == (l.pds, [l.did]);
      }
    }
  }

  /** The hosts appear in order of their first line, once each, and each host's
      list holds exactly its lines' DIDs in file order. */
  lemma {:induction false} GroupedSpec(lines: seq<DidPds>)
    ensures HostsOf(Grouped(lines)) == Dedupe(LineHosts(lines))
    ensures forall k :: 0 <= k < |Grouped(lines)| ==> Grouped(lines)[k].1 == DidsOf(lines, Grouped(lines)[k].0)
    decreases |lines|
  {
    if |lines| > 0 {
      var init, l := lines[..|lines| - 1], lines[|lines| - 1];
      GroupedSpec(init);
      assert lines == init + [l];
      if FirstPos(HostsOf(Grouped(init)), l.pds) < |Grouped(init)| {
        AddDidFound(Grouped(init), init, l);
      } else {
        AddDidNew(Grouped(init), init, l);
      }
    }
  }

  /** The `for await (const line of rl)` loop. */
  method GroupByHost(lines: seq<DidPds>) returns (groupedByPDS: Groups)
    ensures groupedByPDS == Grouped(lines)
    ensures HostsOf(groupedByPDS) == Dedupe(LineHosts(lines))
    ensures forall k :: 0 <= k < |groupedByPDS| ==> groupedByPDS[k].1 == DidsOf(lines, groupedByPDS[k].0)
  {
    groupedByPDS := [];
    for n := 0 to |lines|
      invariant groupedByPDS == Grouped(lines[..n])
    {
      var line := lines[n];
      assert lines[..n + 1][..n] == lines[..n];
      ghost var expected := AddDid(groupedByPDS, line.pds, line.did);
      var i := FirstPos(HostsOf(groupedByPDS), line.pds);
      if i == |groupedByPDS| {
        groupedByPDS := groupedByPDS + [(line.pds, [])];
        assert groupedByPDS[i].1 + [line.did] == [line.did];
      }
      groupedByPDS := groupedByPDS[i := (line.pds, groupedByPDS[i].1 + [line.did])];
      assert groupedByPDS == expected;
    }
    assert lines[..|lines|] == lines;
    GroupedSpec(lines);
  }

  // ---------------------------------------------------------------------------
  // The (did, pds) pairs a grouping stands for

  function GroupPairs(h: string, ds: seq<string>): (ps: seq<DidPds>)
    ensures |ps| == |ds| && forall j :: 0 <= j < |ds| ==> ps[j] == DidPds(ds[j], h)
  {
    seq(|ds|, j requires 0 <= j < |ds| => DidPds(ds[j], h))
  }

  /** The nested `for` loops of `selectAllDids` over a grouping. */
  function Pairs(gs: Groups): seq<DidPds>
    decreases |gs|
  {
    if |gs| == 0 then [] else Pairs(gs[..|gs| - 1]) + GroupPairs(gs[|gs| - 1].0, gs[|gs| - 1].1)
  }

  /** `Object.values(g).flat().length`. */
  function Count(gs: Groups): nat
    decreases |gs|
  {
    if |gs| == 0 then 0 else Count(gs[..|gs| - 1]) + |gs[|gs| - 1].1|
  }

  lemma PairsSnoc(gs: Groups, g: (string, seq<string>))
    ensures Pairs(gs + [g]) == Pairs(gs) + GroupPairs(g.0, g.1)
  {
    assert (gs + [g])[..|gs|] == gs;
  }
  lemma {:induction false} PairsCount(gs: Groups)
    ensures |Pairs(gs)| == Count(gs)
    decreases |gs|
  {
    if |gs| > 0 {
      PairsCount(gs[..|gs| - 1]);
    }
  }

  lemma GroupPairsSnoc(h: string, ds: seq<string>, d: string)
    ensures GroupPairs(h, ds + [d]) == GroupPairs(h, ds) + [DidPds(d, h)]
  {
  }

  lemma {:induction false} PairsAppend(a: Groups, b: Groups)
    ensures Pairs(a + b) == Pairs(a) + Pairs(b)
    decreases |b|
  {
    if |b| == 0 {
      assert a + b == a;
    } else {
      var init, last := b[..|b| - 1], b[|b| - 1];
      assert b == init + [last];
      assert a + b == (a + init) + [last];
      PairsSnoc(a + init, last);
      PairsSnoc(init, last);
      PairsAppend(a, init);
      ConcatAssoc(Pairs(a), Pairs(init), GroupPairs(last.0, last.1));
    }
  }

  /** Appending a DID to one host's list adds exactly that pair. */
  lemma PairsUpdate(gs: Groups, i: nat, d: string)
    requires i < |gs|
    ensures multiset(Pairs(gs[i := (gs[i].0, gs[i].1 + [d])]))
            == multiset(Pairs(gs)) + multiset{DidPds(d, gs[i].0)}
  {
    var before, after := gs[..i], gs[i + 1..];
    var g := gs[i];
    var g' := (g.0, g.1 + [d]);
    var u := gs[i := g'];
    assert gs == (before + [g]) + after;
    assert u == (before + [g']) + after;
    PairsAppend(before + [g], after);
    PairsAppend(before + [g'], after);
    PairsSnoc(before, g);
    PairsSnoc(before, g');
    GroupPairsSnoc(g.0, g.1, d);
    var pb, pa, pg := Pairs(before), Pairs(after), GroupPairs(g.0, g.1);
    assert Pairs(gs) == pb + pg + pa;
    assert Pairs(u) == pb + pg + [DidPds(d, g.0)] + pa;
    assert multiset(Pairs(u)) == multiset(pb) + multiset(pg) + multiset{DidPds(d, g.0)} + multiset(pa);
  }

  /** One turn of the grouping loop adds exactly its line's pair. */
  lemma AddDidKeepsLines(g: Groups, init: seq<DidPds>, l: DidPds)
    requires multiset(Pairs(g)) == multiset(init)
    ensures multiset(Pairs(AddDid(g, l.pds, l.did))) == multiset(init + [l])
  {
    var i := FirstPos(HostsOf(g), l.pds);
    if i < |g| {
      PairsUpdate(g, i, l.did);
    } else {
      PairsSnoc(g, (l.pds, [l.did]));
      assert GroupPairs(l.pds, [l.did]) == [l];
      assert AddDid(g, l.pds, l.did) == g + [(l.pds, [l.did])];
    }
  }

  /** Grouping reorders the lines and neither drops nor duplicates one. */
  lemma {:induction false} GroupedKeepsLines(lines: seq<DidPds>)
    ensures multiset(Pairs(Grouped(lines))) == multiset(lines)
    decreases |lines|
  {
    if |lines| > 0 {
      var init, l := lines[..|lines| - 1], lines[|lines| - 1];
      GroupedKeepsLines(init);
      assert lines == init + [l];
      AddDidKeepsLines(Grouped(init), init, l);
    }
  }

  // ---------------------------------------------------------------------------
  // Health entries

  /** `pdsHealthStatus[pds]` used as a condition: a missing entry is falsy. */
  predicate IsHealthy(status: map<string, bool>, pds: string) {
    pds in status && status[pds]
  }

  /** The hosts `sanitizePDSName` accepts, in order, and how many it rejects. */
  function Accepted(hosts: seq<string>, urlParses: string -> bool): seq<string>
    decreases |hosts|
  {
    if |hosts| == 0 then []
    else
      var r := SanitizePdsName(hosts[|hosts| - 1], urlParses);
      Accepted(hosts[..|hosts| - 1], urlParses) + (if r.Ok? then [r.value] else [])
  }

  function Rejected(hosts: seq<string>, urlParses: string -> bool): nat
    decreases |hosts|
  {
    if |hosts| == 0 then 0
    else Rejected(hosts[..|hosts| - 1], urlParses) + (if SanitizePdsName(hosts[|hosts| - 1], urlParses).Ok? then 0 else 1)
  }

  /** The health map after every checked host's result has been stored. */
  function HealthOf(hosts: seq<string>, healthy: string -> bool): map<string, bool>
    decreases |hosts|
  {
    if |hosts| == 0 then map[]
    else HealthOf(hosts[..|hosts| - 1], healthy)[hosts[|hosts| - 1] := healthy(hosts[|hosts| - 1])]
  }

  lemma {:induction false} AcceptedHosts(hosts: seq<string>, urlParses: string -> bool)
    ensures forall h :: h in Accepted(hosts, urlParses) <==> h in hosts && SanitizePdsName(h, urlParses).Ok?
    ensures |Accepted(hosts, urlParses)| + Rejected(hosts, urlParses) == |hosts|
    decreases |hosts|
  {
    if |hosts| > 0 {
      var init, last := hosts[..|hosts| - 1], hosts[|hosts| - 1];
      var r := SanitizePdsName(last, urlParses);
      AcceptedHosts(init, urlParses);
      assert hosts == init + [last];
      var acc := Accepted(init, urlParses) + (if r.Ok? then [r.value] else []);
      assert Accepted(hosts, urlParses) == acc;
      forall h ensures h in acc <==> h in hosts && SanitizePdsName(h, urlParses).Ok? {
        assert h in hosts <==> h in init || h == last;
      }
    }
  }

  lemma {:induction false} HealthOfEntries(hosts: seq<string>, healthy: string -> bool)
    ensures forall h :: h in HealthOf(hosts, healthy) <==> h in hosts
    ensures forall h :: h in HealthOf(hosts, healthy) ==> HealthOf(hosts, healthy)[h] == healthy(h)
    decreases |hosts|
  {
    if |hosts| > 0 {
      HealthOfEntries(hosts[..|hosts| - 1], healthy);
      assert hosts == hosts[..|hosts| - 1] + [hosts[|hosts| - 1]];
    }
  }

  /** On a fresh check a host has an entry exactly when `sanitizePDSName`
      accepts it, and the entry is that host's health; the hosts of a grouping
      are distinct, so rejected and checked hosts add up to all of them. */
  lemma FreshHealthEntries(gs: Groups, urlParses: string -> bool, healthy: string -> bool)
    ensures var status := HealthOf(Dedupe(Accepted(HostsOf(gs), urlParses)), healthy);
            (forall h :: h in status <==> h in HostsOf(gs) && SanitizePdsName(h, urlParses).Ok?)
            && (forall h :: h in status ==> status[h] == healthy(h))
    ensures NoDup(HostsOf(gs)) ==>
              Rejected(HostsOf(gs), urlParses) + |Dedupe(Accepted(HostsOf(gs), urlParses))| == |gs|
  {
    var acc := Accepted(HostsOf(gs), urlParses);
    AcceptedHosts(HostsOf(gs), urlParses);
    DedupeElements(acc);
    HealthOfEntries(Dedupe(acc), healthy);
    if NoDup(HostsOf(gs)) {
      AcceptedNoDup(HostsOf(gs), urlParses);
      DedupeOfDistinct(acc);
    }
  }

  lemma {:induction false} AcceptedNoDup(hosts: seq<string>, urlParses: string -> bool)
    requires NoDup(hosts)
    ensures NoDup(Accepted(hosts, urlParses))
    decreases |hosts|
  {
    if |hosts| > 0 {
      var init := hosts[..|hosts| - 1];
      assert NoDup(init);
      AcceptedNoDup(init, urlParses);
      AcceptedHosts(init, urlParses);
      assert hosts[|hosts| - 1] !in init;
    }
  }

  /** The first loop of the `catch` branch of `checkAllPDSHealth`: every host
      that `sanitizePDSName` accepts goes into a Set, the others are counted. */
  method SanitizeHosts(hosts: seq<string>, urlParses: string -> bool)
    returns (sanitized: seq<string>, failedCount: nat)
    ensures sanitized == Dedupe(Accepted(hosts, urlParses))
    ensures failedCount == Rejected(hosts, urlParses)
  {
    sanitized, failedCount := [], 0;
    for i := 0 to |hosts|
      invariant sanitized == Dedupe(Accepted(hosts[..i], urlParses))
      invariant failedCount == Rejected(hosts[..i], urlParses)
    {
      assert hosts[..i + 1][..i] == hosts[..i];
      var r := SanitizePdsName(hosts[i], urlParses);
      if r.Ok? {
        DedupeSnoc(Accepted(hosts[..i], urlParses), r.value);
        if r.value !in sanitized {
          sanitized := sanitized + [r.value];
        }
      } else {
        ConcatEmpty(Accepted(hosts[..i], urlParses));
        failedCount := failedCount + 1;
      }
    }
    assert hosts[..|hosts|] == hosts;
  }

  /** The health checks: each stores its host's result under its own key, so
      the order in which the concurrent checks finish does not matter. */
  method StoreHealth(sanitized: seq<string>, healthy: string -> bool) returns (status: map<string, bool>)
    ensures status == HealthOf(sanitized, healthy)
  {
    status := map[];
    for j := 0 to |sanitized|
      invariant status == HealthOf(sanitized[..j], healthy)
    {
      assert sanitized[..j + 1][..j] == sanitized[..j];
      status := status[sanitized[j] := healthy(sanitized[j])];
    }
    assert sanitized[..|sanitized|] == sanitized;
  }

  /** The `catch` branch of `checkAllPDSHealth`, taken when no health file can
      be read. `healthy` stands for `isPDSHealthy`. */
  method CheckHealth(gs: Groups, urlParses: string -> bool, healthy: string -> bool)
    returns (pdsHealthStatus: map<string, bool>, failedCount: nat)
    ensures pdsHealthStatus == HealthOf(Dedupe(Accepted(HostsOf(gs), urlParses)), healthy)
    ensures failedCount == Rejected(HostsOf(gs), urlParses)
    ensures forall h :: h in pdsHealthStatus <==> h in HostsOf(gs) && SanitizePdsName(h, urlParses).Ok?
    ensures forall h :: h in pdsHealthStatus ==> pdsHealthStatus[h] == healthy(h)
  {
    var sanitized;
    sanitized, failedCount := SanitizeHosts(HostsOf(gs), urlParses);
    pdsHealthStatus := StoreHealth(sanitized, healthy);
    FreshHealthEntries(gs, urlParses, healthy);
  }

  // ---------------------------------------------------------------------------
  // selectAllDids

  /** The `reduce` keeping the hosts with a truthy entry. */
  function HealthyGroups(gs: Groups, status: map<string, bool>): Groups
    decreases |gs|
  {
    if |gs| == 0 then []
    else HealthyGroups(gs[..|gs| - 1], status) + (if IsHealthy(status, gs[|gs| - 1].0) then [gs[|gs| - 1]] else [])
  }

  /** The `reduce` keeping the hosts without one. */
  function UnhealthyGroups(gs: Groups, status: map<string, bool>): Groups
    decreases |gs|
  {
    if |gs| == 0 then []
    else UnhealthyGroups(gs[..|gs| - 1], status) + (if IsHealthy(status, gs[|gs| - 1].0) then [] else [gs[|gs| - 1]])
  }

  lemma {:induction false} HealthyMembers(gs: Groups, status: map<string, bool>)
    ensures forall x :: x in HealthyGroups(gs, status) <==> x in gs && IsHealthy(status, x.0)
    decreases |gs|
  {
    if |gs| > 0 {
      HealthyMembers(gs[..|gs| - 1], status);
      assert gs == gs[..|gs| - 1] + [gs[|gs| - 1]];
    }
  }

  lemma {:induction false} UnhealthyMembers(gs: Groups, status: map<string, bool>)
    ensures forall x :: x in UnhealthyGroups(gs, status) <==> x in gs && !IsHealthy(status, x.0)
    decreases |gs|
  {
    if |gs| > 0 {
      UnhealthyMembers(gs[..|gs| - 1], status);
      assert gs == gs[..|gs| - 1] + [gs[|gs| - 1]];
    }
  }

  lemma CountSnoc(gs: Groups, g: (string, seq<string>))
    ensures Count(gs + [g]) == Count(gs) + |g.1|
  {
    assert (gs + [g])[..|gs|] == gs;
  }

  lemma {:induction false} PartitionCount(gs: Groups, status: map<string, bool>)
    ensures Count(HealthyGroups(gs, status)) + Count(UnhealthyGroups(gs, status)) == Count(gs)
    decreases |gs|
  {
    if |gs| > 0 {
      var init, last := gs[..|gs| - 1], gs[|gs| - 1];
      PartitionCount(init, status);
      if IsHealthy(status, last.0) {
        CountSnoc(HealthyGroups(init, status), last);
        ConcatEmpty(UnhealthyGroups(init, status));
      } else {
        CountSnoc(UnhealthyGroups(init, status), last);
        ConcatEmpty(HealthyGroups(init, status));
      }
    }
  }

  /** The two maps partition the grouping: every host goes to exactly one, by
      its entry, and the two DID totals add up to all DIDs. */
  lemma Partition(gs: Groups, status: map<string, bool>)
    ensures forall x :: x in HealthyGroups(gs, status) <==> x in gs && IsHealthy(status, x.0)
    ensures forall x :: x in UnhealthyGroups(gs, status) <==> x in gs && !IsHealthy(status, x.0)
    ensures Count(HealthyGroups(gs, status)) + Count(UnhealthyGroups(gs, status)) == Count(gs)
  {
    HealthyMembers(gs, status);
    UnhealthyMembers(gs, status);
    PartitionCount(gs, status);
  }



  /** The selected pairs are exactly the grouping's pairs whose host is healthy. */
  lemma {:induction false} SelectedPairs(gs: Groups, status: map<string, bool>)
    ensures forall x :: x in Pairs(HealthyGroups(gs, status)) <==> x in Pairs(gs) && IsHealthy(status, x.pds)
    decreases |gs|
  {
    if |gs| > 0 {
      var init, last := gs[..|gs| - 1], gs[|gs| - 1];
      SelectedPairs(init, status);
      var lp := GroupPairs(last.0, last.1);
      assert forall x :: x in lp ==> x.pds == last.0;
      if IsHealthy(status, last.0) {
        PairsSnoc(HealthyGroups(init, status), last);
      } else {
        ConcatEmpty(HealthyGroups(init, status));
      }
    }
  }

  /** `selectAllDids`: the healthy pairs, host by host in grouping order and
      DID by DID within a host, with both totals. */
  method SelectAllDids(groupedByPDS: Groups, pdsHealthStatus: map<string, bool>)
    returns (allDids: seq<DidPds>, totalHealthyDIDs: nat, totalUnhealthyDIDs: nat)
    ensures allDids == Pairs(HealthyGroups(groupedByPDS, pdsHealthStatus))
    ensures |allDids| == totalHealthyDIDs
    ensures totalHealthyDIDs + totalUnhealthyDIDs == Count(groupedByPDS)
    ensures forall x :: x in allDids <==> x in Pairs(groupedByPDS) && IsHealthy(pdsHealthStatus, x.pds)
  {
    var healthy := HealthyGroups(groupedByPDS, pdsHealthStatus);
    var unhealthy := UnhealthyGroups(groupedByPDS, pdsHealthStatus);
    totalHealthyDIDs := Count(healthy);
    totalUnhealthyDIDs := Count(unhealthy);
    allDids := [];
    for k := 0 to |healthy|
      invariant allDids == Pairs(healthy[..k])
    {
      var (pds, dids) := healthy[k];
      assert healthy[..k + 1] == healthy[..k] + [healthy[k]];
      PairsSnoc(healthy[..k], healthy[k]);
      var before := allDids;
      assert dids[..0] == [];
      for j := 0 to |dids|
        invariant allDids == before + GroupPairs(pds, dids[..j])
      {
        assert dids[..j + 1] == dids[..j] + [dids[j]];
        GroupPairsSnoc(pds, dids[..j], dids[j]);
        ConcatAssoc(before, GroupPairs(pds, dids[..j]), [DidPds(dids[j], pds)]);
        allDids := allDids + [DidPds(dids[j], pds)];
      }
      assert dids[..|dids|] == dids;
    }
    assert healthy[..|healthy|] == healthy;
    PairsCount(healthy);
    Partition(groupedByPDS, pdsHealthStatus);
    SelectedPairs(groupedByPDS, pdsHealthStatus);
  }

  /** From dump to work list: a line is selected exactly when its host is
      healthy, and on a fresh check a host `sanitizePDSName` rejects is never
      selected. */
  lemma SelectFromLines(lines: seq<DidPds>, status: map<string, bool>)
    ensures forall x :: x in Pairs(HealthyGroups(Grouped(lines), status)) <==> x in lines && IsHealthy(status, x.pds)
  {
    GroupedKeepsLines(lines);
    SelectedPairs(Grouped(lines), status);
    assert forall x :: x in Pairs(Grouped(lines)) <==> x in multiset(lines);
  }

  lemma RejectedHostNeverSelected(lines: seq<DidPds>, urlParses: string -> bool, healthy: string -> bool, x: DidPds)
    requires SanitizePdsName(x.pds, urlParses).Err?
    ensures x !in Pairs(HealthyGroups(Grouped(lines),
                        HealthOf(Dedupe(Accepted(HostsOf(Grouped(lines)), urlParses)), healthy)))
  {
    var status := HealthOf(Dedupe(Accepted(HostsOf(Grouped(lines)), urlParses)), healthy);
    FreshHealthEntries(Grouped(lines), urlParses, healthy);
    SelectedPairs(Grouped(lines), status);
  }
}
