/** Bringing the members of a target pool in line with the hosts, in bounded batches. */
module TargetPools {
  import opened CloudModel

  datatype Host = Host(zone: string, name: string) {
    function Path(): string { ZONES + zone + "/instances/" + name }
  }

  const MAX_PER_UPDATE := 1000
  const MAX_AT_CREATION := 200

  function Links(hosts: seq<Host>): seq<string> {
    seq(|hosts|, i requires 0 <= i < |hosts| => hosts[i].Path())
  }

  function HostPaths(hosts: seq<Host>): set<string> {
    set h | h in hosts :: h.Path()
  }

  lemma HostPathComparable(h: Host)
    ensures ComparablePath(h.Path()) == h.Path()
  {
    assert h.Path()[..|ZONES|] == ZONES;
  }

  /** The links name exactly the hosts' paths. */
  lemma LinksPaths(hosts: seq<Host>)
    ensures Paths(Links(hosts)) == HostPaths(hosts)
  {
    var links := Links(hosts);
    forall p
      ensures p in Paths(links) <==> p in HostPaths(hosts)
    {
      if p in Paths(links) {
        var l :| l in links && ComparablePath(l) == p;
        var i :| 0 <= i < |links| && links[i] == l;
        HostPathComparable(hosts[i]);
        assert hosts[i] in hosts;
      }
      if p in HostPaths(hosts) {
        var h :| h in hosts && h.Path() == p;
        var i :| 0 <= i < |hosts| && hosts[i] == h;
        HostPathComparable(h);
        assert links[i] in links;
      }
    }
  }

  predicate DistinctHosts(hosts: seq<Host>) { |HostPaths(hosts)| == |hosts| }

  /** The first so many of distinct hosts make a pool of distinct members. */
  lemma FirstDistinct(hosts: seq<Host>, k: nat)
    requires DistinctHosts(hosts) && k <= |hosts|
    ensures DistinctPaths(Links(hosts[..k]))
  {
    var a, b := hosts[..k], hosts[k..];
    LinksPaths(a);
    LinksPaths(b);
    PathsCount(Links(a));
    PathsCount(Links(b));
    assert hosts == a + b;
    assert HostPaths(hosts) == HostPaths(a) + HostPaths(b);
  }

  function Members(s: World, pool: string): set<string>
    requires pool in s.pools
  {
    Paths(s.pools[pool].instances)
  }

  ghost predicate PoolDistinct(s: World, pool: string) {
    pool in s.pools && DistinctPaths(s.pools[pool].instances)
  }

  /** `t` differs from `s` at most in the pool's members, and those lie between old ∩ wanted and old ∪ wanted. */
  ghost predicate Between(s: World, t: World, pool: string, wanted: set<string>) {
    && pool in s.pools && pool in t.pools
    && t == s.WithInstances(pool, t.pools[pool].instances)
    && Members(s, pool) * wanted <= Members(t, pool) <= Members(s, pool) + wanted
    && (PoolDistinct(s, pool) ==> PoolDistinct(t, pool))
  }

  ghost predicate AllBetween(s: World, trace: seq<World>, from: nat, pool: string, wanted: set<string>) {
    forall i :: from <= i < |trace| ==> Between(s, trace[i], pool, wanted)
  }

  /** Every host is a member, nobody else is, and the member list has the hosts' length. */
  ghost predicate HoldsExactly(s: World, pool: string, hosts: seq<Host>) {
    pool in s.pools && Members(s, pool) == HostPaths(hosts) && |s.pools[pool].instances| == |hosts|
  }

  lemma BetweenSame(s: World, pool: string, wanted: set<string>)
    requires pool in s.pools
    ensures Between(s, s, pool, wanted)
  {
    SamePool(s, pool);
  }

  function Elements(links: seq<string>): set<string> {
    set l | l in links
  }

  lemma ElementsAppend(a: seq<string>, b: seq<string>)
    ensures Elements(a + b) == Elements(a) + Elements(b)
  {
    forall l ensures l in a + b <==> l in a || l in b {}
  }

  /** Among distinct hosts, none has been seen before. */
  lemma NotBefore(hosts: seq<Host>, i: nat)
    requires DistinctHosts(hosts) && i < |hosts|
    ensures hosts[i].Path() !in HostPaths(hosts[..i])
  {
    var a, b := hosts[..i], hosts[..i + 1];
    FirstDistinct(hosts, i + 1);
    LinksPaths(a);
    LinksPaths(b);
    PathsCount(Links(a));
    assert b == a + [hosts[i]];
    assert HostPaths(b) == HostPaths(a) + {hosts[i].Path()};
  }

  /** What is to be added, in host order, and what is to be removed. */
  method Difference(members: set<string>, hosts: seq<Host>) returns (toAdd: seq<string>, toRemove: seq<string>)
    ensures HostPaths(hosts) - members <= Paths(toAdd) <= HostPaths(hosts)
    ensures Elements(toRemove) == members - HostPaths(hosts)
    ensures DistinctHosts(hosts) ==> Paths(toAdd) == HostPaths(hosts) - members
  {
    hide Paths, HostPaths, ComparablePath, DistinctHosts;
    var existing := members;
    toAdd, toRemove := [], [];
    NoPaths();
    assert hosts[..0] == [];
    for i := 0 to |hosts|
      invariant existing == members - HostPaths(hosts[..i])
      invariant HostPaths(hosts[..i]) - members <= Paths(toAdd) <= HostPaths(hosts)
      invariant DistinctHosts(hosts) ==> Paths(toAdd) == HostPaths(hosts[..i]) - members
    {
      var link := hosts[i].Path();
      OneMoreHost(hosts, i);
      if DistinctHosts(hosts) { NotBefore(hosts, i); }
      PathsAppend(toAdd, [link]);
      if link !in existing {
        toAdd := toAdd + [link];
      }
      existing := existing - {link};
    }
    assert hosts[..|hosts|] == hosts;
    var left := existing;
    while left != {}
      invariant left <= existing
      invariant Elements(toRemove) == existing - left
      decreases left
    {
      var link :| link in left;
      ElementsAppend(toRemove, [link]);
      toRemove := toRemove + [link];
      left := left - {link};
    }
  }

  lemma NoPaths()
    ensures Paths([]) == {} && HostPaths([]) == {}
  {
  }

  lemma OneMoreHost(hosts: seq<Host>, i: nat)
    requires i < |hosts|
    ensures HostPaths(hosts[..i + 1]) == HostPaths(hosts[..i]) + {hosts[i].Path()}
    ensures hosts[i].Path() in HostPaths(hosts) && Paths([hosts[i].Path()]) == {hosts[i].Path()}
  {
    HostPathComparable(hosts[i]);
    PathsOne(hosts[i].Path());
    assert hosts[..i + 1] == hosts[..i] + [hosts[i]];
    assert hosts[i] in hosts;
  }

  method UpdateTargetPool(c: Cloud, pool: string, hosts: seq<Host>) returns (ok: bool)
    requires c.Valid()
    modifies c
    ensures c.Valid() && old(c.trace) <= c.trace
    ensures AllBetween(old(c.w), c.trace, |old(c.trace)|, pool, HostPaths(hosts))
    ensures ok ==> HoldsExactly(c.w, pool, hosts)
    ensures pool !in old(c.w).pools ==> !ok && c.trace == old(c.trace)
    ensures old(HoldsExactly(c.w, pool, hosts)) ==> AllSame(old(c.w), c.trace, |old(c.trace)|)
    ensures old(HoldsExactly(c.w, pool, hosts)) && DistinctHosts(hosts) ==> c.trace == old(c.trace)
    ensures c.reliable && old(PoolDistinct(c.w, pool)) ==> (ok <==> DistinctHosts(hosts))
  {
    ok := false;
    var got := c.Get(c.w.pools, pool);
    if !got.Found? { return; }
    var toAdd, toRemove := Difference(Paths(got.value.instances), hosts);
    BetweenSame(c.w, pool, HostPaths(hosts));
    assert toRemove != [] ==> toRemove[0] in Elements(toRemove);
    assert toAdd != [] ==> ComparablePath(toAdd[0]) in Paths(toAdd);
    var r := AddBatches(c, pool, toAdd, HostPaths(hosts));
    if r != Ok { return; }
    r := RemoveBatches(c, pool, toRemove, HostPaths(hosts), old(c.w), |old(c.trace)|);
    if r != Ok { return; }
    got := c.Get(c.w.pools, pool);
    if !got.Found? || |got.value.instances| != |hosts| { return; }
    ok := true;
  }

  /** Requests of at most 1000 instances until nothing is left to add. */
  method AddBatches(c: Cloud, pool: string, links: seq<string>, ghost wanted: set<string>) returns (r: Response)
    requires c.Valid() && pool in c.w.pools
    requires wanted - Members(c.w, pool) <= Paths(links) <= wanted
    modifies c
    ensures c.Valid() && old(c.trace) <= c.trace
    ensures AllBetween(old(c.w), c.trace, |old(c.trace)|, pool, wanted)
    ensures Between(old(c.w), c.w, pool, wanted)
    ensures r == Ok ==> Members(c.w, pool) == Members(old(c.w), pool) + wanted
    ensures wanted <= Members(old(c.w), pool) ==> c.w == old(c.w) && AllSame(old(c.w), c.trace, |old(c.trace)|)
    ensures c.reliable ==> r == Ok
    ensures links == [] ==> c.trace == old(c.trace)
  {
    hide PoolDistinct, AddAll, Paths;
    ghost var start := c.w;
    BetweenSame(start, pool, wanted);
    var toAdd := links;
    r := Ok;
    while |toAdd| > 0
      invariant c.Valid() && old(c.trace) <= c.trace && r == Ok
      invariant Adding(start, c.w, pool, toAdd, wanted)
      invariant AllBetween(start, c.trace, |old(c.trace)|, pool, wanted)
      invariant wanted <= Members(start, pool) ==> c.w == start && AllSame(start, c.trace, |old(c.trace)|)
      invariant links == [] ==> c.trace == old(c.trace)
    {
      var count := if |toAdd| > MAX_PER_UPDATE then MAX_PER_UPDATE else |toAdd|;
      assert toAdd == toAdd[..count] + toAdd[count..];
      AddBatch(start, c.w, pool, toAdd[..count], toAdd[count..], wanted);
      r := AddInstances(c, pool, toAdd[..count]);
      if r != Ok { return; }
      toAdd := toAdd[count..];
    }
    PathsCount(toAdd);
  }

  method RemoveBatches(c: Cloud, pool: string, links: seq<string>, ghost wanted: set<string>, ghost start: World,
                       ghost from: nat)
      returns (r: Response)
    requires c.Valid() && Between(start, c.w, pool, wanted) && from <= |c.trace|
    requires AllBetween(start, c.trace, from, pool, wanted)
    requires Elements(links) == Members(start, pool) - wanted
    requires Members(c.w, pool) == Members(start, pool) + wanted
    modifies c
    ensures c.Valid() && old(c.trace) <= c.trace
    ensures AllBetween(start, c.trace, from, pool, wanted)
    ensures r == Ok ==> pool in c.w.pools && Members(c.w, pool) == wanted
    ensures links == [] ==> c.trace == old(c.trace)
    ensures c.reliable ==> r == Ok
    ensures PoolDistinct(start, pool) ==> PoolDistinct(c.w, pool)
  {
    hide PoolDistinct, RemoveAll, Paths;
    var toRemove := links;
    r := Ok;
    while |toRemove| > 0
      invariant c.Valid() && old(c.trace) <= c.trace && r == Ok
      invariant Removing(start, c.w, pool, toRemove, wanted)
      invariant AllBetween(start, c.trace, from, pool, wanted)
      invariant links == [] ==> c.trace == old(c.trace)
    {
      var count := if |toRemove| > MAX_PER_UPDATE then MAX_PER_UPDATE else |toRemove|;
      assert toRemove == toRemove[..count] + toRemove[count..];
      RemoveBatch(start, c.w, pool, toRemove[..count], toRemove[count..], wanted);
      r := RemoveInstances(c, pool, toRemove[..count]);
      if r != Ok { return; }
      toRemove := toRemove[count..];
    }
  }

  ghost predicate AllSame(s: World, trace: seq<World>, from: nat) {
    forall i :: from <= i < |trace| ==> trace[i] == s
  }

  /** The API takes between 1 and 1000 instances at a time. */
  method AddInstances(c: Cloud, pool: string, links: seq<string>) returns (r: Response)
    requires c.Valid() && 0 < |links| <= MAX_PER_UPDATE
    modifies c
    ensures c.Valid() && c.trace == old(c.trace) + [c.w]
    ensures Answers(old(c.w), c.w, r, old(c.w).AddInstances(pool, links))
    ensures c.reliable && pool in old(c.w).pools ==> r == Ok
  {
    r := c.Request(c.w.AddInstances(pool, links));
  }

  method RemoveInstances(c: Cloud, pool: string, links: seq<string>) returns (r: Response)
    requires c.Valid() && 0 < |links| <= MAX_PER_UPDATE
    modifies c
    ensures c.Valid() && c.trace == old(c.trace) + [c.w]
    ensures Answers(old(c.w), c.w, r, old(c.w).RemoveInstances(pool, links))
    ensures c.reliable && pool in old(c.w).pools ==> r == Ok
  {
    r := c.Request(c.w.RemoveInstances(pool, links));
  }

  /** Adding is under way: `left` is what still separates the pool from old ∪ wanted. */
  ghost predicate Adding(start: World, s: World, pool: string, left: seq<string>, wanted: set<string>) {
    && Between(start, s, pool, wanted)
    && Paths(left) <= wanted
    && Members(start, pool) <= Members(s, pool)
    && Members(s, pool) + Paths(left) == Members(start, pool) + wanted
  }

  ghost predicate Removing(start: World, s: World, pool: string, left: seq<string>, wanted: set<string>) {
    && Between(start, s, pool, wanted)
    && Elements(left) <= Members(start, pool) - wanted
    && wanted <= Members(s, pool) <= wanted + Elements(left)
  }

  /** Between still, with new members that lie between. */
  lemma BetweenNow(start: World, s: World, pool: string, urls: seq<string>, wanted: set<string>)
    requires Between(start, s, pool, wanted)
    requires Members(start, pool) * wanted <= Paths(urls) <= Members(start, pool) + wanted
    requires DistinctPaths(s.pools[pool].instances) ==> DistinctPaths(urls)
    ensures Between(start, s.WithInstances(pool, urls), pool, wanted)
  {
    hide Paths, DistinctPaths;
    var t := s.WithInstances(pool, urls);
    assert t.pools == start.pools[pool := start.pools[pool].(instances := urls)];
  }

  lemma AddBatch(start: World, s: World, pool: string, batch: seq<string>, rest: seq<string>, wanted: set<string>)
    requires Adding(start, s, pool, batch + rest, wanted)
    ensures var t := s.AddInstances(pool, batch).effect;
            && Adding(start, t, pool, rest, wanted)
            && (wanted <= Members(start, pool) && s == start ==> t == start)
  {
    hide Paths, AddAll, DistinctPaths, Between;
    var before := InPool(start, s, pool, wanted);
    var after := AddAll(before, batch);
    PathsAppend(batch, rest);
    AddAllPaths(before, batch);
    if DistinctPaths(before) { AddAllDistinct(before, batch); }
    BetweenNow(start, s, pool, after, wanted);
    if after == before { SamePool(s, pool); }
  }

  lemma RemoveBatch(start: World, s: World, pool: string, batch: seq<string>, rest: seq<string>, wanted: set<string>)
    requires Removing(start, s, pool, batch + rest, wanted)
    ensures Removing(start, s.RemoveInstances(pool, batch).effect, pool, rest, wanted)
  {
    hide Paths, RemoveAll, DistinctPaths, Between;
    var before := InPool(start, s, pool, wanted);
    ElementsAppend(batch, rest);
    RemoveAllPaths(before, batch);
    if DistinctPaths(before) { RemoveAllDistinct(before, batch); }
    assert Elements(batch) == set l | l in batch;
    BetweenNow(start, s, pool, RemoveAll(before, batch), wanted);
  }

  lemma InPool(start: World, s: World, pool: string, wanted: set<string>) returns (urls: seq<string>)
    requires Between(start, s, pool, wanted)
    ensures pool in start.pools && pool in s.pools && urls == s.pools[pool].instances
  {
    urls := s.pools[pool].instances;
  }

  lemma SamePool(s: World, pool: string)
    requires pool in s.pools
    ensures s.WithInstances(pool, s.pools[pool].instances) == s
  {
    assert s.pools[pool := s.pools[pool].(instances := s.pools[pool].instances)] == s.pools;
  }
}
