/** Unmanaged instance groups for internal load balancers: one per zone, or groups adopted from outside. */
module InstanceGroups {
  import opened Sorting
  import opened Text

  const MAX_PER_GROUP := 1000

  datatype Key = Key(zone: string, name: string)
  type Groups = map<Key, set<string>>

  datatype Response = Ok | NotFound | TooMany | Failed

  /**
   * How requests are answered: each as it should be; or so but for a removal, which may find an instance gone; or
   * any may fail.
   */
  datatype Quality = Exact | Answering | Failing

  class GroupCloud {
    const quality: Quality
    var groups: Groups
    /** Every state so far, one more for each request that writes. */
    ghost var trace: seq<Groups>

    constructor (initial: Groups, quality: Quality)
      ensures groups == initial && trace == [initial] && this.quality == quality
    {
      this.quality := quality;
      groups, trace := initial, [initial];
    }

    ghost predicate Valid()
      reads this
    {
      trace != [] && trace[|trace| - 1] == groups
    }

    /** A request that leaves `key` with `members`; it may fail, having taken effect or not. */
    method Write(key: Key, members: set<string>) returns (r: Response)
      requires Valid()
      modifies this
      ensures Valid() && trace == old(trace) + [groups]
      ensures r == Ok || r == Failed
      ensures groups == old(groups) || groups == old(groups)[key := members]
      ensures r == Ok ==> groups == old(groups)[key := members]
      ensures !quality.Failing? ==> r == Ok
    {
      var fails: bool, lands: bool := *, *;
      fails := fails && quality.Failing?;
      r := if fails then Failed else Ok;
      if !fails || lands {
        groups := groups[key := members];
      }
      trace := trace + [groups];
    }

    /** Whether a read fails. */
    method Fails() returns (fails: bool)
      ensures !quality.Failing? ==> !fails
    {
      fails := *;
      fails := fails && quality.Failing?;
    }

    /** No group takes more than 1000 members: then nobody is added. */
    method Add(key: Key, more: set<string>) returns (r: Response)
      requires Valid() && key in groups
      modifies this
      ensures Valid() && trace == old(trace) + [groups]
      ensures var full := old(groups)[key] + more;
              && (groups == old(groups) || (|full| <= MAX_PER_GROUP && groups == old(groups)[key := full]))
              && (r == Ok ==> |full| <= MAX_PER_GROUP && groups == old(groups)[key := full])
              && (!quality.Failing? ==> r == if |full| <= MAX_PER_GROUP then Ok else TooMany)
    {
      if |groups[key] + more| > MAX_PER_GROUP {
        trace := trace + [groups];
        return TooMany;
      }
      r := Write(key, groups[key] + more);
    }

    /** Removal answers `NotFound` when one of the instances is gone; then any part of it may have been done. */
    method Remove(key: Key, gone: set<string>) returns (r: Response)
      requires Valid() && key in groups
      modifies this
      ensures Valid() && trace == old(trace) + [groups]
      ensures key in groups && groups == old(groups)[key := groups[key]]
      ensures Removal(old(groups)[key], gone, groups[key], r)
      ensures quality.Exact? ==> r == Ok
      ensures quality.Answering? ==> r == Ok || r == NotFound
    {
      var missing: bool := *;
      if missing && !quality.Exact? {
        var done: set<string> := *;
        groups := groups[key := groups[key] - (gone * done)];
        trace := trace + [groups];
        return NotFound;
      }
      r := Write(key, groups[key] - gone);
    }
  }

  /** Removing `gone` from `members` may be answered `r` and leave `rest`. */
  ghost predicate Removal(members: set<string>, gone: set<string>, rest: set<string>, r: Response) {
    members - gone <= rest <= members && (r == Ok ==> rest == members - gone)
  }

  // ---- the first so many, in sorted order ----

  /** `t` is the `k` least members of `s`, or all of them. */
  ghost predicate IsFirst(t: set<string>, s: set<string>, k: nat) {
    && t <= s
    && |t| == (if |s| <= k then |s| else k)
    && forall x, y :: x in t && y in s && y !in t ==> StringLeq(x, y)
  }

  /** There is only one such set. */
  lemma FirstUnique(t: set<string>, u: set<string>, s: set<string>, k: nat)
    requires IsFirst(t, s, k) && IsFirst(u, s, k)
    ensures t == u
  {
    hide StringLeq;
    if t <= u {
      SubsetSize(t, u);
    } else if u <= t {
      SubsetSize(u, t);
    } else {
      var x :| x in t && x !in u;
      var y :| y in u && y !in t;
      assert StringLeq(x, y) && StringLeq(y, x);
      StringLeqAntisymmetric(x, y);
    }
  }

  method SortedList(s: set<string>) returns (xs: seq<string>)
    ensures Sorted(xs, StringLeq) && Distinct(xs) && |xs| == |s| && forall x :: x in xs <==> x in s
  {
    hide StringLeq;
    var ys: seq<string> := [];
    var left := s;
    while left != {}
      invariant left <= s && |ys| == |s| - |left|
      invariant Distinct(ys) && forall x :: x in ys <==> x in s && x !in left
      decreases left
    {
      var x :| x in left;
      ys := ys + [x];
      left := left - {x};
    }
    xs := Sort(ys, StringLeq);
    StringOrder();
    SortSorted(ys, StringLeq);
    SortMembers(ys, StringLeq);
    SortDistinct(ys, StringLeq);
  }

  /** The nodes cut down to the first 1000 in sorted order. */
  method Limited(nodes: set<string>) returns (t: set<string>)
    ensures IsFirst(t, nodes, MAX_PER_GROUP)
  {
    hide StringLeq;
    if |nodes| <= MAX_PER_GROUP { return nodes; }
    var xs := SortedList(nodes);
    var first := xs[..MAX_PER_GROUP];
    t := set x | x in first;
    DistinctCount(first);
    assert forall m :: 0 <= m < MAX_PER_GROUP ==> xs[m] == first[m] && xs[m] in t;
    forall x, y | x in t && y in nodes && y !in t
      ensures StringLeq(x, y)
    {
      var i :| 0 <= i < |first| && first[i] == x;
      var j :| 0 <= j < |xs| && xs[j] == y;
      assert j >= MAX_PER_GROUP;
    }
  }

  // ---- one group ----

  /** No other group changes, at any step. */
  ghost predicate OnlyGroup(s: Groups, t: Groups, key: Key) {
    && (forall k :: k in s && k != key ==> k in t && t[k] == s[k])
    && (forall k :: k in t && k != key ==> k in s)
  }

  ghost function Size(s: Groups, key: Key): nat {
    if key in s then |s[key]| else 0
  }

  /** From `s` on only this group changes, and it never exceeds the limit unless it did before. */
  ghost predicate PhaseState(s: Groups, t: Groups, key: Key) {
    OnlyGroup(s, t, key) && (Size(s, key) <= MAX_PER_GROUP ==> Size(t, key) <= MAX_PER_GROUP)
  }

  ghost predicate Phase(s: Groups, trace: seq<Groups>, from: nat, key: Key) {
    forall i :: from <= i < |trace| ==> PhaseState(s, trace[i], key)
  }

  ghost function MembersAt(s: Groups, key: Key): set<string> {
    if key in s then s[key] else {}
  }

  /** What may be left of `members` when the run goes on after the removal, if one is needed. */
  ghost predicate Goes(members: set<string>, wanted: set<string>, rest: set<string>) {
    if members <= wanted then rest == members
    else Removal(members, members - wanted, rest, NotFound)
  }

  /** A successful run may take a group from `members` to `final`: a removal not done in full is ignored. */
  ghost predicate Ends(members: set<string>, wanted: set<string>, final: set<string>) {
    exists rest ::
      && Goes(members, wanted, rest)
      && final == rest + (wanted - members)
      && (wanted <= members || |final| <= MAX_PER_GROUP)
  }

  /** Adding what is missing may ask for more members than a group takes. */
  ghost predicate CanBeRefused(members: set<string>, wanted: set<string>) {
    !(wanted <= members) && exists rest :: Goes(members, wanted, rest) && |rest + (wanted - members)| > MAX_PER_GROUP
  }

  /**
   * A successful run is sure to end with the wanted nodes exactly if nothing has to be removed, or if something has
   * to be added and the wanted nodes fill the group: then there is no room for one that should have gone.
   */
  lemma EndsExactly(members: set<string>, wanted: set<string>)
    requires |wanted| <= MAX_PER_GROUP
    ensures (forall final :: Ends(members, wanted, final) ==> final == wanted) <==>
            members <= wanted || (!(wanted <= members) && |wanted| == MAX_PER_GROUP)
  {
    if members <= wanted {
      assert members + (wanted - members) == wanted;
    } else if wanted <= members || |wanted| < MAX_PER_GROUP {
      var x :| x in members && x !in wanted;
      OneStays(members, wanted, x);
    } else {
      forall final | Ends(members, wanted, final)
        ensures final == wanted
      {
        EndsHolding(members, wanted, final);
        SubsetSize(wanted, final);
      }
    }
  }

  /** All are removed that should be, but one. */
  lemma OneStays(members: set<string>, wanted: set<string>, x: string)
    requires x in members && x !in wanted && (wanted <= members || |wanted| < MAX_PER_GROUP)
    ensures Ends(members, wanted, wanted + {x})
  {
    var rest := members * wanted + {x};
    assert Goes(members, wanted, rest);
    assert wanted + {x} == rest + (wanted - members);
  }

  /**
   * The run may be refused exactly if nodes have to go and to come, and together with the old ones they are too many.
   */
  lemma RefusedIff(members: set<string>, wanted: set<string>)
    requires |wanted| <= MAX_PER_GROUP
    ensures CanBeRefused(members, wanted) <==>
            !(members <= wanted) && !(wanted <= members) && |members + wanted| > MAX_PER_GROUP
  {
    assert members + wanted == members + (wanted - members);
    if members <= wanted {
      assert members + wanted == wanted;
    } else {
      assert Goes(members, wanted, members);
      forall rest | Goes(members, wanted, rest)
        ensures |rest + (wanted - members)| <= |members + wanted|
      {
        SubsetSize(rest + (wanted - members), members + wanted);
      }
    }
  }

  /** A group of 1000 that is to have one node exchanged may be asked to hold 1001. */
  lemma OneTooMany(members: set<string>, leaver: string, joiner: string)
    requires |members| == MAX_PER_GROUP && leaver in members && joiner !in members
    ensures var wanted := members - {leaver} + {joiner};
            |wanted| == MAX_PER_GROUP && |members + wanted| == MAX_PER_GROUP + 1 && CanBeRefused(members, wanted)
  {
    var wanted := members - {leaver} + {joiner};
    assert leaver !in wanted && joiner in wanted;
    assert members + wanted == members + {joiner};
    RefusedIff(members, wanted);
  }

  lemma EndsHolding(members: set<string>, wanted: set<string>, final: set<string>)
    requires Ends(members, wanted, final)
    ensures wanted <= final <= members + wanted
    ensures wanted <= members || |final| <= MAX_PER_GROUP
  {
  }

  /** First request: removes what is not wanted, if anything. */
  method RemoveUnwanted(c: GroupCloud, key: Key, wanted: set<string>) returns (r: Response)
    requires c.Valid() && key in c.groups
    modifies c
    ensures c.Valid() &&
            (c.trace == old(c.trace) + [c.groups] || (c.trace == old(c.trace) && c.groups == old(c.groups)))
    ensures key in c.groups && c.groups == old(c.groups)[key := c.groups[key]] && c.groups[key] <= old(c.groups)[key]
    ensures r == Ok || r == NotFound ==> Goes(old(c.groups)[key], wanted, c.groups[key])
    ensures r == Ok ==> c.groups[key] == old(c.groups)[key] * wanted
    ensures c.quality.Exact? ==> r == Ok
    ensures c.quality.Answering? ==> r == Ok || r == NotFound
  {
    var members := c.groups[key];
    r := Ok;
    if members - wanted != {} {
      r := c.Remove(key, members - wanted);
    } else {
      AllWanted(members, wanted);
    }
  }

  lemma AllWanted(members: set<string>, wanted: set<string>)
    requires members - wanted == {}
    ensures members <= wanted && members * wanted == members
  {
    forall x | x in members
      ensures x in wanted
    {
      assert x !in members - wanted;
    }
  }

  /** Fewer members, or an addition within the limit, keep the phase. */
  lemma MembersState(s: Groups, t: Groups, key: Key)
    requires key in s && key in t && t == s[key := t[key]]
    requires t[key] <= s[key] || |t[key]| <= MAX_PER_GROUP
    ensures PhaseState(s, t, key)
  {
    if t[key] <= s[key] { SubsetSize(t[key], s[key]); }
  }

  /** Second request: adds what is missing, if anything. */
  method AddMissing(c: GroupCloud, key: Key, more: set<string>) returns (ok: bool)
    requires c.Valid() && key in c.groups
    modifies c
    ensures c.Valid() &&
            (c.trace == old(c.trace) + [c.groups] || (c.trace == old(c.trace) && c.groups == old(c.groups)))
    ensures key in c.groups && c.groups == old(c.groups)[key := c.groups[key]]
    ensures var full := old(c.groups)[key] + more;
            && (c.groups[key] == old(c.groups)[key] || |c.groups[key]| <= MAX_PER_GROUP)
            && (ok ==> c.groups[key] == full && (more == {} || |full| <= MAX_PER_GROUP))
            && (!c.quality.Failing? ==> (ok <==> more == {} || |full| <= MAX_PER_GROUP))
  {
    if more == {} { return true; }
    var r := c.Add(key, more);
    ok := r == Ok;
  }

  /** Removes what is not wanted, then adds what is missing. */
  method ReplaceMembers(c: GroupCloud, key: Key, wanted: set<string>) returns (ok: bool)
    requires c.Valid() && key in c.groups && |wanted| <= MAX_PER_GROUP
    modifies c
    ensures c.Valid() && old(c.trace) <= c.trace
    ensures PhaseState(old(c.groups), c.groups, key) && Phase(old(c.groups), c.trace, |old(c.trace)|, key)
    ensures ok ==> key in c.groups && Ends(old(c.groups)[key], wanted, c.groups[key])
    ensures c.quality.Exact? ==> ok && c.groups[key] == wanted
    ensures c.quality.Answering? && !CanBeRefused(old(c.groups)[key], wanted) ==> ok
  {
    hide PhaseState, Ends, Goes, CanBeRefused;
    ghost var start := c.groups;
    var members := c.groups[key];
    var r := RemoveUnwanted(c, key, wanted);
    MembersState(start, c.groups, key);
    if r != Ok && r != NotFound { return false; }
    Replaced(members, wanted, c.groups[key]);
    ok := AddMissing(c, key, wanted - members);
    MembersState(start, c.groups, key);
  }

  /** What the second request, if one is needed, makes of what the first left. */
  lemma Replaced(members: set<string>, wanted: set<string>, rest: set<string>)
    requires Goes(members, wanted, rest) && |wanted| <= MAX_PER_GROUP
    ensures var final := rest + (wanted - members);
            && (rest == members * wanted ==> final == wanted)
            && (wanted - members == {} ==> Ends(members, wanted, final))
            && (|final| <= MAX_PER_GROUP ==> Ends(members, wanted, final))
            && (wanted - members != {} && |final| > MAX_PER_GROUP ==> CanBeRefused(members, wanted))
  {
    var final := rest + (wanted - members);
    if rest == members * wanted { assert final == wanted; }
    if wanted - members == {} { AllWanted(wanted, members); }
  }

  /**
   * `ensureInternalInstanceGroup`. That a removal was answered "not found" is ignored: then old members may be left
   * over, or the nodes to be added may be refused because the group would be too large.
   */
  method EnsureInstanceGroup(c: GroupCloud, key: Key, nodes: set<string>) returns (ok: bool, ghost wanted: set<string>)
    requires c.Valid()
    modifies c
    ensures c.Valid() && old(c.trace) <= c.trace
    ensures IsFirst(wanted, nodes, MAX_PER_GROUP)
    ensures PhaseState(old(c.groups), c.groups, key) && Phase(old(c.groups), c.trace, |old(c.trace)|, key)
    ensures ok ==> key in c.groups && Ends(MembersAt(old(c.groups), key), wanted, c.groups[key])
    ensures c.quality.Exact? ==> ok && c.groups[key] == wanted
    ensures c.quality.Answering? && !CanBeRefused(MembersAt(old(c.groups), key), wanted) ==> ok
  {
    hide IsFirst, Ends, CanBeRefused;
    ok := false;
    var first := Limited(nodes);
    wanted := first;
    WantedSize(wanted, nodes);
    var fails := c.Fails();
    if fails { return; }
    if key !in c.groups {
      var r := c.Write(key, {});
      if r != Ok { return; }
    }
    // Reading the group back, or listing its members.
    fails := c.Fails();
    if fails { return; }
    ghost var start := c.groups;
    ok := ReplaceMembers(c, key, first);
    PhasesCompose(old(c.groups), start, c.trace, |old(c.trace)|, key);
  }

  lemma PhasesCompose(s: Groups, m: Groups, trace: seq<Groups>, from: nat, key: Key)
    requires key in m && OnlyGroup(s, m, key)
    requires m == s || (key !in s && m == s[key := {}])
    requires forall i :: from <= i < |trace| ==> trace[i] == m || PhaseState(m, trace[i], key)
    ensures Phase(s, trace, from, key)
  {
    forall i | from <= i < |trace|
      ensures PhaseState(s, trace[i], key)
    {
    }
  }

  lemma WantedSize(t: set<string>, s: set<string>)
    requires IsFirst(t, s, MAX_PER_GROUP)
    ensures |t| <= MAX_PER_GROUP
  {
  }

  // ---- all zones ----

  function Fold(s: string): string {
    seq(|s|, i requires 0 <= i < |s| => if 'A' <= s[i] <= 'Z' then s[i] - 'A' + 'a' else s[i])
  }

  predicate EqualFold(s: string, t: string) {
    Fold(s) == Fold(t)
  }

  /** The same letter, in either case. */
  predicate SameLetter(a: char, b: char) {
    || a == b
    || ('A' <= a <= 'Z' && b as int == a as int + 32)
    || ('A' <= b <= 'Z' && a as int == b as int + 32)
  }

  lemma EqualFoldMeans(s: string, t: string)
    ensures EqualFold(s, t) <==> |s| == |t| && forall i :: 0 <= i < |s| ==> SameLetter(s[i], t[i])
  {
    if EqualFold(s, t) {
      forall i | 0 <= i < |s|
        ensures SameLetter(s[i], t[i])
      {
        assert Fold(s)[i] == Fold(t)[i];
      }
    }
  }

  /** What a run looks for: the name of the managed groups, the prefix of external ones, the found nodes per zone. */
  datatype Request = Request(name: string, prefix: string, found: map<string, set<string>>)

  /** A group of the zone under the configured prefix; an empty prefix turns adoption off. */
  predicate Candidate(k: Key, q: Request, zone: string) {
    k.zone == zone && q.prefix != "" && q.prefix <= k.name && !EqualFold(k.name, q.name)
  }

  /** External groups taken over as they are: they hold found nodes only. */
  ghost function Adoptable(s: Groups, q: Request, zone: string): set<Key>
    requires zone in q.found
  {
    set k | k in s && Candidate(k, q, zone) && s[k] <= q.found[zone]
  }

  /** In full: a group of the zone with the configured prefix, not named like the managed ones, of found nodes only. */
  lemma AdoptableIff(s: Groups, q: Request, zone: string, k: Key)
    requires zone in q.found
    ensures k in Adoptable(s, q, zone) <==>
            && k in s && k.zone == zone && s[k] <= q.found[zone]
            && q.prefix != "" && |q.prefix| <= |k.name| && k.name[..|q.prefix|] == q.prefix
            && !(|k.name| == |q.name| && forall i :: 0 <= i < |k.name| ==> SameLetter(k.name[i], q.name[i]))
  {
    EqualFoldMeans(k.name, q.name);
  }

  ghost function MembersOf(s: Groups, keys: set<Key>): set<string>
    requires keys <= s.Keys
  {
    set k, n | k in keys && n in s[k] :: n
  }

  /** The zone's nodes that no adopted group holds. */
  ghost function Rest(s: Groups, q: Request, zone: string): set<string>
    requires zone in q.found
  {
    q.found[zone] - MembersOf(s, Adoptable(s, q, zone))
  }

  /** The groups a run returns: every adopted one, and a managed one where nodes are left over. */
  ghost predicate Returned(s: Groups, q: Request, k: Key) {
    k.zone in q.found && (k in Adoptable(s, q, k.zone) || (k.name == q.name && Rest(s, q, k.zone) != {}))
  }

  /**
   * The managed group went from `s` to the first of `nodes`, by whatever answers; `sure` if every one was as it should.
   */
  ghost predicate Managed(s: Groups, t: Groups, key: Key, nodes: set<string>, sure: bool) {
    key in t && exists wanted ::
      && IsFirst(wanted, nodes, MAX_PER_GROUP)
      && Ends(MembersAt(s, key), wanted, t[key])
      && (sure ==> t[key] == wanted)
  }

  /** The zone's managed group may be refused the nodes that are missing. */
  ghost predicate ZoneRefusable(s: Groups, q: Request, zone: string)
    requires zone in q.found
  {
    exists wanted ::
      IsFirst(wanted, Rest(s, q, zone), MAX_PER_GROUP) && CanBeRefused(MembersAt(s, Key(zone, q.name)), wanted)
  }

  /** From `s` on only managed groups change, and none grows past its limit. */
  ghost predicate RunState(s: Groups, t: Groups, q: Request) {
    && (forall k: Key :: k.name != q.name || k.zone !in q.found ==> SameAt(s, t, k))
    && (forall z :: z in q.found && Size(s, Key(z, q.name)) <= MAX_PER_GROUP ==>
         Size(t, Key(z, q.name)) <= MAX_PER_GROUP)
  }

  ghost predicate SameAt(s: Groups, t: Groups, k: Key) {
    (k in s <==> k in t) && (k in s ==> t[k] == s[k])
  }

  /** The links of the groups adopted in one zone, and the nodes they hold; reading may fail. */
  method AdoptGroups(c: GroupCloud, q: Request, zone: string) returns (ok: bool, links: set<Key>, skip: set<string>)
    requires zone in q.found
    ensures !c.quality.Failing? ==> ok
    ensures ok ==> links == Adoptable(c.groups, q, zone) && skip == MembersOf(c.groups, links)
  {
    ok, links, skip := false, {}, {};
    var left := set k | k in c.groups && Candidate(k, q, zone);
    ghost var listed := left;
    while left != {}
      invariant left <= listed
      invariant links == set k | k in listed && k !in left && c.groups[k] <= q.found[zone]
      invariant skip == MembersOf(c.groups, links)
      decreases left
    {
      var fails := c.Fails();
      if fails { return; }
      var k :| k in left;
      ghost var before := links;
      if c.groups[k] <= q.found[zone] {
        links, skip := links + {k}, skip + c.groups[k];
        MembersMore(c.groups, before, k);
      }
      left := left - {k};
    }
    ok := true;
  }

  lemma MembersMore(s: Groups, keys: set<Key>, k: Key)
    requires keys <= s.Keys && k in s
    ensures MembersOf(s, keys + {k}) == MembersOf(s, keys) + s[k]
  {
  }

  /** First pass: adopts what it can in every zone and plans what is left; it writes nothing. */
  method PlanZones(c: GroupCloud, q: Request) returns (ok: bool, links: set<Key>, plan: map<string, set<string>>)
    ensures !c.quality.Failing? ==> ok
    ensures ok ==> forall k :: k in links <==> k.zone in q.found && k in Adoptable(c.groups, q, k.zone)
    ensures ok ==> forall z :: z in plan <==> z in q.found && Rest(c.groups, q, z) != {}
    ensures ok ==> forall z :: z in plan ==> plan[z] == Rest(c.groups, q, z)
  {
    ok, links, plan := false, {}, map[];
    var left := q.found.Keys;
    while left != {}
      invariant left <= q.found.Keys
      invariant forall k :: k in links <==> k.zone in q.found && k.zone !in left && k in Adoptable(c.groups, q, k.zone)
      invariant forall z :: z in plan <==> z in q.found && z !in left && Rest(c.groups, q, z) != {}
      invariant forall z :: z in plan ==> plan[z] == Rest(c.groups, q, z)
      decreases left
    {
      var zone :| zone in left;
      var done, more, skip := AdoptGroups(c, q, zone);
      if !done { return; }
      links := links + more;
      var rest := q.found[zone] - skip;
      if rest != {} { plan := plan[zone := rest]; }
      left := left - {zone};
    }
    ok := true;
  }

  lemma RunStep(s: Groups, m: Groups, t: Groups, q: Request, zone: string)
    requires zone in q.found && RunState(s, m, q) && PhaseState(m, t, Key(zone, q.name))
    ensures RunState(s, t, q)
  {
    forall z | z in q.found && Size(s, Key(z, q.name)) <= MAX_PER_GROUP
      ensures Size(t, Key(z, q.name)) <= MAX_PER_GROUP
    {
      assert Size(m, Key(z, q.name)) <= MAX_PER_GROUP;
    }
  }

  lemma NotRefused(s: Groups, q: Request, zone: string, wanted: set<string>)
    requires zone in q.found && IsFirst(wanted, Rest(s, q, zone), MAX_PER_GROUP) && !ZoneRefusable(s, q, zone)
    ensures !CanBeRefused(MembersAt(s, Key(zone, q.name)), wanted)
  {
  }

  /** Second pass, one zone: its managed group is brought to the nodes left over. */
  method EnsureZone(c: GroupCloud, q: Request, zone: string, rest: set<string>, ghost s: Groups, ghost from: nat)
      returns (ok: bool)
    requires c.Valid() && zone in q.found && from <= |c.trace| && rest == Rest(s, q, zone)
    requires RunState(s, c.groups, q) && SameAt(s, c.groups, Key(zone, q.name))
    requires forall i :: from <= i < |c.trace| ==> RunState(s, c.trace[i], q)
    modifies c
    ensures c.Valid() && old(c.trace) <= c.trace
    ensures RunState(s, c.groups, q)
    ensures forall i :: from <= i < |c.trace| ==> RunState(s, c.trace[i], q)
    ensures OnlyGroup(old(c.groups), c.groups, Key(zone, q.name))
    ensures ok ==> Managed(s, c.groups, Key(zone, q.name), rest, c.quality.Exact?)
    ensures c.quality.Exact? || (c.quality.Answering? && !ZoneRefusable(s, q, zone)) ==> ok
  {
    hide RunState, IsFirst, Ends, CanBeRefused, ZoneRefusable, Rest;
    ghost var m, earlier, key := c.groups, c.trace, Key(zone, q.name);
    ghost var wanted;
    ok, wanted := EnsureInstanceGroup(c, Key(zone, q.name), rest);
    if !ZoneRefusable(s, q, zone) { NotRefused(s, q, zone, wanted); }
    RunStep(s, m, c.groups, q, zone);
    forall i | from <= i < |c.trace|
      ensures RunState(s, c.trace[i], q)
    {
      if i < |earlier| {
        assert c.trace[i] == earlier[i];
      } else {
        RunStep(s, m, c.trace[i], q, zone);
      }
    }
  }

  lemma NothingChanged(s: Groups, q: Request)
    ensures RunState(s, s, q)
  {
  }

  lemma ManagedKept(s: Groups, m: Groups, t: Groups, changed: Key, key: Key, nodes: set<string>, sure: bool)
    requires OnlyGroup(m, t, changed) && key != changed && Managed(s, m, key, nodes, sure)
    ensures Managed(s, t, key, nodes, sure)
  {
    hide Ends, IsFirst;
  }

  ghost predicate Served(t: Groups, links: set<Key>, node: string) {
    exists k :: k in links && k in t && node in t[k]
  }

  /** In a zone of at most 1000 found nodes, each is in some returned group. */
  lemma EveryNodeServed(s: Groups, t: Groups, q: Request, links: set<Key>, sure: bool, zone: string, node: string)
    requires RunState(s, t, q)
    requires forall k :: k in links <==> Returned(s, q, k)
    requires forall z :: z in q.found && Rest(s, q, z) != {} ==> Managed(s, t, Key(z, q.name), Rest(s, q, z), sure)
    requires zone in q.found && node in q.found[zone] && |q.found[zone]| <= MAX_PER_GROUP
    ensures Served(t, links, node)
  {
    hide Ends;
    var rest := Rest(s, q, zone);
    if node in rest {
      var key := Key(zone, q.name);
      assert Returned(s, q, key) && Managed(s, t, key, rest, sure);
      var wanted :| IsFirst(wanted, rest, MAX_PER_GROUP) && Ends(MembersAt(s, key), wanted, t[key]);
      SubsetSize(rest, q.found[zone]);
      SubsetSize(wanted, rest);
      EndsHolding(MembersAt(s, key), wanted, t[key]);
    } else {
      var k :| k in Adoptable(s, q, zone) && node in s[k];
      assert Returned(s, q, k) && k.name != q.name;
    }
  }

  /**
   * `ensureInternalInstanceGroups`. On success the returned groups are the adopted ones, untouched,
   * and a managed one in each zone with nodes left over, brought to the first 1000 of those; in a zone of
   * at most 1000 nodes every node is served.
   */
  method EnsureInstanceGroups(c: GroupCloud, q: Request) returns (ok: bool, links: set<Key>)
    requires c.Valid()
    modifies c
    ensures c.Valid() && old(c.trace) <= c.trace
    ensures RunState(old(c.groups), c.groups, q)
    ensures forall i :: |old(c.trace)| <= i < |c.trace| ==> RunState(old(c.groups), c.trace[i], q)
    ensures ok ==> forall k :: k in links <==> Returned(old(c.groups), q, k)
    ensures ok ==> forall z :: z in q.found && Rest(old(c.groups), q, z) != {} ==>
      Managed(old(c.groups), c.groups, Key(z, q.name), Rest(old(c.groups), q, z), c.quality.Exact?)
    ensures ok ==> forall z, n :: z in q.found && |q.found[z]| <= MAX_PER_GROUP && n in q.found[z] ==>
      Served(c.groups, links, n)
    ensures c.quality.Exact? ==> ok
    ensures c.quality.Answering? && (forall z :: z in q.found ==> !ZoneRefusable(old(c.groups), q, z)) ==> ok
  {
    hide RunState, Managed, OnlyGroup, Rest, Served, SameAt, ZoneRefusable;
    ghost var s := c.groups;
    NothingChanged(s, q);
    AllSameAt(s);
    var plan;
    ok, links, plan := PlanZones(c, q);
    if !ok { return; }
    ok := false;
    var left := plan.Keys;
    ghost var adopted := links;
    while left != {}
      invariant c.Valid() && old(c.trace) <= c.trace && left <= plan.Keys
      invariant RunState(s, c.groups, q)
      invariant forall i :: |old(c.trace)| <= i < |c.trace| ==> RunState(s, c.trace[i], q)
      invariant forall k :: k in links <==> k in adopted || (k.name == q.name && k.zone in plan && k.zone !in left)
      invariant forall z :: z in left ==> SameAt(s, c.groups, Key(z, q.name))
      invariant forall z :: z in plan && z !in left ==> Managed(s, c.groups, Key(z, q.name), plan[z], c.quality.Exact?)
      decreases left
    {
      var zone :| zone in left;
      ghost var m := c.groups;
      ok := EnsureZone(c, q, zone, plan[zone], s, |old(c.trace)|);
      if !ok { return; }
      ok := false;
      forall z | z in plan && z !in left
        ensures Managed(s, c.groups, Key(z, q.name), plan[z], c.quality.Exact?)
      {
        ManagedKept(s, m, c.groups, Key(zone, q.name), Key(z, q.name), plan[z], c.quality.Exact?);
      }
      forall z | z in left && z != zone
        ensures SameAt(s, c.groups, Key(z, q.name))
      {
        StillSameAt(s, m, c.groups, Key(zone, q.name), Key(z, q.name));
      }
      links := links + {Key(zone, q.name)};
      left := left - {zone};
    }
    ok := true;
    forall z, n | z in q.found && |q.found[z]| <= MAX_PER_GROUP && n in q.found[z]
      ensures Served(c.groups, links, n)
    {
      EveryNodeServed(s, c.groups, q, links, c.quality.Exact?, z, n);
    }
  }

  lemma AllSameAt(s: Groups)
    ensures forall k :: SameAt(s, s, k)
  {
  }

  lemma StillSameAt(s: Groups, m: Groups, t: Groups, changed: Key, key: Key)
    requires OnlyGroup(m, t, changed) && key != changed && SameAt(s, m, key)
    ensures SameAt(s, t, key)
  {
  }
}
