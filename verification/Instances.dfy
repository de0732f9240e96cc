/** Finding instances by name over the managed zones, and the disk lookups built on it. */
module Instances {
  import opened Options
  import opened Text
  import opened Sorting

  datatype Instance = Instance(name: string, id: nat, disks: seq<string>)

  /** An instance and the zone it was found in. */
  datatype Located = Located(zone: string, instance: Instance)

  /** One snapshot of the project: the instances of each zone, in listing order. Requests for any other zone fail. */
  type Project = map<string, seq<Instance>>

  /** The host name up to its first dot. */
  function Canonical(name: string): string {
    name[..IndexOf(name, '.')]
  }

  /** A host name without a dot is its own canonical name, and the domain after the first dot is dropped. */
  lemma CanonicalMeans(host: string, domain: string)
    requires '.' !in host
    ensures Canonical(host) == host && Canonical(host + "." + domain) == host
  {
    IndexOfAbsent(host, '.');
    IndexOfAppend(host, '.', domain);
    assert (host + ['.'] + domain)[..|host|] == host;
  }

  function InZone(project: Project, zone: string): seq<Instance> {
    if zone in project then project[zone] else []
  }

  /** The first instance of that name in a listing. */
  function Named(instances: seq<Instance>, name: string): Option<Instance> {
    if instances == [] then None
    else
      var earlier, last := Named(instances[..|instances| - 1], name), instances[|instances| - 1];
      if earlier.Some? then earlier else if last.name == name then Some(last) else None
  }

  function Locate(zone: string, instance: Option<Instance>): Option<Located> {
    if instance.Some? then Some(Located(zone, instance.value)) else None
  }

  function OrElse(a: Option<Located>, b: Option<Located>): Option<Located> {
    if a.Some? then a else b
  }

  /** The instance of that name in the first of the zones that has one: the reference for every lookup. */
  function First(project: Project, zones: seq<string>, name: string): Option<Located> {
    if zones == [] then None
    else
      var n := |zones| - 1;
      OrElse(First(project, zones[..n], name), Locate(zones[n], Named(InZone(project, zones[n]), name)))
  }

  lemma NamedHasName(instances: seq<Instance>, name: string)
    ensures Named(instances, name).Some? ==> Named(instances, name).value.name == name
  {
  }

  lemma FirstHasName(project: Project, zones: seq<string>, name: string)
    ensures First(project, zones, name).Some? ==> First(project, zones, name).value.instance.name == name
  {
    if zones != [] {
      FirstHasName(project, zones[..|zones| - 1], name);
      NamedHasName(InZone(project, zones[|zones| - 1]), name);
    }
  }

  predicate HasPrefix(s: string, prefix: string) {
    |prefix| <= |s| && s[..|prefix|] == prefix
  }

  /** The zone listing with a name-prefix filter. */
  function Filtered(instances: seq<Instance>, prefix: string): seq<Instance> {
    if instances == [] then []
    else
      var n := |instances| - 1;
      Filtered(instances[..n], prefix) + if HasPrefix(instances[n].name, prefix) then [instances[n]] else []
  }

  /** The filter loses no instance whose name has the prefix. */
  lemma {:induction false} FilterKeeps(instances: seq<Instance>, prefix: string, name: string)
    requires HasPrefix(name, prefix)
    ensures Named(Filtered(instances, prefix), name) == Named(instances, name)
  {
    if instances != [] {
      var n := |instances| - 1;
      FilterKeeps(instances[..n], prefix, name);
      var f, last := Filtered(instances[..n], prefix), instances[n];
      if HasPrefix(last.name, prefix) {
        assert (f + [last])[..|f|] == f;
        assert Filtered(instances, prefix) == f + [last];
      } else {
        assert Filtered(instances, prefix) == f;
      }
    }
  }

  lemma {:induction false} EarlierWins(instances: seq<Instance>, i: nat, name: string)
    requires i <= |instances| && Named(instances[..i], name).Some?
    ensures Named(instances, name) == Named(instances[..i], name)
    decreases |instances|
  {
    if i < |instances| {
      var n := |instances| - 1;
      assert instances[..n][..i] == instances[..i];
      EarlierWins(instances[..n], i, name);
    } else {
      assert instances[..i] == instances;
    }
  }

  lemma {:induction false} EarlierZoneWins(project: Project, zones: seq<string>, i: nat, name: string)
    requires i <= |zones| && First(project, zones[..i], name).Some?
    ensures First(project, zones, name) == First(project, zones[..i], name)
    decreases |zones|
  {
    if i < |zones| {
      var n := |zones| - 1;
      assert zones[..n][..i] == zones[..i];
      EarlierZoneWins(project, zones[..n], i, name);
    } else {
      assert zones[..i] == zones;
    }
  }

  // ---- the bulk scan ----

  /** Every managed zone can be reached. */
  ghost predicate Reachable(project: Project, zones: seq<string>) {
    forall z :: z in zones ==> z in project
  }

  ghost function CanonicalNames(names: seq<string>): set<string> {
    set n | n in names :: Canonical(n)
  }

  type Table = map<string, Option<Located>>

  ghost function Unfound(found: Table): set<string> {
    set n | n in found && found[n].None?
  }

  lemma NoNames()
    ensures CanonicalNames([]) == {}
  {
  }

  lemma OneMoreName(names: seq<string>, name: string)
    ensures CanonicalNames(names + [name]) == CanonicalNames(names) + {Canonical(name)}
  {
    hide Canonical;
    forall n ensures n in names + [name] <==> n in names || n == name {}
  }

  lemma OneMoreEntry(found: Table, name: string)
    ensures found[name := None].Keys == found.Keys + {name} && |found[name := None].Keys| <= |found.Keys| + 1
  {
  }

  lemma EmptyPrefix()
    ensures forall s :: HasPrefix(s, "")
  {
  }

  /** The wanted canonical names, and the prefix to filter by: dropped if some name lacks it. */
  method Wanted(names: seq<string>, nodePrefix: string) returns (found: Table, prefix: string)
    ensures found.Keys == CanonicalNames(names) && |found.Keys| <= |names|
    ensures forall n :: n in found ==> found[n].None? && HasPrefix(n, prefix)
  {
    hide Canonical, CanonicalNames, HasPrefix;
    found, prefix := map[], nodePrefix;
    NoNames();
    EmptyPrefix();
    for i := 0 to |names|
      invariant found.Keys == CanonicalNames(names[..i]) && |found.Keys| <= i
      invariant forall n :: n in found ==> found[n].None? && HasPrefix(n, prefix)
      invariant prefix == nodePrefix || prefix == ""
    {
      var name := Canonical(names[i]);
      assert names[..i + 1] == names[..i] + [names[i]];
      OneMoreName(names[..i], names[i]);
      if !HasPrefix(name, nodePrefix) {
        prefix := "";
      }
      OneMoreEntry(found, name);
      found := found[name := None];
    }
    assert names[..|names|] == names;
  }

  /** One zone's listing: fills in names not found before, and stops once the counter is used up. */
  method ScanZone(zone: string, listing: seq<Instance>, found0: Table, remaining0: nat)
      returns (found: Table, remaining: nat)
    requires |Unfound(found0)| <= remaining0
    ensures found.Keys == found0.Keys && |Unfound(found)| <= remaining
    ensures forall n :: n in found ==> found[n] == OrElse(found0[n], Locate(zone, Named(listing, n)))
  {
    found, remaining := found0, remaining0;
    var i := 0;
    while i < |listing| && remaining > 0
      invariant i <= |listing|
      invariant found.Keys == found0.Keys && |Unfound(found)| <= remaining
      invariant forall n :: n in found ==> found[n] == OrElse(found0[n], Locate(zone, Named(listing[..i], n)))
    {
      var inst := listing[i];
      assert listing[..i + 1][..i] == listing[..i];
      if inst.name in found && found[inst.name].None? {
        ghost var before := found;
        found := found[inst.name := Some(Located(zone, inst))];
        assert Unfound(found) == Unfound(before) - {inst.name};
        remaining := remaining - 1;
      }
      i := i + 1;
    }
    if remaining == 0 {
      assert Unfound(found) == {};
      forall n | n in found
        ensures found[n] == OrElse(found0[n], Locate(zone, Named(listing, n)))
      {
        assert n !in Unfound(found);
        if found0[n].None? { EarlierWins(listing, i, n); }
      }
    } else {
      assert listing[..i] == listing;
    }
  }

  /** Every wanted name with the instance the reference lookup gives, despite filter, counter and early exits. */
  method FindAll(project: Project, zones: seq<string>, nodePrefix: string, names: seq<string>)
      returns (ok: bool, found: Table)
    ensures Reachable(project, zones) ==> ok
    ensures ok ==> found.Keys == CanonicalNames(names)
    ensures ok ==> forall n :: n in found ==> found[n] == First(project, zones, n)
  {
    hide CanonicalNames, Canonical, HasPrefix, Named, Filtered;
    var prefix;
    found, prefix := Wanted(names, nodePrefix);
    var remaining: nat := |names|;
    SubsetSize(Unfound(found), found.Keys);
    var z := 0;
    while z < |zones| && remaining > 0
      invariant z <= |zones|
      invariant found.Keys == CanonicalNames(names) && |Unfound(found)| <= remaining
      invariant forall n :: n in found ==> HasPrefix(n, prefix) && found[n] == First(project, zones[..z], n)
    {
      if zones[z] !in project { return false, found; }
      ghost var before := found;
      var listing := Filtered(InZone(project, zones[z]), prefix);
      found, remaining := ScanZone(zones[z], listing, found, remaining);
      assert zones[..z + 1][..z] == zones[..z];
      forall n | n in found
        ensures found[n] == First(project, zones[..z + 1], n)
      {
        FilterKeeps(InZone(project, zones[z]), prefix, n);
      }
      z := z + 1;
    }
    ok := true;
    if z < |zones| {
      assert Unfound(found) == {};
      forall n | n in found
        ensures found[n] == First(project, zones, n)
      {
        assert n !in Unfound(found);
        EarlierZoneWins(project, zones, z, n);
      }
    } else {
      assert zones[..z] == zones;
    }
  }

  /** `getFoundInstanceByNames`: the instances that were found, in no particular order, each name once. */
  method GetFoundInstanceByNames(project: Project, zones: seq<string>, nodePrefix: string, names: seq<string>)
      returns (ok: bool, ret: seq<Located>)
    ensures Reachable(project, zones) ==> ok
    ensures ok ==> forall l :: l in ret <==> exists n :: n in names && First(project, zones, Canonical(n)) == Some(l)
    ensures ok ==> forall i, j :: 0 <= i < j < |ret| ==> ret[i].instance.name != ret[j].instance.name
  {
    var found;
    ok, found := FindAll(project, zones, nodePrefix, names);
    ret := [];
    if !ok { return; }
    var left := found.Keys;
    while left != {}
      invariant left <= found.Keys
      invariant forall l :: l in ret <==> exists n :: n in found.Keys - left && found[n] == Some(l)
      invariant forall i :: 0 <= i < |ret| ==> ret[i].instance.name !in left
      invariant forall i, j :: 0 <= i < j < |ret| ==> ret[i].instance.name != ret[j].instance.name
      decreases left
    {
      var name :| name in left;
      FirstHasName(project, zones, name);
      ghost var before := ret;
      if found[name].Some? {
        ret := ret + [found[name].value];
      }
      left := left - {name};
      forall l
        ensures l in ret <==> exists n :: n in found.Keys - left && found[n] == Some(l)
      {
        if found[name] == Some(l) { assert name in found.Keys - left; }
        if l in before {
          var n :| n in found.Keys - (left + {name}) && found[n] == Some(l);
          assert n in found.Keys - left;
        }
      }
    }
    forall l
      ensures l in ret <==> exists n :: n in names && First(project, zones, Canonical(n)) == Some(l)
    {
      if l in ret {
        var k :| k in found.Keys - left && found[k] == Some(l);
        var n :| n in names && Canonical(n) == k;
      }
      if n :| n in names && First(project, zones, Canonical(n)) == Some(l) {
        assert Canonical(n) in found.Keys - left;
      }
    }
  }

  /** `getInstanceByName`: zone by zone, by name. `Some(None)` means not found, `None` an error. */
  method GetInstanceByName(project: Project, zones: seq<string>, name: string) returns (r: Option<Option<Located>>)
    ensures Reachable(project, zones) ==> r.Some?
    ensures r.Some? ==> r.value == First(project, zones, Canonical(name))
  {
    for z := 0 to |zones|
      invariant First(project, zones[..z], Canonical(name)).None?
    {
      if zones[z] !in project { return None; }
      assert zones[..z + 1][..z] == zones[..z];
      var got := Named(InZone(project, zones[z]), Canonical(name));
      if got.Some? {
        EarlierZoneWins(project, zones, z + 1, Canonical(name));
        return Some(Some(Located(zones[z], got.value)));
      }
    }
    assert zones[..|zones|] == zones;
    return Some(None);
  }
}
