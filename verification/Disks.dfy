/** Which disks are attached to which nodes: one node at a time, and for many nodes in one scan. */
module Disks {
  import opened Options
  import opened Instances

  /** For every disk asked about, whether the instance, if there is one, has it. */
  function Attachment(disks: seq<string>, instance: Option<Located>): map<string, bool> {
    map d | d in disks :: instance.Some? && d in instance.value.instance.disks
  }

  method DisksAreAttached(project: Project, zones: seq<string>, disks: seq<string>, node: string)
      returns (r: Option<map<string, bool>>)
    ensures Reachable(project, zones) ==> r.Some?
    ensures r.Some? ==> r.value == Attachment(disks, First(project, zones, Canonical(node)))
  {
    var attached: map<string, bool> := map[];
    for i := 0 to |disks|
      invariant attached == map d | d in disks[..i] :: false
    {
      assert disks[..i + 1] == disks[..i] + [disks[i]];
      attached := attached[disks[i] := false];
    }
    assert disks[..|disks|] == disks;
    var got := GetInstanceByName(project, zones, node);
    if got.None? { return None; }
    if got.value.None? { return Some(attached); }
    var devices := got.value.value.instance.disks;
    for j := 0 to |devices|
      invariant attached == map d | d in disks :: d in devices[..j]
    {
      assert devices[..j + 1] == devices[..j] + [devices[j]];
      for i := 0 to |disks|
        invariant attached.Keys == set d | d in disks
        invariant forall d :: d in disks ==> attached[d] == (d in devices[..j] || (d == devices[j] && d in disks[..i]))
      {
        assert disks[..i + 1] == disks[..i] + [disks[i]];
        if devices[j] == disks[i] {
          attached := attached[disks[i] := true];
        }
      }
      assert disks[..|disks|] == disks;
    }
    assert devices[..|devices|] == devices;
    return Some(attached);
  }

  method VerifyDisksAttachedToNode(disks: seq<string>, devices: seq<string>) returns (verified: map<string, bool>)
    ensures verified == map d | d in disks :: d in devices
  {
    var names: set<string> := {};
    for j := 0 to |devices|
      invariant names == set d | d in devices[..j]
    {
      assert devices[..j + 1] == devices[..j] + [devices[j]];
      names := names + {devices[j]};
    }
    assert devices[..|devices|] == devices;
    verified := map[];
    for i := 0 to |disks|
      invariant verified == map d | d in disks[..i] :: d in devices
    {
      assert disks[..i + 1] == disks[..i] + [disks[i]];
      verified := verified[disks[i] := disks[i] in names];
    }
    assert disks[..|disks|] == disks;
  }

  /** A list of the map's keys. */
  method KeyList<V>(m: map<string, V>) returns (keys: seq<string>)
    ensures forall k :: k in keys <==> k in m
  {
    keys := [];
    var left := m.Keys;
    while left != {}
      invariant left <= m.Keys
      invariant forall k :: k in keys <==> k in m && k !in left
      decreases left
    {
      var k :| k in left;
      keys := keys + [k];
      left := left - {k};
    }
  }

  /** The disks of each listed instance by its name. */
  method DisksByName(project: Project, zones: seq<string>, listed: seq<Located>, ghost names: seq<string>)
      returns (disks: map<string, seq<string>>)
    requires forall l :: l in listed <==> exists n :: n in names && First(project, zones, Canonical(n)) == Some(l)
    requires forall i, j :: 0 <= i < j < |listed| ==> listed[i].instance.name != listed[j].instance.name
    ensures forall n :: n in names ==>
              var f := First(project, zones, Canonical(n));
              if f.Some? then Canonical(n) in disks && disks[Canonical(n)] == f.value.instance.disks
              else Canonical(n) !in disks
  {
    disks := map[];
    for i := 0 to |listed|
      invariant forall j :: 0 <= j < i ==>
                listed[j].instance.name in disks && disks[listed[j].instance.name] == listed[j].instance.disks
      invariant forall k :: k in disks ==> exists j :: 0 <= j < i && listed[j].instance.name == k
    {
      disks := disks[listed[i].instance.name := listed[i].instance.disks];
    }
    forall n | n in names
      ensures var f := First(project, zones, Canonical(n));
              if f.Some? then Canonical(n) in disks && disks[Canonical(n)] == f.value.instance.disks
              else Canonical(n) !in disks
    {
      var f := First(project, zones, Canonical(n));
      FirstHasName(project, zones, Canonical(n));
      if f.Some? {
        assert f.value in listed;
      } else if Canonical(n) in disks {
        var j :| 0 <= j < |listed| && listed[j].instance.name == Canonical(n);
        assert listed[j] in listed;
        var m :| m in names && First(project, zones, Canonical(m)) == Some(listed[j]);
        FirstHasName(project, zones, Canonical(m));
      }
    }
  }

  lemma AttachmentIs(disks: seq<string>, devices: seq<string>, instance: Option<Located>)
    requires devices == if instance.Some? then instance.value.instance.disks else []
    ensures Attachment(disks, instance) == map d | d in disks :: d in devices
  {
  }

  /** The bulk form gives every node what `DisksAreAttached` gives it. */
  method BulkDisksAreAttached(project: Project, zones: seq<string>, nodePrefix: string,
                              diskByNodes: map<string, seq<string>>)
      returns (r: Option<map<string, map<string, bool>>>)
    ensures Reachable(project, zones) ==> r.Some?
    ensures r.Some? ==> r.value.Keys == diskByNodes.Keys
    ensures r.Some? ==> forall node :: node in diskByNodes ==>
              r.value[node] == Attachment(diskByNodes[node], First(project, zones, Canonical(node)))
  {
    hide First, Canonical, Attachment;
    var names := KeyList(diskByNodes);
    var ok, listed := GetFoundInstanceByNames(project, zones, nodePrefix, names);
    if !ok { return None; }
    var byName := DisksByName(project, zones, listed, names);
    var verified: map<string, map<string, bool>> := map[];
    for i := 0 to |names|
      invariant verified.Keys == set n | n in names[..i]
      invariant forall n :: n in names[..i] ==>
                verified[n] == Attachment(diskByNodes[n], First(project, zones, Canonical(n)))
    {
      assert names[..i + 1] == names[..i] + [names[i]];
      var node := names[i];
      var instanceName := Canonical(node);
      var devices := if instanceName in byName then byName[instanceName] else [];
      var v := VerifyDisksAttachedToNode(diskByNodes[node], devices);
      AttachmentIs(diskByNodes[node], devices, First(project, zones, instanceName));
      verified := verified[node := v];
    }
    assert names[..|names|] == names;
    return Some(verified);
  }
}
