/** Names of a load balancer's resources; ensuring its HTTP health check and that check's firewall. */
module Names {

  /** Load-balancer names are made from a service UID with every dash removed. */
  predicate IsLoadBalancerName(lb: string) {
    lb != "" && '-' !in lb
  }

  function NodesCheckName(clusterID: string): string { "k8s-" + clusterID + "-node" }

  function FirewallName(lb: string): string { "k8s-fw-" + lb }

  function CheckFirewallName(clusterID: string, check: string, isNodesCheck: bool): string {
    if isNodesCheck then NodesCheckName(clusterID) + "-http-hc" else "k8s-" + check + "-http-hc"
  }

  function ServiceDescription(name: string): string {
    "{\"kubernetes.io/service-name\":\"" + name + "\"}"
  }

  function ClusterDescription(clusterID: string): string {
    "{\"kubernetes.io/cluster-id\":\"" + clusterID + "\"}"
  }

  /** A load balancer's own check and firewalls never share a name with each other or with the shared ones. */
  lemma DistinctNames(lb: string, clusterID: string)
    requires IsLoadBalancerName(lb)
    ensures lb != NodesCheckName(clusterID)
    ensures FirewallName(lb) != CheckFirewallName(clusterID, lb, false)
    ensures FirewallName(lb) != CheckFirewallName(clusterID, lb, true)
    ensures CheckFirewallName(clusterID, lb, false) != CheckFirewallName(clusterID, lb, true)
  {
    assert NodesCheckName(clusterID)[3] == '-';
    DashNotInOwnFirewall(lb, lb + "-http-hc", |lb| + 5);
    DashNotInOwnFirewall(lb, clusterID + "-node-http-hc", |clusterID| + 10);
    assert CheckFirewallName(clusterID, lb, true) == "k8s-" + (clusterID + "-node-http-hc");
    assert CheckFirewallName(clusterID, lb, false) == "k8s-" + (lb + "-http-hc");
    var own, shared, k := CheckFirewallName(clusterID, lb, false), CheckFirewallName(clusterID, lb, true), |clusterID|;
    assert shared[4 + k] == '-';
    assert k < |lb| ==> own[4 + k] == lb[k];
  }

  /** A service's firewall is not the firewall of anybody's check. */
  lemma NotACheckFirewall(lb: string, pool: string, clusterID: string, isNodesCheck: bool)
    requires IsLoadBalancerName(lb)
    ensures FirewallName(lb) != CheckFirewallName(clusterID, pool, isNodesCheck)
  {
    if isNodesCheck {
      DashNotInOwnFirewall(lb, clusterID + "-node-http-hc", |clusterID| + 10);
      assert CheckFirewallName(clusterID, pool, true) == "k8s-" + (clusterID + "-node-http-hc");
    } else {
      DashNotInOwnFirewall(lb, pool + "-http-hc", |pool| + 5);
      assert CheckFirewallName(clusterID, pool, false) == "k8s-" + (pool + "-http-hc");
    }
  }

  /** Different checks, local or shared, have different firewalls. */
  lemma CheckFirewallsDiffer(clusterID: string, lb: string, h: string, pool: string, g: string)
    requires IsLoadBalancerName(lb) && IsLoadBalancerName(pool) && h != g
    requires h in {lb, NodesCheckName(clusterID)} && g in {pool, NodesCheckName(clusterID)}
    ensures CheckFirewallName(clusterID, h, h != lb) != CheckFirewallName(clusterID, g, g != pool)
  {
    DistinctNames(lb, clusterID);
    DistinctNames(pool, clusterID);
    if h == lb && g == pool { LocalFirewallsDiffer(clusterID, h, g); }
  }

  lemma LocalFirewallsDiffer(clusterID: string, h: string, g: string)
    requires h != g
    ensures CheckFirewallName(clusterID, h, false) != CheckFirewallName(clusterID, g, false)
  {
    Unwrap("k8s-", h, "-http-hc");
    Unwrap("k8s-", g, "-http-hc");
  }

  lemma Unwrap(before: string, s: string, after: string)
    ensures (before + s + after)[|before|..|before| + |s|] == s
  {
  }

  lemma DashNotInOwnFirewall(lb: string, other: string, i: nat)
    requires IsLoadBalancerName(lb)
    requires 5 <= i < |other| && other[i] == '-'
    ensures FirewallName(lb) != "k8s-" + other
  {
    var f, g := FirewallName(lb), "k8s-" + other;
    assert g[i + 4] == '-';
    assert i + 4 < |f| ==> f[i + 4] == lb[i - 3];
  }
}

module HealthChecks {
  import opened Firewalls
  import opened CloudModel
  import opened Names
  import opened Text
  import Sorting
  import PortRanges

  const INTERVAL_SECONDS := 8
  const TIMEOUT_SECONDS := 1
  const HEALTHY_THRESHOLD := 1
  const UNHEALTHY_THRESHOLD := 3

  const NODES_CHECK_PATH := "/healthz"
  const NODES_CHECK_PORT := 10256

  function MakeHealthCheck(name: string, path: string, port: int): HealthCheck {
    HealthCheck(port, path, ServiceDescription(name), INTERVAL_SECONDS, TIMEOUT_SECONDS, UNHEALTHY_THRESHOLD,
      HEALTHY_THRESHOLD)
  }

  function Max(a: int, b: int): int { if a > b then a else b }

  /** The new check with each number raised to the existing one where that is larger. */
  function Merge(hc: HealthCheck, newHC: HealthCheck): HealthCheck {
    newHC.(interval := Max(hc.interval, newHC.interval), timeout := Max(hc.timeout, newHC.timeout),
           unhealthy := Max(hc.unhealthy, newHC.unhealthy), healthy := Max(hc.healthy, newHC.healthy))
  }

  predicate NeedsUpdate(hc: HealthCheck, newHC: HealthCheck) {
    || hc.port != newHC.port
    || hc.path != newHC.path
    || hc.description != newHC.description
    || hc.interval < newHC.interval
    || hc.timeout < newHC.timeout
    || hc.unhealthy < newHC.unhealthy
    || hc.healthy < newHC.healthy
  }

  predicate NoSmaller(a: HealthCheck, b: HealthCheck) {
    a.interval <= b.interval && a.timeout <= b.timeout && a.unhealthy <= b.unhealthy && a.healthy <= b.healthy
  }

  /** No number of a health check present before and after went down. */
  ghost predicate ChecksGrow(s: World, t: World) {
    forall h :: h in s.checks && h in t.checks ==> NoSmaller(s.checks[h], t.checks[h])
  }

  /** From `s` only the check named `name` may differ, and it is not gone. */
  ghost predicate OnlyCheck(s: World, t: World, name: string) {
    && t == s.(checks := t.checks)
    && AgreeBut(s.checks, t.checks, {name})
    && (name in s.checks ==> name in t.checks)
  }

  ghost predicate CheckReady(s: World, name: string, path: string, port: int) {
    name in s.checks && !NeedsUpdate(s.checks[name], MakeHealthCheck(name, path, port))
  }

  /** Merging leaves nothing to update and lowers nothing. */
  lemma MergeSettles(hc: HealthCheck, newHC: HealthCheck)
    ensures !NeedsUpdate(Merge(hc, newHC), newHC)
    ensures NoSmaller(hc, Merge(hc, newHC))
    ensures !NeedsUpdate(hc, newHC) ==> Merge(hc, newHC) == hc
  {
  }

  /** How ensuring a check went: it was fine, or it was created or updated and read back. */
  ghost predicate CheckEnsured(s: World, t: World, name: string, ok: bool) {
    || (t == s && ok && name in s.checks)
    || (exists hc, r ::
          && (Answers(s, t, r, s.CreateCheck(name, hc)) ||
               (name in s.checks && Answers(s, t, r, s.UpdateCheck(name, hc))))
          && (ok ==> r == Ok && name in t.checks))
  }

  method EnsureHTTPHealthCheck(c: Cloud, name: string, path: string, port: int) returns (ok: bool)
    requires c.Valid()
    modifies c
    ensures c.OneRequest(old(c.trace), old(c.w))
    ensures OnlyCheck(old(c.w), c.w, name) && ChecksGrow(old(c.w), c.w)
    ensures ok ==> CheckReady(c.w, name, path, port)
    ensures old(CheckReady(c.w, name, path, port)) ==> c.w == old(c.w)
    ensures c.reliable ==> ok
    ensures CheckEnsured(old(c.w), c.w, name, ok)
  {
    var newHC := MakeHealthCheck(name, path, port);
    ok := false;
    var got := c.Get(c.w.checks, name);
    if !got.Found? {
      // A failed read counts as absent as well; creating then answers Conflict.
      var r := c.Request(c.w.CreateCheck(name, newHC));
      if r != Ok { return; }
      got := c.Get(c.w.checks, name);
      ok := got.Found?;
      return;
    }
    if NeedsUpdate(got.value, newHC) {
      MergeSettles(got.value, newHC);
      var r := c.Request(c.w.UpdateCheck(name, Merge(got.value, newHC)));
      if r != Ok { return; }
      got := c.Get(c.w.checks, name);
      ok := got.Found?;
      return;
    }
    ok := true;
  }

  // ---- firewalls ----

  /** From `s` only the firewall named `name` may differ, and it is not gone. */
  ghost predicate OnlyFirewall(s: World, t: World, name: string) {
    && t == s.(firewalls := t.firewalls)
    && AgreeBut(s.firewalls, t.firewalls, {name})
    && (name in s.firewalls ==> name in t.firewalls)
  }

  /** Tags come from the configuration or from listing the hosts, which may fail. */
  method HostTags(c: Cloud) returns (ok: bool, tags: seq<string>)
    ensures c.reliable ==> ok
  {
    ok, tags := *, *;
    ok := ok || c.reliable;
  }

  function WritePlan(s: World, name: string, fw: Firewall): Plan {
    if name in s.firewalls then s.PatchFirewall(name, fw) else s.CreateFirewall(name, fw)
  }

  /** How writing a firewall went: no request was made, or one was and `ok` tells its answer. */
  ghost predicate FirewallWritten(s: World, t: World, name: string, ok: bool) {
    || (t == s && (ok ==> name in s.firewalls))
    || (exists fw, r :: Answers(s, t, r, WritePlan(s, name, fw)) && (ok <==> r == Ok || r == Conflict))
  }

  /** Creates or patches; a conflict counts as done. */
  method WriteFirewall(c: Cloud, name: string, present: bool, desc: string, ip: string,
                       sourceRanges: set<string>, ports: seq<ServicePort>) returns (ok: bool)
    requires c.Valid() && ports != []
    requires present <==> name in c.w.firewalls
    modifies c
    ensures c.OneRequest(old(c.trace), old(c.w))
    ensures OnlyFirewall(old(c.w), c.w, name)
    ensures ok ==> name in c.w.firewalls &&
                   exists tags :: c.w.firewalls[name] == FirewallObject(desc, ip, sourceRanges, ports, tags)
    ensures c.reliable ==> ok
    ensures FirewallWritten(old(c.w), c.w, name, ok)
  {
    var tagged, tags := HostTags(c);
    if !tagged { return false; }
    var fw := FirewallObject(desc, ip, sourceRanges, ports, tags);
    var r := c.Request(if present then c.w.PatchFirewall(name, fw) else c.w.CreateFirewall(name, fw));
    ok := r == Ok || r == Conflict;
    assert Answers(old(c.w), c.w, r, WritePlan(old(c.w), name, fw));
  }

  /** The drift test on a health check's firewall. */
  predicate CheckFirewallFits(fw: Firewall, desc: string, port: int, sourceRanges: set<string>) {
    && fw.description == desc
    && |fw.allowed| == 1
    && fw.allowed[0].protocol == "tcp"
    && EqualStringSets(fw.allowed[0].ports, [Itoa(port)])
    && fw.sourceRanges == set r | r in sourceRanges :: Cidr(r)
  }

  /** Probes from these networks to that port get through, and nothing else does. */
  ghost predicate ProbesPass(fw: Firewall, port: int, nets: set<string>) {
    && |fw.allowed| == 1 && fw.allowed[0].protocol == "tcp"
    && (forall p :: FirewallOpens(fw, p) <==> p == port)
    && AdmitsExactly(fw, nets)
  }

  /** What a check's firewall does that passes the drift test, said on its fields. */
  lemma CheckFirewallMeans(fw: Firewall, desc: string, port: int, sourceRanges: set<string>)
    requires CheckFirewallFits(fw, desc, port, sourceRanges)
    ensures ProbesPass(fw, port, sourceRanges) && fw.description == desc
  {
    hide PortRanges.ReadRange, Itoa;
    var texts := fw.allowed[0].ports;
    SameMembers(texts, [Itoa(port)]);
    PortRanges.ReadSingle(port);
    assert texts[0] in texts && texts[0] in [Itoa(port)];
    forall p
      ensures FirewallOpens(fw, p) <==> p == port
    {
      if FirewallOpens(fw, p) {
        var i, j :|
          0 <= i < |fw.allowed| && 0 <= j < |fw.allowed[i].ports| && PortRanges.Opens(fw.allowed[i].ports[j], p);
        assert fw.allowed[i].ports[j] in texts;
      }
      if p == port { assert PortRanges.Opens(fw.allowed[0].ports[0], p); }
    }
  }

  method EnsureCheckFirewall(c: Cloud, fwName: string, desc: string, ip: string, sourceRanges: set<string>, port: int)
      returns (ok: bool)
    requires c.Valid()
    modifies c
    ensures c.OneRequest(old(c.trace), old(c.w))
    ensures OnlyFirewall(old(c.w), c.w, fwName)
    ensures ok ==> fwName in c.w.firewalls && CheckFirewallFits(c.w.firewalls[fwName], desc, port, sourceRanges)
    ensures c.reliable ==> ok
    ensures FirewallWritten(old(c.w), c.w, fwName, ok)
    ensures ok ==> ProbesPass(c.w.firewalls[fwName], port, sourceRanges) && c.w.firewalls[fwName].description == desc
    ensures ok ==> if old(fwName in c.w.firewalls && CheckFirewallFits(c.w.firewalls[fwName], desc, port, sourceRanges))
                   then c.w == old(c.w)
                   else c.w.firewalls[fwName].destinationRanges == if ip == "" then [] else [ip]
  {
    var ports := [ServicePort(TCP, port)];
    var got := c.Get(c.w.firewalls, fwName);
    if got.Unavailable? { return false; }
    if got.Found? && CheckFirewallFits(got.value, desc, port, sourceRanges) {
      CheckFirewallMeans(got.value, desc, port, sourceRanges);
      return true;
    }
    SinglePortText(port);
    ok := WriteFirewall(c, fwName, got.Found?, desc, ip, sourceRanges, ports);
    if ok { CheckFirewallMeans(c.w.firewalls[fwName], desc, port, sourceRanges); }
  }

  lemma SinglePortText(port: int)
    ensures PortRangeTexts([ServicePort(TCP, port)]) == [Itoa(port)]
  {
    var nums := PortNumbers([ServicePort(TCP, port)]);
    assert nums == [port];
    var s := Sorting.Sort(nums, IntLeq);
    assert s == [port];
    assert PortRanges.Ranges(nums) == [PortRanges.PortRange(port, port)];
  }
}
