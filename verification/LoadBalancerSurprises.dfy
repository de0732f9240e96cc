/** Runs that succeed, or fail, where one would expect otherwise. */
module LoadBalancerSurprises {
  import opened Firewalls
  import opened CloudModel
  import opened Names
  import opened HealthChecks
  import opened TargetPools
  import opened LoadBalancerSpec
  import opened ExternalLoadBalancer
  import opened LoadBalancerRuns

  const NOTHING := World(map[], map[], map[], map[], map[])

  // ---- a pool that refers to the wrong check ----

  /** After a successful run the pool refers to the wanted check exactly if it was made anew or did so before. */
  lemma WiredIff(cfg: Config, svc: Service, hosts: seq<Host>, s: World, t: World, out: Outcome, release: Release)
    requires EnsureResult(cfg, svc, hosts, s, t, out, release) && out.Ensured?
    ensures Wired(cfg, svc, t) <==> StaleBackend(s, svc) || Wired(cfg, svc, s)
  {
    hide FirewallReady, NeedsUpdate, VipOwned, Settled;
  }

  /**
   * A service gave up its local check and lost its pool, but the check could not be deleted; its IP may still be
   * held. It goes on with the nodes check, then back to a local one. The left-over check is taken for the pool's own,
   * so the pool keeps the nodes check, and the load balancer is settled like that.
   */
  method SwitchBack(c: Cloud, cfg: Config, svc: Service, path: string, port: int, hosts: seq<Host>)
      returns (first: Outcome, second: Outcome)
    requires c.Valid() && WellFormed(c.w) && c.reliable && UniqueIPs(c.w)
    requires Servable(svc, hosts) && svc.check.NodesCheck? && svc.requestedIP == ""
    requires svc.lb in c.w.checks && svc.lb !in c.w.pools
    modifies c
    ensures first.Ensured? && second.Ensured?
    ensures var local := svc.(check := LocalCheck(path, port));
            Settled(cfg, local, hosts, c.w) && !Wired(cfg, local, c.w)
  {
    hide EnsureResult, StepsOk, FullyBuilt, VipOwned, Settled, IPUsable, Buildable, UniqueIPs, WellFormed;
    var local := svc.(check := LocalCheck(path, port));
    OrphanFacts(c.w, svc, hosts);
    var release, again;
    ghost var m, n;
    first, release, m := EnsureExternalLoadBalancer(c, cfg, svc, false, HostsFound(hosts));
    ghost var t := c.w;
    Switched(cfg, svc, local, hosts, m, t, first, release);
    second, again, n := EnsureExternalLoadBalancer(c, cfg, local, false, HostsFound(hosts));
    Miswired(cfg, local, hosts, t, c.w, second, again);
  }

  lemma OrphanFacts(s: World, svc: Service, hosts: seq<Host>)
    requires WellFormed(s) && UniqueIPs(s) && Servable(svc, hosts) && svc.requestedIP == ""
    requires svc.lb in s.checks && svc.lb !in s.pools
    ensures Buildable(svc, hosts, s)
    ensures var m := TierCleaned(s, svc);
            && svc.lb in m.checks && svc.lb !in m.pools && svc.lb !in m.rules && TierOk(m, svc)
            && UniqueIPs(m) && Buildable(svc, hosts, m) && IPUsable(m, svc)
  {
  }

  /** After the first run: a pool on the nodes check beside the old local check, and nothing in the next run's way. */
  lemma Switched(cfg: Config, svc: Service, local: Service, hosts: seq<Host>, s: World, t: World, out: Outcome,
                 release: Release)
    requires Servable(svc, hosts) && svc.check.NodesCheck? && local.check.LocalCheck? &&
             local == svc.(check := local.check)
    requires svc.lb in s.checks && svc.lb !in s.pools && svc.lb !in s.rules && TierOk(s, svc)
    requires UniqueIPs(s) && Buildable(svc, hosts, s) && IPUsable(s, svc)
    requires EnsureResult(cfg, svc, hosts, s, t, out, release) && out.Ensured? && release != ReleaseFailed
    ensures UniqueIPs(t) && Buildable(local, hosts, t) && IPUsable(t, local) && TierCleaned(t, local) == t
    ensures !StaleBackend(t, local) && !Wired(cfg, local, t) && TierOk(t, local)
  {
    hide FirewallReady, NeedsUpdate, VipOwned, VipToKeep, Paths, HostPaths, UniqueIPs;
    StaysUsable(cfg, svc, hosts, s, t, out, release);
    DistinctNames(svc.lb, cfg.clusterID);
    NotAnnotated(t, local);
  }

  lemma Miswired(cfg: Config, local: Service, hosts: seq<Host>, t: World, u: World, out: Outcome, release: Release)
    requires EnsureResult(cfg, local, hosts, t, u, out, release) && out.Ensured?
    requires local.check.LocalCheck? && !StaleBackend(t, local) && !Wired(cfg, local, t) && TierOk(t, local)
    ensures Settled(cfg, local, hosts, u) && !Wired(cfg, local, u)
  {
    hide FullyBuilt, VipOwned, StaleBackend, VipToKeep;
    WiredIff(cfg, local, hosts, t, u, out, release);
  }

  // ---- a firewall that is never deleted ----

  /** A delete run removes the local check and fails on its firewall. */
  lemma FirewallLeft(cfg: Config, svc: Service, hc: HealthCheck, fw: Firewall) returns (s: World, t: World)
    requires ValidService(svc) && svc.check.LocalCheck?
    ensures var name, checks := CheckFirewallName(cfg.clusterID, svc.lb, false), [svc.lb];
            && s == NOTHING.(checks := map[svc.lb := hc], firewalls := map[name := fw])
            && t == NOTHING.(firewalls := map[name := fw])
            && Answers(s, t, Ok, TeardownPlan(s, cfg.clusterID, svc.lb, checks, DropCheck(0)))
            && NextStage(DropCheck(0), Ok, 1) == DropCheckFirewall(0)
            && Answers(t, t, Failed, TeardownPlan(t, cfg.clusterID, svc.lb, checks, DropCheckFirewall(0)))
            && NextStage(DropCheckFirewall(0), Failed, 1) == Done(false)
            && LeaksFirewall(cfg, svc, t)
  {
    s := NOTHING.(checks := map[svc.lb := hc], firewalls := map[CheckFirewallName(cfg.clusterID, svc.lb, false) := fw]);
    t := NOTHING.(firewalls := s.firewalls);
    assert s.checks - {svc.lb} == map[];
  }

  /** The retry succeeds and leaves the firewall, although every request is answered. */
  method RetryLeaks(cfg: Config, svc: Service, fw: Firewall) returns (ok: bool, ghost end: World)
    requires ValidService(svc) && svc.check.LocalCheck? && !svc.usesBackendService
    ensures ok && CheckFirewallName(cfg.clusterID, svc.lb, false) in end.firewalls
  {
    hide DeleteStepsOk, CheckFirewallName;
    var c := new Cloud(NOTHING.(firewalls := map[CheckFirewallName(cfg.clusterID, svc.lb, false) := fw]), true);
    ok := EnsureExternalLoadBalancerDeleted(c, cfg, svc);
    end := c.w;
  }

  // ---- an address that is never released ----

  /**
   * The requested IP is already reserved under the load balancer's own name, as a run that failed half-way leaves
   * it. It is taken for the user's: the rule is created on it and the address stays.
   */
  method OwnAddressStays(cfg: Config, svc: Service, hosts: seq<Host>) returns (out: Outcome, ghost end: World)
    requires Servable(svc, hosts) && svc.requestedIP != ""
    ensures out.Ensured? && out.created && svc.lb in end.addresses
  {
    hide StepsOk, FullyBuilt, VipOwned, Settled, IPUsable, Buildable, UniqueIPs, VipToKeep, WellFormed;
    var c := new Cloud(NOTHING.(addresses := map[svc.lb := Address(svc.requestedIP, TierOf(svc), External)]), true);
    OwnAddressFacts(svc, hosts, c.w);
    var release;
    ghost var m;
    out, release, m := EnsureExternalLoadBalancer(c, cfg, svc, false, HostsFound(hosts));
    end := c.w;
  }

  lemma OwnAddressFacts(svc: Service, hosts: seq<Host>, s: World)
    requires Servable(svc, hosts) && svc.requestedIP != ""
    requires s == NOTHING.(addresses := map[svc.lb := Address(svc.requestedIP, TierOf(svc), External)])
    ensures WellFormed(s) && TierCleaned(s, svc) == s && UniqueIPs(s) && Buildable(svc, hosts, s) && IPUsable(s, svc)
    ensures AsksForReserved(s, svc)
  {
    assert s.addresses[svc.lb].ip == svc.requestedIP;
  }

  // ---- a run that cannot succeed ----

  /**
   * The address of the load balancer's name reserves another IP than the rule's, and nobody reserves that one:
   * the rule's IP can be neither promoted nor found, so the run fails although every request is answered.
   */
  method StuckOnOtherIP(c: Cloud, cfg: Config, svc: Service, hosts: seq<Host>) returns (out: Outcome)
    requires c.Valid() && WellFormed(c.w) && c.reliable && UniqueIPs(c.w) && Servable(svc, hosts) &&
             Buildable(svc, hosts, c.w)
    requires svc.requestedIP == "" && svc.lb in c.w.rules && svc.lb in c.w.addresses && TierOk(c.w, svc)
    requires !c.w.Reserved(c.w.rules[svc.lb].ip)
    modifies c
    ensures !out.Ensured?
  {
    hide StepsOk, EnsureResult, FullyBuilt, VipOwned, Settled, Buildable, UniqueIPs, VipToKeep, WellFormed;
    NotAnnotated(c.w, svc);
    var release;
    ghost var m;
    out, release, m := EnsureExternalLoadBalancer(c, cfg, svc, false, HostsFound(hosts));
  }

  // ---- a shared firewall bound to one service's IP ----

  /**
   * The firewall of the shared check is bound to the IP of whichever service had it written, and the drift test does
   * not look at that: when a second service creates its pool, the firewall stays bound to the first one's IP.
   */
  method BoundToFirst(c: Cloud, cfg: Config, first: string, second: string)
    requires c.Valid() && c.reliable && first != "" && first != second
    requires CheckFirewallName(cfg.clusterID, "", true) !in c.w.firewalls
    modifies c
    ensures var name := CheckFirewallName(cfg.clusterID, "", true);
            name in c.w.firewalls && c.w.firewalls[name].destinationRanges == [first]
  {
    var name, desc := CheckFirewallName(cfg.clusterID, "", true), ClusterDescription(cfg.clusterID);
    var ok := EnsureCheckFirewall(c, name, desc, first, cfg.checkSourceRanges, NODES_CHECK_PORT);
    ok := EnsureCheckFirewall(c, name, desc, second, cfg.checkSourceRanges, NODES_CHECK_PORT);
  }

  // ---- a check whose port changed ----

  /**
   * The local check of a load balancer that is in order gets another port. The run succeeds and the check is asked on
   * the new port, but its firewall still opens the old one only, and is not looked at again while the pool stays.
   */
  method PortChanged(c: Cloud, cfg: Config, svc: Service, hosts: seq<Host>, port: int) returns (out: Outcome)
    requires c.Valid() && WellFormed(c.w) && c.reliable && UniqueIPs(c.w) && Servable(svc, hosts)
    requires svc.check.LocalCheck? && port != svc.check.port && svc.requestedIP == ""
    requires Settled(cfg, svc, hosts, c.w) && ProbesAdmitted(cfg, svc, c.w.firewalls) && svc.lb !in c.w.addresses
    modifies c
    ensures var changed := svc.(check := svc.check.(port := port));
            && out.Ensured? && CheckServes(cfg, changed, c.w)
            && ProbesAdmitted(cfg, svc, c.w.firewalls) && !ProbesAdmitted(cfg, changed, c.w.firewalls)
  {
    hide StepsOk, EnsureResult, VipOwned, Settled, Buildable, UniqueIPs, WellFormed, ProbesAdmitted, CheckServes,
      IPUsable;
    var changed := svc.(check := svc.check.(port := port));
    ChangedFacts(cfg, svc, changed, hosts, c.w);
    var release;
    ghost var m;
    out, release, m := EnsureExternalLoadBalancer(c, cfg, changed, false, HostsFound(hosts));
    StillOnOldPort(cfg, svc, changed, hosts, m, c.w, out, release);
  }

  lemma ChangedFacts(cfg: Config, svc: Service, changed: Service, hosts: seq<Host>, s: World)
    requires Servable(svc, hosts) && svc.check.LocalCheck? && changed.check.LocalCheck?
    requires changed == svc.(check := svc.check.(port := changed.check.port)) &&
             changed.check.port != svc.check.port && svc.requestedIP == ""
    requires Settled(cfg, svc, hosts, s) && ProbesAdmitted(cfg, svc, s.firewalls) && svc.lb !in s.addresses
    ensures Buildable(changed, hosts, s) && IPUsable(s, changed) && TierCleaned(s, changed) == s
    ensures !StaleBackend(s, changed) && !ProbesAdmitted(cfg, changed, s.firewalls)
  {
    hide FirewallReady, NeedsUpdate, RuleFits;
    NotAnnotated(s, changed);
    var name := CheckFirewallName(cfg.clusterID, svc.lb, false);
    assert FirewallOpens(s.firewalls[name], svc.check.port);
  }

  /** The firewall is as it was, so it opens the old port. */
  lemma StillOnOldPort(cfg: Config, svc: Service, changed: Service, hosts: seq<Host>, s: World, t: World, out: Outcome,
                       release: Release)
    requires svc.check.LocalCheck? && changed.check.LocalCheck? && changed == svc.(check := changed.check)
    requires ValidService(changed) && EnsureResult(cfg, changed, hosts, s, t, out, release) && out.Ensured?
    requires !StaleBackend(s, changed) && ProbesAdmitted(cfg, svc, s.firewalls) &&
             !ProbesAdmitted(cfg, changed, s.firewalls)
    ensures CheckServes(cfg, changed, t) && !ProbesAdmitted(cfg, changed, t.firewalls)
    ensures ProbesAdmitted(cfg, svc, t.firewalls)
  {
    hide FullyBuilt, VipOwned, Settled, CheckServes;
    ResultServes(cfg, changed, hosts, s, t, out, release);
    ProbesIff(cfg, changed, s, t);
    NotACheckFirewall(svc.lb, svc.lb, cfg.clusterID, false);
  }
}
