/** Whatever failed before, a run whose every request is answered puts things right. */
module LoadBalancerRecovery {
  import opened CloudModel
  import opened TargetPools
  import opened LoadBalancerSpec
  import opened ExternalLoadBalancer
  import opened LoadBalancerRuns

  /** The service asks for no IP of its own, and its hosts are distinct. */
  ghost predicate Modest(op: Op) {
    ValidService(op.svc) && op.svc.requestedIP == "" && DistinctHosts(HostsOf(op))
  }

  /** A run of a modest operation that starts in a tidy world keeps it tidy. */
  lemma TidyStep(cfg: Config, op: Op, start: World, s: World, t: World)
    requires Modest(op) && TidyWorld(start) && OpStep(cfg, op, start, s, t)
    ensures TidyWorld(t)
  {
    hide FullyBuilt, WellFormed, Open, Born, Settled, OnlyRemoves, OthersIPs, VipToKeep, PoolChecks, OwnOnly,
      VipOwned, Shuns, Tidy;
  }

  /** The world is tidy at every moment of any history of modest operations that starts so. */
  lemma {:induction false} AlwaysTidy(cfg: Config, ops: seq<Op>, trace: seq<World>, from: nat, i: nat)
    requires 0 < from <= |trace| && from - 1 <= i < |trace|
    requires History(cfg, ops, trace, from) && forall k :: 0 <= k < |ops| ==> Modest(ops[k])
    requires TidyWorld(trace[from - 1])
    ensures TidyWorld(trace[i])
    decreases i
  {
    hide OpStep, TidyWorld, Modest;
    if i >= from {
      assert Explained(cfg, ops, trace, from, i);
      var k, j :| 0 <= k < |ops| && from - 1 <= j < i && OpStep(cfg, ops[k], trace[j], trace[i - 1], trace[i]);
      AlwaysTidy(cfg, ops, trace, from, j);
      TidyStep(cfg, ops[k], trace[j], trace[i - 1], trace[i]);
    }
  }

  /** In a tidy world nothing stands in the way of a servable service that asks for no IP. */
  lemma TidyIsUsable(s: World, svc: Service, hosts: seq<Host>)
    requires TidyWorld(s) && Servable(svc, hosts) && svc.requestedIP == ""
    ensures UniqueIPs(s) && Buildable(svc, hosts, s) && IPUsable(TierCleaned(s, svc), svc)
  {
    hide DistinctPaths, DistinctHosts;
    var m := TierCleaned(s, svc);
    if svc.lb in m.rules && svc.lb in m.addresses {
      assert m.addresses[svc.lb].ip == m.rules[svc.lb].ip;
    }
  }

  /**
   * After any history of ensure, update and delete runs of services that ask for no IP and have distinct hosts,
   * whatever failed in it, a single run whose every request is answered succeeds and leaves the load balancer fully
   * built.
   */
  method Recover(c: Cloud, cfg: Config, ops: seq<Op>, svc: Service, hosts: seq<Host>)
      returns (out: Outcome, ghost end: World)
    requires c.Valid() && WellFormed(c.w) && TidyWorld(c.w)
    requires forall k :: 0 <= k < |ops| ==> Modest(ops[k])
    requires Servable(svc, hosts) && svc.requestedIP == ""
    modifies c
    ensures out.Ensured? && FullyBuilt(cfg, svc, hosts, end) && end.rules[svc.lb].ip == out.ip
  {
    hide WellFormed, TidyWorld, History, StepsOk, EnsureResult, UniqueIPs, Buildable, IPUsable, TierCleaned, FullyBuilt,
      MayClean, VipOwned, Passed;
    Reconcile(c, cfg, ops);
    AlwaysTidy(cfg, ops, c.trace, |old(c.trace)|, |c.trace| - 1);
    TidyIsUsable(c.w, svc, hosts);
    // From here on every request is answered.
    var d := new Cloud(c.w, true);
    var release;
    ghost var cleaned;
    out, release, cleaned := EnsureExternalLoadBalancer(d, cfg, svc, false, HostsFound(hosts));
    end := d.w;
    ResultBuilt(cfg, svc, hosts, cleaned, end, out, release);
  }

  /** It all starts with nothing, which is tidy. */
  lemma NothingIsTidy()
    ensures var s := World(map[], map[], map[], map[], map[]);
            WellFormed(s) && TidyWorld(s)
  {
  }
}
