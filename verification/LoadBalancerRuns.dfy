/** Deleting an external load balancer, and whole sequences of ensure and delete runs. */
module LoadBalancerRuns {
  import opened CloudModel
  import opened Names
  import opened HealthChecks
  import opened TargetPools
  import opened LoadBalancerSpec
  import opened ExternalLoadBalancer

  /** Nothing is created. */
  ghost predicate OnlyRemoves(s: World, t: World) {
    && t.addresses.Keys <= s.addresses.Keys && t.rules.Keys <= s.rules.Keys && t.pools.Keys <= s.pools.Keys
    && t.checks.Keys <= s.checks.Keys && t.firewalls.Keys <= s.firewalls.Keys
  }

  ghost function DeleteRun(cfg: Config, svc: Service, s: World): Run {
    Run(cfg, svc, [], "", false, [], OthersIPs(s, svc), TidyWorld(s))
  }

  ghost predicate DeleteStepsOk(run: Run, trace: seq<World>, from: nat) {
    forall i :: 0 < from <= i < |trace| ==> StepOk(run, trace[i - 1], trace[i]) && OnlyRemoves(trace[i - 1], trace[i])
  }

  /** What is left to the three goroutines: the firewall, the address, and rule, pool and checks. */
  datatype Progress = Progress(fwDone: bool, fwOk: bool, addrDone: bool, addrOk: bool, stage: Teardown)

  ghost predicate ProgressOk(s: World, clusterID: string, lb: string, hcNames: seq<string>, p: Progress) {
    && (p.fwDone && p.fwOk ==> FirewallName(lb) !in s.firewalls)
    && (p.addrDone && p.addrOk ==> lb !in s.addresses)
    && StageOk(s, clusterID, lb, hcNames, p.stage)
  }

  /** The requests of the other two goroutines do not disturb the teardown. */
  lemma StageUndisturbed(s: World, t: World, clusterID: string, lb: string, hcNames: seq<string>, stage: Teardown)
    requires IsLoadBalancerName(lb) && TeardownNames(clusterID, lb, hcNames)
    requires t == s.(addresses := t.addresses, firewalls := t.firewalls)
    requires t.firewalls == s.firewalls || t.firewalls == s.firewalls - {FirewallName(lb)}
    requires StageOk(s, clusterID, lb, hcNames, stage)
    ensures StageOk(t, clusterID, lb, hcNames, stage)
  {
    DistinctNames(lb, clusterID);
    forall j | 0 <= j < |hcNames| && Cleared(s, clusterID, lb, hcNames[j])
      ensures Cleared(t, clusterID, lb, hcNames[j])
    {
      assert s.CheckInUse(hcNames[j]) ==> t.CheckInUse(hcNames[j]);
    }
  }

  lemma StepDropFirewall(run: Run, s: World, t: World)
    requires Underway(run, s) && !run.frozen
    requires t == s || t == s.(firewalls := s.firewalls - {FirewallName(run.svc.lb)})
    ensures StepOk(run, s, t) && Underway(run, t) && SameLocalFirewall(s, t, run.cfg.clusterID, run.svc.lb)
  {
    hide Open, StepOk, FullyBuilt, Settled, VipOwned, TierOk, WellFormed;
    var name := FirewallName(run.svc.lb);
    if ChecksOpen(s, run.cfg.clusterID) {
      OpenWithoutOwnFirewall(s.pools, s.firewalls.Keys, run.cfg.clusterID, run.svc.lb);
      assert t.firewalls.Keys in {s.firewalls.Keys, s.firewalls.Keys - {name}};
    }
    DistinctNames(run.svc.lb, run.cfg.clusterID);
    StepFirewall(run, s, t, name);
  }

  method DropFirewall(c: Cloud, ghost run: Run, cfg: Config, lb: string, hcNames: seq<string>, p: Progress)
      returns (q: Progress)
    requires c.Valid() && Underway(run, c.w) && !run.frozen && cfg == run.cfg && lb == run.svc.lb
    requires TeardownNames(cfg.clusterID, lb, hcNames) && ProgressOk(c.w, cfg.clusterID, lb, hcNames, p) && !p.fwDone
    modifies c
    ensures c.Valid() && c.trace == old(c.trace) + [c.w] && Underway(run, c.w)
    ensures StepOk(run, old(c.w), c.w) && OnlyRemoves(old(c.w), c.w)
    ensures ProgressOk(c.w, cfg.clusterID, lb, hcNames, q) && q == p.(fwDone := true, fwOk := q.fwOk)
    ensures c.reliable ==> q.fwOk
    ensures SameLocalFirewall(old(c.w), c.w, cfg.clusterID, lb)
  {
    hide StepOk, Underway, StageOk, RuleFits, CheckReady, AffinityFits, FirewallReady, TierOk, VipOwned;
    RunFacts(run, c.w, c.trace);
    var r := c.Request(c.w.DeleteFirewall(FirewallName(lb)));
    StepDropFirewall(run, old(c.w), c.w);
    StageUndisturbed(old(c.w), c.w, cfg.clusterID, lb, hcNames, p.stage);
    q := p.(fwDone := true, fwOk := r == Ok || r == NotFound);
  }

  method DropAddress(c: Cloud, ghost run: Run, cfg: Config, lb: string, hcNames: seq<string>, p: Progress)
      returns (q: Progress)
    requires c.Valid() && Underway(run, c.w) && !run.frozen && cfg == run.cfg && lb == run.svc.lb && run.vip == ""
    requires TeardownNames(cfg.clusterID, lb, hcNames) && ProgressOk(c.w, cfg.clusterID, lb, hcNames, p) && !p.addrDone
    modifies c
    ensures c.Valid() && c.trace == old(c.trace) + [c.w] && Underway(run, c.w)
    ensures StepOk(run, old(c.w), c.w) && OnlyRemoves(old(c.w), c.w)
    ensures ProgressOk(c.w, cfg.clusterID, lb, hcNames, q) && q == p.(addrDone := true, addrOk := q.addrOk)
    ensures c.reliable ==> q.addrOk
    ensures SameLocalFirewall(old(c.w), c.w, cfg.clusterID, lb)
  {
    hide StepOk, Underway, StageOk, FullyBuilt, RuleFits, CheckReady, AffinityFits, FirewallReady, TierOk, VipOwned;
    RunFacts(run, c.w, c.trace);
    var r := c.Request(c.w.DeleteAddress(lb));
    AddressDropped(run, old(c.w), c.w);
    StageUndisturbed(old(c.w), c.w, cfg.clusterID, lb, hcNames, p.stage);
    q := p.(addrDone := true, addrOk := r == Ok || r == NotFound);
  }

  method DropNext(c: Cloud, ghost run: Run, cfg: Config, lb: string, hcNames: seq<string>, p: Progress)
      returns (q: Progress)
    requires c.Valid() && Underway(run, c.w) && !run.frozen && cfg == run.cfg && lb == run.svc.lb && run.vip == ""
    requires TeardownNames(cfg.clusterID, lb, hcNames) && ProgressOk(c.w, cfg.clusterID, lb, hcNames, p) &&
             !p.stage.Done?
    modifies c
    ensures c.Valid() && c.trace == old(c.trace) + [c.w] && Underway(run, c.w)
    ensures StepOk(run, old(c.w), c.w) && OnlyRemoves(old(c.w), c.w)
    ensures ProgressOk(c.w, cfg.clusterID, lb, hcNames, q) && q == p.(stage := q.stage)
    ensures 0 <= Rank(q.stage, |hcNames|) < Rank(p.stage, |hcNames|)
    ensures c.reliable ==> q.stage != Done(false)
    ensures lb !in hcNames ==> SameLocalFirewall(old(c.w), c.w, cfg.clusterID, lb)
  {
    hide StepOk, Underway, StageOk;
    var stage := TeardownStep(c, run, cfg.clusterID, lb, hcNames, p.stage);
    q := p.(stage := stage);
  }

  /** The names of the checks to delete; when the service no longer says which it used, both. */
  method ChecksToDelete(c: Cloud, cfg: Config, svc: Service) returns (ok: bool, hcNames: seq<string>)
    ensures TeardownNames(cfg.clusterID, svc.lb, hcNames)
    ensures ok ==> (svc.lb in hcNames <==> svc.check.NodesCheck? || svc.lb in c.w.checks)
    ensures ok && svc.check.NodesCheck? ==> NodesCheckName(cfg.clusterID) in hcNames
    ensures c.reliable ==> ok
  {
    if svc.check.NodesCheck? { return true, [svc.lb, NodesCheckName(cfg.clusterID)]; }
    var hc := c.Get(c.w.checks, svc.lb);
    if hc.Unavailable? { return false, []; }
    return true, if hc.Found? then [svc.lb] else [];
  }

  /**
   * The firewall of the service's own check outlives a delete run: the service still asks for that check,
   * which is gone, so the run names no check and thus no check firewall.
   */
  ghost predicate LeaksFirewall(cfg: Config, svc: Service, s: World) {
    svc.check.LocalCheck? && svc.lb !in s.checks && CheckFirewallName(cfg.clusterID, svc.lb, false) in s.firewalls
  }

  /**
   * No rule, pool, address, firewall or check of the load balancer is left; the shared check is gone too unless
   * another pool uses it. The firewall of its own check is left exactly if it leaked from `start`.
   */
  ghost predicate Gone(cfg: Config, svc: Service, start: World, s: World) {
    && svc.lb !in s.rules && svc.lb !in s.pools && svc.lb !in s.addresses
    && FirewallName(svc.lb) !in s.firewalls
    && svc.lb !in s.checks
    && (CheckFirewallName(cfg.clusterID, svc.lb, false) in s.firewalls <==> LeaksFirewall(cfg, svc, start))
    && (svc.check.NodesCheck? ==> Cleared(s, cfg.clusterID, svc.lb, NodesCheckName(cfg.clusterID)))
  }

  lemma DeleteStepsGrow(run: Run, before: seq<World>, after: seq<World>, s: World, t: World, from: nat)
    requires 0 < from <= |before| && before[|before| - 1] == s && after == before + [t]
    requires DeleteStepsOk(run, before, from) && StepOk(run, s, t) && OnlyRemoves(s, t)
    ensures DeleteStepsOk(run, after, from)
  {
    hide StepOk, OnlyRemoves;
    forall i | from <= i < |after|
      ensures StepOk(run, after[i - 1], after[i]) && OnlyRemoves(after[i - 1], after[i])
    {
      assert i < |before| ==> after[i] == before[i] && after[i - 1] == before[i - 1];
    }
  }

  lemma DeleteStarts(cfg: Config, svc: Service, s: World, trace: seq<World>)
    requires ValidService(svc) && WellFormed(s)
    ensures Underway(DeleteRun(cfg, svc, s), s) && DeleteStepsOk(DeleteRun(cfg, svc, s), trace, |trace|)
  {
    hide StepOk, Tidy, Elsewhere, Carries;
  }

  /** The teardown names the local check, or there was none: either way it is gone. */
  lemma AllGone(run: Run, hcNames: seq<string>, before: World, s: World, p: Progress)
    requires Underway(run, s) && OnlyRemoves(before, s)
    requires ProgressOk(s, run.cfg.clusterID, run.svc.lb, hcNames, p) && p.fwDone && p.fwOk && p.addrDone &&
             p.addrOk && p.stage == Done(true)
    requires run.svc.lb in hcNames <==> run.svc.check.NodesCheck? || run.svc.lb in before.checks
    requires run.svc.lb !in hcNames ==> SameLocalFirewall(before, s, run.cfg.clusterID, run.svc.lb)
    requires run.svc.check.NodesCheck? ==> NodesCheckName(run.cfg.clusterID) in hcNames
    ensures Gone(run.cfg, run.svc, before, s)
  {
    hide Underway;
    if run.svc.lb in hcNames { LocalCheckGone(run, s, run.cfg.clusterID, hcNames); }
  }

  /** `ensureExternalLoadBalancerDeleted`: the three goroutines' requests, interleaved in any order. */
  method EnsureExternalLoadBalancerDeleted(c: Cloud, cfg: Config, svc: Service) returns (ok: bool)
    requires c.Valid() && ValidService(svc) && WellFormed(c.w)
    modifies c
    ensures c.Valid() && old(c.trace) <= c.trace && WellFormed(c.w)
    ensures DeleteStepsOk(DeleteRun(cfg, svc, old(c.w)), c.trace, |old(c.trace)|)
    ensures ok ==> Gone(cfg, svc, old(c.w), c.w)
    ensures c.reliable && !svc.usesBackendService ==> ok
  {
    hide StepOk, OnlyRemoves, DeleteStepsOk, ProgressOk, Gone, CheckFirewallName, WellFormed, Settled, FullyBuilt;
    DeleteStarts(cfg, svc, c.w, c.trace);
    if svc.usesBackendService { return false; }
    var hcNames;
    ok, hcNames := ChecksToDelete(c, cfg, svc);
    if !ok { return; }
    ghost var run := DeleteRun(cfg, svc, c.w);
    var p := Progress(false, false, false, false, DropRule);
    NothingYet(cfg.clusterID, svc.lb, hcNames, c.w);
    while !p.fwDone || !p.addrDone || !p.stage.Done?
      invariant c.Valid() && old(c.trace) <= c.trace && Underway(run, c.w)
      invariant DeleteStepsOk(run, c.trace, |old(c.trace)|)
      invariant OnlyRemoves(old(c.w), c.w)
      invariant svc.lb !in hcNames ==> SameLocalFirewall(old(c.w), c.w, cfg.clusterID, svc.lb)
      invariant ProgressOk(c.w, cfg.clusterID, svc.lb, hcNames, p)
      invariant Rank(p.stage, |hcNames|) >= 0
      invariant c.reliable ==> (p.fwDone ==> p.fwOk) && (p.addrDone ==> p.addrOk) && p.stage != Done(false)
      decreases !p.fwDone, !p.addrDone, Rank(p.stage, |hcNames|)
    {
      ghost var s, before := c.w, c.trace;
      if {
        case !p.fwDone => p := DropFirewall(c, run, cfg, svc.lb, hcNames, p);
        case !p.addrDone => p := DropAddress(c, run, cfg, svc.lb, hcNames, p);
        case !p.stage.Done? => p := DropNext(c, run, cfg, svc.lb, hcNames, p);
      }
      DeleteStepsGrow(run, before, c.trace, s, c.w, |old(c.trace)|);
      RemovesTransitive(old(c.w), s, c.w);
    }
    ok := p.fwOk && p.addrOk && p.stage.ok;
    if ok { AllGone(run, hcNames, old(c.w), c.w, p); }
  }

  lemma RemovesTransitive(s: World, t: World, u: World)
    requires OnlyRemoves(s, t) && OnlyRemoves(t, u)
    ensures OnlyRemoves(s, u)
  {
  }

  lemma NothingYet(clusterID: string, lb: string, hcNames: seq<string>, s: World)
    ensures ProgressOk(s, clusterID, lb, hcNames, Progress(false, false, false, false, DropRule)) && OnlyRemoves(s, s)
  {
  }

  // ---- updating the hosts ----

  /** The hosts of an update; unlike an ensure run it goes on without nodes. */
  function UpdatedHosts(lookup: Lookup): seq<Host> {
    if lookup.HostsFound? then lookup.hosts else []
  }

  ghost function UpdateRun(cfg: Config, svc: Service, hosts: seq<Host>, s: World): Run {
    Run(cfg, svc, hosts, "", false, [], OthersIPs(s, svc), TidyWorld(s) && DistinctHosts(hosts))
  }

  lemma UpdateStarts(cfg: Config, svc: Service, hosts: seq<Host>, s: World, trace: seq<World>)
    requires ValidService(svc) && WellFormed(s)
    ensures Underway(UpdateRun(cfg, svc, hosts, s), s) && StepsOk(UpdateRun(cfg, svc, hosts, s), trace, |trace|)
  {
    hide StepOk, Tidy, Elsewhere, Carries;
  }

  /** `updateExternalLoadBalancer`: only the members of the pool change, and lie in between at every step. */
  method UpdateExternalLoadBalancer(c: Cloud, cfg: Config, svc: Service, lookup: Lookup) returns (ok: bool)
    requires c.Valid() && ValidService(svc) && WellFormed(c.w)
    modifies c
    ensures c.Valid() && old(c.trace) <= c.trace && WellFormed(c.w)
    ensures StepsOk(UpdateRun(cfg, svc, UpdatedHosts(lookup), old(c.w)), c.trace, |old(c.trace)|)
    ensures AllBetween(old(c.w), c.trace, |old(c.trace)|, svc.lb, HostPaths(UpdatedHosts(lookup)))
    ensures ok ==> HoldsExactly(c.w, svc.lb, UpdatedHosts(lookup))
    ensures c.reliable && !svc.usesBackendService && !lookup.LookupFailed? && old(PoolDistinct(c.w, svc.lb)) ==>
            (ok <==> DistinctHosts(UpdatedHosts(lookup)))
  {
    hide StepsOk, WellFormed, Settled, VipOwned, Kept, Between, HoldsExactly, PoolDistinct, UpdateRun;
    var hosts := UpdatedHosts(lookup);
    ghost var run := UpdateRun(cfg, svc, hosts, c.w);
    UpdateStarts(cfg, svc, hosts, c.w, c.trace);
    if svc.usesBackendService || lookup.LookupFailed? { return false; }
    ok := UpdateTargetPool(c, svc.lb, hosts);
    if svc.lb in old(c.w).pools {
      UpdateRunIs(cfg, svc, hosts, old(c.w));
      MemberSteps(run, old(c.w), old(c.trace), c.trace);
      EndsWell(run, c.w);
    }
  }

  lemma UpdateRunIs(cfg: Config, svc: Service, hosts: seq<Host>, s: World)
    ensures var run := UpdateRun(cfg, svc, hosts, s);
            run.cfg == cfg && run.svc == svc && run.hosts == hosts && run.vip == "" && !run.frozen
  {
  }

  // ---- sequences of runs ----

  datatype Op =
    | EnsureOp(svc: Service, ruleHasBackendService: bool, lookup: Lookup)
    | UpdateOp(svc: Service, lookup: Lookup)
    | DeleteOp(svc: Service)

  /** The hosts an operation works with. */
  function HostsOf(op: Op): seq<Host> {
    if op.DeleteOp? then [] else UpdatedHosts(op.lookup)
  }

  /** The run of an operation that starts in `s`. */
  ghost function OpRun(cfg: Config, op: Op, s: World): Run {
    match op
    case EnsureOp(svc, _, _) => RunFrom(s, cfg, svc, HostsOf(op))
    case UpdateOp(svc, _) => UpdateRun(cfg, svc, HostsOf(op), s)
    case DeleteOp(svc) => DeleteRun(cfg, svc, s)
  }

  /** What one request does to the world, made by a run of `op` that started in `start`. */
  ghost predicate OpStep(cfg: Config, op: Op, start: World, s: World, t: World) {
    && StepOk(OpRun(cfg, op, start), s, t)
    && (op.EnsureOp? ==> op.lookup.HostsFound?)
    && (op.UpdateOp? ==> t == s.(pools := t.pools))
    && (op.DeleteOp? ==> OnlyRemoves(s, t))
  }

  /** The step to position `i` was made by one of the operations, in a run that started earlier in the trace. */
  ghost predicate Explained(cfg: Config, ops: seq<Op>, trace: seq<World>, from: nat, i: nat) {
    0 < from <= i < |trace| && exists k, j ::
      0 <= k < |ops| && from - 1 <= j < i && OpStep(cfg, ops[k], trace[j], trace[i - 1], trace[i])
  }

  /** Every request from position `from` on was made by one of the operations. */
  ghost predicate History(cfg: Config, ops: seq<Op>, trace: seq<World>, from: nat) {
    forall i :: 0 < from <= i < |trace| ==> Explained(cfg, ops, trace, from, i)
  }

  /** The steps of one more run are explained by its operation. */
  lemma OpExplains(cfg: Config, ops: seq<Op>, k: nat, trace: seq<World>, from: nat, later: nat)
    requires k < |ops| && 0 < from <= later <= |trace|
    requires forall i :: later <= i < |trace| ==> OpStep(cfg, ops[k], trace[later - 1], trace[i - 1], trace[i])
    requires forall i :: from <= i < later ==> Explained(cfg, ops, trace, from, i)
    ensures History(cfg, ops, trace, from)
  {
    hide OpStep;
    forall i | from <= i < |trace|
      ensures Explained(cfg, ops, trace, from, i)
    {
      if later <= i {
        assert OpStep(cfg, ops[k], trace[later - 1], trace[i - 1], trace[i]);
      }
    }
  }

  /** One operation of a history. */
  method Perform(c: Cloud, cfg: Config, op: Op) returns (out: Outcome)
    requires c.Valid() && ValidService(op.svc) && WellFormed(c.w)
    modifies c
    ensures c.Valid() && old(c.trace) <= c.trace && WellFormed(c.w)
    ensures forall i :: |old(c.trace)| <= i < |c.trace| ==> OpStep(cfg, op, old(c.w), c.trace[i - 1], c.trace[i])
    ensures op.EnsureOp? && old(VipToKeep(c.w, op.svc)) != "" ==>
            && VipOwned(c.w, op.svc.lb, old(VipToKeep(c.w, op.svc))) && TierOk(c.w, op.svc)
            && (out.Ensured? ==> out.ip == old(VipToKeep(c.w, op.svc)))
    ensures out.Ensured? ==> op.EnsureOp?
  {
    hide StepOk, WellFormed, EnsureResult, Gone, MayClean, RunFrom, UpdateRun, VipOwned, TierOk, Between, OnlyRemoves;
    out := Error;
    match op {
      case EnsureOp(svc, ruleHasBackendService, lookup) =>
        ghost var cleaned;
        var release;
        out, release, cleaned := EnsureExternalLoadBalancer(c, cfg, svc, ruleHasBackendService, lookup);
        if lookup.HostsFound? { VipReturned(old(c.w), cfg, svc, lookup.hosts, cleaned, c.w, out, release); }
      case UpdateOp(svc, lookup) =>
        var ok := UpdateExternalLoadBalancer(c, cfg, svc, lookup);
        MembersOnly(old(c.w), c.trace, |old(c.trace)|, svc.lb, HostPaths(HostsOf(op)));
      case DeleteOp(svc) =>
        var ok := EnsureExternalLoadBalancerDeleted(c, cfg, svc);
    }
  }

  lemma VipReturned(s: World, cfg: Config, svc: Service, hosts: seq<Host>, m: World, t: World, out: Outcome,
                    release: Release)
    requires MayClean(s, m, svc) && EnsureResult(cfg, svc, hosts, m, t, out, release)
    ensures VipToKeep(s, svc) != "" && out.Ensured? ==> out.ip == VipToKeep(s, svc)
  {
    hide FullyBuilt, VipOwned, Settled, NeedsRebuild, OrphanedCheck;
    NotAnnotated(s, svc);
  }

  lemma MembersOnly(s: World, trace: seq<World>, from: nat, lb: string, wanted: set<string>)
    requires 0 < from <= |trace| && trace[from - 1] == s && AllBetween(s, trace, from, lb, wanted)
    ensures forall i :: from <= i < |trace| ==> trace[i] == trace[i - 1].(pools := trace[i].pools)
  {
    forall i | from <= i < |trace|
      ensures trace[i] == trace[i - 1].(pools := trace[i].pools)
    {
      assert Between(s, trace[i], lb, wanted);
      assert i > from ==> Between(s, trace[i - 1], lb, wanted);
    }
  }

  /** Any sequence of ensure, update and delete runs, for any services, whatever fails along the way. */
  method Reconcile(c: Cloud, cfg: Config, ops: seq<Op>)
    requires c.Valid() && WellFormed(c.w)
    requires forall k :: 0 <= k < |ops| ==> ValidService(ops[k].svc)
    modifies c
    ensures c.Valid() && old(c.trace) <= c.trace && WellFormed(c.w)
    ensures History(cfg, ops, c.trace, |old(c.trace)|)
  {
    hide WellFormed, Explained, OpStep, VipOwned, TierOk, VipToKeep;
    for k := 0 to |ops|
      invariant c.Valid() && old(c.trace) <= c.trace && WellFormed(c.w)
      invariant History(cfg, ops, c.trace, |old(c.trace)|)
    {
      ghost var before := c.trace;
      var out := Perform(c, cfg, ops[k]);
      SamePast(cfg, ops, before, c.trace, |old(c.trace)|);
      OpExplains(cfg, ops, k, c.trace, |old(c.trace)|, |before|);
    }
  }

  lemma SamePast(cfg: Config, ops: seq<Op>, before: seq<World>, after: seq<World>, from: nat)
    requires before <= after && 0 < from <= |before| && History(cfg, ops, before, from)
    ensures forall i :: from <= i < |before| ==> Explained(cfg, ops, after, from, i)
  {
    hide OpStep;
    forall i | from <= i < |before|
      ensures Explained(cfg, ops, after, from, i)
    {
      assert Explained(cfg, ops, before, from, i);
      var k, j :| 0 <= k < |ops| && from - 1 <= j < i && OpStep(cfg, ops[k], before[j], before[i - 1], before[i]);
      assert OpStep(cfg, ops[k], after[j], after[i - 1], after[i]);
    }
  }

  /** At every moment of any history, each rule has its pool and each pool has its checks. */
  lemma NeverBare(cfg: Config, ops: seq<Op>, trace: seq<World>, i: nat)
    requires |trace| > 0 && WellFormed(trace[0]) && History(cfg, ops, trace, 1) && i < |trace|
    ensures trace[i].rules.Keys <= trace[i].pools.Keys
    ensures forall p, h :: p in trace[i].pools && h in trace[i].pools[p].checks ==> h in trace[i].checks
  {
    hide OwnOnly, ChecksGrow, Open, Born, Kept, VipOwned, OpRun, OnlyRemoves;
    if i > 0 {
      assert Explained(cfg, ops, trace, 1, i);
    }
  }

  /** If the firewalls of the checks in use are there at first, they are there at every moment. */
  lemma {:induction false} AlwaysOpen(cfg: Config, ops: seq<Op>, trace: seq<World>, i: nat)
    requires |trace| > 0 && ChecksOpen(trace[0], cfg.clusterID) && History(cfg, ops, trace, 1) && i < |trace|
    ensures ChecksOpen(trace[i], cfg.clusterID)
  {
    hide WellFormed, OwnOnly, ChecksGrow, Open, Born, OnlyRemoves;
    if i > 0 {
      AlwaysOpen(cfg, ops, trace, i - 1);
      assert Explained(cfg, ops, trace, 1, i);
    }
  }

  /**
   * Whenever a rule comes into being, an ensure run of its service that started at some earlier moment `j` has
   * everything behind it in place; its pool refers to the service's check unless the pool was kept from `j`.
   */
  lemma BornFullyBuilt(cfg: Config, ops: seq<Op>, trace: seq<World>, i: nat, lb: string) returns (k: nat, j: nat)
    requires History(cfg, ops, trace, 1) && 0 < i < |trace|
    requires lb in trace[i].rules && lb !in trace[i - 1].rules
    ensures k < |ops| && j < i && ops[k].EnsureOp? && ops[k].svc.lb == lb && ops[k].lookup.HostsFound?
    ensures var svc := ops[k].svc;
            && FullyBuilt(cfg, svc, ops[k].lookup.hosts, trace[i])
            && trace[i].rules[lb].target == cfg.poolURL + lb
            && (Wired(cfg, svc, trace[i]) <==> StaleBackend(trace[j], svc) || Wired(cfg, svc, trace[j]))
  {
    hide FullyBuilt, WellFormed, StaleBackend, Open, VipToKeep, Settled;
    assert Explained(cfg, ops, trace, 1, i);
    k, j :| k < |ops| && j < i && OpStep(cfg, ops[k], trace[j], trace[i - 1], trace[i]);
    assert lb == ops[k].svc.lb && ops[k].EnsureOp?;
    BornIsWired(RunFrom(trace[j], cfg, ops[k].svc, ops[k].lookup.hosts), trace[j], trace[i]);
  }

  lemma BornIsWired(run: Run, start: World, t: World)
    requires Born(run, t) && run.checks == PoolChecks(run.cfg, run.svc, start)
    ensures FullyBuilt(run.cfg, run.svc, run.hosts, t) && t.rules[run.svc.lb].target == run.cfg.poolURL + run.svc.lb
    ensures Wired(run.cfg, run.svc, t) <==> StaleBackend(start, run.svc) || Wired(run.cfg, run.svc, start)
  {
  }

  /** While a health check exists, none of its numbers goes down, over any number of runs. */
  lemma {:induction false} NumbersNeverDecrease(cfg: Config, ops: seq<Op>, trace: seq<World>, i: nat, j: nat, h: string)
    requires History(cfg, ops, trace, 1) && i <= j < |trace|
    requires forall k :: i <= k <= j ==> h in trace[k].checks
    ensures NoSmaller(trace[i].checks[h], trace[j].checks[h])
    decreases j
  {
    hide FullyBuilt, WellFormed, OwnOnly, Open, Born;
    if i < j {
      NumbersNeverDecrease(cfg, ops, trace, i, j - 1, h);
      assert Explained(cfg, ops, trace, 1, j);
      assert h in trace[j - 1].checks && h in trace[j].checks;
    }
  }

  // ---- convergence ----

  /**
   * Two runs in a row, each from what its tier cleanup left. The second rebuilds exactly when the first started
   * with a local check orphaned by a lost pool, or its own cleanup took the rule. If it does not, it gives the same
   * IP and leaves everything as its cleanup left it; with the right tier after the first run, that is everything.
   */
  lemma Converges(cfg: Config, svc: Service, hosts: seq<Host>, s: World, t: World, m: World, u: World,
                  first: Outcome, firstRelease: Release, second: Outcome, secondRelease: Release)
    requires ValidService(svc) && first.Ensured? && second.Ensured?
    requires EnsureResult(cfg, svc, hosts, s, t, first, firstRelease)
    requires MayClean(t, m, svc) && EnsureResult(cfg, svc, hosts, m, u, second, secondRelease)
    ensures second.created <==> OrphanedCheck(s, svc) || svc.lb !in m.rules
    ensures !second.created ==> second.ip == first.ip
    ensures !second.created && TierOk(m, svc) && secondRelease != ReleaseFailed ==> u == m
    ensures TierOk(t, svc) ==> m == t
  {
    hide FirewallReady, NeedsUpdate, VipOwned, VipToKeep, Paths, HostPaths;
    NotAnnotated(t, svc);
    if svc.lb in m.rules { KeptBuilt(cfg, svc, hosts, t, m); }
  }

  lemma KeptBuilt(cfg: Config, svc: Service, hosts: seq<Host>, t: World, m: World)
    requires FullyBuilt(cfg, svc, hosts, t) && MayClean(t, m, svc) && svc.lb in m.rules
    ensures FullyBuilt(cfg, svc, hosts, m) && m.rules == t.rules
  {
    hide FirewallReady, NeedsUpdate, RuleFits;
    AddressesDoNotMatter(cfg, svc, hosts, t, m);
  }

  /** A successful run leaves a world in which the next one can succeed. */
  lemma StaysUsable(cfg: Config, svc: Service, hosts: seq<Host>, s: World, t: World, out: Outcome, release: Release)
    requires EnsureResult(cfg, svc, hosts, s, t, out, release) && out.Ensured? && release != ReleaseFailed
    requires UniqueIPs(s) && Buildable(svc, hosts, s) && IPUsable(s, svc)
    ensures UniqueIPs(t) && Buildable(svc, hosts, t) && IPUsable(t, svc)
  {
    hide FirewallReady, NeedsUpdate, RuleFits, VipOwned, Paths, HostPaths, VipToKeep, NewRule;
  }

  /**
   * With every request answered, two runs in a row both succeed with the same IP, whatever the tier of what they
   * find, and the second changes nothing unless a local check had been orphaned.
   */
  method EnsureTwice(c: Cloud, cfg: Config, svc: Service, hosts: seq<Host>)
      returns (first: Outcome, second: Outcome, ghost between: World)
    requires c.Valid() && ValidService(svc) && WellFormed(c.w) && c.reliable
    requires !svc.usesBackendService && !svc.tier.InvalidTier?
    requires UniqueIPs(c.w) && Buildable(svc, hosts, c.w) && IPUsable(TierCleaned(c.w, svc), svc)
    modifies c
    ensures c.Valid() && first.Ensured? && second.Ensured?
    ensures FullyBuilt(cfg, svc, hosts, between) && TierOk(between, svc) && FullyBuilt(cfg, svc, hosts, c.w)
    ensures second.created <==> old(OrphanedCheck(c.w, svc))
    ensures !old(OrphanedCheck(c.w, svc)) ==> second.ip == first.ip && c.w == between
  {
    hide WellFormed, StepsOk, EnsureResult, TierOk, UniqueIPs, Buildable, IPUsable, OrphanedCheck, FullyBuilt, VipOwned,
      TierCleaned, MayClean;
    ghost var s := c.w;
    CleanedFits(s, svc, hosts);
    var firstRelease, secondRelease;
    ghost var m, n;
    first, firstRelease, m := EnsureExternalLoadBalancer(c, cfg, svc, false, HostsFound(hosts));
    between := c.w;
    StaysUsable(cfg, svc, hosts, m, between, first, firstRelease);
    ResultBuilt(cfg, svc, hosts, m, between, first, firstRelease);
    NotAnnotated(between, svc);
    second, secondRelease, n := EnsureExternalLoadBalancer(c, cfg, svc, false, HostsFound(hosts));
    Converges(cfg, svc, hosts, m, between, n, c.w, first, firstRelease, second, secondRelease);
    ResultBuilt(cfg, svc, hosts, n, c.w, second, secondRelease);
  }

  lemma CleanedFits(s: World, svc: Service, hosts: seq<Host>)
    ensures var m := TierCleaned(s, svc);
            && TierOk(m, svc) && (OrphanedCheck(m, svc) <==> OrphanedCheck(s, svc))
            && Buildable(svc, hosts, m) == Buildable(svc, hosts, s) && (UniqueIPs(s) ==> UniqueIPs(m))
  {
  }

  lemma ResultBuilt(cfg: Config, svc: Service, hosts: seq<Host>, s: World, t: World, out: Outcome, release: Release)
    requires EnsureResult(cfg, svc, hosts, s, t, out, release) && out.Ensured?
    ensures FullyBuilt(cfg, svc, hosts, t) && svc.lb in t.rules && t.rules[svc.lb].ip == out.ip
    ensures TierOk(s, svc) ==> TierOk(t, svc)
  {
  }

  // ---- keeping the virtual IP ----

  /**
   * The load balancer's own runs ensure or update it, ask for no IP or for `vip`, and agree on the tier annotation;
   * runs of other services, deletions among them, do not ask for `vip`.
   */
  ghost predicate KeepsVip(op: Op, lb: string, tier: TierAnnotation, vip: string) {
    && ValidService(op.svc)
    && if op.svc.lb == lb then !op.DeleteOp? && op.svc.tier == tier && op.svc.requestedIP in {"", vip}
       else op.svc.requestedIP != vip
  }

  /** Rule and address of the load balancer's name are of the annotated tier. */
  ghost predicate TierAt(s: World, lb: string, tier: TierAnnotation) {
    tier.Annotated? ==>
      && (lb in s.rules ==> s.rules[lb].tier == tier.tier)
      && (lb in s.addresses ==> s.addresses[lb].tier == tier.tier)
  }

  /** The virtual IP is the load balancer's; if `alone`, no other service has it as well. */
  ghost predicate Homed(s: World, lb: string, vip: string, alone: bool) {
    VipOwned(s, lb, vip) && (alone ==> !Elsewhere(s.addresses, s.rules, lb, vip))
  }

  /**
   * Over any number of runs, failed or not, of this service and of others, the virtual IP is at every moment on the
   * rule or reserved under the load balancer's name, and every successful ensure run returns it.
   */
  method KeepEnsuring(c: Cloud, cfg: Config, ops: seq<Op>, ghost lb: string, ghost tier: TierAnnotation,
                      ghost vip: string)
      returns (outs: seq<Outcome>)
    requires c.Valid() && WellFormed(c.w) && forall k :: 0 <= k < |ops| ==> KeepsVip(ops[k], lb, tier, vip)
    requires vip != "" && VipOwned(c.w, lb, vip) && TierAt(c.w, lb, tier)
    requires (forall k :: 0 <= k < |ops| ==> ops[k].svc.lb == lb) || !Elsewhere(c.w.addresses, c.w.rules, lb, vip)
    modifies c
    ensures c.Valid() && old(c.trace) <= c.trace && WellFormed(c.w)
    ensures forall i :: |old(c.trace)| <= i < |c.trace| ==> VipOwned(c.trace[i], lb, vip)
    ensures |outs| == |ops|
    ensures forall k :: 0 <= k < |outs| && ops[k].svc.lb == lb && outs[k].Ensured? ==> outs[k].ip == vip
  {
    hide WellFormed, OpStep, VipOwned, TierOk, TierAt, Elsewhere, VipToKeep, ValidService;
    ghost var alone := !Elsewhere(c.w.addresses, c.w.rules, lb, vip);
    outs := [];
    for k := 0 to |ops|
      invariant c.Valid() && old(c.trace) <= c.trace && WellFormed(c.w)
      invariant Homed(c.w, lb, vip, alone) && TierAt(c.w, lb, tier)
      invariant forall i :: |old(c.trace)| <= i < |c.trace| ==> VipOwned(c.trace[i], lb, vip)
      invariant |outs| == k
      invariant forall j :: 0 <= j < k && ops[j].svc.lb == lb && outs[j].Ensured? ==> outs[j].ip == vip
    {
      var op := ops[k];
      ghost var s, before := c.w, c.trace;
      if op.svc.lb == lb && op.EnsureOp? { VipIs(s, op.svc, vip); }
      var out := Perform(c, cfg, op);
      forall i | |before| <= i < |c.trace|
        ensures Homed(c.trace[i], lb, vip, alone)
      {
        StaysHomed(cfg, op, s, c.trace, |before|, i, lb, tier, vip, alone);
      }
      TierStays(cfg, op, s, c.w, c.trace, |before|, lb, tier, vip, alone);
      outs := outs + [out];
    }
  }

  lemma VipIs(s: World, svc: Service, vip: string)
    requires vip != "" && VipOwned(s, svc.lb, vip) && TierAt(s, svc.lb, svc.tier) && svc.requestedIP in {"", vip}
    ensures VipToKeep(s, svc) == vip
  {
  }

  /** What a step of some operation leaves of an owned virtual IP. */
  lemma HomedStep(cfg: Config, op: Op, start: World, s: World, t: World, lb: string, tier: TierAnnotation, vip: string,
                  alone: bool)
    requires KeepsVip(op, lb, tier, vip) && vip != "" && (op.svc.lb == lb || alone)
    requires Homed(start, lb, vip, alone) && TierAt(start, lb, tier)
    requires OpStep(cfg, op, start, s, t) && Homed(s, lb, vip, alone)
    ensures Homed(t, lb, vip, alone)
    ensures op.svc.lb != lb || op.UpdateOp? ==> (TierAt(s, lb, tier) ==> TierAt(t, lb, tier))
  {
    hide FullyBuilt, WellFormed, ChecksGrow, Open, Born, Settled, OnlyRemoves, OthersIPs, VipToKeep, PoolChecks, Tidy;
    if op.svc.lb == lb {
      if op.EnsureOp? { VipIs(start, op.svc, vip); }
      SameElsewhere(s, t, lb, vip);
    } else {
      OthersShunned(start, op.svc, vip);
      ForeignStep(s, t, op.svc.lb, lb, vip);
    }
  }

  /** Others are as they were. */
  lemma SameElsewhere(s: World, t: World, lb: string, vip: string)
    requires AgreeBut(s.addresses, t.addresses, {lb}) && AgreeBut(s.rules, t.rules, {lb})
    ensures Elsewhere(t.addresses, t.rules, lb, vip) ==> Elsewhere(s.addresses, s.rules, lb, vip)
  {
  }

  /** Another service's step that does not put it on the virtual IP leaves that alone. */
  lemma ForeignStep(s: World, t: World, other: string, lb: string, vip: string)
    requires AgreeBut(s.addresses, t.addresses, {other}) && AgreeBut(s.rules, t.rules, {other}) && other != lb
    requires VipOwned(s, lb, vip) && !Elsewhere(s.addresses, s.rules, lb, vip)
    requires !Carries(t.addresses, t.rules, other, vip)
    ensures VipOwned(t, lb, vip) && !Elsewhere(t.addresses, t.rules, lb, vip)
  {
    forall n | n in t.addresses && n != lb
      ensures t.addresses[n].ip != vip
    {
      assert n != other ==> n in s.addresses;
    }
    forall n | n in t.rules && n != lb
      ensures t.rules[n].ip != vip
    {
      assert n != other ==> n in s.rules;
    }
  }

  lemma {:induction false} StaysHomed(cfg: Config, op: Op, start: World, trace: seq<World>, from: nat, i: nat,
                                      lb: string, tier: TierAnnotation, vip: string, alone: bool)
    requires KeepsVip(op, lb, tier, vip) && vip != "" && (op.svc.lb == lb || alone)
    requires Homed(start, lb, vip, alone) && TierAt(start, lb, tier)
    requires 0 < from <= i + 1 <= |trace| && trace[from - 1] == start
    requires forall j :: from <= j < |trace| ==> OpStep(cfg, op, start, trace[j - 1], trace[j])
    ensures Homed(trace[i], lb, vip, alone)
    ensures op.svc.lb != lb || op.UpdateOp? ==> TierAt(trace[i], lb, tier)
    decreases i
  {
    hide KeepsVip, Homed, TierAt, OpStep;
    if i >= from {
      StaysHomed(cfg, op, start, trace, from, i - 1, lb, tier, vip, alone);
      assert OpStep(cfg, op, start, trace[i - 1], trace[i]);
      HomedStep(cfg, op, start, trace[i - 1], trace[i], lb, tier, vip, alone);
    }
  }

  lemma TierStays(cfg: Config, op: Op, start: World, t: World, trace: seq<World>, from: nat,
                  lb: string, tier: TierAnnotation, vip: string, alone: bool)
    requires KeepsVip(op, lb, tier, vip) && vip != "" && (op.svc.lb == lb || alone)
    requires Homed(start, lb, vip, alone) && TierAt(start, lb, tier)
    requires 0 < from <= |trace| && trace[from - 1] == start && trace[|trace| - 1] == t
    requires forall j :: from <= j < |trace| ==> OpStep(cfg, op, start, trace[j - 1], trace[j])
    requires op.svc.lb == lb && op.EnsureOp? ==> TierOk(t, op.svc)
    ensures Homed(t, lb, vip, alone) && TierAt(t, lb, tier)
  {
    hide Homed, OpStep, VipOwned;
    StaysHomed(cfg, op, start, trace, from, |trace| - 1, lb, tier, vip, alone);
  }

  /**
   * A run that is to keep the rule's IP never lets it go: at each of its steps the IP is on the rule or
   * statically reserved, under the load balancer's name or under another.
   */
  lemma {:induction false} NeverLetGo(s: World, cfg: Config, svc: Service, hosts: seq<Host>, trace: seq<World>,
                                      from: nat, i: nat)
    requires 0 < from <= i < |trace| && trace[from - 1] == s && svc.lb in s.rules && WellFormed(s)
    requires TierOk(s, svc) && svc.requestedIP in {"", s.rules[svc.lb].ip}
    requires StepsOk(RunFrom(s, cfg, svc, hosts), trace, from)
    ensures var ip := s.rules[svc.lb].ip;
            (svc.lb in trace[i].rules && trace[i].rules[svc.lb].ip == ip) || trace[i].Reserved(ip)
  {
    hide FullyBuilt, OwnOnly, ChecksGrow, Settled;
    var ip := s.rules[svc.lb].ip;
    if VipToKeep(s, svc) == ip {
      assert StepOk(RunFrom(s, cfg, svc, hosts), trace[i - 1], trace[i]);
      OnRule(trace[i], svc.lb, ip);
    } else {
      var n :| n in s.addresses && n != svc.lb && s.addresses[n].ip == ip;
      OthersKept(RunFrom(s, cfg, svc, hosts), trace, from, i, n);
    }
  }

  /** An address of another name is never touched. */
  lemma {:induction false} OthersKept(run: Run, trace: seq<World>, from: nat, i: nat, n: string)
    requires 0 < from <= i < |trace| && StepsOk(run, trace, from)
    requires n in trace[from - 1].addresses && n != run.svc.lb
    ensures n in trace[i].addresses && trace[i].addresses[n] == trace[from - 1].addresses[n]
    decreases i
  {
    hide FullyBuilt, WellFormed, VipOwned, ChecksGrow;
    assert StepOk(run, trace[i - 1], trace[i]);
    if i > from { OthersKept(run, trace, from, i - 1, n); }
  }

  /**
   * With the rule gone and no IP requested, a successful run gives back a reserved IP exactly when it is
   * reserved under the load balancer's own name: a reservation under another name does not save it.
   */
  lemma ComesBackIffOwn(cfg: Config, svc: Service, hosts: seq<Host>, s: World, t: World, out: Outcome,
                        release: Release, vip: string)
    requires EnsureResult(cfg, svc, hosts, s, t, out, release) && out.Ensured?
    requires svc.requestedIP == "" && svc.lb !in s.rules && s.Reserved(vip)
    ensures out.ip == vip <==> svc.lb in s.addresses && s.addresses[svc.lb].ip == vip
  {
    hide FullyBuilt, VipOwned, Settled, NeedsRebuild;
  }
}
