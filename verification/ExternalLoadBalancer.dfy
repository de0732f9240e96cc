/** Ensuring an external load balancer: the run that creates or updates all of its resources. */
module ExternalLoadBalancer {
  import opened Firewalls
  import opened CloudModel
  import opened Names
  import opened HealthChecks
  import opened TargetPools
  import opened LoadBalancerSpec

  /** What a run relies on, spelled out. */
  lemma RunFacts(run: Run, s: World, trace: seq<World>)
    requires Underway(run, s)
    ensures ValidService(run.svc) && StepsOk(run, trace, |trace|)
    ensures run.svc.lb in s.rules ==> s.rules[run.svc.lb].ip != "" && run.svc.lb in s.pools
    ensures run.svc.lb in s.addresses ==> s.addresses[run.svc.lb].ip != ""
    ensures run.svc.lb in s.rules && RuleFits(s.rules[run.svc.lb], run.svc) ==>
            run.svc.requestedIP in {"", s.rules[run.svc.lb].ip}
    ensures run.vip != "" ==> VipOwned(s, run.svc.lb, run.vip) && run.svc.requestedIP in {"", run.vip}
    ensures run.vip != "" || run.frozen ==> TierOk(s, run.svc)
    ensures Kept(run, s.addresses, s.rules, s.pools) && run.svc.requestedIP !in run.shun
    ensures run.tidy ==> DistinctHosts(run.hosts)
    ensures run.frozen ==>
              && run.svc.lb in s.rules && RuleFits(s.rules[run.svc.lb], run.svc)
              && AffinityFits(s.pools[run.svc.lb], run.svc)
              && FirewallReady(s, run.svc, s.rules[run.svc.lb].ip)
              && (run.svc.lb in s.checks <==> run.svc.check.LocalCheck?)
              && var hc := Wanted(run.cfg, run.svc); CheckReady(s, hc.name, hc.path, hc.port)
  {
    hide Kept, UpToDate, NeedsUpdate;
  }

  // ---- network tier cleanup ----

  /** Deletes the rule if it is of the wrong tier. */
  method DeleteRuleOfWrongTier(c: Cloud, ghost run: Run, lb: string, tier: Tier) returns (ok: bool)
    requires c.Valid() && Underway(run, c.w) && lb == run.svc.lb && run.svc.tier == Annotated(tier)
    modifies c
    ensures c.Valid() && old(c.trace) <= c.trace && Underway(run, c.w)
    ensures StepsOk(run, c.trace, |old(c.trace)|)
    ensures old(TierOk(c.w, run.svc)) ==> c.w == old(c.w) && c.trace == old(c.trace)
    ensures c.w == old(c.w).(rules := c.w.rules)
    ensures c.w.rules == old(c.w).rules || c.w.rules == TierCleaned(old(c.w), run.svc).rules
    ensures c.reliable ==> ok && c.w.rules == TierCleaned(old(c.w), run.svc).rules
  {
    hide StepOk, StepsOk, Underway, RuleFits, CheckReady, AffinityFits, VipOwned, FirewallReady;
    RunFacts(run, c.w, c.trace);
    var rule := c.Get(c.w.rules, lb);
    if rule.Unavailable? { return false; }
    if rule.Missing? || rule.value.tier == tier { return true; }
    var r := c.Request(c.w.DeleteRule(lb));
    RuleDropped(run, old(c.trace), c.trace, old(c.w), c.w);
    return r == Ok || r == NotFound;
  }

  /** Deletes the address of the load balancer's name if it is of the wrong tier. */
  method DeleteAddressOfWrongTier(c: Cloud, ghost run: Run, lb: string, tier: Tier) returns (ok: bool)
    requires c.Valid() && Underway(run, c.w) && lb == run.svc.lb && run.svc.tier == Annotated(tier)
    modifies c
    ensures c.Valid() && old(c.trace) <= c.trace && Underway(run, c.w)
    ensures StepsOk(run, c.trace, |old(c.trace)|)
    ensures old(TierOk(c.w, run.svc)) ==> c.w == old(c.w) && c.trace == old(c.trace)
    ensures c.w == old(c.w).(addresses := c.w.addresses)
    ensures c.w.addresses == old(c.w).addresses || c.w.addresses == TierCleaned(old(c.w), run.svc).addresses
    ensures c.reliable ==> ok && c.w.addresses == TierCleaned(old(c.w), run.svc).addresses
  {
    hide StepOk, StepsOk, Underway, RuleFits, CheckReady, AffinityFits, VipOwned, FirewallReady, FullyBuilt;
    RunFacts(run, c.w, c.trace);
    var addr := c.Get(c.w.addresses, lb);
    if addr.Unavailable? { return false; }
    if addr.Missing? || addr.value.tier == tier { return true; }
    var r := c.Request(c.w.DeleteAddress(lb));
    AddressDropped(run, old(c.w), c.w);
    StepsOne(run, old(c.trace), c.trace, old(c.w), c.w);
    return r == Ok || r == NotFound;
  }

  /** Deletes a rule, then an address, of the wrong tier; the caller ignores errors. */
  method DeleteWrongTier(c: Cloud, ghost run: Run, lb: string, tier: Tier)
    requires c.Valid() && Underway(run, c.w) && lb == run.svc.lb && run.svc.tier == Annotated(tier)
    modifies c
    ensures c.Valid() && old(c.trace) <= c.trace && Underway(run, c.w)
    ensures StepsOk(run, c.trace, |old(c.trace)|)
    ensures old(TierOk(c.w, run.svc)) ==> c.w == old(c.w) && c.trace == old(c.trace)
    ensures MayClean(old(c.w), c.w, run.svc)
    ensures c.reliable ==> c.w == TierCleaned(old(c.w), run.svc)
  {
    hide StepOk, StepsOk, Underway, TierOk, TierCleaned;
    CleanedParts(c.w, c.w, run.svc);
    var ok := DeleteRuleOfWrongTier(c, run, lb, tier);
    CleanedParts(old(c.w), c.w, run.svc);
    if !ok { return; }
    ghost var before := c.trace;
    ok := DeleteAddressOfWrongTier(c, run, lb, tier);
    StepsJoin(run, before, c.trace, |old(c.trace)|);
  }

  /** The cleanup of the addresses does not depend on the rules. */
  lemma CleanedParts(s: World, t: World, svc: Service)
    requires t == s.(rules := t.rules)
    ensures TierCleaned(t, svc).addresses == TierCleaned(s, svc).addresses
    ensures TierCleaned(s, svc) == s.(rules := TierCleaned(s, svc).rules, addresses := TierCleaned(s, svc).addresses)
  {
  }

  /** Giving the address back, unless the virtual IP would be left to nobody. */
  lemma AddressDropped(run: Run, s: World, t: World)
    requires Underway(run, s) && (run.vip != "" ==> run.svc.lb in s.rules)
    requires t == s || t == s.(addresses := s.addresses - {run.svc.lb})
    ensures StepOk(run, s, t) && Underway(run, t)
    ensures FullyBuilt(run.cfg, run.svc, run.hosts, s) == FullyBuilt(run.cfg, run.svc, run.hosts, t)
  {
    hide Kept, StepOk, FullyBuilt;
    KeptWithoutAddress(run, s.addresses, s.rules, s.pools);
    StepAddress(run, s, t);
  }

  // ---- which IP to use ----

  /** Whether the requested IP may be used, and whether the user owns it. Changes nothing. */
  method VerifyUserRequestedIP(c: Cloud, requestedIP: string, ruleIP: string, tier: Tier)
      returns (ok: bool, userOwned: bool)
    ensures userOwned ==> ok && requestedIP != "" && c.w.Reserved(requestedIP)
    ensures ok && !userOwned && requestedIP != "" ==> requestedIP == ruleIP && !c.w.Reserved(requestedIP)
    ensures !ok ==> requestedIP != ""
    ensures c.reliable && UniqueIPs(c.w) ==> (ok <==>
              if requestedIP == "" then true
              else if c.w.Reserved(requestedIP) then exists n ::
                n in c.w.addresses && c.w.addresses[n].ip == requestedIP && c.w.addresses[n].tier == tier
              else requestedIP == ruleIP)
  {
    if requestedIP == "" { return true, false; }
    var existing := c.GetAddressByIP(requestedIP);
    if existing.Unavailable? { return false, false; }
    if existing.Found? {
      var addr := c.Get(c.w.addresses, existing.value);
      if !addr.Found? || addr.value.tier != tier { return false, false; }
      return true, true;
    }
    return requestedIP == ruleIP, false;
  }

  /** From `s` the address of the load balancer's name may have been added, reserving `t.addresses[lb].ip`. */
  ghost predicate MayReserve(s: World, t: World, lb: string, tier: Tier) {
    || t == s
    || (lb !in s.addresses && lb in t.addresses && t.addresses[lb].tier == tier && !s.Reserved(t.addresses[lb].ip)
        && t == s.(addresses := s.addresses[lb := t.addresses[lb]]))
  }

  /** What a reservation may do, whatever it is answered. */
  lemma Reservation(s: World, t: World, r: Response, lb: string, a: Address)
    requires Answers(s, t, r, s.ReserveAddress(lb, a))
    ensures t == s || (lb !in s.addresses && !s.Reserved(a.ip) && t == s.(addresses := s.addresses[lb := a]))
    ensures r == Ok ==> lb in t.addresses && t.addresses[lb] == a
    ensures r == Conflict || r == BadRequest ==> t == s
  {
  }

  /** It keeps the virtual IP, and if that IP is now reserved at all, the own name reserves it. */
  lemma ReserveKeepsVip(s: World, t: World, lb: string, vip: string, a: Address)
    requires VipOwned(s, lb, vip) && (lb in s.rules ==> a.ip == s.rules[lb].ip)
    requires t == s || (lb !in s.addresses && t == s.(addresses := s.addresses[lb := a]))
    ensures VipOwned(t, lb, vip)
    ensures t.Reserved(vip) ==> lb in t.addresses && t.addresses[lb].ip == vip
  {
  }

  lemma ReserveStep(run: Run, s: World, t: World, r: Response, existingIP: string, a: Address)
    requires Underway(run, s) && a.ip != "" && a.tier == TierOf(run.svc)
    requires run.svc.lb in s.rules ==> existingIP == s.rules[run.svc.lb].ip && a.ip == existingIP
    requires run.svc.lb !in s.rules ==> existingIP == ""
    requires a.ip !in run.shun
    requires Answers(s, t, r, s.ReserveAddress(run.svc.lb, a))
    ensures StepOk(run, s, t) && Underway(run, t) && MayReserve(s, t, run.svc.lb, TierOf(run.svc))
    ensures r == Ok ==> run.svc.lb in t.addresses && t.addresses[run.svc.lb] == a
    ensures r == Conflict || r == BadRequest ==> t == s
    ensures run.vip != "" && run.svc.lb in t.addresses && (r == Ok || t.Reserved(run.vip)) ==>
            t.addresses[run.svc.lb].ip == run.vip
    ensures run.vip != "" && existingIP != "" && t.Reserved(existingIP) ==>
            existingIP == run.vip && run.svc.lb in t.addresses
  {
    hide StepOk, FullyBuilt, Answers, VipOwned, Kept;
    Reservation(s, t, r, run.svc.lb, a);
    if t != s { KeptWithAddress(run, s.addresses, s.rules, s.pools, a); }
    if run.vip != "" {
      ReserveKeepsVip(s, t, run.svc.lb, run.vip, a);
      OnRule(s, run.svc.lb, run.vip);
    }
    StepAddress(run, s, t);
  }

  lemma OnRule(s: World, lb: string, vip: string)
    requires VipOwned(s, lb, vip)
    ensures if lb in s.rules then s.rules[lb].ip == vip
            else s.Reserved(vip) && lb in s.addresses && s.addresses[lb].ip == vip
  {
  }

  /** The rule's own IP, or one that nobody has, is not another's. */
  lemma NotShunned(run: Run, s: World, ip: string)
    requires Kept(run, s.addresses, s.rules, s.pools)
    requires (run.svc.lb in s.rules && ip == s.rules[run.svc.lb].ip) || (!s.Reserved(ip) && !s.OnRule(ip))
    ensures ip !in run.shun
  {
    hide Tidy;
  }

  lemma OwnIPs(run: Run, s: World)
    requires Kept(run, s.addresses, s.rules, s.pools)
    ensures run.svc.lb in s.addresses ==> MayCarry(run, s.addresses, s.addresses[run.svc.lb].ip)
    ensures run.svc.lb in s.rules ==> MayCarry(run, s.addresses, s.rules[run.svc.lb].ip)
  {
    hide DistinctPaths;
  }

  lemma RequestedIP(run: Run, s: World)
    requires run.svc.requestedIP !in run.shun && !run.tidy
    ensures MayCarry(run, s.addresses, run.svc.requestedIP)
  {
  }

  /** Promotes the rule's IP to a static one, or reserves a new one; a taken name or IP is looked up instead. */
  method EnsureStaticIP(c: Cloud, ghost run: Run, lb: string, existingIP: string, tier: Tier)
      returns (ok: bool, ip: string, existed: bool)
    requires c.Valid() && Underway(run, c.w) && lb == run.svc.lb && tier == TierOf(run.svc)
    requires lb in c.w.rules ==> existingIP == c.w.rules[lb].ip
    requires lb !in c.w.rules ==> existingIP == ""
    modifies c
    ensures c.Valid() && old(c.trace) <= c.trace && Underway(run, c.w)
    ensures StepsOk(run, c.trace, |old(c.trace)|)
    ensures MayReserve(old(c.w), c.w, lb, tier)
    ensures ok ==> ip != "" && c.w.Reserved(ip)
    ensures ok && existingIP != "" ==> ip == existingIP
    ensures ok && existingIP == "" ==> lb in c.w.addresses && ip == c.w.addresses[lb].ip
    ensures ok && existed ==> c.w == old(c.w)
    ensures ok && !existed ==> lb !in old(c.w).addresses && lb in c.w.addresses && c.w.addresses[lb].ip == ip
    ensures ok && run.vip != "" ==> ip == run.vip && lb in c.w.addresses && c.w.addresses[lb].ip == ip
    ensures c.reliable ==> (ok <==> existingIP == "" || CanHold(old(c.w), lb, existingIP))
    ensures ok ==> MayCarry(run, c.w.addresses, ip)
  {
    hide StepOk, StepsOk, Underway, RuleFits, CheckReady, AffinityFits, TierOk, FirewallReady, Kept, MayCarry,
      VipOwned;
    RunFacts(run, c.w, c.trace);
    var r := c.ReserveAddress(lb, existingIP, tier, External);
    ghost var chosen :| chosen != ""
      && (if existingIP != "" then chosen == existingIP else !old(c.w).Reserved(chosen) && !old(c.w).OnRule(chosen))
      && Answers(old(c.w), c.w, r, old(c.w).ReserveAddress(lb, Address(chosen, tier, External)));
    NotShunned(run, old(c.w), chosen);
    ReserveStep(run, old(c.w), c.w, r, existingIP, Address(chosen, tier, External));
    StepsOne(run, old(c.trace), c.trace, old(c.w), c.w);
    RunFacts(run, c.w, c.trace);
    OwnIPs(run, c.w);
    if run.vip != "" { OnRule(c.w, lb, run.vip); }
    ip := "";
    existed := r == Conflict || r == BadRequest;
    ok := r == Ok || existed;
    if !ok { return; }
    ok, ip := FindHeld(c, lb, existingIP);
  }

  /** The IP that is held now: looked up by IP if there was one, else by the load balancer's name. */
  method FindHeld(c: Cloud, lb: string, existingIP: string) returns (ok: bool, ip: string)
    ensures existingIP != "" && ok ==> ip == existingIP && c.w.Reserved(ip)
    ensures existingIP == "" && ok ==> lb in c.w.addresses && ip == c.w.addresses[lb].ip
    ensures c.reliable ==> (ok <==> if existingIP != "" then c.w.Reserved(existingIP) else lb in c.w.addresses)
  {
    if existingIP != "" {
      var name := c.GetAddressByIP(existingIP);
      return name.Found?, existingIP;
    }
    var addr := c.Get(c.w.addresses, lb);
    ok, ip := addr.Found?, "";
    if ok { ip := addr.value.ip; }
  }

  // ---- firewall ----

  lemma NoFirewallTouched(s: World, name: string)
    ensures OnlyFirewall(s, s, name)
  {
  }

  method EnsureFirewall(c: Cloud, ghost run: Run, svc: Service, ip: string) returns (ok: bool)
    requires c.Valid() && Underway(run, c.w) && svc == run.svc && ip != ""
    requires run.frozen ==> c.w.rules[svc.lb].ip == ip
    modifies c
    ensures c.Valid() && old(c.trace) <= c.trace && Underway(run, c.w)
    ensures StepsOk(run, c.trace, |old(c.trace)|)
    ensures OnlyFirewall(old(c.w), c.w, FirewallName(svc.lb))
    ensures ok && Balanceable(svc) ==> FirewallReady(c.w, svc, ip)
    ensures run.frozen ==> c.w == old(c.w)
    ensures c.reliable && svc.sourceRanges.Nets? ==> ok
  {
    hide StepOk, StepsOk, Underway, UpToDate, RuleFits, CheckReady, AffinityFits, VipOwned, TierOk, OnlyFirewall;
    RunFacts(run, c.w, c.trace);
    NoFirewallTouched(c.w, FirewallName(svc.lb));
    if svc.sourceRanges.InvalidRanges? { return false; }
    var nets, name := svc.sourceRanges.nets, FirewallName(svc.lb);
    var fw := c.Get(c.w.firewalls, name);
    if fw.Unavailable? { return false; }
    if fw.Found? && UpToDate(fw.value, svc.name, ip, svc.ports, nets) { return true; }
    var desc := FirewallDescription(svc.name, ip);
    ok := WriteFirewall(c, name, fw.Found?, desc, ip, nets, svc.ports);
    if ok {
      ghost var tags :| c.w.firewalls[name] == FirewallObject(desc, ip, nets, svc.ports, tags);
      BuiltIsUpToDate(svc.name, ip, nets, svc.ports, tags);
    }
    StepWriteFirewall(run, old(c.w), c.w, name);
    StepsOne(run, old(c.trace), c.trace, old(c.w), c.w);
  }

  // ---- tearing down pool and checks, one request at a time ----

  /** Where a teardown stands: what it deletes next. */
  datatype Teardown = DropRule | DropPool | DropCheck(k: nat) | DropCheckFirewall(k: nat) | Done(ok: bool)

  function Rank(stage: Teardown, checks: nat): int {
    match stage
    case DropRule => 2 * checks + 3
    case DropPool => 2 * checks + 2
    case DropCheck(k) => 2 * (checks - k) + 1
    case DropCheckFirewall(k) => 2 * (checks - k)
    case Done(_) => 0
  }

  function NextCheck(k: nat, checks: nat): Teardown {
    if k == checks then Done(true) else DropCheck(k)
  }

  /** The check is deleted along with its firewall, or another pool still uses it. */
  ghost predicate Cleared(s: World, clusterID: string, lb: string, hc: string) {
    if hc in s.checks then s.CheckInUse(hc) else CheckFirewallName(clusterID, hc, hc != lb) !in s.firewalls
  }

  /** The shared check is in use, or gone along with its firewall. */
  ghost predicate SharedClear(clusterID: string, s: World) {
    var nodes := NodesCheckName(clusterID);
    if nodes in s.checks then s.CheckInUse(nodes) else CheckFirewallName(clusterID, nodes, true) !in s.firewalls
  }

  /** It stays so while nothing is done to the pair and nobody gives up a reference. */
  lemma SharedStaysClear(clusterID: string, s: World, t: World)
    requires NodesCheckName(clusterID) in s.checks <==> NodesCheckName(clusterID) in t.checks
    requires CheckFirewallName(clusterID, NodesCheckName(clusterID), true) in t.firewalls ==>
             CheckFirewallName(clusterID, NodesCheckName(clusterID), true) in s.firewalls
    requires forall p :: p in s.pools && NodesCheckName(clusterID) in s.pools[p].checks ==>
             p in t.pools && NodesCheckName(clusterID) in t.pools[p].checks
    ensures SharedClear(clusterID, s) ==> SharedClear(clusterID, t)
  {
    hide NodesCheckName, CheckFirewallName;
  }

  lemma SharedMembers(clusterID: string, s: World, t: World, lb: string)
    requires lb in s.pools && lb in t.pools && t == s.WithInstances(lb, t.pools[lb].instances)
    ensures SharedClear(clusterID, s) ==> SharedClear(clusterID, t)
  {
    hide SharedClear;
    SharedStaysClear(clusterID, s, t);
  }

  lemma SharedFirewallApart(clusterID: string, lb: string)
    requires IsLoadBalancerName(lb)
    ensures CheckFirewallName(clusterID, lb, false) != CheckFirewallName(clusterID, NodesCheckName(clusterID), true)
    ensures lb != NodesCheckName(clusterID)
  {
    DistinctNames(lb, clusterID);
  }

  lemma NameIsValid(run: Run, s: World)
    requires Underway(run, s)
    ensures IsLoadBalancerName(run.svc.lb)
  {
  }

  lemma ClearedIsClear(s: World, clusterID: string, lb: string, hcNames: seq<string>)
    requires IsLoadBalancerName(lb) && ClearedUpTo(s, clusterID, lb, hcNames, |hcNames|)
    ensures NodesCheckName(clusterID) in hcNames ==> SharedClear(clusterID, s)
  {
    DistinctNames(lb, clusterID);
    if NodesCheckName(clusterID) in hcNames {
      var j :| 0 <= j < |hcNames| && hcNames[j] == NodesCheckName(clusterID);
      assert Cleared(s, clusterID, lb, hcNames[j]);
    }
  }

  ghost predicate ClearedUpTo(s: World, clusterID: string, lb: string, hcNames: seq<string>, k: nat) {
    forall j :: 0 <= j < k && j < |hcNames| ==> Cleared(s, clusterID, lb, hcNames[j])
  }

  ghost predicate StageOk(s: World, clusterID: string, lb: string, hcNames: seq<string>, stage: Teardown) {
    match stage
    case DropRule => true
    case DropPool => lb !in s.rules
    case DropCheck(k) => lb !in s.rules && lb !in s.pools && k < |hcNames| && ClearedUpTo(s, clusterID, lb, hcNames, k)
    case DropCheckFirewall(k) =>
      lb !in s.rules && lb !in s.pools && k < |hcNames| && ClearedUpTo(s, clusterID, lb, hcNames, k) &&
        hcNames[k] !in s.checks
    case Done(ok) => ok ==> lb !in s.rules && lb !in s.pools && ClearedUpTo(s, clusterID, lb, hcNames, |hcNames|)
  }

  /** The checks a teardown may name: the service's own first, then the shared nodes check. */
  predicate TeardownNames(clusterID: string, lb: string, hcNames: seq<string>) {
    hcNames in {[], [lb], [NodesCheckName(clusterID)], [lb, NodesCheckName(clusterID)]}
  }

  /** The teardown leaves addresses and the service's own firewall alone, and creates nothing. */
  ghost predicate TornDown(s: World, t: World, lb: string, hcNames: seq<string>) {
    && t.addresses == s.addresses
    && (t.rules == s.rules || t.rules == s.rules - {lb})
    && (t.pools == s.pools || t.pools == s.pools - {lb})
    && (FirewallName(lb) in t.firewalls <==> FirewallName(lb) in s.firewalls)
    && (FirewallName(lb) in s.firewalls ==> t.firewalls[FirewallName(lb)] == s.firewalls[FirewallName(lb)])
    && t.checks.Keys <= s.checks.Keys && t.firewalls.Keys <= s.firewalls.Keys
    && (forall h :: h in s.checks && h !in hcNames ==> h in t.checks)
  }

  /** The firewall of the service's own check is as it was. */
  ghost predicate SameLocalFirewall(s: World, t: World, clusterID: string, lb: string) {
    CheckFirewallName(clusterID, lb, false) in t.firewalls <==> CheckFirewallName(clusterID, lb, false) in s.firewalls
  }

  /** The request made at a stage. */
  function TeardownPlan(s: World, clusterID: string, lb: string, hcNames: seq<string>, stage: Teardown): Plan
    requires stage.DropCheck? || stage.DropCheckFirewall? ==> stage.k < |hcNames|
  {
    match stage
    case DropRule => s.DeleteRule(lb)
    case DropPool => s.DeletePool(lb)
    case DropCheck(k) => s.DeleteCheck(hcNames[k])
    case DropCheckFirewall(k) => s.DeleteFirewall(CheckFirewallName(clusterID, hcNames[k], hcNames[k] != lb))
    case Done(_) => Plan(Failed, s)
  }

  /** A check in use stays, along with its firewall; one already gone may still have its firewall. */
  function NextStage(stage: Teardown, r: Response, checks: nat): Teardown {
    if r != Ok && r != NotFound && !(stage.DropCheck? && r == InUse) then Done(false)
    else match stage
      case DropRule => DropPool
      case DropPool => NextCheck(0, checks)
      case DropCheck(k) => if r == InUse then NextCheck(k + 1, checks) else DropCheckFirewall(k)
      case DropCheckFirewall(k) => NextCheck(k + 1, checks)
      case Done(_) => stage
  }

  /** Whatever is answered, what was cleared before stays cleared, and the next stage's facts hold. */
  lemma TeardownAnswer(s: World, t: World, r: Response, clusterID: string, lb: string, hcNames: seq<string>,
                       stage: Teardown)
    requires IsLoadBalancerName(lb) && TeardownNames(clusterID, lb, hcNames)
    requires !stage.Done? && StageOk(s, clusterID, lb, hcNames, stage)
    requires Answers(s, t, r, TeardownPlan(s, clusterID, lb, hcNames, stage))
    ensures StageOk(t, clusterID, lb, hcNames, NextStage(stage, r, |hcNames|))
    ensures TornDown(s, t, lb, hcNames) && (lb !in hcNames ==> SameLocalFirewall(s, t, clusterID, lb))
  {
    match stage {
      case DropRule => hide Cleared;
      case DropPool => hide Cleared;
      case DropCheck(k) => CheckAnswer(s, t, r, clusterID, lb, hcNames, k);
      case DropCheckFirewall(k) => CheckFirewallAnswer(s, t, r, clusterID, lb, hcNames, k);
    }
  }

  lemma CheckAnswer(s: World, t: World, r: Response, clusterID: string, lb: string, hcNames: seq<string>, k: nat)
    requires StageOk(s, clusterID, lb, hcNames, DropCheck(k))
    requires Answers(s, t, r, s.DeleteCheck(hcNames[k]))
    ensures StageOk(t, clusterID, lb, hcNames, NextStage(DropCheck(k), r, |hcNames|))
    ensures TornDown(s, t, lb, hcNames) && SameLocalFirewall(s, t, clusterID, lb)
  {
    hide Cleared, CheckFirewallName;
    forall j | 0 <= j < k
      ensures Cleared(t, clusterID, lb, hcNames[j])
    {
      StaysCleared(s, t, clusterID, lb, hcNames[j]);
    }
    if r == InUse { ClearedByUse(s, clusterID, lb, hcNames[k]); }
  }

  lemma CheckFirewallAnswer(s: World, t: World, r: Response, clusterID: string, lb: string, hcNames: seq<string>,
                            k: nat)
    requires IsLoadBalancerName(lb) && TeardownNames(clusterID, lb, hcNames)
    requires StageOk(s, clusterID, lb, hcNames, DropCheckFirewall(k))
    requires Answers(s, t, r, s.DeleteFirewall(CheckFirewallName(clusterID, hcNames[k], hcNames[k] != lb)))
    ensures StageOk(t, clusterID, lb, hcNames, NextStage(DropCheckFirewall(k), r, |hcNames|))
    ensures TornDown(s, t, lb, hcNames) && (lb !in hcNames ==> SameLocalFirewall(s, t, clusterID, lb))
  {
    hide Cleared, CheckFirewallName, FirewallName;
    SharedIsNotOwn(clusterID, lb, hcNames[k]);
    forall j | 0 <= j < k
      ensures Cleared(t, clusterID, lb, hcNames[j])
    {
      StaysCleared(s, t, clusterID, lb, hcNames[j]);
    }
    if r == Ok || r == NotFound { ClearedByDeletion(t, clusterID, lb, hcNames[k]); }
  }

  lemma SharedIsNotOwn(clusterID: string, lb: string, h: string)
    requires IsLoadBalancerName(lb) && h in {lb, NodesCheckName(clusterID)}
    ensures CheckFirewallName(clusterID, h, h != lb) != FirewallName(lb)
    ensures h != lb ==> CheckFirewallName(clusterID, h, h != lb) != CheckFirewallName(clusterID, lb, false)
  {
    DistinctNames(lb, clusterID);
  }

  lemma StaysCleared(s: World, t: World, clusterID: string, lb: string, h: string)
    requires Cleared(s, clusterID, lb, h)
    requires t.pools == s.pools && t.checks.Keys <= s.checks.Keys && t.firewalls.Keys <= s.firewalls.Keys
    requires s.CheckInUse(h) && h in s.checks ==> h in t.checks
    ensures Cleared(t, clusterID, lb, h)
  {
    hide CheckFirewallName;
    assert s.CheckInUse(h) ==> t.CheckInUse(h);
  }

  lemma ClearedByUse(s: World, clusterID: string, lb: string, h: string)
    requires h in s.checks && s.CheckInUse(h)
    ensures Cleared(s, clusterID, lb, h)
  {
  }

  lemma ClearedByDeletion(s: World, clusterID: string, lb: string, h: string)
    requires h !in s.checks && CheckFirewallName(clusterID, h, h != lb) !in s.firewalls
    ensures Cleared(s, clusterID, lb, h)
  {
  }

  lemma StepDropCheckFirewall(run: Run, s: World, t: World, h: string)
    requires Underway(run, s) && !run.frozen && h in {run.svc.lb, NodesCheckName(run.cfg.clusterID)} && h !in s.checks
    requires var name := CheckFirewallName(run.cfg.clusterID, h, h != run.svc.lb);
             t == s || t == s.(firewalls := s.firewalls - {name})
    ensures StepOk(run, s, t) && Underway(run, t)
  {
    hide Open, StepOk, FullyBuilt, Settled, VipOwned, TierOk;
    var name := CheckFirewallName(run.cfg.clusterID, h, h != run.svc.lb);
    if ChecksOpen(s, run.cfg.clusterID) {
      OpenWithoutCheckFirewall(s, run.cfg.clusterID, run.svc.lb, h);
      assert t.firewalls.Keys in {s.firewalls.Keys, s.firewalls.Keys - {name}};
    }
    StepFirewall(run, s, t, name);
  }

  lemma TeardownIsStep(run: Run, s: World, t: World, r: Response, hcNames: seq<string>, stage: Teardown)
    requires Underway(run, s) && !run.frozen
    requires TeardownNames(run.cfg.clusterID, run.svc.lb, hcNames)
    requires !stage.Done? && StageOk(s, run.cfg.clusterID, run.svc.lb, hcNames, stage)
    requires stage.DropRule? ==> run.vip == ""
    requires Answers(s, t, r, TeardownPlan(s, run.cfg.clusterID, run.svc.lb, hcNames, stage))
    ensures StepOk(run, s, t) && Underway(run, t)
  {
    hide FullyBuilt, ClearedUpTo, WellFormed, VipOwned, OwnOnly, Settled;
    match stage {
      case DropRule => StepDropRule(run, s, t);
      case DropPool => StepDropPool(run, s, t);
      case DropCheck(k) => StepDropCheck(run, s, t, hcNames[k]);
      case DropCheckFirewall(k) => StepDropCheckFirewall(run, s, t, hcNames[k]);
    }
  }

  /** One request of the teardown. */
  method TeardownStep(c: Cloud, ghost run: Run, clusterID: string, lb: string, hcNames: seq<string>, stage: Teardown)
      returns (next: Teardown)
    requires c.Valid() && Underway(run, c.w) && !run.frozen && lb == run.svc.lb && clusterID == run.cfg.clusterID
    requires TeardownNames(clusterID, lb, hcNames)
    requires !stage.Done? && StageOk(c.w, clusterID, lb, hcNames, stage)
    requires stage.DropRule? ==> run.vip == ""
    modifies c
    ensures c.Valid() && c.trace == old(c.trace) + [c.w]
    ensures StepOk(run, old(c.w), c.w) && Underway(run, c.w)
    ensures StageOk(c.w, clusterID, lb, hcNames, next)
    ensures 0 <= Rank(next, |hcNames|) < Rank(stage, |hcNames|)
    ensures TornDown(old(c.w), c.w, lb, hcNames) && (!stage.DropRule? ==> c.w.rules == old(c.w).rules)
    ensures !next.DropRule?
    ensures lb !in hcNames ==> SameLocalFirewall(old(c.w), c.w, clusterID, lb)
    ensures c.reliable ==> next != Done(false)
  {
    hide StepOk, Underway, StageOk, TornDown, SameLocalFirewall, RuleFits, CheckReady, AffinityFits, FirewallReady,
      VipOwned, TierOk;
    RunFacts(run, c.w, c.trace);
    StageInRange(c.w, clusterID, lb, hcNames, stage);
    var r := c.Request(TeardownPlan(c.w, clusterID, lb, hcNames, stage));
    TeardownAnswer(old(c.w), c.w, r, clusterID, lb, hcNames, stage);
    TeardownIsStep(run, old(c.w), c.w, r, hcNames, stage);
    next := NextStage(stage, r, |hcNames|);
    StageAdvances(old(c.w), clusterID, lb, hcNames, stage, r, next);
  }

  lemma StageInRange(s: World, clusterID: string, lb: string, hcNames: seq<string>, stage: Teardown)
    requires StageOk(s, clusterID, lb, hcNames, stage)
    ensures stage.DropCheck? || stage.DropCheckFirewall? ==> stage.k < |hcNames|
  {
    hide ClearedUpTo;
  }

  lemma StageAdvances(s: World, clusterID: string, lb: string, hcNames: seq<string>, stage: Teardown, r: Response,
                      next: Teardown)
    requires !stage.Done? && StageOk(s, clusterID, lb, hcNames, stage) && next == NextStage(stage, r, |hcNames|)
    ensures 0 <= Rank(next, |hcNames|) < Rank(stage, |hcNames|) && !next.DropRule?
    ensures r == TeardownPlan(s, clusterID, lb, hcNames, stage).answer ==> next != Done(false)
  {
    hide ClearedUpTo;
  }

  /** `DeleteExternalTargetPoolAndChecks`, once the rule is gone. */
  method DeletePoolAndChecks(c: Cloud, ghost run: Run, clusterID: string, lb: string, hcNames: seq<string>)
      returns (ok: bool)
    requires c.Valid() && Underway(run, c.w) && !run.frozen && lb == run.svc.lb && clusterID == run.cfg.clusterID
    requires TeardownNames(clusterID, lb, hcNames) && lb !in c.w.rules
    modifies c
    ensures c.Valid() && old(c.trace) <= c.trace && Underway(run, c.w)
    ensures StepsOk(run, c.trace, |old(c.trace)|)
    ensures c.w.rules == old(c.w).rules && TornDown(old(c.w), c.w, lb, hcNames)
    ensures ok ==> lb !in c.w.pools && ClearedUpTo(c.w, clusterID, lb, hcNames, |hcNames|)
    ensures c.reliable ==> ok
  {
    hide FullyBuilt, Cleared, ClearedUpTo, WellFormed, VipOwned, OwnOnly, Settled;
    var stage := DropPool;
    while !stage.Done?
      invariant c.Valid() && old(c.trace) <= c.trace && Underway(run, c.w)
      invariant StepsOk(run, c.trace, |old(c.trace)|)
      invariant StageOk(c.w, clusterID, lb, hcNames, stage) && !stage.DropRule?
      invariant c.reliable ==> stage != Done(false)
      invariant c.w.rules == old(c.w).rules && TornDown(old(c.w), c.w, lb, hcNames)
      decreases Rank(stage, |hcNames|)
    {
      stage := TeardownStep(c, run, clusterID, lb, hcNames, stage);
    }
    ok := stage.ok;
  }

  // ---- building pool and check ----

  /** Nothing but the pool, the check it needs and that check's firewall differs; no address and no rule. */
  ghost predicate BuiltUp(s: World, t: World, svc: Service) {
    && t.addresses == s.addresses && t.rules == s.rules
    && (FirewallName(svc.lb) in t.firewalls <==> FirewallName(svc.lb) in s.firewalls)
    && (FirewallName(svc.lb) in s.firewalls ==> t.firewalls[FirewallName(svc.lb)] == s.firewalls[FirewallName(svc.lb)])
    && (svc.check.NodesCheck? ==> (svc.lb in t.checks <==> svc.lb in s.checks))
  }

  lemma NamesOfCheck(cfg: Config, svc: Service)
    requires IsLoadBalancerName(svc.lb)
    ensures var hc := Wanted(cfg, svc);
            && (hc.name != svc.lb <==> svc.check.NodesCheck?)
            && CheckFirewallName(cfg.clusterID, hc.name, hc.name != svc.lb) in OwnFirewalls(svc.lb, cfg.clusterID)
            && CheckFirewallName(cfg.clusterID, hc.name, hc.name != svc.lb) != FirewallName(svc.lb)
  {
    DistinctNames(svc.lb, cfg.clusterID);
  }

  /** The firewall that lets the health check through. */
  method FirewallForCheck(c: Cloud, ghost run: Run, cfg: Config, svc: Service, ip: string, hc: WantedCheck)
      returns (ok: bool)
    requires c.Valid() && Underway(run, c.w) && !run.frozen && svc == run.svc && cfg == run.cfg &&
             hc == Wanted(cfg, svc)
    modifies c
    ensures c.Valid() && old(c.trace) <= c.trace && Underway(run, c.w)
    ensures StepsOk(run, c.trace, |old(c.trace)|)
    ensures BuiltUp(old(c.w), c.w, svc) && c.w.pools == old(c.w).pools
    ensures ok ==> CheckFirewallName(cfg.clusterID, hc.name, hc.name != svc.lb) in c.w.firewalls
    ensures c.reliable ==> ok
    ensures FirewallWritten(old(c.w), c.w, CheckFirewallName(cfg.clusterID, hc.name, hc.name != svc.lb), ok)
    ensures ok ==> ProbesAdmitted(cfg, svc, c.w.firewalls)
    ensures ok ==> var name := CheckFirewallName(cfg.clusterID, hc.name, hc.name != svc.lb);
            name in c.w.firewalls && c.w.firewalls[name].description ==
              match svc.check
              case LocalCheck(_, _) => FirewallDescription(svc.name, ip)
              case NodesCheck => ClusterDescription(cfg.clusterID)
    ensures svc.check.LocalCheck? && old(SharedClear(cfg.clusterID, c.w)) ==> SharedClear(cfg.clusterID, c.w)
  {
    hide StepOk, StepsOk, Underway, CheckFirewallFits, CheckReady, AffinityFits, RuleFits, VipOwned, FirewallReady,
      Kept,
      TierOk, ProbesPass, FirewallWritten, CheckFirewallName, NodesCheckName, FirewallDescription, ClusterDescription,
        SharedClear;
    RunFacts(run, c.w, c.trace);
    NamesOfCheck(cfg, svc);
    var isNodes := hc.name != svc.lb;
    var fwName := CheckFirewallName(cfg.clusterID, hc.name, isNodes);
    var desc := if isNodes then ClusterDescription(cfg.clusterID) else FirewallDescription(svc.name, ip);
    ok := EnsureCheckFirewall(c, fwName, desc, ip, cfg.checkSourceRanges, hc.port);
    if svc.check.LocalCheck? {
      SharedFirewallApart(cfg.clusterID, svc.lb);
      SharedStaysClear(cfg.clusterID, old(c.w), c.w);
    }
    StepWriteFirewall(run, old(c.w), c.w, fwName);
    StepsOne(run, old(c.trace), c.trace, old(c.w), c.w);
  }

  /** The health check itself. */
  method CheckForPool(c: Cloud, ghost run: Run, cfg: Config, svc: Service, hc: WantedCheck) returns (ok: bool)
    requires c.Valid() && Underway(run, c.w) && svc == run.svc && cfg == run.cfg && hc == Wanted(cfg, svc)
    modifies c
    ensures c.Valid() && old(c.trace) <= c.trace && Underway(run, c.w)
    ensures StepsOk(run, c.trace, |old(c.trace)|)
    ensures BuiltUp(old(c.w), c.w, svc) && c.w.pools == old(c.w).pools && c.w.firewalls == old(c.w).firewalls
    ensures ok ==> CheckReady(c.w, hc.name, hc.path, hc.port)
    ensures run.frozen ==> c.w == old(c.w)
    ensures c.reliable ==> ok
    ensures CheckEnsured(old(c.w), c.w, hc.name, ok)
    ensures svc.check.LocalCheck? && old(SharedClear(cfg.clusterID, c.w)) ==> SharedClear(cfg.clusterID, c.w)
  {
    hide StepOk, StepsOk, Underway, CheckReady, ChecksGrow, AffinityFits, RuleFits, VipOwned, SharedClear;
    RunFacts(run, c.w, c.trace);
    DistinctNames(svc.lb, cfg.clusterID);
    ok := EnsureHTTPHealthCheck(c, hc.name, hc.path, hc.port);
    if svc.check.LocalCheck? { SharedStaysClear(cfg.clusterID, old(c.w), c.w); }
    if run.frozen {
      StepSame(run, c.w);
    } else {
      StepCheck(run, old(c.w), c.w, hc.name);
    }
    StepsOne(run, old(c.trace), c.trace, old(c.w), c.w);
  }

  ghost predicate PoolRequested(s: World, t: World, lb: string, check: string) {
    exists pool: TargetPool, r :: pool.checks == [check] && Answers(s, t, r, s.CreatePool(lb, pool))
  }

  /** The requests of a creation: for the firewall, then for the check, then for the pool, ending where one fails. */
  ghost predicate Creation(s: World, t: World, lb: string, check: string, fwName: string) {
    || FirewallWritten(s, t, fwName, false)
    || (exists m :: FirewallWritten(s, m, fwName, true) && CheckEnsured(m, t, check, false))
    || (exists m, n ::
         FirewallWritten(s, m, fwName, true) && CheckEnsured(m, n, check, true) && PoolRequested(n, t, lb, check))
  }

  method CreatePool(c: Cloud, ghost run: Run, cfg: Config, svc: Service, hosts: seq<Host>, hc: WantedCheck)
      returns (ok: bool)
    requires c.Valid() && Underway(run, c.w) && !run.frozen && svc == run.svc && cfg == run.cfg &&
             hc == Wanted(cfg, svc)
    requires hc.name in c.w.checks && svc.lb !in c.w.pools
    requires CheckFirewallName(cfg.clusterID, hc.name, hc.name != svc.lb) in c.w.firewalls
    requires run.tidy ==> DistinctPaths(Links(hosts))
    requires |hosts| <= MAX_AT_CREATION
    modifies c
    ensures c.Valid() && old(c.trace) <= c.trace && Underway(run, c.w)
    ensures StepsOk(run, c.trace, |old(c.trace)|)
    ensures c.w == old(c.w).(pools := c.w.pools)
    ensures ok ==>
            svc.lb in c.w.pools &&
            c.w.pools[svc.lb] == TargetPool(Links(hosts), AffinityText(svc.affinity), [hc.name])
    ensures c.reliable ==> ok
    ensures PoolRequested(old(c.w), c.w, svc.lb, hc.name)
    ensures svc.check.LocalCheck? && old(SharedClear(cfg.clusterID, c.w)) ==> SharedClear(cfg.clusterID, c.w)
  {
    hide StepOk, StepsOk, Underway, SharedClear;
    var pool := TargetPool(Links(hosts), AffinityText(svc.affinity), [hc.name]);
    var r := c.Request(c.w.CreatePool(svc.lb, pool));
    SharedStaysClear(cfg.clusterID, old(c.w), c.w);
    StepCreatePool(run, old(c.w), c.w, pool);
    StepsOne(run, old(c.trace), c.trace, old(c.w), c.w);
    ok := r == Ok || r == Conflict;
  }

  /** The check's firewall, then the check, then the pool. The lock taken for the shared check is not modelled here. */
  method CreatePoolAndCheck(c: Cloud, ghost run: Run, cfg: Config, svc: Service, ip: string, hosts: seq<Host>,
                            hc: WantedCheck)
      returns (ok: bool)
    requires c.Valid() && Underway(run, c.w) && !run.frozen && svc == run.svc && cfg == run.cfg
    requires hc == Wanted(cfg, svc) && svc.lb !in c.w.pools
    requires run.tidy ==> DistinctPaths(Links(hosts))
    requires |hosts| <= MAX_AT_CREATION
    modifies c
    ensures c.Valid() && old(c.trace) <= c.trace && Underway(run, c.w)
    ensures StepsOk(run, c.trace, |old(c.trace)|)
    ensures BuiltUp(old(c.w), c.w, svc)
    ensures ok ==> svc.lb in c.w.pools && CheckReady(c.w, hc.name, hc.path, hc.port)
                   && CheckFirewallName(cfg.clusterID, hc.name, hc.name != svc.lb) in c.w.firewalls
                   && c.w.pools[svc.lb] == TargetPool(Links(hosts), AffinityText(svc.affinity), [hc.name])
    ensures c.reliable ==> ok
    ensures Creation(old(c.w), c.w, svc.lb, hc.name, CheckFirewallName(cfg.clusterID, hc.name, hc.name != svc.lb))
    ensures ok ==> ProbesAdmitted(cfg, svc, c.w.firewalls)
    ensures ok ==> var name := CheckFirewallName(cfg.clusterID, hc.name, hc.name != svc.lb);
            name in c.w.firewalls && c.w.firewalls[name].description ==
              match svc.check
              case LocalCheck(_, _) => FirewallDescription(svc.name, ip)
              case NodesCheck => ClusterDescription(cfg.clusterID)
    ensures svc.check.LocalCheck? && old(SharedClear(cfg.clusterID, c.w)) ==> SharedClear(cfg.clusterID, c.w)
  {
    hide StepOk, StepsOk, Underway, NeedsUpdate, ProbesAdmitted, CheckFirewallName, FirewallDescription,
      ClusterDescription, FirewallWritten,
      CheckEnsured, PoolRequested, SharedClear;
    ok := FirewallForCheck(c, run, cfg, svc, ip, hc);
    if !ok { return; }
    ghost var before := c.trace;
    ok := CheckForPool(c, run, cfg, svc, hc);
    StepsJoin(run, before, c.trace, |old(c.trace)|);
    if !ok { return; }
    before := c.trace;
    ok := CreatePool(c, run, cfg, svc, hosts, hc);
    StepsJoin(run, before, c.trace, |old(c.trace)|);
  }

  lemma TidyPool(run: Run, s: World)
    requires Kept(run, s.addresses, s.rules, s.pools) && run.svc.lb in s.pools
    ensures run.tidy ==> PoolDistinct(s, run.svc.lb)
  {
  }

  lemma MemberSteps(run: Run, s: World, before: seq<World>, after: seq<World>)
    requires Underway(run, s) && run.svc.lb in s.pools
    requires before != [] && before[|before| - 1] == s && before <= after
    requires AllBetween(s, after, |before|, run.svc.lb, HostPaths(run.hosts))
    requires run.frozen ==> AllSame(s, after, |before|)
    ensures StepsOk(run, after, |before|)
    ensures |after| > 0 && Underway(run, after[|after| - 1])
  {
    hide FullyBuilt, WellFormed, VipOwned, OwnOnly, Settled, Kept;
    BetweenSame(s, run.svc.lb, HostPaths(run.hosts));
    TidyPool(run, s);
    forall i | |before| <= i < |after|
      ensures StepOk(run, after[i - 1], after[i]) && Underway(run, after[i])
    {
      if run.frozen {
        StepSame(run, s);
      } else {
        assert Between(s, after[i], run.svc.lb, HostPaths(run.hosts));
        assert i > |before| ==> Between(s, after[i - 1], run.svc.lb, HostPaths(run.hosts));
        StepMembers(run, s, after[i - 1], after[i]);
      }
    }
  }

  /** The pool of `s` and the world around it, but for its members. */
  method UpdateMembers(c: Cloud, ghost run: Run, lb: string, hosts: seq<Host>) returns (ok: bool)
    requires c.Valid() && Underway(run, c.w) && lb == run.svc.lb && hosts == run.hosts && lb in c.w.pools
    modifies c
    ensures c.Valid() && old(c.trace) <= c.trace && Underway(run, c.w)
    ensures StepsOk(run, c.trace, |old(c.trace)|)
    ensures lb in c.w.pools && c.w == old(c.w).WithInstances(lb, c.w.pools[lb].instances)
    ensures ok ==> HoldsExactly(c.w, lb, hosts)
    ensures run.frozen ==> c.w == old(c.w)
    ensures c.reliable && DistinctHosts(hosts) && old(PoolDistinct(c.w, lb)) ==> ok
  {
    hide WellFormed, VipOwned, OwnOnly;
    ok := UpdateTargetPool(c, lb, hosts);
    MemberSteps(run, old(c.w), old(c.trace), c.trace);
    BetweenSame(old(c.w), lb, HostPaths(hosts));
    if |c.trace| > |old(c.trace)| {
      assert Between(old(c.w), c.w, lb, HostPaths(hosts));
    }
  }

  lemma CreatedWithAll(s: World, lb: string, hosts: seq<Host>)
    requires lb in s.pools && s.pools[lb].instances == Links(hosts)
    ensures HoldsExactly(s, lb, hosts)
  {
    LinksPaths(hosts);
  }

  /** Addresses, rules and the service's own firewall are as before. */
  ghost predicate SameFront(s: World, t: World, lb: string) {
    && t.addresses == s.addresses && t.rules == s.rules
    && (FirewallName(lb) in t.firewalls <==> FirewallName(lb) in s.firewalls)
    && (FirewallName(lb) in s.firewalls ==> t.firewalls[FirewallName(lb)] == s.firewalls[FirewallName(lb)])
  }

  /** What makes the load balancer work behind its rule and firewall. */
  ghost predicate BackendReady(cfg: Config, svc: Service, hosts: seq<Host>, s: World) {
    var hc := Wanted(cfg, svc);
    HoldsExactly(s, svc.lb, hosts) && AffinityFits(s.pools[svc.lb], svc) && CheckReady(s, hc.name, hc.path, hc.port)
  }

  /** Whether the service's local check is left, given what a rebuild was to delete. */
  ghost predicate LocalCheckLeft(s: World, lb: string, tpExists: bool, hcToDelete: seq<string>) {
    lb in s.checks && !(tpExists && lb in hcToDelete)
  }

  lemma LocalCheckGone(run: Run, s: World, clusterID: string, hcNames: seq<string>)
    requires Underway(run, s) && run.svc.lb !in s.pools
    requires ClearedUpTo(s, clusterID, run.svc.lb, hcNames, |hcNames|) && run.svc.lb in hcNames
    ensures run.svc.lb !in s.checks
  {
    var j :| 0 <= j < |hcNames| && hcNames[j] == run.svc.lb;
    assert Cleared(s, clusterID, run.svc.lb, hcNames[j]);
  }

  /** The first hosts at creation, the rest by updates. */
  method CreateWithHosts(c: Cloud, ghost run: Run, cfg: Config, svc: Service, ip: string, hosts: seq<Host>,
                         hc: WantedCheck)
      returns (ok: bool)
    requires c.Valid() && Underway(run, c.w) && !run.frozen && svc == run.svc && cfg == run.cfg && hosts == run.hosts
    requires hc == Wanted(cfg, svc) && svc.lb !in c.w.pools
    modifies c
    ensures c.Valid() && old(c.trace) <= c.trace && Underway(run, c.w)
    ensures StepsOk(run, c.trace, |old(c.trace)|)
    ensures SameFront(old(c.w), c.w, svc.lb)
    ensures ok ==> BackendReady(cfg, svc, hosts, c.w)
    ensures svc.check.NodesCheck? ==> (svc.lb in c.w.checks <==> svc.lb in old(c.w).checks)
    ensures c.reliable && DistinctHosts(hosts) ==> ok
    ensures ok ==> svc.lb in c.w.pools && c.w.pools[svc.lb].checks == [hc.name]
    ensures ok ==> ProbesAdmitted(cfg, svc, c.w.firewalls)
    ensures svc.check.LocalCheck? && old(SharedClear(cfg.clusterID, c.w)) ==> SharedClear(cfg.clusterID, c.w)
  {
    hide StepOk, StepsOk, Underway, BackendReady, HoldsExactly, CheckReady, DistinctHosts, DistinctPaths, Links,
      PoolDistinct, BuiltUp, SameFront, CheckFirewallName, Wanted, Creation, ProbesAdmitted, FirewallDescription,
        ClusterDescription, AffinityText, SharedClear, NodesCheckName;
    TidyHosts(run, c.w);
    var first := if |hosts| > MAX_AT_CREATION then hosts[..MAX_AT_CREATION] else hosts;
    if DistinctHosts(hosts) { DistinctStart(hosts, first); }
    ok := CreatePoolAndCheck(c, run, cfg, svc, ip, first, hc);
    FrontAfter(old(c.w), c.w, c.w, svc);
    if !ok { return; }
    StartDistinct(c.w, svc.lb, first);
    if |hosts| <= MAX_AT_CREATION {
      CreatedWithAll(c.w, svc.lb, hosts);
      SamePool(c.w, svc.lb);
      BackendBuilt(cfg, svc, hosts, c.w, c.w);
    } else {
      ghost var mid, before := c.w, c.trace;
      ok := UpdateMembers(c, run, svc.lb, hosts);
      StepsJoin(run, before, c.trace, |old(c.trace)|);
      FrontAfter(old(c.w), mid, c.w, svc);
      SharedMembers(cfg.clusterID, mid, c.w, svc.lb);
      if ok { BackendBuilt(cfg, svc, hosts, mid, c.w); }
    }
  }

  lemma TidyHosts(run: Run, s: World)
    requires Underway(run, s)
    ensures run.tidy ==> DistinctHosts(run.hosts)
  {
  }

  lemma FrontAfter(s: World, m: World, t: World, svc: Service)
    requires BuiltUp(s, m, svc) && t == m.(pools := t.pools)
    ensures SameFront(s, t, svc.lb) && (svc.check.NodesCheck? ==> (svc.lb in t.checks <==> svc.lb in s.checks))
  {
  }

  lemma DistinctStart(hosts: seq<Host>, first: seq<Host>)
    requires DistinctHosts(hosts) && first <= hosts
    ensures DistinctPaths(Links(first))
  {
    assert hosts[..|first|] == first;
    FirstDistinct(hosts, |first|);
  }

  lemma StartDistinct(s: World, lb: string, first: seq<Host>)
    requires lb in s.pools && s.pools[lb].instances == Links(first)
    ensures DistinctPaths(Links(first)) ==> PoolDistinct(s, lb)
  {
  }

  lemma BackendBuilt(cfg: Config, svc: Service, hosts: seq<Host>, s: World, t: World)
    requires svc.lb in s.pools && s.pools[svc.lb].affinity == AffinityText(svc.affinity)
    requires var hc := Wanted(cfg, svc); CheckReady(s, hc.name, hc.path, hc.port)
    requires svc.lb in t.pools && t == s.WithInstances(svc.lb, t.pools[svc.lb].instances) &&
             HoldsExactly(t, svc.lb, hosts)
    ensures BackendReady(cfg, svc, hosts, t)
  {
    hide HoldsExactly, NeedsUpdate;
  }

  /** Deletes the pool and a superseded check if there is a pool, then creates both anew. */
  method RecreatePool(c: Cloud, ghost run: Run, cfg: Config, svc: Service, ip: string, hosts: seq<Host>,
                      tpExists: bool, hc: WantedCheck, hcToDelete: seq<string>) returns (ok: bool)
    requires c.Valid() && Underway(run, c.w) && !run.frozen && svc == run.svc && cfg == run.cfg && hosts == run.hosts
    requires hc == Wanted(cfg, svc) && svc.lb !in c.w.rules
    requires tpExists <==> svc.lb in c.w.pools
    requires TeardownNames(cfg.clusterID, svc.lb, hcToDelete)
    modifies c
    ensures c.Valid() && old(c.trace) <= c.trace && Underway(run, c.w)
    ensures StepsOk(run, c.trace, |old(c.trace)|)
    ensures SameFront(old(c.w), c.w, svc.lb)
    ensures ok ==> BackendReady(cfg, svc, hosts, c.w)
    ensures ok && svc.check.NodesCheck? ==>
            (svc.lb in c.w.checks <==> LocalCheckLeft(old(c.w), svc.lb, tpExists, hcToDelete))
    ensures c.reliable && DistinctHosts(hosts) ==> ok
    ensures ok ==> svc.lb in c.w.pools && c.w.pools[svc.lb].checks == [hc.name]
    ensures ok ==> ProbesAdmitted(cfg, svc, c.w.firewalls)
    ensures ok && svc.check.LocalCheck? && tpExists && NodesCheckName(cfg.clusterID) in hcToDelete ==>
            SharedClear(cfg.clusterID, c.w)
  {
    hide StepOk, StepsOk, Underway, BackendReady, ClearedUpTo, SharedClear;
    NameIsValid(run, c.w);
    if tpExists {
      ok := DeletePoolAndChecks(c, run, cfg.clusterID, svc.lb, hcToDelete);
      if !ok { return; }
      ClearedIsClear(c.w, cfg.clusterID, svc.lb, hcToDelete);
      if svc.lb in hcToDelete {
        LocalCheckGone(run, c.w, cfg.clusterID, hcToDelete);
      }
      ghost var before := c.trace;
      ok := CreateWithHosts(c, run, cfg, svc, ip, hosts, hc);
      StepsJoin(run, before, c.trace, |old(c.trace)|);
    } else {
      ok := CreateWithHosts(c, run, cfg, svc, ip, hosts, hc);
    }
  }

  method EnsureTargetPoolAndHealthCheck(c: Cloud, ghost run: Run, cfg: Config, svc: Service, ip: string,
                                        hosts: seq<Host>, tpExists: bool, tpNeedsRecreation: bool,
                                        hc: WantedCheck, hcToDelete: seq<string>)
      returns (ok: bool)
    requires c.Valid() && Underway(run, c.w) && svc == run.svc && cfg == run.cfg && hosts == run.hosts
    requires hc == Wanted(cfg, svc)
    requires tpExists <==> svc.lb in c.w.pools
    requires tpNeedsRecreation ==> svc.lb !in c.w.rules && !run.frozen
    requires TeardownNames(cfg.clusterID, svc.lb, hcToDelete)
    requires tpExists || tpNeedsRecreation
    modifies c
    ensures c.Valid() && old(c.trace) <= c.trace && Underway(run, c.w)
    ensures StepsOk(run, c.trace, |old(c.trace)|)
    ensures SameFront(old(c.w), c.w, svc.lb)
    ensures ok && tpNeedsRecreation ==> BackendReady(cfg, svc, hosts, c.w)
    ensures ok && tpExists && old(AffinityFits(c.w.pools[svc.lb], svc)) ==> BackendReady(cfg, svc, hosts, c.w)
    ensures ok && svc.check.NodesCheck? ==>
              (svc.lb in c.w.checks <==> LocalCheckLeft(old(c.w), svc.lb, tpExists && tpNeedsRecreation, hcToDelete))
    ensures run.frozen ==> c.w == old(c.w)
    ensures c.reliable && DistinctHosts(hosts) && (svc.lb in old(c.w).pools ==> old(PoolDistinct(c.w, svc.lb))) ==> ok
    ensures ok ==>
            svc.lb in c.w.pools &&
            c.w.pools[svc.lb].checks == if tpNeedsRecreation then [hc.name] else old(c.w).pools[svc.lb].checks
    ensures ok && tpNeedsRecreation ==> ProbesAdmitted(cfg, svc, c.w.firewalls)
    ensures !tpNeedsRecreation ==> c.w.firewalls == old(c.w).firewalls
    ensures ok && svc.check.LocalCheck? && tpExists && tpNeedsRecreation &&
            NodesCheckName(cfg.clusterID) in hcToDelete ==>
            SharedClear(cfg.clusterID, c.w)
  {
    hide StepOk, StepsOk, Underway, NeedsUpdate, RuleFits, VipOwned, SharedClear;
    RunFacts(run, c.w, c.trace);
    if tpNeedsRecreation {
      ok := RecreatePool(c, run, cfg, svc, ip, hosts, tpExists, hc, hcToDelete);
    } else if tpExists {
      ok := UpdateMembers(c, run, svc.lb, hosts);
      if !ok { return; }
      ghost var before := c.trace;
      ok := CheckForPool(c, run, cfg, svc, hc);
      StepsJoin(run, before, c.trace, |old(c.trace)|);
    } else {
      // "Panic worthy": no pool, and none to be created.
      assert false;
    }
  }

  // ---- rule, pool and check together ----

  /** Creates the rule on top of everything else; a conflict counts as done. */
  method CreateForwardingRule(c: Cloud, ghost run: Run, cfg: Config, svc: Service, ip: string) returns (ok: bool)
    requires c.Valid() && Underway(run, c.w) && !run.frozen && svc == run.svc && cfg == run.cfg
    requires svc.lb !in c.w.rules && ip != "" && (svc.requestedIP == "" || svc.requestedIP == ip)
    requires BackendReady(cfg, svc, run.hosts, c.w) && (Balanceable(svc) ==> FirewallReady(c.w, svc, ip))
    requires run.vip != "" ==> ip == run.vip
    requires svc.lb in c.w.pools && c.w.pools[svc.lb].checks == run.checks
    requires MayCarry(run, c.w.addresses, ip)
    modifies c
    ensures c.Valid() && old(c.trace) <= c.trace && Underway(run, c.w)
    ensures StepsOk(run, c.trace, |old(c.trace)|)
    ensures c.w == old(c.w).(rules := c.w.rules)
    ensures ok ==> c.w.rules == old(c.w).rules[svc.lb := NewRule(cfg, svc, ip)] && Balanceable(svc)
    ensures c.reliable && Balanceable(svc) ==> ok
  {
    hide StepOk, StepsOk, Underway, BackendReady, FirewallReady, NewRule, RuleFits, CheckReady, AffinityFits, VipOwned;
    RunFacts(run, c.w, c.trace);
    if !Balanceable(svc) { return false; }
    var r := c.Request(c.w.CreateRule(svc.lb, NewRule(cfg, svc, ip)));
    StepCreateRule(run, old(c.w), c.w, ip);
    StepsOne(run, old(c.trace), c.trace, old(c.w), c.w);
    ok := r == Ok || r == Conflict;
  }

  lemma StepCreateRule(run: Run, s: World, t: World, ip: string)
    requires Underway(run, s) && !run.frozen && run.svc.lb !in s.rules
    requires ip != "" && (run.svc.requestedIP == "" || run.svc.requestedIP == ip)
    requires BackendReady(run.cfg, run.svc, run.hosts, s) && Balanceable(run.svc) && FirewallReady(s, run.svc, ip)
    requires run.vip != "" ==> ip == run.vip
    requires MayCarry(run, s.addresses, ip)
    requires run.svc.lb in s.pools && s.pools[run.svc.lb].checks == run.checks
    requires t == s || t == s.(rules := s.rules[run.svc.lb := NewRule(run.cfg, run.svc, ip)])
    ensures StepOk(run, s, t) && Underway(run, t)
  {
    hide UpToDate, NeedsUpdate, PortRangeText, Kept, Open;
    KeptWithRule(run, s.addresses, s.rules, s.pools, NewRule(run.cfg, run.svc, ip));
    if t == s { StepSame(run, s); }
  }

  lemma RuleDropped(run: Run, before: seq<World>, after: seq<World>, s: World, t: World)
    requires Underway(run, s) && !run.frozen && before != [] && before[|before| - 1] == s && after == before + [t]
    requires t == s.(rules := t.rules) && (t.rules == s.rules || t.rules == s.rules - {run.svc.lb})
    requires run.vip != "" ==> run.svc.lb in s.addresses && s.addresses[run.svc.lb].ip == run.vip
    ensures Underway(run, t) && StepsOk(run, after, |before|)
  {
    hide StepOk, StepsOk, Underway;
    StepDropRule(run, s, t);
    StepsOne(run, before, after, s, t);
  }

  /** The IP to use is known and, if one is to be kept, held; the rule, if it stays, is as it should be. */
  ghost predicate FrontHeld(run: Run, s: World, ip: string, ruleNeedsUpdate: bool) {
    var svc := run.svc;
    && ValidService(svc) && ip != "" && (svc.requestedIP == "" || svc.requestedIP == ip)
    && (svc.lb !in s.rules ==> ruleNeedsUpdate)
    && (!ruleNeedsUpdate && svc.lb in s.rules ==> RuleFits(s.rules[svc.lb], svc) && s.rules[svc.lb].ip == ip)
    && (run.vip != "" ==> ip == run.vip && svc.lb in s.addresses && s.addresses[svc.lb].ip == run.vip)
    && MayCarry(run, s.addresses, ip)
    && (run.frozen ==> !ruleNeedsUpdate)
  }

  /** And the firewall is in place. */
  ghost predicate FrontReady(run: Run, s: World, ip: string, ruleNeedsUpdate: bool) {
    FrontHeld(run, s, ip, ruleNeedsUpdate) && (Balanceable(run.svc) ==> FirewallReady(s, run.svc, ip))
  }

  lemma FrontKept(svc: Service, s: World, t: World, ip: string)
    requires SameFront(s, t, svc.lb) && FirewallReady(s, svc, ip)
    ensures FirewallReady(t, svc, ip)
  {
  }

  lemma AllTogether(cfg: Config, svc: Service, hosts: seq<Host>, s: World)
    requires svc.ports != [] && svc.lb in s.rules && RuleFits(s.rules[svc.lb], svc)
    requires FirewallReady(s, svc, s.rules[svc.lb].ip) && BackendReady(cfg, svc, hosts, s)
    ensures FullyBuilt(cfg, svc, hosts, s)
  {
  }

  lemma BuiltFacts(cfg: Config, svc: Service, hosts: seq<Host>, s: World)
    requires FullyBuilt(cfg, svc, hosts, s)
    ensures svc.lb in s.rules && (svc.check.LocalCheck? ==> svc.lb in s.checks)
  {
  }

  /** Which pool and checks there are, and what has to be replaced. */
  method InspectBackend(c: Cloud, cfg: Config, svc: Service)
      returns (ok: bool, tpExists: bool, tpNeedsRecreation: bool, hcToDelete: seq<string>)
    ensures TeardownNames(cfg.clusterID, svc.lb, hcToDelete)
    ensures ok ==> (tpExists <==> svc.lb in c.w.pools) && (tpExists || tpNeedsRecreation)
    ensures ok && tpExists && !tpNeedsRecreation ==> AffinityFits(c.w.pools[svc.lb], svc)
    ensures ok ==> (tpNeedsRecreation <==> StaleBackend(c.w, svc))
    ensures ok && svc.check.NodesCheck? ==>
              (LocalCheckLeft(c.w, svc.lb, tpExists && tpNeedsRecreation, hcToDelete) <==> OrphanedCheck(c.w, svc))
    ensures c.reliable ==> ok
    ensures ok && svc.check.LocalCheck? && svc.lb !in c.w.checks ==> NodesCheckName(cfg.clusterID) in hcToDelete
  {
    ok, tpExists, tpNeedsRecreation, hcToDelete := false, false, false, [];
    var tp := c.Get(c.w.pools, svc.lb);
    if tp.Unavailable? { return; }
    tpExists := tp.Found?;
    tpNeedsRecreation := tp.Missing? || !AffinityFits(tp.value, svc);
    var local := c.Get(c.w.checks, svc.lb);
    if local.Unavailable? { return; }
    if svc.check.LocalCheck? && local.Missing? {
      // From the nodes check to a local-traffic check.
      hcToDelete := [NodesCheckName(cfg.clusterID)];
      tpNeedsRecreation := true;
    } else if svc.check.NodesCheck? && local.Found? {
      // From a local-traffic check to the nodes check.
      hcToDelete := [svc.lb];
      tpNeedsRecreation := true;
    }
    ok := true;
  }

  /** With the rule out of the way: pool and check rebuilt or updated, then the rule. */
  method Rebuild(c: Cloud, ghost run: Run, cfg: Config, svc: Service, hosts: seq<Host>, ip: string,
                 tpExists: bool, tpNeedsRecreation: bool, hcToDelete: seq<string>)
      returns (ok: bool)
    requires c.Valid() && Underway(run, c.w) && !run.frozen && svc == run.svc && cfg == run.cfg && hosts == run.hosts
    requires FrontReady(run, c.w, ip, true) && svc.lb !in c.w.rules
    requires TeardownNames(cfg.clusterID, svc.lb, hcToDelete)
    requires (tpExists <==> svc.lb in c.w.pools) && (tpExists || tpNeedsRecreation)
    requires tpExists && !tpNeedsRecreation ==> AffinityFits(c.w.pools[svc.lb], svc)
    requires run.checks == if tpNeedsRecreation then [Wanted(cfg, svc).name] else c.w.pools[svc.lb].checks
    modifies c
    ensures c.Valid() && old(c.trace) <= c.trace && Underway(run, c.w)
    ensures StepsOk(run, c.trace, |old(c.trace)|)
    ensures c.w.addresses == old(c.w).addresses
    ensures ok ==> FullyBuilt(cfg, svc, hosts, c.w) && c.w.rules == old(c.w).rules[svc.lb := NewRule(cfg, svc, ip)]
    ensures ok && svc.check.NodesCheck? ==>
              (svc.lb in c.w.checks <==> LocalCheckLeft(old(c.w), svc.lb, tpExists && tpNeedsRecreation, hcToDelete))
    ensures c.reliable && old(Buildable(svc, hosts, c.w)) ==> ok
    ensures ok ==> svc.lb in c.w.pools && c.w.pools[svc.lb].checks == run.checks
    ensures ok && tpNeedsRecreation ==> ProbesAdmitted(cfg, svc, c.w.firewalls)
    ensures !tpNeedsRecreation ==> c.w.firewalls == old(c.w).firewalls
    ensures ok && svc.check.LocalCheck? && tpExists && tpNeedsRecreation &&
            NodesCheckName(cfg.clusterID) in hcToDelete ==>
            SharedClear(cfg.clusterID, c.w)
  {
    hide StepOk, StepsOk, Underway, FirewallReady, BackendReady, FullyBuilt, NewRule, SharedClear;
    ok := EnsureTargetPoolAndHealthCheck(c, run, cfg, svc, ip, hosts, tpExists, tpNeedsRecreation,
      Wanted(cfg, svc), hcToDelete);
    if !ok { return; }
    if Balanceable(svc) { FrontKept(svc, old(c.w), c.w, ip); }
    ghost var mid, before := c.w, c.trace;
    ok := CreateForwardingRule(c, run, cfg, svc, ip);
    SharedStaysClear(cfg.clusterID, mid, c.w);
    StepsJoin(run, before, c.trace, |old(c.trace)|);
    if ok { RuleOnTop(cfg, svc, hosts, mid, c.w, ip); }
  }

  lemma RuleOnTop(cfg: Config, svc: Service, hosts: seq<Host>, s: World, t: World, ip: string)
    requires svc.ports != [] && Balanceable(svc) && (svc.requestedIP == "" || svc.requestedIP == ip)
    requires FirewallReady(s, svc, ip) && BackendReady(cfg, svc, hosts, s)
    requires t == s.(rules := s.rules[svc.lb := NewRule(cfg, svc, ip)])
    ensures FullyBuilt(cfg, svc, hosts, t)
  {
    hide UpToDate, NeedsUpdate, PortRangeText;
  }

  /** Pool, check and rule, once the IP is held and the firewall is in place. */
  method EnsureServing(c: Cloud, ghost run: Run, cfg: Config, svc: Service, hosts: seq<Host>, ip: string,
                       ruleExists: bool, ruleNeedsUpdate: bool, safeBefore: bool)
      returns (ok: bool, safe: bool, created: bool)
    requires c.Valid() && Underway(run, c.w) && svc == run.svc && cfg == run.cfg && hosts == run.hosts
    requires FrontReady(run, c.w, ip, ruleNeedsUpdate) && (ruleExists <==> svc.lb in c.w.rules)
    requires safeBefore && run.vip != "" ==> ruleExists
    requires run.checks == PoolChecks(cfg, svc, c.w)
    modifies c
    ensures c.Valid() && old(c.trace) <= c.trace && Underway(run, c.w)
    ensures StepsOk(run, c.trace, |old(c.trace)|)
    ensures c.w.addresses == old(c.w).addresses
    ensures ok ==> FullyBuilt(cfg, svc, hosts, c.w) && c.w.rules[svc.lb].ip == ip
    ensures ok ==> (svc.lb in c.w.checks <==> svc.check.LocalCheck? || old(OrphanedCheck(c.w, svc)))
    ensures created ==> ok && safe && c.w.rules[svc.lb] == NewRule(cfg, svc, ip)
    ensures ok ==> (created <==> ruleNeedsUpdate || old(StaleBackend(c.w, svc)))
    ensures ok && !created ==> safe == safeBefore && c.w.rules == old(c.w).rules
    ensures safe && !created ==> safeBefore
    ensures safe && run.vip != "" ==> svc.lb in c.w.rules
    ensures run.frozen ==> c.w == old(c.w) && safe == safeBefore && !created
    ensures c.reliable && old(Buildable(svc, hosts, c.w)) ==> ok
    ensures ok ==> svc.lb in c.w.pools && c.w.pools[svc.lb].checks == run.checks
    ensures ok && old(StaleBackend(c.w, svc)) ==> ProbesAdmitted(cfg, svc, c.w.firewalls)
    ensures ok && !old(StaleBackend(c.w, svc)) ==> c.w.firewalls == old(c.w).firewalls
    ensures ok && old(GivesUpShared(c.w, svc)) ==> SharedClear(cfg.clusterID, c.w)
  {
    hide StepOk, StepsOk, Underway, FirewallReady, FullyBuilt, BackendReady, CheckReady, VipOwned, SharedClear;
    RunFacts(run, c.w, c.trace);
    safe, created := safeBefore, false;
    var tpExists, tpNeedsRecreation, hcToDelete;
    ok, tpExists, tpNeedsRecreation, hcToDelete := InspectBackend(c, cfg, svc);
    if !ok { return; }
    if tpNeedsRecreation || ruleNeedsUpdate {
      // Critical section: keep the IP while the rule is down, let it go once it is attached.
      if ruleExists { safe := false; }
      ok := TakeDownAndRebuild(c, run, cfg, svc, hosts, ip, ruleExists, tpExists, tpNeedsRecreation, hcToDelete);
      if ok { safe, created := true, true; }
    } else {
      ok := EnsureTargetPoolAndHealthCheck(c, run, cfg, svc, ip, hosts, tpExists, tpNeedsRecreation,
        Wanted(cfg, svc), hcToDelete);
      if ok {
        FrontKept(svc, old(c.w), c.w, ip);
        AllTogether(cfg, svc, hosts, c.w);
      }
    }
    if ok { BuiltFacts(cfg, svc, hosts, c.w); }
  }

  /** Takes the rule down, if there is one, and rebuilds. */
  method TakeDownAndRebuild(c: Cloud, ghost run: Run, cfg: Config, svc: Service, hosts: seq<Host>, ip: string,
                            ruleExists: bool, tpExists: bool, tpNeedsRecreation: bool, hcToDelete: seq<string>)
      returns (ok: bool)
    requires c.Valid() && Underway(run, c.w) && !run.frozen && svc == run.svc && cfg == run.cfg && hosts == run.hosts
    requires FrontReady(run, c.w, ip, true) && (ruleExists <==> svc.lb in c.w.rules)
    requires TeardownNames(cfg.clusterID, svc.lb, hcToDelete)
    requires (tpExists <==> svc.lb in c.w.pools) && (tpExists || tpNeedsRecreation)
    requires tpExists && !tpNeedsRecreation ==> AffinityFits(c.w.pools[svc.lb], svc)
    requires run.checks == if tpNeedsRecreation then [Wanted(cfg, svc).name] else c.w.pools[svc.lb].checks
    modifies c
    ensures c.Valid() && old(c.trace) <= c.trace && Underway(run, c.w)
    ensures StepsOk(run, c.trace, |old(c.trace)|)
    ensures c.w.addresses == old(c.w).addresses
    ensures ok ==> FullyBuilt(cfg, svc, hosts, c.w) && c.w.rules[svc.lb] == NewRule(cfg, svc, ip)
    ensures ok && svc.check.NodesCheck? ==>
              (svc.lb in c.w.checks <==> LocalCheckLeft(old(c.w), svc.lb, tpExists && tpNeedsRecreation, hcToDelete))
    ensures c.reliable && old(Buildable(svc, hosts, c.w)) ==> ok
    ensures ok ==> svc.lb in c.w.pools && c.w.pools[svc.lb].checks == run.checks
    ensures ok && tpNeedsRecreation ==> ProbesAdmitted(cfg, svc, c.w.firewalls)
    ensures !tpNeedsRecreation ==> c.w.firewalls == old(c.w).firewalls
    ensures ok && svc.check.LocalCheck? && tpExists && tpNeedsRecreation &&
            NodesCheckName(cfg.clusterID) in hcToDelete ==>
            SharedClear(cfg.clusterID, c.w)
  {
    hide StepOk, StepsOk, Underway, FirewallReady, FullyBuilt, SharedClear;
    if ruleExists {
      var r := c.Request(c.w.DeleteRule(svc.lb));
      RuleDropped(run, old(c.trace), c.trace, old(c.w), c.w);
      ok := r == Ok || r == NotFound;
      if !ok { return; }
      if Balanceable(svc) { FirewallsSame(svc, old(c.w), c.w, ip); }
      ghost var before := c.trace;
      ok := Rebuild(c, run, cfg, svc, hosts, ip, tpExists, tpNeedsRecreation, hcToDelete);
      StepsJoin(run, before, c.trace, |old(c.trace)|);
    } else {
      ok := Rebuild(c, run, cfg, svc, hosts, ip, tpExists, tpNeedsRecreation, hcToDelete);
    }
  }

  /** Firewall first, then pool, check and rule. */
  method FirewallThenServe(c: Cloud, ghost run: Run, cfg: Config, svc: Service, hosts: seq<Host>, ip: string,
                           ruleExists: bool, ruleNeedsUpdate: bool, safeBefore: bool)
      returns (ok: bool, safe: bool, created: bool)
    requires c.Valid() && Underway(run, c.w) && svc == run.svc && cfg == run.cfg && hosts == run.hosts
    requires FrontHeld(run, c.w, ip, ruleNeedsUpdate) && (ruleExists <==> svc.lb in c.w.rules)
    requires safeBefore && run.vip != "" ==> ruleExists
    requires run.checks == PoolChecks(cfg, svc, c.w)
    modifies c
    ensures c.Valid() && old(c.trace) <= c.trace && Underway(run, c.w)
    ensures StepsOk(run, c.trace, |old(c.trace)|)
    ensures c.w.addresses == old(c.w).addresses
    ensures ok ==> FullyBuilt(cfg, svc, hosts, c.w) && c.w.rules[svc.lb].ip == ip
    ensures ok ==> (svc.lb in c.w.checks <==> svc.check.LocalCheck? || old(OrphanedCheck(c.w, svc)))
    ensures created ==> ok && safe && c.w.rules[svc.lb] == NewRule(cfg, svc, ip)
    ensures ok ==> (created <==> ruleNeedsUpdate || old(StaleBackend(c.w, svc)))
    ensures ok && !created ==> safe == safeBefore && c.w.rules == old(c.w).rules
    ensures safe && !created ==> safeBefore
    ensures safe && run.vip != "" ==> svc.lb in c.w.rules
    ensures run.frozen ==> c.w == old(c.w) && safe == safeBefore && !created
    ensures c.reliable && old(Buildable(svc, hosts, c.w)) ==> ok
    ensures ok ==> svc.lb in c.w.pools && c.w.pools[svc.lb].checks == run.checks
    ensures ok ==> FirewallsLeft(cfg, svc, old(c.w), c.w)
    ensures ok && old(GivesUpShared(c.w, svc)) ==> SharedClear(cfg.clusterID, c.w)
  {
    hide StepOk, StepsOk, Underway, FullyBuilt, FirewallReady, RuleFits, CheckReady, AffinityFits, VipOwned,
      ProbesAdmitted, SharedClear;
    RunFacts(run, c.w, c.trace);
    ok := EnsureFirewall(c, run, svc, ip);
    if !ok { return ok, safeBefore, false; }
    ghost var before := c.trace;
    ok, safe, created := EnsureServing(c, run, cfg, svc, hosts, ip, ruleExists, ruleNeedsUpdate, safeBefore);
    StepsJoin(run, before, c.trace, |old(c.trace)|);
  }

  /** So probes to the wanted check get through exactly if the backend was stale or they did before. */
  lemma ProbesIff(cfg: Config, svc: Service, s: World, t: World)
    requires IsLoadBalancerName(svc.lb) && FirewallsLeft(cfg, svc, s, t)
    ensures ProbesAdmitted(cfg, svc, t.firewalls) <==> StaleBackend(s, svc) || ProbesAdmitted(cfg, svc, s.firewalls)
  {
    hide ProbesPass, FirewallName, CheckFirewallName, StaleBackend;
    var hc := Wanted(cfg, svc);
    NotACheckFirewall(svc.lb, hc.name, cfg.clusterID, hc.name != svc.lb);
  }

  lemma FirewallsSame(svc: Service, s: World, t: World, ip: string)
    requires FirewallReady(s, svc, ip) && t.firewalls == s.firewalls
    ensures FirewallReady(t, svc, ip)
  {
  }

  // ---- the whole run ----

  datatype Lookup = NoNodes | LookupFailed | HostsFound(hosts: seq<Host>)

  datatype Outcome = Ensured(ip: string, created: bool) | ImplementedElsewhere | Error

  /** What the deferred function did with the address of the load balancer's name. */
  datatype Release = NotReached | UserOwned | Orphaned | Released | ReleaseFailed

  /** Whether the rule exists, has to be replaced, and its IP. */
  method ForwardingRuleNeedsUpdate(c: Cloud, svc: Service)
      returns (ok: bool, present: bool, needsUpdate: bool, ip: string)
    requires svc.ports != []
    ensures ok ==> (present <==> svc.lb in c.w.rules)
    ensures ok && present ==> ip == c.w.rules[svc.lb].ip
    ensures ok && present ==> (needsUpdate <==> !RuleFits(c.w.rules[svc.lb], svc))
    ensures ok && !present ==> needsUpdate && ip == ""
    ensures c.reliable && Balanceable(svc) ==> ok
  {
    var rule := c.Get(c.w.rules, svc.lb);
    match rule {
      case Unavailable => return false, true, false, "";
      case Missing => return true, false, true, "";
      case Found(rule) =>
        if svc.requestedIP != "" && svc.requestedIP != rule.ip { return true, true, true, rule.ip; }
        if !Balanceable(svc) { return false, true, false, ""; }
        if PortRangeText(svc.ports) != rule.portRange { return true, true, true, rule.ip; }
        return true, true, svc.ports[0].protocol.Name() != rule.protocol, rule.ip;
    }
  }

  /** The IP to use, held as static: the user's, the rule's, or a new one. */
  method ChooseIP(c: Cloud, ghost run: Run, svc: Service, ruleIP: string)
      returns (ok: bool, ip: string, userOwned: bool, safe: bool)
    requires c.Valid() && Underway(run, c.w) && svc == run.svc
    requires svc.lb in c.w.rules ==> ruleIP == c.w.rules[svc.lb].ip
    requires svc.lb !in c.w.rules ==> ruleIP == ""
    requires run.tidy ==> svc.requestedIP == ""
    modifies c
    ensures c.Valid() && old(c.trace) <= c.trace && Underway(run, c.w)
    ensures StepsOk(run, c.trace, |old(c.trace)|)
    ensures MayReserve(old(c.w), c.w, svc.lb, TierOf(svc))
    ensures ok ==> ip != "" && (svc.requestedIP != "" ==> ip == svc.requestedIP)
    ensures ok && svc.requestedIP == "" && ruleIP != "" ==> ip == ruleIP
    ensures ok && svc.requestedIP == "" && ruleIP == "" ==> svc.lb in c.w.addresses && ip == c.w.addresses[svc.lb].ip
    ensures userOwned ==> ok && svc.requestedIP != ""
    ensures safe ==> ok && !userOwned && svc.lb !in old(c.w).addresses && svc.lb in c.w.addresses
    ensures ok && !safe ==> c.w == old(c.w)
    ensures ok && run.vip != "" ==> ip == run.vip && svc.lb in c.w.addresses && c.w.addresses[svc.lb].ip == ip
    ensures safe && run.vip != "" ==> svc.lb in c.w.rules
    ensures c.reliable && old(UniqueIPs(c.w)) ==> (ok <==> old(IPUsable(c.w, svc)))
    ensures ok && svc.requestedIP != "" ==> (userOwned <==> old(c.w).Reserved(svc.requestedIP))
    ensures ok ==> MayCarry(run, c.w.addresses, ip)
  {
    hide StepOk, StepsOk, Underway, RuleFits, CheckReady, AffinityFits, Kept, MayCarry;
    RunFacts(run, c.w, c.trace);
    if svc.requestedIP != "" { RequestedIP(run, c.w); }
    ip, safe := svc.requestedIP, false;
    ok, userOwned := VerifyUserRequestedIP(c, svc.requestedIP, ruleIP, TierOf(svc));
    if !ok || userOwned { return; }
    var existed;
    ok, ip, existed := EnsureStaticIP(c, run, svc.lb, ruleIP, TierOf(svc));
    safe := ok && !existed;
  }

  /** From `s` to `t` the address of the load balancer's name may have been added, on an IP nobody reserved. */
  ghost predicate AddressesMayReserve(s: World, t: World, lb: string) {
    || t.addresses == s.addresses
    || (lb !in s.addresses && lb in t.addresses && !s.Reserved(t.addresses[lb].ip)
        && t.addresses == s.addresses[lb := t.addresses[lb]])
  }

  /** The requested IP is a reserved one, whoever reserved it. */
  ghost predicate AsksForReserved(s: World, svc: Service) {
    svc.requestedIP != "" && s.Reserved(svc.requestedIP)
  }

  /** With a stale backend the check's firewall was seen to; otherwise no firewall changed but the service's own. */
  ghost predicate FirewallsLeft(cfg: Config, svc: Service, s: World, t: World) {
    if StaleBackend(s, svc) then ProbesAdmitted(cfg, svc, t.firewalls)
    else AgreeBut(s.firewalls, t.firewalls, {FirewallName(svc.lb)})
  }

  /** A pool without a local check, for a service that wants one: the shared check is given up. */
  ghost predicate GivesUpShared(s: World, svc: Service) {
    svc.check.LocalCheck? && svc.lb in s.pools && svc.lb !in s.checks
  }

  /** What a run that got past the tier cleanup leaves, before the deferred release. */
  ghost predicate HeldResult(run: Run, s: World, t: World, out: Outcome, userOwned: bool, safe: bool) {
    var svc := run.svc;
    && svc.ports != [] && !out.ImplementedElsewhere?
    && AddressesMayReserve(s, t, svc.lb)
    && (userOwned ==> svc.requestedIP != "" && t.addresses == s.addresses)
    && (out.Ensured? ==> (userOwned <==> AsksForReserved(s, svc)))
    && (safe && run.vip != "" ==> svc.lb in t.rules)
    && (safe && !(out.Ensured? && out.created) ==> svc.lb !in s.addresses)
    && (run.frozen ==> t == s.(addresses := t.addresses))
    && (out.Ensured? ==>
          && FullyBuilt(run.cfg, svc, run.hosts, t) && t.rules[svc.lb].ip == out.ip
          && (svc.lb in t.checks <==> svc.check.LocalCheck? || OrphanedCheck(s, svc))
          && (svc.requestedIP != "" ==> out.ip == svc.requestedIP)
          && (run.vip != "" ==> out.ip == run.vip)
          && (svc.requestedIP == "" && svc.lb in s.rules ==> out.ip == s.rules[svc.lb].ip)
          && (svc.requestedIP == "" && svc.lb !in s.rules ==> svc.lb in t.addresses && out.ip == t.addresses[svc.lb].ip)
          && (TierOk(s, svc) ==> TierOk(t, svc))
          && (out.created <==> NeedsRebuild(s, svc))
          && (out.created ==> safe && t.rules[svc.lb] == NewRule(run.cfg, svc, out.ip))
          && (!out.created ==> t.rules == s.rules)
          && t.pools[svc.lb].checks == run.checks
          && FirewallsLeft(run.cfg, svc, s, t)
          && (GivesUpShared(s, svc) ==> SharedClear(run.cfg.clusterID, t))
          && (!out.created && (!safe || userOwned) ==> t.addresses == s.addresses)
          && (run.frozen ==> !out.created))
  }

  /** What choosing the IP promised, in terms of the worlds around it. */
  ghost predicate IPChosen(run: Run, s: World, t: World, ip: string, userOwned: bool, safe: bool) {
    var svc := run.svc;
    && MayReserve(s, t, svc.lb, TierOf(svc))
    && (svc.requestedIP != "" ==> ip == svc.requestedIP)
    && (svc.requestedIP == "" && svc.lb in s.rules ==> ip == s.rules[svc.lb].ip)
    && (svc.requestedIP == "" && svc.lb !in s.rules ==> svc.lb in t.addresses && ip == t.addresses[svc.lb].ip)
    && (userOwned <==> AsksForReserved(s, svc))
    && (safe ==> !userOwned && svc.lb !in s.addresses)
    && (!safe ==> t == s)
    && (run.vip != "" ==> ip == run.vip)
  }

  lemma HeldAssembled(run: Run, s: World, m: World, t: World, ip: string, userOwned: bool, safeBefore: bool,
                      ok: bool, safe: bool, created: bool)
    requires IPChosen(run, s, m, ip, userOwned, safeBefore)
    requires t.addresses == m.addresses
    requires ok ==> FullyBuilt(run.cfg, run.svc, run.hosts, t) && t.rules[run.svc.lb].ip == ip
    requires ok ==> (run.svc.lb in t.checks <==> run.svc.check.LocalCheck? || OrphanedCheck(m, run.svc))
    requires created ==> ok && safe && run.svc.ports != [] && t.rules[run.svc.lb] == NewRule(run.cfg, run.svc, ip)
    requires ok ==> run.svc.lb in t.pools && t.pools[run.svc.lb].checks == run.checks
    requires ok ==> FirewallsLeft(run.cfg, run.svc, m, t)
    requires ok && GivesUpShared(m, run.svc) ==> SharedClear(run.cfg.clusterID, t)
    requires run.svc.ports != [] && (ok ==> (created <==> NeedsRebuild(m, run.svc)))
    requires ok && !created ==> safe == safeBefore && t.rules == m.rules
    requires safe && !created ==> safeBefore
    requires safe && run.vip != "" ==> run.svc.lb in t.rules
    requires run.frozen ==> t == m && !created
    ensures HeldResult(run, s, t, if ok then Ensured(ip, created) else Error, userOwned, safe)
  {
    hide UpToDate, NeedsUpdate, HoldsExactly, RuleFits;
  }

  /** Holding the IP, then firewall, pool, check and rule. */
  method EnsureHeld(c: Cloud, ghost run: Run, cfg: Config, svc: Service, hosts: seq<Host>)
      returns (out: Outcome, userOwned: bool, safe: bool)
    requires c.Valid() && Underway(run, c.w) && svc == run.svc && cfg == run.cfg && hosts == run.hosts
    requires run.checks == PoolChecks(cfg, svc, c.w)
    requires run.tidy ==> svc.requestedIP == ""
    modifies c
    ensures c.Valid() && old(c.trace) <= c.trace && Underway(run, c.w)
    ensures StepsOk(run, c.trace, |old(c.trace)|)
    ensures HeldResult(run, old(c.w), c.w, out, userOwned, safe)
    ensures c.reliable && old(UniqueIPs(c.w)) && old(Buildable(svc, hosts, c.w)) ==>
            (out.Ensured? <==> old(IPUsable(c.w, svc)))
  {
    hide StepOk, StepsOk, Underway, FullyBuilt, RuleFits, OrphanedCheck, TierOk, CheckReady, AffinityFits;
    RunFacts(run, c.w, c.trace);
    out, userOwned, safe := Error, false, false;
    var ok, ruleExists, ruleNeedsUpdate, ruleIP := ForwardingRuleNeedsUpdate(c, svc);
    if !ok { return; }
    var ip;
    ok, ip, userOwned, safe := ChooseIP(c, run, svc, ruleIP);
    if !ok { return; }
    ghost var m, before, safeBefore := c.w, c.trace, safe;
    var created;
    ok, safe, created := FirewallThenServe(c, run, cfg, svc, hosts, ip, ruleExists, ruleNeedsUpdate, safe);
    StepsJoin(run, before, c.trace, |old(c.trace)|);
    HeldAssembled(run, old(c.w), m, c.w, ip, userOwned, safeBefore, ok, safe, created);
    if ok { out := Ensured(ip, created); }
  }

  /** The virtual IP: the rule's, or else that of the address held for it. */
  ghost function Vip(s: World, lb: string): string {
    if lb in s.rules then s.rules[lb].ip else if lb in s.addresses then s.addresses[lb].ip else ""
  }

  /** The virtual IP that a run from `s` has to keep, or nothing. */
  ghost function VipToKeep(s: World, svc: Service): string {
    var vip := Vip(s, svc.lb);
    if vip != "" && VipOwned(s, svc.lb, vip) && TierOk(s, svc) && svc.requestedIP in {"", vip} then vip else ""
  }

  ghost function RunFrom(s: World, cfg: Config, svc: Service, hosts: seq<Host>): Run {
    Run(cfg, svc, hosts, VipToKeep(s, svc), Settled(cfg, svc, hosts, s), PoolChecks(cfg, svc, s), OthersIPs(s, svc),
        TidyWorld(s) && svc.requestedIP == "" && DistinctHosts(hosts))
  }

  /** The IPs that others have, and neither the load balancer nor its service. */
  ghost function OthersIPs(s: World, svc: Service): set<string> {
    set ip | ip in AllIPs(s) && ip != svc.requestedIP
             && Elsewhere(s.addresses, s.rules, svc.lb, ip) && !Carries(s.addresses, s.rules, svc.lb, ip)
  }

  ghost function AllIPs(s: World): set<string> {
    (set n | n in s.addresses :: s.addresses[n].ip) + (set n | n in s.rules :: s.rules[n].ip)
  }

  /** Another service's IP is shunned. */
  lemma OthersShunned(s: World, svc: Service, ip: string)
    requires ip != svc.requestedIP && Elsewhere(s.addresses, s.rules, svc.lb, ip)
    requires !Carries(s.addresses, s.rules, svc.lb, ip)
    ensures ip in OthersIPs(s, svc)
  {
    if n :| n in s.addresses && n != svc.lb && s.addresses[n].ip == ip {
      assert ip in AllIPs(s);
    } else {
      var n :| n in s.rules && n != svc.lb && s.rules[n].ip == ip;
      assert ip in AllIPs(s);
    }
  }

  /** What a run promises of its result, from the world that the tier cleanup left to the final one. */
  ghost predicate EnsureResult(cfg: Config, svc: Service, hosts: seq<Host>, s: World, t: World, out: Outcome,
                               release: Release) {
    && (out.Ensured? ==>
          && FullyBuilt(cfg, svc, hosts, t) && t.rules[svc.lb].ip == out.ip && svc.ports != []
          // what was made anew
          && (out.created <==> NeedsRebuild(s, svc))
          && (if out.created then t.rules[svc.lb] == NewRule(cfg, svc, out.ip) else t.rules == s.rules)
          && t.pools[svc.lb].checks == PoolChecks(cfg, svc, s)
          && FirewallsLeft(cfg, svc, s, t)
          && (GivesUpShared(s, svc) ==> SharedClear(cfg.clusterID, t))
          && (svc.lb in t.checks <==> svc.check.LocalCheck? || OrphanedCheck(s, svc))
          // the IP
          && (svc.requestedIP != "" ==> out.ip == svc.requestedIP)
          && (svc.requestedIP == "" && svc.lb in s.rules ==> out.ip == s.rules[svc.lb].ip)
          && (svc.requestedIP == "" && svc.lb !in s.rules && svc.lb in s.addresses ==> out.ip == s.addresses[svc.lb].ip)
          && (svc.requestedIP == "" && svc.lb !in s.rules && svc.lb !in s.addresses ==> !s.Reserved(out.ip))
          && (VipToKeep(s, svc) != "" ==> out.ip == VipToKeep(s, svc))
          // convergence
          && (TierOk(s, svc) ==> TierOk(t, svc))
          && (Settled(cfg, svc, hosts, t) <==> TierOk(t, svc) && !OrphanedCheck(s, svc))
          && (Settled(cfg, svc, hosts, s) ==> !out.created && (release != ReleaseFailed ==> t == s))
          // addresses
          && (release != ReleaseFailed ==>
                t.addresses == if out.created && !AsksForReserved(s, svc) then s.addresses - {svc.lb} else s.addresses))
    && AgreeBut(s.addresses, t.addresses, {svc.lb})
  }

  lemma ResultAssembled(run: Run, s: World, h: World, t: World, out: Outcome, userOwned: bool, safe: bool,
                        release: Release)
    requires run == RunFrom(s, run.cfg, run.svc, run.hosts) && ValidService(run.svc)
    requires HeldResult(run, s, h, out, userOwned, safe)
    requires out.Ensured? ==> FullyBuilt(run.cfg, run.svc, run.hosts, t)
    requires t == h || t == h.(addresses := h.addresses - {run.svc.lb})
    requires match release
             case UserOwned => userOwned && t == h
             case Orphaned => !userOwned && !safe && t == h
             case Released => !userOwned && safe && t == h.(addresses := h.addresses - {run.svc.lb})
             case ReleaseFailed => !userOwned && safe
             case NotReached => false
    ensures EnsureResult(run.cfg, run.svc, run.hosts, s, t, out, release)
  {
    hide FullyBuilt, RuleFits, VipOwned, NewRule, OthersIPs, DistinctHosts;
    if out.Ensured? { BuiltFacts(run.cfg, run.svc, run.hosts, t); }
    AddressesLeft(run, s, h, t, out, userOwned, safe, release);
  }

  /** Which addresses are left after the release. */
  lemma AddressesLeft(run: Run, s: World, h: World, t: World, out: Outcome, userOwned: bool, safe: bool,
                      release: Release)
    requires HeldResult(run, s, h, out, userOwned, safe)
    requires t.addresses in {h.addresses, h.addresses - {run.svc.lb}}
    requires match release
             case UserOwned => userOwned && t == h
             case Orphaned => !userOwned && !safe && t == h
             case Released => !userOwned && safe && t.addresses == h.addresses - {run.svc.lb}
             case ReleaseFailed => !userOwned && safe
             case NotReached => false
    ensures AgreeBut(s.addresses, t.addresses, {run.svc.lb})
    ensures out.Ensured? && release != ReleaseFailed ==>
            t.addresses ==
            if out.created && !AsksForReserved(s, run.svc) then s.addresses - {run.svc.lb} else s.addresses
  {
    hide FullyBuilt, NeedsRebuild, OrphanedCheck, NewRule, TierOk, AsksForReserved;
  }

  /** The cloud was in world `s` at the start of a run, or later in it. */
  ghost predicate Passed(before: seq<World>, after: seq<World>, s: World) {
    exists i :: |before| - 1 <= i < |after| && i >= 0 && after[i] == s
  }

  /** `ensureExternalLoadBalancer`: creates the load balancer or brings it up to date. */
  method EnsureExternalLoadBalancer(c: Cloud, cfg: Config, svc: Service, ruleHasBackendService: bool, lookup: Lookup)
      returns (out: Outcome, release: Release, ghost cleaned: World)
    requires c.Valid() && ValidService(svc) && WellFormed(c.w)
    modifies c
    ensures c.Valid() && old(c.trace) <= c.trace && WellFormed(c.w)
    ensures lookup.HostsFound? ==> StepsOk(RunFrom(old(c.w), cfg, svc, lookup.hosts), c.trace, |old(c.trace)|)
    ensures MayClean(old(c.w), cleaned, svc) && Passed(old(c.trace), c.trace, cleaned)
    ensures lookup.HostsFound? ==> EnsureResult(cfg, svc, lookup.hosts, cleaned, c.w, out, release)
    ensures out.Ensured? ==> lookup.HostsFound? && Serves(cfg, svc, lookup.hosts, c.w, out.ip)
    ensures out.Ensured? && StaleBackend(cleaned, svc) ==> ProbesServe(cfg, svc, c.w)
    ensures out.Ensured? && out.created ==>
            && c.w.rules[svc.lb].target == cfg.poolURL + svc.lb
            && c.w.rules[svc.lb].tier == if svc.tier.Annotated? then svc.tier.tier else Premium
    ensures old(VipToKeep(c.w, svc)) != "" ==> VipOwned(c.w, svc.lb, old(VipToKeep(c.w, svc))) && TierOk(c.w, svc)
    ensures !lookup.HostsFound? || svc.usesBackendService || ruleHasBackendService ==>
            c.trace == old(c.trace) && !out.Ensured?
    ensures lookup.HostsFound? && !svc.usesBackendService && !ruleHasBackendService && !svc.tier.InvalidTier? &&
            c.reliable ==>
              && cleaned == TierCleaned(old(c.w), svc)
              && (old(UniqueIPs(c.w)) && old(Buildable(svc, lookup.hosts, c.w)) ==>
                   (out.Ensured? <==> IPUsable(cleaned, svc)))
    ensures c.reliable ==> release != ReleaseFailed
  {
    hide StepOk, StepsOk, WellFormed, Settled, FullyBuilt, VipOwned, TierOk, HeldResult, EnsureResult, RunFrom, Serves,
      ProbesServe, StaleBackend;
    out, release, cleaned := ImplementedElsewhere, NotReached, c.w;
    assert c.trace[|c.trace| - 1] == cleaned;
    if lookup.HostsFound? { RunStarts(c.w, cfg, svc, lookup.hosts, c.trace); }
    if svc.usesBackendService || ruleHasBackendService { return; }
    out := Error;
    if !lookup.HostsFound? { return; }
    if svc.tier.InvalidTier? { return; }
    out, release, cleaned := EnsureFor(c, cfg, svc, lookup.hosts);
    EndsWell(RunFrom(old(c.w), cfg, svc, lookup.hosts), c.w);
    if out.Ensured? { ResultServes(cfg, svc, lookup.hosts, cleaned, c.w, out, release); }
  }

  /** What the result of a successful run means. */
  lemma ResultServes(cfg: Config, svc: Service, hosts: seq<Host>, s: World, t: World, out: Outcome, release: Release)
    requires ValidService(svc) && EnsureResult(cfg, svc, hosts, s, t, out, release) && out.Ensured?
    ensures Serves(cfg, svc, hosts, t, out.ip) && svc.lb in t.rules
    ensures StaleBackend(s, svc) ==> ProbesServe(cfg, svc, t)
    ensures out.created ==>
            && t.rules[svc.lb].target == cfg.poolURL + svc.lb
            && t.rules[svc.lb].tier == if svc.tier.Annotated? then svc.tier.tier else Premium
  {
    hide FullyBuilt, Serves, ProbesAdmitted, ProbesServe, Settled, StaleBackend, VipToKeep, NeedsRebuild, AgreeBut;
    BuiltServes(cfg, svc, hosts, t);
    BuiltFacts(cfg, svc, hosts, t);
    if StaleBackend(s, svc) { AdmittedServe(cfg, svc, t); }
  }

  lemma RunStarts(s: World, cfg: Config, svc: Service, hosts: seq<Host>, trace: seq<World>)
    requires ValidService(svc) && WellFormed(s)
    ensures var run := RunFrom(s, cfg, svc, hosts);
            && Underway(run, s) && StepsOk(run, trace, |trace|)
            && run.cfg == cfg && run.svc == svc && run.hosts == hosts && run.vip == VipToKeep(s, svc)
            && EnsureResult(cfg, svc, hosts, s, s, Error, NotReached)
            && EnsureResult(cfg, svc, hosts, s, s, ImplementedElsewhere, NotReached)
  {
    hide FullyBuilt, Kept, DistinctHosts, OthersIPs;
    RunKept(s, cfg, svc, hosts);
  }

  lemma EndsWell(run: Run, t: World)
    requires Underway(run, t)
    ensures WellFormed(t) && (run.vip != "" ==> VipOwned(t, run.svc.lb, run.vip) && TierOk(t, run.svc))
  {
  }

  lemma NotAnnotated(s: World, svc: Service)
    ensures !svc.tier.Annotated? ==> TierCleaned(s, svc) == s
    ensures TierOk(s, svc) ==> TierCleaned(s, svc) == s
    ensures MayClean(s, s, svc)
  {
  }

  /** The tier cleanup leaves alone what a build depends on. */
  lemma CleanedSame(s: World, m: World, svc: Service, hosts: seq<Host>)
    requires MayClean(s, m, svc)
    ensures Buildable(svc, hosts, s) == Buildable(svc, hosts, m)
    ensures UniqueIPs(s) ==> UniqueIPs(m)
  {
  }

  lemma CleanedTidy(s: World, m: World, svc: Service)
    requires MayClean(s, m, svc)
    ensures TidyWorld(s) ==> TidyWorld(m)
    ensures OthersIPs(s, svc) <= OthersIPs(m, svc)
  {
    hide DistinctPaths, OthersIPs;
    forall ip | ip in OthersIPs(s, svc)
      ensures ip in OthersIPs(m, svc)
    {
      OthersAre(s, svc, ip);
      if n :| n in s.addresses && n != svc.lb && s.addresses[n].ip == ip { assert n in m.addresses; }
      if n :| n in s.rules && n != svc.lb && s.rules[n].ip == ip { assert n in m.rules; }
      OthersShunned(m, svc, ip);
    }
  }

  lemma OthersAre(s: World, svc: Service, ip: string)
    requires ip in OthersIPs(s, svc)
    ensures ip != svc.requestedIP && Elsewhere(s.addresses, s.rules, svc.lb, ip)
    ensures !Carries(s.addresses, s.rules, svc.lb, ip)
  {
  }

  lemma RunKept(s: World, cfg: Config, svc: Service, hosts: seq<Host>)
    ensures var run := RunFrom(s, cfg, svc, hosts);
            && Kept(run, s.addresses, s.rules, s.pools) && svc.requestedIP !in run.shun
            && (run.tidy ==> DistinctHosts(hosts) && svc.requestedIP == "")
  {
    hide Tidy, Elsewhere, Carries;
  }

  /** After the cleanup the run is as good as one that starts there: what it keeps, the whole run keeps. */
  lemma Restarted(s: World, m: World, cfg: Config, svc: Service, hosts: seq<Host>)
    requires ValidService(svc) && MayClean(s, m, svc) && WellFormed(m)
    ensures var run, later := RunFrom(s, cfg, svc, hosts), RunFrom(m, cfg, svc, hosts);
            && Underway(later, m) && Continues(run, later)
  {
    hide FullyBuilt, WellFormed, VipOwned, Tidy, DistinctHosts, Elsewhere, Carries, OthersIPs;
    NotAnnotated(s, svc);
    CleanedTidy(s, m, svc);
    RunKept(m, cfg, svc, hosts);
  }

  ghost predicate Continues(run: Run, later: Run) {
    && run == later.(vip := run.vip, frozen := run.frozen, shun := run.shun, tidy := run.tidy)
    && run.vip in {"", later.vip} && (run.frozen ==> later.frozen)
    && run.shun <= later.shun && (run.tidy ==> later.tidy)
  }

  lemma StepsContinue(run: Run, later: Run, t: World, trace: seq<World>, from: nat)
    requires Continues(run, later) && StepsOk(later, trace, from) && Underway(later, t)
    ensures StepsOk(run, trace, from) && Underway(run, t)
  {
    hide FullyBuilt, WellFormed, VipOwned, OwnOnly, Open, ChecksGrow, TierOk, Tidy, Elsewhere, Carries;
    forall i | 0 < from <= i < |trace|
      ensures StepOk(run, trace[i - 1], trace[i])
    {
      assert StepOk(later, trace[i - 1], trace[i]);
    }
  }

  /** The run once the hosts and the tier are known. */
  method EnsureFor(c: Cloud, cfg: Config, svc: Service, hosts: seq<Host>)
      returns (out: Outcome, release: Release, ghost cleaned: World)
    requires c.Valid() && ValidService(svc) && WellFormed(c.w)
    modifies c
    ensures c.Valid() && old(c.trace) <= c.trace
    ensures var run := RunFrom(old(c.w), cfg, svc, hosts);
            Underway(run, c.w) && StepsOk(run, c.trace, |old(c.trace)|)
    ensures MayClean(old(c.w), cleaned, svc) && Passed(old(c.trace), c.trace, cleaned)
    ensures EnsureResult(cfg, svc, hosts, cleaned, c.w, out, release)
    ensures c.reliable ==> release != ReleaseFailed && cleaned == TierCleaned(old(c.w), svc)
    ensures c.reliable && old(UniqueIPs(c.w)) && old(Buildable(svc, hosts, c.w)) ==>
            (out.Ensured? <==> IPUsable(cleaned, svc))
  {
    hide StepOk, StepsOk, Underway, EnsureResult, RunFrom, Buildable, UniqueIPs, IPUsable, TierCleaned, MayClean,
      WellFormed, FullyBuilt, TierOk, Continues, HeldResult;
    ghost var run := RunFrom(c.w, cfg, svc, hosts);
    RunStarts(c.w, cfg, svc, hosts, c.trace);
    NotAnnotated(c.w, svc);
    if svc.tier.Annotated? {
      DeleteWrongTier(c, run, svc.lb, svc.tier.tier);
    }
    cleaned := c.w;
    CleanedSame(old(c.w), cleaned, svc, hosts);
    EndsWell(run, cleaned);
    Restarted(old(c.w), cleaned, cfg, svc, hosts);
    ghost var later, before := RunFrom(cleaned, cfg, svc, hosts), c.trace;
    RunStarts(cleaned, cfg, svc, hosts, c.trace);
    out, release := EnsureAndRelease(c, later, cfg, svc, hosts);
    assert c.trace[|before| - 1] == cleaned;
    StepsContinue(run, later, c.w, c.trace, |before|);
    StepsJoin(run, before, c.trace, |old(c.trace)|);
  }

  /** After the tier cleanup: hold the IP, build, and do what the deferred function does. */
  method EnsureAndRelease(c: Cloud, ghost run: Run, cfg: Config, svc: Service, hosts: seq<Host>)
      returns (out: Outcome, release: Release)
    requires c.Valid() && Underway(run, c.w) && svc == run.svc && cfg == run.cfg && hosts == run.hosts
    requires run == RunFrom(c.w, cfg, svc, hosts)
    modifies c
    ensures c.Valid() && old(c.trace) <= c.trace && Underway(run, c.w)
    ensures StepsOk(run, c.trace, |old(c.trace)|)
    ensures EnsureResult(cfg, svc, hosts, old(c.w), c.w, out, release)
    ensures c.reliable ==> release != ReleaseFailed
    ensures c.reliable && old(UniqueIPs(c.w)) && old(Buildable(svc, hosts, c.w)) ==>
            (out.Ensured? <==> old(IPUsable(c.w, svc)))
  {
    hide StepOk, StepsOk, EnsureResult, Buildable, UniqueIPs, IPUsable, WellFormed, Settled, PoolChecks,
      FullyBuilt, TierOk, RuleFits, CheckReady, AffinityFits, FirewallReady, VipOwned, VipToKeep;
    RunFacts(run, c.w, c.trace);
    var userOwned, safe;
    out, userOwned, safe := EnsureHeld(c, run, cfg, svc, hosts);
    ghost var h, before := c.w, c.trace;
    if userOwned {
      release := UserOwned;
    } else if safe {
      var r := c.Request(c.w.DeleteAddress(svc.lb));
      release := if r == Ok || r == NotFound then Released else ReleaseFailed;
      ReleaseStep(run, before, c.trace, h, c.w);
      StepsJoin(run, before, c.trace, |old(c.trace)|);
    } else {
      release := Orphaned;
    }
    ResultAssembled(run, old(c.w), h, c.w, out, userOwned, safe, release);
  }

  lemma ReleaseStep(run: Run, before: seq<World>, after: seq<World>, s: World, t: World)
    requires Underway(run, s) && (run.vip != "" ==> run.svc.lb in s.rules)
    requires before != [] && before[|before| - 1] == s && after == before + [t]
    requires t == s || t == s.(addresses := s.addresses - {run.svc.lb})
    ensures Underway(run, t) && StepsOk(run, after, |before|)
    ensures FullyBuilt(run.cfg, run.svc, run.hosts, s) == FullyBuilt(run.cfg, run.svc, run.hosts, t)
  {
    hide StepOk, StepsOk, Underway, FullyBuilt;
    AddressDropped(run, s, t);
    StepsOne(run, before, after, s, t);
  }
}
