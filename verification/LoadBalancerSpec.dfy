/** What a service asks of its external load balancer, and what every step of a run has to keep. */
module LoadBalancerSpec {
  import opened Text
  import opened PortRanges
  import opened Firewalls
  import opened CloudModel
  import opened Names
  import opened HealthChecks
  import opened TargetPools

  datatype Affinity = ClientIP | NoAffinity | UnknownAffinity
  datatype TierAnnotation = Unannotated | Annotated(tier: Tier) | InvalidTier
  datatype LocalCheck = NodesCheck | LocalCheck(path: string, port: int)
  datatype SourceRanges = Nets(nets: set<string>) | InvalidRanges

  datatype Service = Service(
    lb: string,
    name: string,
    requestedIP: string,
    ports: seq<ServicePort>,
    affinity: Affinity,
    tier: TierAnnotation,
    check: LocalCheck,
    sourceRanges: SourceRanges,
    usesBackendService: bool)

  datatype Config = Config(clusterID: string, poolURL: string, checkSourceRanges: set<string>)

  datatype WantedCheck = WantedCheck(name: string, path: string, port: int)

  predicate ValidService(svc: Service) {
    IsLoadBalancerName(svc.lb) && svc.ports != []
  }

  function Wanted(cfg: Config, svc: Service): WantedCheck {
    match svc.check
    case LocalCheck(path, port) => WantedCheck(svc.lb, path, port)
    case NodesCheck => WantedCheck(NodesCheckName(cfg.clusterID), NODES_CHECK_PATH, NODES_CHECK_PORT)
  }

  function TierOf(svc: Service): Tier {
    if svc.tier.Annotated? then svc.tier.tier else Premium
  }

  function AffinityText(a: Affinity): string {
    if a.ClientIP? then "CLIENT_IP" else "NONE"
  }

  /** The forwarding rule's port range, when the protocol allows one. */
  predicate Balanceable(svc: Service)
    requires svc.ports != []
  {
    !svc.ports[0].protocol.SCTP?
  }

  function PortRangeText(ports: seq<ServicePort>): string {
    Itoa(Lowest(PortNumbers(ports))) + "-" + Itoa(Highest(PortNumbers(ports)))
  }

  function NewRule(cfg: Config, svc: Service, ip: string): ForwardingRule
    requires svc.ports != []
  {
    ForwardingRule(ip, svc.ports[0].protocol.Name(), PortRangeText(svc.ports), cfg.poolURL + svc.lb, TierOf(svc))
  }

  predicate RuleFits(rule: ForwardingRule, svc: Service)
    requires svc.ports != []
  {
    && (svc.requestedIP == "" || svc.requestedIP == rule.ip)
    && Balanceable(svc)
    && rule.portRange == PortRangeText(svc.ports)
    && rule.protocol == svc.ports[0].protocol.Name()
  }

  predicate AffinityFits(pool: TargetPool, svc: Service) {
    pool.affinity == "" || pool.affinity == AffinityText(svc.affinity)
  }

  // ---- what holds of every world ----

  /**
   * Addresses and rules carry an IP; a rule has its pool; a pool has its checks; a local check serves its own pool
   * only.
   */
  ghost predicate WellFormed(s: World) {
    && (forall n :: n in s.addresses ==> s.addresses[n].ip != "")
    && (forall n :: n in s.rules ==> s.rules[n].ip != "")
    && s.rules.Keys <= s.pools.Keys
    && (forall p, h :: p in s.pools && h in s.pools[p].checks ==> h in s.checks && (IsLoadBalancerName(h) ==> h == p))
  }

  /** Everything but the load balancer's own resources and the shared nodes check with its firewall is the same. */
  ghost predicate OwnOnly(s: World, t: World, lb: string, clusterID: string) {
    && AgreeBut(s.addresses, t.addresses, {lb})
    && AgreeBut(s.rules, t.rules, {lb})
    && AgreeBut(s.pools, t.pools, {lb})
    && AgreeBut(s.checks, t.checks, {lb, NodesCheckName(clusterID)})
    && AgreeBut(s.firewalls, t.firewalls, OwnFirewalls(lb, clusterID))
  }

  ghost function OwnFirewalls(lb: string, clusterID: string): set<string> {
    {FirewallName(lb), CheckFirewallName(clusterID, lb, false), CheckFirewallName(clusterID, lb, true)}
  }

  /** A pool's reference to its load balancer's own check, or to the shared one. */
  predicate OwnReference(pool: string, check: string, clusterID: string) {
    IsLoadBalancerName(pool) && (check == pool || check == NodesCheckName(clusterID))
  }

  /** Every check that a load balancer's pool refers to has its firewall. */
  ghost predicate ChecksOpen(s: World, clusterID: string) {
    Open(s.pools, s.firewalls.Keys, clusterID)
  }

  ghost predicate Open(pools: map<string, TargetPool>, firewalls: set<string>, clusterID: string) {
    forall p, h :: p in pools && h in pools[p].checks && OwnReference(p, h, clusterID) ==>
      CheckFirewallName(clusterID, h, h != p) in firewalls
  }

  // ---- the virtual IP ----

  /** `vip` is on the rule, or held by the address of the load balancer's name; nobody else reserves it. */
  ghost predicate VipOwned(s: World, lb: string, vip: string) {
    && (forall n :: n in s.addresses && n != lb ==> s.addresses[n].ip != vip)
    && (if lb in s.rules then s.rules[lb].ip == vip else lb in s.addresses && s.addresses[lb].ip == vip)
  }

  /** With a tier annotation, the rule and the address of the load balancer's name are of that tier. */
  ghost predicate TierOk(s: World, svc: Service) {
    svc.tier.Annotated? ==>
      && (svc.lb in s.rules ==> s.rules[svc.lb].tier == svc.tier.tier)
      && (svc.lb in s.addresses ==> s.addresses[svc.lb].tier == svc.tier.tier)
  }

  // ---- fully built, and settled ----

  ghost predicate FirewallReady(s: World, svc: Service, ip: string) {
    && FirewallName(svc.lb) in s.firewalls
    && svc.sourceRanges.Nets?
    && UpToDate(s.firewalls[FirewallName(svc.lb)], svc.name, ip, svc.ports, svc.sourceRanges.nets)
  }

  /** Rule, firewall, pool with every host, and health check are all in place. */
  ghost predicate FullyBuilt(cfg: Config, svc: Service, hosts: seq<Host>, s: World) {
    var hc := Wanted(cfg, svc);
    && svc.lb in s.rules && svc.ports != []
    && RuleFits(s.rules[svc.lb], svc)
    && FirewallReady(s, svc, s.rules[svc.lb].ip)
    && HoldsExactly(s, svc.lb, hosts)
    && AffinityFits(s.pools[svc.lb], svc)
    && CheckReady(s, hc.name, hc.path, hc.port)
  }

  /** The pool refers to the check the service wants. */
  ghost predicate Wired(cfg: Config, svc: Service, s: World) {
    svc.lb in s.pools && Wanted(cfg, svc).name in s.pools[svc.lb].checks
  }

  /** The firewall of the wanted check lets probes to that check's port through, and nothing else. */
  ghost predicate ProbesAdmitted(cfg: Config, svc: Service, firewalls: map<string, Firewall>) {
    var hc := Wanted(cfg, svc);
    var name := CheckFirewallName(cfg.clusterID, hc.name, hc.name != svc.lb);
    name in firewalls && ProbesPass(firewalls[name], hc.port, cfg.checkSourceRanges)
  }

  /** Nothing is left for another run to change. */
  ghost predicate Settled(cfg: Config, svc: Service, hosts: seq<Host>, s: World) {
    && FullyBuilt(cfg, svc, hosts, s)
    && TierOk(s, svc)
    && (svc.lb in s.checks <==> svc.check.LocalCheck?)
  }

  /** A local-traffic check left behind without a pool, for a service that now uses the nodes check. */
  ghost predicate OrphanedCheck(s: World, svc: Service) {
    svc.check.NodesCheck? && svc.lb in s.checks && svc.lb !in s.pools
  }

  /**
   * Whether rule or pool has to be replaced: the rule is missing or unfit, or so is the pool, or the kind of check
   * changed.
   */
  ghost predicate NeedsRebuild(s: World, svc: Service)
    requires svc.ports != []
  {
    || svc.lb !in s.rules || !RuleFits(s.rules[svc.lb], svc)
    || StaleBackend(s, svc)
  }

  ghost predicate StaleBackend(s: World, svc: Service) {
    svc.lb !in s.pools || !AffinityFits(s.pools[svc.lb], svc) || (svc.lb in s.checks) != svc.check.LocalCheck?
  }

  /** Without the rule and the address of the load balancer's name, where they are of the wrong tier. */
  ghost function TierCleaned(s: World, svc: Service): World {
    if !svc.tier.Annotated? then s
    else
      var lb, tier := svc.lb, svc.tier.tier;
      s.(rules := if lb in s.rules && s.rules[lb].tier != tier then s.rules - {lb} else s.rules,
         addresses := if lb in s.addresses && s.addresses[lb].tier != tier then s.addresses - {lb} else s.addresses)
  }

  /** The cleanup took from `s` to `m`: of what it was to delete it may have left anything. */
  ghost predicate MayClean(s: World, m: World, svc: Service) {
    && m == s.(rules := m.rules, addresses := m.addresses)
    && m.rules in {s.rules, TierCleaned(s, svc).rules}
    && m.addresses in {s.addresses, TierCleaned(s, svc).addresses}
  }

  // ---- when a run can succeed ----

  /**
   * Neither service, hosts nor pool stand in the way: a protocol and source ranges that can be served, no duplicates.
   */
  ghost predicate Buildable(svc: Service, hosts: seq<Host>, s: World) {
    && svc.ports != [] && Balanceable(svc) && svc.sourceRanges.Nets?
    && DistinctHosts(hosts)
    && (svc.lb in s.pools ==> PoolDistinct(s, svc.lb))
  }

  /** A service and hosts that can be served whatever the world is like. */
  ghost predicate Servable(svc: Service, hosts: seq<Host>) {
    && ValidService(svc) && !svc.usesBackendService && !svc.tier.InvalidTier?
    && Balanceable(svc) && svc.sourceRanges.Nets? && DistinctHosts(hosts)
  }

  /** The rule's IP can be held: the load balancer's address name is free, or some address reserves the IP. */
  ghost predicate CanHold(s: World, lb: string, ip: string) {
    lb !in s.addresses || s.Reserved(ip)
  }

  /** An IP can be had: the user's own, of the right tier; or the rule's, which can be held; or a new one. */
  ghost predicate IPUsable(s: World, svc: Service) {
    if svc.requestedIP == "" then svc.lb in s.rules ==> CanHold(s, svc.lb, s.rules[svc.lb].ip)
    else if s.Reserved(svc.requestedIP) then
      exists n :: n in s.addresses && s.addresses[n].ip == svc.requestedIP && s.addresses[n].tier == TierOf(svc)
    else svc.lb in s.rules && svc.requestedIP == s.rules[svc.lb].ip && svc.lb !in s.addresses
  }

  // ---- firewalls of health checks ----

  lemma OpenIfKept(pools: map<string, TargetPool>, before: set<string>, after: set<string>, clusterID: string)
    requires before <= after && Open(pools, before, clusterID)
    ensures Open(pools, after, clusterID)
  {
  }

  lemma OpenWithPool(pools: map<string, TargetPool>, firewalls: set<string>, clusterID: string, lb: string,
                     pool: TargetPool)
    requires Open(pools, firewalls, clusterID)
    requires forall h :: h in pool.checks ==> CheckFirewallName(clusterID, h, h != lb) in firewalls
    ensures Open(pools[lb := pool], firewalls, clusterID)
  {
    hide CheckFirewallName;
  }

  /** The service's own firewall is nobody's check firewall. */
  lemma OpenWithoutOwnFirewall(pools: map<string, TargetPool>, firewalls: set<string>, clusterID: string, lb: string)
    requires IsLoadBalancerName(lb) && Open(pools, firewalls, clusterID)
    ensures Open(pools, firewalls - {FirewallName(lb)}, clusterID)
  {
    hide FirewallName, CheckFirewallName;
    forall p, h | p in pools && h in pools[p].checks && OwnReference(p, h, clusterID)
      ensures CheckFirewallName(clusterID, h, h != p) in firewalls - {FirewallName(lb)}
    {
      NotACheckFirewall(lb, h, clusterID, h != p);
    }
  }

  /** A check that is gone is referred to by nobody, so its firewall may go. */
  lemma OpenWithoutCheckFirewall(s: World, clusterID: string, lb: string, h: string)
    requires OwnReference(lb, h, clusterID) && h !in s.checks
    requires WellFormed(s) && ChecksOpen(s, clusterID)
    ensures Open(s.pools, s.firewalls.Keys - {CheckFirewallName(clusterID, h, h != lb)}, clusterID)
  {
    hide CheckFirewallName, NodesCheckName, IsLoadBalancerName;
    forall p, g | p in s.pools && g in s.pools[p].checks && OwnReference(p, g, clusterID)
      ensures CheckFirewallName(clusterID, g, g != p) in s.firewalls.Keys - {CheckFirewallName(clusterID, h, h != lb)}
    {
      assert g in s.checks;
      CheckFirewallsDiffer(clusterID, lb, h, p, g);
    }
  }

  // ---- what a load balancer that was ensured does, said on the fields of its resources ----

  /** Traffic from the service's networks to its ports on `ip`, and no other, gets through. */
  ghost predicate FirewallServes(svc: Service, s: World, ip: string) {
    var name := "k8s-fw-" + svc.lb;
    && name in s.firewalls && svc.sourceRanges.Nets?
    && var fw := s.firewalls[name];
    && AdmitsExactly(fw, svc.sourceRanges.nets) && OpensExactlyPorts(fw, svc.ports)
    && fw.destinationRanges == [ip] && fw.allowed[0].protocol in {"tcp", "udp"}
    && fw.description == FirewallDescription(svc.name, ip)
  }

  /** A range text names the ports of the service from the lowest to the highest. */
  ghost predicate Spans(text: string, ports: seq<ServicePort>) {
    var r := ReadRange(text);
    && r.Some? && HasPort(ports, r.value.lo) && HasPort(ports, r.value.hi)
    && forall p :: HasPort(ports, p) ==> r.value.Has(p)
  }

  ghost predicate ValidPorts(ports: seq<ServicePort>) {
    forall p :: HasPort(ports, p) ==> 1 <= p <= 65535
  }

  ghost predicate RuleServes(svc: Service, s: World, ip: string) {
    && svc.lb in s.rules && svc.ports != []
    && var rule := s.rules[svc.lb];
    && rule.ip == ip
    && (ValidPorts(svc.ports) ==> Spans(rule.portRange, svc.ports))
    && match svc.ports[0].protocol
       case TCP => rule.protocol == "TCP"
       case UDP => rule.protocol == "UDP"
       case SCTP => false
  }

  /** Every host is in the pool, once, and nobody else is. */
  ghost predicate PoolServes(svc: Service, hosts: seq<Host>, s: World) {
    && svc.lb in s.pools
    && var pool := s.pools[svc.lb];
    && |pool.instances| == |hosts|
    && (forall path :: path in Paths(pool.instances) <==>
          exists h :: h in hosts && path == "/zones/" + h.zone + "/instances/" + h.name)
    && (pool.affinity == "" || pool.affinity == if svc.affinity.ClientIP? then "CLIENT_IP" else "NONE")
  }

  /** The check the service asks for is there and asks at least as much as the defaults. */
  ghost predicate CheckServes(cfg: Config, svc: Service, s: World) {
    var (name, path, port) := match svc.check
      case LocalCheck(path, port) => (svc.lb, path, port)
      case NodesCheck => ("k8s-" + cfg.clusterID + "-node", "/healthz", 10256);
    && name in s.checks
    && var hc := s.checks[name];
    && hc.path == path && hc.port == port && hc.description == ServiceDescription(name)
    && hc.interval >= 8 && hc.timeout >= 1 && hc.healthy >= 1 && hc.unhealthy >= 3
  }

  /** Probes get through to the port of that check, and nothing else does. */
  ghost predicate ProbesServe(cfg: Config, svc: Service, s: World) {
    var (name, port) := match svc.check
      case LocalCheck(_, port) => ("k8s-" + svc.lb + "-http-hc", port)
      case NodesCheck => ("k8s-" + cfg.clusterID + "-node-http-hc", 10256);
    name in s.firewalls && ProbesPass(s.firewalls[name], port, cfg.checkSourceRanges)
  }

  ghost predicate Serves(cfg: Config, svc: Service, hosts: seq<Host>, s: World, ip: string) {
    FirewallServes(svc, s, ip) && RuleServes(svc, s, ip) && PoolServes(svc, hosts, s) && CheckServes(cfg, svc, s)
  }

  lemma BuiltFirewallServes(svc: Service, s: World, ip: string)
    requires FirewallReady(s, svc, ip)
    ensures FirewallServes(svc, s, ip)
  {
    hide UpToDate, AdmitsExactly, OpensExactlyPorts;
    UpToDateMeans(s.firewalls[FirewallName(svc.lb)], svc.name, ip, svc.ports, svc.sourceRanges.nets);
  }

  /** The forwarding rule's range reads as the bounds of the ports. */
  lemma RangeTextSpans(ports: seq<ServicePort>)
    requires ports != [] && ValidPorts(ports)
    ensures Spans(PortRangeText(ports), ports)
  {
    hide ReadRange, Lowest, Highest, PortNumbers;
    var nums := PortNumbers(ports);
    ReadDashed(Lowest(nums), Highest(nums));
    BoundsExact(nums);
    assert ports[0].port == ports[0].port;
    PortNumbersAre(ports, ports[0].port);
    PortNumbersAre(ports, Lowest(nums));
    PortNumbersAre(ports, Highest(nums));
    assert HasPort(ports, ports[0].port);
    forall p | HasPort(ports, p)
      ensures Lowest(nums) <= p <= Highest(nums)
    {
      PortNumbersAre(ports, p);
    }
  }

  lemma BuiltRuleServes(svc: Service, s: World)
    requires svc.ports != [] && svc.lb in s.rules && RuleFits(s.rules[svc.lb], svc)
    ensures RuleServes(svc, s, s.rules[svc.lb].ip)
  {
    hide Spans, PortRangeText;
    if ValidPorts(svc.ports) { RangeTextSpans(svc.ports); }
  }

  lemma BuiltPoolServes(svc: Service, hosts: seq<Host>, s: World)
    requires HoldsExactly(s, svc.lb, hosts) && AffinityFits(s.pools[svc.lb], svc)
    ensures PoolServes(svc, hosts, s)
  {
    hide Paths;
    forall path
      ensures path in HostPaths(hosts) <==>
              exists h :: h in hosts && path == "/zones/" + h.zone + "/instances/" + h.name
    {
      if h :| h in hosts && path == "/zones/" + h.zone + "/instances/" + h.name { assert path == h.Path(); }
    }
  }

  lemma BuiltCheckServes(cfg: Config, svc: Service, s: World)
    requires var hc := Wanted(cfg, svc); CheckReady(s, hc.name, hc.path, hc.port)
    ensures CheckServes(cfg, svc, s)
  {
  }

  /** Fully built means that it serves. */
  lemma BuiltServes(cfg: Config, svc: Service, hosts: seq<Host>, s: World)
    requires FullyBuilt(cfg, svc, hosts, s)
    ensures Serves(cfg, svc, hosts, s, s.rules[svc.lb].ip)
  {
    hide FirewallServes, RuleServes, PoolServes, CheckServes, UpToDate, NeedsUpdate, Paths, HostPaths, RuleFits;
    BuiltFirewallServes(svc, s, s.rules[svc.lb].ip);
    BuiltRuleServes(svc, s);
    BuiltPoolServes(svc, hosts, s);
    BuiltCheckServes(cfg, svc, s);
  }

  lemma AdmittedServe(cfg: Config, svc: Service, s: World)
    requires IsLoadBalancerName(svc.lb) && ProbesAdmitted(cfg, svc, s.firewalls)
    ensures ProbesServe(cfg, svc, s)
  {
    hide ProbesPass;
    DistinctNames(svc.lb, cfg.clusterID);
    assert "k8s-" + cfg.clusterID + "-node" + "-http-hc" == "k8s-" + cfg.clusterID + "-node-http-hc";
  }

  // ---- other services' IPs, and a tidy world ----

  type Addresses = map<string, Address>
  type Rules = map<string, ForwardingRule>
  type Pools = map<string, TargetPool>

  /** Another name than `lb` reserves `ip`, or another rule is on it. */
  ghost predicate Elsewhere(addresses: Addresses, rules: Rules, lb: string, ip: string) {
    || (exists n :: n in addresses && n != lb && addresses[n].ip == ip)
    || (exists n :: n in rules && n != lb && rules[n].ip == ip)
  }

  /** The load balancer's own rule or address is on `ip`. */
  ghost predicate Carries(addresses: Addresses, rules: Rules, lb: string, ip: string) {
    (lb in rules && rules[lb].ip == ip) || (lb in addresses && addresses[lb].ip == ip)
  }

  ghost predicate Shuns(addresses: Addresses, rules: Rules, lb: string, shun: set<string>) {
    forall ip :: ip in shun ==> Elsewhere(addresses, rules, lb, ip) && !Carries(addresses, rules, lb, ip)
  }

  /** No IP is reserved twice, an address beside its rule is on the rule's IP, and pools hold nobody twice. */
  ghost predicate Tidy(addresses: Addresses, rules: Rules, pools: Pools) {
    && (forall m, n :: m in addresses && n in addresses && addresses[m].ip == addresses[n].ip ==> m == n)
    && (forall n :: n in addresses && n in rules ==> addresses[n].ip == rules[n].ip)
    && (forall p :: p in pools ==> DistinctPaths(pools[p].instances))
  }

  ghost predicate TidyWorld(s: World) {
    Tidy(s.addresses, s.rules, s.pools)
  }

  ghost predicate Kept(run: Run, addresses: Addresses, rules: Rules, pools: Pools) {
    Shuns(addresses, rules, run.svc.lb, run.shun) && (run.tidy ==> Tidy(addresses, rules, pools))
  }

  /** The rule, or an address, may be put on `ip`. */
  ghost predicate MayCarry(run: Run, addresses: Addresses, ip: string) {
    ip !in run.shun && (run.tidy && run.svc.lb in addresses ==> addresses[run.svc.lb].ip == ip)
  }

  lemma KeptWithoutRule(run: Run, addresses: Addresses, rules: Rules, pools: Pools)
    requires Kept(run, addresses, rules, pools)
    ensures Kept(run, addresses, rules - {run.svc.lb}, pools)
  {
    hide DistinctPaths;
    var less := rules - {run.svc.lb};
    forall ip | ip in run.shun
      ensures Elsewhere(addresses, less, run.svc.lb, ip) && !Carries(addresses, less, run.svc.lb, ip)
    {
      if n :| n in rules && n != run.svc.lb && rules[n].ip == ip { assert n in less; }
    }
  }

  lemma KeptWithoutAddress(run: Run, addresses: Addresses, rules: Rules, pools: Pools)
    requires Kept(run, addresses, rules, pools)
    ensures Kept(run, addresses - {run.svc.lb}, rules, pools)
  {
    hide DistinctPaths;
    var less := addresses - {run.svc.lb};
    forall ip | ip in run.shun
      ensures Elsewhere(less, rules, run.svc.lb, ip) && !Carries(less, rules, run.svc.lb, ip)
    {
      if n :| n in addresses && n != run.svc.lb && addresses[n].ip == ip { assert n in less; }
    }
  }

  lemma KeptWithRule(run: Run, addresses: Addresses, rules: Rules, pools: Pools, rule: ForwardingRule)
    requires Kept(run, addresses, rules, pools) && MayCarry(run, addresses, rule.ip)
    ensures Kept(run, addresses, rules[run.svc.lb := rule], pools)
  {
    hide DistinctPaths;
    var more := rules[run.svc.lb := rule];
    forall ip | ip in run.shun
      ensures Elsewhere(addresses, more, run.svc.lb, ip) && !Carries(addresses, more, run.svc.lb, ip)
    {
      if n :| n in rules && n != run.svc.lb && rules[n].ip == ip { assert n in more; }
    }
  }

  lemma KeptWithAddress(run: Run, addresses: Addresses, rules: Rules, pools: Pools, a: Address)
    requires Kept(run, addresses, rules, pools) && run.svc.lb !in addresses && a.ip !in run.shun
    requires forall n :: n in addresses ==> addresses[n].ip != a.ip
    requires run.svc.lb in rules ==> a.ip == rules[run.svc.lb].ip
    ensures Kept(run, addresses[run.svc.lb := a], rules, pools)
  {
    hide DistinctPaths;
    var more := addresses[run.svc.lb := a];
    forall ip | ip in run.shun
      ensures Elsewhere(more, rules, run.svc.lb, ip) && !Carries(more, rules, run.svc.lb, ip)
    {
      if n :| n in addresses && n != run.svc.lb && addresses[n].ip == ip { assert n in more; }
    }
  }

  lemma KeptWithPool(run: Run, addresses: Addresses, rules: Rules, pools: Pools, name: string, pool: TargetPool)
    requires Kept(run, addresses, rules, pools) && (run.tidy ==> DistinctPaths(pool.instances))
    ensures Kept(run, addresses, rules, pools[name := pool]) && Kept(run, addresses, rules, pools - {name})
  {
    hide DistinctPaths, Shuns;
  }

  // ---- steps of a run ----

  /** The checks that the pool refers to once a run from `s` has brought the backend up to date. */
  ghost function PoolChecks(cfg: Config, svc: Service, s: World): seq<string> {
    if StaleBackend(s, svc) then [Wanted(cfg, svc).name] else s.pools[svc.lb].checks
  }

  /**
   * One run: `vip` is the virtual IP to be kept (empty for none), `frozen` that the world was settled, and
   * `checks` what the pool behind a rule created by the run refers to; `shun` are IPs of others that it must not
   * take, and `tidy` tells that it has to leave the world tidy.
   */
  datatype Run = Run(
    cfg: Config, svc: Service, hosts: seq<Host>,
    vip: string, frozen: bool, checks: seq<string>, shun: set<string>, tidy: bool)

  /** The rule that was just created leads to the pool, with all behind it in place. */
  ghost predicate Born(run: Run, t: World) {
    && FullyBuilt(run.cfg, run.svc, run.hosts, t)
    && t.rules[run.svc.lb] == NewRule(run.cfg, run.svc, t.rules[run.svc.lb].ip)
    && t.pools[run.svc.lb].checks == run.checks
  }

  ghost predicate StepOk(run: Run, s: World, t: World) {
    var lb := run.svc.lb;
    && WellFormed(t)
    && OwnOnly(s, t, lb, run.cfg.clusterID)
    && ChecksGrow(s, t)
    && (ChecksOpen(s, run.cfg.clusterID) ==> ChecksOpen(t, run.cfg.clusterID))
    && (lb in t.rules && lb in s.rules ==> t.rules[lb] == s.rules[lb])
    && (lb in t.rules && lb !in s.rules ==> Born(run, t))
    && (run.vip != "" ==> VipOwned(t, lb, run.vip))
    && Kept(run, t.addresses, t.rules, t.pools)
    && (run.frozen ==> t == s.(addresses := t.addresses))
  }

  ghost predicate StepsOk(run: Run, trace: seq<World>, from: nat) {
    forall i :: 0 < from <= i < |trace| ==> StepOk(run, trace[i - 1], trace[i])
  }

  /** What a run may rely on at each point. */
  ghost predicate Underway(run: Run, s: World) {
    && ValidService(run.svc)
    && WellFormed(s)
    && (run.vip != "" ==>
         VipOwned(s, run.svc.lb, run.vip) && TierOk(s, run.svc) && run.svc.requestedIP in {"", run.vip})
    && (run.frozen ==> Settled(run.cfg, run.svc, run.hosts, s))
    && Kept(run, s.addresses, s.rules, s.pools) && run.svc.requestedIP !in run.shun
    && (run.tidy ==> DistinctHosts(run.hosts))
  }

  lemma StepsJoin(run: Run, before: seq<World>, after: seq<World>, from: nat)
    requires 0 < from <= |before| && before <= after
    requires StepsOk(run, before, from) && StepsOk(run, after, |before|)
    ensures StepsOk(run, after, from)
  {
    forall i | from <= i < |after|
      ensures StepOk(run, after[i - 1], after[i])
    {
      if i < |before| {
        assert after[i] == before[i] && after[i - 1] == before[i - 1];
      }
    }
  }

  lemma StepsOne(run: Run, before: seq<World>, after: seq<World>, s: World, t: World)
    requires before != [] && before[|before| - 1] == s && StepOk(run, s, t)
    requires after == before || after == before + [t]
    ensures before <= after && StepsOk(run, after, |before|)
  {
  }

  lemma StepSame(run: Run, s: World)
    requires Underway(run, s)
    ensures StepOk(run, s, s)
  {
    hide Open, Born, FullyBuilt, Kept;
  }

  lemma AddressesDoNotMatter(cfg: Config, svc: Service, hosts: seq<Host>, s: World, t: World)
    requires t == s.(addresses := t.addresses)
    ensures FullyBuilt(cfg, svc, hosts, s) == FullyBuilt(cfg, svc, hosts, t)
  {
    hide UpToDate, NeedsUpdate, RuleFits;
    assert HoldsExactly(s, svc.lb, hosts) == HoldsExactly(t, svc.lb, hosts);
  }

  /** A step that only touches the address of the load balancer's name. */
  lemma StepAddress(run: Run, s: World, t: World)
    requires Underway(run, s)
    requires t == s.(addresses := t.addresses) && AgreeBut(s.addresses, t.addresses, {run.svc.lb})
    requires run.svc.lb in t.addresses ==> t.addresses[run.svc.lb].ip != ""
    requires run.vip != "" ==> VipOwned(t, run.svc.lb, run.vip)
    requires Kept(run, t.addresses, t.rules, t.pools)
    ensures StepOk(run, s, t) && WellFormed(t)
    ensures FullyBuilt(run.cfg, run.svc, run.hosts, s) == FullyBuilt(run.cfg, run.svc, run.hosts, t)
  {
    hide Open, Born, FullyBuilt, Kept;
    AddressesDoNotMatter(run.cfg, run.svc, run.hosts, s, t);
  }

  /** Deleting the rule while the virtual IP, if one is to be kept, is reserved under the load balancer's name. */
  lemma StepDropRule(run: Run, s: World, t: World)
    requires Underway(run, s) && !run.frozen
    requires t == s.(rules := t.rules) && (t.rules == s.rules || t.rules == s.rules - {run.svc.lb})
    requires run.vip != "" ==> run.svc.lb in s.addresses && s.addresses[run.svc.lb].ip == run.vip
    ensures StepOk(run, s, t) && Underway(run, t)
  {
    hide Open, Born, FullyBuilt, Settled, Kept;
    KeptWithoutRule(run, s.addresses, s.rules, s.pools);
  }

  /** A step that only touches a firewall of the load balancer. */
  lemma StepFirewall(run: Run, s: World, t: World, name: string)
    requires Underway(run, s) && !run.frozen
    requires t == s.(firewalls := t.firewalls) && AgreeBut(s.firewalls, t.firewalls, {name})
    requires name in OwnFirewalls(run.svc.lb, run.cfg.clusterID)
    requires ChecksOpen(s, run.cfg.clusterID) ==> ChecksOpen(t, run.cfg.clusterID)
    ensures StepOk(run, s, t) && Underway(run, t)
  {
    hide Open, Born, FullyBuilt, Settled, Kept;
  }

  /** Creating or patching one. */
  lemma StepWriteFirewall(run: Run, s: World, t: World, name: string)
    requires Underway(run, s) && !run.frozen
    requires OnlyFirewall(s, t, name) && name in OwnFirewalls(run.svc.lb, run.cfg.clusterID)
    ensures StepOk(run, s, t) && Underway(run, t)
  {
    hide Open, StepOk, Underway;
    if ChecksOpen(s, run.cfg.clusterID) {
      OpenIfKept(s.pools, s.firewalls.Keys, t.firewalls.Keys, run.cfg.clusterID);
    }
    StepFirewall(run, s, t, name);
  }

  /** A step that creates or raises a health check. */
  lemma StepCheck(run: Run, s: World, t: World, name: string)
    requires Underway(run, s) && !run.frozen
    requires OnlyCheck(s, t, name) && ChecksGrow(s, t) && name in {run.svc.lb, NodesCheckName(run.cfg.clusterID)}
    ensures StepOk(run, s, t) && Underway(run, t)
  {
    hide Open, Born, FullyBuilt, Settled, Kept;
  }

  /** Deleting a health check that no pool uses. */
  lemma StepDropCheck(run: Run, s: World, t: World, name: string)
    requires Underway(run, s) && !run.frozen && name in {run.svc.lb, NodesCheckName(run.cfg.clusterID)}
    requires t == s || (t == s.(checks := s.checks - {name}) && !s.CheckInUse(name))
    ensures StepOk(run, s, t) && Underway(run, t)
  {
    hide Open, Born, FullyBuilt, Settled, Kept;
  }

  /** Deleting the pool once the rule is gone. */
  lemma StepDropPool(run: Run, s: World, t: World)
    requires Underway(run, s) && !run.frozen && run.svc.lb !in s.rules
    requires t == s || t == s.(pools := s.pools - {run.svc.lb})
    ensures StepOk(run, s, t) && Underway(run, t)
  {
    hide Born, FullyBuilt, Settled, Kept;
    if t != s { KeptWithPool(run, s.addresses, s.rules, s.pools, run.svc.lb, TargetPool([], "", [])); }
  }

  /** Creating the pool with checks that are there. */
  lemma StepCreatePool(run: Run, s: World, t: World, pool: TargetPool)
    requires Underway(run, s) && !run.frozen && run.svc.lb !in s.pools
    requires forall h :: h in pool.checks ==>
               && h in s.checks && h in {run.svc.lb, NodesCheckName(run.cfg.clusterID)}
               && CheckFirewallName(run.cfg.clusterID, h, h != run.svc.lb) in s.firewalls
    requires run.tidy ==> DistinctPaths(pool.instances)
    requires t == s || t == s.(pools := s.pools[run.svc.lb := pool])
    ensures StepOk(run, s, t) && Underway(run, t)
  {
    hide Born, FullyBuilt, Settled, CheckFirewallName, Open, Kept;
    KeptWithPool(run, s.addresses, s.rules, s.pools, run.svc.lb, pool);
    NodesNameHasDash(run.cfg.clusterID);
    if ChecksOpen(s, run.cfg.clusterID) {
      OpenWithPool(s.pools, s.firewalls.Keys, run.cfg.clusterID, run.svc.lb, pool);
    }
  }

  lemma NodesNameHasDash(clusterID: string)
    ensures !IsLoadBalancerName(NodesCheckName(clusterID))
  {
    assert NodesCheckName(clusterID)[3] == '-';
  }

  /** Two stages of updating the members of the pool of `s`. */
  lemma StepMembers(run: Run, s: World, u: World, t: World)
    requires Underway(run, s) && !run.frozen && run.svc.lb in s.pools
    requires run.svc.lb in u.pools && u == s.WithInstances(run.svc.lb, u.pools[run.svc.lb].instances)
    requires run.svc.lb in t.pools && t == s.WithInstances(run.svc.lb, t.pools[run.svc.lb].instances)
    requires run.tidy ==> PoolDistinct(t, run.svc.lb)
    ensures StepOk(run, u, t) && Underway(run, t)
  {
    hide Born, FullyBuilt, Settled, Kept;
    KeptWithPool(run, s.addresses, s.rules, s.pools, run.svc.lb, t.pools[run.svc.lb]);
  }
}
