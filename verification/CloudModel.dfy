/** The part of the cloud the load-balancer reconciler works on, and what each request to it does. */
module CloudModel {
  import opened Firewalls

  /** What a request was answered. `Failed` stands for every other error, including a lost reply. */
  datatype Response = Ok | NotFound | Conflict | BadRequest | InUse | Failed

  datatype Got<T> = Found(value: T) | Missing | Unavailable

  datatype Tier = Premium | Standard
  datatype Scheme = External | Internal

  datatype Address = Address(ip: string, tier: Tier, scheme: Scheme)
  datatype ForwardingRule = ForwardingRule(ip: string, protocol: string, portRange: string, target: string, tier: Tier)
  datatype TargetPool = TargetPool(instances: seq<string>, affinity: string, checks: seq<string>)
  datatype HealthCheck = HealthCheck(
    port: int, path: string, description: string,
    interval: int, timeout: int, unhealthy: int, healthy: int)

  const ZONES := "/zones/"

  /** The part of an instance URL from its first `/zones/` on, or nothing. */
  function ComparablePath(url: string): string {
    if |url| < |ZONES| then "" else if url[..|ZONES|] == ZONES then url else ComparablePath(url[1..])
  }

  /** `ZONES` stands at position `k` of the URL. */
  predicate ZonesAt(url: string, k: nat) {
    k + |ZONES| <= |url| && url[k..k + |ZONES|] == ZONES
  }

  /** The comparable path begins at the first place where `/zones/` stands; without such a place it is empty. */
  lemma {:induction false} ComparablePathMeans(url: string, k: nat)
    requires forall j :: 0 <= j < k ==> !ZonesAt(url, j)
    ensures ZonesAt(url, k) ==> ComparablePath(url) == url[k..]
    ensures k >= |url| ==> ComparablePath(url) == ""
    decreases |url|
  {
    if k > 0 && url != "" {
      assert !ZonesAt(url, 0);
      forall j | 0 <= j < k - 1
        ensures !ZonesAt(url[1..], j)
      {
        assert !ZonesAt(url, j + 1);
        assert j + 1 + |ZONES| <= |url| ==> url[1..][j..j + |ZONES|] == url[j + 1..j + 1 + |ZONES|];
      }
      assert ZonesAt(url, k) ==> url[1..][k - 1..k - 1 + |ZONES|] == url[k..k + |ZONES|];
      ComparablePathMeans(url[1..], k - 1);
      if ZonesAt(url, k) { assert url[1..][k - 1..] == url[k..]; }
    } else if k == 0 {
      assert url[0..] == url;
    }
  }

  function Paths(urls: seq<string>): set<string> {
    set u | u in urls :: ComparablePath(u)
  }

  /** Adding instances skips those that are members already. */
  function AddAll(urls: seq<string>, links: seq<string>): seq<string>
    decreases |links|
  {
    if links == [] then urls
    else if ComparablePath(links[0]) in Paths(urls) then AddAll(urls, links[1..])
    else AddAll(urls + [links[0]], links[1..])
  }

  function RemoveAll(urls: seq<string>, links: seq<string>): seq<string> {
    if urls == [] then []
    else (if ComparablePath(urls[0]) in links then [] else [urls[0]]) + RemoveAll(urls[1..], links)
  }

  lemma {:induction false} AddAllPaths(urls: seq<string>, links: seq<string>)
    ensures Paths(AddAll(urls, links)) == Paths(urls) + Paths(links)
    ensures Paths(links) <= Paths(urls) ==> AddAll(urls, links) == urls
    decreases |links|
  {
    if links != [] {
      assert links == [links[0]] + links[1..];
      PathsAppend([links[0]], links[1..]);
      PathsAppend(urls, [links[0]]);
      PathsOne(links[0]);
      AddAllPaths(if ComparablePath(links[0]) in Paths(urls) then urls else urls + [links[0]], links[1..]);
    }
  }

  lemma {:induction false} RemoveAllPaths(urls: seq<string>, links: seq<string>)
    ensures Paths(RemoveAll(urls, links)) == Paths(urls) - (set l | l in links)
  {
    if urls != [] {
      assert urls == [urls[0]] + urls[1..];
      PathsOne(urls[0]);
      PathsAppend([urls[0]], urls[1..]);
      PathsAppend(if ComparablePath(urls[0]) in links then [] else [urls[0]], RemoveAll(urls[1..], links));
      RemoveAllPaths(urls[1..], links);
    }
  }

  lemma PathsOne(u: string)
    ensures Paths([u]) == {ComparablePath(u)}
  {
    assert u in [u];
  }

  lemma PathsAppend(a: seq<string>, b: seq<string>)
    ensures Paths(a + b) == Paths(a) + Paths(b)
  {
    forall u ensures u in a + b <==> u in a || u in b {}
  }

  /** No two URLs name the same instance. */
  predicate DistinctPaths(urls: seq<string>) { |Paths(urls)| == |urls| }

  lemma {:induction false} PathsCount(urls: seq<string>)
    ensures |Paths(urls)| <= |urls|
  {
    if urls != [] {
      PathsCount(urls[1..]);
      PathsCons(urls);
    }
  }

  lemma PathsCons(urls: seq<string>)
    requires urls != []
    ensures Paths(urls) == {ComparablePath(urls[0])} + Paths(urls[1..])
  {
    assert urls == [urls[0]] + urls[1..];
    PathsOne(urls[0]);
    PathsAppend([urls[0]], urls[1..]);
  }

  /** Both kinds of update keep the members distinct. */
  lemma {:induction false} AddAllDistinct(urls: seq<string>, links: seq<string>)
    requires DistinctPaths(urls)
    ensures DistinctPaths(AddAll(urls, links))
    decreases |links|
  {
    if links != [] {
      PathsAppend(urls, [links[0]]);
      PathsOne(links[0]);
      AddAllDistinct(if ComparablePath(links[0]) in Paths(urls) then urls else urls + [links[0]], links[1..]);
    }
  }

  lemma {:induction false} RemoveAllDistinct(urls: seq<string>, links: seq<string>)
    requires DistinctPaths(urls)
    ensures DistinctPaths(RemoveAll(urls, links))
  {
    if urls != [] {
      var head, rest := ComparablePath(urls[0]), RemoveAll(urls[1..], links);
      PathsCons(urls);
      PathsCount(urls[1..]);
      RemoveAllDistinct(urls[1..], links);
      RemoveAllPaths(urls[1..], links);
      if head !in links {
        assert RemoveAll(urls, links) == [urls[0]] + rest;
        PathsCons([urls[0]] + rest);
        assert head !in Paths(urls[1..]);
      } else {
        assert RemoveAll(urls, links) == rest;
      }
    }
  }

  /** A request's intended answer, and the world it leaves behind when that answer is `Ok`. */
  datatype Plan = Plan(answer: Response, effect: World)

  datatype World = World(
    addresses: map<string, Address>,
    rules: map<string, ForwardingRule>,
    pools: map<string, TargetPool>,
    checks: map<string, HealthCheck>,
    firewalls: map<string, Firewall>)
  {
    predicate Reserved(ip: string) {
      exists n :: n in addresses && addresses[n].ip == ip
    }

    /** A forwarding rule is on that IP. */
    predicate OnRule(ip: string) {
      exists n :: n in rules && rules[n].ip == ip
    }

    predicate CheckInUse(name: string) {
      exists p :: p in pools && name in pools[p].checks
    }

    function ReserveAddress(name: string, a: Address): Plan {
      if name in addresses then Plan(Conflict, this)
      else if Reserved(a.ip) then Plan(BadRequest, this)
      else Plan(Ok, this.(addresses := addresses[name := a]))
    }

    function DeleteAddress(name: string): Plan {
      if name in addresses then Plan(Ok, this.(addresses := addresses - {name})) else Plan(NotFound, this)
    }

    function CreateRule(name: string, rule: ForwardingRule): Plan {
      if name in rules then Plan(Conflict, this) else Plan(Ok, this.(rules := rules[name := rule]))
    }

    function DeleteRule(name: string): Plan {
      if name in rules then Plan(Ok, this.(rules := rules - {name})) else Plan(NotFound, this)
    }

    function CreatePool(name: string, pool: TargetPool): Plan {
      if name in pools then Plan(Conflict, this) else Plan(Ok, this.(pools := pools[name := pool]))
    }

    function DeletePool(name: string): Plan {
      if name in pools then Plan(Ok, this.(pools := pools - {name})) else Plan(NotFound, this)
    }

    function WithInstances(name: string, urls: seq<string>): World
      requires name in pools
    {
      this.(pools := pools[name := pools[name].(instances := urls)])
    }

    function AddInstances(name: string, links: seq<string>): Plan {
      if name in pools then Plan(Ok, WithInstances(name, AddAll(pools[name].instances, links)))
      else Plan(NotFound, this)
    }

    function RemoveInstances(name: string, links: seq<string>): Plan {
      if name in pools then Plan(Ok, WithInstances(name, RemoveAll(pools[name].instances, links)))
      else Plan(NotFound, this)
    }

    function CreateCheck(name: string, hc: HealthCheck): Plan {
      if name in checks then Plan(Conflict, this) else Plan(Ok, this.(checks := checks[name := hc]))
    }

    function UpdateCheck(name: string, hc: HealthCheck): Plan {
      if name in checks then Plan(Ok, this.(checks := checks[name := hc])) else Plan(NotFound, this)
    }

    /** A health check that a target pool references cannot be deleted. */
    function DeleteCheck(name: string): Plan {
      if name !in checks then Plan(NotFound, this)
      else if CheckInUse(name) then Plan(InUse, this)
      else Plan(Ok, this.(checks := checks - {name}))
    }

    function CreateFirewall(name: string, fw: Firewall): Plan {
      if name in firewalls then Plan(Conflict, this) else Plan(Ok, this.(firewalls := firewalls[name := fw]))
    }

    function PatchFirewall(name: string, fw: Firewall): Plan {
      if name in firewalls then Plan(Ok, this.(firewalls := firewalls[name := fw])) else Plan(NotFound, this)
    }

    function DeleteFirewall(name: string): Plan {
      if name in firewalls then Plan(Ok, this.(firewalls := firewalls - {name})) else Plan(NotFound, this)
    }
  }

  /**
   * Answer `r` to a request planned as `plan`, taking the world from `s` to `t`. Any request may fail,
   * and a failed request may still have taken effect.
   */
  ghost predicate Answers(s: World, t: World, r: Response, plan: Plan) {
    && (r == plan.answer || r == Failed)
    && (t == s || (plan.answer == Ok && t == plan.effect))
    && (r == Ok ==> t == plan.effect)
  }

  /** The maps agree on every key outside `but`. */
  ghost predicate AgreeBut<V>(a: map<string, V>, b: map<string, V>, but: set<string>) {
    && (forall k :: k in a && k !in but ==> k in b && a[k] == b[k])
    && (forall k :: k in b && k !in but ==> k in a)
  }

  ghost function MapGot<T>(m: map<string, T>, name: string): Got<T> {
    if name in m then Found(m[name]) else Missing
  }

  class Cloud {
    /** Whether every request is answered as it should be. */
    const reliable: bool
    var w: World
    /** Every world so far, one more for each request that writes. */
    ghost var trace: seq<World>

    constructor (initial: World, reliable: bool)
      ensures w == initial && trace == [initial] && this.reliable == reliable
    {
      this.reliable := reliable;
      w := initial;
      trace := [initial];
    }

    ghost predicate Valid()
      reads this
    {
      trace != [] && trace[|trace| - 1] == w
    }

    /** At most one request was made since the trace was `before` and the world `s`. */
    ghost predicate OneRequest(before: seq<World>, s: World)
      reads this
    {
      Valid() && (trace == before + [w] || (trace == before && w == s))
    }

    method Request(plan: Plan) returns (r: Response)
      requires Valid()
      modifies this
      ensures Valid() && trace == old(trace) + [w]
      ensures Answers(old(w), w, r, plan) && (reliable ==> r == plan.answer)
    {
      var fails: bool, lands: bool := *, *;
      fails := fails && !reliable;
      r := if fails then Failed else plan.answer;
      if plan.answer == Ok && (!fails || lands) {
        w := plan.effect;
      }
      trace := trace + [w];
    }

    method Get<T>(m: map<string, T>, name: string) returns (g: Got<T>)
      ensures g == MapGot(m, name) || (g == Unavailable && !reliable)
    {
      var fails: bool := *;
      fails := fails && !reliable;
      g := if fails then Unavailable else if name in m then Found(m[name]) else Missing;
    }

    /** The name of an address reserving `ip`. */
    method GetAddressByIP(ip: string) returns (g: Got<string>)
      ensures g.Found? ==> g.value in w.addresses && w.addresses[g.value].ip == ip
      ensures g.Missing? ==> !w.Reserved(ip)
      ensures reliable ==> !g.Unavailable?
    {
      var fails: bool := *;
      fails := fails && !reliable;
      if fails {
        g := Unavailable;
      } else if n :| n in w.addresses && w.addresses[n].ip == ip {
        g := Found(n);
      } else {
        g := Missing;
      }
    }

    /** Reserves `ip`, or one of the cloud's choice, neither reserved nor on a rule, when `ip` is empty. */
    method ReserveAddress(name: string, ip: string, tier: Tier, scheme: Scheme) returns (r: Response)
      requires Valid()
      modifies this
      ensures Valid() && trace == old(trace) + [w]
      ensures r == BadRequest ==> ip != ""
      ensures reliable ==> r != Failed
      ensures exists chosen :: chosen != ""
                && (if ip != "" then chosen == ip else !old(w).Reserved(chosen) && !old(w).OnRule(chosen))
                && Answers(old(w), w, r, old(w).ReserveAddress(name, Address(chosen, tier, scheme)))
    {
      var chosen := ip;
      if ip == "" {
        SomeFree(w);
        chosen :| chosen != "" && !w.Reserved(chosen) && !w.OnRule(chosen);
      }
      r := Request(w.ReserveAddress(name, Address(chosen, tier, scheme)));
    }
  }

  /** There is always an IP that nobody has. */
  lemma SomeFree(s: World)
    ensures exists ip :: ip != "" && !s.Reserved(ip) && !s.OnRule(ip)
  {
    var taken := (set n | n in s.addresses :: s.addresses[n].ip) + (set n | n in s.rules :: s.rules[n].ip);
    var n := LongerThanAll(taken);
    var ip := seq(n + 1, i => 'x');
    assert |ip| == n + 1 && ip !in taken;
    assert s.Reserved(ip) ==> ip in taken;
    assert s.OnRule(ip) ==> ip in taken;
    assert ip != "" && !s.Reserved(ip) && !s.OnRule(ip);
  }

  lemma {:induction false} LongerThanAll(ips: set<string>) returns (n: nat)
    ensures forall ip :: ip in ips ==> |ip| <= n
    decreases ips
  {
    n := 0;
    if ips != {} {
      var ip :| ip in ips;
      var m := LongerThanAll(ips - {ip});
      n := if m < |ip| then |ip| else m;
    }
  }

  /** The cloud reserves no IP twice. */
  ghost predicate UniqueIPs(s: World) {
    forall m, n :: m in s.addresses && n in s.addresses && s.addresses[m].ip == s.addresses[n].ip ==> m == n
  }
}
