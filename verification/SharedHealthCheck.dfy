/**
 * The nodes health check and its firewall are shared by all services of the cluster. Services create and
 * delete their target pools concurrently; `sharedResourceLock` guards the shared pair. Each step below is
 * one request to the cloud, or taking the lock.
 */
module SharedHealthCheck {
  import opened Firewalls
  import opened CloudModel
  import opened Names
  import HealthChecks
  import ExternalLoadBalancer

  /** Where a service's worker stands. */
  datatype Point =
    | Idle
    // createTargetPoolAndHealthCheck for the nodes check
    | CreateLock | GetFirewall | WriteFirewall(present: bool)
    | GetCheck | CreateCheck | UpdateCheck | ReadBack | MakePool
    // DeleteExternalTargetPoolAndChecks for the nodes check
    | DropPool | DeleteLock | DropCheck | DropFirewall
    // ensureHTTPHealthCheck for a pool that stays, which takes no lock
    | RefreshGet | RefreshCreate | RefreshUpdate

  predicate Locked(p: Point) {
    p in {GetFirewall, WriteFirewall(true), WriteFirewall(false), GetCheck, CreateCheck, UpdateCheck, ReadBack,
      MakePool, DropCheck, DropFirewall}
  }

  datatype Lock = Free | HeldBy(lb: string)

  /** The world, the lock, and the point each service has reached (idle when absent). */
  datatype State = State(w: World, lock: Lock, points: map<string, Point>) {
    function At(lb: string): Point { if lb in points then points[lb] else Idle }
    function Go(lb: string, p: Point): State { this.(points := points[lb := p]) }
    /** Leaving the locked section, by return or by error. */
    function Leave(lb: string): State { this.(lock := Free, points := points[lb := Idle]) }
  }

  /** Steps on a service's own resources, including creating or deleting its own pool without the nodes check. */
  ghost predicate OwnStep(nodes: string, fw: string, s: World, t: World, lb: string) {
    && (nodes in t.checks <==> nodes in s.checks)
    && (fw in t.firewalls <==> fw in s.firewalls)
    && AgreeBut(s.pools, t.pools, {lb})
    && (lb in t.pools && nodes in t.pools[lb].checks ==> lb in s.pools && nodes in s.pools[lb].checks)
  }

  /** A request that touches no pool, the shared check or its firewall: own rule, address, firewalls and local check. */
  ghost predicate SideStep(nodes: string, fw: string, s: World, t: World) {
    && t.pools == s.pools
    && (nodes in t.checks <==> nodes in s.checks)
    && (fw in t.firewalls <==> fw in s.firewalls)
  }

  /** One step from `a` to `b`: a request on the side, at any point, or a move of service `lb`. */
  ghost predicate Step(nodes: string, fw: string, a: State, b: State, lb: string, r: Response, locking: bool) {
    (SideStep(nodes, fw, a.w, b.w) && b == a.(w := b.w)) || Move(nodes, fw, a, b, lb, r, locking)
  }

  /**
   * Service `lb` moves on; `r` is the answer to its request, if it makes one. Without `locking` it enters the
   * locked section whether or not the lock is free.
   */
  ghost predicate Move(nodes: string, fw: string, a: State, b: State, lb: string, r: Response, locking: bool) {
    match a.At(lb)
    case Idle =>
      || (OwnStep(nodes, fw, a.w, b.w, lb) && b == a.(w := b.w))
      || b == a.Go(lb, CreateLock)
      || b == a.Go(lb, DropPool)
      || (lb in a.w.pools && b == a.Go(lb, RefreshGet))
    case CreateLock => (locking ==> a.lock == Free) && b == a.(lock := HeldBy(lb)).Go(lb, GetFirewall)
    case GetFirewall =>
      if r == Failed then b == a.Leave(lb)
      else if fw in a.w.firewalls then b == a.Go(lb, GetCheck) || b == a.Go(lb, WriteFirewall(true))
      else b == a.Go(lb, WriteFirewall(false))
    case WriteFirewall(present) =>
      exists rule :: Answers(a.w, b.w, r, if present then a.w.PatchFirewall(fw, rule) else a.w.CreateFirewall(fw, rule))
        && b == if r == Ok || r == Conflict then a.(w := b.w).Go(lb, GetCheck) else a.(w := b.w).Leave(lb)
    case GetCheck =>
      // A failed read is taken for an absent check.
      if r != Failed && nodes in a.w.checks then b == a.Go(lb, MakePool) || b == a.Go(lb, UpdateCheck)
      else b == a.Go(lb, CreateCheck)
    case CreateCheck =>
      exists hc :: Answers(a.w, b.w, r, a.w.CreateCheck(nodes, hc))
        && b == if r == Ok then a.(w := b.w).Go(lb, ReadBack) else a.(w := b.w).Leave(lb)
    case UpdateCheck =>
      exists hc :: Answers(a.w, b.w, r, a.w.UpdateCheck(nodes, hc))
        && b == if r == Ok then a.(w := b.w).Go(lb, ReadBack) else a.(w := b.w).Leave(lb)
    case ReadBack =>
      if r != Failed && nodes in a.w.checks then b == a.Go(lb, MakePool) else b == a.Leave(lb)
    case MakePool =>
      exists pool: TargetPool :: pool.checks == [nodes] && Answers(a.w, b.w, r, a.w.CreatePool(lb, pool))
        && b == a.(w := b.w).Leave(lb)
    case DropPool =>
      && Answers(a.w, b.w, r, a.w.DeletePool(lb))
      && b == a.(w := b.w).Go(lb, if r == Ok || r == NotFound then DeleteLock else Idle)
    case DeleteLock => (locking ==> a.lock == Free) && b == a.(lock := HeldBy(lb)).Go(lb, DropCheck)
    case DropCheck =>
      && Answers(a.w, b.w, r, a.w.DeleteCheck(nodes))
      && b == if r == Ok || r == NotFound then a.(w := b.w).Go(lb, DropFirewall) else a.(w := b.w).Leave(lb)
    case DropFirewall =>
      Answers(a.w, b.w, r, a.w.DeleteFirewall(fw)) && b == a.(w := b.w).Leave(lb)
    case RefreshGet =>
      if r != Failed && nodes in a.w.checks then b == a.Go(lb, Idle) || b == a.Go(lb, RefreshUpdate)
      else b == a.Go(lb, RefreshCreate)
    case RefreshCreate =>
      exists hc :: Answers(a.w, b.w, r, a.w.CreateCheck(nodes, hc)) && b == a.(w := b.w).Go(lb, Idle)
    case RefreshUpdate =>
      exists hc :: Answers(a.w, b.w, r, a.w.UpdateCheck(nodes, hc)) && b == a.(w := b.w).Go(lb, Idle)
  }

  ghost predicate Next(nodes: string, fw: string, a: State, b: State, locking: bool) {
    exists lb, r :: Step(nodes, fw, a, b, lb, r, locking)
  }

  ghost predicate UsesNodesCheck(nodes: string, s: World, pool: string) {
    pool in s.pools && nodes in s.pools[pool].checks
  }

  /** Every pool that refers to the nodes check has that check, and the check has its firewall. */
  ghost predicate Safe(nodes: string, fw: string, s: World) {
    forall p :: UsesNodesCheck(nodes, s, p) ==> nodes in s.checks && fw in s.firewalls
  }

  /** What is known at each point inside the locked section. */
  ghost predicate Assured(nodes: string, fw: string, s: World, p: Point) {
    && (p in {GetCheck, CreateCheck, UpdateCheck, ReadBack, MakePool} ==> fw in s.firewalls)
    && (p == MakePool ==> nodes in s.checks)
    && (p == DropFirewall ==> Unused(nodes, s))
  }

  ghost predicate Unused(nodes: string, s: World) {
    forall q :: !UsesNodesCheck(nodes, s, q)
  }

  ghost predicate Inv(nodes: string, fw: string, a: State) {
    && Safe(nodes, fw, a.w)
    && (forall lb :: Locked(a.At(lb)) <==> a.lock == HeldBy(lb))
    && (forall lb :: Assured(nodes, fw, a.w, a.At(lb)))
  }

  ghost predicate Initial(nodes: string, fw: string, a: State) {
    Safe(nodes, fw, a.w) && a.lock == Free && a.points == map[]
  }

  /** A step that takes nothing away from anybody: the usual case. */
  ghost predicate Gentle(nodes: string, fw: string, s: World, t: World) {
    && (fw in s.firewalls ==> fw in t.firewalls)
    && (nodes in s.checks ==> nodes in t.checks)
    && (forall q :: UsesNodesCheck(nodes, t, q) ==> UsesNodesCheck(nodes, s, q))
  }

  lemma GentleMoves(nodes: string, fw: string, a: State, b: State, lb: string, r: Response)
    requires Move(nodes, fw, a, b, lb, r, true) && a.At(lb) !in {MakePool, DropCheck, DropFirewall}
    ensures Gentle(nodes, fw, a.w, b.w)
  {
  }

  lemma GentleKeeps(nodes: string, fw: string, s: World, t: World, p: Point)
    requires Gentle(nodes, fw, s, t)
    ensures Assured(nodes, fw, s, p) ==> Assured(nodes, fw, t, p)
    ensures Safe(nodes, fw, s) ==> Safe(nodes, fw, t)
  {
  }

  /** A step keeps every pool's check and firewall: the service knows enough at its point. */
  lemma SafeStep(nodes: string, fw: string, a: State, b: State, lb: string, r: Response)
    requires Safe(nodes, fw, a.w) && Assured(nodes, fw, a.w, a.At(lb)) && Move(nodes, fw, a, b, lb, r, true)
    ensures Safe(nodes, fw, b.w)
  {
    match a.At(lb) {
      case MakePool => hide OwnStep;
      case DropCheck => CheckDropped(nodes, fw, a.w, b.w, r);
      case DropFirewall => UnusedIsSafe(nodes, fw, a.w, b.w, r);
      case _ =>
        hide Move, Gentle, Safe, Assured;
        GentleMoves(nodes, fw, a, b, lb, r);
        GentleKeeps(nodes, fw, a.w, b.w, a.At(lb));
    }
  }

  /** Only a check that no pool refers to is deleted. */
  lemma CheckDropped(nodes: string, fw: string, s: World, t: World, r: Response)
    requires Safe(nodes, fw, s) && Answers(s, t, r, s.DeleteCheck(nodes))
    ensures Safe(nodes, fw, t)
  {
    forall p | UsesNodesCheck(nodes, t, p)
      ensures nodes in t.checks && fw in t.firewalls
    {
      assert UsesNodesCheck(nodes, s, p);
      assert s.CheckInUse(nodes);
    }
  }

  lemma UnusedIsSafe(nodes: string, fw: string, s: World, t: World, r: Response)
    requires Unused(nodes, s) && Answers(s, t, r, s.DeleteFirewall(fw))
    ensures Safe(nodes, fw, t)
  {
    assert forall p :: UsesNodesCheck(nodes, t, p) ==> UsesNodesCheck(nodes, s, p);
  }

  /** What a move does to the lock and to the other services. */
  ghost predicate Orderly(a: State, b: State, lb: string) {
    && (forall other :: other != lb ==> b.At(other) == a.At(other))
    && (|| (b.lock == a.lock && (Locked(b.At(lb)) <==> Locked(a.At(lb))))
        || (a.lock == Free && b.lock == HeldBy(lb) && Locked(b.At(lb)))
        || (b.lock == Free && Locked(a.At(lb)) && !Locked(b.At(lb))))
  }

  lemma MovesInside(nodes: string, fw: string, a: State, b: State, lb: string, r: Response)
    requires Move(nodes, fw, a, b, lb, r, true) && Locked(a.At(lb))
    ensures Orderly(a, b, lb)
  {
    hide Answers, OwnStep;
  }

  lemma MovesOutside(nodes: string, fw: string, a: State, b: State, lb: string, r: Response)
    requires Move(nodes, fw, a, b, lb, r, true) && !Locked(a.At(lb))
    ensures Orderly(a, b, lb)
  {
    hide Answers, OwnStep;
  }

  /** A move is its own service's only: within or outside the locked section, into it when free, or out of it. */
  lemma Moves(nodes: string, fw: string, a: State, b: State, lb: string, r: Response)
    requires Move(nodes, fw, a, b, lb, r, true)
    ensures Orderly(a, b, lb)
  {
    hide Move, Orderly;
    if Locked(a.At(lb)) { MovesInside(nodes, fw, a, b, lb, r); } else { MovesOutside(nodes, fw, a, b, lb, r); }
  }

  /** The lock is held by whoever is inside the locked section, and by nobody else. */
  lemma LockKept(nodes: string, fw: string, a: State, b: State, lb: string, r: Response, other: string)
    requires Locked(a.At(lb)) <==> a.lock == HeldBy(lb)
    requires Locked(a.At(other)) <==> a.lock == HeldBy(other)
    requires Move(nodes, fw, a, b, lb, r, true)
    ensures Locked(b.At(other)) <==> b.lock == HeldBy(other)
  {
    hide Move, Locked;
    Moves(nodes, fw, a, b, lb, r);
  }

  /** The service that moves knows what its next point needs. */
  lemma OwnAssured(nodes: string, fw: string, a: State, b: State, lb: string, r: Response)
    requires Safe(nodes, fw, a.w) && Assured(nodes, fw, a.w, a.At(lb)) && Move(nodes, fw, a, b, lb, r, true)
    ensures Assured(nodes, fw, b.w, b.At(lb))
  {
    if a.At(lb) == DropCheck {
      NobodyUses(nodes, fw, a.w, b.w, r);
    } else if a.At(lb) in {GetCheck, CreateCheck, UpdateCheck, ReadBack} {
      AssuredOfCheck(nodes, fw, a, b, lb, r);
    } else {
      AssuredOfFirewall(nodes, fw, a, b, lb, r);
    }
  }

  /** With the firewall there, the pool is made only once the check is too. */
  lemma AssuredOfCheck(nodes: string, fw: string, a: State, b: State, lb: string, r: Response)
    requires a.At(lb) in {GetCheck, CreateCheck, UpdateCheck, ReadBack} && fw in a.w.firewalls
    requires Move(nodes, fw, a, b, lb, r, true)
    ensures Assured(nodes, fw, b.w, b.At(lb))
  {
    hide OwnStep, Unused;
  }

  lemma AssuredOfFirewall(nodes: string, fw: string, a: State, b: State, lb: string, r: Response)
    requires a.At(lb) !in {DropCheck, GetCheck, CreateCheck, UpdateCheck, ReadBack}
    requires Move(nodes, fw, a, b, lb, r, true)
    ensures Assured(nodes, fw, b.w, b.At(lb))
  {
    hide OwnStep, Unused;
  }

  /** Once the check was deleted or found missing, no pool uses it. */
  lemma NobodyUses(nodes: string, fw: string, s: World, t: World, r: Response)
    requires Safe(nodes, fw, s) && Answers(s, t, r, s.DeleteCheck(nodes))
    ensures r == Ok || r == NotFound ==> Unused(nodes, t)
  {
    forall q
      ensures r == Ok || r == NotFound ==> !UsesNodesCheck(nodes, t, q)
    {
      assert UsesNodesCheck(nodes, s, q) ==> s.CheckInUse(nodes);
    }
  }

  /** The lock keeps what every other service knows at its point. */
  lemma OthersAssured(nodes: string, fw: string, a: State, b: State, lb: string, r: Response, other: string)
    requires other != lb && Assured(nodes, fw, a.w, a.At(other))
    requires !(Locked(a.At(lb)) && Locked(a.At(other)))
    requires Move(nodes, fw, a, b, lb, r, true)
    ensures Assured(nodes, fw, b.w, b.At(other))
  {
    hide Move, Gentle, Unused;
    Moves(nodes, fw, a, b, lb, r);
    if Locked(a.At(other)) {
      GentleMoves(nodes, fw, a, b, lb, r);
      GentleKeeps(nodes, fw, a.w, b.w, a.At(other));
    }
  }

  /** A request on the side keeps it all. */
  lemma SideKept(nodes: string, fw: string, a: State, b: State)
    requires Inv(nodes, fw, a) && SideStep(nodes, fw, a.w, b.w) && b == a.(w := b.w)
    ensures Inv(nodes, fw, b)
  {
    hide Locked, Assured, Safe;
    SideGentle(nodes, fw, a.w, b.w);
    GentleKeeps(nodes, fw, a.w, b.w, Idle);
    forall lb
      ensures Assured(nodes, fw, b.w, b.At(lb))
    {
      assert Assured(nodes, fw, a.w, a.At(lb));
      GentleKeeps(nodes, fw, a.w, b.w, a.At(lb));
    }
    forall lb
      ensures Locked(b.At(lb)) <==> b.lock == HeldBy(lb)
    {
      assert Locked(a.At(lb)) <==> a.lock == HeldBy(lb);
    }
  }

  lemma SideGentle(nodes: string, fw: string, s: World, t: World)
    requires SideStep(nodes, fw, s, t)
    ensures Gentle(nodes, fw, s, t)
  {
  }

  lemma InvKept(nodes: string, fw: string, a: State, b: State)
    requires Inv(nodes, fw, a) && Next(nodes, fw, a, b, true)
    ensures Inv(nodes, fw, b)
  {
    var lb, r :| Step(nodes, fw, a, b, lb, r, true);
    hide Move, SideStep, Assured, Locked, Safe;
    if SideStep(nodes, fw, a.w, b.w) && b == a.(w := b.w) {
      SideKept(nodes, fw, a, b);
      return;
    }
    assert Assured(nodes, fw, a.w, a.At(lb));
    SafeStep(nodes, fw, a, b, lb, r);
    forall other
      ensures (Locked(b.At(other)) <==> b.lock == HeldBy(other)) && Assured(nodes, fw, b.w, b.At(other))
    {
      LockKept(nodes, fw, a, b, lb, r, other);
      if other == lb {
        OwnAssured(nodes, fw, a, b, lb, r);
      } else {
        OthersAssured(nodes, fw, a, b, lb, r, other);
      }
    }
  }

  /** A run of any number of services, from a state in which all are idle. */
  ghost predicate Behaviour(nodes: string, fw: string, run: seq<State>, locking: bool) {
    run != [] && Initial(nodes, fw, run[0]) && Linked(nodes, fw, run, locking)
  }

  ghost predicate Linked(nodes: string, fw: string, run: seq<State>, locking: bool) {
    forall i :: 0 < i < |run| ==> Next(nodes, fw, run[i - 1], run[i], locking)
  }

  /** At every step of every run, each pool that refers to the nodes check has that check and its firewall. */
  lemma {:induction false} AlwaysSafe(nodes: string, fw: string, run: seq<State>, i: nat)
    requires Behaviour(nodes, fw, run, true) && i < |run|
    ensures Inv(nodes, fw, run[i]) && Safe(nodes, fw, run[i].w)
  {
    if i > 0 {
      AlwaysSafe(nodes, fw, run, i - 1);
      InvKept(nodes, fw, run[i - 1], run[i]);
    } else {
      assert forall lb :: run[0].At(lb) == Idle;
    }
  }

  // ---- the teardown's requests are steps here ----

  /** Requests that do not concern the pool or the shared pair are made on the side. */
  lemma TeardownOnTheSide(clusterID: string, lb: string, hcNames: seq<string>, stage: ExternalLoadBalancer.Teardown,
                          s: World, t: World, r: Response)
    requires IsLoadBalancerName(lb) && !stage.DropPool? && !stage.Done?
    requires stage.DropCheck? || stage.DropCheckFirewall? ==> stage.k < |hcNames| && hcNames[stage.k] == lb
    requires Answers(s, t, r, ExternalLoadBalancer.TeardownPlan(s, clusterID, lb, hcNames, stage))
    ensures SideStep(NodesCheckName(clusterID), CheckFirewallName(clusterID, lb, true), s, t)
  {
    DistinctNames(lb, clusterID);
  }

  /** So are those of the other two goroutines of a delete run. */
  lemma DeletesOnTheSide(clusterID: string, lb: string, s: World, t: World, r: Response)
    requires IsLoadBalancerName(lb)
    requires Answers(s, t, r, s.DeleteFirewall(FirewallName(lb))) || Answers(s, t, r, s.DeleteAddress(lb))
    ensures SideStep(NodesCheckName(clusterID), CheckFirewallName(clusterID, lb, true), s, t)
  {
    DistinctNames(lb, clusterID);
  }

  /** The point at which a teardown that names the shared check makes its request. */
  function PointOf(stage: ExternalLoadBalancer.Teardown): Point {
    match stage
    case DropPool => DropPool
    case DropCheck(_) => DropCheck
    case DropCheckFirewall(_) => DropFirewall
    case _ => Idle
  }

  /** Where the answer leads: the stage that follows says whether the section is left. */
  function AfterStage(a: State, lb: string, next: ExternalLoadBalancer.Teardown,
                      stage: ExternalLoadBalancer.Teardown): State {
    if stage.DropPool? then a.Go(lb, if next.Done? && !next.ok then Idle else DeleteLock)
    else if next.DropCheckFirewall? then a.Go(lb, DropFirewall)
    else a.Leave(lb)
  }

  /** Requests on the pool and the shared pair are moves, and each answer leads where the teardown goes on. */
  lemma TeardownMoves(clusterID: string, lb: string, hcNames: seq<string>, stage: ExternalLoadBalancer.Teardown,
                      a: State, t: World, r: Response)
    requires stage.DropPool? || stage.DropCheck? || stage.DropCheckFirewall?
    requires stage.DropCheck? || stage.DropCheckFirewall? ==>
             stage.k + 1 == |hcNames| && hcNames[stage.k] == NodesCheckName(clusterID)
    requires lb != NodesCheckName(clusterID) && a.At(lb) == PointOf(stage)
    requires Answers(a.w, t, r, ExternalLoadBalancer.TeardownPlan(a.w, clusterID, lb, hcNames, stage))
    ensures var next := ExternalLoadBalancer.NextStage(stage, r, |hcNames|);
            Step(NodesCheckName(clusterID), CheckFirewallName(clusterID, lb, true), a,
              AfterStage(a.(w := t), lb, next, stage), lb, r, true)
  {
  }

  // ---- and so are the creation's ----

  /** The machine can go from `a` to `b`. */
  ghost predicate Reaches(nodes: string, fw: string, a: State, b: State) {
    exists run :: |run| > 0 && run[0] == a && run[|run| - 1] == b && Linked(nodes, fw, run, true)
  }

  lemma ReachesOne(nodes: string, fw: string, a: State, b: State, lb: string, r: Response)
    requires Move(nodes, fw, a, b, lb, r, true)
    ensures Reaches(nodes, fw, a, b)
  {
    hide Move;
    var run := [a, b];
    assert Step(nodes, fw, run[0], run[1], lb, r, true);
    assert Linked(nodes, fw, run, true);
  }

  lemma ReachesOn(nodes: string, fw: string, a: State, b: State, c: State)
    requires Reaches(nodes, fw, a, b) && Reaches(nodes, fw, b, c)
    ensures Reaches(nodes, fw, a, c)
  {
    hide Linked;
    var first :| |first| > 0 && first[0] == a && first[|first| - 1] == b && Linked(nodes, fw, first, true);
    var second :| |second| > 0 && second[0] == b && second[|second| - 1] == c && Linked(nodes, fw, second, true);
    LinkedJoin(nodes, fw, first, second, true);
    var run := first + second[1..];
    assert run[0] == a && run[|run| - 1] == c;
  }

  /** Where a service goes when a part of its section ended well or not. */
  ghost function GoneOn(a: State, t: World, lb: string, ok: bool, next: Point): State {
    if ok then a.(w := t).Go(lb, next) else a.(w := t).Leave(lb)
  }

  /** Ensuring the check's firewall is a way from reading the firewall to reading the check, or out. */
  lemma FirewallMoves(nodes: string, fw: string, a: State, t: World, lb: string, ok: bool)
    requires a.At(lb) == GetFirewall && HealthChecks.FirewallWritten(a.w, t, fw, ok)
    ensures Reaches(nodes, fw, a, GoneOn(a, t, lb, ok, GetCheck))
  {
    hide Reaches, OwnStep;
    var b := GoneOn(a, t, lb, ok, GetCheck);
    if t == a.w && (ok ==> fw in a.w.firewalls) {
      ReachesOne(nodes, fw, a, b, lb, if ok then Ok else Failed);
    } else {
      var rule, r :| Answers(a.w, t, r, HealthChecks.WritePlan(a.w, fw, rule)) && (ok <==> r == Ok || r == Conflict);
      var m := a.Go(lb, WriteFirewall(fw in a.w.firewalls));
      ReachesOne(nodes, fw, a, m, lb, Ok);
      assert b == GoneOn(m, t, lb, ok, GetCheck);
      ReachesOne(nodes, fw, m, b, lb, r);
      ReachesOn(nodes, fw, a, m, b);
    }
  }

  /** Ensuring the check is a way from reading it to making the pool, or out. */
  lemma CheckMoves(nodes: string, fw: string, a: State, t: World, lb: string, ok: bool)
    requires a.At(lb) == GetCheck && HealthChecks.CheckEnsured(a.w, t, nodes, ok)
    ensures Reaches(nodes, fw, a, GoneOn(a, t, lb, ok, MakePool))
  {
    hide Reaches, OwnStep, Move;
    if t == a.w && ok && nodes in a.w.checks {
      CheckFine(nodes, fw, a, lb);
    } else {
      var hc, r :|
        && (|| Answers(a.w, t, r, a.w.CreateCheck(nodes, hc))
            || (nodes in a.w.checks && Answers(a.w, t, r, a.w.UpdateCheck(nodes, hc))))
        && (ok ==> r == Ok && nodes in t.checks);
      CheckWritten(nodes, fw, a, t, lb, ok, hc, r);
    }
  }

  lemma CheckFine(nodes: string, fw: string, a: State, lb: string)
    requires a.At(lb) == GetCheck && nodes in a.w.checks
    ensures Reaches(nodes, fw, a, GoneOn(a, a.w, lb, true, MakePool))
  {
    hide Reaches, OwnStep;
    ReachesOne(nodes, fw, a, a.Go(lb, MakePool), lb, Ok);
  }

  /** Created or updated, then read back. A failed read of the check leads to creating it. */
  lemma CheckWritten(nodes: string, fw: string, a: State, t: World, lb: string, ok: bool, hc: HealthCheck, r: Response)
    requires a.At(lb) == GetCheck && (ok ==> r == Ok && nodes in t.checks)
    requires || Answers(a.w, t, r, a.w.CreateCheck(nodes, hc))
             || (nodes in a.w.checks && Answers(a.w, t, r, a.w.UpdateCheck(nodes, hc)))
    ensures Reaches(nodes, fw, a, GoneOn(a, t, lb, ok, MakePool))
  {
    hide Reaches, OwnStep;
    var creates := Answers(a.w, t, r, a.w.CreateCheck(nodes, hc));
    var m := a.Go(lb, if creates then CreateCheck else UpdateCheck);
    ReachesOne(nodes, fw, a, m, lb, if creates then Failed else Ok);
    var n := GoneOn(m, t, lb, r == Ok, ReadBack);
    ReachesOne(nodes, fw, m, n, lb, r);
    ReachesOn(nodes, fw, a, m, n);
    if r == Ok {
      GoneOnTwice(m, t, t, lb, ReadBack, ok, MakePool);
      PointForgotten(a, m.At(lb), t, lb, ok, MakePool);
      ReadBackMoves(nodes, fw, n, lb, ok);
      ReachesOn(nodes, fw, a, n, GoneOn(n, t, lb, ok, MakePool));
    } else {
      PointForgotten(a, m.At(lb), t, lb, false, ReadBack);
    }
  }

  lemma PointForgotten(a: State, p: Point, t: World, lb: string, ok: bool, next: Point)
    ensures GoneOn(a.Go(lb, p), t, lb, ok, next) == GoneOn(a, t, lb, ok, next)
  {
  }

  lemma ReadBackMoves(nodes: string, fw: string, a: State, lb: string, ok: bool)
    requires a.At(lb) == ReadBack && (ok ==> nodes in a.w.checks)
    ensures Reaches(nodes, fw, a, GoneOn(a, a.w, lb, ok, MakePool))
  {
    hide Reaches, OwnStep;
    ReachesOne(nodes, fw, a, GoneOn(a, a.w, lb, ok, MakePool), lb, if ok then Ok else Failed);
  }

  lemma PoolMoves(nodes: string, fw: string, a: State, t: World, lb: string)
    requires a.At(lb) == MakePool && ExternalLoadBalancer.PoolRequested(a.w, t, lb, nodes)
    ensures Reaches(nodes, fw, a, a.(w := t).Leave(lb))
  {
    hide Reaches, OwnStep;
    var pool: TargetPool, r :| pool.checks == [nodes] && Answers(a.w, t, r, a.w.CreatePool(lb, pool));
    ReachesOne(nodes, fw, a, a.(w := t).Leave(lb), lb, r);
  }

  /** Worlds and points set twice are as set last. */
  lemma GoneOnTwice(a: State, m: World, t: World, lb: string, p: Point, ok: bool, next: Point)
    ensures GoneOn(GoneOn(a, m, lb, true, p), t, lb, ok, next) == GoneOn(a, t, lb, ok, next)
    ensures GoneOn(a, m, lb, true, p).At(lb) == p && GoneOn(a, m, lb, true, p).w == m
  {
  }

  lemma CheckFails(nodes: string, fw: string, a: State, m: World, t: World, lb: string)
    requires a.At(lb) == GetFirewall
    requires HealthChecks.FirewallWritten(a.w, m, fw, true) && HealthChecks.CheckEnsured(m, t, nodes, false)
    ensures Reaches(nodes, fw, a, GoneOn(a, t, lb, false, Idle))
  {
    hide Reaches, GoneOn, HealthChecks.FirewallWritten, HealthChecks.CheckEnsured;
    var b := GoneOn(a, m, lb, true, GetCheck);
    GoneOnTwice(a, m, t, lb, GetCheck, false, MakePool);
    FirewallMoves(nodes, fw, a, m, lb, true);
    CheckMoves(nodes, fw, b, t, lb, false);
    ReachesOn(nodes, fw, a, b, GoneOn(a, t, lb, false, MakePool));
    LeftIsLeft(a, t, lb, MakePool);
  }

  lemma LeftIsLeft(a: State, t: World, lb: string, next: Point)
    ensures GoneOn(a, t, lb, false, next) == GoneOn(a, t, lb, false, Idle) == a.(w := t).Leave(lb)
  {
  }

  lemma PoolIsTried(nodes: string, fw: string, a: State, m: World, n: World, t: World, lb: string)
    requires a.At(lb) == GetFirewall
    requires HealthChecks.FirewallWritten(a.w, m, fw, true) && HealthChecks.CheckEnsured(m, n, nodes, true)
    requires ExternalLoadBalancer.PoolRequested(n, t, lb, nodes)
    ensures Reaches(nodes, fw, a, GoneOn(a, t, lb, false, Idle))
  {
    hide Reaches, GoneOn, HealthChecks.FirewallWritten, HealthChecks.CheckEnsured, ExternalLoadBalancer.PoolRequested;
    var b, d := GoneOn(a, m, lb, true, GetCheck), GoneOn(a, n, lb, true, MakePool);
    GoneOnTwice(a, m, n, lb, GetCheck, true, MakePool);
    GoneOnTwice(a, n, t, lb, MakePool, false, Idle);
    FirewallMoves(nodes, fw, a, m, lb, true);
    CheckMoves(nodes, fw, b, n, lb, true);
    PoolMoves(nodes, fw, d, t, lb);
    LeftIsLeft(d, t, lb, Idle);
    ReachesOn(nodes, fw, a, b, d);
    ReachesOn(nodes, fw, a, d, GoneOn(a, t, lb, false, Idle));
  }

  /** All that `CreatePoolAndCheck` does for the shared check is a way through the locked section. */
  lemma CreationMoves(nodes: string, fw: string, a: State, t: World, lb: string)
    requires a.At(lb) == GetFirewall && ExternalLoadBalancer.Creation(a.w, t, lb, nodes, fw)
    ensures Reaches(nodes, fw, a, a.(w := t).Leave(lb))
  {
    hide Reaches, GoneOn, HealthChecks.FirewallWritten, HealthChecks.CheckEnsured, ExternalLoadBalancer.PoolRequested;
    LeftIsLeft(a, t, lb, GetCheck);
    if HealthChecks.FirewallWritten(a.w, t, fw, false) {
      FirewallMoves(nodes, fw, a, t, lb, false);
    } else if m :| HealthChecks.FirewallWritten(a.w, m, fw, true) && HealthChecks.CheckEnsured(m, t, nodes, false) {
      CheckFails(nodes, fw, a, m, t, lb);
    } else {
      var m, n :|
        && HealthChecks.FirewallWritten(a.w, m, fw, true) && HealthChecks.CheckEnsured(m, n, nodes, true)
        && ExternalLoadBalancer.PoolRequested(n, t, lb, nodes);
      PoolIsTried(nodes, fw, a, m, n, t, lb);
    }
  }

  // ---- why the lock is needed ----

  /** A left-over firewall of the nodes check, and nothing else. */
  ghost function Leftover(fw: string, rule: Firewall): World {
    World(map[], map[], map[], map[], map[fw := rule])
  }

  lemma LinkedJoin(nodes: string, fw: string, a: seq<State>, b: seq<State>, locking: bool)
    requires a != [] && b != [] && a[|a| - 1] == b[0] && Linked(nodes, fw, a, locking) && Linked(nodes, fw, b, locking)
    ensures Linked(nodes, fw, a + b[1..], locking)
  {
    hide Next;
    var run := a + b[1..];
    forall i | 0 < i < |run|
      ensures Next(nodes, fw, run[i - 1], run[i], locking)
    {
      if i >= |a| {
        assert run[i] == b[i - |a| + 1] && run[i - 1] == b[i - |a|];
      }
    }
  }

  /** Service "a" finds neither pool nor check, and is about to delete the firewall. */
  lemma AboutToDelete(nodes: string, fw: string, rule: Firewall) returns (run: seq<State>)
    ensures |run| == 5 && run[0] == State(Leftover(fw, rule), Free, map[])
    ensures run[4] == State(Leftover(fw, rule), HeldBy("a"), map["a" := DropFirewall])
    ensures Linked(nodes, fw, run, false)
  {
    hide SideStep, OwnStep;
    var s0 := State(Leftover(fw, rule), Free, map[]);
    var s1 := s0.Go("a", DropPool);
    var s2 := s1.Go("a", DeleteLock);
    var s3 := s2.(lock := HeldBy("a")).Go("a", DropCheck);
    var s4 := s3.Go("a", DropFirewall);
    run := [s0, s1, s2, s3, s4];
    assert Move(nodes, fw, s0, s1, "a", Ok, false);
    assert Move(nodes, fw, s1, s2, "a", NotFound, false);
    assert Move(nodes, fw, s2, s3, "a", Ok, false);
    assert Move(nodes, fw, s3, s4, "a", NotFound, false);
    assert s4.points == map["a" := DropFirewall];
    assert forall i :: 0 < i < 5 ==>
           Step(nodes, fw, run[i - 1], run[i], "a", if i == 2 || i == 4 then NotFound else Ok, false);
  }

  /** Service "b" enters all the same, and finds the firewall in place. */
  lemma EntersAsWell(nodes: string, fw: string, rule: Firewall) returns (run: seq<State>)
    ensures |run| == 4 && run[0] == State(Leftover(fw, rule), HeldBy("a"), map["a" := DropFirewall])
    ensures run[3] == State(Leftover(fw, rule), HeldBy("b"), map["a" := DropFirewall, "b" := GetCheck])
    ensures Linked(nodes, fw, run, false)
  {
    hide SideStep, OwnStep;
    var s0 := State(Leftover(fw, rule), HeldBy("a"), map["a" := DropFirewall]);
    var s1 := s0.Go("b", CreateLock);
    var s2 := s1.(lock := HeldBy("b")).Go("b", GetFirewall);
    var s3 := s2.Go("b", GetCheck);
    run := [s0, s1, s2, s3];
    assert Move(nodes, fw, s0, s1, "b", Ok, false);
    assert Move(nodes, fw, s1, s2, "b", Ok, false);
    assert Move(nodes, fw, s2, s3, "b", Ok, false);
    assert s3.points == map["a" := DropFirewall, "b" := GetCheck];
    assert forall i :: 0 < i < 4 ==> Step(nodes, fw, run[i - 1], run[i], "b", Ok, false);
  }

  /** "b" creates the check. */
  lemma CreatesCheck(nodes: string, fw: string, rule: Firewall, hc: HealthCheck) returns (run: seq<State>)
    ensures |run| == 4 && run[0] == State(Leftover(fw, rule), HeldBy("b"), map["a" := DropFirewall, "b" := GetCheck])
    ensures run[3] == State(Leftover(fw, rule).(checks := map[nodes := hc]), HeldBy("b"),
            map["a" := DropFirewall, "b" := MakePool])
    ensures Linked(nodes, fw, run, false)
  {
    hide SideStep, OwnStep;
    var s0 := State(Leftover(fw, rule), HeldBy("b"), map["a" := DropFirewall, "b" := GetCheck]);
    var s1 := s0.Go("b", CreateCheck);
    var s2 := s1.(w := s1.w.CreateCheck(nodes, hc).effect).Go("b", ReadBack);
    var s3 := s2.Go("b", MakePool);
    run := [s0, s1, s2, s3];
    assert Move(nodes, fw, s0, s1, "b", Ok, false);
    assert Move(nodes, fw, s1, s2, "b", Ok, false);
    assert Move(nodes, fw, s2, s3, "b", Ok, false);
    assert s3.points == map["a" := DropFirewall, "b" := MakePool] && s3.w.checks == map[nodes := hc];
    assert forall i :: 0 < i < 4 ==> Step(nodes, fw, run[i - 1], run[i], "b", Ok, false);
  }

  /** "b" creates the pool; then "a" deletes the firewall. */
  lemma PulledAway(nodes: string, fw: string, rule: Firewall, hc: HealthCheck) returns (run: seq<State>)
    ensures |run| == 3
    ensures run[0] == State(Leftover(fw, rule).(checks := map[nodes := hc]), HeldBy("b"),
            map["a" := DropFirewall, "b" := MakePool])
    ensures Linked(nodes, fw, run, false) && !Safe(nodes, fw, run[2].w)
  {
    hide SideStep, OwnStep;
    var pool := TargetPool([], "NONE", [nodes]);
    var s0 := State(Leftover(fw, rule).(checks := map[nodes := hc]), HeldBy("b"),
      map["a" := DropFirewall, "b" := MakePool]);
    var s1 := s0.(w := s0.w.CreatePool("b", pool).effect).Leave("b");
    var s2 := s1.(w := s1.w.DeleteFirewall(fw).effect).Leave("a");
    run := [s0, s1, s2];
    assert Move(nodes, fw, s0, s1, "b", Ok, false) by {
      assert pool.checks == [nodes] && Answers(s0.w, s1.w, Ok, s0.w.CreatePool("b", pool));
    }
    assert Move(nodes, fw, s1, s2, "a", Ok, false);
    assert Step(nodes, fw, run[0], run[1], "b", Ok, false) && Step(nodes, fw, run[1], run[2], "a", Ok, false);
    assert UsesNodesCheck(nodes, s2.w, "b");
  }

  /** Without the lock there is a run, from a state in which all are idle, to a pool whose check has no firewall. */
  lemma LockIsNeeded(nodes: string, fw: string, rule: Firewall, hc: HealthCheck) returns (run: seq<State>)
    ensures Behaviour(nodes, fw, run, false) && !Safe(nodes, fw, run[|run| - 1].w)
  {
    hide Linked;
    var a := AboutToDelete(nodes, fw, rule);
    var b := EntersAsWell(nodes, fw, rule);
    var c := CreatesCheck(nodes, fw, rule, hc);
    var d := PulledAway(nodes, fw, rule, hc);
    LinkedJoin(nodes, fw, a, b, false);
    LinkedJoin(nodes, fw, a + b[1..], c, false);
    LinkedJoin(nodes, fw, a + b[1..] + c[1..], d, false);
    run := a + b[1..] + c[1..] + d[1..];
    assert run[0] == a[0];
  }
}
