/** The rate-limited sync of a node's service accounts to its receiver. */
module NodeSyncer {
  import opened Options
  import opened Sorting
  import opened Text

  const SECOND := 1_000_000_000
  const RESYNC_PERIOD := 30 * 60 * SECOND
  const MIN_GAP := 10 * SECOND

  /** A list the receiver accepted and when, and when the sender noted that. */
  datatype Sent = Sent(time: int, gsas: seq<string>, noted: int)

  ghost predicate Spaced(sent: seq<Sent>) {
    forall i, j :: 0 <= i < j < |sent| ==> sent[i].time + MIN_GAP <= sent[j].time
  }

  lemma SpacedAppend(sent: seq<Sent>, s: Sent)
    requires Spaced(sent) && (sent != [] ==> sent[|sent| - 1].time + MIN_GAP <= s.time)
    ensures Spaced(sent + [s])
  {
  }

  /** The list accepted last is `gsas`, sorted. */
  ghost predicate UpToDate(sent: seq<Sent>, gsas: seq<string>) {
    sent != [] && sent[|sent| - 1].gsas == Sort(gsas, StringLeq)
  }

  /** The clock at the three places it is read in one call. */
  datatype Clock = Clock(atCompare: int, atLimit: int, afterSend: int)

  predicate Monotone(clock: Clock) {
    clock.atCompare <= clock.atLimit <= clock.afterSend
  }

  /** The send accepted last was noted less than the resync period before the call. */
  ghost predicate Recent(sent: seq<Sent>, clock: Clock) {
    sent != [] && clock.atCompare - sent[|sent| - 1].noted < RESYNC_PERIOD
  }

  datatype Call = Call(clock: Clock, gsas: seq<string>, fails: bool)

  class NodeGSAs {
    var lastGSAs: seq<string>
    /** The zero time, longer ago than any period, is `None`. */
    var lastSent: Option<int>
    /** What the receiver accepted so far, and the last clock reading. */
    ghost var accepted: seq<Sent>
    ghost var now: int

    constructor (ghost start: int)
      ensures Valid() && accepted == [] && now == start
    {
      lastGSAs, lastSent := [], None;
      accepted, now := [], start;
    }

    /** The entry knows the list accepted last, and a time no earlier than its acceptance. */
    ghost predicate Valid()
      reads this
    {
      && Spaced(accepted)
      && (accepted == [] <==> lastSent.None?)
      && (accepted != [] ==>
            && lastGSAs == accepted[|accepted| - 1].gsas
            && accepted[|accepted| - 1].time <= lastSent.value <= now
            && lastSent.value == accepted[|accepted| - 1].noted)
    }

    predicate Within(time: int, period: int)
      reads this
    {
      lastSent.Some? && time - lastSent.value < period
    }

    /** One call; `fails` tells that a send would fail, which leaves the receiver as it was. */
    method Sync(clock: Clock, gsas: seq<string>, fails: bool) returns (ok: bool)
      requires Valid() && Monotone(clock) && now <= clock.atCompare
      modifies this
      ensures Valid() && now == clock.afterSend
      ensures old(accepted) <= accepted && |accepted| <= |old(accepted)| + 1
      ensures ok ==> UpToDate(accepted, gsas)
      ensures !ok ==> accepted == old(accepted) && (fails || old(Within(clock.atLimit, MIN_GAP)))
      ensures old(UpToDate(accepted, gsas) && Within(clock.atCompare, RESYNC_PERIOD)) ==>
              ok && accepted == old(accepted)
      ensures ok && !old(UpToDate(accepted, gsas) && Within(clock.atCompare, RESYNC_PERIOD)) ==>
              |accepted| == |old(accepted)| + 1 && accepted[|accepted| - 1].noted == clock.afterSend
      ensures ok ==> Recent(accepted, clock)
    {
      hide Spaced, Sort;
      now := clock.afterSend;
      var current := Sort(gsas, StringLeq);
      if lastGSAs == current && Within(clock.atCompare, RESYNC_PERIOD) { return true; }
      if Within(clock.atLimit, MIN_GAP) { return false; }
      if fails { return false; }
      ghost var time: int := *;
      if time < clock.atLimit || time > clock.afterSend { time := clock.afterSend; }
      SpacedAppend(accepted, Sent(time, current, clock.afterSend));
      accepted := accepted + [Sent(time, current, clock.afterSend)];
      lastGSAs := current;
      lastSent := Some(clock.afterSend);
      return true;
    }

    /** Any run of calls: accepted sends are spaced, and a call that returned without error left its list in place. */
    method SyncAll(calls: seq<Call>) returns (oks: seq<bool>, ghost after: seq<seq<Sent>>)
      requires Valid()
      requires forall i :: 0 <= i < |calls| ==> Monotone(calls[i].clock)
      requires calls != [] ==> now <= calls[0].clock.atCompare
      requires forall i :: 0 < i < |calls| ==> calls[i - 1].clock.afterSend <= calls[i].clock.atCompare
      modifies this
      ensures Valid() && old(accepted) <= accepted && Spaced(accepted)
      ensures |oks| == |after| == |calls|
      ensures forall i :: 0 <= i < |calls| && oks[i] ==> UpToDate(after[i], calls[i].gsas)
      ensures forall i :: 0 <= i < |calls| && oks[i] ==> Recent(after[i], calls[i].clock)
      ensures forall i :: 0 <= i < |calls| ==> after[i] <= accepted
    {
      hide UpToDate, Spaced, Monotone, Recent;
      oks, after := [], [];
      for i := 0 to |calls|
        invariant Valid() && old(accepted) <= accepted
        invariant i < |calls| ==> now <= calls[i].clock.atCompare
        invariant |oks| == |after| == i
        invariant forall j :: 0 <= j < i && oks[j] ==> UpToDate(after[j], calls[j].gsas)
        invariant forall j :: 0 <= j < i && oks[j] ==> Recent(after[j], calls[j].clock)
        invariant forall j :: 0 <= j < i ==> after[j] <= accepted
      {
        var ok := Sync(calls[i].clock, calls[i].gsas, calls[i].fails);
        oks, after := oks + [ok], after + [accepted];
      }
    }
  }

  /** The service account of each pod: an error, none, or an e-mail address. */
  datatype Verified = Failed | NoAccount | Account(gsa: string)

  ghost predicate Lists(pods: seq<Verified>, gsas: seq<string>) {
    && Distinct(gsas)
    && forall g :: g in gsas <==> Account(g) in pods
  }

  /** The accounts of the pods that could be verified, each once. */
  method CurrentGSAs(pods: seq<Verified>) returns (gsas: seq<string>)
    ensures Lists(pods, gsas)
  {
    gsas := [];
    for i := 0 to |pods|
      invariant Lists(pods[..i], gsas)
    {
      assert pods[..i + 1] == pods[..i] + [pods[i]];
      if pods[i].Account? && pods[i].gsa !in gsas {
        gsas := gsas + [pods[i].gsa];
      }
    }
    assert pods[..|pods|] == pods;
  }

  ghost predicate HasAccount(pods: seq<Verified>) {
    exists g :: Account(g) in pods
  }

  /**
   * Processing a node. Nothing is sent for a node without accounts, so success leaves the receiver with the
   * node's accounts exactly when there is one, or when the receiver had the empty list before.
   */
  method Process(entry: NodeGSAs, clock: Clock, pods: seq<Verified>, fails: bool) returns (ok: bool, gsas: seq<string>)
    requires entry.Valid() && Monotone(clock) && entry.now <= clock.atCompare
    modifies entry
    ensures entry.Valid() && Lists(pods, gsas)
    ensures gsas == [] <==> !HasAccount(pods)
    ensures !HasAccount(pods) ==> ok && entry.accepted == old(entry.accepted)
    ensures ok ==> (UpToDate(entry.accepted, gsas) <==> HasAccount(pods) || old(UpToDate(entry.accepted, [])))
    ensures !ok ==> entry.accepted == old(entry.accepted) && (fails || old(entry.Within(clock.atLimit, MIN_GAP)))
  {
    gsas := CurrentGSAs(pods);
    assert gsas != [] ==> gsas[0] in gsas;
    if gsas == [] { return true, gsas; }
    ok := entry.Sync(clock, gsas, fails);
  }

  /** A node loses its last account: processing succeeds, and the receiver keeps the account for good. */
  method EmptiedNode(gsa: string, start: int, clock: Clock) returns (sent: bool, ok: bool, ghost accepted: seq<Sent>)
    requires Monotone(clock) && start <= clock.atCompare
    ensures sent && ok && UpToDate(accepted, [gsa]) && !UpToDate(accepted, [])
  {
    var entry := new NodeGSAs(start);
    sent := entry.Sync(clock, [gsa], false);
    var later := Clock(clock.afterSend, clock.afterSend, clock.afterSend);
    var gsas;
    ok, gsas := Process(entry, later, [], false);
    accepted := entry.accepted;
  }

  /** The order in which the accounts were collected does not matter: the same pods give the same list. */
  lemma SameListSent(pods: seq<Verified>, a: seq<string>, b: seq<string>)
    requires Lists(pods, a) && Lists(pods, b)
    ensures Sort(a, StringLeq) == Sort(b, StringLeq)
  {
    hide StringLeq, Sort;
    StringOrder();
    SortSorted(a, StringLeq);
    SortSorted(b, StringLeq);
    SortDistinct(a, StringLeq);
    SortDistinct(b, StringLeq);
    SortMembers(a, StringLeq);
    SortMembers(b, StringLeq);
    forall g ensures g in a <==> g in b {}
    OneOrder(Sort(a, StringLeq), Sort(b, StringLeq), StringLeq);
  }
}
