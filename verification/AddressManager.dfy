/** Holding an IP for a load balancer while it is reconciled, and giving it back. */
module AddressManagers {
  import opened CloudModel

  /** Some address reserves `ip` with the given scheme. */
  ghost predicate Holds(s: World, ip: string, scheme: Scheme) {
    exists n :: n in s.addresses && s.addresses[n].ip == ip && s.addresses[n].scheme == scheme
  }

  /** Of the whole world only the address named `name` may differ. */
  ghost predicate OnlyAddress(s: World, t: World, name: string) {
    t == s.(addresses := t.addresses) && AgreeBut(s.addresses, t.addresses, {name})
  }

  ghost predicate AddressPhase(s: World, trace: seq<World>, from: nat, name: string) {
    forall i :: from <= i < |trace| ==> OnlyAddress(s, trace[i], name)
  }

  class AddressManager {
    const name: string
    const targetIP: string
    const scheme: Scheme
    /** Cleared when the IP turns out to be reserved by the user. */
    var tryRelease: bool

    constructor (name: string, targetIP: string, scheme: Scheme)
      ensures this.name == name && this.targetIP == targetIP && this.scheme == scheme && tryRelease
    {
      this.name, this.targetIP, this.scheme := name, targetIP, scheme;
      tryRelease := true;
    }

    /** The address has the manager's scheme and, if one is wanted, the IP. */
    predicate Fits(a: Address) {
      (targetIP == "" || targetIP == a.ip) && a.scheme == scheme
    }

    /**
     * After a hold, the manager's own address reserves the IP, or there is none and the user's does;
     * `tryRelease` tells the two apart.
     */
    ghost predicate Held(s: World, ip: string)
      reads this
    {
      && (targetIP != "" ==> ip == targetIP)
      && Holds(s, ip, scheme)
      && (if tryRelease then name in s.addresses && s.addresses[name].ip == ip else name !in s.addresses)
    }

    /** Nobody else reserves the wanted IP for another scheme. */
    ghost predicate Holdable(s: World) {
      targetIP != "" ==> forall n :: n in s.addresses && n != name && s.addresses[n].ip == targetIP ==>
        s.addresses[n].scheme == scheme
    }

    method HoldAddress(c: Cloud) returns (ok: bool, ip: string)
      requires c.Valid() && tryRelease
      modifies c, this`tryRelease
      ensures c.Valid() && old(c.trace) <= c.trace
      ensures AddressPhase(old(c.w), c.trace, |old(c.trace)|, name) && OnlyAddress(old(c.w), c.w, name)
      ensures ok ==> Held(c.w, ip)
      ensures c.reliable && old(Holdable(c.w)) ==> ok
      ensures ok && old(UniqueIPs(c.w)) ==> old(Holdable(c.w))
      ensures old(name in c.w.addresses && Fits(c.w.addresses[name])) ==>
              c.trace == old(c.trace) && c.w == old(c.w) && tryRelease && (ok ==> ip == old(c.w).addresses[name].ip)
    {
      ok, ip := false, "";
      var addr := c.Get(c.w.addresses, name);
      if addr.Unavailable? { return; }
      if addr.Found? {
        if Fits(addr.value) { return true, addr.value.ip; }
        var r := c.Request(c.w.DeleteAddress(name));
        if r != Ok && r != NotFound { return; }
      }
      ok, ip := EnsureAddressReservation(c);
    }

    method EnsureAddressReservation(c: Cloud) returns (ok: bool, ip: string)
      requires c.Valid() && tryRelease && name !in c.w.addresses
      modifies c, this`tryRelease
      ensures c.Valid() && old(c.trace) <= c.trace
      ensures AddressPhase(old(c.w), c.trace, |old(c.trace)|, name) && OnlyAddress(old(c.w), c.w, name)
      ensures ok ==> Held(c.w, ip)
      ensures c.reliable && old(Holdable(c.w)) ==> ok
      ensures ok && old(UniqueIPs(c.w)) ==> old(Holdable(c.w))
    {
      ok, ip := false, "";
      var r := c.ReserveAddress(name, targetIP, Premium, scheme);
      ghost var chosen :| chosen != "" && (targetIP != "" ==> chosen == targetIP)
        && Answers(old(c.w), c.w, r, old(c.w).ReserveAddress(name, Address(chosen, Premium, scheme)));
      Reserved(old(c.w), c.w, r, Address(chosen, Premium, scheme));
      hide Answers;
      if r == Ok {
        if targetIP != "" { return true, targetIP; }
        var addr := c.Get(c.w.addresses, name);
        if addr.Found? { ok, ip := true, addr.value.ip; }
        return;
      }
      if r != Conflict && r != BadRequest { return; }
      ok := Adopt(c);
      ip := targetIP;
    }

    lemma Reserved(s: World, t: World, r: Response, a: Address)
      requires Answers(s, t, r, s.ReserveAddress(name, a))
      ensures OnlyAddress(s, t, name)
      ensures r == Ok ==> name in t.addresses && t.addresses[name] == a && Holds(t, a.ip, a.scheme)
      ensures r == Ok ==> !s.Reserved(a.ip)
      ensures r == Conflict || r == BadRequest ==> t == s
      ensures r == Conflict ==> name in s.addresses
      ensures r == BadRequest ==> s.Reserved(a.ip)
    {
      if r == Ok {
        assert name in t.addresses && t.addresses[name] == a;
      }
    }

    /** The IP is taken: use the address that reserves it, if it fits. */
    method Adopt(c: Cloud) returns (ok: bool)
      requires tryRelease && name !in c.w.addresses
      modifies this`tryRelease
      ensures ok ==> targetIP != "" && Held(c.w, targetIP)
      ensures c.reliable && targetIP != "" && c.w.Reserved(targetIP) && Holdable(c.w) ==> ok
      ensures ok && UniqueIPs(c.w) ==> Holdable(c.w)
    {
      if targetIP == "" { return false; }
      var owner := c.GetAddressByIP(targetIP);
      if !owner.Found? || !Fits(c.w.addresses[owner.value]) { return false; }
      if owner.value != name {
        tryRelease := false;
      }
      ok := true;
    }

    method ReleaseAddress(c: Cloud) returns (ok: bool)
      requires c.Valid()
      modifies c
      ensures c.Valid() && old(c.trace) <= c.trace
      ensures AddressPhase(old(c.w), c.trace, |old(c.trace)|, name) && OnlyAddress(old(c.w), c.w, name)
      ensures ok && tryRelease ==> c.w == old(c.w).(addresses := old(c.w).addresses - {name})
      ensures !tryRelease ==> ok && c.w == old(c.w)
      ensures c.reliable ==> ok
    {
      if !tryRelease { return true; }
      var r := c.Request(c.w.DeleteAddress(name));
      ok := r == Ok || r == NotFound;
    }
  }

  /** Hold, then release: whichever way the IP was held, the manager's own name is gone and nothing else changed. */
  method HoldThenRelease(c: Cloud, name: string, targetIP: string, scheme: Scheme)
      returns (held: bool, ip: string, released: bool)
    requires c.Valid()
    modifies c
    ensures c.Valid() && old(c.trace) <= c.trace
    ensures held && released ==> c.w == old(c.w).(addresses := old(c.w).addresses - {name})
    ensures held && targetIP != "" ==> ip == targetIP
    ensures c.reliable && held ==> released
  {
    var m := new AddressManager(name, targetIP, scheme);
    released := false;
    held, ip := m.HoldAddress(c);
    if !held { return; }
    released := m.ReleaseAddress(c);
    if released {
      assert c.w.addresses == old(c.w).addresses - {name};
    }
  }
}
