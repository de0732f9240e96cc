/** CIDR ranges over address bytes, most significant first (section 3.1 of RFC 4632). */
module Cidr {
  import opened Options

  type Address = seq<bv8>

  /** An address and a mask of the same length; the address may have host bits set. */
  datatype Net = Net(ip: Address, mask: seq<bv8>) {
    predicate Valid() { |ip| == |mask| }
  }

  /** One byte of an address agrees with the network's under the mask. */
  predicate Matches(ip: bv8, mask: bv8, x: bv8) { ip & mask == x & mask }

  /** A byte with all its host bits cleared, or set. */
  function Low(ip: bv8, mask: bv8): bv8 { ip & mask }
  function High(ip: bv8, mask: bv8): bv8 { ip | !mask }

  /** No bit under the mask differs. */
  lemma MatchesBits(ip: bv8, mask: bv8, x: bv8)
    ensures Matches(ip, mask, x) <==> (ip ^ x) & mask == 0
  {
  }

  /** `IPNet.Contains`: same length, and the masked bytes agree. */
  predicate Contains(n: Net, a: Address)
    requires n.Valid()
  {
    |a| == |n.ip| && forall i :: 0 <= i < |a| ==> Matches(n.ip[i], n.mask[i], a[i])
  }

  function FirstIP(n: Net): Address
    requires n.Valid()
  {
    seq(|n.ip|, i requires 0 <= i < |n.ip| => Low(n.ip[i], n.mask[i]))
  }

  function LastIP(n: Net): Address
    requires n.Valid()
  {
    seq(|n.ip|, i requires 0 <= i < |n.ip| => High(n.ip[i], n.mask[i]))
  }

  /** Sets every host bit of a copy of the address, in place. */
  method LastIPInRange(n: Net) returns (ip: array<bv8>)
    requires n.Valid()
    ensures fresh(ip) && ip[..] == LastIP(n)
  {
    ip := new bv8[|n.ip|](i requires 0 <= i < |n.ip| => n.ip[i]);
    for i := 0 to |n.mask|
      invariant forall j :: 0 <= j < i ==> ip[j] == n.ip[j] | !n.mask[j]
      invariant forall j :: i <= j < |n.ip| ==> ip[j] == n.ip[j]
    {
      ip[i] := ip[i] | !n.mask[i];
    }
  }

  /** The decision by the two end addresses alone. */
  predicate ContainsCIDR(outer: Net, inner: Net)
    requires outer.Valid() && inner.Valid()
  {
    Contains(outer, FirstIP(inner)) && Contains(outer, LastIP(inner))
  }

  /** Every address of the inner range lies in the outer one. */
  ghost predicate IsSubrange(outer: Net, inner: Net)
    requires outer.Valid() && inner.Valid()
  {
    forall a :: Contains(inner, a) ==> Contains(outer, a)
  }

  lemma EndBytes(ip: bv8, mask: bv8)
    ensures Matches(ip, mask, Low(ip, mask)) && Matches(ip, mask, High(ip, mask))
  {
  }

  /** The two ends differ in every host bit, so agreeing with both pins the outer mask inside the inner one. */
  lemma BytesBetween(inner: bv8, innerMask: bv8, outer: bv8, outerMask: bv8, x: bv8)
    requires Matches(outer, outerMask, Low(inner, innerMask)) && Matches(outer, outerMask, High(inner, innerMask))
    requires Matches(inner, innerMask, x)
    ensures Matches(outer, outerMask, x)
  {
  }

  lemma EndsBelong(n: Net)
    requires n.Valid()
    ensures Contains(n, FirstIP(n)) && Contains(n, LastIP(n))
  {
    hide Matches, Low, High;
    forall i | 0 <= i < |n.ip|
      ensures Matches(n.ip[i], n.mask[i], FirstIP(n)[i]) && Matches(n.ip[i], n.mask[i], LastIP(n)[i])
    {
      EndBytes(n.ip[i], n.mask[i]);
    }
  }

  lemma ByteExtremes(ip: bv8, mask: bv8, x: bv8)
    requires Matches(ip, mask, x)
    ensures Low(ip, mask) <= x <= High(ip, mask)
  {
  }

  /** The first and last address are the least and the greatest of the range, byte by byte. */
  lemma EndsAreExtreme(n: Net, a: Address)
    requires n.Valid() && Contains(n, a)
    ensures |FirstIP(n)| == |LastIP(n)| == |a|
    ensures forall i :: 0 <= i < |a| ==> FirstIP(n)[i] <= a[i] <= LastIP(n)[i]
  {
    hide Matches, Low, High;
    forall i | 0 <= i < |a|
      ensures FirstIP(n)[i] <= a[i] <= LastIP(n)[i]
    {
      ByteExtremes(n.ip[i], n.mask[i], a[i]);
    }
  }

  /** The two end addresses decide containment, for every mask and with host bits set or not. */
  lemma EndsDecide(outer: Net, inner: Net)
    requires outer.Valid() && inner.Valid()
    ensures ContainsCIDR(outer, inner) <==> IsSubrange(outer, inner)
  {
    hide Matches, Low, High;
    EndsBelong(inner);
    if ContainsCIDR(outer, inner) {
      forall a | Contains(inner, a)
        ensures Contains(outer, a)
      {
        forall i | 0 <= i < |a|
          ensures Matches(outer.ip[i], outer.mask[i], a[i])
        {
          assert FirstIP(inner)[i] == Low(inner.ip[i], inner.mask[i]) &&
                 LastIP(inner)[i] == High(inner.ip[i], inner.mask[i]);
          BytesBetween(inner.ip[i], inner.mask[i], outer.ip[i], outer.mask[i], a[i]);
        }
      }
    }
  }

  /** A subnet's name and its range, if that parses. */
  datatype Subnet = Subnet(name: string, range: Option<Net>)

  /** The subnets inside `cidr`, in order; one that does not parse spoils the whole answer. */
  function SubnetsIn(subnets: seq<Subnet>, cidr: Net): seq<Subnet>
    requires cidr.Valid() && forall s :: s in subnets ==> s.range.Some? && s.range.value.Valid()
  {
    if subnets == [] then []
    else
      var n := |subnets| - 1;
      SubnetsIn(subnets[..n], cidr) + if ContainsCIDR(cidr, subnets[n].range.value) then [subnets[n]] else []
  }

  method SubnetsInCIDR(subnets: seq<Subnet>, cidr: Net) returns (r: Option<seq<Subnet>>)
    requires cidr.Valid() && forall s :: s in subnets && s.range.Some? ==> s.range.value.Valid()
    ensures r.None? <==> exists s :: s in subnets && s.range.None?
    ensures r.Some? ==> r.value == SubnetsIn(subnets, cidr)
    ensures r.Some? ==> forall s :: s in r.value <==> s in subnets && IsSubrange(cidr, s.range.value)
  {
    var res: seq<Subnet> := [];
    for i := 0 to |subnets|
      invariant forall s :: s in subnets[..i] ==> s.range.Some?
      invariant res == SubnetsIn(subnets[..i], cidr)
      invariant forall s :: s in res <==> s in subnets[..i] && IsSubrange(cidr, s.range.value)
    {
      assert subnets[i] in subnets;
      if subnets[i].range.None? { return None; }
      assert subnets[..i + 1][..i] == subnets[..i];
      assert subnets[..i + 1] == subnets[..i] + [subnets[i]];
      EndsDecide(cidr, subnets[i].range.value);
      if ContainsCIDR(cidr, subnets[i].range.value) {
        res := res + [subnets[i]];
      }
    }
    assert subnets[..|subnets|] == subnets;
    return Some(res);
  }
}
