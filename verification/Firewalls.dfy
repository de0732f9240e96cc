/** Building a service's firewall rule, and deciding whether an existing one is up to date. */
module Firewalls {
  import opened Sorting
  import opened Text
  import opened PortRanges

  datatype Protocol = TCP | UDP | SCTP {
    function Name(): string {
      match this case TCP => "TCP" case UDP => "UDP" case SCTP => "SCTP"
    }
    function LowerName(): string {
      match this case TCP => "tcp" case UDP => "udp" case SCTP => "sctp"
    }
  }

  datatype ServicePort = ServicePort(protocol: Protocol, port: int)

  datatype Allowed = Allowed(protocol: string, ports: seq<string>)

  /** A source range as the cloud stores it: canonical CIDR text, or text that does not parse. */
  datatype RangeText = Cidr(net: string) | Malformed(text: string)

  datatype Firewall = Firewall(
    description: string,
    sourceRanges: set<RangeText>,
    targetTags: seq<string>,
    allowed: seq<Allowed>,
    destinationRanges: seq<string>)

  function PortNumbers(ports: seq<ServicePort>): seq<int> {
    seq(|ports|, i requires 0 <= i < |ports| => ports[i].port)
  }

  function PortTexts(ports: seq<ServicePort>): seq<string> {
    seq(|ports|, i requires 0 <= i < |ports| => Itoa(ports[i].port))
  }

  function PortRangeTexts(ports: seq<ServicePort>): seq<string> {
    FormatAll(Ranges(PortNumbers(ports)))
  }

  /** Equal lengths and equal sets of elements. */
  predicate EqualStringSets(x: seq<string>, y: seq<string>) {
    |x| == |y| && (set s | s in x) == (set s | s in y)
  }

  lemma SameMembers(x: seq<string>, y: seq<string>)
    requires EqualStringSets(x, y)
    ensures forall t :: t in x <==> t in y
  {
    var xs, ys := set s | s in x, set s | s in y;
    forall t
      ensures t in x <==> t in y
    {
      assert t in xs <==> t in ys;
    }
  }

  function FirewallDescription(serviceName: string, ip: string): string {
    "{\"kubernetes.io/service-name\":\"" + serviceName + "\", \"kubernetes.io/service-ip\":\"" + ip + "\"}"
  }

  function FirewallObject(desc: string, destinationIP: string, sourceRanges: set<string>,
                          ports: seq<ServicePort>, hostTags: seq<string>): Firewall
    requires ports != []
  {
    Firewall(desc, set r | r in sourceRanges :: Cidr(r), hostTags,
             [Allowed(ports[0].protocol.LowerName(), PortRangeTexts(ports))],
             if destinationIP != "" then [destinationIP] else [])
  }

  /** `utilnet.ParseIPNets`: the parsed set, provided every text parses. */
  predicate ParsesTo(texts: set<RangeText>, nets: set<string>) {
    && (forall r :: r in texts ==> r.Cidr?)
    && (set r | r in texts && r.Cidr? :: r.net) == nets
  }

  /** The checks made on a firewall that exists; true means no update is needed. */
  predicate UpToDate(fw: Firewall, serviceName: string, ip: string, ports: seq<ServicePort>,
                     sourceRanges: set<string>) {
    && fw.description == FirewallDescription(serviceName, ip)
    && |fw.allowed| == 1
    && (fw.allowed[0].protocol == "tcp" || fw.allowed[0].protocol == "udp")
    && (EqualStringSets(PortTexts(ports), fw.allowed[0].ports) ||
         EqualStringSets(PortRangeTexts(ports), fw.allowed[0].ports))
    && ParsesTo(fw.sourceRanges, sourceRanges)
    && fw.destinationRanges == [ip]
  }

  /** The builder's rule is judged up to date exactly for TCP and UDP services with a known IP. */
  lemma BuiltIsUpToDate(serviceName: string, ip: string, sourceRanges: set<string>,
                        ports: seq<ServicePort>, hostTags: seq<string>)
    requires ports != []
    ensures UpToDate(FirewallObject(FirewallDescription(serviceName, ip), ip, sourceRanges, ports, hostTags),
                     serviceName, ip, ports, sourceRanges)
       <==> ip != "" && !ports[0].protocol.SCTP?
  {
    var fw := FirewallObject(FirewallDescription(serviceName, ip), ip, sourceRanges, ports, hostTags);
    forall r | r in sourceRanges
      ensures r in (set t | t in fw.sourceRanges && t.Cidr? :: t.net)
    {
      assert Cidr(r) in fw.sourceRanges;
    }
    assert (set t | t in fw.sourceRanges && t.Cidr? :: t.net) == sourceRanges;
  }

  ghost predicate FirewallOpens(fw: Firewall, p: int) {
    exists i, j :: 0 <= i < |fw.allowed| && 0 <= j < |fw.allowed[i].ports| && Opens(fw.allowed[i].ports[j], p)
  }

  lemma OpensExactly(r: PortRange, p: int)
    ensures Opens(Format(r), p) <==> r.Has(p)
  {
    hide ReadRange, Format;
    ReadFormat(r);
  }

  lemma EnumeratedMember(ports: seq<ServicePort>, p: int)
    ensures (exists t :: t in PortTexts(ports) && Opens(t, p)) <==> p in PortNumbers(ports)
  {
    var texts, nums := PortTexts(ports), PortNumbers(ports);
    if p in nums {
      var i :| 0 <= i < |nums| && nums[i] == p;
      OpensExactly(PortRange(p, p), p);
      assert texts[i] == Format(PortRange(p, p));
      assert texts[i] in texts;
    }
    forall t | t in texts && Opens(t, p)
      ensures p in nums
    {
      var i :| 0 <= i < |texts| && texts[i] == t;
      assert t == Format(PortRange(nums[i], nums[i]));
      OpensExactly(PortRange(nums[i], nums[i]), p);
    }
  }

  lemma RangedMember(ports: seq<ServicePort>, p: int)
    ensures (exists t :: t in PortRangeTexts(ports) && Opens(t, p)) <==> p in PortNumbers(ports)
  {
    var texts, nums := PortRangeTexts(ports), PortNumbers(ports);
    var rs := Ranges(nums);
    RangesMeaning(nums);
    if p in nums {
      assert Covers(rs, p);
      var i :| 0 <= i < |rs| && rs[i].Has(p);
      OpensExactly(rs[i], p);
      assert texts[i] in texts;
    }
    forall t | t in texts && Opens(t, p)
      ensures p in nums
    {
      var i :| 0 <= i < |texts| && texts[i] == t;
      assert t == Format(rs[i]);
      OpensExactly(rs[i], p);
      assert Covers(rs, p);
    }
  }

  /** Some port of the service is `p`. */
  ghost predicate HasPort(ports: seq<ServicePort>, p: int) {
    exists i :: 0 <= i < |ports| && ports[i].port == p
  }

  /** The firewall lets in traffic from exactly these networks, and has no source range that does not parse. */
  ghost predicate AdmitsExactly(fw: Firewall, nets: set<string>) {
    && (forall r :: r in fw.sourceRanges ==> r.Cidr?)
    && (forall net :: Cidr(net) in fw.sourceRanges <==> net in nets)
  }

  /** It opens exactly the service's ports, by one entry. */
  ghost predicate OpensExactlyPorts(fw: Firewall, ports: seq<ServicePort>) {
    |fw.allowed| == 1 && forall p :: FirewallOpens(fw, p) <==> HasPort(ports, p)
  }

  /** What a firewall does that is judged up to date, said on its fields. */
  lemma UpToDateMeans(fw: Firewall, serviceName: string, ip: string, ports: seq<ServicePort>, sourceRanges: set<string>)
    requires UpToDate(fw, serviceName, ip, ports, sourceRanges)
    ensures AdmitsExactly(fw, sourceRanges) && OpensExactlyPorts(fw, ports)
    ensures fw.destinationRanges == [ip] && fw.allowed[0].protocol in {"tcp", "udp"}
    ensures fw.description == FirewallDescription(serviceName, ip)
    ensures |fw.allowed[0].ports| == |ports| || |fw.allowed[0].ports| == |Ranges(PortNumbers(ports))|
  {
    hide FirewallOpens, Ranges;
    forall p
      ensures FirewallOpens(fw, p) <==> HasPort(ports, p)
    {
      UpToDateOpensExactly(fw, serviceName, ip, ports, sourceRanges, p);
      PortNumbersAre(ports, p);
    }
    forall net
      ensures Cidr(net) in fw.sourceRanges <==> net in sourceRanges
    {
      assert net in (set r | r in fw.sourceRanges && r.Cidr? :: r.net) <==> net in sourceRanges;
    }
  }

  lemma PortNumbersAre(ports: seq<ServicePort>, p: int)
    ensures p in PortNumbers(ports) <==> HasPort(ports, p)
  {
    var nums := PortNumbers(ports);
    if i :| 0 <= i < |ports| && ports[i].port == p { assert nums[i] == p; }
    if p in nums {
      var i :| 0 <= i < |nums| && nums[i] == p;
      assert ports[i].port == p;
    }
  }

  /** What the builder makes, said on its fields, whatever the protocol and with or without an IP. */
  lemma BuiltMeans(desc: string, ip: string, sourceRanges: set<string>, ports: seq<ServicePort>, hostTags: seq<string>)
    requires ports != []
    ensures var fw := FirewallObject(desc, ip, sourceRanges, ports, hostTags);
            && AdmitsExactly(fw, sourceRanges) && OpensExactlyPorts(fw, ports)
            && fw.destinationRanges == (if ip == "" then [] else [ip])
            && fw.description == desc && fw.targetTags == hostTags
            && fw.allowed[0].protocol ==
                 match ports[0].protocol case TCP => "tcp" case UDP => "udp" case SCTP => "sctp"
  {
    hide Opens, PortRangeTexts, PortNumbers;
    var fw := FirewallObject(desc, ip, sourceRanges, ports, hostTags);
    var texts := PortRangeTexts(ports);
    assert fw.allowed[0].ports == texts;
    forall p
      ensures FirewallOpens(fw, p) <==> HasPort(ports, p)
    {
      RangedMember(ports, p);
      PortNumbersAre(ports, p);
      if t :| t in texts && Opens(t, p) {
        var j :| 0 <= j < |texts| && texts[j] == t;
        assert Opens(fw.allowed[0].ports[j], p);
      }
    }
  }

  /** A rule judged up to date, in enumerated or range form, opens exactly the service's ports. */
  lemma UpToDateOpensExactly(fw: Firewall, serviceName: string, ip: string, ports: seq<ServicePort>,
                             sourceRanges: set<string>, p: int)
    requires UpToDate(fw, serviceName, ip, ports, sourceRanges)
    ensures FirewallOpens(fw, p) <==> p in PortNumbers(ports)
  {
    hide Opens, ParsesTo, EqualStringSets, PortTexts, PortRangeTexts, PortNumbers;
    var texts := fw.allowed[0].ports;
    var wanted := if EqualStringSets(PortTexts(ports), texts) then PortTexts(ports) else PortRangeTexts(ports);
    assert EqualStringSets(wanted, texts);
    SameMembers(wanted, texts);
    if wanted == PortTexts(ports) { EnumeratedMember(ports, p); } else { RangedMember(ports, p); }
    if p in PortNumbers(ports) {
      var t :| t in wanted && Opens(t, p);
      var j :| 0 <= j < |texts| && texts[j] == t;
      assert Opens(fw.allowed[0].ports[j], p);
    }
    if FirewallOpens(fw, p) {
      var i, j :| 0 <= i < |fw.allowed| && 0 <= j < |fw.allowed[i].ports| && Opens(fw.allowed[i].ports[j], p);
      assert texts[j] in wanted;
    }
  }
}
