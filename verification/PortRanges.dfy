/** The port-range compressor and the bounds of a forwarding rule's port range. */
module PortRanges {
  import opened Options
  import opened Sorting
  import opened Text

  /** Ports `lo` to `hi`, both included. */
  datatype PortRange = PortRange(lo: int, hi: int) {
    predicate Has(p: int) { lo <= p <= hi }
  }

  /** Printed as `80` or `80-90`. */
  function Format(r: PortRange): string {
    if r.lo == r.hi then Itoa(r.lo) else Itoa(r.lo) + "-" + Itoa(r.hi)
  }

  /** The range that a text stands for, cut at the first dash after its first byte. */
  function ReadRange(text: string): Option<PortRange> {
    if text == "" then None
    else
      var d := 1 + IndexOf(text[1..], '-');
      var lo := ReadNumber(text[..d]);
      var hi := if d == |text| then lo else ReadNumber(text[d + 1..]);
      if lo.Some? && hi.Some? then Some(PortRange(lo.value, hi.value)) else None
  }

  /** Whether a text of ports names port `p`. */
  predicate Opens(text: string, p: int) {
    var r := ReadRange(text);
    r.Some? && r.value.Has(p)
  }

  function FormatAll(rs: seq<PortRange>): seq<string> {
    seq(|rs|, i requires 0 <= i < |rs| => Format(rs[i]))
  }

  /** Ranges of a sorted list whose current streak runs from `start` to `prev`. */
  function Compress(start: int, prev: int, rest: seq<int>): seq<PortRange>
    decreases |rest|
  {
    if rest == [] then [PortRange(start, prev)]
    else if rest[0] == prev || rest[0] == prev + 1 then Compress(start, rest[0], rest[1..])
    else [PortRange(start, prev)] + Compress(rest[0], rest[0], rest[1..])
  }

  function Ranges(ports: seq<int>): seq<PortRange> {
    if ports == [] then []
    else
      var s := Sort(ports, IntLeq);
      Compress(s[0], s[0], s[1..])
  }

  /** The loop over the sorted list, with its three cases and the last-element handling of each. */
  method GetPortRanges(ports: seq<int>) returns (ranges: seq<string>)
    ensures ranges == FormatAll(Ranges(ports))
    ensures forall p :: (exists i :: 0 <= i < |ranges| && Opens(ranges[i], p)) <==> p in ports
  {
    hide Compress, Sort, Ranges, Format, Opens;
    ranges := [];
    ReadBack(ports);
    if |ports| < 1 { NoRanges(); return; }
    var sorted := Sort(ports, IntLeq);
    var n := |sorted|;
    var start, prev := sorted[0], sorted[0];
    ghost var done: seq<PortRange> := [];
    ghost var total := Ranges(ports);
    WholeStreak(ports);
    assert sorted[0..] == sorted;
    for ix := 0 to n
      invariant ranges == FormatAll(done)
      invariant ix < n ==> done + Compress(start, prev, sorted[ix..]) == total
      invariant ix == n ==> done == total
      invariant ix == 0 ==> start == prev == sorted[0]
    {
      var current := sorted[ix];
      ghost var left := sorted[ix..];
      assert left[0] == current && left[1..] == sorted[ix + 1..];
      assert ix == n - 1 ==> left == [current];
      if current == prev {
        StreakGoesOn(start, prev, left);
        // Loop over duplicates, except if the end of the list is reached.
        if ix == n - 1 {
          FormatMore(done, PortRange(start, current));
          ranges := ranges + [Format(PortRange(start, current))];
          done := done + [PortRange(start, current)];
        }
      } else if current == prev + 1 {
        StreakGoesOn(start, prev, left);
        if ix == n - 1 {
          FormatMore(done, PortRange(start, current));
          ranges := ranges + [Format(PortRange(start, current))];
          done := done + [PortRange(start, current)];
        }
      } else {
        StreakEnds(done, start, prev, left);
        FormatMore(done, PortRange(start, prev));
        ranges := ranges + [Format(PortRange(start, prev))];
        done := done + [PortRange(start, prev)];
        if ix == n - 1 {
          FormatMore(done, PortRange(current, current));
          ranges := ranges + [Format(PortRange(current, current))];
          done := done + [PortRange(current, current)];
        }
        start := current;
      }
      prev := current;
    }
  }

  lemma NoRanges()
    ensures FormatAll(Ranges([])) == []
  {
  }

  /** The first port starts the first streak. */
  lemma WholeStreak(ports: seq<int>)
    requires ports != []
    ensures var s := Sort(ports, IntLeq); Ranges(ports) == Compress(s[0], s[0], s)
  {
    hide Sort;
  }

  lemma StreakGoesOn(start: int, prev: int, left: seq<int>)
    requires left != [] && (left[0] == prev || left[0] == prev + 1)
    ensures Compress(start, prev, left) == Compress(start, left[0], left[1..])
    ensures |left| == 1 ==> Compress(start, prev, left) == [PortRange(start, left[0])]
  {
  }

  lemma StreakEnds(done: seq<PortRange>, start: int, prev: int, left: seq<int>)
    requires left != [] && left[0] != prev && left[0] != prev + 1
    ensures done + Compress(start, prev, left) ==
            (done + [PortRange(start, prev)]) + Compress(left[0], left[0], left[1..])
    ensures |left| == 1 ==>
              done + Compress(start, prev, left) == (done + [PortRange(start, prev)]) + [PortRange(left[0], left[0])]
  {
  }

  lemma FormatMore(rs: seq<PortRange>, r: PortRange)
    ensures FormatAll(rs + [r]) == FormatAll(rs) + [Format(r)]
  {
  }

  // ---- what the ranges mean ----

  ghost predicate Covers(rs: seq<PortRange>, p: int) {
    exists i :: 0 <= i < |rs| && rs[i].Has(p)
  }

  /** Ascending, non-empty, and with at least one port missing between neighbours. */
  ghost predicate Separated(rs: seq<PortRange>) {
    && (forall i :: 0 <= i < |rs| ==> rs[i].lo <= rs[i].hi)
    && (forall i, j :: 0 <= i < j < |rs| ==> rs[i].hi + 1 < rs[j].lo)
  }

  lemma ConsCovers(r: PortRange, rs: seq<PortRange>, p: int)
    ensures Covers([r] + rs, p) <==> r.Has(p) || Covers(rs, p)
  {
    var all := [r] + rs;
    assert all[0] == r;
    if Covers(rs, p) {
      var i :| 0 <= i < |rs| && rs[i].Has(p);
      assert all[i + 1].Has(p);
    }
    if Covers(all, p) {
      var i :| 0 <= i < |all| && all[i].Has(p);
      assert i > 0 ==> rs[i - 1].Has(p);
    }
  }

  lemma {:induction false} CompressShape(start: int, prev: int, rest: seq<int>)
    requires start <= prev
    requires Sorted([prev] + rest, IntLeq)
    ensures var rs := Compress(start, prev, rest);
            && rs != [] && Separated(rs) && rs[0].lo == start
            && rs[|rs| - 1].hi == ([prev] + rest)[|rest|]
    decreases |rest|
  {
    hide Separated;
    OneSeparated(PortRange(start, prev));
    if rest != [] {
      var s := [prev] + rest;
      assert s[0] <= s[1];
      assert s[1..] == [rest[0]] + rest[1..];
      if rest[0] == prev || rest[0] == prev + 1 {
        CompressShape(start, rest[0], rest[1..]);
      } else {
        CompressShape(rest[0], rest[0], rest[1..]);
        MoreSeparated(PortRange(start, prev), Compress(rest[0], rest[0], rest[1..]));
      }
    }
  }

  lemma OneSeparated(r: PortRange)
    requires r.lo <= r.hi
    ensures Separated([r])
  {
  }

  lemma MoreSeparated(r: PortRange, rs: seq<PortRange>)
    requires Separated(rs) && rs != [] && r.lo <= r.hi && r.hi + 1 < rs[0].lo
    ensures Separated([r] + rs)
  {
    assert forall j :: 0 <= j < |rs| ==> rs[0].lo <= rs[j].lo;
  }

  lemma {:induction false} CompressMeaning(start: int, prev: int, rest: seq<int>, p: int)
    requires start <= prev
    requires Sorted([prev] + rest, IntLeq)
    ensures Covers(Compress(start, prev, rest), p) <==> start <= p <= prev || p in rest
    decreases |rest|
  {
    if rest == [] {
      ConsCovers(PortRange(start, prev), [], p);
    } else {
      var s := [prev] + rest;
      assert s[0] <= s[1];
      assert s[1..] == [rest[0]] + rest[1..];
      assert p in rest <==> p == rest[0] || p in rest[1..];
      if rest[0] == prev || rest[0] == prev + 1 {
        CompressMeaning(start, rest[0], rest[1..], p);
      } else {
        CompressMeaning(rest[0], rest[0], rest[1..], p);
        ConsCovers(PortRange(start, prev), Compress(rest[0], rest[0], rest[1..]), p);
      }
    }
  }

  /** The compressor denotes exactly the input ports, duplicates included. */
  lemma RangesMeaning(ports: seq<int>)
    ensures Separated(Ranges(ports))
    ensures forall p :: Covers(Ranges(ports), p) <==> p in ports
  {
    if ports != [] {
      var s := Sort(ports, IntLeq);
      SortSorted(ports, IntLeq);
      SortMembers(ports, IntLeq);
      assert s == [s[0]] + s[1..];
      CompressShape(s[0], s[0], s[1..]);
      forall p
        ensures Covers(Ranges(ports), p) <==> p in ports
      {
        CompressMeaning(s[0], s[0], s[1..], p);
        assert p in s <==> p == s[0] || p in s[1..];
      }
    }
  }

  /** Separated ranges with the same ports are the same ranges. */
  lemma {:induction false} SeparatedUnique(rs: seq<PortRange>, qs: seq<PortRange>)
    requires Separated(rs) && Separated(qs)
    requires forall p :: Covers(rs, p) <==> Covers(qs, p)
    ensures rs == qs
  {
    if rs == [] || qs == [] {
      if rs != [] { assert rs[0].Has(rs[0].lo); assert Covers(rs, rs[0].lo); }
      if qs != [] { assert qs[0].Has(qs[0].lo); assert Covers(qs, qs[0].lo); }
    } else {
      FirstReaches(rs, qs);
      FirstReaches(qs, rs);
      assert rs[0] == qs[0];
      forall p
        ensures Covers(rs[1..], p) <==> Covers(qs[1..], p)
      {
        TailCovers(rs, p);
        TailCovers(qs, p);
      }
      SeparatedUnique(rs[1..], qs[1..]);
      assert rs == [rs[0]] + rs[1..] && qs == [qs[0]] + qs[1..];
    }
  }

  lemma TailCovers(rs: seq<PortRange>, p: int)
    requires Separated(rs) && rs != []
    ensures Covers(rs[1..], p) <==> Covers(rs, p) && p > rs[0].hi
  {
    if Covers(rs, p) && p > rs[0].hi {
      var i :| 0 <= i < |rs| && rs[i].Has(p);
      assert rs[1..][i - 1].Has(p);
    }
    if Covers(rs[1..], p) {
      var i :| 0 <= i < |rs[1..]| && rs[1..][i].Has(p);
      assert rs[i + 1].Has(p);
    }
  }

  /** The port right after a range is not covered. */
  lemma PastTheEnd(rs: seq<PortRange>, i: nat)
    requires Separated(rs) && i < |rs|
    ensures !Covers(rs, rs[i].hi + 1)
  {
    forall j | 0 <= j < |rs|
      ensures !rs[j].Has(rs[i].hi + 1)
    {
      assert j < i ==> rs[j].hi + 1 < rs[i].lo;
      assert j > i ==> rs[i].hi + 1 < rs[j].lo;
    }
  }

  lemma FirstReaches(rs: seq<PortRange>, qs: seq<PortRange>)
    requires Separated(rs) && Separated(qs) && rs != [] && qs != []
    requires forall p :: Covers(rs, p) <==> Covers(qs, p)
    ensures qs[0].lo <= rs[0].lo
    ensures qs[0].lo == rs[0].lo ==> rs[0].hi <= qs[0].hi
  {
    assert rs[0].Has(rs[0].lo);
    assert Covers(qs, rs[0].lo);
    PastTheEnd(qs, 0);
    assert !rs[0].Has(qs[0].hi + 1);
  }

  /** Two numbers with a dash between read as that range. */
  lemma ReadDashed(lo: int, hi: int)
    ensures ReadRange(Itoa(lo) + "-" + Itoa(hi)) == Some(PortRange(lo, hi))
  {
    hide ReadNumber, Itoa;
    var a, b := Itoa(lo), Itoa(hi);
    var text := a + "-" + b;
    ItoaShape(lo);
    assert text[1..] == a[1..] + ['-'] + b;
    IndexOfAppend(a[1..], '-', b);
    assert text[..|a|] == a && text[|a| + 1..] == b;
    ReadItoa(lo);
    ReadItoa(hi);
  }

  lemma ReadSingle(n: int)
    ensures ReadRange(Itoa(n)) == Some(PortRange(n, n))
  {
    hide ReadNumber, Itoa;
    var a := Itoa(n);
    ItoaShape(n);
    IndexOfAbsent(a[1..], '-');
    assert a[..|a|] == a;
    ReadItoa(n);
  }

  /** A printed range reads as itself. */
  lemma ReadFormat(r: PortRange)
    ensures ReadRange(Format(r)) == Some(r)
  {
    hide ReadRange, Itoa;
    if r.lo == r.hi { ReadSingle(r.lo); } else { ReadDashed(r.lo, r.hi); }
  }

  /** What was printed reads back as exactly the ports. */
  lemma ReadBack(ports: seq<int>)
    ensures var texts := FormatAll(Ranges(ports));
            forall p :: (exists i :: 0 <= i < |texts| && Opens(texts[i], p)) <==> p in ports
  {
    hide ReadRange, Format, Ranges;
    var rs, texts := Ranges(ports), FormatAll(Ranges(ports));
    RangesMeaning(ports);
    forall i, p | 0 <= i < |rs|
      ensures Opens(texts[i], p) <==> rs[i].Has(p)
    {
      assert texts[i] == Format(rs[i]);
      ReadFormat(rs[i]);
    }
    forall p
      ensures (exists i :: 0 <= i < |texts| && Opens(texts[i], p)) <==> p in ports
    {
      assert Covers(rs, p) <==> p in ports;
      if i :| 0 <= i < |rs| && rs[i].Has(p) { assert Opens(texts[i], p); }
      if i :| 0 <= i < |texts| && Opens(texts[i], p) { assert rs[i].Has(p); }
    }
  }

  /** Two port lists are printed alike exactly when they hold the same ports. */
  lemma SamePrintedIffSamePorts(a: seq<int>, b: seq<int>)
    ensures FormatAll(Ranges(a)) == FormatAll(Ranges(b)) <==> (forall p :: p in a <==> p in b)
  {
    RangesMeaning(a);
    RangesMeaning(b);
    var ra, rb := Ranges(a), Ranges(b);
    var fa, fb := FormatAll(ra), FormatAll(rb);
    if fa == fb {
      assert |fa| == |ra| && |fb| == |rb|;
      forall i | 0 <= i < |ra|
        ensures ra[i] == rb[i]
      {
        assert fa[i] == Format(ra[i]) && fb[i] == Format(rb[i]);
        ReadFormat(ra[i]);
        ReadFormat(rb[i]);
      }
      assert ra == rb;
      forall p ensures p in a <==> p in b { assert Covers(ra, p) <==> p in a; }
    }
    if forall p :: p in a <==> p in b {
      forall p ensures Covers(ra, p) <==> Covers(rb, p) { assert p in a <==> p in b; }
      SeparatedUnique(ra, rb);
    }
  }

  /** No list of ranges opens the same ports with fewer ranges. */
  lemma FewestRanges(ports: seq<int>, qs: seq<PortRange>)
    requires forall p :: Covers(qs, p) <==> p in ports
    ensures |Ranges(ports)| <= |qs|
  {
    var rs := Ranges(ports);
    RangesMeaning(ports);
    forall i | 0 <= i < |rs|
      ensures Covers(qs, rs[i].lo)
    {
      assert rs[i].Has(rs[i].lo);
      assert Covers(rs, rs[i].lo);
    }
    var used := Witnesses(rs, qs, |rs|);
    Bounded(used, |qs|);
  }

  /** One range of `qs` for each of the first `n` ranges of `rs`, all different. */
  lemma {:induction false} Witnesses(rs: seq<PortRange>, qs: seq<PortRange>, n: nat) returns (used: set<int>)
    requires n <= |rs| && Separated(rs)
    requires forall p :: Covers(qs, p) <==> Covers(rs, p)
    ensures |used| == n
    ensures forall k :: k in used ==> 0 <= k < |qs| && qs[k].lo <= qs[k].hi && (n > 0 ==> qs[k].hi <= rs[n - 1].hi)
  {
    if n == 0 { return {}; }
    used := Witnesses(rs, qs, n - 1);
    var p := rs[n - 1].lo;
    assert rs[n - 1].Has(p);
    assert Covers(qs, p);
    var k :| 0 <= k < |qs| && qs[k].Has(p);
    PastTheEnd(rs, n - 1);
    assert !qs[k].Has(rs[n - 1].hi + 1);
    assert n > 1 ==> rs[n - 2].hi < p;
    used := used + {k};
  }

  /** A set of numbers below `n` has at most `n` members. */
  lemma {:induction false} Bounded(used: set<int>, n: nat)
    requires forall k :: k in used ==> 0 <= k < n
    ensures |used| <= n
  {
    if n == 0 {
      assert forall k :: k !in used;
      assert used == {};
    } else {
      Bounded(used - {n - 1}, n - 1);
    }
  }

  // ---- the forwarding rule's single range ----

  const MIN_START := 65536
  const MAX_START := 0

  /** Lowest and highest port, from the sentinels 65536 and 0. */
  method PortBounds(ports: seq<int>) returns (lo: int, hi: int)
    ensures lo == Lowest(ports) && hi == Highest(ports)
  {
    lo, hi := MIN_START, MAX_START;
    for i := 0 to |ports|
      invariant lo == Lowest(ports[..i]) && hi == Highest(ports[..i])
    {
      assert ports[..i + 1] == ports[..i] + [ports[i]];
      if ports[i] < lo { lo := ports[i]; }
      if ports[i] > hi { hi := ports[i]; }
    }
    assert ports[..|ports|] == ports;
  }

  function Lowest(ports: seq<int>): int {
    if ports == [] then MIN_START
    else
      var last, m := ports[|ports| - 1], Lowest(ports[..|ports| - 1]);
      if last < m then last else m
  }

  function Highest(ports: seq<int>): int {
    if ports == [] then MAX_START
    else
      var last, m := ports[|ports| - 1], Highest(ports[..|ports| - 1]);
      if last > m then last else m
  }

  lemma {:induction false} BoundsExact(ports: seq<int>)
    ensures forall i :: 0 <= i < |ports| ==> Lowest(ports) <= ports[i] <= Highest(ports)
    ensures Lowest(ports) == MIN_START || Lowest(ports) in ports
    ensures Highest(ports) == MAX_START || Highest(ports) in ports
  {
    if ports != [] {
      var init := ports[..|ports| - 1];
      BoundsExact(init);
      assert forall p :: p in init ==> p in ports;
      forall i | 0 <= i < |ports|
        ensures Lowest(ports) <= ports[i] <= Highest(ports)
      {
        assert i < |init| ==> init[i] == ports[i];
      }
    }
  }

  /** For valid ports the compressed ranges start and end where the forwarding rule's range does. */
  lemma BoundsAgree(ports: seq<int>)
    requires ports != [] && forall p :: p in ports ==> 1 <= p <= 65535
    ensures var rs := Ranges(ports);
            rs != [] && rs[0].lo == Lowest(ports) && rs[|rs| - 1].hi == Highest(ports)
  {
    hide Sort, Compress, Lowest, Highest, Separated;
    var s := Sort(ports, IntLeq);
    SortSorted(ports, IntLeq);
    assert s == [s[0]] + s[1..];
    CompressShape(s[0], s[0], s[1..]);
    BoundsInSorted(ports, s);
  }

  lemma BoundsInSorted(ports: seq<int>, s: seq<int>)
    requires s == Sort(ports, IntLeq) && Sorted(s, IntLeq)
    requires ports != [] && forall p :: p in ports ==> 1 <= p <= 65535
    ensures s[0] == Lowest(ports) && s[|s| - 1] == Highest(ports)
  {
    hide Sort, Lowest, Highest;
    SortMembers(ports, IntLeq);
    BoundsExact(ports);
    assert ports[0] in ports;
    assert s[0] in ports && s[|s| - 1] in ports;
    assert Lowest(ports) in s && Highest(ports) in s;
  }
}
