/** Reconciling a node's labels with its instance's, remembering in an annotation what was applied last. */
module NodeLabels {
  import opened Options
  import opened Sorting
  import opened Text

  type Labels = map<string, string>

  // ---- which labels are valid ----

  predicate LowerAlnum(c: char) { 'a' <= c <= 'z' || '0' <= c <= '9' }
  predicate Alnum(c: char) { LowerAlnum(c) || 'A' <= c <= 'Z' }

  /** Letters and digits at both ends; also `-`, `_` and `.` in between; at most 63. */
  predicate NamePart(s: string) {
    && 0 < |s| <= 63 && Alnum(s[0]) && Alnum(s[|s| - 1])
    && forall i :: 0 <= i < |s| ==> Alnum(s[i]) || s[i] in {'-', '_', '.'}
  }

  predicate DnsLabel(s: string) {
    && s != "" && LowerAlnum(s[0]) && LowerAlnum(s[|s| - 1])
    && forall i :: 0 <= i < |s| ==> LowerAlnum(s[i]) || s[i] == '-'
  }

  predicate DnsSubdomain(s: string) {
    |s| <= 253 && forall p :: p in Split(s, '.') ==> DnsLabel(p)
  }

  predicate ValidKey(k: string) {
    var parts := Split(k, '/');
    if |parts| == 1 then NamePart(parts[0])
    else |parts| == 2 && DnsSubdomain(parts[0]) && NamePart(parts[1])
  }

  /** Names and domain labels by their ends and what is between; a value may also be empty. */
  lemma WordShapes(first: char, middle: string, last: char)
    ensures NamePart([first]) <==> Alnum(first)
    ensures NamePart([first] + middle + [last]) <==>
            && Alnum(first) && Alnum(last) && |middle| <= 61
            && forall i :: 0 <= i < |middle| ==> Alnum(middle[i]) || middle[i] in "-_."
    ensures DnsLabel([first]) <==> LowerAlnum(first)
    ensures DnsLabel([first] + middle + [last]) <==>
            && LowerAlnum(first) && LowerAlnum(last)
            && forall i :: 0 <= i < |middle| ==> LowerAlnum(middle[i]) || middle[i] == '-'
    ensures !NamePart("") && !DnsLabel("") && ValidValue("") && (ValidValue([first]) <==> Alnum(first))
  {
    hide Alnum, LowerAlnum;
    var s := [first] + middle + [last];
    assert forall i :: 0 <= i < |middle| ==> s[i + 1] == middle[i];
    assert "-_." == ['-', '_', '.'];
    AlnumLower();
  }

  lemma AlnumLower()
    ensures forall c :: LowerAlnum(c) ==> Alnum(c)
  {
  }

  /** A key is a name, or a domain, a slash and a name. */
  lemma ValidKeyIff(prefix: string, name: string)
    requires '/' !in prefix && '/' !in name
    ensures ValidKey(name) <==> NamePart(name)
    ensures ValidKey(prefix + "/" + name) <==> DnsSubdomain(prefix) && NamePart(name)
  {
    hide NamePart, DnsSubdomain;
    IndexOfAbsent(name, '/');
    SplitCons(prefix, '/', name);
  }

  /** A domain is one label, or a label, a dot and the labels of the rest. */
  lemma DomainIff(part: string, rest: string)
    requires '.' !in part
    ensures DnsSubdomain(part) <==> |part| <= 253 && DnsLabel(part)
    ensures DnsSubdomain(part + "." + rest) <==>
            |part| + 1 + |rest| <= 253 && DnsLabel(part) && forall p :: p in Split(rest, '.') ==> DnsLabel(p)
  {
    hide DnsLabel;
    IndexOfAbsent(part, '.');
    SplitCons(part, '.', rest);
    assert part in Split(part, '.') && part in Split(part + ['.'] + rest, '.');
    forall p | p in Split(rest, '.')
      ensures p in Split(part + ['.'] + rest, '.')
    {
    }
  }

  predicate ValidValue(v: string) { v == "" || NamePart(v) }

  predicate ValidLabels(m: Labels) {
    forall k :: k in m ==> ValidKey(k) && ValidValue(m[k])
  }

  lemma {:induction false} SplitCovers(s: string, sep: char, c: char)
    requires c in s && c != sep
    ensures exists p :: p in Split(s, sep) && c in p
    decreases |s|
  {
    var i := IndexOf(s, sep);
    if i == |s| {
      assert s in Split(s, sep);
    } else if c in s[..i] {
      assert s[..i] in Split(s, sep);
    } else {
      assert s == s[..i] + [sep] + s[i + 1..];
      assert c in s[i + 1..];
      SplitCovers(s[i + 1..], sep, c);
      var p :| p in Split(s[i + 1..], sep) && c in p;
      assert p in Split(s, sep);
    }
  }

  lemma PartHasNoSeparator(p: string, c: char)
    requires c == ',' || c == '='
    requires NamePart(p) || DnsSubdomain(p)
    ensures c !in p
  {
    if !NamePart(p) && c in p {
      SplitCovers(p, '.', c);
    }
  }

  /** A separator never occurs in a valid key or value. */
  lemma ValidHasNoSeparator(k: string, c: char)
    requires c == ',' || c == '='
    ensures ValidKey(k) ==> c !in k
    ensures ValidValue(k) ==> c !in k
  {
    if ValidKey(k) && c in k {
      hide NamePart, DnsSubdomain;
      SplitCovers(k, '/', c);
      var p :| p in Split(k, '/') && c in p;
      PartHasNoSeparator(p, c);
    }
  }

  ghost predicate NoSeparators(m: Labels) {
    forall k :: k in m ==> '=' !in k && ',' !in k && ',' !in m[k]
  }

  lemma ValidNoSeparators(m: Labels)
    requires ValidLabels(m)
    ensures NoSeparators(m)
  {
    hide ValidKey, ValidValue;
    forall k | k in m
      ensures '=' !in k && ',' !in k && ',' !in m[k]
    {
      ValidHasNoSeparator(k, '=');
      ValidHasNoSeparator(k, ',');
      ValidHasNoSeparator(m[k], ',');
    }
  }

  // ---- printing and parsing ----

  function Pair(k: string, v: string): string { k + ['='] + v }

  ghost predicate IsPair(m: Labels, part: string) {
    exists k :: k in m && part == Pair(k, m[k])
  }

  ghost predicate PairsOf(m: Labels, parts: seq<string>) {
    && (forall k :: k in m ==> Pair(k, m[k]) in parts)
    && (forall p :: p in parts ==> IsPair(m, p))
  }

  /** `s` is the map's pairs, each once, sorted and joined by commas. */
  ghost predicate IsSerialized(m: Labels, s: string) {
    exists parts :: PairsOf(m, parts) && Distinct(parts) && Sorted(parts, StringLeq) && s == Join(parts, ',')
  }

  /** Whatever order the map was walked in, the text is the same. */
  lemma SerializedUnique(m: Labels, s: string, t: string)
    requires IsSerialized(m, s) && IsSerialized(m, t)
    ensures s == t
  {
    var a :| PairsOf(m, a) && Distinct(a) && Sorted(a, StringLeq) && s == Join(a, ',');
    var b :| PairsOf(m, b) && Distinct(b) && Sorted(b, StringLeq) && t == Join(b, ',');
    forall x ensures x in a <==> x in b {}
    StringOrder();
    OneOrder(a, b, StringLeq);
  }

  method SerializeLabels(labels: Labels) returns (s: string)
    requires ValidLabels(labels)
    ensures IsSerialized(labels, s)
  {
    hide ValidLabels, IsPair, StringLeq, Join, NoSeparators, IsSerialized, PairsOf;
    ValidNoSeparators(labels);
    var elements: seq<string> := [];
    var left := labels.Keys;
    NoPairs();
    while left != {}
      invariant left <= labels.Keys
      invariant PairsOf(labels - left, elements) && Distinct(elements)
      decreases left
    {
      var k :| k in left;
      AddPair(labels, left, elements, k);
      elements := elements + [Pair(k, labels[k])];
      left := left - {k};
    }
    assert labels - left == labels;
    var sorted := Sort(elements, StringLeq);
    s := Join(sorted, ',');
    SortedPairs(labels, elements);
  }

  lemma NoPairs()
    ensures forall m: Labels, ks :: ks == m.Keys ==> PairsOf(m - ks, [])
  {
    forall m: Labels, ks | ks == m.Keys
      ensures PairsOf(m - ks, [])
    {
      assert m - ks == map[];
    }
  }

  lemma AddPair(m: Labels, left: set<string>, elements: seq<string>, k: string)
    requires NoSeparators(m) && left <= m.Keys && k in left
    requires PairsOf(m - left, elements) && Distinct(elements)
    ensures PairsOf(m - (left - {k}), elements + [Pair(k, m[k])]) && Distinct(elements + [Pair(k, m[k])])
  {
    var done, more := m - left, m - (left - {k});
    forall p | p in elements
      ensures p != Pair(k, m[k]) && IsPair(more, p)
    {
      assert IsPair(done, p);
      var k' :| k' in done && p == Pair(k', done[k']);
      PairKey(k, m[k]);
      PairKey(k', m[k']);
      assert k' in more && more[k'] == done[k'];
    }
    assert k in more && IsPair(more, Pair(k, m[k]));
    forall k' | k' in more
      ensures Pair(k', more[k']) in elements + [Pair(k, m[k])]
    {
      assert k' != k ==> k' in done;
    }
  }

  lemma SortedPairs(m: Labels, elements: seq<string>)
    requires PairsOf(m, elements) && Distinct(elements)
    ensures IsSerialized(m, Join(Sort(elements, StringLeq), ','))
  {
    hide IsPair, StringLeq, Join;
    StringOrder();
    SortSorted(elements, StringLeq);
    SortMembers(elements, StringLeq);
    SortDistinct(elements, StringLeq);
    assert PairsOf(m, Sort(elements, StringLeq));
  }

  lemma PairKey(k: string, v: string)
    requires '=' !in k
    ensures IndexOf(Pair(k, v), '=') == |k| && Pair(k, v)[..|k|] == k && Pair(k, v)[|k| + 1..] == v
  {
    IndexOfAppend(k, '=', v);
  }

  /** The pairs in order, later ones overriding earlier ones; `None` if one has no `=`. */
  function ParsePairs(parts: seq<string>): Option<Labels> {
    if parts == [] then Some(map[])
    else
      var n := |parts| - 1;
      var r, i := ParsePairs(parts[..n]), IndexOf(parts[n], '=');
      if r.None? || i == |parts[n]| then None else Some(r.value[parts[n][..i] := parts[n][i + 1..]])
  }

  function Parsed(s: string): Option<Labels> {
    var r := ParsePairs(Split(s, ','));
    if r.Some? && ValidLabels(r.value) then r else None
  }

  method ParseLabels(s: string) returns (r: Option<Labels>)
    ensures r == Parsed(s)
  {
    var parts := Split(s, ',');
    var labels: Labels := map[];
    for j := 0 to |parts|
      invariant ParsePairs(parts[..j]) == Some(labels)
    {
      assert parts[..j + 1][..j] == parts[..j];
      var i := IndexOf(parts[j], '=');
      if i == |parts[j]| {
        OneBadPair(parts, j + 1);
        return None;
      }
      labels := labels[parts[j][..i] := parts[j][i + 1..]];
    }
    assert parts[..|parts|] == parts;
    var bad := exists k :: k in labels && !(ValidKey(k) && ValidValue(labels[k]));
    r := if bad then None else Some(labels);
  }

  lemma {:induction false} OneBadPair(parts: seq<string>, j: nat)
    requires j <= |parts| && ParsePairs(parts[..j]).None?
    ensures ParsePairs(parts).None?
    decreases |parts|
  {
    if j < |parts| {
      var init := parts[..|parts| - 1];
      assert init[..j] == parts[..j];
      OneBadPair(init, j);
    } else {
      assert parts[..j] == parts;
    }
  }

  lemma {:induction false} ParsePairsBack(m: Labels, parts: seq<string>)
    requires NoSeparators(m)
    requires forall p :: p in parts ==> IsPair(m, p)
    ensures var r := ParsePairs(parts);
            && r.Some?
            && (forall k :: k in r.value ==> k in m && r.value[k] == m[k])
            && (forall k :: k in m && Pair(k, m[k]) in parts ==> k in r.value)
  {
    if parts != [] {
      var n := |parts| - 1;
      assert parts == parts[..n] + [parts[n]];
      ParsePairsBack(m, parts[..n]);
      assert IsPair(m, parts[n]);
      var k :| k in m && parts[n] == Pair(k, m[k]);
      PairKey(k, m[k]);
      forall k' | k' in m && Pair(k', m[k']) in parts
        ensures k' in ParsePairs(parts).value
      {
        PairKey(k', m[k']);
        assert Pair(k', m[k']) in parts[..n] || Pair(k', m[k']) == parts[n];
      }
    }
  }

  lemma PairsHaveNoComma(m: Labels, parts: seq<string>)
    requires NoSeparators(m) && forall p :: p in parts ==> IsPair(m, p)
    ensures forall i :: 0 <= i < |parts| ==> ',' !in parts[i] && parts[i] != ""
  {
    forall i | 0 <= i < |parts|
      ensures ',' !in parts[i] && parts[i] != ""
    {
      assert IsPair(m, parts[i]);
    }
  }

  /** Parsing the printed form of a non-empty valid map gives the map back. */
  lemma RoundTrip(m: Labels, s: string)
    requires ValidLabels(m) && m != map[] && IsSerialized(m, s)
    ensures Parsed(s) == Some(m) && s != ""
  {
    hide ValidKey, ValidValue, IsPair, StringLeq, NoSeparators, ParsePairs, Join;
    var parts :| PairsOf(m, parts) && Distinct(parts) && Sorted(parts, StringLeq) && s == Join(parts, ',');
    var k0 :| k0 in m;
    assert Pair(k0, m[k0]) in parts;
    ValidNoSeparators(m);
    PairsHaveNoComma(m, parts);
    SplitJoin(parts, ',');
    ParsePairsBack(m, parts);
    assert ParsePairs(parts).value == m;
    SplitEmpty();
  }

  lemma SplitEmpty()
    ensures Split("", ',') == [""]
  {
  }

  lemma EmptySerialized(s: string)
    requires IsSerialized(map[], s)
    ensures s == ""
  {
    var parts :| PairsOf(map[], parts) && s == Join(parts, ',');
    forall p
      ensures p !in multiset(parts)
    {
      assert p in multiset(parts) <==> p in parts;
      assert p in parts ==> IsPair(map[], p);
    }
    assert multiset(parts) == multiset{} && |multiset(parts)| == |parts|;
  }

  // ---- the reconciler ----

  const LAST_APPLIED := "node.gke.io/last-applied-node-labels"

  /** What the annotation says was applied last; one that is missing, empty or malformed counts as nothing. */
  function LastApplied(annotations: Labels): Labels {
    if LAST_APPLIED !in annotations || annotations[LAST_APPLIED] == "" then map[]
    else
      var r := Parsed(annotations[LAST_APPLIED]);
      if r.Some? then r.value else map[]
  }

  /** The labels asked for by the instance's metadata value, if there is one and it parses. */
  function Desired(metadata: Option<string>): Option<Labels> {
    if metadata.None? then None else if metadata.value == "" then Some(map[]) else Parsed(metadata.value)
  }

  lemma DesiredValid(metadata: Option<string>)
    ensures Desired(metadata).Some? ==> ValidLabels(Desired(metadata).value)
  {
  }

  /** Labels without the owned ones and those applied last, overlaid with the desired ones. */
  function Merged(labels: Labels, owned: set<string>, last: Labels, desired: Labels): Labels {
    (labels - owned - last.Keys) + desired
  }

  /** The annotation is the faithful memory of the map it was written from. */
  lemma MemoryIsFaithful(annotations: Labels, last: Labels)
    requires ValidLabels(last) && LAST_APPLIED in annotations && IsSerialized(last, annotations[LAST_APPLIED])
    ensures LastApplied(annotations) == last
  {
    if last == map[] {
      EmptySerialized(annotations[LAST_APPLIED]);
    } else {
      RoundTrip(last, annotations[LAST_APPLIED]);
    }
  }

  lemma DroppedOneMore(m: Labels, ks: set<string>, k: string)
    ensures (m - ks) - {k} == m - (ks + {k})
  {
  }

  lemma SetOneMore(m: Labels, d: Labels, left: set<string>, k: string)
    requires k in left && k in d
    ensures (m + (d - left))[k := d[k]] == m + (d - (left - {k}))
  {
  }

  function KeySet(keys: seq<string>): set<string> { set k | k in keys }

  datatype Event = UserEdits(labels: Labels) | Reconcile(metadata: Option<string>)

  /** The reference: it keeps the last desired map itself. */
  function Reference(labels: Labels, last: Labels, owned: set<string>, e: Event): (Labels, Labels) {
    match e
    case UserEdits(edited) => (edited, last)
    case Reconcile(metadata) =>
      var desired := Desired(metadata);
      if desired.None? then (labels, last) else (Merged(labels, owned, last, desired.value), desired.value)
  }

  class Node {
    var labels: Labels
    var annotations: Labels

    constructor (labels: Labels, annotations: Labels)
      ensures this.labels == labels && this.annotations == annotations
    {
      this.labels, this.annotations := labels, annotations;
    }

    /** Delete what was applied last, set what is desired, remember it. */
    method MergeManagedLabels(desired: Labels)
      requires ValidLabels(desired)
      modifies this
      ensures labels == (old(labels) - LastApplied(old(annotations)).Keys) + desired
      ensures LAST_APPLIED in annotations && annotations - {LAST_APPLIED} == old(annotations) - {LAST_APPLIED}
      ensures IsSerialized(desired, annotations[LAST_APPLIED])
    {
      hide LastApplied, ValidLabels, IsSerialized;
      var last := LastApplied(annotations);
      var left := last.Keys;
      while left != {}
        invariant left <= last.Keys && annotations == old(annotations)
        invariant labels == old(labels) - (last.Keys - left)
        decreases left
      {
        var k :| k in left;
        DroppedOneMore(old(labels), last.Keys - left, k);
        assert last.Keys - (left - {k}) == (last.Keys - left) + {k};
        labels := labels - {k};
        left := left - {k};
      }
      assert labels == old(labels) - last.Keys;
      ghost var kept := labels;
      left := desired.Keys;
      while left != {}
        invariant left <= desired.Keys && annotations == old(annotations)
        invariant labels == kept + (desired - left)
        decreases left
      {
        var k :| k in left;
        SetOneMore(kept, desired, left, k);
        labels := labels[k := desired[k]];
        left := left - {k};
      }
      assert desired - left == desired;
      var s := SerializeLabels(desired);
      annotations := annotations[LAST_APPLIED := s];
    }

    /** The labels reconciler; `false` means the node is left as it was. */
    method ReconcileLabels(owned: seq<string>, metadata: Option<string>) returns (changed: bool)
      modifies this
      ensures changed <==> metadata.Some? && (metadata.value == "" || Parsed(metadata.value).Some?)
      ensures changed <==> Desired(metadata).Some?
      ensures !changed ==> labels == old(labels) && annotations == old(annotations)
      ensures changed ==>
                && labels == Merged(old(labels), KeySet(owned), LastApplied(old(annotations)), Desired(metadata).value)
                && LAST_APPLIED in annotations && IsSerialized(Desired(metadata).value, annotations[LAST_APPLIED])
      ensures metadata == Some("") ==> forall k :: k in labels ==> k in old(labels) && k !in owned
      ensures changed && LAST_APPLIED in old(annotations) && Parsed(old(annotations)[LAST_APPLIED]).None? ==>
              forall k :: k in old(labels) && k !in owned ==> k in labels
    {
      var desired := Desired(metadata);
      DesiredValid(metadata);
      if desired.None? { return false; }
      for i := 0 to |owned|
        invariant annotations == old(annotations)
        invariant labels == old(labels) - KeySet(owned[..i])
      {
        assert owned[..i + 1] == owned[..i] + [owned[i]];
        labels := labels - {owned[i]};
      }
      assert owned[..|owned|] == owned;
      MergeManagedLabels(desired.value);
      return true;
    }

    /**
     * Over any run of user edits and reconciles, the node follows the reference that keeps the map itself,
     * starting from whatever the annotation says at first.
     */
    method Run(owned: seq<string>, events: seq<Event>) returns (ghost last: Labels)
      modifies this
      ensures (labels, last) == ReferenceRun(old(labels), LastApplied(old(annotations)), KeySet(owned), events)
      ensures LastApplied(annotations) == last
    {
      last := LastApplied(annotations);
      for i := 0 to |events|
        invariant (labels, last) == ReferenceRun(old(labels), LastApplied(old(annotations)), KeySet(owned), events[..i])
        invariant LastApplied(annotations) == last
      {
        assert events[..i + 1][..i] == events[..i];
        match events[i] {
          case UserEdits(edited) => labels := edited;
          case Reconcile(metadata) =>
            var changed := ReconcileLabels(owned, metadata);
            if changed {
              last := Desired(metadata).value;
              DesiredValid(metadata);
              MemoryIsFaithful(annotations, last);
            }
        }
      }
      assert events[..|events|] == events;
    }
  }

  function ReferenceRun(labels: Labels, last: Labels, owned: set<string>, events: seq<Event>): (Labels, Labels) {
    if events == [] then (labels, last)
    else
      var (l, previous) := ReferenceRun(labels, last, owned, events[..|events| - 1]);
      Reference(l, previous, owned, events[|events| - 1])
  }
}
