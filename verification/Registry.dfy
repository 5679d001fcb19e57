/** The device registry: eligibility, the canonical candidate list, selection, and the debounced monitor. */
module Registry {
  import opened Prelude

  const RESERVED_NODE_NAME := "io.github.rayan6ms.Noire.Microphone"
  const MEDIA_CLASS_SOURCE := "Audio/Source"
  const REGISTRY_COALESCE_MILLIS: nat := 50
  const EM_DASH := '\U{2014}'
  const DASH := [' ', EM_DASH, ' ']

  datatype DeviceAvailability = Available | Unavailable | Unknown

  datatype AdvertisedFormat = AdvertisedFormat(sampleRate: nat, channels: nat, positions: seq<string>)

  datatype Node = Node(
    globalId: nat,
    objectSerial: Option<nat>,
    nodeName: string,
    description: Option<string>,
    nick: Option<string>,
    mediaClass: Option<string>,
    mediaRole: Option<string>,
    virtualNode: bool,
    deviceId: Option<nat>,
    deviceName: Option<string>,
    deviceSerial: Option<string>,
    deviceApi: Option<string>,
    formats: seq<AdvertisedFormat>,
    availability: DeviceAvailability,
    isDefault: bool,
    display: string)
  {
    /** The node without the numbers that the registry gave it and its device. */
    function Erased(): Node {
      this.(globalId := 0, objectSerial := None, deviceId := None)
    }
  }

  /** Unicode lower-casing. */
  type Lower = string -> string

  function AsciiLower(s: string): string {
    seq(|s|, i requires 0 <= i < |s| => if 'A' <= s[i] <= 'Z' then s[i] + ('a' - 'A') else s[i])
  }

  predicate StartsWith(s: string, prefix: string) {
    prefix <= s
  }

  predicate EndsWith(s: string, suffix: string) {
    |suffix| <= |s| && s[|s| - |suffix|..] == suffix
  }

  predicate Contains(s: string, part: string) {
    exists i :: 0 <= i <= |s| - |part| && s[i..][..|part|] == part
  }

  function TrimLeft(s: string): string {
    if s != [] && IsWhitespace(s[0]) then TrimLeft(s[1..]) else s
  }

  function TrimRight(s: string): string {
    if s != [] && IsWhitespace(s[|s| - 1]) then TrimRight(s[..|s| - 1]) else s
  }

  predicate IsMonitorName(name: string) {
    EndsWith(AsciiLower(name), ".monitor") || Contains(AsciiLower(name), ".monitor.")
  }

  predicate IsMonitorDescription(description: string) {
    StartsWith(AsciiLower(description), "monitor of ")
  }

  predicate IsCandidate(n: Node) {
    && n.mediaClass == Some(MEDIA_CLASS_SOURCE) && !n.virtualNode && n.nodeName != RESERVED_NODE_NAME
    && !IsMonitorName(n.nodeName) && !(n.description.Some? && IsMonitorDescription(n.description.value))
    && n.availability != Unavailable
  }

  /** ASCII letters may differ in case. */
  predicate SameLetters(a: string, b: string) {
    |a| == |b| && forall i :: 0 <= i < |a| ==>
      a[i] == b[i] || ('A' <= a[i] <= 'Z' && b[i] as int == a[i] as int + 32)
      || ('A' <= b[i] <= 'Z' && a[i] as int == b[i] as int + 32)
  }

  lemma SameLettersIff(a: string, b: string)
    ensures AsciiLower(a) == AsciiLower(b) <==> SameLetters(a, b)
  {
    if AsciiLower(a) == AsciiLower(b) {
      forall i | 0 <= i < |a|
        ensures a[i] == b[i] || ('A' <= a[i] <= 'Z' && b[i] as int == a[i] as int + 32)
          || ('A' <= b[i] <= 'Z' && a[i] as int == b[i] as int + 32)
      {
        assert AsciiLower(a)[i] == AsciiLower(b)[i];
      }
    }
  }

  lemma LowerOfPart(s: string, i: nat, j: nat)
    requires i <= j <= |s|
    ensures AsciiLower(s)[i..j] == AsciiLower(s[i..j])
  {
  }

  /** The name has the part `.monitor`, at its end or before a further dot. */
  ghost predicate NamesAMonitor(name: string) {
    exists i: nat :: i + 8 <= |name| && MonitorAt(name, i)
  }

  predicate MonitorAt(name: string, i: nat)
    requires i + 8 <= |name|
  {
    SameLetters(name[i..i + 8], ".monitor") && (i + 8 == |name| || name[i + 8] == '.')
  }

  lemma MonitorAtIff(name: string, i: nat)
    requires i + 8 <= |name|
    ensures |AsciiLower(name)| == |name|
    ensures
      var low := AsciiLower(name);
      MonitorAt(name, i) <==> low[i..i + 8] == ".monitor" && (i + 8 == |low| || low[i + 8] == '.')
  {
    assert AsciiLower(".monitor") == ".monitor";
    LowerOfPart(name, i, i + 8);
    SameLettersIff(name[i..i + 8], ".monitor");
  }

  lemma DottedParts(low: string, i: nat)
    requires i + 9 <= |low|
    ensures low[i..][..9] == ".monitor." <==> low[i..i + 8] == ".monitor" && low[i + 8] == '.'
  {
    var part := low[i..][..9];
    assert part[..8] == low[i..i + 8] && part[8] == low[i + 8] && part == part[..8] + [part[8]];
    assert ".monitor."[..8] == ".monitor" && ".monitor." == ".monitor" + ['.'];
  }

  lemma MonitorNames(name: string)
    ensures IsMonitorName(name) <==> NamesAMonitor(name)
  {
    hide MonitorAt, SameLetters;
    var low := AsciiLower(name);
    assert |low| == |name|;
    hide AsciiLower;
    if EndsWith(low, ".monitor") {
      MonitorAtIff(name, |name| - 8);
    } else if Contains(low, ".monitor.") {
      var i :| 0 <= i <= |low| - 9 && low[i..][..9] == ".monitor.";
      DottedParts(low, i);
      MonitorAtIff(name, i);
    }
    if i: nat :| i + 8 <= |name| && MonitorAt(name, i) {
      MonitorAtIff(name, i);
      if i + 8 < |name| {
        DottedParts(low, i);
      }
    }
  }

  /**
   * Which nodes are offered as inputs: available hardware sources that are neither Noire's own output nor, by name or by
   * description, in whatever case, a monitor of an output.
   */
  lemma EligibleIff(n: Node)
    ensures
      IsCandidate(n) <==>
      && n.mediaClass == Some("Audio/Source") && !n.virtualNode && !n.availability.Unavailable?
      && n.nodeName != "io.github.rayan6ms.Noire.Microphone" && !NamesAMonitor(n.nodeName)
      && !(n.description.Some? && |n.description.value| >= 11 && SameLetters(n.description.value[..11], "monitor of "))
  {
    MonitorNames(n.nodeName);
    if n.description.Some? && |n.description.value| >= 11 {
      LowerOfPart(n.description.value, 0, 11);
      assert n.description.value[0..11] == n.description.value[..11];
      SameLettersIff(n.description.value[..11], "monitor of ");
      assert AsciiLower("monitor of ") == "monitor of ";
    }
  }

  /** Code-point order of strings, non-strict. */
  predicate TextBefore(a: string, b: string) {
    a == [] || (b != [] && (a[0] < b[0] || (a[0] == b[0] && TextBefore(a[1..], b[1..]))))
  }

  lemma {:induction false} TextBeforeIsTotal(a: string, b: string)
    ensures TextBefore(a, b) || TextBefore(b, a)
    ensures TextBefore(a, b) && TextBefore(b, a) ==> a == b
    ensures TextBefore(a, a)
  {
    if a != [] {
      TextBeforeIsTotal(a[1..], a[1..]);
    }
    if a != [] && b != [] {
      TextBeforeIsTotal(a[1..], b[1..]);
    }
  }

  /** Text comes in the order of its first differing character, and a beginning before the whole. */
  lemma {:induction false} FirstDifferenceDecides(common: string, c: char, x: string, d: char, y: string)
    ensures TextBefore(common, common + x)
    ensures c < d ==> TextBefore(common + [c] + x, common + [d] + y) && !TextBefore(common + [d] + y, common + [c] + x)
  {
    if common == [] {
      assert common + x == x;
    } else {
      FirstDifferenceDecides(common[1..], c, x, d, y);
      assert (common + x)[1..] == common[1..] + x;
      assert (common + [c] + x)[1..] == common[1..] + [c] + x;
      assert (common + [d] + y)[1..] == common[1..] + [d] + y;
    }
  }

  lemma {:induction false} TextBeforeIsTransitive(a: string, b: string, c: string)
    requires TextBefore(a, b) && TextBefore(b, c)
    ensures TextBefore(a, c)
  {
    if a != [] && a[0] == b[0] == c[0] {
      TextBeforeIsTransitive(a[1..], b[1..], c[1..]);
    }
  }

  /** Label order without case, then name order; strict. */
  predicate Before(lower: Lower, a: Node, b: Node) {
    var x, y := lower(a.display), lower(b.display);
    if x == y then a.nodeName != b.nodeName && TextBefore(a.nodeName, b.nodeName) else TextBefore(x, y)
  }

  lemma BeforeIsStrict(lower: Lower, a: Node, b: Node)
    ensures !(Before(lower, a, b) && Before(lower, b, a))
    ensures a.nodeName != b.nodeName ==> Before(lower, a, b) || Before(lower, b, a)
  {
    TextBeforeIsTotal(lower(a.display), lower(b.display));
    TextBeforeIsTotal(a.nodeName, b.nodeName);
  }

  lemma BeforeIsTransitive(lower: Lower, a: Node, b: Node, c: Node)
    requires Before(lower, a, b) && Before(lower, b, c)
    ensures Before(lower, a, c)
  {
    var x, y, z := lower(a.display), lower(b.display), lower(c.display);
    TextBeforeIsTotal(x, y);
    TextBeforeIsTotal(y, z);
    TextBeforeIsTotal(a.nodeName, b.nodeName);
    TextBeforeIsTotal(b.nodeName, c.nodeName);
    if x != y && y != z {
      TextBeforeIsTransitive(x, y, z);
    } else if x == y == z {
      TextBeforeIsTransitive(a.nodeName, b.nodeName, c.nodeName);
    }
  }

  /** One node per eligible name: the first one, unless a default turns up. */
  function ByName(nodes: seq<Node>): map<string, Node> {
    if nodes == [] then map[]
    else Merged(ByName(nodes[..|nodes| - 1]), nodes[|nodes| - 1])
  }

  function Merged(before: map<string, Node>, n: Node): map<string, Node> {
    if !IsCandidate(n) then before
    else if n.nodeName in before && !(n.isDefault && !before[n.nodeName].isDefault) then before
    else before[n.nodeName := n]
  }

  ghost predicate Eligible(nodes: seq<Node>, i: nat, name: string) {
    i < |nodes| && IsCandidate(nodes[i]) && nodes[i].nodeName == name
  }

  ghost predicate HasDefault(nodes: seq<Node>, name: string) {
    exists i: nat :: Eligible(nodes, i, name) && nodes[i].isDefault
  }

  /** The name map holds exactly the eligible names, each with an eligible node, a default one if there is any. */
  lemma {:induction false} ByNameIsCanonical(nodes: seq<Node>, name: string)
    ensures name in ByName(nodes) <==> exists i: nat :: Eligible(nodes, i, name)
    ensures name in ByName(nodes) ==>
      && (exists i: nat :: Eligible(nodes, i, name) && nodes[i] == ByName(nodes)[name])
      && (ByName(nodes)[name].isDefault <==> HasDefault(nodes, name))
  {
    if nodes != [] {
      var n := |nodes| - 1;
      ByNameIsCanonical(nodes[..n], name);
      assert forall i: nat :: Eligible(nodes[..n], i, name) <==> i < n && Eligible(nodes, i, name);
      if Eligible(nodes, n, name) {
        assert name in ByName(nodes);
        assert ByName(nodes)[name] == nodes[n] || name in ByName(nodes[..n]);
      }
    }
  }

  /** Node `i` is the first eligible default of its name, or the first eligible node if there is no such default. */
  ghost predicate StandsFor(nodes: seq<Node>, i: nat, name: string) {
    && Eligible(nodes, i, name) && (HasDefault(nodes, name) ==> nodes[i].isDefault)
    && forall j: nat :: j < i && Eligible(nodes, j, name) ==> !nodes[j].isDefault && nodes[i].isDefault
  }

  /** Exactly this node stands for its name. */
  lemma {:induction false} FirstStandsForItsName(nodes: seq<Node>, name: string, i: nat)
    requires StandsFor(nodes, i, name)
    ensures name in ByName(nodes) && ByName(nodes)[name] == nodes[i]
  {
    var n := |nodes| - 1;
    var front := nodes[..n];
    assert forall j: nat :: Eligible(front, j, name) <==> j < n && Eligible(nodes, j, name);
    ByNameIsCanonical(front, name);
    if i < n {
      if HasDefault(front, name) {
        var k: nat :| Eligible(front, k, name) && front[k].isDefault;
        assert Eligible(nodes, k, name) && nodes[k].isDefault;
      } else if nodes[i].isDefault {
        assert Eligible(front, i, name) && front[i].isDefault;
      }
      FirstStandsForItsName(front, name, i);
    }
  }

  ghost predicate StrictlySorted(lower: Lower, list: seq<Node>) {
    forall i, j :: 0 <= i < j < |list| ==> Before(lower, list[i], list[j])
  }

  /** The list shows exactly the nodes of the map, in order. */
  ghost predicate Lists(lower: Lower, nodes: map<string, Node>, list: seq<Node>) {
    && StrictlySorted(lower, list)
    && forall n :: n in list <==> n.nodeName in nodes && nodes[n.nodeName] == n
  }

  /** Sorting leaves no choice: two strictly sorted lists of the same nodes are the same list. */
  lemma {:induction false} SortedIsUnique(lower: Lower, a: seq<Node>, b: seq<Node>)
    requires StrictlySorted(lower, a) && StrictlySorted(lower, b)
    requires forall n :: n in a <==> n in b
    ensures a == b
  {
    if a == [] {
      assert forall i :: 0 <= i < |b| ==> b[i] in b;
    } else {
      assert a[0] in b;
      assert b[0] in a;
      LeastIsFirst(lower, a, b);
      forall n
        ensures n in a[1..] <==> n in b[1..]
      {
        TailMembers(lower, a, n);
        TailMembers(lower, b, n);
      }
      SortedIsUnique(lower, a[1..], b[1..]);
    }
  }

  lemma LeastIsFirst(lower: Lower, a: seq<Node>, b: seq<Node>)
    requires StrictlySorted(lower, a) && StrictlySorted(lower, b)
    requires a != [] && b != [] && a[0] in b && b[0] in a
    ensures a[0] == b[0]
  {
    if a[0] != b[0] {
      BeforeIsStrict(lower, a[0], b[0]);
    }
  }

  lemma TailMembers(lower: Lower, s: seq<Node>, n: Node)
    requires StrictlySorted(lower, s) && s != []
    ensures n in s[1..] <==> n in s && n != s[0]
  {
    BeforeIsStrict(lower, s[0], s[0]);
  }

  /** Inserts into a sorted list, as the sort does. */
  method Insert(lower: Lower, list: seq<Node>, n: Node) returns (longer: seq<Node>)
    requires StrictlySorted(lower, list) && forall i :: 0 <= i < |list| ==> list[i].nodeName != n.nodeName
    ensures StrictlySorted(lower, longer)
    ensures forall m :: m in longer <==> m in list || m == n
  {
    var k := 0;
    while k < |list| && Before(lower, list[k], n)
      invariant k <= |list| && forall i :: 0 <= i < k ==> Before(lower, list[i], n)
    {
      k := k + 1;
    }
    longer := list[..k] + [n] + list[k..];
    forall j | k <= j < |list|
      ensures Before(lower, n, list[j])
    {
      BeforeIsStrict(lower, list[k], n);
      if k < j {
        BeforeIsTransitive(lower, n, list[k], list[j]);
      }
    }
    assert forall m :: m in list <==> m in list[..k] || m in list[k..] by {
      assert list == list[..k] + list[k..];
    }
  }

  function Tally(present: bool): nat {
    if present then 1 else 0
  }

  /** How many labels are `key` without case. */
  function LabelCount(lower: Lower, list: seq<Node>, key: string): nat {
    if list == [] then 0
    else LabelCount(lower, list[..|list| - 1], key) + Tally(lower(list[|list| - 1].display) == key)
  }

  /** The distinguishing part of a description, or all of it, or the node name. */
  function Qualifier(n: Node): string {
    if n.description.None? || AsciiLower(n.description.value) == AsciiLower(n.display) then n.nodeName
    else
      var description := n.description.value;
      if |n.display| <= |description| && AsciiLower(description[..|n.display|]) == AsciiLower(n.display) then
        var suffix := TrimRight(TrimLeft(description[|n.display|..]));
        if suffix == "" then description else suffix
      else description
  }

  predicate Ambiguous(lower: Lower, all: seq<Node>, n: Node) {
    LabelCount(lower, all, lower(n.display)) > 1
  }

  /** How many ambiguous nodes share this label and qualifier without case. */
  function QualifierCount(lower: Lower, all: seq<Node>, list: seq<Node>, key: string, qualifier: string): nat {
    if list == [] then 0
    else
      var last := list[|list| - 1];
      QualifierCount(lower, all, list[..|list| - 1], key, qualifier)
      + Tally(Ambiguous(lower, all, last) && lower(last.display) == key && lower(Qualifier(last)) == qualifier)
  }

  /** The description alone tells the node from all others of its label. */
  predicate ByDescription(lower: Lower, all: seq<Node>, n: Node) {
    QualifierCount(lower, all, all, lower(n.display), lower(Qualifier(n))) == 1
  }

  /** The text that qualifies an ambiguous label. */
  function Qualification(lower: Lower, all: seq<Node>, n: Node): string {
    if ByDescription(lower, all, n) then Qualifier(n) else n.nodeName
  }

  function Suffix(lower: Lower, all: seq<Node>, n: Node): string {
    DASH + Qualification(lower, all, n)
  }

  function Relabeled(lower: Lower, all: seq<Node>, n: Node): Node {
    if Ambiguous(lower, all, n) then n.(display := n.display + Suffix(lower, all, n)) else n
  }

  function Deduplicated(lower: Lower, list: seq<Node>): seq<Node> {
    seq(|list|, i requires 0 <= i < |list| => Relabeled(lower, list, list[i]))
  }

  function CountOf<K(==)>(counts: map<K, nat>, key: K): nat {
    if key in counts then counts[key] else 0
  }

  method CountLabels(lower: Lower, candidates: array<Node>) returns (counts: map<string, nat>)
    ensures forall key :: CountOf(counts, key) == LabelCount(lower, candidates[..], key)
  {
    counts := map[];
    for i := 0 to candidates.Length
      invariant forall key :: CountOf(counts, key) == LabelCount(lower, candidates[..i], key)
    {
      assert candidates[..i + 1][..i] == candidates[..i];
      var key := lower(candidates[i].display);
      counts := counts[key := CountOf(counts, key) + 1];
    }
    assert candidates[..candidates.Length] == candidates[..];
  }

  method CountQualifiers(lower: Lower, candidates: array<Node>, counts: map<string, nat>)
    returns (qualifiers: map<(string, string), nat>)
    requires forall key :: CountOf(counts, key) == LabelCount(lower, candidates[..], key)
    ensures forall k, q :: CountOf(qualifiers, (k, q)) == QualifierCount(lower, candidates[..], candidates[..], k, q)
  {
    qualifiers := map[];
    ghost var all := candidates[..];
    for i := 0 to candidates.Length
      invariant forall k, q :: CountOf(qualifiers, (k, q)) == QualifierCount(lower, all, candidates[..i], k, q)
    {
      assert candidates[..i + 1][..i] == candidates[..i];
      var shown := lower(candidates[i].display);
      if CountOf(counts, shown) > 1 {
        var key := (shown, lower(Qualifier(candidates[i])));
        qualifiers := qualifiers[key := CountOf(qualifiers, key) + 1];
      }
    }
    assert candidates[..candidates.Length] == candidates[..];
  }

  /** Qualifies ambiguous labels in place. */
  method DeduplicateLabels(lower: Lower, candidates: array<Node>)
    modifies candidates
    ensures candidates[..] == Deduplicated(lower, old(candidates[..]))
  {
    hide LabelCount, QualifierCount, Qualifier;
    ghost var all := candidates[..];
    var counts := CountLabels(lower, candidates);
    var qualifiers := CountQualifiers(lower, candidates, counts);
    for i := 0 to candidates.Length
      invariant candidates[..i] == Deduplicated(lower, all)[..i]
      invariant candidates[i..] == all[i..]
    {
      assert candidates[i] == candidates[i..][0] == all[i];
      var n := candidates[i];
      if CountOf(counts, lower(n.display)) > 1 {
        var qualifier := if CountOf(qualifiers, (lower(n.display), lower(Qualifier(n)))) == 1 then Qualifier(n) else n.nodeName;
        candidates[i] := n.(display := n.display + DASH + qualifier);
        assert n.display + DASH + qualifier == n.display + Suffix(lower, all, n);
      }
      assert candidates[i + 1..] == all[i + 1..];
    }
  }

  datatype Snapshot = Snapshot(revision: nat, nodeNames: seq<string>, candidates: seq<Node>)

  function Names(nodes: seq<Node>): seq<string> {
    seq(|nodes|, i requires 0 <= i < |nodes| => nodes[i].nodeName)
  }

  /** The snapshot of a node list: the sorted one-per-name list, relabeled. */
  ghost predicate IsSnapshotOf(lower: Lower, nodes: seq<Node>, s: Snapshot) {
    && s.nodeNames == Names(nodes)
    && exists list :: Lists(lower, ByName(nodes), list) && s.candidates == Deduplicated(lower, list)
  }

  method TakeSnapshot(lower: Lower, revision: nat, nodes: seq<Node>) returns (s: Snapshot)
    ensures s.revision == revision && IsSnapshotOf(lower, nodes, s)
  {
    var byName: map<string, Node> := map[];
    for i := 0 to |nodes|
      invariant byName == ByName(nodes[..i])
    {
      assert nodes[..i + 1][..i] == nodes[..i];
      var candidate := nodes[i];
      if IsCandidate(candidate) {
        if candidate.nodeName in byName {
          if candidate.isDefault && !byName[candidate.nodeName].isDefault {
            byName := byName[candidate.nodeName := candidate];
          }
        } else {
          byName := byName[candidate.nodeName := candidate];
        }
      }
    }
    assert nodes[..|nodes|] == nodes;
    var list := SortByLabel(lower, nodes, byName);
    var candidates := new Node[|list|](i requires 0 <= i < |list| => list[i]);
    assert candidates[..] == list;
    DeduplicateLabels(lower, candidates);
    s := Snapshot(revision, Names(nodes), candidates[..]);
  }

  /** Lists the values of the name map in label order. */
  method SortByLabel(lower: Lower, nodes: seq<Node>, byName: map<string, Node>) returns (list: seq<Node>)
    requires byName == ByName(nodes)
    ensures Lists(lower, byName, list)
  {
    var rest := byName.Keys;
    list := [];
    forall name
      ensures name in byName ==> byName[name].nodeName == name
    {
      ByNameIsCanonical(nodes, name);
    }
    while rest != {}
      invariant rest <= byName.Keys && StrictlySorted(lower, list)
      invariant forall n :: n in list <==> n.nodeName in byName && byName[n.nodeName] == n && n.nodeName !in rest
      decreases |rest|
    {
      var name :| name in rest;
      rest := rest - {name};
      list := Insert(lower, list, byName[name]);
    }
  }

  /** How many raw nodes had this name, offered or not. */
  function NameOccurrences(names: seq<string>, name: string): nat {
    if names == [] then 0 else NameOccurrences(names[..|names| - 1], name) + Tally(names[|names| - 1] == name)
  }

  function NamedNodes(nodes: seq<Node>, name: string): set<nat> {
    set i: nat | i < |nodes| && nodes[i].nodeName == name
  }

  /** The snapshot still knows how often a name occurs among all nodes, the hidden and the ineligible ones included. */
  lemma {:induction false} OccurrencesAreCounted(nodes: seq<Node>, name: string)
    ensures NameOccurrences(Names(nodes), name) == |NamedNodes(nodes, name)|
  {
    if nodes == [] {
      assert NamedNodes([], name) == {};
    } else {
      var n: nat := |nodes| - 1;
      OccurrencesAreCounted(nodes[..n], name);
      assert Names(nodes)[..n] == Names(nodes[..n]);
      assert NamedNodes(nodes, name) == NamedNodes(nodes[..n], name) + if nodes[n].nodeName == name then {n} else {};
    }
  }

  /** Any two snapshots of the same nodes show the same candidates. */
  lemma SnapshotIsDetermined(lower: Lower, nodes: seq<Node>, s: Snapshot, t: Snapshot)
    requires IsSnapshotOf(lower, nodes, s) && IsSnapshotOf(lower, nodes, t)
    ensures s.candidates == t.candidates
  {
    var a :| Lists(lower, ByName(nodes), a) && s.candidates == Deduplicated(lower, a);
    var b :| Lists(lower, ByName(nodes), b) && t.candidates == Deduplicated(lower, b);
    SortedIsUnique(lower, a, b);
  }

  function Device(name: string, description: Option<string>, display: string): Node {
    Node(0, None, name, description, None, Some(MEDIA_CLASS_SOURCE), None, false, None, None, None, None, [],
      Available, false, display)
  }

  lemma CountThree(lower: Lower, a: Node, b: Node, c: Node, key: string)
    ensures LabelCount(lower, [a, b, c], key) ==
      Tally(lower(a.display) == key) + Tally(lower(b.display) == key) + Tally(lower(c.display) == key)
  {
    assert [a, b, c][..2] == [a, b] && [a, b][..1] == [a] && [a][..0] == [];
    assert LabelCount(lower, [a], key) == Tally(lower(a.display) == key);
    assert LabelCount(lower, [a, b], key) == Tally(lower(a.display) == key) + Tally(lower(b.display) == key);
  }

  lemma CountThreeQualifiers(lower: Lower, all: seq<Node>, a: Node, b: Node, c: Node, key: string, q: string)
    ensures
      var shares := (n: Node) => Ambiguous(lower, all, n) && lower(n.display) == key && lower(Qualifier(n)) == q;
      QualifierCount(lower, all, [a, b, c], key, q) == Tally(shares(a)) + Tally(shares(b)) + Tally(shares(c))
  {
    assert [a, b, c][..2] == [a, b] && [a, b][..1] == [a] && [a][..0] == [];
    assert QualifierCount(lower, all, [a, b], key, q) == QualifierCount(lower, all, [a], key, q)
      + Tally(Ambiguous(lower, all, b) && lower(b.display) == key && lower(Qualifier(b)) == q);
  }

  lemma {:induction false} LabelsCounted(lower: Lower, list: seq<Node>, key: string, i: nat, j: nat)
    requires i <= j < |list| && lower(list[i].display) == key == lower(list[j].display)
    ensures LabelCount(lower, list, key) >= if i < j then 2 else 1
  {
    var n := |list| - 1;
    if j < n {
      LabelsCounted(lower, list[..n], key, i, j);
    } else if i < j {
      LabelsCounted(lower, list[..n], key, i, i);
    }
  }

  lemma {:induction false} LabelCountedOnce(lower: Lower, list: seq<Node>, key: string, i: nat)
    requires i < |list| && forall j :: 0 <= j < |list| && j != i ==> lower(list[j].display) != key
    ensures LabelCount(lower, list, key) <= 1
  {
    var n := |list| - 1;
    if i < n {
      LabelCountedOnce(lower, list[..n], key, i);
    } else {
      LabelNotCounted(lower, list[..n], key);
    }
  }

  lemma {:induction false} LabelNotCounted(lower: Lower, list: seq<Node>, key: string)
    requires forall j :: 0 <= j < |list| ==> lower(list[j].display) != key
    ensures LabelCount(lower, list, key) == 0
  {
    if list != [] {
      LabelNotCounted(lower, list[..|list| - 1], key);
    }
  }

  /** A label is qualified exactly if another candidate shows the same one, but for case. */
  lemma AmbiguousIff(lower: Lower, list: seq<Node>, i: nat)
    requires i < |list|
    ensures
      Ambiguous(lower, list, list[i]) <==>
      exists j :: 0 <= j < |list| && j != i && lower(list[j].display) == lower(list[i].display)
  {
    var key := lower(list[i].display);
    if j :| 0 <= j < |list| && j != i && lower(list[j].display) == key {
      if i < j {
        LabelsCounted(lower, list, key, i, j);
      } else {
        LabelsCounted(lower, list, key, j, i);
      }
    } else {
      LabelCountedOnce(lower, list, key, i);
    }
  }

  /** The node is ambiguous with this label and qualifier. */
  predicate Shares(lower: Lower, all: seq<Node>, n: Node, key: string, qualifier: string) {
    Ambiguous(lower, all, n) && lower(n.display) == key && lower(Qualifier(n)) == qualifier
  }

  lemma {:induction false} QualifiersCounted(
    lower: Lower, all: seq<Node>, list: seq<Node>, key: string, qualifier: string, i: nat, j: nat)
    requires i <= j < |list| && Shares(lower, all, list[i], key, qualifier) && Shares(lower, all, list[j], key, qualifier)
    ensures QualifierCount(lower, all, list, key, qualifier) >= if i < j then 2 else 1
  {
    var n := |list| - 1;
    if j < n {
      QualifiersCounted(lower, all, list[..n], key, qualifier, i, j);
    } else if i < j {
      QualifiersCounted(lower, all, list[..n], key, qualifier, i, i);
    }
  }

  lemma {:induction false} QualifierCountedOnce(
    lower: Lower, all: seq<Node>, list: seq<Node>, key: string, qualifier: string, i: nat)
    requires i < |list| && forall j :: 0 <= j < |list| && j != i ==> !Shares(lower, all, list[j], key, qualifier)
    ensures QualifierCount(lower, all, list, key, qualifier) == Tally(Shares(lower, all, list[i], key, qualifier))
  {
    var n := |list| - 1;
    if i < n {
      QualifierCountedOnce(lower, all, list[..n], key, qualifier, i);
    } else {
      QualifierNotCounted(lower, all, list[..n], key, qualifier);
    }
  }

  lemma {:induction false} QualifierNotCounted(lower: Lower, all: seq<Node>, list: seq<Node>, key: string, qualifier: string)
    requires forall j :: 0 <= j < |list| ==> !Shares(lower, all, list[j], key, qualifier)
    ensures QualifierCount(lower, all, list, key, qualifier) == 0
  {
    if list != [] {
      QualifierNotCounted(lower, all, list[..|list| - 1], key, qualifier);
    }
  }

  /** The description qualifies an ambiguous node exactly if no other node of its label has the same one, but for case. */
  lemma ByDescriptionIff(lower: Lower, list: seq<Node>, i: nat)
    requires i < |list| && Ambiguous(lower, list, list[i])
    ensures
      ByDescription(lower, list, list[i]) <==>
      !exists j :: 0 <= j < |list| && j != i && lower(list[j].display) == lower(list[i].display)
                   && lower(Qualifier(list[j])) == lower(Qualifier(list[i]))
  {
    var key, qualifier := lower(list[i].display), lower(Qualifier(list[i]));
    assert Shares(lower, list, list[i], key, qualifier);
    if j :| 0 <= j < |list| && j != i && lower(list[j].display) == key && lower(Qualifier(list[j])) == qualifier {
      assert Shares(lower, list, list[j], key, qualifier);
      if i < j {
        QualifiersCounted(lower, list, list, key, qualifier, i, j);
      } else {
        QualifiersCounted(lower, list, list, key, qualifier, j, i);
      }
    } else {
      QualifierCountedOnce(lower, list, list, key, qualifier, i);
    }
  }

  lemma {:induction false} TrimmedLeft(gap: string, text: string)
    requires Blank(gap) && (text == "" || !IsWhitespace(text[0]))
    ensures TrimLeft(gap + text) == text
  {
    if gap == "" {
      assert gap + text == text;
    } else {
      assert (gap + text)[1..] == gap[1..] + text;
      TrimmedLeft(gap[1..], text);
    }
  }

  lemma {:induction false} TrimmedRight(text: string, gap: string)
    requires Blank(gap) && (text == "" || !IsWhitespace(text[|text| - 1]))
    ensures TrimRight(text + gap) == text
  {
    if gap == "" {
      assert text + gap == text;
    } else {
      assert (text + gap)[..|text + gap| - 1] == text + gap[..|gap| - 1];
      TrimmedRight(text, gap[..|gap| - 1]);
    }
  }

  /** A description that repeats the label, in whatever case, qualifies by what it says beyond it. */
  lemma QualifierIsTheRest(n: Node, head: string, gap: string, rest: string, tail: string)
    requires n.description == Some(head + (gap + (rest + tail))) && SameLetters(head, n.display)
    requires Blank(gap) && Blank(tail) && rest != "" && !IsWhitespace(rest[0]) && !IsWhitespace(rest[|rest| - 1])
    ensures Qualifier(n) == rest
  {
    var description := n.description.value;
    SameLettersIff(head, n.display);
    assert |AsciiLower(description)| > |AsciiLower(n.display)|;
    assert description[..|n.display|] == head && description[|n.display|..] == gap + (rest + tail);
    TrimmedLeft(gap, rest + tail);
    TrimmedRight(rest, tail);
  }

  lemma {:induction false} BlankTrims(text: string)
    requires Blank(text)
    ensures TrimLeft(text) == ""
  {
    if text != "" {
      BlankTrims(text[1..]);
    }
  }

  /** Otherwise the whole description qualifies, or the node name if there is none or it says no more than the label. */
  lemma QualifierFallsBack(n: Node)
    ensures n.description.None? || SameLetters(n.description.value, n.display) ==> Qualifier(n) == n.nodeName
    ensures n.description.Some? && !SameLetters(n.description.value, n.display)
      && (|n.description.value| < |n.display| || !SameLetters(n.description.value[..|n.display|], n.display)
          || Blank(n.description.value[|n.display|..]))
      ==> Qualifier(n) == n.description.value
  {
    if n.description.Some? {
      SameLettersIff(n.description.value, n.display);
      if |n.description.value| >= |n.display| {
        SameLettersIff(n.description.value[..|n.display|], n.display);
        if Blank(n.description.value[|n.display|..]) {
          BlankTrims(n.description.value[|n.display|..]);
        }
      }
    }
  }

  /** One label, and the description that qualifies one node is the name that qualifies the other. */
  predicate Crossed(lower: Lower, all: seq<Node>, a: Node, b: Node) {
    a.display == b.display && ByDescription(lower, all, a) && !ByDescription(lower, all, b) && Qualifier(a) == b.nodeName
  }

  /**
   * The longer label of `b` begins with the label of `a` and a dash. What follows the dash is all that qualifies `a`, or,
   * if `b` is itself ambiguous, so much of it that the qualification of `b` completes it.
   */
  predicate Overlaps(lower: Lower, all: seq<Node>, a: Node, b: Node) {
    && Ambiguous(lower, all, a) && a.display + DASH[..2] <= b.display
    && var rest := b.display[|a.display| + 2..];
       if Ambiguous(lower, all, b) then [' '] + Qualification(lower, all, a) == rest + DASH + Qualification(lower, all, b)
       else rest == [' '] + Qualification(lower, all, a)
  }

  lemma SameLabelCrosses(lower: Lower, list: seq<Node>, i: nat, j: nat)
    requires i < j < |list| && list[i].nodeName != list[j].nodeName && list[i].display == list[j].display
    ensures Ambiguous(lower, list, list[i]) && Ambiguous(lower, list, list[j])
    ensures
      Suffix(lower, list, list[i]) == Suffix(lower, list, list[j]) <==>
      Crossed(lower, list, list[i], list[j]) || Crossed(lower, list, list[j], list[i])
  {
    var a, b := list[i], list[j];
    LabelsCounted(lower, list, lower(a.display), i, j);
    assert Suffix(lower, list, a)[|DASH|..] == Qualification(lower, list, a);
    assert Suffix(lower, list, b)[|DASH|..] == Qualification(lower, list, b);
    if Qualifier(a) == Qualifier(b) {
      QualifiersCounted(lower, list, list, lower(a.display), lower(Qualifier(a)), i, j);
    }
  }

  lemma SamePrefix(a: string, b: string, x: string, y: string)
    requires a + x == b + y
    ensures |a| == |b| ==> a == b && x == y
    ensures |a| < |b| ==> a < b
  {
    if |a| <= |b| {
      assert a == (a + x)[..|a|] == (b + y)[..|a|] == b[..|a|];
      assert |a| == |b| ==> (a + x)[|a|..] == x && (b + y)[|b|..] == y;
    }
  }

  function SuffixIfAny(lower: Lower, all: seq<Node>, n: Node): string {
    if Ambiguous(lower, all, n) then Suffix(lower, all, n) else ""
  }

  lemma FinalLabel(lower: Lower, list: seq<Node>, i: nat)
    requires i < |list|
    ensures Deduplicated(lower, list)[i].display == list[i].display + SuffixIfAny(lower, list, list[i])
  {
  }

  /** A text `a — qa` that is split into a longer `b` and an empty or dashed rest is split behind its dash. */
  lemma SplitBehindDash(a: string, qa: string, b: string, tail: string)
    requires |a| < |b| && (tail == "" || DASH <= tail) && a + (DASH + qa) == b + tail
    ensures a + DASH[..2] <= b && [' '] + qa == b[|a| + 2..] + tail
  {
    var shown := a + (DASH + qa);
    var k := |a| + 1;
    assert shown[k] == EM_DASH;
    assert shown[|b|..] == tail;
    assert k < |b|;
    assert a + DASH[..2] == shown[..k + 1] == b[..k + 1];
    assert [' '] + qa == shown[k + 1..] == b[k + 1..] + tail;
  }

  lemma JoinAtDash(a: string, qa: string, b: string, tail: string)
    requires a + DASH[..2] <= b && [' '] + qa == b[|a| + 2..] + tail
    ensures a + (DASH + qa) == b + tail
  {
    var front := a + DASH[..2];
    assert a + (DASH + qa) == front + ([' '] + qa);
    assert front + (b[|front|..] + tail) == (front + b[|front|..]) + tail == b + tail;
  }

  lemma OverlapRest(lower: Lower, all: seq<Node>, b: Node, rest: string)
    ensures rest + SuffixIfAny(lower, all, b) ==
      if Ambiguous(lower, all, b) then rest + DASH + Qualification(lower, all, b) else rest
  {
  }

  lemma OverlapsIff(lower: Lower, all: seq<Node>, a: Node, b: Node)
    requires |a.display| < |b.display|
    ensures
      a.display + SuffixIfAny(lower, all, a) == b.display + SuffixIfAny(lower, all, b) <==> Overlaps(lower, all, a, b)
  {
    hide Qualification, Ambiguous;
    var tail := SuffixIfAny(lower, all, b);
    if a.display + SuffixIfAny(lower, all, a) == b.display + tail {
      assert |SuffixIfAny(lower, all, a)| > 0;
      SplitBehindDash(a.display, Qualification(lower, all, a), b.display, tail);
      OverlapRest(lower, all, b, b.display[|a.display| + 2..]);
    }
    if Overlaps(lower, all, a, b) {
      OverlapRest(lower, all, b, b.display[|a.display| + 2..]);
      JoinAtDash(a.display, Qualification(lower, all, a), b.display, tail);
    }
  }

  /**
   * When final labels coincide, for nodes of distinct names: exactly if two nodes of one label are qualified by the same
   * text, one as its description and one as its name, or if one label goes on behind the other as the other is qualified.
   */
  lemma LabelsCoincideIff(lower: Lower, list: seq<Node>, i: nat, j: nat)
    requires i < j < |list| && list[i].nodeName != list[j].nodeName
    ensures
      var a, b := list[i], list[j];
      Deduplicated(lower, list)[i].display == Deduplicated(lower, list)[j].display <==>
      || Crossed(lower, list, a, b) || Crossed(lower, list, b, a)
      || Overlaps(lower, list, a, b) || Overlaps(lower, list, b, a)
  {
    var a, b := list[i], list[j];
    FinalLabel(lower, list, i);
    FinalLabel(lower, list, j);
    hide Deduplicated, Suffix;
    if a.display == b.display {
      SameLabelCrosses(lower, list, i, j);
      SamePrefixes(a.display, SuffixIfAny(lower, list, a), SuffixIfAny(lower, list, b));
    } else if |a.display| < |b.display| {
      OverlapsIff(lower, list, a, b);
    } else if |b.display| < |a.display| {
      OverlapsIff(lower, list, b, a);
    } else if a.display + SuffixIfAny(lower, list, a) == b.display + SuffixIfAny(lower, list, b) {
      SamePrefix(a.display, b.display, SuffixIfAny(lower, list, a), SuffixIfAny(lower, list, b));
    }
  }

  lemma SamePrefixes(a: string, x: string, y: string)
    ensures a + x == a + y <==> x == y
  {
    if a + x == a + y {
      SamePrefix(a, a, x, y);
    }
  }

  /** Labels without an em dash coincide exactly by a description that is another node's name. */
  lemma DashFreeLabelsCoincideIff(lower: Lower, list: seq<Node>, i: nat, j: nat)
    requires i < j < |list| && list[i].nodeName != list[j].nodeName
    requires EM_DASH !in list[i].display && EM_DASH !in list[j].display
    ensures
      Deduplicated(lower, list)[i].display == Deduplicated(lower, list)[j].display <==>
      Crossed(lower, list, list[i], list[j]) || Crossed(lower, list, list[j], list[i])
  {
    LabelsCoincideIff(lower, list, i, j);
    assert !Overlaps(lower, list, list[i], list[j]) by {
      if Overlaps(lower, list, list[i], list[j]) {
        OverlapShowsADash(lower, list, list[i], list[j]);
      }
    }
    assert !Overlaps(lower, list, list[j], list[i]) by {
      if Overlaps(lower, list, list[j], list[i]) {
        OverlapShowsADash(lower, list, list[j], list[i]);
      }
    }
  }

  /** The label of `b` is the label of `a`, a dash, and what qualifies `a`, and needs no qualification itself. */
  predicate Spells(lower: Lower, all: seq<Node>, a: Node, b: Node) {
    && Ambiguous(lower, all, a) && !Ambiguous(lower, all, b)
    && b.display == a.display + DASH + Qualification(lower, all, a)
  }

  /** If it is the qualifying texts that have no em dash, a label has to spell out the other one with its qualification. */
  lemma DashFreeQualifiersCoincideIff(lower: Lower, list: seq<Node>, i: nat, j: nat)
    requires i < j < |list| && list[i].nodeName != list[j].nodeName
    requires EM_DASH !in Qualification(lower, list, list[i]) && EM_DASH !in Qualification(lower, list, list[j])
    ensures
      var a, b := list[i], list[j];
      Deduplicated(lower, list)[i].display == Deduplicated(lower, list)[j].display <==>
      || Crossed(lower, list, a, b) || Crossed(lower, list, b, a)
      || Spells(lower, list, a, b) || Spells(lower, list, b, a)
  {
    LabelsCoincideIff(lower, list, i, j);
    OverlapSpells(lower, list, list[i], list[j]);
    OverlapSpells(lower, list, list[j], list[i]);
  }

  lemma DashShows(before: string, after: string)
    ensures EM_DASH in before + DASH + after
  {
    assert (before + DASH + after)[|before| + 1] == EM_DASH;
  }

  lemma OverlapSpells(lower: Lower, all: seq<Node>, a: Node, b: Node)
    requires EM_DASH !in Qualification(lower, all, a)
    ensures Overlaps(lower, all, a, b) <==> Spells(lower, all, a, b)
  {
    hide Qualification, Ambiguous;
    var q := Qualification(lower, all, a);
    assert EM_DASH !in [' '] + q;
    assert a.display + DASH + q == (a.display + DASH[..2]) + ([' '] + q);
    if Overlaps(lower, all, a, b) {
      var rest := b.display[|a.display| + 2..];
      assert b.display == (a.display + DASH[..2]) + rest;
      DashShows(rest, Qualification(lower, all, b));
    }
  }

  lemma OverlapShowsADash(lower: Lower, all: seq<Node>, a: Node, b: Node)
    requires Overlaps(lower, all, a, b)
    ensures EM_DASH in b.display
  {
    assert (a.display + DASH[..2])[|a.display| + 1] == EM_DASH;
  }

  /** Such labels exist: here one label already reads like another with its qualifier. */
  lemma LabelsMayCollide(lower: Lower)
    requires forall s :: s in {"m", "m" + DASH + "x", "x", "y"} ==> lower(s) == s
    ensures
      var own, first, second := Device("p", None, "m" + DASH + "x"), Device("q", Some("x"), "m"), Device("r", Some("y"), "m");
      var final := Deduplicated(lower, [own, first, second]);
      final[0].display == final[1].display && own.nodeName != first.nodeName
  {
    var own, first, second := Device("p", None, "m" + DASH + "x"), Device("q", Some("x"), "m"), Device("r", Some("y"), "m");
    var all := [own, first, second];
    assert own.display[1] == ' ' && |own.display| == 5;
    CountThree(lower, own, first, second, "m");
    CountThree(lower, own, first, second, own.display);
    assert Qualifier(first) == "x" && Qualifier(second) == "y" by {
      assert AsciiLower("x")[0] == 'x' && AsciiLower("y")[0] == 'y' && AsciiLower("m")[0] == 'm';
    }
    CountThreeQualifiers(lower, all, own, first, second, "m", "x");
  }

  /** And here a description is another node's name. */
  lemma DashFreeLabelsMayCollide(lower: Lower)
    requires forall s :: s in {"m", "r", "d"} ==> lower(s) == s
    ensures
      var first, second, third := Device("p", Some("r"), "m"), Device("r", Some("d"), "m"), Device("q", Some("d"), "m");
      var final := Deduplicated(lower, [first, second, third]);
      final[0].display == final[1].display && EM_DASH !in first.display
  {
    var first, second, third := Device("p", Some("r"), "m"), Device("r", Some("d"), "m"), Device("q", Some("d"), "m");
    var all := [first, second, third];
    CountThree(lower, first, second, third, "m");
    assert Qualifier(first) == "r" && Qualifier(second) == "d" == Qualifier(third) by {
      assert AsciiLower("r")[0] == 'r' && AsciiLower("d")[0] == 'd' && AsciiLower("m")[0] == 'm';
    }
    CountThreeQualifiers(lower, all, first, second, third, "m", "r");
    CountThreeQualifiers(lower, all, first, second, third, "m", "d");
  }

  /** The node shows up in the snapshot under some label. */
  ghost predicate Shows(s: Snapshot, i: nat, n: Node) {
    i < |s.candidates| && s.candidates[i].(display := n.display) == n
  }

  lemma ShownNodesAreListed(lower: Lower, nodes: seq<Node>, s: Snapshot, list: seq<Node>, i: nat)
    requires Lists(lower, ByName(nodes), list) && s.candidates == Deduplicated(lower, list) && i < |list|
    ensures Shows(s, i, list[i]) && s.candidates[i].nodeName == list[i].nodeName
    ensures list[i].nodeName in ByName(nodes) && ByName(nodes)[list[i].nodeName] == list[i]
  {
    assert list[i] in list;
  }

  lemma ListedNamesAreDistinct(lower: Lower, list: seq<Node>, nodes: map<string, Node>, i: nat, j: nat)
    requires Lists(lower, nodes, list) && i < j < |list|
    ensures list[i].nodeName != list[j].nodeName
  {
    assert list[i] in list && list[j] in list;
    BeforeIsStrict(lower, list[i], list[j]);
    assert Before(lower, list[i], list[j]);
  }

  /** Candidate names are distinct. */
  lemma CandidateNamesAreDistinct(lower: Lower, nodes: seq<Node>, s: Snapshot, i: nat, j: nat)
    requires IsSnapshotOf(lower, nodes, s) && i < j < |s.candidates|
    ensures s.candidates[i].nodeName != s.candidates[j].nodeName
  {
    var list: seq<Node> :| Lists(lower, ByName(nodes), list) && s.candidates == Deduplicated(lower, list);
    ShownNodesAreListed(lower, nodes, s, list, i);
    ShownNodesAreListed(lower, nodes, s, list, j);
    ListedNamesAreDistinct(lower, list, ByName(nodes), i, j);
  }

  /** The snapshot has a candidate of this name at `i`. */
  ghost predicate Offers(s: Snapshot, i: nat, name: string) {
    i < |s.candidates| && s.candidates[i].nodeName == name
  }

  /** A name is offered exactly if some eligible node has it. */
  lemma NameIsOfferedIff(lower: Lower, nodes: seq<Node>, s: Snapshot, name: string)
    requires IsSnapshotOf(lower, nodes, s)
    ensures (exists i: nat :: Offers(s, i, name)) <==> exists k: nat :: Eligible(nodes, k, name)
  {
    var list: seq<Node> :| Lists(lower, ByName(nodes), list) && s.candidates == Deduplicated(lower, list);
    ByNameIsCanonical(nodes, name);
    if name in ByName(nodes) {
      var n := ByName(nodes)[name];
      assert n.nodeName == name;
      assert n in list;
      var i: nat :| i < |list| && list[i] == n;
      ShownNodesAreListed(lower, nodes, s, list, i);
      assert Offers(s, i, name);
    }
    if i: nat :| Offers(s, i, name) {
      ShownNodesAreListed(lower, nodes, s, list, i);
      assert name in ByName(nodes);
    }
  }

  /** The candidate of a name is one of its eligible nodes, a default one if there is any. */
  lemma CandidateIsEligible(lower: Lower, nodes: seq<Node>, s: Snapshot, i: nat)
    requires IsSnapshotOf(lower, nodes, s) && i < |s.candidates|
    ensures exists k: nat :: Eligible(nodes, k, s.candidates[i].nodeName) && Shows(s, i, nodes[k])
    ensures s.candidates[i].isDefault <==> HasDefault(nodes, s.candidates[i].nodeName)
  {
    var list: seq<Node> :| Lists(lower, ByName(nodes), list) && s.candidates == Deduplicated(lower, list);
    ShownNodesAreListed(lower, nodes, s, list, i);
    ByNameIsCanonical(nodes, list[i].nodeName);
  }

  /**
   * The candidate list is canonical: every eligible name is offered exactly once, and as default exactly if one of its
   * eligible nodes is the default.
   */
  lemma CandidatesAreCanonical(lower: Lower, nodes: seq<Node>, s: Snapshot, name: string)
    requires IsSnapshotOf(lower, nodes, s)
    ensures (exists i: nat :: Offers(s, i, name)) <==> exists k: nat :: Eligible(nodes, k, name)
    ensures forall i: nat, j: nat :: Offers(s, i, name) && Offers(s, j, name) ==> i == j
    ensures forall i: nat :: Offers(s, i, name) ==> (s.candidates[i].isDefault <==> HasDefault(nodes, name))
  {
    NameIsOfferedIff(lower, nodes, s, name);
    forall i: nat, j: nat | Offers(s, i, name) && Offers(s, j, name)
      ensures i == j
    {
      if i < j {
        CandidateNamesAreDistinct(lower, nodes, s, i, j);
      } else if j < i {
        CandidateNamesAreDistinct(lower, nodes, s, j, i);
      }
    }
    forall i: nat | Offers(s, i, name)
      ensures s.candidates[i].isDefault <==> HasDefault(nodes, name)
    {
      CandidateIsEligible(lower, nodes, s, i);
    }
  }

  /** Eligible nodes have distinct names. */
  ghost predicate DistinctNames(nodes: seq<Node>) {
    forall i: nat, j: nat :: i < j < |nodes| && IsCandidate(nodes[i]) && IsCandidate(nodes[j]) ==>
      nodes[i].nodeName != nodes[j].nodeName
  }

  /** Some eligible node is `n` up to its registry ID. */
  ghost predicate Present(nodes: seq<Node>, n: Node) {
    exists i: nat :: i < |nodes| && IsCandidate(nodes[i]) && nodes[i].Erased() == n
  }

  function ErasedAll(list: seq<Node>): seq<Node> {
    seq(|list|, i requires 0 <= i < |list| => list[i].Erased())
  }

  lemma ListShowsThePresent(lower: Lower, nodes: seq<Node>, list: seq<Node>, n: Node)
    requires DistinctNames(nodes) && Lists(lower, ByName(nodes), list)
    ensures n in ErasedAll(list) <==> Present(nodes, n)
  {
    ByNameIsCanonical(nodes, n.nodeName);
    if n in ErasedAll(list) {
      var k :| 0 <= k < |list| && ErasedAll(list)[k] == n;
      assert list[k] in list;
      var i: nat :| Eligible(nodes, i, n.nodeName) && nodes[i] == ByName(nodes)[n.nodeName];
      assert nodes[i].Erased() == n;
    }
    if Present(nodes, n) {
      var i: nat :| i < |nodes| && IsCandidate(nodes[i]) && nodes[i].Erased() == n;
      assert Eligible(nodes, i, n.nodeName);
      var j: nat :| Eligible(nodes, j, n.nodeName) && nodes[j] == ByName(nodes)[n.nodeName];
      assert i == j;
      assert nodes[i] in list;
      var k :| 0 <= k < |list| && list[k] == nodes[i];
      assert ErasedAll(list)[k] == n;
    }
  }

  lemma ErasingKeepsOrder(lower: Lower, list: seq<Node>)
    requires StrictlySorted(lower, list)
    ensures StrictlySorted(lower, ErasedAll(list))
  {
    forall i, j | 0 <= i < j < |list|
      ensures Before(lower, ErasedAll(list)[i], ErasedAll(list)[j])
    {
      assert Before(lower, list[i], list[j]);
    }
  }

  lemma {:induction false} ErasingKeepsCounts(lower: Lower, list: seq<Node>, key: string)
    ensures LabelCount(lower, ErasedAll(list), key) == LabelCount(lower, list, key)
  {
    if list != [] {
      assert ErasedAll(list)[..|list| - 1] == ErasedAll(list[..|list| - 1]);
      ErasingKeepsCounts(lower, list[..|list| - 1], key);
    }
  }

  lemma {:induction false} ErasingKeepsQualifierCounts(
    lower: Lower, all: seq<Node>, list: seq<Node>, key: string, qualifier: string)
    ensures QualifierCount(lower, ErasedAll(all), ErasedAll(list), key, qualifier) ==
      QualifierCount(lower, all, list, key, qualifier)
  {
    if list != [] {
      var n := |list| - 1;
      assert ErasedAll(list)[..n] == ErasedAll(list[..n]);
      ErasingKeepsQualifierCounts(lower, all, list[..n], key, qualifier);
      ErasingKeepsCounts(lower, all, lower(list[n].display));
    }
  }

  lemma ErasingCommutesWithRelabeling(lower: Lower, list: seq<Node>)
    ensures ErasedAll(Deduplicated(lower, list)) == Deduplicated(lower, ErasedAll(list))
  {
    forall i | 0 <= i < |list|
      ensures Relabeled(lower, list, list[i]).Erased() == Relabeled(lower, ErasedAll(list), list[i].Erased())
    {
      ErasingKeepsCounts(lower, list, lower(list[i].display));
      ErasingKeepsQualifierCounts(lower, list, list, lower(list[i].display), lower(Qualifier(list[i])));
    }
  }

  /**
   * With distinct eligible names, the candidates depend neither on the order in which nodes arrived nor on how the
   * registry numbered them: only the stored IDs may differ.
   */
  lemma OrderAndNumberingDoNotMatter(lower: Lower, a: seq<Node>, b: seq<Node>, s: Snapshot, t: Snapshot)
    requires IsSnapshotOf(lower, a, s) && IsSnapshotOf(lower, b, t)
    requires DistinctNames(a) && DistinctNames(b)
    requires forall n :: Present(a, n) <==> Present(b, n)
    ensures ErasedAll(s.candidates) == ErasedAll(t.candidates)
  {
    var x :| Lists(lower, ByName(a), x) && s.candidates == Deduplicated(lower, x);
    var y :| Lists(lower, ByName(b), y) && t.candidates == Deduplicated(lower, y);
    forall n
      ensures n in ErasedAll(x) <==> n in ErasedAll(y)
    {
      ListShowsThePresent(lower, a, x, n);
      ListShowsThePresent(lower, b, y, n);
    }
    ErasingKeepsOrder(lower, x);
    ErasingKeepsOrder(lower, y);
    SortedIsUnique(lower, ErasedAll(x), ErasedAll(y));
    ErasingCommutesWithRelabeling(lower, x);
    ErasingCommutesWithRelabeling(lower, y);
  }

  datatype DeviceSelector = DeviceSelector(nodeName: string, deviceSerial: Option<string>, deviceName: Option<string>)

  predicate Matches(selector: DeviceSelector, n: Node) {
    && selector.nodeName == n.nodeName
    && if selector.deviceSerial.Some? then n.deviceSerial == selector.deviceSerial
       else selector.deviceName.Some? ==> n.deviceName == selector.deviceName
  }

  datatype SelectionPolicy = SelectionPolicy(selector: Option<DeviceSelector>, followDefault: bool, fallbackToDefault: bool)

  datatype InputUnavailable = SelectedInputMissing | DefaultInputMissing | NotConfigured

  datatype InputResolution = Chosen(node: Node) | Missing(reason: InputUnavailable)

  function FirstMatch(list: seq<Node>, selector: DeviceSelector): Option<Node> {
    if list == [] then None else if Matches(selector, list[0]) then Some(list[0]) else FirstMatch(list[1..], selector)
  }

  function FirstDefault(list: seq<Node>): Option<Node> {
    if list == [] then None else if list[0].isDefault then Some(list[0]) else FirstDefault(list[1..])
  }

  function Default(list: seq<Node>): InputResolution {
    match FirstDefault(list)
    case Some(n) => Chosen(n)
    case None => Missing(DefaultInputMissing)
  }

  function Resolve(list: seq<Node>, policy: SelectionPolicy): InputResolution {
    match policy.selector
    case Some(selector) =>
      (match FirstMatch(list, selector)
       case Some(n) => Chosen(n)
       case None => if policy.fallbackToDefault then Default(list) else Missing(SelectedInputMissing))
    case None => if policy.followDefault then Default(list) else Missing(NotConfigured)
  }

  lemma {:induction false} FirstMatchMatches(list: seq<Node>, selector: DeviceSelector)
    ensures match FirstMatch(list, selector)
      case Some(n) => n in list && Matches(selector, n)
      case None => forall n :: n in list ==> !Matches(selector, n)
  {
    if list != [] {
      FirstMatchMatches(list[1..], selector);
    }
  }

  /**
   * Without fallback, a selector resolves to a candidate exactly if that candidate matches: it is then the only one,
   * and resolution fails exactly if there is none.
   */
  lemma SelectorResolvesIff(lower: Lower, nodes: seq<Node>, s: Snapshot, policy: SelectionPolicy, n: Node)
    requires IsSnapshotOf(lower, nodes, s) && policy.selector.Some? && !policy.fallbackToDefault
    ensures Resolve(s.candidates, policy) == Chosen(n) <==> n in s.candidates && Matches(policy.selector.value, n)
    ensures Resolve(s.candidates, policy).Missing? <==> forall m :: m in s.candidates ==> !Matches(policy.selector.value, m)
    ensures Resolve(s.candidates, policy).Missing? ==> Resolve(s.candidates, policy).reason == SelectedInputMissing
  {
    var selector := policy.selector.value;
    FirstMatchMatches(s.candidates, selector);
    if n in s.candidates && Matches(selector, n) {
      var found := FirstMatch(s.candidates, selector).value;
      var i: nat :| i < |s.candidates| && s.candidates[i] == n;
      var j: nat :| j < |s.candidates| && s.candidates[j] == found;
      CandidatesAreCanonical(lower, nodes, s, selector.nodeName);
      assert Offers(s, i, selector.nodeName) && Offers(s, j, selector.nodeName);
    }
  }

  /**
   * Over the registry itself: a selector without fallback resolves exactly if the node that stands for its name
   * matches; an eligible match behind a representative of the same name is not found.
   */
  lemma SelectorSeesRepresentative(lower: Lower, nodes: seq<Node>, s: Snapshot, policy: SelectionPolicy)
    requires IsSnapshotOf(lower, nodes, s) && policy.selector.Some? && !policy.fallbackToDefault
    ensures
      var selector := policy.selector.value;
      Resolve(s.candidates, policy).Chosen? <==>
      selector.nodeName in ByName(nodes) && Matches(selector, ByName(nodes)[selector.nodeName])
  {
    var selector := policy.selector.value;
    var list: seq<Node> :| Lists(lower, ByName(nodes), list) && s.candidates == Deduplicated(lower, list);
    FirstMatchMatches(s.candidates, selector);
    ByNameIsCanonical(nodes, selector.nodeName);
    if Resolve(s.candidates, policy).Chosen? {
      var found := FirstMatch(s.candidates, selector).value;
      var i: nat :| i < |s.candidates| && s.candidates[i] == found;
      ShownNodesAreListed(lower, nodes, s, list, i);
    }
    if selector.nodeName in ByName(nodes) && Matches(selector, ByName(nodes)[selector.nodeName]) {
      assert ByName(nodes)[selector.nodeName] in list;
      var i: nat :| i < |list| && list[i] == ByName(nodes)[selector.nodeName];
      ShownNodesAreListed(lower, nodes, s, list, i);
      assert s.candidates[i] in s.candidates && Matches(selector, s.candidates[i]);
    }
  }

  /** Such a match exists: of two devices of one name, the second cannot be selected by its serial number. */
  lemma HiddenMatchIsMissed(lower: Lower, s: Snapshot)
    requires
      var first := Device("mic", None, "m").(deviceSerial := Some("1"));
      var second := Device("mic", None, "m").(deviceSerial := Some("2"));
      IsSnapshotOf(lower, [first, second], s)
    ensures
      var hidden, selector := Device("mic", None, "m").(deviceSerial := Some("2")), DeviceSelector("mic", Some("2"), None);
      && IsCandidate(hidden) && Matches(selector, hidden)
      && Resolve(s.candidates, SelectionPolicy(Some(selector), false, false)) == Missing(SelectedInputMissing)
  {
    var first := Device("mic", None, "m").(deviceSerial := Some("1"));
    var second := Device("mic", None, "m").(deviceSerial := Some("2"));
    var policy := SelectionPolicy(Some(DeviceSelector("mic", Some("2"), None)), false, false);
    assert [first, second][..1] == [first] && [first][..0] == [];
    assert ByName([first]) == Merged(map[], first);
    assert ByName([first, second])["mic"] == first;
    SelectorSeesRepresentative(lower, [first, second], s, policy);
  }

  /** The strongest stable selector that a node supports. */
  function SelectorOf(n: Node): DeviceSelector {
    DeviceSelector(n.nodeName, n.deviceSerial, n.deviceName)
  }

  /** A node is selected by its name and its serial number, or by its name and its device where it has no serial number. */
  lemma SelectorsIdentify(n: Node, m: Node)
    ensures Matches(SelectorOf(n), m) <==>
      && m.nodeName == n.nodeName && (n.deviceSerial.Some? ==> m.deviceSerial == n.deviceSerial)
      && (n.deviceSerial.None? && n.deviceName.Some? ==> m.deviceName == n.deviceName)
  {
  }

  /** Whatever input is offered can be selected, and its stored selector finds it again. */
  lemma SelectionRoundTrips(lower: Lower, nodes: seq<Node>, s: Snapshot, n: Node)
    requires IsSnapshotOf(lower, nodes, s) && n in s.candidates
    ensures Resolve(s.candidates, SelectionPolicy(Some(SelectorOf(n)), false, false)) == Chosen(n)
  {
    SelectorsIdentify(n, n);
    SelectorResolvesIff(lower, nodes, s, SelectionPolicy(Some(SelectorOf(n)), false, false), n);
  }

  lemma {:induction false} FirstDefaultIsDefault(list: seq<Node>)
    ensures match FirstDefault(list)
      case Some(n) => n in list && n.isDefault
      case None => forall n :: n in list ==> !n.isDefault
  {
    if list != [] {
      FirstDefaultIsDefault(list[1..]);
    }
  }

  /**
   * How the policy decides: a matching selection wins; the default input comes second, if the policy follows it or falls
   * back to it; and a policy that does neither names what is missing.
   */
  lemma PolicyDecides(list: seq<Node>, policy: SelectionPolicy)
    ensures
      var selected := policy.selector.Some? && exists n :: n in list && Matches(policy.selector.value, n);
      var mayDefault := if policy.selector.Some? then policy.fallbackToDefault else policy.followDefault;
      match Resolve(list, policy)
      case Chosen(n) => n in list && if selected then Matches(policy.selector.value, n) else mayDefault && n.isDefault
      case Missing(reason) =>
        && !selected && (mayDefault ==> forall n :: n in list ==> !n.isDefault)
        && reason ==
           if mayDefault then DefaultInputMissing else if policy.selector.Some? then SelectedInputMissing else NotConfigured
  {
    FirstDefaultIsDefault(list);
    if policy.selector.Some? {
      FirstMatchMatches(list, policy.selector.value);
    }
  }

  /** The monitor as a value; `shown` is what the last snapshot was taken of. */
  datatype Inputs = Inputs(nodes: map<nat, Node>, defaultName: Option<string>)

  datatype Monitor = Monitor(inputs: Inputs, dirtySince: Option<nat>, revision: nat, shown: Inputs)

  const EMPTY := Inputs(map[], None)

  function Dirtied(m: Monitor, inputs: Inputs, now: nat): Monitor {
    m.(inputs := inputs, dirtySince := if m.dirtySince.Some? then m.dirtySince else Some(now))
  }

  function Upserted(m: Monitor, n: Node, now: nat): Monitor {
    if n.globalId in m.inputs.nodes && m.inputs.nodes[n.globalId] == n then m
    else Dirtied(m, m.inputs.(nodes := m.inputs.nodes[n.globalId := n]), now)
  }

  function Removed(m: Monitor, id: nat, now: nat): Monitor {
    if id in m.inputs.nodes then Dirtied(m, m.inputs.(nodes := m.inputs.nodes - {id}), now) else m
  }

  function Defaulted(m: Monitor, name: Option<string>, now: nat): Monitor {
    if m.inputs.defaultName == name then m else Dirtied(m, m.inputs.(defaultName := name), now)
  }

  function Published(m: Monitor): Monitor {
    m.(dirtySince := None, revision := SaturatingAdd(m.revision, 1), shown := m.inputs)
  }

  predicate Due(m: Monitor, now: nat) {
    m.dirtySince.Some? && SaturatingSub(now, m.dirtySince.value) >= REGISTRY_COALESCE_MILLIS
  }

  function Marked(n: Node, defaultName: Option<string>): Node {
    n.(isDefault := defaultName == Some(n.nodeName))
  }

  /** The nodes in ascending ID order, each marked as default or not. */
  ghost predicate IsMarkedList(inputs: Inputs, ids: seq<nat>, nodes: seq<Node>) {
    && |nodes| == |ids| && (forall id :: id in ids <==> id in inputs.nodes)
    && (forall i, j :: 0 <= i < j < |ids| ==> ids[i] < ids[j])
    && forall i :: 0 <= i < |ids| ==> ids[i] in inputs.nodes && nodes[i] == Marked(inputs.nodes[ids[i]], inputs.defaultName)
  }

  ghost predicate Pictures(lower: Lower, inputs: Inputs, s: Snapshot) {
    exists ids, nodes :: IsMarkedList(inputs, ids, nodes) && IsSnapshotOf(lower, nodes, s)
  }

  ghost predicate IsLeast(s: set<nat>, least: nat) {
    least in s && forall other :: other in s ==> least <= other
  }

  lemma {:induction false} Least(s: set<nat>) returns (least: nat)
    requires s != {}
    ensures IsLeast(s, least)
    decreases |s|
  {
    var x :| x in s;
    if s == {x} {
      least := x;
    } else {
      var rest := s - {x};
      assert s == rest + {x} && rest != {};
      var y := Least(rest);
      least := if x <= y then x else y;
    }
  }

  /** `ids` lists the IDs outside `rest` in ascending order, all below those in `rest`. */
  ghost predicate Taken(nodes: map<nat, Node>, ids: seq<nat>, rest: set<nat>) {
    && (forall id :: id in nodes <==> id in ids || id in rest)
    && (forall i, j :: 0 <= i < j < |ids| ==> ids[i] < ids[j])
    && (forall id, other :: id in ids && other in rest ==> id < other)
  }

  lemma TakeLeast(nodes: map<nat, Node>, ids: seq<nat>, rest: set<nat>, id: nat)
    requires Taken(nodes, ids, rest) && id in rest && forall other :: other in rest ==> id <= other
    ensures Taken(nodes, ids + [id], rest - {id})
  {
    forall i, j | 0 <= i < j < |ids + [id]|
      ensures (ids + [id])[i] < (ids + [id])[j]
    {
      assert ids[i] in ids;
    }
  }

  /** Walks the ordered map. */
  method MarkInOrder(nodes: map<nat, Node>, defaultName: Option<string>) returns (ghost ids: seq<nat>, marked: seq<Node>)
    ensures IsMarkedList(Inputs(nodes, defaultName), ids, marked)
  {
    ids, marked := [], [];
    var rest := nodes.Keys;
    while rest != {}
      invariant Taken(nodes, ids, rest) && |marked| == |ids|
      invariant forall i :: 0 <= i < |ids| ==> ids[i] in nodes && marked[i] == Marked(nodes[ids[i]], defaultName)
      decreases |rest|
    {
      ghost var least := Least(rest);
      var id :| id in rest && forall other :: other in rest ==> id <= other;
      TakeLeast(nodes, ids, rest, id);
      marked := marked + [Marked(nodes[id], defaultName)];
      ids := ids + [id];
      rest := rest - {id};
    }
  }

  class RegistryMonitor {
    const lower: Lower
    var nodes: map<nat, Node>
    var defaultNodeName: Option<string>
    var dirtySince: Option<nat>
    var revision: nat
    ghost var shown: Inputs

    ghost function Value(): Monitor
      reads this
    {
      Monitor(Inputs(nodes, defaultNodeName), dirtySince, revision, shown)
    }

    constructor (lower: Lower)
      ensures this.lower == lower && Value() == Monitor(EMPTY, None, 0, EMPTY)
    {
      this.lower := lower;
      nodes, defaultNodeName, dirtySince, revision := map[], None, None, 0;
      shown := EMPTY;
    }

    method MarkDirty(now: nat)
      modifies `dirtySince
      ensures dirtySince == if old(dirtySince).Some? then old(dirtySince) else Some(now)
    {
      if dirtySince.None? {
        dirtySince := Some(now);
      }
    }

    method Upsert(node: Node, now: nat)
      modifies this
      ensures Value() == Upserted(old(Value()), node, now)
    {
      var changed := node.globalId !in nodes || nodes[node.globalId] != node;
      if changed {
        nodes := nodes[node.globalId := node];
        MarkDirty(now);
      }
    }

    method Remove(globalId: nat, now: nat)
      modifies this
      ensures Value() == Removed(old(Value()), globalId, now)
    {
      if globalId in nodes {
        nodes := nodes - {globalId};
        MarkDirty(now);
      }
    }

    method SetDefaultNodeName(name: Option<string>, now: nat)
      modifies this
      ensures Value() == Defaulted(old(Value()), name, now)
    {
      if defaultNodeName != name {
        defaultNodeName := name;
        MarkDirty(now);
      }
    }

    method PublishNow() returns (s: Snapshot)
      modifies this
      ensures Value() == Published(old(Value())) && s.revision == revision
      ensures Pictures(lower, Inputs(nodes, defaultNodeName), s)
    {
      dirtySince := None;
      revision := SaturatingAdd(revision, 1);
      shown := Inputs(nodes, defaultNodeName);
      ghost var ids;
      var marked;
      ids, marked := MarkInOrder(nodes, defaultNodeName);
      s := TakeSnapshot(lower, revision, marked);
    }

    method PublishIfDue(now: nat) returns (s: Option<Snapshot>)
      modifies this
      ensures s.Some? <==> Due(old(Value()), now)
      ensures s.None? ==> Value() == old(Value())
      ensures s.Some? ==> Value() == Published(old(Value())) && Pictures(lower, Inputs(nodes, defaultNodeName), s.value)
    {
      if dirtySince.None? || SaturatingSub(now, dirtySince.value) < REGISTRY_COALESCE_MILLIS {
        return None;
      }
      var snapshot := PublishNow();
      s := Some(snapshot);
    }
  }

  datatype Event =
    | UpsertEvent(node: Node, at: nat)
    | RemoveEvent(id: nat, at: nat)
    | DefaultEvent(name: Option<string>, at: nat)
    | PollEvent(at: nat)
    | InitialEvent(at: nat)

  function EventStep(m: Monitor, e: Event): Monitor {
    match e
    case UpsertEvent(n, at) => Upserted(m, n, at)
    case RemoveEvent(id, at) => Removed(m, id, at)
    case DefaultEvent(name, at) => Defaulted(m, name, at)
    case PollEvent(at) => if Due(m, at) then Published(m) else m
    case InitialEvent(_) => Published(m)
  }

  function Run(events: seq<Event>): Monitor {
    if events == [] then Monitor(EMPTY, None, 0, EMPTY) else EventStep(Run(events[..|events| - 1]), events[|events| - 1])
  }

  ghost predicate Ordered(events: seq<Event>) {
    forall i, j :: 0 <= i < j < |events| ==> events[i].at <= events[j].at
  }

  /** A clean monitor has published what it holds, and a dirty one knows the time of an earlier event. */
  lemma {:induction false} CleanMeansShown(events: seq<Event>)
    requires Ordered(events)
    ensures Run(events).dirtySince.None? ==> Run(events).shown == Run(events).inputs
    ensures Run(events).dirtySince.Some? ==> events != [] && Run(events).dirtySince.value <= events[|events| - 1].at
  {
    if events != [] {
      var n := |events| - 1;
      assert Ordered(events[..n]);
      CleanMeansShown(events[..n]);
      if n > 0 {
        assert events[n - 1].at <= events[n].at;
      }
    }
  }

  /**
   * No change is lost and none is starved: after any poll, either the published view is current or it is younger than
   * the debounce window, however many further changes arrived meanwhile.
   */
  lemma PollBoundsStaleness(events: seq<Event>, now: nat)
    requires Ordered(events + [PollEvent(now)])
    ensures
      var m := Run(events + [PollEvent(now)]);
      m.shown == m.inputs || (m.dirtySince.Some? && m.dirtySince.value <= now < m.dirtySince.value + 50)
  {
    var all := events + [PollEvent(now)];
    assert all[..|events|] == events;
    assert forall i, j :: 0 <= i < j < |events| ==> all[i].at <= all[j].at;
    CleanMeansShown(events);
    if events != [] {
      assert all[|events| - 1].at <= all[|events|].at;
    }
  }

  /** Further changes, and polls within the debounce window that began at `since`. */
  predicate Within(events: seq<Event>, since: nat) {
    forall i :: 0 <= i < |events| ==>
      !events[i].InitialEvent? && (events[i].PollEvent? ==> events[i].at < since + REGISTRY_COALESCE_MILLIS)
  }

  /**
   * Changes do not push a publication back: whatever else changes, the window that the first unpublished change began
   * stays open until its end, and the first poll after that publishes everything, as one revision.
   */
  lemma {:induction false} ChangesDoNotPostpone(events: seq<Event>, more: seq<Event>, now: nat)
    requires Run(events).dirtySince.Some? && Within(more, Run(events).dirtySince.value)
    ensures
      var m := Run(events + more);
      && m.dirtySince == Run(events).dirtySince && m.revision == Run(events).revision && m.shown == Run(events).shown
      && Run(events + more + [PollEvent(now)]) ==
         if now >= m.dirtySince.value + 50
         then Monitor(m.inputs, None, SaturatingAdd(m.revision, 1), m.inputs) else m
  {
    assert (events + more + [PollEvent(now)])[..|events + more|] == events + more;
    if more == [] {
      assert events + more == events;
    } else {
      var n := |more| - 1;
      assert Within(more[..n], Run(events).dirtySince.value);
      assert (events + more)[..|events + more| - 1] == events + more[..n];
      ChangesDoNotPostpone(events, more[..n], now);
    }
  }

  /** The last thing the events say about a node, and about the default. */
  function LatestNode(events: seq<Event>, id: nat): Option<Node> {
    if events == [] then None
    else
      var n := |events| - 1;
      match events[n]
      case UpsertEvent(node, _) => if node.globalId == id then Some(node) else LatestNode(events[..n], id)
      case RemoveEvent(other, _) => if other == id then None else LatestNode(events[..n], id)
      case _ => LatestNode(events[..n], id)
  }

  function LatestDefault(events: seq<Event>): Option<string> {
    if events == [] then None
    else if events[|events| - 1].DefaultEvent? then events[|events| - 1].name
    else LatestDefault(events[..|events| - 1])
  }

  /** What will be published is exactly the last word on every node, whether or not it changed anything. */
  lemma {:induction false} HoldsTheLatest(events: seq<Event>, id: nat)
    ensures
      var inputs := Run(events).inputs;
      && LatestNode(events, id) == (if id in inputs.nodes then Some(inputs.nodes[id]) else None)
      && LatestDefault(events) == inputs.defaultName
  {
    if events != [] {
      HoldsTheLatest(events[..|events| - 1], id);
    }
  }

  lemma NamedNodeIsMarked(inputs: Inputs, ids: seq<nat>, nodes: seq<Node>, i: nat)
    requires IsMarkedList(inputs, ids, nodes) && i < |nodes|
    ensures ids[i] in inputs.nodes && IsCandidate(nodes[i]) == IsCandidate(inputs.nodes[ids[i]])
    ensures nodes[i].nodeName == inputs.nodes[ids[i]].nodeName
    ensures nodes[i].isDefault <==> inputs.defaultName == Some(nodes[i].nodeName)
  {
  }

  /** Following the default resolves exactly if an eligible node has the default's name, and then to that name. */
  lemma DefaultResolvesIff(lower: Lower, inputs: Inputs, s: Snapshot, fallback: bool)
    requires Pictures(lower, inputs, s)
    ensures
      var resolved := Resolve(s.candidates, SelectionPolicy(None, true, fallback));
      && (resolved.Chosen? <==>
          exists id :: id in inputs.nodes && IsCandidate(inputs.nodes[id])
                       && inputs.defaultName == Some(inputs.nodes[id].nodeName))
      && (resolved.Chosen? ==> inputs.defaultName == Some(resolved.node.nodeName))
  {
    var ids: seq<nat>, nodes: seq<Node> :| IsMarkedList(inputs, ids, nodes) && IsSnapshotOf(lower, nodes, s);
    hide *;
    var policy := SelectionPolicy(None, true, fallback);
    PolicyDecides(s.candidates, policy);
    if Resolve(s.candidates, policy).Chosen? {
      ShownDefaultIsNamed(lower, inputs, ids, nodes, s, Resolve(s.candidates, policy).node);
    }
    if id :| id in inputs.nodes && IsCandidate(inputs.nodes[id]) && inputs.defaultName == Some(inputs.nodes[id].nodeName) {
      NamedDefaultIsShown(lower, inputs, ids, nodes, s, id);
    }
  }

  lemma ShownDefaultIsNamed(lower: Lower, inputs: Inputs, ids: seq<nat>, nodes: seq<Node>, s: Snapshot, shown: Node)
    requires IsMarkedList(inputs, ids, nodes) && IsSnapshotOf(lower, nodes, s)
    requires shown in s.candidates && shown.isDefault
    ensures inputs.defaultName == Some(shown.nodeName)
    ensures exists id :: id in inputs.nodes && IsCandidate(inputs.nodes[id]) && inputs.nodes[id].nodeName == shown.nodeName
  {
    hide IsMarkedList, IsSnapshotOf, IsCandidate;
    var i: nat :| i < |s.candidates| && s.candidates[i] == shown;
    CandidateIsEligible(lower, nodes, s, i);
    var k: nat :| Eligible(nodes, k, shown.nodeName) && nodes[k].isDefault;
    MarkedLength(inputs, ids, nodes);
    NamedNodeIsMarked(inputs, ids, nodes, k);
  }

  lemma MarkedLength(inputs: Inputs, ids: seq<nat>, nodes: seq<Node>)
    requires IsMarkedList(inputs, ids, nodes)
    ensures |ids| == |nodes| && forall id :: id in ids <==> id in inputs.nodes
  {
  }

  lemma NamedDefaultIsShown(lower: Lower, inputs: Inputs, ids: seq<nat>, nodes: seq<Node>, s: Snapshot, id: nat)
    requires IsMarkedList(inputs, ids, nodes) && IsSnapshotOf(lower, nodes, s)
    requires id in inputs.nodes && IsCandidate(inputs.nodes[id]) && inputs.defaultName == Some(inputs.nodes[id].nodeName)
    ensures exists n :: n in s.candidates && n.isDefault
  {
    hide IsMarkedList, IsSnapshotOf, IsCandidate;
    MarkedLength(inputs, ids, nodes);
    var k: nat :| k < |ids| && ids[k] == id;
    NamedNodeIsMarked(inputs, ids, nodes, k);
    var name := inputs.nodes[id].nodeName;
    assert Eligible(nodes, k, name) && nodes[k].isDefault;
    CandidatesAreCanonical(lower, nodes, s, name);
    var i: nat :| Offers(s, i, name);
    assert s.candidates[i] in s.candidates && s.candidates[i].isDefault;
  }
}
