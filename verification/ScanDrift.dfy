/** Comparison of two stored scans and the drift verdict built on it. */
module ScanDrift {
  import Basics
  import opened Digraph
  import opened StringOrder

  datatype Asset = Asset(kind: string, value: string, parent: string)
  datatype Finding = Finding(title: string, cve: string, asset: string)

  /** A parent whose values of one asset type differ between the scans. */
  datatype Change = Change(parent: string, before: set<string>, after: set<string>)

  datatype Differential = Differential(
    newOpenPorts: seq<string>,
    newlyClosedPorts: seq<string>,
    newHosts: seq<string>,
    removedHosts: seq<string>,
    serviceChanges: seq<string>,
    certificateChanges: seq<string>,
    technologyChanges: seq<string>,
    vulnerabilityChanges: seq<string>)

  // ---------------------------------------------------------------- projections of a scan

  ghost function Values(assets: seq<Asset>, kind: string): set<string> {
    set i | 0 <= i < |assets| && assets[i].kind == kind :: assets[i].value
  }

  ghost function ValuesUnder(assets: seq<Asset>, kind: string, parent: string): set<string> {
    set i | 0 <= i < |assets| && assets[i].kind == kind && assets[i].parent == parent ::
      assets[i].value
  }

  function FindingKey(f: Finding): string {
    (if f.cve != "" then f.cve else f.title) + "@" + f.asset
  }

  ghost function FindingKeys(findings: seq<Finding>): set<string> {
    set i | 0 <= i < |findings| ::
      (if findings[i].cve == "" then findings[i].title else findings[i].cve) + "@" + findings[i].asset
  }

  ghost predicate SameByParent(baseline: seq<Asset>, current: seq<Asset>, kind: string) {
    forall p :: ValuesUnder(baseline, kind, p) == ValuesUnder(current, kind, p)
  }

  /** All six projections of the two scans agree. */
  ghost predicate NoDrift(baseline: seq<Asset>, current: seq<Asset>, baselineFindings: seq<Finding>,
                          currentFindings: seq<Finding>) {
    && Values(baseline, "open_port") == Values(current, "open_port")
    && Values(baseline, "host") == Values(current, "host")
    && SameByParent(baseline, current, "service")
    && SameByParent(baseline, current, "tls_certificate")
    && SameByParent(baseline, current, "technology")
    && FindingKeys(baselineFindings) == FindingKeys(currentFindings)
  }

  // ---------------------------------------------------------------- what the lists should hold

  /** The parent's values differ, and the change says how. */
  ghost predicate IsChange(c: Change, baseline: seq<Asset>, current: seq<Asset>, kind: string) {
    && c.before == ValuesUnder(baseline, kind, c.parent)
    && c.after == ValuesUnder(current, kind, c.parent)
    && c.before != c.after
  }

  ghost predicate ListsChanges(changes: seq<Change>, baseline: seq<Asset>, current: seq<Asset>, kind: string) {
    NoDuplicates(changes) && forall c :: c in changes <==> IsChange(c, baseline, current, kind)
  }

  ghost function Label(values: set<string>): string {
    Basics.Join(Sorted(Listing(values)), ", ")
  }

  ghost function ChangeText(c: Change): string {
    c.parent + ": " + Label(c.before) + " -> " + Label(c.after)
  }

  ghost function Texts(changes: seq<Change>): seq<string> {
    seq(|changes|, i requires 0 <= i < |changes| => ChangeText(changes[i]))
  }

  /** The texts of the changes, sorted. Different changes may have the same text. */
  ghost predicate Renders(texts: seq<string>, changes: seq<Change>) {
    InOrder(texts) && multiset(texts) == multiset(Texts(changes))
  }

  ghost predicate ListsChangeTexts(texts: seq<string>, baseline: seq<Asset>, current: seq<Asset>, kind: string) {
    exists changes :: ListsChanges(changes, baseline, current, kind) && Renders(texts, changes)
  }

  ghost predicate ListsFindingChanges(changes: seq<string>, before: set<string>, after: set<string>) {
    && NoDuplicates(changes) && InOrder(changes)
    && forall x :: x in changes <==> IsFindingChange(x, before, after)
  }

  ghost predicate IsFindingChange(x: string, before: set<string>, after: set<string>) {
    (exists k :: k in after - before && x == "new: " + k) || (exists k :: k in before - after && x == "removed: " + k)
  }

  /** Ports come in any order, all other lists are sorted. */
  ghost predicate IsDifference(d: Differential, baseline: seq<Asset>, current: seq<Asset>,
                               baselineFindings: seq<Finding>, currentFindings: seq<Finding>) {
    && Lists(d.newOpenPorts, Values(current, "open_port") - Values(baseline, "open_port"))
    && Lists(d.newlyClosedPorts, Values(baseline, "open_port") - Values(current, "open_port"))
    && SortedList(d.newHosts, Values(current, "host") - Values(baseline, "host"))
    && SortedList(d.removedHosts, Values(baseline, "host") - Values(current, "host"))
    && ListsChangeTexts(d.serviceChanges, baseline, current, "service")
    && ListsChangeTexts(d.certificateChanges, baseline, current, "tls_certificate")
    && ListsChangeTexts(d.technologyChanges, baseline, current, "technology")
    && ListsFindingChanges(d.vulnerabilityChanges, FindingKeys(baselineFindings), FindingKeys(currentFindings))
  }

  // ---------------------------------------------------------------- the comparison

  method ValuesByType(assets: seq<Asset>, kind: string) returns (result: set<string>)
    ensures result == Values(assets, kind)
  {
    result := {};
    for i := 0 to |assets|
      invariant result == Values(assets[..i], kind)
    {
      ghost var longer := assets[..i + 1];
      assert longer == assets[..i] + [assets[i]];
      if assets[i].kind == kind {
        result := result + {assets[i].value};
        assert longer[i].value in Values(longer, kind);
      }
      assert forall j :: 0 <= j < i ==> longer[j] == assets[..i][j];
    }
    assert assets[..|assets|] == assets;
  }

  /** The elements of a that are not in b, in the order of the visit. */
  method Missing(a: set<string>, b: set<string>) returns (values: seq<string>)
    ensures Lists(values, a - b)
  {
    values := [];
    var left := a;
    while left != {}
      invariant left <= a && NoDuplicates(values)
      invariant forall x :: x in values <==> x in a && x !in left && x !in b
    {
      var value :| value in left;
      if value !in b {
        values := values + [value];
      }
      left := left - {value};
    }
  }

  /** The elements of a that are not in b, sorted. */
  method SetDifference(a: set<string>, b: set<string>) returns (values: seq<string>)
    ensures SortedList(values, a - b)
  {
    values := Missing(a, b);
    SortedListing(values, a - b);
    values := Sorted(values);
  }

  method SetLabel(values: set<string>) returns (text: string)
    ensures text == Label(values)
  {
    var items := Missing(values, {});
    assert values - {} == values;
    SortedListing(items, values);
    SortedListing(Listing(values), values);
    SortedListIsUnique(Sorted(items), Sorted(Listing(values)), values);
    text := Basics.Join(Sorted(items), ", ");
  }

  method CompareScanRuns(baseline: seq<Asset>, current: seq<Asset>)
    returns (newOpen: seq<string>, newlyClosed: seq<string>)
    ensures Lists(newOpen, Values(current, "open_port") - Values(baseline, "open_port"))
    ensures Lists(newlyClosed, Values(baseline, "open_port") - Values(current, "open_port"))
  {
    var baselinePorts := ValuesByType(baseline, "open_port");
    var currentPorts := ValuesByType(current, "open_port");
    newOpen := Missing(currentPorts, baselinePorts);
    newlyClosed := Missing(baselinePorts, currentPorts);
  }

  lemma SubsetSize<T>(a: set<T>, b: set<T>)
    requires a <= b
    ensures |a| <= |b|
    ensures |a| == |b| ==> a == b
  {
    assert b == a + (b - a);
  }

  /** Equal size and nothing missing on the left is equality of the sets. */
  method SameSet(a: set<string>, b: set<string>) returns (same: bool)
    ensures same <==> a == b
  {
    var missing := SetDifference(a, b);
    same := |a| == |b| && |missing| == 0;
    if |missing| == 0 {
      assert a <= b by {
        forall x | x in a ensures x in b { assert x in a - b ==> x in missing; }
      }
      SubsetSize(a, b);
    } else {
      assert missing[0] in a - b;
    }
  }

  ghost predicate Groups(byParent: map<string, set<string>>, assets: seq<Asset>, kind: string) {
    forall p :: (if p in byParent then byParent[p] else {}) == ValuesUnder(assets, kind, p)
  }

  lemma GroupOne(assets: seq<Asset>, i: nat, kind: string, p: string)
    requires i < |assets|
    ensures ValuesUnder(assets[..i + 1], kind, p) ==
      ValuesUnder(assets[..i], kind, p)
      + (if assets[i].kind == kind && assets[i].parent == p then {assets[i].value} else {})
  {
    var longer, shorter := assets[..i + 1], assets[..i];
    assert longer == shorter + [assets[i]];
    assert forall j :: 0 <= j < i ==> longer[j] == shorter[j];
    if assets[i].kind == kind && assets[i].parent == p {
      assert longer[i].value in ValuesUnder(longer, kind, p);
    }
  }

  method GroupByParent(assets: seq<Asset>, kind: string) returns (byParent: map<string, set<string>>)
    ensures Groups(byParent, assets, kind)
  {
    byParent := map[];
    for i := 0 to |assets|
      invariant Groups(byParent, assets[..i], kind)
    {
      ghost var before := byParent;
      var asset := assets[i];
      if asset.kind == kind {
        if asset.parent !in byParent {
          byParent := byParent[asset.parent := {}];
        }
        byParent := byParent[asset.parent := byParent[asset.parent] + {asset.value}];
      }
      forall p ensures (if p in byParent then byParent[p] else {}) == ValuesUnder(assets[..i + 1], kind, p) {
        GroupOne(assets, i, kind, p);
        assert (if p in before then before[p] else {}) == ValuesUnder(assets[..i], kind, p);
      }
    }
    assert assets[..|assets|] == assets;
  }

  /** The changes of some of the parents. */
  ghost predicate ListsChangesOf(changes: seq<Change>, parents: set<string>, baseline: seq<Asset>,
                                 current: seq<Asset>, kind: string) {
    && NoDuplicates(changes)
    && forall c :: c in changes <==> c.parent in parents && IsChange(c, baseline, current, kind)
  }

  lemma OneMoreParent(changes: seq<Change>, parents: set<string>, c: Change, baseline: seq<Asset>,
                      current: seq<Asset>, kind: string)
    requires ListsChangesOf(changes, parents, baseline, current, kind) && c.parent !in parents
    requires c == Change(c.parent, ValuesUnder(baseline, kind, c.parent), ValuesUnder(current, kind, c.parent))
    ensures ListsChangesOf(if c.before == c.after then changes else changes + [c], parents + {c.parent},
                           baseline, current, kind)
  {
  }

  lemma NoOtherParents(before: map<string, set<string>>, after: map<string, set<string>>, changes: seq<Change>,
                       baseline: seq<Asset>, current: seq<Asset>, kind: string)
    requires Groups(before, baseline, kind) && Groups(after, current, kind)
    requires ListsChangesOf(changes, before.Keys + after.Keys, baseline, current, kind)
    ensures ListsChanges(changes, baseline, current, kind)
  {
    forall p | p !in before && p !in after ensures ValuesUnder(baseline, kind, p) == ValuesUnder(current, kind, p) {
    }
  }

  method DescribeChange(parent: string, before: set<string>, after: set<string>) returns (text: string)
    ensures text == ChangeText(Change(parent, before, after))
  {
    var beforeLabel := SetLabel(before);
    var afterLabel := SetLabel(after);
    text := parent + ": " + beforeLabel + " -> " + afterLabel;
  }

  lemma OneMoreText(texts: seq<string>, changes: seq<Change>, c: Change)
    requires texts == Texts(changes)
    ensures texts + [ChangeText(c)] == Texts(changes + [c])
  {
  }

  /** One more parent is compared. */
  method AddParent(texts0: seq<string>, ghost changes0: seq<Change>, parent: string, before: set<string>,
                   after: set<string>)
    returns (texts: seq<string>, ghost changes: seq<Change>)
    requires texts0 == Texts(changes0)
    ensures changes == if before == after then changes0 else changes0 + [Change(parent, before, after)]
    ensures texts == Texts(changes)
  {
    var same := SameSet(before, after);
    if same {
      return texts0, changes0;
    }
    var text := DescribeChange(parent, before, after);
    OneMoreText(texts0, changes0, Change(parent, before, after));
    return texts0 + [text], changes0 + [Change(parent, before, after)];
  }

  /** The texts of all parents whose values differ, sorted. */
  method ChangedParentValues(baseline: seq<Asset>, current: seq<Asset>, kind: string) returns (texts: seq<string>)
    ensures ListsChangeTexts(texts, baseline, current, kind)
  {
    var before := GroupByParent(baseline, kind);
    var after := GroupByParent(current, kind);
    texts := [];
    ghost var changes: seq<Change> := [];
    var parents := before.Keys + after.Keys;
    var left := parents;
    ghost var done: set<string> := {};
    while left != {}
      invariant done + left == parents && done !! left
      invariant texts == Texts(changes) && ListsChangesOf(changes, done, baseline, current, kind)
      decreases left
    {
      var parent :| parent in left;
      var b := if parent in before then before[parent] else {};
      var a := if parent in after then after[parent] else {};
      OneMoreParent(changes, done, Change(parent, b, a), baseline, current, kind);
      texts, changes := AddParent(texts, changes, parent, b, a);
      done, left := done + {parent}, left - {parent};
    }
    assert done == parents;
    NoOtherParents(before, after, changes, baseline, current, kind);
    texts := Sorted(texts);
    assert Renders(texts, changes);
  }

  method FindingKeySet(findings: seq<Finding>) returns (keys: set<string>)
    ensures keys == FindingKeys(findings)
  {
    keys := {};
    for i := 0 to |findings|
      invariant keys == FindingKeys(findings[..i])
    {
      ghost var longer := findings[..i + 1];
      assert longer == findings[..i] + [findings[i]];
      keys := keys + {FindingKey(findings[i])};
      assert FindingKey(longer[i]) in FindingKeys(longer);
      assert forall j :: 0 <= j < i ==> longer[j] == findings[..i][j];
    }
    assert findings[..|findings|] == findings;
  }

  /** Every text of the list behind the prefix. */
  function Each(prefix: string, s: seq<string>): seq<string> {
    seq(|s|, i requires 0 <= i < |s| => prefix + s[i])
  }

  method AppendEach(items0: seq<string>, prefix: string, s: seq<string>) returns (items: seq<string>)
    ensures items == items0 + Each(prefix, s)
  {
    items := items0;
    for i := 0 to |s|
      invariant items == items0 + Each(prefix, s[..i])
    {
      items := items + [prefix + s[i]];
    }
    assert s[..|s|] == s;
  }

  lemma EachLists(prefix: string, s: seq<string>, elements: set<string>)
    requires Lists(s, elements)
    ensures NoDuplicates(Each(prefix, s))
    ensures forall x :: x in Each(prefix, s) <==> exists k :: k in elements && x == prefix + k
  {
    var items := Each(prefix, s);
    forall i, j | 0 <= i < j < |items| ensures items[i] != items[j] {
      assert items[i][|prefix|..] == s[i] && items[j][|prefix|..] == s[j];
    }
    forall x ensures x in items <==> exists k :: k in elements && x == prefix + k {
      if x in items { var i :| 0 <= i < |items| && items[i] == x; assert s[i] in elements; }
      if k :| k in elements && x == prefix + k {
        assert k in s;
        var i :| 0 <= i < |s| && s[i] == k;
        assert items[i] == x;
      }
    }
  }

  method FindingSetDiff(baseline: seq<Finding>, current: seq<Finding>) returns (changes: seq<string>)
    ensures ListsFindingChanges(changes, FindingKeys(baseline), FindingKeys(current))
  {
    var before := FindingKeySet(baseline);
    var after := FindingKeySet(current);
    var added := Missing(after, before);
    var removed := Missing(before, after);
    changes := AppendEach([], "new: ", added);
    changes := AppendEach(changes, "removed: ", removed);
    FindingTexts(added, removed, before, after);
    ghost var elements := Elements(changes);
    SortedListing(changes, elements);
    changes := Sorted(changes);
    forall x ensures x in changes <==> IsFindingChange(x, before, after) {
      assert x in changes <==> x in elements;
    }
  }

  lemma FindingTexts(added: seq<string>, removed: seq<string>, before: set<string>, after: set<string>)
    requires Lists(added, after - before) && Lists(removed, before - after)
    ensures var texts := [] + Each("new: ", added) + Each("removed: ", removed);
      NoDuplicates(texts) && forall x :: x in texts <==> IsFindingChange(x, before, after)
  {
    var news, olds := Each("new: ", added), Each("removed: ", removed);
    EachLists("new: ", added, after - before);
    EachLists("removed: ", removed, before - after);
    forall i, j | 0 <= i < |news| && 0 <= j < |olds| ensures news[i] != olds[j] {
      assert news[i][0] == 'n' && olds[j][0] == 'r';
    }
  }

  method Compare(baseline: seq<Asset>, current: seq<Asset>, baselineFindings: seq<Finding>,
                 currentFindings: seq<Finding>)
    returns (d: Differential)
    ensures IsDifference(d, baseline, current, baselineFindings, currentFindings)
  {
    var newOpen, newlyClosed := CompareScanRuns(baseline, current);
    var hostsBefore := ValuesByType(baseline, "host");
    var hostsAfter := ValuesByType(current, "host");
    var newHosts := SetDifference(hostsAfter, hostsBefore);
    var removedHosts := SetDifference(hostsBefore, hostsAfter);
    var services := ChangedParentValues(baseline, current, "service");
    var certificates := ChangedParentValues(baseline, current, "tls_certificate");
    var technologies := ChangedParentValues(baseline, current, "technology");
    var findings := FindingSetDiff(baselineFindings, currentFindings);
    d := Differential(newOpen, newlyClosed, newHosts, removedHosts, services, certificates, technologies, findings);
  }

  // ---------------------------------------------------------------- drift

  datatype DriftReport = DriftReport(driftDetected: bool, changes: Differential, driftItems: seq<string>)

  /** All changes, list after list. */
  function ItemsOf(d: Differential): seq<string> {
    Each("New Open Port: ", d.newOpenPorts) + Each("Port Closed: ", d.newlyClosedPorts)
    + Each("New Host Discovered: ", d.newHosts) + Each("Host Removed/Unreachable: ", d.removedHosts)
    + d.serviceChanges + d.certificateChanges + d.technologyChanges + d.vulnerabilityChanges
  }

  /** Drift is reported exactly when the scans differ in one of the six projections. */
  method DetectDrift(baseline: seq<Asset>, current: seq<Asset>, baselineFindings: seq<Finding>,
                     currentFindings: seq<Finding>)
    returns (report: DriftReport)
    ensures IsDifference(report.changes, baseline, current, baselineFindings, currentFindings)
    ensures report.driftItems == ItemsOf(report.changes)
    ensures report.driftDetected <==> !NoDrift(baseline, current, baselineFindings, currentFindings)
  {
    var diff := Compare(baseline, current, baselineFindings, currentFindings);
    var items := AppendEach([], "New Open Port: ", diff.newOpenPorts);
    items := AppendEach(items, "Port Closed: ", diff.newlyClosedPorts);
    items := AppendEach(items, "New Host Discovered: ", diff.newHosts);
    items := AppendEach(items, "Host Removed/Unreachable: ", diff.removedHosts);
    items := items + diff.serviceChanges + diff.certificateChanges + diff.technologyChanges;
    items := items + diff.vulnerabilityChanges;
    assert items == ItemsOf(diff);
    EmptyDifference(diff, baseline, current, baselineFindings, currentFindings);
    report := DriftReport(|items| > 0, diff, items);
  }

  lemma EmptyList(s: seq<string>, elements: set<string>)
    requires Lists(s, elements)
    ensures |s| == 0 <==> elements == {}
  {
    ListLength(s, elements);
  }

  lemma EmptyChanges(texts: seq<string>, baseline: seq<Asset>, current: seq<Asset>, kind: string)
    requires ListsChangeTexts(texts, baseline, current, kind)
    ensures |texts| == 0 <==> SameByParent(baseline, current, kind)
  {
    var changes :| ListsChanges(changes, baseline, current, kind) && Renders(texts, changes);
    assert |texts| == |multiset(texts)| == |multiset(Texts(changes))| == |changes|;
    if |changes| > 0 { assert changes[0] in changes; }
    forall p ensures ValuesUnder(baseline, kind, p) != ValuesUnder(current, kind, p) ==> |changes| > 0 {
      if ValuesUnder(baseline, kind, p) != ValuesUnder(current, kind, p) {
        assert Change(p, ValuesUnder(baseline, kind, p), ValuesUnder(current, kind, p)) in changes;
      }
    }
  }

  lemma EmptyFindingChanges(changes: seq<string>, before: set<string>, after: set<string>)
    requires ListsFindingChanges(changes, before, after)
    ensures |changes| == 0 <==> before == after
  {
    if |changes| > 0 { assert changes[0] in changes; }
    if k :| k in after - before { assert "new: " + k in changes; }
    if k :| k in before - after { assert "removed: " + k in changes; }
    if |changes| == 0 {
      assert forall k :: k in before <==> k in after by {
        forall k ensures k in before <==> k in after { assert k !in after - before && k !in before - after; }
      }
    }
  }

  lemma NothingEitherWay<T>(a: set<T>, b: set<T>)
    ensures a - b == {} && b - a == {} <==> a == b
  {
    if a - b == {} && b - a == {} {
      assert forall x :: x in a <==> x in b by {
        forall x ensures x in a <==> x in b { assert x !in a - b && x !in b - a; }
      }
    }
  }

  lemma EmptyDifference(d: Differential, baseline: seq<Asset>, current: seq<Asset>,
                        baselineFindings: seq<Finding>, currentFindings: seq<Finding>)
    requires IsDifference(d, baseline, current, baselineFindings, currentFindings)
    ensures |ItemsOf(d)| == 0 <==> NoDrift(baseline, current, baselineFindings, currentFindings)
  {
    var p0, p1 := Values(baseline, "open_port"), Values(current, "open_port");
    var h0, h1 := Values(baseline, "host"), Values(current, "host");
    EmptyList(d.newOpenPorts, p1 - p0);
    EmptyList(d.newlyClosedPorts, p0 - p1);
    EmptyList(d.newHosts, h1 - h0);
    EmptyList(d.removedHosts, h0 - h1);
    NothingEitherWay(p0, p1);
    NothingEitherWay(h0, h1);
    EmptyChanges(d.serviceChanges, baseline, current, "service");
    EmptyChanges(d.certificateChanges, baseline, current, "tls_certificate");
    EmptyChanges(d.technologyChanges, baseline, current, "technology");
    EmptyFindingChanges(d.vulnerabilityChanges, FindingKeys(baselineFindings), FindingKeys(currentFindings));
  }

  // ---------------------------------------------------------------- which lists depend on the order of maps

  /** The six sorted lists leave no freedom: whatever order the maps are visited in, they come out the same. */
  lemma ListsAreDetermined(d: Differential, e: Differential, baseline: seq<Asset>, current: seq<Asset>,
                           bf: seq<Finding>, cf: seq<Finding>)
    requires IsDifference(d, baseline, current, bf, cf) && IsDifference(e, baseline, current, bf, cf)
    ensures d.newHosts == e.newHosts && d.removedHosts == e.removedHosts
    ensures d.serviceChanges == e.serviceChanges && d.certificateChanges == e.certificateChanges
    ensures d.technologyChanges == e.technologyChanges && d.vulnerabilityChanges == e.vulnerabilityChanges
  {
    SortedListIsUnique(d.newHosts, e.newHosts, Values(current, "host") - Values(baseline, "host"));
    SortedListIsUnique(d.removedHosts, e.removedHosts, Values(baseline, "host") - Values(current, "host"));
    SameChangeTexts(d.serviceChanges, e.serviceChanges, baseline, current, "service");
    SameChangeTexts(d.certificateChanges, e.certificateChanges, baseline, current, "tls_certificate");
    SameChangeTexts(d.technologyChanges, e.technologyChanges, baseline, current, "technology");
    SameFindingChanges(d.vulnerabilityChanges, e.vulnerabilityChanges, FindingKeys(bf), FindingKeys(cf));
  }

  predicate SamePorts(d: Differential, e: Differential) {
    d.newOpenPorts == e.newOpenPorts && d.newlyClosedPorts == e.newlyClosedPorts
  }

  /** The port lists are the same in every order of the maps exactly when each holds at most one port. */
  lemma PortListsAreDetermined(d: Differential, baseline: seq<Asset>, current: seq<Asset>, bf: seq<Finding>,
                               cf: seq<Finding>)
    requires IsDifference(d, baseline, current, bf, cf)
    ensures (forall e :: IsDifference(e, baseline, current, bf, cf) ==> SamePorts(e, d))
      <==> (&& |Values(current, "open_port") - Values(baseline, "open_port")| <= 1
            && |Values(baseline, "open_port") - Values(current, "open_port")| <= 1)
  {
    var added := Values(current, "open_port") - Values(baseline, "open_port");
    var removed := Values(baseline, "open_port") - Values(current, "open_port");
    OneList(d.newOpenPorts, added);
    OneList(d.newlyClosedPorts, removed);
    if s :| Lists(s, added) && s != d.newOpenPorts {
      assert IsDifference(d.(newOpenPorts := s), baseline, current, bf, cf);
    }
    if s :| Lists(s, removed) && s != d.newlyClosedPorts {
      assert IsDifference(d.(newlyClosedPorts := s), baseline, current, bf, cf);
    }
  }

  lemma SameChangeTexts(s: seq<string>, t: seq<string>, baseline: seq<Asset>, current: seq<Asset>, kind: string)
    requires ListsChangeTexts(s, baseline, current, kind) && ListsChangeTexts(t, baseline, current, kind)
    ensures s == t
  {
    var a :| ListsChanges(a, baseline, current, kind) && Renders(s, a);
    var b :| ListsChanges(b, baseline, current, kind) && Renders(t, b);
    ListsArePermutations(a, b, Elements(a));
    TextsOfPermutation(a, b);
    SortedIsUnique(s, t);
  }

  lemma TextsConcat(a: seq<Change>, b: seq<Change>)
    ensures Texts(a + b) == Texts(a) + Texts(b)
  {
  }

  lemma {:induction false} TextsOfPermutation(a: seq<Change>, b: seq<Change>)
    requires multiset(a) == multiset(b)
    ensures multiset(Texts(a)) == multiset(Texts(b))
  {
    if a == [] {
      assert |multiset(b)| == 0;
    } else {
      assert a[0] in multiset(b);
      var j :| 0 <= j < |b| && b[j] == a[0];
      var first := [a[0]] + b[..j] + b[j + 1..];
      assert b == b[..j] + [a[0]] + b[j + 1..];
      SameRest(a, first);
      assert first[1..] == b[..j] + b[j + 1..];
      TextsOfPermutation(a[1..], first[1..]);
      assert a == [a[0]] + a[1..];
      TextsConcat([a[0]], a[1..]);
      TextsMoveFirst(b[..j], a[0], b[j + 1..]);
    }
  }

  lemma TextsMoveFirst(a: seq<Change>, c: Change, b: seq<Change>)
    ensures multiset(Texts(a + [c] + b)) == multiset(Texts([c])) + multiset(Texts(a + b))
  {
    TextsConcat(a + [c], b);
    TextsConcat(a, [c]);
    TextsConcat(a, b);
  }

  lemma SameFindingChanges(s: seq<string>, t: seq<string>, before: set<string>, after: set<string>)
    requires ListsFindingChanges(s, before, after) && ListsFindingChanges(t, before, after)
    ensures s == t
  {
    var elements := set x | x in s;
    assert forall x :: x in t <==> x in s;
    SortedListIsUnique(s, t, elements);
  }

  function Elements<T>(s: seq<T>): set<T> {
    set x | x in s
  }

  // ---------------------------------------------------------------- what the lists say

  /** The values of a parent after the listed change, if there is one. */
  ghost function Patched(changes: seq<Change>, parent: string, values: set<string>): set<string> {
    if c :| c in changes && c.parent == parent then c.after else values
  }

  /** The texts stand for changes that turn the baseline into the current scan. */
  ghost predicate Patches(texts: seq<string>, baseline: seq<Asset>, current: seq<Asset>, kind: string) {
    exists changes :: Renders(texts, changes) && PatchEach(changes, baseline, current, kind)
  }

  ghost predicate PatchEach(changes: seq<Change>, baseline: seq<Asset>, current: seq<Asset>, kind: string) {
    forall p :: ValuesUnder(current, kind, p) == Patched(changes, p, ValuesUnder(baseline, kind, p))
  }

  /** Removing the removed and adding the new turns the baseline's projections into the current ones. */
  lemma DifferencePatches(d: Differential, baseline: seq<Asset>, current: seq<Asset>, bf: seq<Finding>,
                          cf: seq<Finding>)
    requires IsDifference(d, baseline, current, bf, cf)
    ensures Values(current, "open_port") ==
      Values(baseline, "open_port") - Elements(d.newlyClosedPorts) + Elements(d.newOpenPorts)
    ensures Values(current, "host") == Values(baseline, "host") - Elements(d.removedHosts) + Elements(d.newHosts)
    ensures Patches(d.serviceChanges, baseline, current, "service")
    ensures Patches(d.certificateChanges, baseline, current, "tls_certificate")
    ensures Patches(d.technologyChanges, baseline, current, "technology")
    ensures forall k :: k in FindingKeys(cf) <==>
      "new: " + k in d.vulnerabilityChanges || (k in FindingKeys(bf) && "removed: " + k !in d.vulnerabilityChanges)
  {
    ChangesPatch(d.serviceChanges, baseline, current, "service");
    ChangesPatch(d.certificateChanges, baseline, current, "tls_certificate");
    ChangesPatch(d.technologyChanges, baseline, current, "technology");
    forall k ensures k in FindingKeys(cf) <==>
      "new: " + k in d.vulnerabilityChanges || (k in FindingKeys(bf) && "removed: " + k !in d.vulnerabilityChanges)
    {
      ListedKey(d.vulnerabilityChanges, FindingKeys(bf), FindingKeys(cf), k);
    }
  }

  lemma ChangesPatch(texts: seq<string>, baseline: seq<Asset>, current: seq<Asset>, kind: string)
    requires ListsChangeTexts(texts, baseline, current, kind)
    ensures Patches(texts, baseline, current, kind)
  {
    var changes :| ListsChanges(changes, baseline, current, kind) && Renders(texts, changes);
    forall p ensures ValuesUnder(current, kind, p) == Patched(changes, p, ValuesUnder(baseline, kind, p)) {
      var before, after := ValuesUnder(baseline, kind, p), ValuesUnder(current, kind, p);
      if before != after { assert Change(p, before, after) in changes; }
    }
    assert PatchEach(changes, baseline, current, kind);
  }

  /** The texts stand for the same changes in opposite directions. */
  ghost predicate Reversed(forward: seq<string>, backward: seq<string>) {
    exists f, b :: Renders(forward, f) && Renders(backward, b) && Opposite(f, b)
  }

  ghost predicate Opposite(f: seq<Change>, b: seq<Change>) {
    NoDuplicates(f) && NoDuplicates(b) && forall p, x, y :: Change(p, x, y) in f <==> Change(p, y, x) in b
  }

  lemma ChangesReverse(forward: seq<string>, backward: seq<string>, baseline: seq<Asset>, current: seq<Asset>,
                       kind: string)
    requires ListsChangeTexts(forward, baseline, current, kind) && ListsChangeTexts(backward, current, baseline, kind)
    ensures Reversed(forward, backward)
  {
    var f :| ListsChanges(f, baseline, current, kind) && Renders(forward, f);
    var b :| ListsChanges(b, current, baseline, kind) && Renders(backward, b);
    assert Opposite(f, b);
  }

  /** Comparing the scans the other way round swaps every pair of lists. */
  lemma DifferenceSwaps(d: Differential, e: Differential, baseline: seq<Asset>, current: seq<Asset>, bf: seq<Finding>,
                        cf: seq<Finding>)
    requires IsDifference(d, baseline, current, bf, cf) && IsDifference(e, current, baseline, cf, bf)
    ensures Elements(d.newOpenPorts) == Elements(e.newlyClosedPorts)
    ensures Elements(d.newlyClosedPorts) == Elements(e.newOpenPorts)
    ensures d.newHosts == e.removedHosts && d.removedHosts == e.newHosts
    ensures Reversed(d.serviceChanges, e.serviceChanges)
    ensures Reversed(d.certificateChanges, e.certificateChanges)
    ensures Reversed(d.technologyChanges, e.technologyChanges)
    ensures forall k :: "new: " + k in d.vulnerabilityChanges <==> "removed: " + k in e.vulnerabilityChanges
    ensures forall k :: "removed: " + k in d.vulnerabilityChanges <==> "new: " + k in e.vulnerabilityChanges
  {
    SortedListIsUnique(d.newHosts, e.removedHosts, Values(current, "host") - Values(baseline, "host"));
    SortedListIsUnique(d.removedHosts, e.newHosts, Values(baseline, "host") - Values(current, "host"));
    ChangesReverse(d.serviceChanges, e.serviceChanges, baseline, current, "service");
    ChangesReverse(d.certificateChanges, e.certificateChanges, baseline, current, "tls_certificate");
    ChangesReverse(d.technologyChanges, e.technologyChanges, baseline, current, "technology");
    forall k
      ensures "new: " + k in d.vulnerabilityChanges <==> k in FindingKeys(cf) - FindingKeys(bf)
      ensures "removed: " + k in d.vulnerabilityChanges <==> k in FindingKeys(bf) - FindingKeys(cf)
    {
      ListedKey(d.vulnerabilityChanges, FindingKeys(bf), FindingKeys(cf), k);
    }
    forall k
      ensures "new: " + k in e.vulnerabilityChanges <==> k in FindingKeys(bf) - FindingKeys(cf)
      ensures "removed: " + k in e.vulnerabilityChanges <==> k in FindingKeys(cf) - FindingKeys(bf)
    {
      ListedKey(e.vulnerabilityChanges, FindingKeys(cf), FindingKeys(bf), k);
    }
  }

  lemma ListedKey(changes: seq<string>, before: set<string>, after: set<string>, k: string)
    requires ListsFindingChanges(changes, before, after)
    ensures "new: " + k in changes <==> k in after - before
    ensures "removed: " + k in changes <==> k in before - after
  {
    forall j | "new: " + j == "new: " + k ensures j == k {
      assert ("new: " + j)[5..] == j && ("new: " + k)[5..] == k;
    }
    forall j | "removed: " + j == "removed: " + k ensures j == k {
      assert ("removed: " + j)[9..] == j && ("removed: " + k)[9..] == k;
    }
    forall i, j ensures "new: " + i != "removed: " + j {
      assert ("new: " + i)[0] == 'n' && ("removed: " + j)[0] == 'r';
    }
  }
}
