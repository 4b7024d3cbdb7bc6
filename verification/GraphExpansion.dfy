/** The scan asset graph and its bounded breadth-first expansion around one node. */
module GraphExpansion {
  import opened Basics
  import opened Digraph
  import Text

  datatype Asset = Asset(value: string, kind: string, parent: string)
  datatype Finding = Finding(title: string, asset: string)
  datatype GraphNode = GraphNode(id: string, title: string, kind: string)
  datatype GraphEdge = GraphEdge(source: string, target: string, relation: string)

  // ---------------------------------------------------------------- building the graph

  function FindingID(f: Finding): (id: string)
    ensures id != ""
  {
    "finding:" + f.title + "@" + f.asset
  }

  /** The (id, type) pairs handed to addNode, in order. */
  function AssetMentions(assets: seq<Asset>): seq<(string, string)> {
    if assets == [] then []
    else
      var a := assets[|assets| - 1];
      AssetMentions(assets[..|assets| - 1])
      + [(a.value, a.kind)] + (if a.parent != "" then [(a.parent, "asset")] else [])
  }

  function FindingMentions(findings: seq<Finding>): seq<(string, string)> {
    if findings == [] then []
    else
      var f := findings[|findings| - 1];
      FindingMentions(findings[..|findings| - 1]) + [(f.asset, "asset"), (FindingID(f), "finding")]
  }

  function AssetEdges(assets: seq<Asset>): seq<GraphEdge> {
    if assets == [] then []
    else
      var a := assets[|assets| - 1];
      AssetEdges(assets[..|assets| - 1]) + (if a.parent != "" then [GraphEdge(a.parent, a.value, "CONTAINS")] else [])
  }

  function FindingEdges(findings: seq<Finding>): seq<GraphEdge> {
    if findings == [] then []
    else
      var f := findings[|findings| - 1];
      FindingEdges(findings[..|findings| - 1]) + [GraphEdge(f.asset, FindingID(f), "HAS_FINDING")]
  }

  /** The nodes are the non-empty ids mentioned, each with the type of its last mention. */
  ghost predicate NodesOf(nodes: map<string, GraphNode>, mentions: seq<(string, string)>) {
    && (forall id :: id in nodes ==>
          id != "" && nodes[id].id == nodes[id].title == id && LastMention(mentions, id, nodes[id].kind))
    && (forall i :: 0 <= i < |mentions| && mentions[i].0 != "" ==> mentions[i].0 in nodes)
  }

  ghost predicate LastMention(mentions: seq<(string, string)>, id: string, kind: string) {
    exists i :: 0 <= i < |mentions| && mentions[i] == (id, kind) && NotMentionedAfter(mentions, i, id)
  }

  ghost predicate NotMentionedAfter(mentions: seq<(string, string)>, i: nat, id: string) {
    forall j :: i < j < |mentions| ==> mentions[j].0 != id
  }

  method AddNode(nodes0: map<string, GraphNode>, id: string, kind: string, ghost mentions: seq<(string, string)>)
    returns (nodes: map<string, GraphNode>)
    requires NodesOf(nodes0, mentions)
    ensures NodesOf(nodes, mentions + [(id, kind)])
  {
    nodes := nodes0;
    ghost var more := mentions + [(id, kind)];
    if id != "" {
      nodes := nodes[id := GraphNode(id, id, kind)];
    }
    forall x | x in nodes ensures LastMention(more, x, nodes[x].kind) {
      if x == id {
        assert more[|mentions|] == (id, kind);
      } else {
        var i :| 0 <= i < |mentions| && mentions[i] == (x, nodes0[x].kind) && NotMentionedAfter(mentions, i, x);
        assert more[i] == (x, nodes[x].kind);
      }
    }
  }

  method AddAssets(assets: seq<Asset>) returns (nodes: map<string, GraphNode>, edges: seq<GraphEdge>)
    ensures NodesOf(nodes, AssetMentions(assets)) && edges == AssetEdges(assets)
  {
    nodes, edges := map[], [];
    for i := 0 to |assets|
      invariant NodesOf(nodes, AssetMentions(assets[..i])) && edges == AssetEdges(assets[..i])
    {
      var asset := assets[i];
      ghost var m := AssetMentions(assets[..i]);
      assert assets[..i + 1][..i] == assets[..i];
      nodes := AddNode(nodes, asset.value, asset.kind, m);
      if asset.parent != "" {
        nodes := AddNode(nodes, asset.parent, "asset", m + [(asset.value, asset.kind)]);
        edges := edges + [GraphEdge(asset.parent, asset.value, "CONTAINS")];
        assert AssetMentions(assets[..i + 1]) == m + [(asset.value, asset.kind)] + [(asset.parent, "asset")];
      } else {
        assert AssetMentions(assets[..i + 1]) == m + [(asset.value, asset.kind)];
      }
    }
    assert assets[..|assets|] == assets;
  }

  method AddFindings(findings: seq<Finding>, nodes0: map<string, GraphNode>, edges0: seq<GraphEdge>,
                     ghost m0: seq<(string, string)>)
    returns (nodes: map<string, GraphNode>, edges: seq<GraphEdge>)
    requires NodesOf(nodes0, m0)
    ensures NodesOf(nodes, m0 + FindingMentions(findings)) && edges == edges0 + FindingEdges(findings)
  {
    nodes, edges := nodes0, edges0;
    assert m0 + FindingMentions(findings[..0]) == m0;
    for i := 0 to |findings|
      invariant NodesOf(nodes, m0 + FindingMentions(findings[..i])) && edges == edges0 + FindingEdges(findings[..i])
    {
      var finding := findings[i];
      var id := FindingID(finding);
      ghost var m := m0 + FindingMentions(findings[..i]);
      assert findings[..i + 1][..i] == findings[..i];
      nodes := AddNode(nodes, finding.asset, "asset", m);
      nodes := AddNode(nodes, id, "finding", m + [(finding.asset, "asset")]);
      assert m + [(finding.asset, "asset")] + [(id, "finding")] == m0 + FindingMentions(findings[..i + 1]);
      edges := edges + [GraphEdge(finding.asset, id, "HAS_FINDING")];
    }
    assert findings[..|findings|] == findings;
  }

  method BuildAssetGraph(assets: seq<Asset>, findings: seq<Finding>)
    returns (nodes: map<string, GraphNode>, edges: seq<GraphEdge>)
    ensures NodesOf(nodes, AssetMentions(assets) + FindingMentions(findings))
    ensures forall id :: id in nodes <==> InGraph(assets, findings, id)
    ensures forall id :: id in nodes ==>
      nodes[id].id == nodes[id].title == id && TypeOf(assets, findings, id, nodes[id].kind)
    ensures edges == AssetEdges(assets) + FindingEdges(findings)
    ensures forall e :: multiset(edges)[e] == |ContainedAt(assets, e)| + |FoundAt(findings, e)|
  {
    nodes, edges := AddAssets(assets);
    nodes, edges := AddFindings(findings, nodes, edges, AssetMentions(assets));
    forall id
      ensures id in nodes <==> InGraph(assets, findings, id)
      ensures id in nodes ==>
        nodes[id].id == nodes[id].title == id && TypeOf(assets, findings, id, nodes[id].kind)
    {
      NodeMeaning(assets, findings, nodes, id);
    }
    forall e ensures multiset(edges)[e] == |ContainedAt(assets, e)| + |FoundAt(findings, e)| {
      AssetEdgeCount(assets, e);
      FindingEdgeCount(findings, e);
    }
  }

  // ---------------------------------------------------------------- what the graph says

  function FindingText(f: Finding): string {
    f.title + "@" + f.asset
  }

  /** Findings share an id exactly when their texts agree. */
  lemma FindingIDsAgree(f: Finding, g: Finding)
    ensures FindingID(f) == FindingID(g) <==> f.title + "@" + f.asset == g.title + "@" + g.asset
    ensures |FindingID(f)| >= 8 && FindingID(f)[..8] == "finding:"
  {
    assert FindingID(f)[8..] == FindingText(f) && FindingID(g)[8..] == FindingText(g);
    assert FindingID(f) == "finding:" + FindingText(f) && FindingID(g) == "finding:" + FindingText(g);
  }

  lemma LastAt(f: Finding, i: nat)
    requires '@' !in f.asset && i < |FindingText(f)| && FindingText(f)[i] == '@'
    ensures i <= |f.title|
  {
    assert forall k :: |f.title| < k < |FindingText(f)| ==> FindingText(f)[k] == f.asset[k - |f.title| - 1];
  }

  /** Without an '@' in titles or in assets the id says which finding it is. */
  lemma FindingIDIsInjective(f: Finding, g: Finding)
    requires ('@' !in f.title && '@' !in g.title) || ('@' !in f.asset && '@' !in g.asset)
    ensures FindingID(f) == FindingID(g) <==> f == g
  {
    FindingIDsAgree(f, g);
    var s, t := FindingText(f), FindingText(g);
    if s == t {
      assert s[|f.title|] == '@' && t[|g.title|] == '@';
      assert s[..|f.title|] == f.title && t[..|g.title|] == g.title;
      assert s[|f.title| + 1..] == f.asset && t[|g.title| + 1..] == g.asset;
      if '@' !in f.title && '@' !in g.title {
        assert |f.title| == |g.title|;
      } else {
        LastAt(f, |g.title|);
        LastAt(g, |f.title|);
      }
    }
  }

  ghost function ContainedAt(assets: seq<Asset>, e: GraphEdge): set<nat> {
    set i: nat | i < |assets| && assets[i].parent != "" && e == GraphEdge(assets[i].parent, assets[i].value, "CONTAINS")
  }

  ghost function FoundAt(findings: seq<Finding>, e: GraphEdge): set<nat> {
    set i: nat | i < |findings| && e == GraphEdge(findings[i].asset, FindingID(findings[i]), "HAS_FINDING")
  }

  /** An edge leads from a parent to an asset, once for each asset that says so. */
  lemma {:induction false} AssetEdgeCount(assets: seq<Asset>, e: GraphEdge)
    ensures multiset(AssetEdges(assets))[e] == |ContainedAt(assets, e)|
  {
    if assets == [] {
      assert ContainedAt(assets, e) == {};
    } else {
      var n := |assets| - 1;
      var a := assets[n];
      AssetEdgeCount(assets[..n], e);
      OneMoreContained(assets, e);
      if a.parent != "" { OneMore(AssetEdges(assets[..n]), GraphEdge(a.parent, a.value, "CONTAINS"), e); }
    }
  }

  lemma OneMore(edges: seq<GraphEdge>, more: GraphEdge, e: GraphEdge)
    ensures multiset(edges + [more])[e] == multiset(edges)[e] + (if e == more then 1 else 0)
  {
  }

  lemma OneMoreContained(assets: seq<Asset>, e: GraphEdge)
    requires assets != []
    ensures var n := |assets| - 1;
      |ContainedAt(assets, e)| == |ContainedAt(assets[..n], e)|
        + (if assets[n].parent != "" && e == GraphEdge(assets[n].parent, assets[n].value, "CONTAINS") then 1 else 0)
  {
    var n := |assets| - 1;
    var before := ContainedAt(assets[..n], e);
    if assets[n].parent != "" && e == GraphEdge(assets[n].parent, assets[n].value, "CONTAINS") {
      assert ContainedAt(assets, e) == before + {n};
    } else {
      assert ContainedAt(assets, e) == before;
    }
  }

  /** An edge leads from an asset to a finding, once for each such finding. */
  lemma {:induction false} FindingEdgeCount(findings: seq<Finding>, e: GraphEdge)
    ensures multiset(FindingEdges(findings))[e] == |FoundAt(findings, e)|
  {
    if findings == [] {
      assert FoundAt(findings, e) == {};
    } else {
      var n := |findings| - 1;
      var f := findings[n];
      FindingEdgeCount(findings[..n], e);
      OneMoreFound(findings, e);
      OneMore(FindingEdges(findings[..n]), GraphEdge(f.asset, FindingID(f), "HAS_FINDING"), e);
    }
  }

  lemma OneMoreFound(findings: seq<Finding>, e: GraphEdge)
    requires findings != []
    ensures var n := |findings| - 1;
      |FoundAt(findings, e)| == |FoundAt(findings[..n], e)|
        + (if e == GraphEdge(findings[n].asset, FindingID(findings[n]), "HAS_FINDING") then 1 else 0)
  {
    var n := |findings| - 1;
    var before := FoundAt(findings[..n], e);
    if e == GraphEdge(findings[n].asset, FindingID(findings[n]), "HAS_FINDING") {
      assert FoundAt(findings, e) == before + {n};
    } else {
      assert FoundAt(findings, e) == before;
    }
  }

  lemma {:induction false} EdgeMembers(assets: seq<Asset>, findings: seq<Finding>, e: GraphEdge)
    requires e in AssetEdges(assets) + FindingEdges(findings)
    ensures (exists a :: a in assets && a.parent != "" && e == GraphEdge(a.parent, a.value, "CONTAINS"))
      || (exists f :: f in findings && e == GraphEdge(f.asset, FindingID(f), "HAS_FINDING"))
  {
    if e in AssetEdges(assets) {
      AssetEdgeCount(assets, e);
      assert e in multiset(AssetEdges(assets));
      var i :| i in ContainedAt(assets, e);
      assert assets[i] in assets;
    } else {
      FindingEdgeCount(findings, e);
      assert e in multiset(FindingEdges(findings));
      var i :| i in FoundAt(findings, e);
      assert findings[i] in findings;
    }
  }

  predicate MentionsAsset(a: Asset, id: string) {
    a.value == id || a.parent == id
  }

  predicate MentionsFinding(f: Finding, id: string) {
    f.asset == id || FindingID(f) == id
  }

  /** The last finding that mentions the id, or else the last asset, decides the type of its node. */
  ghost predicate TypeOf(assets: seq<Asset>, findings: seq<Finding>, id: string, kind: string) {
    if findings != [] && MentionsFinding(findings[|findings| - 1], id) then
      kind == if FindingID(findings[|findings| - 1]) == id then "finding" else "asset"
    else if findings != [] then TypeOf(assets, findings[..|findings| - 1], id, kind)
    else if assets != [] && MentionsAsset(assets[|assets| - 1], id) then
      kind == if assets[|assets| - 1].parent == id then "asset" else assets[|assets| - 1].kind
    else assets != [] && TypeOf(assets[..|assets| - 1], findings, id, kind)
  }

  lemma MentionedBefore(m: seq<(string, string)>, own: seq<(string, string)>, id: string, kind: string)
    requires LastMention(m + own, id, kind) && forall i :: 0 <= i < |own| ==> own[i].0 != id
    ensures LastMention(m, id, kind)
  {
    var all := m + own;
    assert forall k :: |m| <= k < |all| ==> all[k] == own[k - |m|];
    var i :| 0 <= i < |all| && all[i] == (id, kind) && NotMentionedAfter(all, i, id);
    assert m[i] == (id, kind);
    forall j | i < j < |m| ensures m[j].0 != id { assert all[j] == m[j]; }
  }

  lemma MentionedLast(m: seq<(string, string)>, id: string, kind: string, k: nat)
    requires LastMention(m, id, kind) && k < |m| && m[k].0 == id && NotMentionedAfter(m, k, id)
    ensures m[k].1 == kind
  {
    var i :| 0 <= i < |m| && m[i] == (id, kind) && NotMentionedAfter(m, i, id);
    assert i == k;
  }

  lemma {:induction false} TypeFromAssets(assets: seq<Asset>, id: string, kind: string)
    requires id != "" && LastMention(AssetMentions(assets), id, kind)
    ensures TypeOf(assets, [], id, kind)
  {
    if assets != [] {
      var init, a := assets[..|assets| - 1], assets[|assets| - 1];
      var m0, m := AssetMentions(init), AssetMentions(assets);
      var own := [(a.value, a.kind)] + (if a.parent != "" then [(a.parent, "asset")] else []);
      assert m == m0 + own;
      if a.parent == id {
        MentionedLast(m, id, kind, |m0| + 1);
      } else if a.value == id {
        MentionedLast(m, id, kind, |m0|);
      } else {
        MentionedBefore(m0, own, id, kind);
        TypeFromAssets(init, id, kind);
      }
    }
  }

  /** What the last mention amounts to. */
  lemma {:induction false} TypeFromMentions(assets: seq<Asset>, findings: seq<Finding>, id: string, kind: string)
    requires id != "" && LastMention(AssetMentions(assets) + FindingMentions(findings), id, kind)
    ensures TypeOf(assets, findings, id, kind)
  {
    var am := AssetMentions(assets);
    if findings == [] {
      assert am + FindingMentions(findings) == am;
      TypeFromAssets(assets, id, kind);
    } else {
      var init, f := findings[..|findings| - 1], findings[|findings| - 1];
      var m0 := am + FindingMentions(init);
      var own := [(f.asset, "asset"), (FindingID(f), "finding")];
      var m := am + FindingMentions(findings);
      assert m == m0 + own;
      if FindingID(f) == id {
        MentionedLast(m, id, kind, |m0| + 1);
      } else if f.asset == id {
        MentionedLast(m, id, kind, |m0|);
      } else {
        MentionedBefore(m0, own, id, kind);
        TypeFromMentions(assets, init, id, kind);
      }
    }
  }

  /** The non-empty ids that some asset or finding mentions. */
  ghost predicate InGraph(assets: seq<Asset>, findings: seq<Finding>, id: string) {
    && id != ""
    && ((exists a :: a in assets && MentionsAsset(a, id)) || (exists f :: f in findings && MentionsFinding(f, id)))
  }

  ghost predicate Listed(mentions: seq<(string, string)>, id: string) {
    exists i :: 0 <= i < |mentions| && mentions[i].0 == id
  }

  lemma ListedConcat(a: seq<(string, string)>, b: seq<(string, string)>, id: string)
    ensures Listed(a + b, id) <==> Listed(a, id) || Listed(b, id)
  {
    var all := a + b;
    forall i | 0 <= i < |a| ensures all[i] == a[i] {}
    forall i | 0 <= i < |b| ensures all[|a| + i] == b[i] {}
    if Listed(all, id) {
      var i :| 0 <= i < |all| && all[i].0 == id;
      if i >= |a| { assert b[i - |a|].0 == id; }
    }
  }

  lemma {:induction false} ListedByAssets(assets: seq<Asset>, id: string)
    requires id != ""
    ensures Listed(AssetMentions(assets), id) <==> exists a :: a in assets && MentionsAsset(a, id)
  {
    if assets != [] {
      var init, a := assets[..|assets| - 1], assets[|assets| - 1];
      var own := [(a.value, a.kind)] + (if a.parent != "" then [(a.parent, "asset")] else []);
      ListedByAssets(init, id);
      assert AssetMentions(assets) == AssetMentions(init) + own && assets == init + [a];
      ListedConcat(AssetMentions(init), own, id);
      assert own[0].0 == a.value && (a.parent != "" ==> own[1].0 == a.parent);
      assert Listed(own, id) <==> MentionsAsset(a, id);
      assert forall x :: x in assets <==> x in init || x == a;
    }
  }

  lemma {:induction false} ListedByFindings(findings: seq<Finding>, id: string)
    ensures Listed(FindingMentions(findings), id) <==> exists f :: f in findings && MentionsFinding(f, id)
  {
    if findings != [] {
      var init, f := findings[..|findings| - 1], findings[|findings| - 1];
      var own := [(f.asset, "asset"), (FindingID(f), "finding")];
      ListedByFindings(init, id);
      assert FindingMentions(findings) == FindingMentions(init) + own && findings == init + [f];
      ListedConcat(FindingMentions(init), own, id);
      assert own[0].0 == f.asset && own[1].0 == FindingID(f);
      assert Listed(own, id) <==> MentionsFinding(f, id);
      assert forall x :: x in findings <==> x in init || x == f;
    }
  }

  /** The nodes in terms of the assets and findings. */
  lemma NodeMeaning(assets: seq<Asset>, findings: seq<Finding>, nodes: map<string, GraphNode>, id: string)
    requires NodesOf(nodes, AssetMentions(assets) + FindingMentions(findings))
    ensures id in nodes <==> InGraph(assets, findings, id)
    ensures id in nodes ==> nodes[id].id == nodes[id].title == id && TypeOf(assets, findings, id, nodes[id].kind)
  {
    var am, fm := AssetMentions(assets), FindingMentions(findings);
    if id != "" {
      ListedByAssets(assets, id);
      ListedByFindings(findings, id);
      ListedConcat(am, fm, id);
      if id in nodes { TypeFromMentions(assets, findings, id, nodes[id].kind); }
    }
  }

  // ---------------------------------------------------------------- which edges have both end nodes

  ghost predicate BothEnds(nodes: map<string, GraphNode>, e: GraphEdge) {
    e.source in nodes && e.target in nodes
  }

  predicate Named(e: GraphEdge) {
    e.source != "" && e.target != ""
  }

  /** The nodes hold every non-empty id that is mentioned, and not the empty one. */
  ghost predicate Covers(nodes: map<string, GraphNode>, mentions: seq<(string, string)>) {
    && "" !in nodes
    && forall i :: 0 <= i < |mentions| && mentions[i].0 != "" ==> mentions[i].0 in nodes
  }

  lemma CoversPart(nodes: map<string, GraphNode>, before: seq<(string, string)>, part: seq<(string, string)>,
                   after: seq<(string, string)>)
    requires Covers(nodes, before + part + after)
    ensures Covers(nodes, part)
  {
    var m := before + part + after;
    forall i | 0 <= i < |part| && part[i].0 != "" ensures part[i].0 in nodes { assert m[|before| + i] == part[i]; }
  }

  lemma {:induction false} AssetEdgeEnds(assets: seq<Asset>, nodes: map<string, GraphNode>, e: GraphEdge)
    requires Covers(nodes, AssetMentions(assets)) && e in AssetEdges(assets)
    ensures BothEnds(nodes, e) <==> Named(e)
  {
    var n := |assets| - 1;
    var init, a := assets[..n], assets[n];
    var m0 := AssetMentions(init);
    var own := [(a.value, a.kind)] + (if a.parent != "" then [(a.parent, "asset")] else []);
    assert AssetMentions(assets) == [] + m0 + own == m0 + own + [];
    if e in AssetEdges(init) {
      CoversPart(nodes, [], m0, own);
      AssetEdgeEnds(init, nodes, e);
    } else {
      CoversPart(nodes, m0, own, []);
      assert own[0].0 == e.target && own[1].0 == e.source;
    }
  }

  lemma {:induction false} FindingEdgeEnds(findings: seq<Finding>, nodes: map<string, GraphNode>, e: GraphEdge)
    requires Covers(nodes, FindingMentions(findings)) && e in FindingEdges(findings)
    ensures BothEnds(nodes, e) <==> Named(e)
  {
    var n := |findings| - 1;
    var init, f := findings[..n], findings[n];
    var m0, own := FindingMentions(init), [(f.asset, "asset"), (FindingID(f), "finding")];
    assert FindingMentions(findings) == [] + m0 + own == m0 + own + [];
    if e in FindingEdges(init) {
      CoversPart(nodes, [], m0, own);
      FindingEdgeEnds(init, nodes, e);
    } else {
      CoversPart(nodes, m0, own, []);
      assert own[0].0 == e.source && own[1].0 == e.target;
    }
  }

  /** An edge of the graph joins two of its nodes exactly when neither end is empty. */
  lemma EdgeEnds(assets: seq<Asset>, findings: seq<Finding>, nodes: map<string, GraphNode>, e: GraphEdge)
    requires NodesOf(nodes, AssetMentions(assets) + FindingMentions(findings))
    requires e in AssetEdges(assets) + FindingEdges(findings)
    ensures BothEnds(nodes, e) <==> Named(e)
  {
    var am, fm := AssetMentions(assets), FindingMentions(findings);
    assert am + fm == [] + am + fm == am + fm + [];
    CoversPart(nodes, [], am, fm);
    CoversPart(nodes, am, fm, []);
    if e in AssetEdges(assets) {
      AssetEdgeEnds(assets, nodes, e);
    } else {
      FindingEdgeEnds(findings, nodes, e);
    }
  }

  lemma {:induction false} NamedAssetEdges(assets: seq<Asset>)
    ensures (forall e :: e in AssetEdges(assets) ==> Named(e))
      <==> (forall a :: a in assets && a.parent != "" ==> a.value != "")
  {
    if assets != [] {
      var init, a := assets[..|assets| - 1], assets[|assets| - 1];
      NamedAssetEdges(init);
      assert assets == init + [a];
      if a.parent != "" {
        assert AssetEdges(assets) == AssetEdges(init) + [GraphEdge(a.parent, a.value, "CONTAINS")];
        assert Named(GraphEdge(a.parent, a.value, "CONTAINS")) <==> a.value != "";
      }
    }
  }

  lemma {:induction false} NamedFindingEdges(findings: seq<Finding>)
    ensures (forall e :: e in FindingEdges(findings) ==> Named(e)) <==> (forall f :: f in findings ==> f.asset != "")
  {
    if findings != [] {
      var init, f := findings[..|findings| - 1], findings[|findings| - 1];
      NamedFindingEdges(init);
      assert findings == init + [f];
      assert Named(GraphEdge(f.asset, FindingID(f), "HAS_FINDING")) <==> f.asset != "";
    }
  }

  /** Contained assets have a value, and findings have an asset. */
  predicate HasEnds(assets: seq<Asset>, findings: seq<Finding>) {
    (forall a :: a in assets && a.parent != "" ==> a.value != "") && (forall f :: f in findings ==> f.asset != "")
  }

  /**
   Every edge of the graph joins two of its nodes exactly when contained assets have a value and findings an asset.
   */
  lemma EdgesJoinNodes(assets: seq<Asset>, findings: seq<Finding>, nodes: map<string, GraphNode>)
    requires NodesOf(nodes, AssetMentions(assets) + FindingMentions(findings))
    ensures (forall e :: e in AssetEdges(assets) + FindingEdges(findings) ==> BothEnds(nodes, e))
      <==> HasEnds(assets, findings)
  {
    var ae, fe := AssetEdges(assets), FindingEdges(findings);
    forall e | e in ae + fe ensures BothEnds(nodes, e) <==> Named(e) { EdgeEnds(assets, findings, nodes, e); }
    NamedAssetEdges(assets);
    NamedFindingEdges(findings);
    assert forall e :: e in ae + fe <==> e in ae || e in fe;
  }

  // ---------------------------------------------------------------- distance

  ghost predicate Joined(edges: seq<GraphEdge>, u: string, v: string) {
    exists e :: e in edges && ((e.source == u && e.target == v) || (e.source == v && e.target == u))
  }

  /** The edges read in both directions. */
  ghost function Undirected(edges: seq<GraphEdge>): iset<(string, string)> {
    iset p: (string, string) | Joined(edges, p.0, p.1)
  }

  ghost predicate WalkOf(g: iset<(string, string)>, u: string, v: string, length: nat, p: seq<string>) {
    |p| == length + 1 && Walk(g, p) && p[0] == u && p[length] == v
  }

  /** v is at most d edges away from u. */
  ghost predicate Within(g: iset<(string, string)>, u: string, v: string, d: int) {
    exists p, length: nat :: length <= d && WalkOf(g, u, v, length, p)
  }

  ghost predicate AtDistance(g: iset<(string, string)>, u: string, v: string, d: nat) {
    Within(g, u, v, d) && !Within(g, u, v, d - 1)
  }

  lemma WithinZero(g: iset<(string, string)>, u: string, v: string)
    ensures Within(g, u, v, 0) <==> u == v
    ensures !Within(g, u, v, -1)
  {
    if u == v { assert WalkOf(g, u, v, 0, [u]); }
  }

  lemma ExtendWalk(g: iset<(string, string)>, u: string, v: string, w: string, d: int)
    requires Within(g, u, v, d) && (v, w) in g
    ensures Within(g, u, w, d + 1)
  {
    var p, length: nat :| length <= d && WalkOf(g, u, v, length, p);
    var q := p + [w];
    forall i | 0 <= i < |q| - 1 ensures WalkStep(g, q, i) {
      assert i < length ==> WalkStep(g, p, i);
    }
    assert WalkOf(g, u, w, length + 1, q);
  }

  /** The last edge of a shortest walk starts one step closer. */
  lemma LastStep(g: iset<(string, string)>, u: string, w: string, d: nat) returns (v: string)
    requires Within(g, u, w, d + 1) && !Within(g, u, w, d)
    ensures AtDistance(g, u, v, d) && (v, w) in g
  {
    var p, length: nat :| length <= d + 1 && WalkOf(g, u, w, length, p);
    assert length == d + 1;
    v := p[d];
    var q := p[..d + 1];
    forall i | 0 <= i < |q| - 1 ensures WalkStep(g, q, i) {
      assert WalkStep(g, p, i);
    }
    assert WalkStep(g, p, d);
    assert WalkOf(g, u, v, d, q);
    if Within(g, u, v, d - 1) { ExtendWalk(g, u, v, w, d - 1); }
  }

  // ---------------------------------------------------------------- breadth-first expansion

  function Neighbors(adj: map<string, seq<string>>, u: string): seq<string> {
    if u in adj then adj[u] else []
  }

  ghost predicate Adjacency(adj: map<string, seq<string>>, g: iset<(string, string)>) {
    forall u, v :: v in Neighbors(adj, u) <==> (u, v) in g
  }

  method BuildAdjacency(edges: seq<GraphEdge>) returns (adj: map<string, seq<string>>)
    ensures Adjacency(adj, Undirected(edges))
  {
    adj := map[];
    for i := 0 to |edges|
      invariant forall u, v :: v in Neighbors(adj, u) <==> Joined(edges[..i], u, v)
    {
      var e := edges[i];
      ghost var adj0 := adj;
      assert edges[..i + 1] == edges[..i] + [e];
      adj := adj[e.source := Neighbors(adj, e.source) + [e.target]];
      adj := adj[e.target := Neighbors(adj, e.target) + [e.source]];
      forall u, v ensures v in Neighbors(adj, u) <==> Joined(edges[..i + 1], u, v) {
        JoinedStep(edges, i, u, v);
        assert v in Neighbors(adj, u) <==>
          v in Neighbors(adj0, u) || (u == e.source && v == e.target) || (u == e.target && v == e.source);
      }
    }
    assert edges[..|edges|] == edges;
  }

  lemma JoinedStep(edges: seq<GraphEdge>, i: nat, u: string, v: string)
    requires i < |edges|
    ensures Joined(edges[..i + 1], u, v) <==>
      Joined(edges[..i], u, v)
      || (u == edges[i].source && v == edges[i].target) || (u == edges[i].target && v == edges[i].source)
  {
    assert edges[..i + 1] == edges[..i] + [edges[i]];
  }

  ghost predicate TouchedBy(g: iset<(string, string)>, level: seq<string>, v: string) {
    exists u :: u in level && (u, v) in g
  }

  /** One round: everything next to the current level becomes expanded, and what is new forms the next level. */
  method NextLevel(adj: map<string, seq<string>>, ghost g: iset<(string, string)>, expanded0: set<string>,
                   level: seq<string>)
    returns (expanded: set<string>, next: seq<string>)
    requires Adjacency(adj, g)
    ensures forall v :: v in expanded <==> v in expanded0 || TouchedBy(g, level, v)
    ensures NoDuplicates(next) && forall v :: v in next <==> v in expanded && v !in expanded0
  {
    expanded, next := expanded0, [];
    for i := 0 to |level|
      invariant forall v :: v in expanded <==> v in expanded0 || TouchedBy(g, level[..i], v)
      invariant NoDuplicates(next) && forall v :: v in next <==> v in expanded && v !in expanded0
    {
      var around := Neighbors(adj, level[i]);
      ghost var before := expanded;
      for j := 0 to |around|
        invariant forall v :: v in expanded <==> v in before || v in around[..j]
        invariant NoDuplicates(next) && forall v :: v in next <==> v in expanded && v !in expanded0
        invariant expanded0 <= expanded
      {
        var neighbor := around[j];
        if neighbor !in expanded {
          expanded := expanded + {neighbor};
          next := next + [neighbor];
        }
      }
      assert level[..i + 1] == level[..i] + [level[i]];
      forall v ensures v in expanded <==> v in expanded0 || TouchedBy(g, level[..i + 1], v) {
        TouchedStep(g, level, i, v);
        assert v in around <==> (level[i], v) in g;
      }
    }
    assert level[..|level|] == level;
  }

  lemma TouchedStep(g: iset<(string, string)>, level: seq<string>, i: nat, v: string)
    requires i < |level|
    ensures TouchedBy(g, level[..i + 1], v) <==> TouchedBy(g, level[..i], v) || (level[i], v) in g
  {
    assert level[..i + 1] == level[..i] + [level[i]];
  }

  ghost predicate IsBall(g: iset<(string, string)>, origin: string, ids: set<string>, d: nat) {
    forall v :: v in ids <==> Within(g, origin, v, d)
  }

  ghost predicate IsSphere(g: iset<(string, string)>, origin: string, level: seq<string>, d: nat) {
    NoDuplicates(level) && forall v :: v in level <==> AtDistance(g, origin, v, d)
  }

  lemma RoundWidens(g: iset<(string, string)>, origin: string, ids: set<string>, level: seq<string>, d: nat, v: string)
    requires IsBall(g, origin, ids, d) && IsSphere(g, origin, level, d)
    ensures Within(g, origin, v, d + 1) <==> v in ids || TouchedBy(g, level, v)
  {
    if Within(g, origin, v, d + 1) && v !in ids {
      var u := LastStep(g, origin, v, d);
      assert u in level;
    }
    if TouchedBy(g, level, v) {
      var u :| u in level && (u, v) in g;
      assert AtDistance(g, origin, u, d);
      ExtendWalk(g, origin, u, v, d);
    }
  }

  /** After `depth` rounds the expanded ids are the ball of that radius and the current level its sphere. */
  method Explore(edges: seq<GraphEdge>, origin: string, depth: nat) returns (expanded: set<string>, level: seq<string>)
    ensures IsBall(Undirected(edges), origin, expanded, depth)
    ensures IsSphere(Undirected(edges), origin, level, depth)
  {
    ghost var g := Undirected(edges);
    var adj := BuildAdjacency(edges);
    expanded, level := {origin}, [origin];
    forall v ensures Within(g, origin, v, 0) <==> v == origin { WithinZero(g, origin, v); }
    forall v ensures !Within(g, origin, v, -1) { WithinZero(g, origin, v); }
    for step := 0 to depth
      invariant IsBall(g, origin, expanded, step) && IsSphere(g, origin, level, step)
    {
      forall v ensures Within(g, origin, v, step + 1) <==> v in expanded || TouchedBy(g, level, v) {
        RoundWidens(g, origin, expanded, level, step, v);
      }
      expanded, level := NextLevel(adj, g, expanded, level);
    }
  }

  /** The depth parameter: a number from 1 to 3, and 1 for any other text. */
  function Depth(text: string): (d: nat)
    ensures 1 <= d <= 3
    ensures forall n: int :: 1 <= n <= 3 && Text.Atoi(text) == Some(n) ==> d == n
    ensures (forall n: int :: 1 <= n <= 3 ==> Text.Atoi(text) != Some(n)) ==> d == 1
  {
    match Text.Atoi(text)
    case None => 1
    case Some(n) => if 0 < n <= 3 then n else 1
  }

  function Induced(edges: seq<GraphEdge>, ids: set<string>): seq<GraphEdge> {
    if edges == [] then []
    else
      var e := edges[|edges| - 1];
      Induced(edges[..|edges| - 1], ids) + (if e.source in ids && e.target in ids then [e] else [])
  }

  lemma {:induction false} InducedMembers(edges: seq<GraphEdge>, ids: set<string>, e: GraphEdge)
    ensures e in Induced(edges, ids) <==> e in edges && e.source in ids && e.target in ids
  {
    if edges != [] {
      InducedMembers(edges[..|edges| - 1], ids, e);
      assert edges == edges[..|edges| - 1] + [edges[|edges| - 1]];
    }
  }

  lemma {:induction false} InducedCounts(edges: seq<GraphEdge>, ids: set<string>, e: GraphEdge)
    ensures multiset(Induced(edges, ids))[e] == if e.source in ids && e.target in ids then multiset(edges)[e] else 0
  {
    if edges != [] {
      var init, last := edges[..|edges| - 1], edges[|edges| - 1];
      InducedCounts(init, ids, e);
      assert edges == init + [last];
      assert multiset(edges)[e] == multiset(init)[e] + (if e == last then 1 else 0);
    }
  }

  /**
   The expansion of one node: the nodes of the graph within `depth` edges of it, and all edges between
   ids in that range. When every edge of the graph joins nodes of the graph, the returned edges join
   returned nodes.
   */
  method ExpandNode(nodes: map<string, GraphNode>, edges: seq<GraphEdge>, origin: string, depth: nat)
    returns (outNodes: map<string, GraphNode>, outEdges: seq<GraphEdge>)
    ensures forall id :: id in outNodes <==> id in nodes && Within(Undirected(edges), origin, id, depth)
    ensures forall id :: id in outNodes ==> outNodes[id] == nodes[id]
    ensures forall e :: e in outEdges <==>
      && e in edges
      && Within(Undirected(edges), origin, e.source, depth)
      && Within(Undirected(edges), origin, e.target, depth)
    ensures forall e :: e in outEdges ==> multiset(outEdges)[e] == multiset(edges)[e]
    ensures (forall e :: e in edges ==> BothEnds(nodes, e)) ==> forall e :: e in outEdges ==> BothEnds(outNodes, e)
  {
    var expanded, level := Explore(edges, origin, depth);
    outNodes := map id | id in expanded && id in nodes :: nodes[id];
    outEdges := [];
    for i := 0 to |edges|
      invariant outEdges == Induced(edges[..i], expanded)
    {
      assert edges[..i + 1][..i] == edges[..i];
      if edges[i].source in expanded && edges[i].target in expanded {
        outEdges := outEdges + [edges[i]];
      }
    }
    assert edges[..|edges|] == edges;
    forall e ensures e in outEdges <==> e in edges && e.source in expanded && e.target in expanded {
      InducedMembers(edges, expanded, e);
    }
    forall e | e in outEdges ensures multiset(outEdges)[e] == multiset(edges)[e] {
      InducedCounts(edges, expanded, e);
    }
  }

  datatype Expansion = Expansion(origin: string, depth: nat, nodes: map<string, GraphNode>, edges: seq<GraphEdge>)

  /**
   The request as a whole: refused without a node id, and otherwise answered with the subgraph that the ball
   around the node induces in the graph of the scan.
   */
  method HandleGraphExpand(assets: seq<Asset>, findings: seq<Finding>, nodeID: string, depthText: string)
    returns (r: Option<Expansion>)
    ensures r.None? <==> Text.TrimSpace(nodeID) == ""
    ensures r.Some? ==>
      var graph := AssetEdges(assets) + FindingEdges(findings);
      var x := r.value;
      && x.origin == Text.TrimSpace(nodeID) && x.depth == Depth(depthText)
      && (forall id :: id in x.nodes <==>
            InGraph(assets, findings, id) && Within(Undirected(graph), x.origin, id, x.depth))
      && (forall id :: id in x.nodes ==>
            x.nodes[id].id == x.nodes[id].title == id && TypeOf(assets, findings, id, x.nodes[id].kind))
      && (forall e :: e in x.edges <==> e in graph && Within(Undirected(graph), x.origin, e.source, x.depth)
                                        && Within(Undirected(graph), x.origin, e.target, x.depth))
      && (forall e :: e in x.edges ==> multiset(x.edges)[e] == multiset(graph)[e])
      && (forall e :: e in x.edges ==> (BothEnds(x.nodes, e) <==> Named(e)))
      && (HasEnds(assets, findings) ==> forall e :: e in x.edges ==> BothEnds(x.nodes, e))
  {
    var origin := Text.TrimSpace(nodeID);
    if origin == "" {
      return None;
    }
    var nodes, edges := BuildAssetGraph(assets, findings);
    var outNodes, outEdges := ExpandNode(nodes, edges, origin, Depth(depthText));
    EdgesJoinNodes(assets, findings, nodes);
    forall e | e in outEdges ensures BothEnds(outNodes, e) <==> Named(e) { EdgeEnds(assets, findings, nodes, e); }
    r := Some(Expansion(origin, Depth(depthText), outNodes, outEdges));
  }

  // ---------------------------------------------------------------- findings keep hosts apart

  predicate LooksLikeFinding(id: string) {
    |id| >= 8 && id[..8] == "finding:"
  }

  /** No asset or host is called like a finding, and findings can be told apart by their ids. */
  ghost predicate FindingsStandOut(assets: seq<Asset>, findings: seq<Finding>) {
    && (forall x :: x in assets ==> !LooksLikeFinding(x.value) && !LooksLikeFinding(x.parent))
    && (forall f :: f in findings ==> !LooksLikeFinding(f.asset) && '@' !in f.asset)
  }

  /** The host itself or one of its findings. */
  ghost predicate HostOrFinding(findings: seq<Finding>, host: string, id: string) {
    id == host || exists f :: f in findings && f.asset == host && id == FindingID(f)
  }

  lemma EdgeStaysAtHost(assets: seq<Asset>, findings: seq<Finding>, host: string, u: string, v: string)
    requires FindingsStandOut(assets, findings) && !LooksLikeFinding(host)
    requires forall x :: x in assets && x.parent != "" ==> x.parent != host && x.value != host
    requires HostOrFinding(findings, host, u) && Joined(AssetEdges(assets) + FindingEdges(findings), u, v)
    ensures HostOrFinding(findings, host, v)
  {
    var edges := AssetEdges(assets) + FindingEdges(findings);
    var e :| e in edges && ((e.source == u && e.target == v) || (e.source == v && e.target == u));
    EdgeMembers(assets, findings, e);
    forall f, g | f in findings && g in findings ensures FindingID(f) == FindingID(g) <==> f == g {
      FindingIDIsInjective(f, g);
    }
    forall f | f in findings ensures LooksLikeFinding(FindingID(f)) { FindingIDsAgree(f, f); }
  }

  /**
   A host that is in no containment reaches nothing but its own findings: another host with findings of the
   same titles is not within any distance.
   */
  lemma FindingsKeepHostsApart(assets: seq<Asset>, findings: seq<Finding>, host: string, id: string, d: int)
    requires FindingsStandOut(assets, findings) && !LooksLikeFinding(host)
    requires forall x :: x in assets && x.parent != "" ==> x.parent != host && x.value != host
    requires Within(Undirected(AssetEdges(assets) + FindingEdges(findings)), host, id, d)
    ensures HostOrFinding(findings, host, id)
    ensures !LooksLikeFinding(id) ==> id == host
  {
    var g := Undirected(AssetEdges(assets) + FindingEdges(findings));
    var p, length: nat :| length <= d && WalkOf(g, host, id, length, p);
    WalkStaysAtHost(assets, findings, host, p, length);
    if id != host {
      var f :| f in findings && f.asset == host && id == FindingID(f);
      FindingIDsAgree(f, f);
    }
  }

  lemma {:induction false} WalkStaysAtHost(assets: seq<Asset>, findings: seq<Finding>, host: string, p: seq<string>,
                                           i: nat)
    requires FindingsStandOut(assets, findings) && !LooksLikeFinding(host)
    requires forall x :: x in assets && x.parent != "" ==> x.parent != host && x.value != host
    requires Walk(Undirected(AssetEdges(assets) + FindingEdges(findings)), p) && i < |p| && p[0] == host
    ensures HostOrFinding(findings, host, p[i])
  {
    if i > 0 {
      WalkStaysAtHost(assets, findings, host, p, i - 1);
      assert WalkStep(Undirected(AssetEdges(assets) + FindingEdges(findings)), p, i - 1);
      EdgeStaysAtHost(assets, findings, host, p[i - 1], p[i]);
    }
  }
}
