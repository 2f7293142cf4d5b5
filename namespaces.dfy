/** The namespaces-per-node report: for every node of every pool, the sorted namespaces of
    its active pods with their pod counts, or the error that listing its pods raised. */
module NamespacesReport {
  import opened Text
  import opened Ordering
  import opened Counting
  import opened Pods

  /** `list_namespaces_by_node` once the pods are listed: counts the active pods per
      namespace, skipping the finished ones (the phase test written out in this function is
      `IsActive`), and sorts the namespaces. */
  method ListNamespacesByNode(pods: seq<Pod>) returns (namespaces: seq<string>, counts: map<string, nat>)
    ensures counts == CountMap(ActiveNamespaces(pods))
    ensures SumValues(counts) == |ActivePods(pods)|
    ensures forall ns :: ns in counts ==> counts[ns] >= 1
    ensures StrictlySorted(namespaces)
    ensures forall ns :: ns in namespaces <==> ns in counts
    ensures |namespaces| == |counts|
  {
    counts := map[];
    for i := 0 to |pods|
      invariant counts == CountMap(ActiveNamespaces(pods[..i]))
    {
      var p := pods[i];
      assert pods[..i + 1] == pods[..i] + [p];
      NamespaceCountsSnoc(pods[..i], p);
      if !IsActive(p) {
        continue;
      }
      var ns := p.namespace;
      counts := Bump(counts, ns, 1);
    }
    assert pods[..|pods|] == pods;
    NamespaceCountsTotals(pods);
    namespaces := SortKeys(counts.Keys);
  }

  /** What the report says of one node. */
  datatype NodeListing =
    | ListingError(node: string, message: string)
    | NoActivePods(node: string)
    | NamespaceTable(node: string, namespaces: seq<string>, counts: map<string, nat>)

  /** One pool section: its name, its cloud identifier, its number of nodes and one listing
      per node in roster order. */
  datatype PoolListing = PoolListing(name: string, ocid: string, nodeCount: nat, nodes: seq<NodeListing>)

  /** The listing of a node whose pods were fetched with the given outcome: the error, the
      note that it has no active pods, or its sorted namespaces and their counts. */
  ghost predicate NodeListed(node: string, result: NodeResult, l: NodeListing)
  {
    match result
    case Err(message) => l == ListingError(node, message)
    case Ok(pods) =>
      if |ActivePods(pods)| == 0 then l == NoActivePods(node)
      else
        && l.NamespaceTable? && l.node == node
        && l.counts == CountMap(ActiveNamespaces(pods))
        && StrictlySorted(l.namespaces)
        && (forall ns :: ns in l.namespaces <==> ns in l.counts)
  }

  /** The listing of every node of the pool, in roster order. */
  ghost predicate PoolListed(pool: NodePool, fetch: string -> NodeResult, pl: PoolListing)
  {
    && pl.name == pool.name && pl.ocid == pool.ocid
    && pl.nodeCount == |pool.nodeNames|
    && |pl.nodes| == |pool.nodeNames|
    && forall j :: 0 <= j < |pool.nodeNames| ==>
         NodeListed(pool.nodeNames[j], fetch(pool.nodeNames[j]), pl.nodes[j])
  }

  /** The body of the node loop of `build_markdown_report`: a node whose listing raised is
      reported with the error and skipped; otherwise its namespaces are listed, or noted as
      absent when it has no active pods. */
  method ListNode(node: string, result: NodeResult) returns (l: NodeListing)
    ensures NodeListed(node, result, l)
    ensures l.node == node
    ensures l.ListingError? <==> result.Err?
  {
    match result
    case Err(message) =>
      l := ListingError(node, message);
    case Ok(pods) =>
      var namespaces, counts := ListNamespacesByNode(pods);
      if |namespaces| == 0 {
        assert counts == map[];
        return NoActivePods(node);
      }
      l := NamespaceTable(node, namespaces, counts);
  }

  /** One pool section of `build_markdown_report`. */
  method ListPool(pool: NodePool, fetch: string -> NodeResult) returns (pl: PoolListing)
    ensures PoolListed(pool, fetch, pl)
  {
    var nodes := [];
    for j := 0 to |pool.nodeNames|
      invariant |nodes| == j
      invariant forall k :: 0 <= k < j ==> NodeListed(pool.nodeNames[k], fetch(pool.nodeNames[k]), nodes[k])
    {
      var node := pool.nodeNames[j];
      var l := ListNode(node, fetch(node));
      nodes := nodes + [l];
    }
    pl := PoolListing(pool.name, pool.ocid, |pool.nodeNames|, nodes);
  }

  /** `build_markdown_report` without the text: every pool in roster order, every node of
      it listed in roster order, a failing node not stopping the ones after it. */
  method BuildNamespacesReport(roster: seq<NodePool>, fetch: string -> NodeResult) returns (report: seq<PoolListing>)
    ensures |report| == |roster|
    ensures forall i :: 0 <= i < |roster| ==> PoolListed(roster[i], fetch, report[i])
  {
    report := [];
    for i := 0 to |roster|
      invariant |report| == i
      invariant forall k :: 0 <= k < i ==> PoolListed(roster[k], fetch, report[k])
    {
      var pl := ListPool(roster[i], fetch);
      report := report + [pl];
    }
  }

  /** A node is reported as an error exactly when listing its pods failed, and only then;
      every node of the pool gets its listing whatever happened to the nodes before it. */
  lemma ErrorExactlyWhenFetchFails(pool: NodePool, fetch: string -> NodeResult, pl: PoolListing, j: nat)
    requires PoolListed(pool, fetch, pl) && j < |pool.nodeNames|
    ensures pl.nodes[j].node == pool.nodeNames[j]
    ensures pl.nodes[j].ListingError? <==> fetch(pool.nodeNames[j]).Err?
    ensures pl.nodes[j].NamespaceTable? ==>
      pl.nodes[j].counts == CountMap(ActiveNamespaces(fetch(pool.nodeNames[j]).pods))
  {
    var node := pool.nodeNames[j];
    assert NodeListed(node, fetch(node), pl.nodes[j]);
  }

  /** The listing of a node is determined by its pods: two listings of the same outcome are
      equal, so the namespace order is exactly the sorted order of the counted keys. */
  lemma NodeListingUnique(node: string, result: NodeResult, l1: NodeListing, l2: NodeListing)
    requires NodeListed(node, result, l1) && NodeListed(node, result, l2)
    ensures l1 == l2
  {
    if result.Ok? && |ActivePods(result.pods)| > 0 {
      StrictlySortedUnique(l1.namespaces, l2.namespaces);
    }
  }

  /** An active pod followed by two finished ones: only the active pod is counted. */
  lemma OnlyFirstActive(p1: Pod, p2: Pod, p3: Pod)
    requires IsActive(p1) && !IsActive(p2) && !IsActive(p3)
    ensures ActivePods([p1, p2, p3]) == [p1]
    ensures CountMap(ActiveNamespaces([p1, p2, p3])) == map[p1.namespace := 1]
  {
    OnlyFirstKept(p1, p2, p3);
    OnlyFirstNamespace(p1, p2, p3);
    assert multiset([p1.namespace]) == multiset{p1.namespace};
  }

  lemma OnlyFirstKept(p1: Pod, p2: Pod, p3: Pod)
    requires IsActive(p1) && !IsActive(p2) && !IsActive(p3)
    ensures ActivePods([p1, p2, p3]) == [p1]
  {
    assert [p1, p2, p3][..2] == [p1, p2] && [p1, p2][..1] == [p1] && [p1][..0] == [];
    assert Flatten([p1], KeepActive) == Flatten([p1][..0], KeepActive) + KeepActive(p1);
    assert Flatten([p1, p2], KeepActive) == Flatten([p1], KeepActive) + KeepActive(p2);
    assert Flatten([p1, p2, p3], KeepActive) == Flatten([p1, p2], KeepActive) + KeepActive(p3);
  }

  lemma OnlyFirstNamespace(p1: Pod, p2: Pod, p3: Pod)
    requires IsActive(p1) && !IsActive(p2) && !IsActive(p3)
    ensures ActiveNamespaces([p1, p2, p3]) == [p1.namespace]
  {
    assert [p1, p2, p3][..2] == [p1, p2] && [p1, p2][..1] == [p1] && [p1][..0] == [];
    assert Flatten([p1], ActiveNamespace) == Flatten([p1][..0], ActiveNamespace) + ActiveNamespace(p1);
    assert Flatten([p1, p2], ActiveNamespace) == Flatten([p1], ActiveNamespace) + ActiveNamespace(p2);
    assert Flatten([p1, p2, p3], ActiveNamespace) == Flatten([p1, p2], ActiveNamespace) + ActiveNamespace(p3);
  }

  /** `a` Running, `a` Succeeded and `b` Failed: `a` counts one pod and `b` is absent. */
  lemma PhaseFilterExample()
    ensures CountMap(ActiveNamespaces([Pod("a", Some("Running")), Pod("a", Some("Succeeded")),
                                       Pod("b", Some("FAILED"))])) == map["a" := 1]
    ensures |ActivePods([Pod("a", Some("Running")), Pod("a", Some("Succeeded")),
                         Pod("b", Some("FAILED"))])| == 1
  {
    ActiveExamples("a");
    ActiveExamples("b");
    OnlyFirstActive(Pod("a", Some("Running")), Pod("a", Some("Succeeded")), Pod("b", Some("FAILED")));
  }
}
