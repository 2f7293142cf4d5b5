/** The pod-mix report: per-node namespace and category counts of the active pods, the
    per-pool accumulation of those counts, and the percentages of the category tables. */
module PodMix {
  import opened Text
  import opened Ordering
  import opened Counting
  import opened Rules
  import opened Pods

  /** The category of the pod's namespace if the pod is active, nothing otherwise. */
  function ActiveCategory(p: Pod): seq<string>
  {
    if IsActive(p) then [ClassifyNamespace(p.namespace)] else []
  }

  /** The categories of the active pods, one entry per active pod, in input order. */
  function ActiveCategories(pods: seq<Pod>): seq<string>
  {
    Flatten(pods, ActiveCategory)
  }

  lemma ActiveCategoriesLength(pods: seq<Pod>)
    ensures |ActiveCategories(pods)| == |ActivePods(pods)|
  {
    FlattenSameLength(pods, ActiveCategory, KeepActive);
  }

  /** Every category counted is one of the five report labels. */
  lemma ActiveCategoriesLabels(pods: seq<Pod>)
    ensures forall c :: c in ActiveCategories(pods) ==> c in ReportOrder
  {
    forall c | c in ActiveCategories(pods) ensures c in ReportOrder {
      FlattenElement(pods, ActiveCategory, c);
    }
  }

  /** The node summary of the active pods: namespace and category counts add up to the
      number of active pods, every stored count is at least one, and every category key is
      a report label. */
  lemma NodeSummaryTotals(pods: seq<Pod>)
    ensures SumValues(CountMap(ActiveNamespaces(pods))) == |ActivePods(pods)|
    ensures SumValues(CountMap(ActiveCategories(pods))) == |ActivePods(pods)|
    ensures forall ns :: ns in CountMap(ActiveNamespaces(pods)) ==> CountMap(ActiveNamespaces(pods))[ns] >= 1
    ensures forall c :: c in CountMap(ActiveCategories(pods)) ==>
      CountMap(ActiveCategories(pods))[c] >= 1 && c in ReportOrder
  {
    NamespaceCountsTotals(pods);
    SumCountMap(ActiveCategories(pods));
    ActiveCategoriesLength(pods);
    ActiveCategoriesLabels(pods);
  }

  /** One more pod: an active pod adds one to its namespace and one to its category,
      a finished pod changes nothing. */
  lemma NodeSummarySnoc(pods: seq<Pod>, p: Pod)
    ensures CountMap(ActiveNamespaces(pods + [p])) ==
      if IsActive(p) then Bump(CountMap(ActiveNamespaces(pods)), p.namespace, 1)
      else CountMap(ActiveNamespaces(pods))
    ensures CountMap(ActiveCategories(pods + [p])) ==
      if IsActive(p) then Bump(CountMap(ActiveCategories(pods)), ClassifyNamespace(p.namespace), 1)
      else CountMap(ActiveCategories(pods))
  {
    NamespaceCountsSnoc(pods, p);
    assert (pods + [p])[..|pods|] == pods;
    if IsActive(p) {
      CountMapSnoc(ActiveCategories(pods), ClassifyNamespace(p.namespace));
    } else {
      assert ActiveCategories(pods + [p]) == ActiveCategories(pods);
    }
  }

  /** `summarize_node`: counts the active pods per namespace and per category. */
  method SummarizeNode(pods: seq<Pod>) returns (nsCounts: map<string, nat>, catCounts: map<string, nat>)
    ensures nsCounts == CountMap(ActiveNamespaces(pods))
    ensures catCounts == CountMap(ActiveCategories(pods))
    ensures SumValues(nsCounts) == SumValues(catCounts) == |ActivePods(pods)|
    ensures forall c :: c in catCounts ==> c in ReportOrder
    ensures forall c :: Get(catCounts, c) == SumOver(nsCounts, NamespacesOf(nsCounts, c))
  {
    nsCounts, catCounts := map[], map[];
    for i := 0 to |pods|
      invariant nsCounts == CountMap(ActiveNamespaces(pods[..i]))
      invariant catCounts == CountMap(ActiveCategories(pods[..i]))
    {
      var p := pods[i];
      assert pods[..i + 1] == pods[..i] + [p];
      NodeSummarySnoc(pods[..i], p);
      if !IsActive(p) {
        continue;
      }
      var ns := p.namespace;
      nsCounts := Bump(nsCounts, ns, 1);
      var cat := ClassifyNamespace(ns);
      catCounts := Bump(catCounts, cat, 1);
    }
    assert pods[..|pods|] == pods;
    NodeSummaryFacts(pods, nsCounts, catCounts);
  }

  /** The properties of the two count maps of a node summary, in the form `SummarizeNode`
      promises them. */
  lemma NodeSummaryFacts(pods: seq<Pod>, nsCounts: map<string, nat>, catCounts: map<string, nat>)
    requires nsCounts == CountMap(ActiveNamespaces(pods))
    requires catCounts == CountMap(ActiveCategories(pods))
    ensures SumValues(nsCounts) == SumValues(catCounts) == |ActivePods(pods)|
    ensures forall c :: c in catCounts ==> c in ReportOrder
    ensures forall c :: Get(catCounts, c) == SumOver(nsCounts, NamespacesOf(nsCounts, c))
  {
    NodeSummaryTotals(pods);
    CategoryCountsFromNamespaces(pods);
  }

  /** The counted namespaces that classify into category c. */
  ghost function NamespacesOf(nsCounts: map<string, nat>, c: string): set<string>
  {
    set ns | ns in nsCounts && ClassifyNamespace(ns) == c
  }

  /** Classifying every pod gives the same category counts as classifying every counted
      namespace once: the count of a category is the sum of the counts of its namespaces. */
  lemma {:induction false} CategoryCountsFromNamespaces(pods: seq<Pod>)
    ensures forall c ::
              Get(CountMap(ActiveCategories(pods)), c) ==
              SumOver(CountMap(ActiveNamespaces(pods)), NamespacesOf(CountMap(ActiveNamespaces(pods)), c))
    decreases |pods|
  {
    if pods == [] {
      assert CountMap(ActiveNamespaces(pods)) == map[];
      assert CountMap(ActiveCategories(pods)) == map[];
      forall c ensures NamespacesOf(map[], c) == {} { }
    } else {
      var n := |pods| - 1;
      var init, p := pods[..n], pods[n];
      assert pods == init + [p];
      CategoryCountsFromNamespaces(init);
      NodeSummarySnoc(init, p);
      if IsActive(p) {
        forall c ensures Get(CountMap(ActiveCategories(pods)), c) ==
          SumOver(CountMap(ActiveNamespaces(pods)), NamespacesOf(CountMap(ActiveNamespaces(pods)), c))
        {
          OneMoreActivePod(CountMap(ActiveNamespaces(init)), CountMap(ActiveCategories(init)), p.namespace, c);
        }
      }
    }
  }

  /** One more active pod of namespace ns keeps every category count equal to the sum of
      the counts of its namespaces. */
  lemma OneMoreActivePod(nsCounts: map<string, nat>, catCounts: map<string, nat>, ns: string, c: string)
    requires Get(catCounts, c) == SumOver(nsCounts, NamespacesOf(nsCounts, c))
    ensures Get(Bump(catCounts, ClassifyNamespace(ns), 1), c) ==
      SumOver(Bump(nsCounts, ns, 1), NamespacesOf(Bump(nsCounts, ns, 1), c))
  {
    var keys, keys' := NamespacesOf(nsCounts, c), NamespacesOf(Bump(nsCounts, ns, 1), c);
    if ClassifyNamespace(ns) == c {
      assert keys' == keys + {ns};
      SumOverBumpIn(nsCounts, keys', ns, 1);
      if ns in keys {
        assert keys' == keys;
      } else {
        assert Get(nsCounts, ns) == 0;
        SumOverRemove(nsCounts, keys', ns);
        assert keys' - {ns} == keys;
      }
      assert SumOver(nsCounts, keys') == SumOver(nsCounts, keys);
    } else {
      assert keys' == keys;
      SumOverBumpOut(nsCounts, keys, ns, 1);
    }
  }

  /** `pct(part, total)`: part as a percentage of total, and 0 when total is not positive. */
  function Pct(part: int, total: int): (r: real)
    ensures total <= 0 ==> r == 0.0
    ensures total > 0 ==> r * total as real == part as real * 100.0
  {
    if total <= 0 then 0.0 else (part as real * 100.0) / total as real
  }

  lemma PctExamples()
    ensures Pct(0, 0) == 0.0 && Pct(3, 0) == 0.0
    ensures Pct(1, 4) == 25.0
    ensures Pct(3, 3) == 100.0
  {
  }

  /** One row of a category table: label, pods, percentage. */
  datatype CategoryRow = CategoryRow(category: string, pods: nat, percent: real)

  /** The rows for the given labels, in their order, absent labels with 0 pods. */
  function CategoryRows(labels: seq<string>, counts: map<string, nat>, total: nat): seq<CategoryRow>
  {
    if labels == [] then []
    else
      var c := Get(counts, labels[0]);
      [CategoryRow(labels[0], c, Pct(c, total))] + CategoryRows(labels[1..], counts, total)
  }

  /** The category table of a node or a pool: always the five labels, in report order. */
  function CategoryTable(counts: map<string, nat>, total: nat): seq<CategoryRow>
  {
    CategoryRows(ReportOrder, counts, total)
  }

  function PodsColumn(rows: seq<CategoryRow>): nat
  {
    if rows == [] then 0 else rows[0].pods + PodsColumn(rows[1..])
  }

  function PercentColumn(rows: seq<CategoryRow>): real
  {
    if rows == [] then 0.0 else rows[0].percent + PercentColumn(rows[1..])
  }

  ghost predicate Distinct(labels: seq<string>)
  {
    forall i, j :: 0 <= i < j < |labels| ==> labels[i] != labels[j]
  }

  /** Over distinct labels that cover every key, the pods column adds up all counts. */
  lemma {:induction false} PodsColumnSum(labels: seq<string>, counts: map<string, nat>, keys: set<string>, total: nat)
    requires Distinct(labels)
    requires forall l :: l in keys <==> l in labels
    ensures PodsColumn(CategoryRows(labels, counts, total)) == SumOver(counts, keys)
    decreases |labels|
  {
    if labels == [] {
      assert keys == {};
    } else {
      var l := labels[0];
      SumOverRemove(counts, keys, l);
      forall x ensures x in keys - {l} <==> x in labels[1..] {
        if x in labels[1..] {
          var j :| 0 <= j < |labels[1..]| && labels[1..][j] == x;
          assert labels[j + 1] == x;
        }
        if x in keys - {l} {
          assert x in labels;
          var j :| 0 <= j < |labels| && labels[j] == x;
          assert labels[1..][j - 1] == x;
        }
      }
      PodsColumnSum(labels[1..], counts, keys - {l}, total);
    }
  }

  /** The percentage column, times the total, is 100 times the pods column. */
  lemma {:induction false} PercentColumnScaled(labels: seq<string>, counts: map<string, nat>, total: nat)
    requires total > 0
    ensures PercentColumn(CategoryRows(labels, counts, total)) * total as real ==
      100.0 * PodsColumn(CategoryRows(labels, counts, total)) as real
    decreases |labels|
  {
    if labels != [] {
      var rows := CategoryRows(labels, counts, total);
      var rest := CategoryRows(labels[1..], counts, total);
      PercentColumnScaled(labels[1..], counts, total);
      assert rows[1..] == rest;
      var a, b, t := rows[0].percent, PercentColumn(rest), total as real;
      assert (a + b) * t == a * t + b * t;
    }
  }

  /** Keys without a count add nothing to a sum. */
  lemma {:induction false} SumOverSuperset(m: map<string, nat>, keys: set<string>)
    requires m.Keys <= keys
    ensures SumOver(m, keys) == SumValues(m)
    decreases |keys|
  {
    if exists e :: e in keys && e !in m {
      var e :| e in keys && e !in m;
      SumOverRemove(m, keys, e);
      SumOverSuperset(m, keys - {e});
    } else {
      assert keys == m.Keys;
    }
  }

  /** A table over distinct labels that cover every counted key: the pods column adds up to
      the counted pods, and when those are the total, the percentages add up to 100. */
  lemma TableSums(labels: seq<string>, counts: map<string, nat>, total: nat)
    requires Distinct(labels)
    requires forall c :: c in counts ==> c in labels
    ensures PodsColumn(CategoryRows(labels, counts, total)) == SumValues(counts)
    ensures total == SumValues(counts) > 0 ==> PercentColumn(CategoryRows(labels, counts, total)) == 100.0
  {
    var keys := set l | l in labels;
    var rows := CategoryRows(labels, counts, total);
    PodsColumnSum(labels, counts, keys, total);
    assert counts.Keys <= keys;
    SumOverSuperset(counts, keys);
    assert PodsColumn(rows) == SumValues(counts);
    if total == SumValues(counts) > 0 {
      PercentsOfWhole(labels, counts, total);
    }
  }

  /** When the pods column is the whole total, the percentages add up to 100. */
  lemma PercentsOfWhole(labels: seq<string>, counts: map<string, nat>, total: nat)
    requires total > 0 && PodsColumn(CategoryRows(labels, counts, total)) == total
    ensures PercentColumn(CategoryRows(labels, counts, total)) == 100.0
  {
    var p := PercentColumn(CategoryRows(labels, counts, total));
    PercentColumnScaled(labels, counts, total);
    assert p * total as real == 100.0 * total as real;
    CancelPositive(p, total as real);
  }

  lemma CancelPositive(p: real, t: real)
    requires t > 0.0 && p * t == 100.0 * t
    ensures p == 100.0
  {
    assert (p - 100.0) * t == 0.0;
  }

  lemma ReportOrderDistinct()
    ensures Distinct(ReportOrder)
  {
  }

  /** The category table of counts whose keys are report labels: the pods column adds up
      to the counted pods, and when those are the total, the percentages add up to 100. */
  lemma CategoryTableSums(counts: map<string, nat>, total: nat)
    requires forall c :: c in counts ==> c in ReportOrder
    ensures PodsColumn(CategoryTable(counts, total)) == SumValues(counts)
    ensures total == SumValues(counts) > 0 ==> PercentColumn(CategoryTable(counts, total)) == 100.0
  {
    ReportOrderDistinct();
    TableSums(ReportOrder, counts, total);
  }

  /** The node as the pool section shows it. */
  datatype NodeReport =
    | NodeError(node: string, message: string)
    | NodeIdle(node: string)
    | NodeMix(node: string, namespaces: seq<string>, nsCounts: map<string, nat>,
              catCounts: map<string, nat>, total: nat, categories: seq<CategoryRow>)

  /** The result of listing one node, with the node's name. */
  datatype NodeFetch = NodeFetch(node: string, result: NodeResult)

  function FetchAll(nodeNames: seq<string>, fetch: string -> NodeResult): seq<NodeFetch>
  {
    seq(|nodeNames|, i requires 0 <= i < |nodeNames| => NodeFetch(nodeNames[i], fetch(nodeNames[i])))
  }

  /** The categories a node adds to its pool: those of its active pods, none if it failed. */
  function FetchCategories(f: NodeFetch): seq<string>
  {
    if f.result.Ok? then ActiveCategories(f.result.pods) else []
  }

  /** The categories of the active pods of every listed node of the pool, in roster order. */
  function PoolCategories(fetched: seq<NodeFetch>): seq<string>
  {
    Flatten(fetched, FetchCategories)
  }

  /** The sum of the active-pod totals of the nodes whose listing succeeded. */
  ghost function SucceededTotal(fetched: seq<NodeFetch>): nat
    decreases |fetched|
  {
    if fetched == [] then 0
    else
      var f := fetched[|fetched| - 1];
      SucceededTotal(fetched[..|fetched| - 1]) + if f.result.Ok? then |ActivePods(f.result.pods)| else 0
  }

  /** What the report says of one node: its error, that it has no active pods, or its counts,
      its sorted namespaces and its category table. */
  ghost predicate NodeReported(f: NodeFetch, r: NodeReport)
  {
    match f.result
    case Err(message) => r == NodeError(f.node, message)
    case Ok(pods) =>
      if |ActivePods(pods)| == 0 then r == NodeIdle(f.node)
      else
        && r.NodeMix? && r.node == f.node
        && r.nsCounts == CountMap(ActiveNamespaces(pods))
        && r.catCounts == CountMap(ActiveCategories(pods))
        && r.total == |ActivePods(pods)|
        && StrictlySorted(r.namespaces)
        && (forall ns :: ns in r.namespaces <==> ns in r.nsCounts)
        && r.categories == CategoryTable(r.catCounts, r.total)
  }

  /** The pool section: one report per node in roster order, and pool totals counting the
      active pods of every node whose listing succeeded. */
  ghost predicate PoolSummarized(fetched: seq<NodeFetch>, nodes: seq<NodeReport>, total: nat, cats: map<string, nat>)
  {
    && |nodes| == |fetched|
    && (forall i :: 0 <= i < |fetched| ==> NodeReported(fetched[i], nodes[i]))
    && cats == CountMap(PoolCategories(fetched))
    && total == |PoolCategories(fetched)|
  }

  /** The body of the node loop of `build_markdown` once the pods are listed: counts them,
      and describes the node as idle when none is active, or by its counts and tables. */
  method SummarizeListedNode(node: string, pods: seq<Pod>) returns (r: NodeReport)
    ensures NodeReported(NodeFetch(node, Ok(pods)), r)
    ensures r.NodeIdle? || r.NodeMix?
  {
    var nsCounts, catCounts := SummarizeNode(pods);
    var totalActive := SumCounts(nsCounts);
    if totalActive == 0 {
      return NodeIdle(node);
    }
    var namespaces := SortKeys(nsCounts.Keys);
    r := NodeMix(node, namespaces, nsCounts, catCounts, totalActive, CategoryTable(catCounts, totalActive));
  }

  /** One pass of the node loop of `build_markdown`: a node whose listing failed is reported
      as an error and skipped; a node without active pods is reported idle and skipped;
      any other node is reported and its counts are added into the pool totals. */
  method AccumulateNode(node: string, result: NodeResult, poolTotal: nat, poolCats: map<string, nat>)
    returns (r: NodeReport, newTotal: nat, newCats: map<string, nat>)
    ensures NodeReported(NodeFetch(node, result), r)
    ensures newTotal == poolTotal + |FetchCategories(NodeFetch(node, result))|
    ensures newCats == AddCounts(poolCats, CountMap(FetchCategories(NodeFetch(node, result))))
  {
    newTotal, newCats := poolTotal, poolCats;
    match result
    case Err(message) => {
      r := NodeError(node, message);
      assert AddCounts(poolCats, map[]) == poolCats;
    }
    case Ok(pods) => {
      r := SummarizeListedNode(node, pods);
      ActiveCategoriesLength(pods);
      if r.NodeIdle? {
        assert AddCounts(poolCats, map[]) == poolCats;
        return;
      }
      newTotal := newTotal + r.total;
      newCats := MergeCounts(newCats, r.catCounts);
    }
  }

  /** The pool loop of `build_markdown`: lists every node in roster order and accumulates
      the pool totals over the nodes whose listing succeeded. */
  method AccumulatePool(nodeNames: seq<string>, fetch: string -> NodeResult)
    returns (nodes: seq<NodeReport>, poolTotal: nat, poolCats: map<string, nat>)
    ensures PoolSummarized(FetchAll(nodeNames, fetch), nodes, poolTotal, poolCats)
    ensures poolTotal == SumValues(poolCats) == SucceededTotal(FetchAll(nodeNames, fetch))
    ensures forall i :: 0 <= i < |nodeNames| ==> (nodes[i].NodeError? <==> fetch(nodeNames[i]).Err?)
  {
    ghost var fetched := FetchAll(nodeNames, fetch);
    nodes, poolTotal, poolCats := [], 0, map[];
    for i := 0 to |nodeNames|
      invariant |nodes| == i
      invariant forall j :: 0 <= j < i ==> NodeReported(fetched[j], nodes[j])
      invariant poolCats == CountMap(PoolCategories(fetched[..i]))
      invariant poolTotal == |PoolCategories(fetched[..i])|
    {
      var node := nodeNames[i];
      var result := fetch(node);
      assert fetched[i] == NodeFetch(node, result);
      PoolCategoriesSnoc(fetched, i);
      CountMapAppend(PoolCategories(fetched[..i]), FetchCategories(fetched[i]));
      var r;
      r, poolTotal, poolCats := AccumulateNode(node, result, poolTotal, poolCats);
      nodes := nodes + [r];
    }
    assert fetched[..|nodeNames|] == fetched;
    PoolTotals(fetched);
  }

  /** One more node: its categories follow those of the nodes before it. */
  lemma PoolCategoriesSnoc(fetched: seq<NodeFetch>, i: nat)
    requires i < |fetched|
    ensures PoolCategories(fetched[..i + 1]) == PoolCategories(fetched[..i]) + FetchCategories(fetched[i])
  {
    assert fetched[..i + 1][..i] == fetched[..i];
  }

  /** Pool totals: the total is the sum of the category counts and the sum of the totals of
      the nodes whose listing succeeded; every category key is a report label. */
  lemma {:induction false} PoolTotals(fetched: seq<NodeFetch>)
    ensures |PoolCategories(fetched)| == SumValues(CountMap(PoolCategories(fetched)))
    ensures |PoolCategories(fetched)| == SucceededTotal(fetched)
    ensures forall c :: c in CountMap(PoolCategories(fetched)) ==> c in ReportOrder
    decreases |fetched|
  {
    SumCountMap(PoolCategories(fetched));
    if fetched != [] {
      var n := |fetched| - 1;
      PoolTotals(fetched[..n]);
      var f := fetched[n];
      if f.result.Ok? {
        ActiveCategoriesLength(f.result.pods);
        ActiveCategoriesLabels(f.result.pods);
      }
    }
  }

  /** Pool totals do not depend on the order the nodes are listed in. */
  lemma PoolOrderIndependent(fetched: seq<NodeFetch>, reordered: seq<NodeFetch>)
    requires multiset(fetched) == multiset(reordered)
    ensures CountMap(PoolCategories(fetched)) == CountMap(PoolCategories(reordered))
    ensures |PoolCategories(fetched)| == |PoolCategories(reordered)|
  {
    FlattenPermutation(fetched, reordered, FetchCategories);
    CountMapPermutation(PoolCategories(fetched), PoolCategories(reordered));
    assert |multiset(PoolCategories(fetched))| == |multiset(PoolCategories(reordered))|;
  }

  /** A node whose listing failed adds nothing to the pool: the totals are those of the
      pool without it. */
  lemma ErrorContributesNothing(fetched: seq<NodeFetch>, i: nat)
    requires i < |fetched| && fetched[i].result.Err?
    ensures PoolCategories(fetched) == PoolCategories(fetched[..i] + fetched[i + 1..])
  {
    var before, failed, after := fetched[..i], fetched[i], fetched[i + 1..];
    assert fetched == (before + [failed]) + after;
    FlattenAppend(before + [failed], after, FetchCategories);
    assert (before + [failed])[..|before|] == before;
    assert FetchCategories(failed) == [];
    assert Flatten(before + [failed], FetchCategories) == Flatten(before, FetchCategories);
    FlattenAppend(before, after, FetchCategories);
  }

  /** When the pool has active pods, the percentages of its category table add up to 100. */
  lemma PoolPercentagesSumTo100(fetched: seq<NodeFetch>)
    requires |PoolCategories(fetched)| > 0
    ensures PercentColumn(CategoryTable(CountMap(PoolCategories(fetched)), |PoolCategories(fetched)|)) == 100.0
    ensures PodsColumn(CategoryTable(CountMap(PoolCategories(fetched)), |PoolCategories(fetched)|)) ==
      |PoolCategories(fetched)|
  {
    PoolTotals(fetched);
    CategoryTableSums(CountMap(PoolCategories(fetched)), |PoolCategories(fetched)|);
  }

  /** One pool section of the report. */
  datatype PoolReport = PoolReport(name: string, ocid: string, nodes: seq<NodeReport>,
                                   total: nat, categoryCounts: map<string, nat>,
                                   categories: seq<CategoryRow>)

  /** `build_markdown` without the text: every pool in roster order, each with its node
      reports, its totals, and its category table when it has active pods. */
  method BuildPodMixReport(roster: seq<NodePool>, fetch: string -> NodeResult) returns (report: seq<PoolReport>)
    ensures |report| == |roster|
    ensures forall i :: 0 <= i < |roster| ==>
      && report[i].name == roster[i].name && report[i].ocid == roster[i].ocid
      && PoolSummarized(FetchAll(roster[i].nodeNames, fetch), report[i].nodes,
                        report[i].total, report[i].categoryCounts)
      && report[i].categories ==
           (if report[i].total == 0 then [] else CategoryTable(report[i].categoryCounts, report[i].total))
  {
    report := [];
    for i := 0 to |roster|
      invariant |report| == i
      invariant forall j :: 0 <= j < i ==>
        && report[j].name == roster[j].name && report[j].ocid == roster[j].ocid
        && PoolSummarized(FetchAll(roster[j].nodeNames, fetch), report[j].nodes,
                          report[j].total, report[j].categoryCounts)
        && report[j].categories ==
             (if report[j].total == 0 then [] else CategoryTable(report[j].categoryCounts, report[j].total))
    {
      var pool := roster[i];
      var nodes, poolTotal, poolCats := AccumulatePool(pool.nodeNames, fetch);
      var table := if poolTotal == 0 then [] else CategoryTable(poolCats, poolTotal);
      report := report + [PoolReport(pool.name, pool.ocid, nodes, poolTotal, poolCats, table)];
    }
  }

  /** Three nodes, the middle one failing: the pool total is the active pods of the other
      two, and the middle node alone is reported as an error. */
  lemma FaultIsolation(n1: string, n2: string, n3: string, fetch: string -> NodeResult,
                       nodes: seq<NodeReport>, total: nat, cats: map<string, nat>)
    requires fetch(n1).Ok? && fetch(n2).Err? && fetch(n3).Ok?
    requires PoolSummarized(FetchAll([n1, n2, n3], fetch), nodes, total, cats)
    ensures total == |ActivePods(fetch(n1).pods)| + |ActivePods(fetch(n3).pods)|
    ensures nodes[1] == NodeError(n2, fetch(n2).message)
    ensures !nodes[0].NodeError? && !nodes[2].NodeError?
  {
    var fetched := FetchAll([n1, n2, n3], fetch);
    assert NodeReported(fetched[0], nodes[0]);
    assert NodeReported(fetched[1], nodes[1]);
    assert NodeReported(fetched[2], nodes[2]);
    PoolTotals(fetched);
    SucceededTotalOfThree(fetched);
  }

  lemma SucceededTotalOfThree(fetched: seq<NodeFetch>)
    requires |fetched| == 3 && fetched[1].result.Err?
    requires fetched[0].result.Ok? && fetched[2].result.Ok?
    ensures SucceededTotal(fetched) ==
      |ActivePods(fetched[0].result.pods)| + |ActivePods(fetched[2].result.pods)|
  {
    var one, two := fetched[..1], fetched[..2];
    assert two[..1] == one && two[1] == fetched[1];
    assert one[..0] == [] && one[0] == fetched[0];
    assert SucceededTotal(one) == |ActivePods(fetched[0].result.pods)|;
    assert SucceededTotal(two) == SucceededTotal(one);
  }

  /** A pod of `prod-integraciones` in phase `Running`. */
  function ScenarioPod(): Pod
  {
    Pod("prod-integraciones", Some("Running"))
  }

  lemma ScenarioPodCategory()
    ensures IsActive(ScenarioPod())
    ensures ClassifyNamespace(ScenarioPod().namespace) == "integraciones"
  {
    ActiveExamples("prod-integraciones");
    ScenarioNamespaceLowered();
    var ns := "prod-integraciones";
    assert ns[4..] == "-integraciones";
    IntegracionesSuffix(ns);
  }

  lemma ScenarioNamespaceLowered()
    ensures Lower("prod-integraciones") == "prod-integraciones"
  {
  }

  /** Three copies of one active pod count three pods of its category. */
  lemma ThreeActiveCopies(p: Pod, c: string)
    requires IsActive(p) && ClassifyNamespace(p.namespace) == c
    ensures ActivePods([p, p, p]) == [p, p, p]
    ensures CountMap(ActiveCategories([p, p, p])) == map[c := 3]
  {
    ThreeCopiesKept(p);
    ThreeCopiesClassified(p, c);
    assert multiset([c, c, c]) == multiset{c, c, c};
  }

  lemma ThreeCopiesKept(p: Pod)
    requires IsActive(p)
    ensures ActivePods([p, p, p]) == [p, p, p]
  {
    assert [p, p, p][..2] == [p, p] && [p, p][..1] == [p] && [p][..0] == [];
    assert KeepActive(p) == [p];
    assert Flatten([p], KeepActive) == Flatten([p][..0], KeepActive) + KeepActive(p);
    assert Flatten([p, p], KeepActive) == Flatten([p], KeepActive) + KeepActive(p);
    assert Flatten([p, p, p], KeepActive) == Flatten([p, p], KeepActive) + KeepActive(p);
  }

  lemma ThreeCopiesClassified(p: Pod, c: string)
    requires IsActive(p) && ClassifyNamespace(p.namespace) == c
    ensures ActiveCategories([p, p, p]) == [c, c, c]
  {
    assert [p, p, p][..2] == [p, p] && [p, p][..1] == [p] && [p][..0] == [];
    assert ActiveCategory(p) == [c];
    assert Flatten([p], ActiveCategory) == Flatten([p][..0], ActiveCategory) + ActiveCategory(p);
    assert Flatten([p, p], ActiveCategory) == Flatten([p], ActiveCategory) + ActiveCategory(p);
    assert Flatten([p, p, p], ActiveCategory) == Flatten([p, p], ActiveCategory) + ActiveCategory(p);
  }

  /** The category table of a pool whose three pods are all `integraciones`. */
  lemma AllIntegracionesTable()
    ensures CategoryTable(map["integraciones" := 3], 3) == [CategoryRow("apps_soporte", 0, 0.0),
      CategoryRow("integraciones", 3, 100.0), CategoryRow("plataforma", 0, 0.0),
      CategoryRow("base_sistema", 0, 0.0), CategoryRow("otros", 0, 0.0)]
  {
    assert Pct(0, 3) == 0.0;
    assert Pct(3, 3) == 100.0;
  }

  /** A pool of a busy node then an empty one: the pool counts are those of the busy node. */
  lemma BusyThenEmpty(n1: string, n2: string, pods: seq<Pod>, fetch: string -> NodeResult,
                      nodes: seq<NodeReport>, total: nat, cats: map<string, nat>)
    requires fetch(n1) == Ok(pods) && |ActivePods(pods)| > 0
    requires fetch(n2) == Ok([])
    requires PoolSummarized(FetchAll([n1, n2], fetch), nodes, total, cats)
    ensures nodes[0].NodeMix? && nodes[0].total == |ActivePods(pods)|
    ensures nodes[0].catCounts == CountMap(ActiveCategories(pods))
    ensures nodes[1] == NodeIdle(n2)
    ensures total == |ActivePods(pods)| && cats == CountMap(ActiveCategories(pods))
  {
    var fetched := FetchAll([n1, n2], fetch);
    assert NodeReported(fetched[0], nodes[0]);
    assert ActivePods([]) == [];
    assert NodeReported(fetched[1], nodes[1]);
    assert fetched[..1][..0] == [];
    assert FetchCategories(fetched[1]) == [];
    assert Flatten(fetched, FetchCategories) == Flatten(fetched[..1], FetchCategories) + [];
    assert Flatten(fetched[..1], FetchCategories) == [] + FetchCategories(fetched[0]);
    ActiveCategoriesLength(pods);
  }

  /** One pool of two nodes: `n1` with three running pods of `prod-integraciones`, `n2`
      with none. `n1` counts three pods, all `integraciones`; `n2` is idle; the pool counts
      three pods, all `integraciones`, which are 100 percent of the pool. */
  lemma EndToEndScenario(fetch: string -> NodeResult, nodes: seq<NodeReport>, total: nat, cats: map<string, nat>)
    requires fetch("n1") == Ok([ScenarioPod(), ScenarioPod(), ScenarioPod()])
    requires fetch("n2") == Ok([])
    requires PoolSummarized(FetchAll(["n1", "n2"], fetch), nodes, total, cats)
    ensures nodes[0].NodeMix? && nodes[0].total == 3
    ensures nodes[0].catCounts == map["integraciones" := 3]
    ensures nodes[1] == NodeIdle("n2")
    ensures total == 3 && cats == map["integraciones" := 3]
    ensures CategoryTable(cats, total) == [CategoryRow("apps_soporte", 0, 0.0),
      CategoryRow("integraciones", 3, 100.0), CategoryRow("plataforma", 0, 0.0),
      CategoryRow("base_sistema", 0, 0.0), CategoryRow("otros", 0, 0.0)]
  {
    ScenarioPodCategory();
    ThreeActiveCopies(ScenarioPod(), "integraciones");
    BusyThenEmpty("n1", "n2", [ScenarioPod(), ScenarioPod(), ScenarioPod()], fetch, nodes, total, cats);
    AllIntegracionesTable();
  }
}
