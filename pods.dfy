/** Pods as both report scripts see them (namespace and lifecycle phase), the filter that
    drops finished pods, and the outcome of listing the pods of one node. */
module Pods {
  import opened Text
  import opened Counting

  datatype Option<T> = None | Some(value: T)

  /** A pod: `metadata.namespace` and `status.phase`, which may be missing. */
  datatype Pod = Pod(namespace: string, phase: Option<string>)

  /** A node pool of the roster: name, cloud identifier, node names in display order. */
  datatype NodePool = NodePool(name: string, ocid: string, nodeNames: seq<string>)

  /** Listing the pods of one node either failed (the API raised) or returned its pods. */
  datatype NodeResult = Err(message: string) | Ok(pods: seq<Pod>)

  /** `(p.status.phase or "")`: a missing phase reads as the empty string. */
  function PhaseText(p: Pod): string
  {
    match p.phase
    case None => ""
    case Some(s) => s
  }

  /** `is_active_pod`: only the finished phases `succeeded` and `failed`, in any case,
      make a pod inactive. */
  predicate IsActive(p: Pod)
  {
    var phase := Lower(PhaseText(p));
    phase != "succeeded" && phase != "failed"
  }

  /** A pod is inactive exactly when it has a phase that spells `succeeded` or `failed`
      in some mix of cases; a missing or empty phase is active. */
  lemma InactiveExactlyWhenFinished(p: Pod)
    ensures !IsActive(p) <==>
      p.phase.Some? && (Lower(p.phase.value) == "succeeded" || Lower(p.phase.value) == "failed")
    ensures p.phase == None || p.phase == Some("") ==> IsActive(p)
  {
    if p.phase == Some("") {
      assert Lower("") == "";
    }
  }

  /** Phases are compared ignoring case. */
  lemma ActiveExamples(ns: string)
    ensures IsActive(Pod(ns, Some("Running")))
    ensures IsActive(Pod(ns, Some("Pending")))
    ensures !IsActive(Pod(ns, Some("Succeeded")))
    ensures !IsActive(Pod(ns, Some("FAILED")))
  {
    assert Lower("Running") == "running";
    assert Lower("Pending") == "pending";
    assert Lower("Succeeded") == "succeeded";
    assert Lower("FAILED") == "failed";
  }

  /** The pod itself if it is active, nothing otherwise. */
  function KeepActive(p: Pod): seq<Pod>
  {
    if IsActive(p) then [p] else []
  }

  /** The namespace of the pod if it is active, nothing otherwise. */
  function ActiveNamespace(p: Pod): seq<string>
  {
    if IsActive(p) then [p.namespace] else []
  }

  /** The active pods, in input order. */
  function ActivePods(pods: seq<Pod>): seq<Pod>
  {
    Flatten(pods, KeepActive)
  }

  /** The namespaces of the active pods, one entry per active pod, in input order. */
  function ActiveNamespaces(pods: seq<Pod>): seq<string>
  {
    Flatten(pods, ActiveNamespace)
  }

  /** The active pods are exactly the pods that are active, each as often as in the input. */
  lemma {:induction false} ActivePodsCount(pods: seq<Pod>, p: Pod)
    ensures multiset(ActivePods(pods))[p] == if IsActive(p) then multiset(pods)[p] else 0
    decreases |pods|
  {
    if pods != [] {
      var n := |pods| - 1;
      assert pods == pods[..n] + [pods[n]];
      ActivePodsCount(pods[..n], p);
    }
  }

  /** There is one active namespace per active pod. */
  lemma ActiveNamespacesLength(pods: seq<Pod>)
    ensures |ActiveNamespaces(pods)| == |ActivePods(pods)|
  {
    FlattenSameLength(pods, ActiveNamespace, KeepActive);
  }

  /** One more pod: an active pod adds one to the count of its namespace, a finished pod
      changes nothing. */
  lemma NamespaceCountsSnoc(pods: seq<Pod>, p: Pod)
    ensures CountMap(ActiveNamespaces(pods + [p])) ==
      if IsActive(p) then Bump(CountMap(ActiveNamespaces(pods)), p.namespace, 1)
      else CountMap(ActiveNamespaces(pods))
  {
    assert (pods + [p])[..|pods|] == pods;
    if IsActive(p) {
      CountMapSnoc(ActiveNamespaces(pods), p.namespace);
    } else {
      assert ActiveNamespaces(pods + [p]) == ActiveNamespaces(pods);
    }
  }

  /** The namespace counts add up to the number of active pods, and every stored count is
      at least one. */
  lemma NamespaceCountsTotals(pods: seq<Pod>)
    ensures SumValues(CountMap(ActiveNamespaces(pods))) == |ActivePods(pods)|
    ensures forall ns :: ns in CountMap(ActiveNamespaces(pods)) ==> CountMap(ActiveNamespaces(pods))[ns] >= 1
  {
    SumCountMap(ActiveNamespaces(pods));
    ActiveNamespacesLength(pods);
  }

  /** The namespace counts do not depend on the order the pods are listed in. */
  lemma NamespaceCountsOrderIndependent(pods: seq<Pod>, reordered: seq<Pod>)
    requires multiset(pods) == multiset(reordered)
    ensures CountMap(ActiveNamespaces(pods)) == CountMap(ActiveNamespaces(reordered))
  {
    FlattenPermutation(pods, reordered, ActiveNamespace);
    CountMapPermutation(ActiveNamespaces(pods), ActiveNamespaces(reordered));
  }
}
