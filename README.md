# Node pool pod reports — a Dafny model

Two scripts inventory the pods running on the nodes of Kubernetes node pools:

- `nodepool_podmix_report.py` classifies each namespace into a category (`integraciones`,
  `apps_soporte`, `plataforma`, `base_sistema`, or the fallback `otros`). It does this with an
  ordered table of case-insensitive rules where the first match wins. It then counts the active
  pods of every node per namespace and per category, and accumulates category totals and
  percentages per pool.
- `nodepool_namespaces_Report.py` lists, for every node, the sorted namespaces of its active
  pods with their pod counts. A node whose pod listing fails is reported with its error and
  skipped.

The model is one Dafny module per concern:

- `Text`: ASCII lower-casing and word characters.
- `Ordering`: Python's string order and `sorted()` over a set of keys.
- `Counting`: count dictionaries as `map<string, nat>`.
- `Rules`: the rule table, the `Sub`/`Word` pattern shapes, the classifier and rule compilation.
- `Pods`: pods, the active-pod filter and per-node fetch results.
- `PodMix`: node summaries, `pct`, category tables, the pool loop and the report driver.
- `NamespacesReport`: the namespace counter and its report driver.

Every dictionary the scripts build in a loop is specified by `CountMap(s)`. This is the map
from each key of the sequence `s` to its number of occurrences. `s` is the sequence of keys the
loop would count, such as the namespaces of the active pods in input order. Each loop is
proved to build exactly that map. Totals, permutation independence and fault isolation are then
proved about `CountMap` and the sequences that feed it.

Listing the pods of a node is a call into the Kubernetes API. It is modelled as a parameter
`fetch: string -> NodeResult`, where `NodeResult = Err(message) | Ok(pods)`.

`summarize_node` classifies every active pod rather than every distinct namespace once.
`PodMix.CategoryCountsFromNamespaces` proves that the two agree: the count of a category is
the sum of the counts of the namespaces that classify into it.

## Model

| member | source | states |
|---|---|---|
| Rules.Classify | nodepool_podmix_report.py:86-91 | The result is the category of the first rule, in table order, with a matching pattern. If no rule matches, it is `otros`. It is always `otros` or the category of some rule. |
| Rules.ClassifyNamespace | nodepool_podmix_report.py:67-73 | Classification with the built-in table is total and always one of the five report labels. |
| Rules.SearchFrom | nodepool_podmix_report.py:89 | `p.search` from position i finds a match exactly when the pattern matches at some position at or after i. |
| Rules.Search | nodepool_podmix_report.py:89 | `p.search(ns)` succeeds exactly when the pattern matches somewhere in the lower-cased namespace. |
| Rules.SearchAny | nodepool_podmix_report.py:88-90 | Scanning a rule's patterns in order succeeds exactly when one of them matches. |
| Rules.CompileRules | nodepool_podmix_report.py:76-80 | Compiling keeps every rule and its order, compiling each pattern of each rule. |
| Rules.CompilePatternMatches | nodepool_podmix_report.py:79 | A compiled pattern, its literal lower-cased ahead of time, matches exactly the namespaces the written pattern matches. The `re.IGNORECASE` behaviour itself is modelled by `Matches`, which lower-cases both sides. |
| Rules.CompilePreservesClassify | nodepool_podmix_report.py:76-91 | Classifying with the compiled table gives the same category as with the written table. |
| Rules.ClassifyIgnoresCase | nodepool_podmix_report.py:79 | Two namespaces that differ only in letter case get the same category. |
| Rules.ClassifyLowered | nodepool_podmix_report.py:79 | Lower-casing a namespace does not change its category. |
| Rules.IntegracionesWins | nodepool_podmix_report.py:67-69 | Any namespace containing `-integraciones` is `integraciones`, whatever other patterns it matches. |
| Rules.IntegracionesSuffix | nodepool_podmix_report.py:57-69 | Any namespace ending in `-integraciones`, in any letter case, is `integraciones`. |
| Rules.WordMatchNeedsSeparators | nodepool_podmix_report.py:56-64 | A `\b`-bounded literal matches exactly where the literal occurs with a non-word character or a string end on both sides. |
| Rules.MatchSpellsLiteral | nodepool_podmix_report.py:89 | A match at position i spells the lower-cased literal from i on. |
| Rules.MissingCharNoMatch | nodepool_podmix_report.py:89 | A pattern cannot match a namespace lacking one of its letters. |
| Rules.NoneMatches | nodepool_podmix_report.py:88-90 | No pattern of a rule matches when each pattern has a letter absent from the namespace. |
| Rules.ClassifyEpm | nodepool_podmix_report.py:56 | `epm` is `apps_soporte`. |
| Rules.ClassifyEpmx | nodepool_podmix_report.py:56-64 | `epmx` is `otros`: the word-bounded `epm` does not match inside a longer word. |
| Rules.ClassifyKubeIntegraciones | nodepool_podmix_report.py:67-73 | `kube-integraciones` is `integraciones`, although it also matches `\bkube\b` of a later rule. |
| Rules.ClassifyKubeSystemUpper | nodepool_podmix_report.py:63 | `KUBE-SYSTEM` is `base_sistema`: matching ignores case and `-` is a word boundary. |
| Text.Lower | nodepool_podmix_report.py:117 | Lower-casing keeps the length and leaves no upper-case letter. Each upper-case letter becomes its lower-case partner, 32 code points above, and every other character is kept in place. |
| Text.LowerIdempotent | nodepool_podmix_report.py:117 | Lower-casing twice is lower-casing once. |
| Pods.InactiveExactlyWhenFinished | nodepool_podmix_report.py:116-119 | A pod is inactive exactly when its phase, lower-cased, is `succeeded` or `failed`. A missing or empty phase is active. |
| Pods.ActiveExamples | nodepool_podmix_report.py:116-119 | `Running` and `Pending` are active; `Succeeded` and `FAILED` are not. |
| Pods.ActivePodsCount | nodepool_podmix_report.py:131-133 | The filter keeps every active pod as often as it occurs and drops every inactive one. |
| Pods.NamespaceCountsSnoc | nodepool_namespaces_Report.py:96-102 | One more pod adds one to its namespace's count when active, and changes nothing otherwise. |
| Pods.NamespaceCountsTotals | nodepool_namespaces_Report.py:95-102 | Namespace counts add up to the number of active pods, and every stored count is at least one. |
| Pods.NamespaceCountsOrderIndependent | nodepool_namespaces_Report.py:96-102 | Reordering the pods gives the same namespace counts. |
| Counting.SumCounts | nodepool_podmix_report.py:196 | `sum(ns_counts.values())` is the sum of the map's values. |
| Counting.MergeCounts | nodepool_podmix_report.py:204-205 | Merging a node's category counts into the pool totals adds them entry by entry. |
| Counting.SumCountMap | nodepool_podmix_report.py:196 | The values of a count map add up to the number of keys counted. |
| Counting.CountMapAppend | nodepool_podmix_report.py:203-205 | Counting two key sequences one after the other is adding their count maps. |
| Counting.CountMapPermutation | nodepool_namespaces_Report.py:96-102 | Key sequences that differ only in order have the same count map. |
| Ordering.SortKeys | nodepool_namespaces_Report.py:104 | `sorted(counts.keys())` is strictly ascending and holds exactly the keys. |
| Ordering.StrictlySortedUnique | nodepool_namespaces_Report.py:104 | A strictly ascending sequence is determined by its elements, so the sorted order is unique. |
| Ordering.LexLessTransitive | nodepool_namespaces_Report.py:104 | Python's string order is transitive. |
| Ordering.LexLessTotal | nodepool_namespaces_Report.py:104 | Any two different strings are ordered one way or the other. |
| PodMix.SummarizeNode | nodepool_podmix_report.py:122-140 | The namespace and category counts are those of the active pods. Both add up to the number of active pods, and every category key is a report label. Each category's count is the sum of the counts of the namespaces that classify into it. |
| PodMix.CategoryCountsFromNamespaces | nodepool_podmix_report.py:131-138 | Classifying every active pod gives each category the sum of the counts of its namespaces, as classifying every counted namespace once would. |
| PodMix.NodeSummaryTotals | nodepool_podmix_report.py:128-140 | Namespace and category counts have equal sums, both equal to the active pod count. Every stored count is at least one, and category keys are report labels. |
| PodMix.NodeSummarySnoc | nodepool_podmix_report.py:131-138 | One more active pod adds one to its namespace and one to its category. A finished pod changes nothing. |
| PodMix.Pct | nodepool_podmix_report.py:143-146 | `pct` is 0 when the total is not positive. Otherwise it is the percentage: times the total, it gives 100 times the part. |
| PodMix.CategoryTableSums | nodepool_podmix_report.py:212-214 | A category table over the five labels has pod counts summing to the total. When the total is positive, its percentages sum to 100. |
| PodMix.SummarizeListedNode | nodepool_podmix_report.py:190-200 | A listed node is reported idle when it has no active pods. Otherwise it is reported with its counts, sorted namespaces and category table. |
| PodMix.AccumulateNode | nodepool_podmix_report.py:188-205 | A failed node is reported as an error and adds nothing. Any other node is reported and adds its active pods to the pool totals. |
| PodMix.AccumulatePool | nodepool_podmix_report.py:181-205 | The pool loop reports every node in roster order. The pool total equals the sum of the category totals and the sum of the node totals over successful nodes. A node is an error exactly when its listing failed. |
| PodMix.PoolTotals | nodepool_podmix_report.py:181-205 | The pool total is the sum of the pool category counts and of the succeeded nodes' active pod counts. Every pool category is a report label. |
| PodMix.PoolOrderIndependent | nodepool_podmix_report.py:184-205 | Listing the nodes of a pool in another order gives the same pool totals. |
| PodMix.ErrorContributesNothing | nodepool_podmix_report.py:191-194 | A node whose listing failed leaves the pool totals as if it were not in the pool. |
| PodMix.PoolPercentagesSumTo100 | nodepool_podmix_report.py:231-239 | When the pool has active pods, its category table's percentages add up to 100 and its pod counts to the pool total. |
| PodMix.FaultIsolation | nodepool_podmix_report.py:188-205 | With three nodes of which the middle one fails, the pool total is the active pods of the other two, and only the middle node is an error. |
| PodMix.EndToEndScenario | nodepool_podmix_report.py:181-239 | Two nodes, the first with three running `prod-integraciones` pods and the second empty. The first counts 3 `integraciones`, the second is idle, and the pool is 3 `integraciones` at 100 percent. |
| PodMix.BuildPodMixReport | nodepool_podmix_report.py:173-239 | Every pool is reported in roster order with its node reports and totals. It has a category table in the fixed label order when it has active pods, and none otherwise. |
| NamespacesReport.ListNamespacesByNode | nodepool_namespaces_Report.py:94-105 | The counts are those of the active pods' namespaces and add up to the number of active pods, each at least one. The namespaces are the count keys, strictly sorted. |
| NamespacesReport.ListNode | nodepool_namespaces_Report.py:130-145 | A node whose listing failed is reported with its error, and, for pods of the modelled shape (see "## Left out"), only then. A node without active pods gets a note, and any other node its sorted namespaces and counts. |
| NamespacesReport.ListPool | nodepool_namespaces_Report.py:123-145 | Every node of the pool is listed in roster order, whatever happened to the nodes before it. |
| NamespacesReport.BuildNamespacesReport | nodepool_namespaces_Report.py:123-157 | Every pool is reported in roster order, each with every node's listing. |
| NamespacesReport.ErrorExactlyWhenFetchFails | nodepool_namespaces_Report.py:130-138 | In a pool report, a node is an error exactly when its listing failed. A listed node's counts are those of its active pods. |
| NamespacesReport.NodeListingUnique | nodepool_namespaces_Report.py:104-105 | The listing of a node is determined by its pods, namespace order included. |
| NamespacesReport.OnlyFirstActive | nodepool_namespaces_Report.py:96-102 | An active pod followed by two finished ones counts one pod for the first pod's namespace. |
| NamespacesReport.PhaseFilterExample | nodepool_namespaces_Report.py:96-102 | `a` Running, `a` Succeeded and `b` FAILED count `{a: 1}`, with one active pod. |

## Left out

- Kubernetes API calls (`list_pods_on_node`, `list_pod_for_all_namespaces`, `client.CoreV1Api`) are a parameter `fetch`. Each node is fetched once, and the result is `Err(message)` or `Ok(pods)`. The exact wording of the wrapped error message is not modelled.
- Exceptions raised while counting are not modelled, and neither are the pods that would cause them: a pod without a `status` or `metadata`, or a missing namespace that `sorted()` cannot compare with strings. A `Pod` always has a namespace string and an optional phase, so the model's counting and sorting cannot fail. Both scripts would report such a node as an error: `summarize_node` runs inside the `try` of `nodepool_podmix_report.py` lines 188-194, and the counting and sorting of `list_namespaces_by_node` (lines 96-104) inside the `try` of `nodepool_namespaces_Report.py` lines 131-138. NamespacesReport.ListNode and PodMix.AccumulateNode therefore report an error exactly when the fetch fails, which the source does only for pods of the modelled shape.
- `load_kube_config`, contexts and credentials are not modelled: they are foreign library calls.
- `argparse`, `main`, writing the output file and `print` are not modelled: they are command-line and I/O plumbing.
- `datetime.now` is not modelled: it is a clock read.
- The Markdown text is not modelled: headings, legend, table syntax, the `:.1f` rounding of percentages and the per-namespace table of the pod-mix node section (lines 219-225). The model keeps the data those lines display: the node reports, the category tables in the fixed label order, the sorted namespaces and their counts.
- Python's regular-expression engine is not modelled. Only the two pattern shapes the table uses are: a literal substring and a `\b`-bounded literal.
- Word characters are ASCII letters, digits and `_`, and lower-casing is ASCII only. Python's Unicode `\w`, `str.lower` and case folding are not modelled.
- The hard-coded `NODEPOOLS` roster is not modelled: the roster is a parameter.
- The roster is taken as given and not validated. An empty roster gives an empty report.
- PodMix.Pct: computed over exact reals, not IEEE doubles. Floating-point rounding is not modelled.
