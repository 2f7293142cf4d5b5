/** The namespace classifier of the pod-mix report: an ordered rule table of
    (category, patterns), searched case-insensitively, first match wins, `otros` otherwise. */
module Rules {
  import opened Text

  /** The two pattern shapes the rule table uses: a literal searched anywhere (`"activo"`),
      or a literal between regex word boundaries (`r"\bepm\b"`). */
  datatype Pattern = Sub(lit: string) | Word(lit: string)

  datatype Rule = Rule(category: string, patterns: seq<Pattern>)

  /** Category of a namespace that no rule matches. */
  const Fallback: string := "otros"

  const SupportAppsKws: seq<Pattern> := [Sub("activo"), Sub("tokin"), Word("epm"), Sub("vipo")]
  const IntegrationsKws: seq<Pattern> := [Sub("-integraciones")]
  const PlatformKws: seq<Pattern> :=
    [Sub("cattle"), Sub("rancher"), Word("argo"), Sub("harbor"), Sub("fleet"),
     Sub("cert-manager"), Sub("devops"), Sub("conf-manager")]
  const BaseSystemKws: seq<Pattern> :=
    [Word("kube"), Sub("prometheus"), Sub("thanos"), Sub("eck8"), Sub("heartbeat"),
     Sub("ingress"), Word("vpa"), Sub("synthetics"), Sub("uptime")]

  /** Precedence: the first rule that matches wins. */
  const CategoryRules: seq<Rule> :=
    [Rule("integraciones", IntegrationsKws),
     Rule("apps_soporte", SupportAppsKws),
     Rule("plataforma", PlatformKws),
     Rule("base_sistema", BaseSystemKws)]

  /** The five labels, in the order the report lists them. */
  const ReportOrder: seq<string> := ["apps_soporte", "integraciones", "plataforma", "base_sistema", "otros"]

  /** A regex `\b` at offset i of s: word-character-ness differs on the two sides. */
  predicate AtBoundary(s: string, i: nat)
    requires i <= |s|
  {
    (0 < i && IsWordChar(s[i - 1])) != (i < |s| && IsWordChar(s[i]))
  }

  /** Pattern p occurs at offset i of the lower-cased text s. */
  predicate MatchesAt(p: Pattern, s: string, i: nat)
  {
    var lit := Lower(p.lit);
    i + |lit| <= |s| && s[i..i + |lit|] == lit
    && (p.Word? ==> AtBoundary(s, i) && AtBoundary(s, i + |lit|))
  }

  /** `re.search(p, ns, re.IGNORECASE)` finds a match. */
  ghost predicate Matches(p: Pattern, ns: string)
  {
    exists i: nat :: MatchesAt(p, Lower(ns), i)
  }

  /** Scans s left to right from offset i for an occurrence of p. */
  function SearchFrom(p: Pattern, s: string, i: nat): (found: bool)
    ensures found <==> exists j: nat :: i <= j && MatchesAt(p, s, j)
    decreases |s| - i
  {
    if |s| < i + |p.lit| then false
    else if MatchesAt(p, s, i) then true
    else if i == |s| then false
    else SearchFrom(p, s, i + 1)
  }

  /** `p.search(ns)` on a pattern compiled with `re.IGNORECASE`. */
  function Search(p: Pattern, ns: string): (found: bool)
    ensures found <==> Matches(p, ns)
  {
    SearchFrom(p, Lower(ns), 0)
  }

  /** Some pattern of the list matches ns. */
  ghost predicate AnyMatches(patterns: seq<Pattern>, ns: string)
  {
    exists q :: 0 <= q < |patterns| && Matches(patterns[q], ns)
  }

  /** The inner loop of the classifier: tries the patterns of one rule in order. */
  function SearchAny(patterns: seq<Pattern>, ns: string): (found: bool)
    ensures found <==> AnyMatches(patterns, ns)
  {
    if patterns == [] then false
    else if Search(patterns[0], ns) then true
    else
      assert forall q :: 0 < q < |patterns| ==> patterns[q] == patterns[1..][q - 1];
      SearchAny(patterns[1..], ns)
  }

  /** Rule k is the first rule of the table whose patterns match ns. */
  ghost predicate FirstMatch(rules: seq<Rule>, ns: string, k: nat)
  {
    k < |rules| && AnyMatches(rules[k].patterns, ns)
    && forall j :: 0 <= j < k ==> !AnyMatches(rules[j].patterns, ns)
  }

  /** The classifier: the category of the first matching rule, or the fallback. */
  function Classify(rules: seq<Rule>, ns: string): (c: string)
    ensures forall k: nat :: FirstMatch(rules, ns, k) ==> c == rules[k].category
    ensures (forall k :: 0 <= k < |rules| ==> !AnyMatches(rules[k].patterns, ns)) ==> c == Fallback
    ensures c == Fallback || exists r :: r in rules && c == r.category
  {
    if rules == [] then Fallback
    else if SearchAny(rules[0].patterns, ns) then rules[0].category
    else
      assert forall k: nat :: FirstMatch(rules, ns, k) ==> k > 0 && FirstMatch(rules[1..], ns, k - 1);
      Classify(rules[1..], ns)
  }

  /** The literal of a pattern, lower-cased, as compiling with `re.IGNORECASE` does. */
  function CompilePattern(p: Pattern): Pattern
  {
    match p
    case Sub(lit) => Sub(Lower(lit))
    case Word(lit) => Word(Lower(lit))
  }

  function CompileRule(r: Rule): Rule
  {
    Rule(r.category, seq(|r.patterns|, i requires 0 <= i < |r.patterns| => CompilePattern(r.patterns[i])))
  }

  function CompileAll(rules: seq<Rule>): seq<Rule>
  {
    seq(|rules|, i requires 0 <= i < |rules| => CompileRule(rules[i]))
  }

  /** `compile_rules()`: one compiled rule per rule, categories and order kept. */
  method CompileRules(rules: seq<Rule>) returns (compiled: seq<Rule>)
    ensures compiled == CompileAll(rules)
  {
    compiled := [];
    var i := 0;
    while i < |rules|
      invariant i <= |rules|
      invariant compiled == CompileAll(rules[..i])
    {
      compiled := compiled + [CompileRule(rules[i])];
      i := i + 1;
    }
    assert rules[..i] == rules;
  }

  /** A compiled pattern matches exactly where its source pattern does. The case-insensitive
      matching of `re.IGNORECASE` is modelled by `Matches` itself, which lower-cases both the
      literal and the namespace; compiling only lower-cases the literal ahead of time, and this
      lemma shows that doing so changes nothing. */
  lemma CompilePatternMatches(p: Pattern, ns: string)
    ensures Matches(CompilePattern(p), ns) <==> Matches(p, ns)
  {
    LowerIdempotent(p.lit);
    assert forall i: nat :: MatchesAt(CompilePattern(p), Lower(ns), i) == MatchesAt(p, Lower(ns), i);
  }

  /** Compiling the table leaves every classification as it was (the case-insensitivity
      itself lives in `Matches`, not in the compilation). */
  lemma {:induction false} CompilePreservesClassify(rules: seq<Rule>, ns: string)
    ensures Classify(CompileAll(rules), ns) == Classify(rules, ns)
    decreases |rules|
  {
    if rules != [] {
      var r := rules[0];
      forall q | 0 <= q < |r.patterns|
        ensures Matches(CompileRule(r).patterns[q], ns) <==> Matches(r.patterns[q], ns)
      {
        CompilePatternMatches(r.patterns[q], ns);
      }
      assert AnyMatches(CompileRule(r).patterns, ns) <==> AnyMatches(r.patterns, ns);
      assert CompileAll(rules)[1..] == CompileAll(rules[1..]);
      CompilePreservesClassify(rules[1..], ns);
    }
  }

  /** `classify_namespace(ns)` over the compiled default table. */
  function ClassifyNamespace(ns: string): (c: string)
    ensures c in ReportOrder
    ensures c == Classify(CategoryRules, ns)
  {
    CompilePreservesClassify(CategoryRules, ns);
    Classify(CompileAll(CategoryRules), ns)
  }

  /** Only the lower-cased namespace is looked at: namespaces that differ in case alone
      classify alike. */
  lemma {:induction false} ClassifyIgnoresCase(rules: seq<Rule>, a: string, b: string)
    requires Lower(a) == Lower(b)
    ensures Classify(rules, a) == Classify(rules, b)
    decreases |rules|
  {
    if rules != [] {
      assert forall p :: Matches(p, a) <==> Matches(p, b);
      assert AnyMatches(rules[0].patterns, a) <==> AnyMatches(rules[0].patterns, b);
      ClassifyIgnoresCase(rules[1..], a, b);
    }
  }

  /** A namespace classifies as its own lower-cased form. */
  lemma ClassifyLowered(rules: seq<Rule>, ns: string)
    ensures Classify(rules, Lower(ns)) == Classify(rules, ns)
  {
    LowerIdempotent(ns);
    ClassifyIgnoresCase(rules, Lower(ns), ns);
  }

  /** Rule order decides overlaps: any namespace containing `-integraciones`, whatever else
      it contains, classifies as `integraciones`. */
  lemma IntegracionesWins(ns: string)
    requires Matches(Sub("-integraciones"), ns)
    ensures ClassifyNamespace(ns) == "integraciones"
  {
    assert CategoryRules[0].patterns[0] == Sub("-integraciones");
    assert FirstMatch(CategoryRules, ns, 0);
  }

  /** A word-bounded literal that starts and ends with word characters matches exactly where
      the literal occurs with a non-word character or an end of the text on each side. */
  lemma WordMatchNeedsSeparators(lit: string, ns: string, i: nat)
    requires var l := Lower(lit); |l| > 0 && IsWordChar(l[0]) && IsWordChar(l[|l| - 1])
    ensures MatchesAt(Word(lit), Lower(ns), i) <==>
      var s, n := Lower(ns), |lit|;
      MatchesAt(Sub(lit), s, i)
      && (i == 0 || !IsWordChar(s[i - 1]))
      && (i + n == |s| || !IsWordChar(s[i + n]))
  {
    var s, l, n := Lower(ns), Lower(lit), |lit|;
    if MatchesAt(Sub(lit), s, i) {
      assert s[i] == l[0] && s[i + n - 1] == l[n - 1];
    }
  }

  /** Where a pattern matches, the namespace spells out its literal, ignoring case. */
  lemma MatchSpellsLiteral(p: Pattern, ns: string, i: nat, k: nat)
    ensures MatchesAt(p, Lower(ns), i) && k < |p.lit| ==>
      i + k < |ns| && LowerChar(ns[i + k]) == LowerChar(p.lit[k])
  {
    if MatchesAt(p, Lower(ns), i) && k < |p.lit| {
      var l, s := Lower(p.lit), Lower(ns);
      assert s[i..i + |l|][k] == l[k];
      assert s[i + k] == LowerChar(ns[i + k]) && l[k] == LowerChar(p.lit[k]);
    }
  }

  /** A pattern whose literal holds a letter the lower-cased namespace lacks cannot match it. */
  lemma MissingCharNoMatch(p: Pattern, ns: string, c: char)
    requires c in p.lit && LowerChar(c) == c && c !in Lower(ns)
    ensures !Matches(p, ns)
  {
    var k :| 0 <= k < |p.lit| && p.lit[k] == c;
    forall i: nat ensures !MatchesAt(p, Lower(ns), i) {
      MatchSpellsLiteral(p, ns, i, k);
      if i + k < |ns| {
        assert Lower(ns)[i + k] == LowerChar(ns[i + k]);
      }
    }
  }

  /** No pattern of the list matches: chars[q] is a letter of pattern q missing from ns. */
  lemma NoneMatches(patterns: seq<Pattern>, ns: string, chars: seq<char>)
    requires |chars| == |patterns|
    requires forall q :: 0 <= q < |patterns| ==> chars[q] in patterns[q].lit && LowerChar(chars[q]) == chars[q]
    requires forall q :: 0 <= q < |patterns| ==> chars[q] !in Lower(ns)
    ensures !AnyMatches(patterns, ns)
  {
    forall q | 0 <= q < |patterns| ensures !Matches(patterns[q], ns) {
      MissingCharNoMatch(patterns[q], ns, chars[q]);
    }
  }

  /** The whole word `epm` on its own is a support application. */
  lemma ClassifyEpm()
    ensures ClassifyNamespace("epm") == "apps_soporte"
  {
    assert Lower("epm") == "epm";
    NoneMatches(IntegrationsKws, "epm", ['i']);
    assert MatchesAt(Word("epm"), Lower("epm"), 0);
    assert SupportAppsKws[2] == Word("epm");
    assert FirstMatch(CategoryRules, "epm", 1);
  }

  /** `epm` inside `epmx` is not a whole word, and nothing else matches. */
  lemma ClassifyEpmx()
    ensures ClassifyNamespace("epmx") == "otros"
  {
    EpmxMatchesNoIntegration();
    EpmxMatchesNoSupportApp();
    EpmxMatchesNoPlatform();
    EpmxMatchesNoBaseSystem();
    assert forall k :: 0 <= k < |CategoryRules| ==> !AnyMatches(CategoryRules[k].patterns, "epmx") by {
      forall k | 0 <= k < |CategoryRules| ensures !AnyMatches(CategoryRules[k].patterns, "epmx") {
        assert CategoryRules[k].patterns in [IntegrationsKws, SupportAppsKws, PlatformKws, BaseSystemKws];
      }
    }
  }

  lemma EpmxMatchesNoIntegration()
    ensures !AnyMatches(IntegrationsKws, "epmx")
  {
    assert Lower("epmx") == "epmx";
    NoneMatches(IntegrationsKws, "epmx", ['i']);
  }

  lemma EpmxMatchesNoSupportApp()
    ensures !AnyMatches(SupportAppsKws, "epmx")
  {
    var s := "epmx";
    assert Lower(s) == s;
    forall i: nat ensures !MatchesAt(Word("epm"), s, i) {
      if i == 0 {
        assert !AtBoundary(s, 3);
      } else if i == 1 {
        assert s[1] != 'e';
      }
    }
    assert !Matches(Word("epm"), s);
    NoneMatches([Sub("activo"), Sub("tokin")], s, ['a', 't']);
    NoneMatches([Sub("vipo")], s, ['v']);
  }

  lemma EpmxMatchesNoPlatform()
    ensures !AnyMatches(PlatformKws, "epmx")
  {
    assert Lower("epmx") == "epmx";
    NoneMatches(PlatformKws, "epmx", ['c', 'r', 'a', 'h', 'f', 'c', 'd', 'c']);
  }

  lemma EpmxMatchesNoBaseSystem()
    ensures !AnyMatches(BaseSystemKws, "epmx")
  {
    assert Lower("epmx") == "epmx";
    NoneMatches(BaseSystemKws, "epmx", ['k', 'r', 't', 'c', 'h', 'i', 'v', 's', 'u']);
  }

  /** A namespace ending in `-integraciones`, in any case, is `integraciones`. */
  lemma IntegracionesSuffix(ns: string)
    requires |ns| >= 14 && Lower(ns)[|ns| - 14..] == "-integraciones"
    ensures ClassifyNamespace(ns) == "integraciones"
  {
    var i, s := |ns| - 14, Lower(ns);
    IntegracionesLowered();
    assert s[i..i + 14] == s[i..];
    assert MatchesAt(Sub("-integraciones"), s, i);
    IntegracionesWins(ns);
  }

  lemma IntegracionesLowered()
    ensures Lower("-integraciones") == "-integraciones"
  {
  }

  /** Both `-integraciones` and the word `kube` occur; rule order decides. */
  lemma ClassifyKubeIntegraciones()
    ensures ClassifyNamespace("kube-integraciones") == "integraciones"
  {
    var ns := "kube-integraciones";
    assert Lower(ns) == ns;
    assert ns[4..] == "-integraciones";
    IntegracionesSuffix(ns);
  }

  /** Upper case does not matter, and `-` ends the word `kube`. */
  lemma ClassifyKubeSystemUpper()
    ensures ClassifyNamespace("KUBE-SYSTEM") == "base_sistema"
  {
    var u := "KUBE-SYSTEM";
    KubeSystemMatchesNoEarlierRule();
    KubeSystemLowered();
    assert MatchesAt(Word("kube"), Lower(u), 0);
    assert BaseSystemKws[0] == Word("kube");
    assert FirstMatch(CategoryRules, u, 3);
  }

  lemma KubeSystemMatchesNoEarlierRule()
    ensures !AnyMatches(IntegrationsKws, "KUBE-SYSTEM")
    ensures !AnyMatches(SupportAppsKws, "KUBE-SYSTEM")
    ensures !AnyMatches(PlatformKws, "KUBE-SYSTEM")
  {
    KubeSystemLowered();
    NoneMatches(IntegrationsKws, "KUBE-SYSTEM", ['i']);
    NoneMatches(SupportAppsKws, "KUBE-SYSTEM", ['a', 'o', 'p', 'v']);
    KubeSystemMatchesNoPlatform();
  }

  lemma KubeSystemLowered()
    ensures Lower("KUBE-SYSTEM") == "kube-system"
  {
  }

  lemma KubeSystemMatchesNoPlatform()
    ensures !AnyMatches(PlatformKws, "KUBE-SYSTEM")
  {
    KubeSystemLowered();
    KubeSystemNoPlatform("KUBE-SYSTEM");
  }

  lemma KubeSystemNoPlatform(ns: string)
    requires Lower(ns) == "kube-system"
    ensures !AnyMatches(PlatformKws, ns)
  {
    NoneMatches(PlatformKws, ns, ['c', 'r', 'a', 'h', 'f', 'c', 'd', 'c']);
  }
}
