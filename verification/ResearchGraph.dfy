/** The Research QA graph (src/finsage/agents/research_qa/graph.py over
    src/finsage/workflows/nodes.py) as a machine that runs one node at a time. Everything a
    node asks of the outside world is a reply that an adversary chooses. */
module ResearchGraph {
  import opened Options
  import opened Seqs
  import opened OrderedDicts
  import opened StableSort
  import opened Decimals
  import opened Verification

  datatype Node =
    | ParseQuery | Intent | EntityNode | Policy | Route
    | Retrieval | FinancialData | CalculationNode
    | EvidenceSelection | ClaimGeneration | Sentiment | Debate | VerificationNode
    | Answering | Abstaining | Audit | End
    | Crashed

  datatype IntentType =
    | Realtime | ComparisonIntent | Explain | DocumentLookup | ResearchIntent | MultiHop | NumericIntent | FactIntent

  /** Error codes are never empty strings. */
  type Code = s: string | s != "" witness "FIN-6001"

  datatype Answer = Answer(
    claims: seq<Claim>,
    evidences: seq<Evidence>,
    calculations: seq<Calculation>,
    confidence: real)

  datatype State = State(
    intent: Option<IntentType>,
    hasTicker: bool,
    policyStatus: Option<PolicyStatus>,
    evidences: seq<Evidence>,
    calculations: seq<Calculation>,
    claims: seq<Claim>,
    verdict: Option<Verdict>,
    finalAnswer: Option<Answer>,
    confidence: Option<real>,
    errorCode: Option<Code>)

  datatype Config = Config(at: Node, state: State)

  /** What a retrieval or finance call does: hand back a list, raise an error the node turns
      into a code (keeping or emptying the list it writes), run into the node's timeout, or
      raise something no node handles. */
  datatype Reply<+T> =
    | Returned(items: seq<T>)
    | Failed(code: Code)
    | TimedOut
    | Escaped

  datatype Metric = Metric(name: string, period: string, value: real)

  /** The adversary's choice for the node about to run; each node looks at its own part. */
  datatype World = World(
    intent: IntentType,
    hasTicker: bool,
    policy: PolicyStatus,
    retrieval: Reply<Evidence>,
    finance: Reply<Metric>,
    calculations: Reply<Calculation>,
    dataConflict: bool)

  // Evidence selection

  const MAX_EVIDENCE := 10

  function SelectionKey(e: Evidence): string {
    if e.id.Some? then e.id.value else "anon:" + e.ident
  }

  function ByRelevance(e: Evidence): real { -e.relevance }

  /** One evidence for each key, the last one retrieved. */
  function Unique(evidences: seq<Evidence>): Dict<string, Evidence> {
    Index(SelectionKey, evidences)
  }

  function Value(item: (string, Evidence)): Evidence { item.1 }

  /** Everything that competes for selection, best first. */
  function Ranked(evidences: seq<Evidence>): seq<Evidence> {
    SortBy(Map(Value, Unique(evidences)), ByRelevance)
  }

  function Selected(evidences: seq<Evidence>): seq<Evidence> {
    Upto(Ranked(evidences), MAX_EVIDENCE)
  }

  method SelectEvidence(evidences: seq<Evidence>) returns (r: seq<Evidence>)
    ensures r == Selected(evidences)
  {
    var unique: Dict<string, Evidence> := [];
    for i := 0 to |evidences|
      invariant unique == Unique(evidences[..i])
    {
      PrefixStep(evidences, i);
      unique := Put(unique, SelectionKey(evidences[i]), evidences[i]);
    }
    WholePrefix(evidences);
    r := Upto(SortBy(Map(Value, unique), ByRelevance), MAX_EVIDENCE);
  }

  lemma {:induction false} RankedMeaning(evidences: seq<Evidence>)
    ensures Sorted(Ranked(evidences), ByRelevance)
    ensures |Ranked(evidences)| == |Unique(evidences)|
    ensures Distinct(Map(SelectionKey, Ranked(evidences)))
    ensures forall e | e in Ranked(evidences) :: e in evidences
    ensures forall e | e in evidences :: SelectionKey(e) in Map(SelectionKey, Ranked(evidences))
  {
    var u := Unique(evidences);
    var all := Map(Value, u);
    IndexKeys(SelectionKey, evidences);
    IndexItems(SelectionKey, evidences);
    forall i | 0 <= i < |u| ensures SelectionKey(all[i]) == Keys(u)[i] && all[i] in evidences {
      assert OwnItem(SelectionKey, evidences, u[i]);
    }
    assert Map(SelectionKey, all) == Keys(u);
    SortByMultiset(all, ByRelevance);
    SortByIsStable(all, ByRelevance);
    SortByIn(all, ByRelevance);
    KeysDistinct(all, Ranked(evidences), SelectionKey);
    RankedKeys(all, evidences);
  }

  lemma {:induction false} RankedKeys(all: seq<Evidence>, evidences: seq<Evidence>)
    requires forall e | e in evidences :: SelectionKey(e) in Map(SelectionKey, all)
    ensures forall e | e in evidences :: SelectionKey(e) in Map(SelectionKey, SortBy(all, ByRelevance))
  {
    var sorted := SortBy(all, ByRelevance);
    SortByIn(all, ByRelevance);
    forall e | e in evidences ensures SelectionKey(e) in Map(SelectionKey, sorted) {
      var i :| 0 <= i < |all| && Map(SelectionKey, all)[i] == SelectionKey(e);
      assert all[i] in sorted;
      var j :| 0 <= j < |sorted| && sorted[j] == all[i];
      assert Map(SelectionKey, sorted)[j] == SelectionKey(e);
    }
  }

  /** The selection has distinct keys, comes from what was retrieved, is ordered, leaves no
      better competitor behind, and is as long as it may be. */
  lemma {:induction false} SelectionIsBest(evidences: seq<Evidence>)
    ensures var r := Selected(evidences);
            && Distinct(Map(SelectionKey, r))
            && Sorted(r, ByRelevance)
            && (forall e | e in r :: e in evidences)
            && |r| == Min(MAX_EVIDENCE, |Unique(evidences)|)
            && (forall k, c | k in r && c in Ranked(evidences) && c !in r :: k.relevance >= c.relevance)
  {
    var sorted := Ranked(evidences);
    RankedMeaning(evidences);
    KeptBeatCut(sorted, ByRelevance, MAX_EVIDENCE);
    var r := Selected(evidences);
    forall i, j | 0 <= i < j < |r|
      ensures Map(SelectionKey, r)[i] != Map(SelectionKey, r)[j] && ByRelevance(r[i]) <= ByRelevance(r[j])
    {
      assert r[i] == sorted[i] && r[j] == sorted[j];
      assert Map(SelectionKey, sorted)[i] != Map(SelectionKey, sorted)[j];
    }
    forall k, c | k in r && c in sorted && c !in r ensures k.relevance >= c.relevance {
      assert ByRelevance(k) <= ByRelevance(c);
    }
  }

  /** Where an evidence's key was first retrieved. */
  function PlaceIn(evidences: seq<Evidence>): Evidence -> int {
    (e: Evidence) => FirstAt(Map(SelectionKey, evidences), SelectionKey(e))
  }

  lemma {:induction false} UniqueOrder(evidences: seq<Evidence>, i: nat, j: nat)
    requires i < j < |Unique(evidences)|
    ensures PlaceIn(evidences)(Unique(evidences)[i].1) < PlaceIn(evidences)(Unique(evidences)[j].1)
  {
    var u := Unique(evidences);
    IndexOrder(SelectionKey, evidences);
    IndexItems(SelectionKey, evidences);
    assert OwnItem(SelectionKey, evidences, u[i]) && OwnItem(SelectionKey, evidences, u[j]);
    assert FirstAt(Map(SelectionKey, evidences), Keys(u)[i]) < FirstAt(Map(SelectionKey, evidences), Keys(u)[j]);
  }

  /** Equally relevant evidence stands in the order in which it was first retrieved. */
  lemma {:induction false} TiesAreStable(evidences: seq<Evidence>, i: nat, j: nat)
    requires i < j < |Selected(evidences)|
    ensures var r, keys := Selected(evidences), Map(SelectionKey, evidences);
            r[i].relevance > r[j].relevance
            || (r[i].relevance == r[j].relevance
                && FirstAt(keys, SelectionKey(r[i])) < FirstAt(keys, SelectionKey(r[j])))
  {
    var all, rank := Map(Value, Unique(evidences)), PlaceIn(evidences);
    forall a, b | 0 <= a < b < |all| ensures rank(all[a]) < rank(all[b]) {
      UniqueOrder(evidences, a, b);
    }
    SortKeepsOrder(all, ByRelevance, rank);
    assert InOrder(Ranked(evidences), ByRelevance, rank);
    assert Selected(evidences)[i] == Ranked(evidences)[i] && Selected(evidences)[j] == Ranked(evidences)[j];
  }

  /** Calculations cite what was retrieved, but are checked against what was selected: every
      retrieved id survives selection exactly when there are at most ten of them. */
  lemma {:induction false} IdsSurviveUpToTen(evidences: seq<Evidence>)
    requires forall e | e in evidences :: e.id.Some?
    ensures (forall e | e in evidences :: e.id.value in EvidenceIds(Selected(evidences)))
            <==> |Unique(evidences)| <= MAX_EVIDENCE
  {
    var sorted, r := Ranked(evidences), Selected(evidences);
    RankedMeaning(evidences);
    forall i | 0 <= i < |r| ensures EvidenceId(r[i], i) == Map(SelectionKey, sorted)[i] {
      assert r[i] == sorted[i] && sorted[i] in sorted;
    }
    if |sorted| <= MAX_EVIDENCE {
      forall e | e in evidences ensures e.id.value in EvidenceIds(r) {
        assert SelectionKey(e) in Map(SelectionKey, sorted);
        var i :| 0 <= i < |sorted| && Map(SelectionKey, sorted)[i] == SelectionKey(e);
        assert EvidenceId(r[i], i) in EvidenceIds(r);
      }
    } else {
      var cut := sorted[MAX_EVIDENCE];
      assert cut in sorted;
      forall i | 0 <= i < |r| ensures EvidenceId(r[i], i) != cut.id.value {
        assert Map(SelectionKey, sorted)[i] != Map(SelectionKey, sorted)[MAX_EVIDENCE];
      }
      assert cut in evidences && cut.id.value !in EvidenceIds(r);
    }
  }

  // Claims: the generator as a function of its inputs

  function Claims(evidences: seq<Evidence>, calculations: seq<Calculation>): seq<Claim> {
    seq(|evidences|, i requires 0 <= i < |evidences| => EvidenceClaim(evidences[i], i))
    + seq(|calculations|, i requires 0 <= i < |calculations| => CalculationClaim(calculations[i], i, evidences))
  }

  predicate Buildable(claims: seq<Claim>) {
    forall c :: c in claims ==> 0.0 <= c.confidence <= 1.0
  }

  // Confidence

  function Clamp(x: real): (r: real)
    ensures 0.0 <= r <= 1.0
    ensures (0.0 <= x <= 1.0 ==> r == x) && (x < 0.0 ==> r == 0.0) && (x > 1.0 ==> r == 1.0)
  {
    if x < 0.0 then 0.0 else if x > 1.0 then 1.0 else x
  }

  function Bound(c: Claim): real { if c.evidenceIds != [] then 1.0 else 0.0 }

  const QUALITY_WEIGHT := 0.2
  const CONFLICT_CAP := 0.80

  /** The five factors weigh 0.2 each. */
  function Quality(quality: real, authority: real, coverage: real, calculation: real, temporal: real): real {
    QUALITY_WEIGHT * Clamp(quality) + QUALITY_WEIGHT * Clamp(authority) + QUALITY_WEIGHT * Clamp(coverage)
    + QUALITY_WEIGHT * Clamp(calculation) + QUALITY_WEIGHT * Clamp(temporal)
  }

  /** The verdict gates the sum and a conflict caps it. */
  function Gated(sum: real, status: Option<Status>, conflict: bool): real {
    var gated := if status == Some(Fail) then 0.0
                 else if status == Some(Status.Abstain) then sum * 0.30
                 else sum;
    Clamp(if conflict && gated > CONFLICT_CAP then CONFLICT_CAP else gated)
  }

  function Confidence(quality: real, authority: real, coverage: real, calculation: real, temporal: real,
                      status: Option<Status>, conflict: bool): real {
    Gated(Quality(quality, authority, coverage, calculation, temporal), status, conflict)
  }

  lemma ClampGrows(x: real, y: real)
    requires x <= y
    ensures 0.0 <= Clamp(x) <= Clamp(y) <= 1.0
    ensures QUALITY_WEIGHT * Clamp(x) <= QUALITY_WEIGHT * Clamp(y) <= QUALITY_WEIGHT
  {}

  lemma QualityGrows(q: real, a: real, e: real, c: real, t: real, q': real, a': real, e': real, c': real, t': real)
    requires q <= q' && a <= a' && e <= e' && c <= c' && t <= t'
    ensures 0.0 <= Quality(q, a, e, c, t) <= Quality(q', a', e', c', t') <= 1.0
  {
    ClampGrows(q, q');
    ClampGrows(a, a');
    ClampGrows(e, e');
    ClampGrows(c, c');
    ClampGrows(t, t');
  }

  /** A failed check leaves no confidence, an abstaining one at most 0.3, a conflict at most
      0.8; and no factor raises the confidence by falling. */
  lemma ConfidenceMeaning(q: real, a: real, e: real, c: real, t: real, q': real, a': real, e': real, c': real, t': real,
                          status: Option<Status>, conflict: bool)
    requires q <= q' && a <= a' && e <= e' && c <= c' && t <= t'
    ensures 0.0 <= Confidence(q, a, e, c, t, status, conflict)
                <= Confidence(q', a', e', c', t', status, conflict) <= 1.0
    ensures status == Some(Fail) ==> Confidence(q, a, e, c, t, status, conflict) == 0.0
    ensures status == Some(Status.Abstain) ==> Confidence(q, a, e, c, t, status, conflict) <= 0.3
    ensures conflict ==> Confidence(q, a, e, c, t, status, conflict) <= CONFLICT_CAP
  {
    QualityGrows(q, a, e, c, t, q', a', e', c', t');
    GatedGrows(Quality(q, a, e, c, t), Quality(q', a', e', c', t'), status, conflict);
  }

  lemma GatedGrows(x: real, y: real, status: Option<Status>, conflict: bool)
    requires 0.0 <= x <= y <= 1.0
    ensures 0.0 <= Gated(x, status, conflict) <= Gated(y, status, conflict) <= 1.0
    ensures status == Some(Fail) ==> Gated(x, status, conflict) == 0.0
    ensures status == Some(Status.Abstain) ==> Gated(x, status, conflict) <= 0.3
    ensures conflict ==> Gated(x, status, conflict) <= CONFLICT_CAP
  {}

  function AnswerConfidence(s: State, conflict: bool): real {
    if s.evidences == [] && s.calculations == [] then 0.0
    else
      Confidence(
        if s.evidences == [] then 0.0 else Average(Map(RelevanceOf, s.evidences)),
        if s.evidences == [] then 0.0 else Average(Map(AuthorityOf, s.evidences)),
        if s.claims != [] then Average(Map(Bound, s.claims)) else if s.evidences != [] then 1.0 else 0.0,
        if s.calculations != [] then 1.0 else 0.0,
        1.0,
        if s.verdict.Some? then Some(s.verdict.value.status) else Some(Status.Abstain),
        conflict)
  }

  /** What the confidence is: the mean of the five factors; three tenths of it after an
      abstention, nothing after a failure, and capped in a conflict. */
  ghost predicate IsConfidence(r: real, mean: real, status: Option<Status>, conflict: bool) {
    if status == Some(Fail) then r == 0.0
    else if status == Some(Status.Abstain) then r == 0.3 * mean
    else if conflict && mean > 0.8 then r == 0.8
    else r == mean
  }

  lemma ConfidenceIs(q: real, a: real, e: real, c: real, t: real, status: Option<Status>, conflict: bool)
    ensures IsConfidence(Confidence(q, a, e, c, t, status, conflict),
                         (Clamp(q) + Clamp(a) + Clamp(e) + Clamp(c) + Clamp(t)) / 5.0, status, conflict)
  {}

  function MeanOf(xs: seq<real>): real {
    if xs == [] then 0.0 else Sum(xs) / |xs| as real
  }

  /** How many of the claims cite evidence. */
  function Citing(claims: seq<Claim>): nat {
    if claims == [] then 0
    else Citing(claims[..|claims| - 1]) + if claims[|claims| - 1].evidenceIds == [] then 0 else 1
  }

  lemma {:induction false} BoundsCount(claims: seq<Claim>)
    ensures Sum(Map(Bound, claims)) == Citing(claims) as real
    ensures Citing(claims) <= |claims|
  {
    if claims != [] {
      var n := |claims| - 1;
      BoundsCount(claims[..n]);
      assert Map(Bound, claims)[..n] == Map(Bound, claims[..n]);
    }
  }

  lemma {:induction false} MeanIsProbability(xs: seq<real>)
    requires forall i | 0 <= i < |xs| :: Probability(xs[i])
    ensures Probability(MeanOf(xs))
  {
    if xs != [] { AverageBounds(xs); }
  }

  /** The share of claims that cite evidence; without claims, whether there is evidence. */
  function Coverage(s: State): real {
    if s.claims != [] then Citing(s.claims) as real / |s.claims| as real else if s.evidences != [] then 1.0 else 0.0
  }

  lemma ShareIsProbability(k: nat, n: nat)
    requires 0 < n && k <= n
    ensures Probability(k as real / n as real)
  {
    var x := k as real / n as real;
    assert x * n as real == k as real;
    NonNegativeFactor(x, n as real);
    assert (1.0 - x) * n as real >= 0.0;
    NonNegativeFactor(1.0 - x, n as real);
  }

  lemma {:induction false} CoverageIs(s: State)
    requires s.claims != []
    ensures Average(Map(Bound, s.claims)) == Coverage(s) && Probability(Coverage(s))
  {
    BoundsCount(s.claims);
    ShareIsProbability(Citing(s.claims), |s.claims|);
  }

  /** The mean of the five factors of an answer. */
  function FactorMean(s: State): real {
    (MeanOf(Map(RelevanceOf, s.evidences)) + MeanOf(Map(AuthorityOf, s.evidences)) + Coverage(s)
     + (if s.calculations != [] then 1.0 else 0.0) + 1.0) / 5.0
  }

  ghost predicate HasScores(evidences: seq<Evidence>) {
    forall i | 0 <= i < |evidences| :: Probability(evidences[i].relevance) && Probability(evidences[i].authority)
  }

  /** The confidence of an answer whose evidence has scores in [0, 1]: from mean relevance, mean
      authority, coverage, whether anything was calculated, and 1 for the period, in fifths. */
  lemma {:induction false} AnswerConfidenceIs(s: State, conflict: bool)
    requires s.evidences != [] || s.calculations != []
    requires HasScores(s.evidences)
    ensures IsConfidence(AnswerConfidence(s, conflict), FactorMean(s),
                         if s.verdict.Some? then Some(s.verdict.value.status) else Some(Status.Abstain), conflict)
  {
    var relevances, authorities := Map(RelevanceOf, s.evidences), Map(AuthorityOf, s.evidences);
    MeanIsProbability(relevances);
    MeanIsProbability(authorities);
    if s.claims != [] { CoverageIs(s); }
    ConfidenceIs(MeanOf(relevances), MeanOf(authorities), Coverage(s), if s.calculations != [] then 1.0 else 0.0, 1.0,
                 if s.verdict.Some? then Some(s.verdict.value.status) else Some(Status.Abstain), conflict);
  }

  /** Without anything to show there is no confidence. */
  lemma NothingShownNoConfidence(s: State, conflict: bool)
    requires s.evidences == [] && s.calculations == []
    ensures AnswerConfidence(s, conflict) == 0.0
  {}

  // Nodes: the state after one node has run, or None when an exception escapes it

  function RunPolicy(s: State, verdict: PolicyStatus): State {
    var s' := s.(policyStatus := Some(verdict));
    if verdict == Block then s'.(errorCode := Some("FIN-4001")) else s'
  }

  function RunRetrieval(s: State, reply: Reply<Evidence>): Option<State> {
    match reply
    case Returned(items) => Some(s.(evidences := items))
    case Failed(code) => Some(s.(evidences := [], errorCode := Some(code)))
    case TimedOut => Some(s.(errorCode := Some("FIN-5002")))
    case Escaped => None
  }

  function RunFinancialData(s: State, reply: Reply<Metric>): Option<State> {
    match reply
    case Returned(_) => Some(s)
    case Failed(code) => Some(s.(errorCode := Some(code)))
    case TimedOut => Some(s.(errorCode := Some("FIN-5002")))
    case Escaped => None
  }

  function RunCalculation(s: State, reply: Reply<Calculation>): Option<State> {
    match reply
    case Returned(items) => Some(s.(calculations := items))
    case Failed(_) => Some(s.(calculations := [], errorCode := Some("FIN-3101")))
    case TimedOut => None
    case Escaped => None
  }

  function RunClaimGeneration(s: State): Option<State> {
    var claims := Claims(s.evidences, s.calculations);
    if Buildable(claims) then Some(s.(claims := claims)) else None
  }

  ghost function RunVerification(s: State, conflict: bool): State {
    var v := Check(s.claims, s.evidences, s.calculations, s.policyStatus, NOTHING_EXPECTED, conflict);
    var s' := s.(verdict := Some(v));
    if v.status == Fail then s'.(errorCode := Some("FIN-4101")) else s'
  }

  function RunAbstention(s: State): State {
    s.(finalAnswer := Some(Answer(s.claims, s.evidences, s.calculations, 0.0)), confidence := Some(0.0))
  }

  function RunAnswer(s: State, conflict: bool): State {
    var c := AnswerConfidence(s, conflict);
    s.(finalAnswer := Some(Answer(s.claims, s.evidences, s.calculations, c)), confidence := Some(c))
  }

  // Edges

  function ChooseRoute(s: State): Node {
    if s.policyStatus == Some(Block) || s.errorCode.Some? then Abstaining
    else match s.intent
         case Some(NumericIntent) => if s.hasTicker then FinancialData else Retrieval
         case Some(Realtime) => if s.hasTicker then FinancialData else Retrieval
         case _ => Retrieval
  }

  function AfterVerification(s: State): Node {
    if s.errorCode.Some? then Abstaining
    else if s.verdict.Some? && s.verdict.value.status == Pass then Answering
    else Abstaining
  }

  function Goto(node: Node, s: Option<State>, before: State): Config {
    if s.Some? then Config(node, s.value) else Config(Crashed, before)
  }

  /** One node. */
  ghost function Step(c: Config, w: World): Config {
    var s := c.state;
    match c.at
    case ParseQuery => Config(Intent, s)
    case Intent => Config(EntityNode, s.(intent := Some(w.intent)))
    case EntityNode => Config(Policy, s.(hasTicker := s.hasTicker || w.hasTicker))
    case Policy => Config(Route, RunPolicy(s, w.policy))
    case Route => Config(ChooseRoute(s), s)
    case Retrieval => Goto(FinancialData, RunRetrieval(s, w.retrieval), s)
    case FinancialData => Goto(CalculationNode, RunFinancialData(s, w.finance), s)
    case CalculationNode => Goto(EvidenceSelection, RunCalculation(s, w.calculations), s)
    case EvidenceSelection => Config(ClaimGeneration, s.(evidences := Selected(s.evidences)))
    case ClaimGeneration => Goto(Sentiment, RunClaimGeneration(s), s)
    case Sentiment => Config(Debate, s)
    case Debate => Config(VerificationNode, s)
    case VerificationNode =>
      var s' := RunVerification(s, w.dataConflict);
      Config(AfterVerification(s'), s')
    case Answering => Config(Audit, RunAnswer(s, w.dataConflict))
    case Abstaining => Config(Audit, RunAbstention(s))
    case Audit => Config(End, s)
    case End => c
    case Crashed => c
  }

  ghost function Exec(c: Config, ws: seq<World>): Config {
    if ws == [] then c else Step(Exec(c, ws[..|ws| - 1]), ws[|ws| - 1])
  }

  // Runs

  ghost predicate Started(c: Config) {
    c.at == ParseQuery && c.state.finalAnswer.None?
  }

  /** The nodes that have run. */
  ghost function Passed(c: Config, ws: seq<World>): seq<Node> {
    if ws == [] then [] else Passed(c, ws[..|ws| - 1]) + [Exec(c, ws[..|ws| - 1]).at]
  }

  ghost function Finals(nodes: seq<Node>): nat {
    if nodes == [] then 0
    else Finals(nodes[..|nodes| - 1]) + if nodes[|nodes| - 1] in {Answering, Abstaining} then 1 else 0
  }

  lemma StepKeepsError(c: Config, w: World)
    ensures c.state.errorCode.Some? ==> Step(c, w).state.errorCode.Some?
  {}

  /** An error code, once set, is never cleared. */
  lemma {:induction false} ErrorsStick(c: Config, ws: seq<World>, i: nat)
    requires i <= |ws|
    ensures Exec(c, ws[..i]).state.errorCode.Some? ==> Exec(c, ws).state.errorCode.Some?
  {
    if i < |ws| {
      var n := |ws| - 1;
      assert ws[..n][..i] == ws[..i];
      ErrorsStick(c, ws[..n], i);
      StepKeepsError(Exec(c, ws[..n]), ws[n]);
    } else {
      WholePrefix(ws);
    }
  }

  function Rank(n: Node): nat {
    match n
    case ParseQuery => 16 case Intent => 15 case EntityNode => 14 case Policy => 13 case Route => 12
    case Retrieval => 11 case FinancialData => 10 case CalculationNode => 9 case EvidenceSelection => 8
    case ClaimGeneration => 7 case Sentiment => 6 case Debate => 5 case VerificationNode => 4
    case Answering => 3 case Abstaining => 3 case Audit => 2 case End => 0 case Crashed => 0
  }

  lemma StepRank(c: Config, w: World)
    ensures Rank(Step(c, w).at) <= Max(0, Rank(c.at) - 1)
  {}

  /** Every run is over after 16 nodes. */
  lemma {:induction false} RunsEnd(c: Config, ws: seq<World>)
    requires c.at == ParseQuery
    ensures Rank(Exec(c, ws).at) <= Max(0, 16 - |ws|)
    ensures |ws| >= 16 ==> Exec(c, ws).at in {End, Crashed}
  {
    if ws != [] {
      RunsEnd(c, ws[..|ws| - 1]);
      StepRank(Exec(c, ws[..|ws| - 1]), ws[|ws| - 1]);
    }
  }

  /** What an answer is allowed to be. */
  ghost predicate GroundedAnswer(a: Answer) {
    && (a.evidences != [] || a.calculations != [])
    && (forall claim | claim in a.claims :: Grounded(claim, EvidenceIds(a.evidences), CalculationIds(a.calculations)))
    && IsClaims(a.claims, a.evidences, a.calculations)
    && QUALITY_WEIGHT <= a.confidence <= 1.0
  }

  ghost predicate Answerable(s: State) {
    && s.errorCode.None? && s.policyStatus.Some? && s.policyStatus != Some(Block)
    && s.verdict.Some? && s.verdict.value.status == Pass
    && (s.evidences != [] || s.calculations != [])
    && (forall claim | claim in s.claims :: Grounded(claim, EvidenceIds(s.evidences), CalculationIds(s.calculations)))
  }

  /** Before the end: a block is an error, claims are the generator's, and the answer node is
      entered only with something answerable. */
  ghost predicate OnTheWay(c: Config) {
    var s := c.state;
    && (Rank(c.at) <= 12 && c.at != Crashed ==>
          s.policyStatus.Some? && (s.policyStatus == Some(Block) ==> s.errorCode.Some?))
    && (c.at in {Sentiment, Debate, VerificationNode, Answering} ==> IsClaims(s.claims, s.evidences, s.calculations))
    && (c.at == Answering ==> Answerable(s))
  }

  ghost predicate AtTheEnd(c: Config) {
    var s := c.state;
    && (c.at in {Audit, End} <==> s.finalAnswer.Some?)
    && (s.finalAnswer.Some? ==>
          && s.confidence == Some(s.finalAnswer.value.confidence)
          && s.finalAnswer.value.claims == s.claims && s.finalAnswer.value.evidences == s.evidences
          && s.finalAnswer.value.calculations == s.calculations
          && (s.finalAnswer.value.confidence == 0.0 || (Answerable(s) && GroundedAnswer(s.finalAnswer.value))))
  }

  ghost predicate Invariant(c: Config) { OnTheWay(c) && AtTheEnd(c) }

  lemma {:induction false} ClaimsAreClaims(evidences: seq<Evidence>, calculations: seq<Calculation>)
    ensures IsClaims(Claims(evidences, calculations), evidences, calculations)
  {}

  lemma AnswerConfidenceBounds(s: State, conflict: bool)
    requires Answerable(s)
    ensures QUALITY_WEIGHT <= AnswerConfidence(s, conflict) <= 1.0
  {}

  lemma VerifiedIsAnswerable(s: State, conflict: bool)
    requires s.policyStatus.Some? && (s.policyStatus == Some(Block) ==> s.errorCode.Some?)
    requires IsClaims(s.claims, s.evidences, s.calculations)
    ensures AfterVerification(RunVerification(s, conflict)) == Answering ==> Answerable(RunVerification(s, conflict))
  {
    VerdictMeaning(s.claims, s.evidences, s.calculations, s.policyStatus, NOTHING_EXPECTED, conflict);
  }

  lemma VerificationOnTheWay(c: Config, w: World)
    requires OnTheWay(c) && c.at == VerificationNode
    ensures OnTheWay(Step(c, w))
  {
    VerifiedIsAnswerable(c.state, w.dataConflict);
  }

  lemma OtherOnTheWay(c: Config, w: World)
    requires OnTheWay(c) && c.at != VerificationNode
    ensures OnTheWay(Step(c, w))
  {
    if c.at == ClaimGeneration { ClaimsAreClaims(c.state.evidences, c.state.calculations); }
  }

  lemma StepOnTheWay(c: Config, w: World)
    requires OnTheWay(c)
    ensures OnTheWay(Step(c, w))
  {
    if c.at == VerificationNode {
      VerificationOnTheWay(c, w);
    } else {
      OtherOnTheWay(c, w);
    }
  }

  lemma AnswerIsGrounded(s: State, conflict: bool)
    requires Answerable(s) && IsClaims(s.claims, s.evidences, s.calculations)
    ensures Answerable(RunAnswer(s, conflict))
    ensures GroundedAnswer(RunAnswer(s, conflict).finalAnswer.value)
  {
    AnswerConfidenceBounds(s, conflict);
  }

  lemma StepAtTheEnd(c: Config, w: World)
    requires OnTheWay(c) && AtTheEnd(c)
    ensures AtTheEnd(Step(c, w))
  {
    if c.at == Answering {
      AnswerIsGrounded(c.state, w.dataConflict);
    } else if c.at in {Audit, End} {
      assert Step(c, w).state == c.state;
    } else {
      assert c.at != Abstaining ==> Step(c, w).state.finalAnswer == c.state.finalAnswer;
    }
  }

  lemma {:induction false} RunInvariant(c: Config, ws: seq<World>)
    requires Started(c)
    ensures Invariant(Exec(c, ws))
  {
    if ws != [] {
      var init := ws[..|ws| - 1];
      RunInvariant(c, init);
      StepOnTheWay(Exec(c, init), ws[|ws| - 1]);
      StepAtTheEnd(Exec(c, init), ws[|ws| - 1]);
    }
  }

  /** What the check leaves, and what an answer is written with. */
  lemma {:induction false} FinalNodes(c: Config, w: World)
    requires Invariant(c)
    ensures c.at == VerificationNode ==>
              var v := Check(c.state.claims, c.state.evidences, c.state.calculations, c.state.policyStatus,
                             NOTHING_EXPECTED, w.dataConflict);
              && Step(c, w).state.verdict == Some(v)
              && Step(c, w).state.errorCode == if v.status == Fail then Some("FIN-4101") else c.state.errorCode
    ensures c.at == Answering && HasScores(c.state.evidences) ==>
              Step(c, w).state.confidence.Some?
              && IsConfidence(Step(c, w).state.confidence.value, FactorMean(c.state), Some(Pass), w.dataConflict)
  {
    if c.at == Answering && HasScores(c.state.evidences) {
      AnswerConfidenceIs(c.state, w.dataConflict);
    }
  }

  /** One step adds one to the final nodes passed exactly when it enters the audit. */
  lemma StepFinals(c: Config, w: World)
    requires Invariant(c)
    ensures c.at in {Answering, Abstaining} ==> Step(c, w).at == Audit
    ensures Step(c, w).at in {Audit, End} ==> c.at in {Answering, Abstaining, Audit, End}
    ensures c.at in {Audit, End} ==> Step(c, w).at == End && Step(c, w).state == c.state
    ensures c.at == Answering ==> Step(c, w).state.confidence.Some? && Step(c, w).state.confidence.value > 0.0
    ensures c.at == Abstaining ==> Step(c, w).state.confidence == Some(0.0)
  {
    if c.at == Answering { AnswerConfidenceBounds(c.state, w.dataConflict); }
  }

  /** The final nodes passed: one, once the audit is reached, and the confidence says which. */
  lemma {:induction false} PassedOneFinal(c: Config, ws: seq<World>)
    requires Started(c)
    ensures var nodes, d := Passed(c, ws), Exec(c, ws);
            && Finals(nodes) == (if d.at in {Audit, End} then 1 else 0)
            && (d.at in {Audit, End} ==>
                  d.state.confidence.Some? && (Answering in nodes <==> d.state.confidence.value > 0.0))
            && (Answering in nodes ==> d.at in {Audit, End})
  {
    if ws != [] {
      var init := ws[..|ws| - 1];
      RunInvariant(c, init);
      PassedOneFinal(c, init);
      StepFinals(Exec(c, init), ws[|ws| - 1]);
      var nodes, before := Passed(c, ws), Passed(c, init);
      assert nodes == before + [Exec(c, init).at];
      assert nodes[..|nodes| - 1] == before;
    }
  }

  /** Whatever the dependencies return: a finished run has written one final answer, in the
      answer node or the abstention node, never both. If its confidence is 0 it is an
      abstention; otherwise policy did not block, no error was set, the checker passed, and
      every claim's citations resolve in that answer's own lists. */
  lemma AnswersAreGrounded(c: Config, ws: seq<World>)
    requires Started(c) && Exec(c, ws).at == End
    ensures Finals(Passed(c, ws)) == 1
    ensures Exec(c, ws).state.finalAnswer.Some?
    ensures var s := Exec(c, ws).state;
            var a := s.finalAnswer.value;
            && a.claims == s.claims && a.evidences == s.evidences && a.calculations == s.calculations
            && s.confidence == Some(a.confidence)
    ensures var s := Exec(c, ws).state;
            if Answering in Passed(c, ws)
            then s.policyStatus != Some(Block) && s.errorCode.None? && s.verdict.Some? && s.verdict.value.status == Pass
                 && GroundedAnswer(s.finalAnswer.value)
            else s.finalAnswer.value.confidence == 0.0
  {
    RunInvariant(c, ws);
    PassedOneFinal(c, ws);
  }

  // Which nodes a run passes

  ghost predicate FinanceOnly(s: State) {
    s.intent in {Some(NumericIntent), Some(Realtime)} && s.hasTicker
  }

  /** The nodes between routing and the final answer, which a blocked run never sees. */
  predicate Working(n: Node) { 4 <= Rank(n) <= 11 }

  /** Up to the route nothing has happened; a blocked query gets no further. */
  ghost predicate EarlyPath(c: Config, nodes: seq<Node>) {
    var s := c.state;
    && (Rank(c.at) >= 12 ==> forall n | n in nodes :: Rank(n) > 12)
    && (Rank(c.at) > 12 ==> s.errorCode.None?)
    && (c.at == Route ==> (s.errorCode.Some? <==> s.policyStatus == Some(Block)))
    && (Working(c.at) ==> s.policyStatus != Some(Block))
    && (c.at in {Answering, Abstaining, Audit, End} && s.policyStatus == Some(Block) ==>
          forall n | n in nodes :: !Working(n))
  }

  ghost predicate LatePath(c: Config, nodes: seq<Node>) {
    var s := c.state;
    && (c.at == Retrieval ==> !FinanceOnly(s) && Retrieval !in nodes)
    && (4 <= Rank(c.at) <= 10 ==> (Retrieval in nodes <==> !FinanceOnly(s)))
    && (4 <= Rank(c.at) <= 9 ==> FinancialData in nodes)
    && (c.at in {Answering, Abstaining, Audit, End} && s.policyStatus != Some(Block) ==>
          FinancialData in nodes && VerificationNode in nodes && (Retrieval in nodes <==> !FinanceOnly(s)))
  }

  lemma InOneMore(nodes: seq<Node>, node: Node)
    ensures forall n :: n in nodes + [node] <==> n in nodes || n == node
  {}

  /** The nodes that can follow a node. */
  function NodesAfter(n: Node): set<Node> {
    match n
    case ParseQuery => {Intent}
    case Intent => {EntityNode}
    case EntityNode => {Policy}
    case Policy => {Route}
    case Route => {Retrieval, FinancialData, Abstaining}
    case Retrieval => {FinancialData, Crashed}
    case FinancialData => {CalculationNode, Crashed}
    case CalculationNode => {EvidenceSelection, Crashed}
    case EvidenceSelection => {ClaimGeneration}
    case ClaimGeneration => {Sentiment, Crashed}
    case Sentiment => {Debate}
    case Debate => {VerificationNode}
    case VerificationNode => {Answering, Abstaining}
    case Answering => {Audit}
    case Abstaining => {Audit}
    case Audit => {End}
    case other => {other}
  }

  /** From retrieval on no node decides policy, intent or ticker any more. */
  ghost predicate GoesOn(c: Config, c': Config) {
    && c'.at in NodesAfter(c.at)
    && c'.state.policyStatus == c.state.policyStatus
    && c'.state.intent == c.state.intent && c'.state.hasTicker == c.state.hasTicker
  }

  lemma VerificationGoesOn(c: Config, w: World)
    requires c.at == VerificationNode
    ensures GoesOn(c, Step(c, w))
  {}

  lemma FinalGoesOn(c: Config, w: World)
    requires Rank(c.at) <= 3
    ensures GoesOn(c, Step(c, w))
  {}

  lemma WorkGoesOn(c: Config, w: World)
    requires Working(c.at) && c.at != VerificationNode
    ensures GoesOn(c, Step(c, w))
  {}

  lemma LaterGoesOn(c: Config, w: World)
    requires Rank(c.at) <= 11
    ensures GoesOn(c, Step(c, w))
  {
    if c.at == VerificationNode {
      VerificationGoesOn(c, w);
    } else if Rank(c.at) <= 3 {
      FinalGoesOn(c, w);
    } else {
      WorkGoesOn(c, w);
    }
  }

  lemma PathGoesOn(c: Config, c': Config, nodes: seq<Node>)
    requires EarlyPath(c, nodes) && LatePath(c, nodes) && GoesOn(c, c') && Rank(c.at) <= 11
    ensures EarlyPath(c', nodes + [c.at]) && LatePath(c', nodes + [c.at])
  {
    InOneMore(nodes, c.at);
  }

  lemma PathStarts(c: Config, nodes: seq<Node>, w: World)
    requires EarlyPath(c, nodes) && LatePath(c, nodes) && Rank(c.at) >= 12
    ensures EarlyPath(Step(c, w), nodes + [c.at]) && LatePath(Step(c, w), nodes + [c.at])
  {
    InOneMore(nodes, c.at);
  }

  lemma PathStep(c: Config, nodes: seq<Node>, w: World)
    requires EarlyPath(c, nodes) && LatePath(c, nodes)
    ensures EarlyPath(Step(c, w), nodes + [c.at]) && LatePath(Step(c, w), nodes + [c.at])
  {
    if Rank(c.at) >= 12 {
      PathStarts(c, nodes, w);
    } else {
      LaterGoesOn(c, w);
      PathGoesOn(c, Step(c, w), nodes);
    }
  }

  lemma {:induction false} PathRun(c: Config, ws: seq<World>)
    requires Started(c) && c.state.errorCode.None?
    ensures EarlyPath(Exec(c, ws), Passed(c, ws)) && LatePath(Exec(c, ws), Passed(c, ws))
  {
    if ws != [] {
      var init := ws[..|ws| - 1];
      PathRun(c, init);
      PathStep(Exec(c, init), Passed(c, init), ws[|ws| - 1]);
    }
  }

  /** A blocked query reaches no provider, no claim and no check. Any other finished run asks
      for financial data and is verified, and it retrieves unless a numeric or realtime
      question named a ticker. */
  lemma RoutesTaken(c: Config, ws: seq<World>)
    requires Started(c) && c.state.errorCode.None? && Exec(c, ws).at == End
    ensures var s, nodes := Exec(c, ws).state, Passed(c, ws);
            if s.policyStatus == Some(Block) then forall n | n in nodes :: !Working(n)
            else FinancialData in nodes && VerificationNode in nodes && (Retrieval in nodes <==> !FinanceOnly(s))
  {
    PathRun(c, ws);
  }

  /** Every step of a run follows an edge of the graph, or ends it in a crash. */
  lemma {:induction false} RunsFollowEdges(c: Config, ws: seq<World>, i: nat)
    requires Started(c) && i < |ws|
    ensures Exec(c, ws[..i + 1]).at in NodesAfter(Exec(c, ws[..i]).at)
  {
    PrefixStep(ws, i);
    if Rank(Exec(c, ws[..i]).at) <= 11 {
      LaterGoesOn(Exec(c, ws[..i]), ws[i]);
    } else {
      EarlyEdges(Exec(c, ws[..i]), ws[i]);
    }
  }

  lemma EarlyEdges(c: Config, w: World)
    requires Rank(c.at) >= 12
    ensures Step(c, w).at in NodesAfter(c.at)
  {}

  // One failure is enough

  /** The dependency the node asks did not return. */
  ghost predicate FailsAt(n: Node, w: World) {
    || (n == Policy && w.policy == Block)
    || (n == Retrieval && !w.retrieval.Returned?)
    || (n == FinancialData && !w.finance.Returned?)
    || (n == CalculationNode && !w.calculations.Returned?)
  }

  lemma {:induction false} CrashesStay(c: Config, ws: seq<World>, i: nat)
    requires i <= |ws| && Exec(c, ws[..i]).at == Crashed
    ensures Exec(c, ws).at == Crashed
  {
    if i < |ws| {
      assert ws[..|ws| - 1][..i] == ws[..i];
      CrashesStay(c, ws[..|ws| - 1], i);
    } else {
      WholePrefix(ws);
    }
  }

  /** A failure that no node handles. */
  ghost predicate Breaks(n: Node, w: World) {
    || (n == Retrieval && w.retrieval.Escaped?)
    || (n == FinancialData && w.finance.Escaped?)
    || (n == CalculationNode && (w.calculations.Escaped? || w.calculations.TimedOut?))
  }

  /** The code that any other failure leaves. */
  ghost function CodeOf(n: Node, w: World): Code
    requires FailsAt(n, w)
  {
    if n == Retrieval then (if w.retrieval.Failed? then w.retrieval.code else "FIN-5002")
    else if n == FinancialData then (if w.finance.Failed? then w.finance.code else "FIN-5002")
    else if n == CalculationNode then "FIN-3101"
    else "FIN-4001"
  }

  lemma FailureShows(c: Config, w: World)
    requires FailsAt(c.at, w)
    ensures if Breaks(c.at, w) then Step(c, w).at == Crashed
            else Step(c, w).at != Crashed && Step(c, w).state.errorCode == Some(CodeOf(c.at, w))
  {}

  /** With an error set or crashed, nothing was answered. */
  lemma FailedHasNotAnswered(c: Config, ws: seq<World>)
    requires Started(c) && (Exec(c, ws).at == Crashed || Exec(c, ws).state.errorCode.Some?)
    ensures Answering !in Passed(c, ws)
  {
    RunInvariant(c, ws);
    PassedOneFinal(c, ws);
  }

  /** A run in which anything failed does not answer, whatever came after. */
  lemma {:induction false} FailuresNeverAnswer(c: Config, ws: seq<World>, i: nat)
    requires Started(c) && i < |ws| && FailsAt(Exec(c, ws[..i]).at, ws[i])
    ensures Answering !in Passed(c, ws)
  {
    PrefixStep(ws, i);
    var after := Exec(c, ws[..i + 1]);
    assert after == Step(Exec(c, ws[..i]), ws[i]);
    FailureShows(Exec(c, ws[..i]), ws[i]);
    if after.at == Crashed {
      CrashesStay(c, ws, i + 1);
    } else {
      ErrorsStick(c, ws, i + 1);
    }
    FailedHasNotAnswered(c, ws);
  }

  // When exactly a run without failures answers

  ghost predicate Clean(w: World) {
    && w.policy != Block && w.retrieval.Returned? && w.finance.Returned? && w.calculations.Returned? && !w.dataConflict
  }

  ghost predicate CleanInvariant(c: Config) {
    var s := c.state;
    && (Rank(c.at) > 3 ==> s.errorCode.None?)
    && (c.at in {Answering, Abstaining, Audit, End} ==>
          && s.policyStatus != Some(Block)
          && IsClaims(s.claims, s.evidences, s.calculations)
          && s.verdict == Some(Check(s.claims, s.evidences, s.calculations, s.policyStatus, NOTHING_EXPECTED, false)))
    && (c.at == Answering ==> s.verdict.value.status == Pass)
    && (c.at == Abstaining ==> s.verdict.value.status != Pass)
    && (c.at in {Audit, End} && s.finalAnswer.Some? ==>
          (s.finalAnswer.value.confidence > 0.0 <==> s.verdict.value.status == Pass))
  }

  lemma CleanStep(c: Config, w: World)
    requires Invariant(c) && CleanInvariant(c) && Clean(w)
    ensures CleanInvariant(Step(c, w))
  {
    match c.at
    case Answering => AnswerConfidenceBounds(c.state, w.dataConflict);
    case _ =>
  }

  lemma {:induction false} CleanRun(c: Config, ws: seq<World>)
    requires Started(c) && c.state.errorCode.None? && forall w | w in ws :: Clean(w)
    ensures CleanInvariant(Exec(c, ws))
  {
    if ws != [] {
      var init := ws[..|ws| - 1];
      CleanRun(c, init);
      RunInvariant(c, init);
      CleanStep(Exec(c, init), ws[|ws| - 1]);
    }
  }

  /** What the dependencies reply in a run without failures: the intent and whether a ticker was
      found, the evidence retrieved and the results calculated. */
  datatype Replies = Replies(
    intent: IntentType,
    hasTicker: bool,
    retrieved: seq<Evidence>,
    calculated: seq<Calculation>)

  ghost predicate Replied(w: World, r: Replies) {
    && Clean(w) && w.intent == r.intent && w.hasTicker == r.hasTicker
    && w.retrieval == Returned(r.retrieved) && w.calculations == Returned(r.calculated)
  }

  /** The evidence a run works with: what was retrieved, or what it was started with if the
      question is one for the finance providers alone. */
  function Gathered(s: State, r: Replies): seq<Evidence> {
    if r.intent in {NumericIntent, Realtime} && (s.hasTicker || r.hasTicker) then s.evidences else r.retrieved
  }

  /** How a run started in s has carried the replies along. */
  ghost predicate Carried(c: Config, s: State, r: Replies) {
    var d, n := c.state, Rank(c.at);
    && (n <= 14 && c.at != Crashed ==> d.intent == Some(r.intent))
    && (n <= 13 && c.at != Crashed ==> d.hasTicker == (s.hasTicker || r.hasTicker))
    && (n > 13 ==> d.hasTicker == s.hasTicker)
    && (n >= 12 ==> d.evidences == s.evidences)
    && (n == 11 ==> Gathered(s, r) == r.retrieved)
    && (8 <= n <= 10 ==> d.evidences == Gathered(s, r))
    && (n <= 8 ==> d.calculations == r.calculated)
    && (n <= 7 ==> d.evidences == Selected(Gathered(s, r)))
    && (c.at == Crashed ==> !Buildable(Claims(d.evidences, d.calculations)))
    && (n <= 6 && c.at != Crashed ==> Buildable(Claims(d.evidences, d.calculations)))
  }

  lemma CarriedEarly(c: Config, w: World, s: State, r: Replies)
    requires Invariant(c) && CleanInvariant(c) && Carried(c, s, r) && Replied(w, r)
    requires Rank(c.at) >= 9
    ensures Carried(Step(c, w), s, r)
  {}

  lemma CarriedSelection(c: Config, w: World, s: State, r: Replies)
    requires CleanInvariant(c) && Carried(c, s, r) && Replied(w, r) && c.at == EvidenceSelection
    ensures Carried(Step(c, w), s, r)
  {}

  /** From the claims on, what was gathered stays as it is. */
  ghost predicate Keeps(c: Config, c': Config) {
    && c'.state.intent == c.state.intent && c'.state.hasTicker == c.state.hasTicker
    && c'.state.evidences == c.state.evidences && c'.state.calculations == c.state.calculations
  }

  lemma ClaimsKeep(c: Config, w: World)
    requires c.at == ClaimGeneration
    ensures var c' := Step(c, w);
            && Keeps(c, c') && c'.at in {Sentiment, Crashed}
            && (c'.at == Sentiment <==> Buildable(Claims(c.state.evidences, c.state.calculations)))
  {}

  lemma VerificationKeeps(c: Config, w: World)
    requires c.at == VerificationNode
    ensures Keeps(c, Step(c, w)) && Rank(Step(c, w).at) <= 5 && Step(c, w).at != Crashed
  {}

  lemma TailKeeps(c: Config, w: World)
    requires Rank(c.at) <= 6 && c.at != VerificationNode
    ensures Keeps(c, Step(c, w)) && Rank(Step(c, w).at) <= 5 && (Step(c, w).at == Crashed <==> c.at == Crashed)
  {}

  lemma CarriedOn(c: Config, c': Config, s: State, r: Replies)
    requires Carried(c, s, r) && Keeps(c, c') && Rank(c.at) <= 7 && c.at != Crashed && Rank(c'.at) <= 6
    requires c'.at != Crashed <==> Buildable(Claims(c.state.evidences, c.state.calculations))
    ensures Carried(c', s, r)
  {}

  lemma CarriedClaims(c: Config, w: World, s: State, r: Replies)
    requires Carried(c, s, r) && c.at == ClaimGeneration
    ensures Carried(Step(c, w), s, r)
  {
    ClaimsKeep(c, w);
    CarriedOn(c, Step(c, w), s, r);
  }

  lemma CarriedTail(c: Config, w: World, s: State, r: Replies)
    requires Carried(c, s, r) && Rank(c.at) <= 6 && c.at != Crashed
    ensures Carried(Step(c, w), s, r)
  {
    if c.at == VerificationNode {
      VerificationKeeps(c, w);
    } else {
      TailKeeps(c, w);
    }
    CarriedOn(c, Step(c, w), s, r);
  }

  lemma CarriedStep(c: Config, w: World, s: State, r: Replies)
    requires Invariant(c) && CleanInvariant(c) && Carried(c, s, r) && Replied(w, r)
    ensures Carried(Step(c, w), s, r)
  {
    if Rank(c.at) >= 9 {
      CarriedEarly(c, w, s, r);
    } else if c.at == EvidenceSelection {
      CarriedSelection(c, w, s, r);
    } else if c.at == ClaimGeneration {
      CarriedClaims(c, w, s, r);
    } else if c.at != Crashed {
      CarriedTail(c, w, s, r);
    }
  }

  lemma {:induction false} CarriedRun(c: Config, ws: seq<World>, r: Replies)
    requires Started(c) && c.state.errorCode.None? && forall w | w in ws :: Replied(w, r)
    ensures Carried(Exec(c, ws), c.state, r)
  {
    if ws != [] {
      var init := ws[..|ws| - 1];
      CarriedRun(c, init, r);
      RunInvariant(c, init);
      CleanRun(c, init);
      CarriedStep(Exec(c, init), ws[|ws| - 1], c.state, r);
    }
  }

  /** Evidence and calculations from which an answer can be made: every claim can be built,
      there is something to show, and every calculation's sources and id resolve in what
      survives selection. */
  ghost predicate Sufficient(evidences: seq<Evidence>, calculations: seq<Calculation>) {
    && Buildable(Claims(Selected(evidences), calculations))
    && (evidences != [] || calculations != [])
    && SourcesResolve(Selected(evidences), calculations)
    && ReferencesResolve(calculations)
  }

  lemma {:induction false} SelectedFromSome(evidences: seq<Evidence>)
    ensures Selected(evidences) == [] <==> evidences == []
  {
    RankedMeaning(evidences);
    if evidences != [] {
      assert SelectionKey(evidences[0]) in Map(SelectionKey, Ranked(evidences));
    } else {
      assert forall e | e in Ranked(evidences) :: e in evidences;
    }
  }

  /** A run of sixteen nodes or more in which nothing fails: it ends exactly when every claim
      can be built, with the selection from what was gathered and the calculations replied; and
      it answers exactly when these suffice. */
  lemma {:induction false} CleanRunsAnswerExactlyWhen(c: Config, ws: seq<World>, r: Replies)
    requires Started(c) && c.state.errorCode.None? && (forall w | w in ws :: Replied(w, r)) && |ws| >= 16
    ensures var evidences, d := Gathered(c.state, r), Exec(c, ws);
            && d.at == (if Buildable(Claims(Selected(evidences), r.calculated)) then End else Crashed)
            && d.state.evidences == Selected(evidences) && d.state.calculations == r.calculated
            && (Answering in Passed(c, ws) <==> Sufficient(evidences, r.calculated))
  {
    RunsEnd(c, ws);
    CarriedRun(c, ws, r);
    PassedOneFinal(c, ws);
    SelectedFromSome(Gathered(c.state, r));
    if Exec(c, ws).at == End { EndedAnswersWhen(c, ws); }
  }

  lemma {:induction false} EndedAnswersWhen(c: Config, ws: seq<World>)
    requires Started(c) && c.state.errorCode.None? && (forall w | w in ws :: Clean(w))
    requires Exec(c, ws).at == End
    ensures var s := Exec(c, ws).state;
            Answering in Passed(c, ws) <==>
            && (s.evidences != [] || s.calculations != [])
            && SourcesResolve(s.evidences, s.calculations)
            && ReferencesResolve(s.calculations)
  {
    RunInvariant(c, ws);
    PassedOneFinal(c, ws);
    CleanRun(c, ws);
    var s := Exec(c, ws).state;
    GeneratorAgreesWithChecker(s.claims, s.evidences, s.calculations, s.policyStatus);
  }

  // What suffices

  /** Calculations that can be referred to and cite only evidence that was gathered. */
  ghost predicate CitesOnly(calculations: seq<Calculation>, evidences: seq<Evidence>) {
    forall c | c in calculations ::
      c.id.Some? && forall id | id in c.sources :: exists e | e in evidences :: e.id == Some(id)
  }

  ghost predicate Scored(evidences: seq<Evidence>) {
    forall e | e in evidences :: e.id.Some? && Probability(e.relevance) && Probability(e.authority)
  }

  lemma {:induction false} ScoredIsBuildable(evidences: seq<Evidence>, calculations: seq<Calculation>)
    requires Scored(evidences)
    ensures Buildable(Claims(Selected(evidences), calculations))
  {
    SelectionIsBest(evidences);
    ClaimsAreBuildable(Selected(evidences), calculations);
  }

  lemma {:induction false} ClaimIsBuildable(evidences: seq<Evidence>, calculations: seq<Calculation>, k: nat)
    requires Scored(evidences) && k < |Claims(evidences, calculations)|
    ensures Probability(Claims(evidences, calculations)[k].confidence)
  {
    if k < |evidences| {
      assert evidences[k] in evidences;
    } else {
      ConfidenceBounds(calculations[k - |evidences|], evidences);
    }
  }

  lemma {:induction false} ClaimsAreBuildable(evidences: seq<Evidence>, calculations: seq<Calculation>)
    requires Scored(evidences)
    ensures Buildable(Claims(evidences, calculations))
  {
    var claims := Claims(evidences, calculations);
    forall k: nat | k < |claims| ensures Probability(claims[k].confidence) {
      ClaimIsBuildable(evidences, calculations, k);
    }
  }

  lemma {:induction false} TenIdsSuffice(evidences: seq<Evidence>, calculations: seq<Calculation>)
    requires Scored(evidences) && CitesOnly(calculations, evidences)
    requires evidences != [] && |Unique(evidences)| <= MAX_EVIDENCE
    ensures Sufficient(evidences, calculations)
  {
    ScoredIsBuildable(evidences, calculations);
    IdsSurviveUpToTen(evidences);
    forall i, id | 0 <= i < |calculations| && id in calculations[i].sources
      ensures id in EvidenceIds(Selected(evidences))
    {
      assert calculations[i] in calculations;
      var e :| e in evidences && e.id == Some(id);
      assert e.id.value in EvidenceIds(Selected(evidences));
    }
    forall i | 0 <= i < |calculations| ensures CalculationRef(calculations[i], i) in CalculationIds(calculations) {
      assert calculations[i] in calculations;
    }
  }

  function CitingOnly(id: string): Calculation {
    Calculation(Some("calculation"), None, None, None, [id])
  }

  lemma CitingFails(evidences: seq<Evidence>, id: string)
    requires id !in EvidenceIds(Selected(evidences))
    ensures !Sufficient(evidences, [CitingOnly(id)])
  {
    assert id in [CitingOnly(id)][0].sources;
  }

  /** Whatever is calculated from well-formed evidence, citing only that evidence, the run
      answers: exactly when there are at most ten distinct ids. */
  lemma {:induction false} TenIdsAreTheLimit(evidences: seq<Evidence>)
    requires Scored(evidences) && evidences != []
    ensures (forall calculations | CitesOnly(calculations, evidences) :: Sufficient(evidences, calculations))
            <==> |Unique(evidences)| <= MAX_EVIDENCE
  {
    if |Unique(evidences)| <= MAX_EVIDENCE {
      forall calculations | CitesOnly(calculations, evidences) ensures Sufficient(evidences, calculations) {
        TenIdsSuffice(evidences, calculations);
      }
    } else {
      IdsSurviveUpToTen(evidences);
      var e :| e in evidences && e.id.value !in EvidenceIds(Selected(evidences));
      CitingFails(evidences, e.id.value);
      assert CitesOnly([CitingOnly(e.id.value)], evidences);
    }
  }

  // A run that abstains because of the cut

  /** Eleven equally relevant pieces of evidence. */
  function Eleven(): seq<Evidence> {
    seq(11, i requires 0 <= i < 11 => Evidence(Some(Digits(i)), "", "", 0.5, 0.5))
  }

  /** Distinct evidence in order of relevance is ranked as it is. */
  lemma {:induction false} RankedAlready(all: seq<Evidence>)
    requires Distinct(Map(SelectionKey, all)) && Sorted(all, ByRelevance)
    ensures Ranked(all) == all
  {
    IndexDistinct(SelectionKey, all);
    assert Map(Value, Unique(all)) == all;
    StaysSorted(all);
  }

  lemma {:induction false} StaysSorted(all: seq<Evidence>)
    requires Sorted(all, ByRelevance)
    ensures SortBy(all, ByRelevance) == all
  {
    AnyStableSort(all, all, ByRelevance);
  }

  lemma {:induction false} ElevenDistinct()
    ensures Distinct(Map(SelectionKey, Eleven()))
  {
    forall i: nat, j: nat | i < j < 11 ensures Digits(i) != Digits(j) {
      if Digits(i) == Digits(j) {
        DigitsInjective(i, j);
        assert false;
      }
    }
    forall i, j | 0 <= i < j < 11 ensures Map(SelectionKey, Eleven())[i] != Map(SelectionKey, Eleven())[j] {
      assert Digits(i) != Digits(j);
    }
  }

  lemma {:induction false} EleventhFails()
    ensures Scored(Eleven()) && CitesOnly([CitingOnly("10")], Eleven())
    ensures Buildable(Claims(Selected(Eleven()), [CitingOnly("10")])) && !Sufficient(Eleven(), [CitingOnly("10")])
  {
    var all := Eleven();
    ElevenDistinct();
    RankedAlready(all);
    assert Digits(10) == "10";
    assert all[10] in all && all[10].id == Some("10");
    assert forall i | 0 <= i < 10 :: EvidenceId(Selected(all)[i], i) == Digits(i) && |Digits(i)| == 1;
    CitingFails(all, "10");
    ScoredIsBuildable(all, [CitingOnly("10")]);
  }

  /** Nothing fails, the eleventh piece of evidence is cut, and the calculation that cites it
      keeps the run from answering. */
  lemma {:induction false} EleventhIsCut(c: Config, ws: seq<World>, intent: IntentType)
    requires Started(c) && c.state.errorCode.None? && |ws| >= 16 && intent !in {NumericIntent, Realtime}
    requires forall w | w in ws :: Replied(w, Replies(intent, true, Eleven(), [CitingOnly("10")]))
    ensures Scored(Eleven()) && CitesOnly([CitingOnly("10")], Eleven())
    ensures Exec(c, ws).at == End && Answering !in Passed(c, ws)
  {
    EleventhFails();
    CleanRunsAnswerExactlyWhen(c, ws, Replies(intent, true, Eleven(), [CitingOnly("10")]));
  }
}
