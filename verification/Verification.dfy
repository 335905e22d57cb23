/** The deterministic claim checker (src/finsage/governance/verification.py) and the claim
    generator it has to agree with (src/finsage/workflows/nodes.py). */
module Verification {
  import opened Options
  import opened Seqs
  import opened Decimals

  /** `ident` is the object's identity, for evidence that carries no id. */
  datatype Evidence = Evidence(id: Option<string>, ident: string, text: string, relevance: real, authority: real)

  datatype Calculation = Calculation(
    id: Option<string>,
    period: Option<string>,
    currency: Option<string>,
    unit: Option<string>,
    sources: seq<string>)

  datatype ClaimType = Fact | Numeric | Comparison | Explanation | Research | Risk

  datatype Claim = Claim(kind: ClaimType, evidenceIds: seq<string>, calculationId: Option<string>, confidence: real)

  datatype PolicyStatus = Allow | Block | AbstainPolicy

  datatype Rule = V001 | V002 | V003 | V004 | V005 | V006 | V007 | V008 | V009

  datatype Status = Pass | Fail | Abstain

  datatype Verdict = Verdict(status: Status, failedRules: seq<Rule>)

  datatype Expected = Expected(period: Option<string>, currency: Option<string>, unit: Option<string>)

  const NOTHING_EXPECTED := Expected(None, None, None)

  function EvidenceId(e: Evidence, i: nat): string {
    if e.id.Some? then e.id.value else "ev:" + Digits(i)
  }

  function EvidenceIds(evidences: seq<Evidence>): set<string> {
    set i | 0 <= i < |evidences| :: EvidenceId(evidences[i], i)
  }

  function CalculationIds(calculations: seq<Calculation>): set<string> {
    set c | c in calculations && c.id.Some? :: c.id.value
  }

  // Declarative side: what each rule demands

  ghost predicate CitationsResolve(c: Claim, evidenceIds: set<string>) {
    forall id | id in c.evidenceIds :: id in evidenceIds
  }

  ghost predicate CalculationResolves(c: Claim, calculationIds: set<string>) {
    c.calculationId.Some? ==> c.calculationId.value in calculationIds
  }

  /** A number needs evidence or a calculation, a fact needs evidence. */
  ghost predicate HasBasis(c: Claim) {
    && (c.kind in {Numeric, Comparison} ==> c.evidenceIds != [] || c.calculationId.Some?)
    && (c.kind == Fact ==> c.evidenceIds != [])
  }

  ghost predicate Grounded(c: Claim, evidenceIds: set<string>, calculationIds: set<string>) {
    CitationsResolve(c, evidenceIds) && CalculationResolves(c, calculationIds) && HasBasis(c)
  }

  /** What each of the rules on single claims faults; a claim is charged with one of them. */
  ghost predicate Breaks(rule: Rule, c: Claim, evidenceIds: set<string>, calculationIds: set<string>) {
    match rule
    case V003 => !CitationsResolve(c, evidenceIds)
    case V001 =>
      && CitationsResolve(c, evidenceIds)
      && (CalculationResolves(c, calculationIds) ==> c.kind in {Numeric, Comparison} && !HasBasis(c))
    case V002 =>
      && CitationsResolve(c, evidenceIds) && CalculationResolves(c, calculationIds)
      && c.kind == Fact && !HasBasis(c)
    case _ => false
  }

  /** A set expectation ("" counts as not set) that some calculation contradicts; a
      calculation without the attribute contradicts nothing. */
  predicate PeriodMismatch(expected: Option<string>, calculations: seq<Calculation>) {
    && expected.Some? && expected.value != ""
    && exists c :: c in calculations && c.period.Some? && c.period.value != "" && c.period != expected
  }

  predicate CurrencyMismatch(expected: Option<string>, calculations: seq<Calculation>) {
    && expected.Some? && expected.value != ""
    && exists c :: c in calculations && c.currency.Some? && c.currency != expected
  }

  predicate UnitMismatch(expected: Option<string>, calculations: seq<Calculation>) {
    && expected.Some? && expected.value != ""
    && exists c :: c in calculations && c.unit.Some? && c.unit != expected
  }

  /** A calculation's attribute is there and is not the one that is asked for ("" asks for none). */
  ghost predicate Differs(expected: Option<string>, given: Option<string>) {
    expected.Some? && expected.value != "" && given.Some? && given.value != expected.value
  }

  /** What V004, V005 and V006 fault; a calculation without a period, or with an empty one, has
      no wrong period. */
  ghost predicate WrongPeriod(expected: Expected, calculations: seq<Calculation>) {
    exists c | c in calculations :: Differs(expected.period, c.period) && c.period != Some("")
  }

  ghost predicate WrongCurrency(expected: Expected, calculations: seq<Calculation>) {
    exists c | c in calculations :: Differs(expected.currency, c.currency)
  }

  ghost predicate WrongUnit(expected: Expected, calculations: seq<Calculation>) {
    exists c | c in calculations :: Differs(expected.unit, c.unit)
  }

  ghost predicate AnyMismatch(expected: Expected, calculations: seq<Calculation>) {
    WrongPeriod(expected, calculations) || WrongCurrency(expected, calculations) || WrongUnit(expected, calculations)
  }

  lemma MismatchesMean(expected: Expected, calculations: seq<Calculation>)
    ensures PeriodMismatch(expected.period, calculations) <==> WrongPeriod(expected, calculations)
    ensures CurrencyMismatch(expected.currency, calculations) <==> WrongCurrency(expected, calculations)
    ensures UnitMismatch(expected.unit, calculations) <==> WrongUnit(expected, calculations)
  {}

  /** Something backs the answer: a calculation, or a claim bound to evidence, or evidence
      from which no claim was made. */
  ghost predicate Supported(claims: seq<Claim>, evidences: seq<Evidence>, calculations: seq<Calculation>) {
    || calculations != []
    || (claims == [] && evidences != [])
    || exists c | c in claims :: c.evidenceIds != []
  }

  // The checker

  predicate Dangling(ids: seq<string>, known: set<string>) {
    exists id :: id in ids && id !in known
  }

  /** The first rule a claim breaks, and none exactly when it is grounded. */
  function ClaimFault(c: Claim, evidenceIds: set<string>, calculationIds: set<string>): (r: Option<Rule>)
    ensures r.None? <==> Grounded(c, evidenceIds, calculationIds)
    ensures forall rule :: r == Some(rule) <==> Breaks(rule, c, evidenceIds, calculationIds)
  {
    if Dangling(c.evidenceIds, evidenceIds) then Some(V003)
    else if c.calculationId.Some? && c.calculationId.value !in calculationIds then Some(V001)
    else if (c.kind == Numeric || c.kind == Comparison) && c.evidenceIds == [] && c.calculationId.None? then Some(V001)
    else if c.kind == Fact && c.evidenceIds == [] then Some(V002)
    else None
  }

  ghost function ClaimFaults(claims: seq<Claim>, evidenceIds: set<string>, calculationIds: set<string>): seq<Rule> {
    if claims == [] then []
    else
      ClaimFaults(claims[..|claims| - 1], evidenceIds, calculationIds)
      + match ClaimFault(claims[|claims| - 1], evidenceIds, calculationIds)
        case Some(rule) => [rule]
        case None => []
  }

  ghost function OneIf(condition: bool, rule: Rule): seq<Rule> {
    if condition then [rule] else []
  }

  ghost function Faults(claims: seq<Claim>, evidences: seq<Evidence>, calculations: seq<Calculation>,
                        expected: Expected, conflicts: bool): seq<Rule> {
    ClaimFaults(claims, EvidenceIds(evidences), CalculationIds(calculations))
    + OneIf(PeriodMismatch(expected.period, calculations), V004)
    + OneIf(CurrencyMismatch(expected.currency, calculations), V005)
    + OneIf(UnitMismatch(expected.unit, calculations), V006)
    + OneIf(conflicts, V007)
  }

  ghost function Check(claims: seq<Claim>, evidences: seq<Evidence>, calculations: seq<Calculation>,
                       policy: Option<PolicyStatus>, expected: Expected, conflicts: bool): Verdict {
    if policy == Some(Block) then Verdict(Fail, [V009])
    else
      var failed := Faults(claims, evidences, calculations, expected, conflicts);
      if failed != [] then Verdict(Fail, failed)
      else if Supported(claims, evidences, calculations) then Verdict(Pass, [])
      else Verdict(Abstain, [V008])
  }

  lemma FaultsOneMore(claims: seq<Claim>, i: nat, evidenceIds: set<string>, calculationIds: set<string>)
    requires i < |claims|
    ensures ClaimFaults(claims[..i + 1], evidenceIds, calculationIds) ==
            ClaimFaults(claims[..i], evidenceIds, calculationIds)
            + match ClaimFault(claims[i], evidenceIds, calculationIds) case Some(rule) => [rule] case None => []
  {
    PrefixStep(claims, i);
  }

  /** Each claim adds its first fault. */
  method CheckClaims(claims: seq<Claim>, evidenceIds: set<string>, calculationIds: set<string>)
    returns (failed: seq<Rule>)
    ensures failed == ClaimFaults(claims, evidenceIds, calculationIds)
  {
    failed := [];
    for i := 0 to |claims|
      invariant failed == ClaimFaults(claims[..i], evidenceIds, calculationIds)
    {
      FaultsOneMore(claims, i, evidenceIds, calculationIds);
      match ClaimFault(claims[i], evidenceIds, calculationIds)
      case Some(rule) => failed := failed + [rule];
      case None =>
    }
    WholePrefix(claims);
  }

  method FindFaults(claims: seq<Claim>, evidences: seq<Evidence>, calculations: seq<Calculation>,
                    expected: Expected, conflicts: bool)
    returns (failed: seq<Rule>)
    ensures failed == Faults(claims, evidences, calculations, expected, conflicts)
  {
    failed := CheckClaims(claims, EvidenceIds(evidences), CalculationIds(calculations));
    if PeriodMismatch(expected.period, calculations) {
      failed := failed + [V004];
    }
    if CurrencyMismatch(expected.currency, calculations) {
      failed := failed + [V005];
    }
    if UnitMismatch(expected.unit, calculations) {
      failed := failed + [V006];
    }
    if conflicts {
      failed := failed + [V007];
    }
  }

  method Verify(claims: seq<Claim>, evidences: seq<Evidence>, calculations: seq<Calculation>,
                policy: Option<PolicyStatus>, expected: Expected, conflicts: bool) returns (r: Verdict)
    ensures r == Check(claims, evidences, calculations, policy, expected, conflicts)
  {
    if policy == Some(Block) {
      return Verdict(Fail, [V009]);
    }
    var failed := FindFaults(claims, evidences, calculations, expected, conflicts);
    if failed != [] {
      return Verdict(Fail, failed);
    }
    if claims == [] && evidences == [] && calculations == [] {
      return Verdict(Abstain, [V008]);
    }
    var bound := exists c :: c in claims && c.evidenceIds != [];
    if claims != [] && !bound && calculations == [] {
      return Verdict(Abstain, [V008]);
    }
    return Verdict(Pass, []);
  }

  lemma {:induction false} FaultsMeaning(claims: seq<Claim>, evidenceIds: set<string>, calculationIds: set<string>)
    ensures forall rule :: rule in ClaimFaults(claims, evidenceIds, calculationIds) <==>
                             exists c | c in claims :: Breaks(rule, c, evidenceIds, calculationIds)
  {
    if claims != [] {
      var n := |claims| - 1;
      FaultsMeaning(claims[..n], evidenceIds, calculationIds);
      assert claims == claims[..n] + [claims[n]];
    }
  }

  lemma {:induction false} NoFaultsMeaning(claims: seq<Claim>, evidenceIds: set<string>, calculationIds: set<string>)
    ensures ClaimFaults(claims, evidenceIds, calculationIds) == [] <==>
            forall c | c in claims :: Grounded(c, evidenceIds, calculationIds)
  {
    var faults := ClaimFaults(claims, evidenceIds, calculationIds);
    FaultsMeaning(claims, evidenceIds, calculationIds);
    if faults != [] {
      assert faults[0] in faults;
    }
    forall c | c in claims && !Grounded(c, evidenceIds, calculationIds) ensures faults != [] {
      var fault := ClaimFault(c, evidenceIds, calculationIds);
      assert Breaks(fault.value, c, evidenceIds, calculationIds);
      assert fault.value in faults;
    }
  }

  /** What a verdict means, from the rules alone. */
  lemma {:induction false} VerdictMeaning(claims: seq<Claim>, evidences: seq<Evidence>, calculations: seq<Calculation>,
                                          policy: Option<PolicyStatus>, expected: Expected, conflicts: bool)
    ensures var v := Check(claims, evidences, calculations, policy, expected, conflicts);
            var sound :=
              && policy != Some(Block) && !conflicts && !AnyMismatch(expected, calculations)
              && forall c | c in claims :: Grounded(c, EvidenceIds(evidences), CalculationIds(calculations));
            && (v.status == Pass <==> sound && Supported(claims, evidences, calculations))
            && (v.status == Abstain <==> sound && !Supported(claims, evidences, calculations))
  {
    NoFaultsMeaning(claims, EvidenceIds(evidences), CalculationIds(calculations));
    MismatchesMean(expected, calculations);
  }

  lemma OneIfs(head: seq<Rule>, period: bool, currency: bool, unit: bool, conflicts: bool)
    requires forall r | r in head :: r in {V001, V002, V003}
    ensures var failed := head + OneIf(period, V004) + OneIf(currency, V005) + OneIf(unit, V006)
                          + OneIf(conflicts, V007);
            && V008 !in failed && V009 !in failed
            && (forall rule | rule in {V001, V002, V003} :: rule in failed <==> rule in head)
            && (V004 in failed <==> period) && (V005 in failed <==> currency)
            && (V006 in failed <==> unit) && (V007 in failed <==> conflicts)
  {}

  lemma {:induction false} FaultRules(claims: seq<Claim>, evidences: seq<Evidence>, calculations: seq<Calculation>,
                                      expected: Expected, conflicts: bool)
    ensures var failed := Faults(claims, evidences, calculations, expected, conflicts);
            && V008 !in failed && V009 !in failed
            && (V007 in failed <==> conflicts)
            && (V004 in failed <==> PeriodMismatch(expected.period, calculations))
            && (V005 in failed <==> CurrencyMismatch(expected.currency, calculations))
            && (V006 in failed <==> UnitMismatch(expected.unit, calculations))
            && forall rule | rule in {V001, V002, V003} ::
                 rule in failed <==>
                 exists c | c in claims :: Breaks(rule, c, EvidenceIds(evidences), CalculationIds(calculations))
  {
    var head := ClaimFaults(claims, EvidenceIds(evidences), CalculationIds(calculations));
    FaultsMeaning(claims, EvidenceIds(evidences), CalculationIds(calculations));
    OneIfs(head, PeriodMismatch(expected.period, calculations), CurrencyMismatch(expected.currency, calculations),
           UnitMismatch(expected.unit, calculations), conflicts);
  }

  /** Which rules a verdict lists. */
  lemma {:induction false} FailedRulesMeaning(claims: seq<Claim>, evidences: seq<Evidence>,
                                              calculations: seq<Calculation>,
                                              policy: Option<PolicyStatus>, expected: Expected, conflicts: bool)
    ensures var v := Check(claims, evidences, calculations, policy, expected, conflicts);
            && (v.failedRules == [] <==> v.status == Pass)
            && (V009 in v.failedRules <==> policy == Some(Block))
            && (V008 in v.failedRules <==> v.status == Abstain)
            && (policy != Some(Block) ==>
                  && (V007 in v.failedRules <==> conflicts)
                  && (V004 in v.failedRules <==> WrongPeriod(expected, calculations))
                  && (V005 in v.failedRules <==> WrongCurrency(expected, calculations))
                  && (V006 in v.failedRules <==> WrongUnit(expected, calculations))
                  && forall rule | rule in {V001, V002, V003} ::
                       rule in v.failedRules <==>
                       exists c | c in claims :: Breaks(rule, c, EvidenceIds(evidences), CalculationIds(calculations)))
  {
    FaultRules(claims, evidences, calculations, expected, conflicts);
    MismatchesMean(expected, calculations);
  }

  /** Faults are listed claim by claim: none for a grounded claim, one for any other. */
  lemma {:induction false} FaultsAdd(a: seq<Claim>, b: seq<Claim>, evidenceIds: set<string>,
                                     calculationIds: set<string>)
    ensures ClaimFaults(a + b, evidenceIds, calculationIds) ==
            ClaimFaults(a, evidenceIds, calculationIds) + ClaimFaults(b, evidenceIds, calculationIds)
    ensures |a| == 1 ==>
              if Grounded(a[0], evidenceIds, calculationIds) then ClaimFaults(a, evidenceIds, calculationIds) == []
              else exists rule :: Breaks(rule, a[0], evidenceIds, calculationIds)
                                  && ClaimFaults(a, evidenceIds, calculationIds) == [rule]
  {
    if |a| == 1 { OneFault(a[0], evidenceIds, calculationIds); }
    if b == [] {
      assert a + b == a;
    } else {
      var n := |b| - 1;
      assert (a + b)[..|a + b| - 1] == a + b[..n];
      FaultsAdd(a, b[..n], evidenceIds, calculationIds);
    }
  }

  lemma {:induction false} OneFault(c: Claim, evidenceIds: set<string>, calculationIds: set<string>)
    ensures if Grounded(c, evidenceIds, calculationIds) then ClaimFaults([c], evidenceIds, calculationIds) == []
            else exists rule :: Breaks(rule, c, evidenceIds, calculationIds)
                                && ClaimFaults([c], evidenceIds, calculationIds) == [rule]
  {
    assert [c][..0] == [];
    var fault := ClaimFault(c, evidenceIds, calculationIds);
    if fault.Some? {
      assert Breaks(fault.value, c, evidenceIds, calculationIds);
      assert ClaimFaults([c], evidenceIds, calculationIds) == [] + [fault.value] == [fault.value];
    }
  }

  /** The rules a failed check lists, in order: those of the claims, then the four on the whole. */
  lemma FailedRulesInOrder(claims: seq<Claim>, evidences: seq<Evidence>, calculations: seq<Calculation>,
                           policy: Option<PolicyStatus>, expected: Expected, conflicts: bool)
    ensures var v := Check(claims, evidences, calculations, policy, expected, conflicts);
            if policy == Some(Block) then v == Verdict(Fail, [V009])
            else if v.status == Abstain then v.failedRules == [V008]
            else v.failedRules ==
                 ClaimFaults(claims, EvidenceIds(evidences), CalculationIds(calculations))
                 + OneIf(WrongPeriod(expected, calculations), V004) + OneIf(WrongCurrency(expected, calculations), V005)
                 + OneIf(WrongUnit(expected, calculations), V006) + OneIf(conflicts, V007)
  {
    MismatchesMean(expected, calculations);
  }

  // The generator

  function Average(xs: seq<real>): real
    requires xs != []
  {
    Sum(xs) / |xs| as real
  }

  function Sum(xs: seq<real>): real {
    if xs == [] then 0.0 else Sum(xs[..|xs| - 1]) + xs[|xs| - 1]
  }

  /** by_id[id]: the last evidence with that id, evidence without one counting as "". */
  function ById(evidences: seq<Evidence>, id: string): Option<Evidence> {
    if evidences == [] then None
    else
      var e := evidences[|evidences| - 1];
      if (if e.id.Some? then e.id.value else "") == id then Some(e)
      else ById(evidences[..|evidences| - 1], id)
  }

  /** The evidence a calculation's sources name, as far as it is there. */
  function Matched(sources: seq<string>, evidences: seq<Evidence>): seq<Evidence> {
    if sources == [] then []
    else
      Matched(sources[..|sources| - 1], evidences)
      + match ById(evidences, sources[|sources| - 1])
        case Some(e) => [e]
        case None => []
  }

  const UNBOUND_CONFIDENCE := 0.5

  function RelevanceOf(e: Evidence): real { e.relevance }

  function AuthorityOf(e: Evidence): real { e.authority }

  function CalculationConfidence(c: Calculation, evidences: seq<Evidence>): real {
    var matched := Matched(c.sources, evidences);
    if matched == [] then UNBOUND_CONFIDENCE
    else
      var mean := (Average(Map(RelevanceOf, matched)) + Average(Map(AuthorityOf, matched))) / 2.0;
      if UNBOUND_CONFIDENCE >= mean then UNBOUND_CONFIDENCE else mean
  }

  function CalculationRef(c: Calculation, i: nat): string {
    if c.id.Some? then c.id.value else "calc:" + Digits(i)
  }

  function EvidenceClaim(e: Evidence, i: nat): Claim {
    Claim(Fact, [EvidenceId(e, i)], None, e.relevance)
  }

  function CalculationClaim(c: Calculation, i: nat, evidences: seq<Evidence>): Claim {
    Claim(Numeric, c.sources, Some(CalculationRef(c, i)), CalculationConfidence(c, evidences))
  }

  ghost predicate IsClaims(claims: seq<Claim>, evidences: seq<Evidence>, calculations: seq<Calculation>) {
    && |claims| == |evidences| + |calculations|
    && (forall i | 0 <= i < |evidences| ::
          claims[i] == Claim(Fact, [EvidenceId(evidences[i], i)], None, evidences[i].relevance))
    && forall i | 0 <= i < |calculations| ::
         claims[|evidences| + i] ==
         Claim(Numeric, calculations[i].sources, Some(CalculationRef(calculations[i], i)),
               CalculationConfidence(calculations[i], evidences))
  }

  ghost predicate Probability(x: real) { 0.0 <= x <= 1.0 }

  /** A claim whose confidence lies outside [0, 1] cannot be built: None is that exception. */
  method MakeClaims(evidences: seq<Evidence>, calculations: seq<Calculation>) returns (r: Option<seq<Claim>>)
    ensures r.Some? <==>
            && (forall e | e in evidences :: Probability(e.relevance))
            && forall c | c in calculations :: Probability(CalculationConfidence(c, evidences))
    ensures r.Some? ==> IsClaims(r.value, evidences, calculations)
  {
    var claims: seq<Claim> := [];
    for i := 0 to |evidences|
      invariant |claims| == i
      invariant forall k | 0 <= k < i ::
                  claims[k] == EvidenceClaim(evidences[k], k) && Probability(evidences[k].relevance)
    {
      if !(0.0 <= evidences[i].relevance <= 1.0) {
        assert evidences[i] in evidences;
        return None;
      }
      claims := claims + [EvidenceClaim(evidences[i], i)];
    }
    for i := 0 to |calculations|
      invariant |claims| == |evidences| + i
      invariant forall k | 0 <= k < |evidences| :: claims[k] == EvidenceClaim(evidences[k], k)
      invariant forall k | 0 <= k < i ::
                  && claims[|evidences| + k] == CalculationClaim(calculations[k], k, evidences)
                  && Probability(CalculationConfidence(calculations[k], evidences))
    {
      var claim := CalculationClaim(calculations[i], i, evidences);
      if !(0.0 <= claim.confidence <= 1.0) {
        assert calculations[i] in calculations;
        return None;
      }
      claims := claims + [claim];
    }
    return Some(claims);
  }

  lemma {:induction false} SumBounds(xs: seq<real>)
    requires forall x | x in xs :: Probability(x)
    ensures 0.0 <= Sum(xs) <= |xs| as real
  {
    if xs != [] {
      assert xs[|xs| - 1] in xs;
      SumBounds(xs[..|xs| - 1]);
    }
  }

  lemma NonNegativeFactor(a: real, n: real)
    requires n > 0.0 && a * n >= 0.0
    ensures a >= 0.0
  {}

  lemma {:induction false} AverageBounds(xs: seq<real>)
    requires xs != [] && forall x | x in xs :: Probability(x)
    ensures Probability(Average(xs))
  {
    SumBounds(xs);
    var n := |xs| as real;
    assert Average(xs) * n == Sum(xs);
    NonNegativeFactor(Average(xs), n);
    NonNegativeFactor(1.0 - Average(xs), n);
  }

  lemma {:induction false} ByIdIn(evidences: seq<Evidence>, id: string)
    ensures ById(evidences, id).Some? ==> ById(evidences, id).value in evidences
  {
    if evidences != [] { ByIdIn(evidences[..|evidences| - 1], id); }
  }

  lemma {:induction false} MatchedIn(sources: seq<string>, evidences: seq<Evidence>)
    ensures forall e | e in Matched(sources, evidences) :: e in evidences
  {
    if sources != [] {
      MatchedIn(sources[..|sources| - 1], evidences);
      ByIdIn(evidences, sources[|sources| - 1]);
    }
  }

  /** Scores in [0, 1] give confidences in [0, 1]: then the generator never raises. A
      calculation never gets less than the confidence of an unbound one. */
  lemma {:induction false} ConfidenceBounds(c: Calculation, evidences: seq<Evidence>)
    requires forall e | e in evidences :: Probability(e.relevance) && Probability(e.authority)
    ensures UNBOUND_CONFIDENCE <= CalculationConfidence(c, evidences) <= 1.0
  {
    var matched := Matched(c.sources, evidences);
    MatchedIn(c.sources, evidences);
    if matched != [] {
      var rs, auths := Map(RelevanceOf, matched), Map(AuthorityOf, matched);
      forall x | x in rs ensures Probability(x) {
        var i :| 0 <= i < |rs| && rs[i] == x;
        assert matched[i] in matched;
      }
      forall x | x in auths ensures Probability(x) {
        var i :| 0 <= i < |auths| && auths[i] == x;
        assert matched[i] in matched;
      }
      AverageBounds(rs);
      AverageBounds(auths);
    }
  }

  // What a calculation's confidence is

  lemma {:induction false} SumAdd(xs: seq<real>, ys: seq<real>)
    ensures Sum(xs + ys) == Sum(xs) + Sum(ys)
    ensures |xs| == 1 ==> Sum(xs) == xs[0]
  {
    if ys == [] {
      assert xs + ys == xs;
    } else {
      assert (xs + ys)[..|xs + ys| - 1] == xs + ys[..|ys| - 1];
      SumAdd(xs, ys[..|ys| - 1]);
    }
  }

  lemma {:induction false} MatchedAdd(a: seq<string>, b: seq<string>, evidences: seq<Evidence>)
    ensures Matched(a + b, evidences) == Matched(a, evidences) + Matched(b, evidences)
  {
    if b == [] {
      assert a + b == a;
    } else {
      assert (a + b)[..|a + b| - 1] == a + b[..|b| - 1];
      MatchedAdd(a, b[..|b| - 1], evidences);
    }
  }

  /** What an evidence is found under. */
  function NameOf(e: Evidence): string { if e.id.Some? then e.id.value else "" }

  /** Evidence k is the last one found under that id. */
  ghost predicate LastNamed(evidences: seq<Evidence>, id: string, k: nat) {
    k < |evidences| && NameOf(evidences[k]) == id && forall j | k < j < |evidences| :: NameOf(evidences[j]) != id
  }

  lemma {:induction false} ByIdIs(evidences: seq<Evidence>, id: string, k: nat)
    ensures LastNamed(evidences, id, k) ==> ById(evidences, id) == Some(evidences[k])
    ensures (forall e | e in evidences :: NameOf(e) != id) ==> ById(evidences, id) == None
  {
    if evidences != [] {
      var n := |evidences| - 1;
      assert evidences[n] in evidences;
      assert evidences == evidences[..n] + [evidences[n]];
      ByIdIs(evidences[..n], id, k);
    }
  }

  /** A source stands for the last evidence with its id, or for none. */
  lemma {:induction false} MatchedOne(id: string, evidences: seq<Evidence>, k: nat)
    ensures LastNamed(evidences, id, k) ==> Matched([id], evidences) == [evidences[k]]
    ensures (forall e | e in evidences :: NameOf(e) != id) ==> Matched([id], evidences) == []
  {
    ByIdIs(evidences, id, k);
    assert [id][..0] == [];
  }

  lemma HalfOfAverages(x: real, y: real, n: real)
    requires n != 0.0
    ensures (x / n + y / n) / 2.0 == (x + y) / (2.0 * n)
  {
    var p, q := x / n, y / n;
    assert p * n == x && q * n == y;
    assert (p + q) * n == x + y;
    assert ((p + q) / 2.0) * (2.0 * n) == x + y;
  }

  /** The mean of the relevances and authorities of the evidence its sources stand for, but never
      less than a half; and a half when they stand for none. */
  lemma {:induction false} ConfidenceIs(c: Calculation, evidences: seq<Evidence>)
    ensures var matched := Matched(c.sources, evidences);
            if matched == [] then CalculationConfidence(c, evidences) == 0.5
            else
              var mean := (Sum(Map(RelevanceOf, matched)) + Sum(Map(AuthorityOf, matched))) / (2.0 * |matched| as real);
              CalculationConfidence(c, evidences) == if mean > 0.5 then mean else 0.5
  {
    var matched := Matched(c.sources, evidences);
    if matched != [] {
      HalfOfAverages(Sum(Map(RelevanceOf, matched)), Sum(Map(AuthorityOf, matched)), |matched| as real);
    }
  }

  /** With one source that is there: half its relevance and authority together. */
  lemma {:induction false} OneSourceConfidence(c: Calculation, evidences: seq<Evidence>, k: nat)
    requires |c.sources| == 1 && LastNamed(evidences, c.sources[0], k)
    ensures var mean := (evidences[k].relevance + evidences[k].authority) / 2.0;
            CalculationConfidence(c, evidences) == if mean > 0.5 then mean else 0.5
  {
    MatchedOne(c.sources[0], evidences, k);
    assert c.sources == [c.sources[0]];
    ConfidenceIs(c, evidences);
    var e := evidences[k];
    assert Map(RelevanceOf, [e]) == [e.relevance] && Map(AuthorityOf, [e]) == [e.authority];
    SumAdd([e.relevance], []);
    SumAdd([e.authority], []);
  }

  // Generator and checker agree

  ghost predicate SourcesResolve(evidences: seq<Evidence>, calculations: seq<Calculation>) {
    forall i, id | 0 <= i < |calculations| && id in calculations[i].sources :: id in EvidenceIds(evidences)
  }

  /** Every calculation can be referred to: it has an id, or its fallback name is some id. */
  ghost predicate ReferencesResolve(calculations: seq<Calculation>) {
    forall i | 0 <= i < |calculations| :: CalculationRef(calculations[i], i) in CalculationIds(calculations)
  }

  lemma {:induction false} EvidenceClaimGrounded(evidences: seq<Evidence>, i: nat, calculationIds: set<string>)
    requires i < |evidences|
    ensures Grounded(EvidenceClaim(evidences[i], i), EvidenceIds(evidences), calculationIds)
  {
    assert EvidenceId(evidences[i], i) in EvidenceIds(evidences);
  }

  /** Claims made from evidence and calculations pass the checker exactly when there is
      anything at all and every calculation's sources and reference resolve; nothing at all
      abstains; the rest fails, with V003 exactly when some source dangles. */
  lemma {:induction false} GeneratorAgreesWithChecker(claims: seq<Claim>, evidences: seq<Evidence>,
                                                      calculations: seq<Calculation>, policy: Option<PolicyStatus>)
    requires IsClaims(claims, evidences, calculations) && policy != Some(Block)
    ensures var v := Check(claims, evidences, calculations, policy, NOTHING_EXPECTED, false);
            && (v.status == Pass <==>
                  && (evidences != [] || calculations != [])
                  && SourcesResolve(evidences, calculations) && ReferencesResolve(calculations))
            && (v.status == Abstain <==> evidences == [] && calculations == [])
            && (V003 in v.failedRules <==> !SourcesResolve(evidences, calculations))
            && ((forall c | c in calculations :: c.id.Some?) ==> ReferencesResolve(calculations))
  {
    var evidenceIds, calculationIds := EvidenceIds(evidences), CalculationIds(calculations);
    VerdictMeaning(claims, evidences, calculations, policy, NOTHING_EXPECTED, false);
    FailedRulesMeaning(claims, evidences, calculations, policy, NOTHING_EXPECTED, false);
    ClaimsSound(claims, evidences, calculations);
    if evidences != [] { assert claims[0].evidenceIds != [] && claims[0] in claims; }
  }

  lemma {:induction false} ClaimsSound(claims: seq<Claim>, evidences: seq<Evidence>, calculations: seq<Calculation>)
    requires IsClaims(claims, evidences, calculations)
    ensures (forall c | c in claims :: CitationsResolve(c, EvidenceIds(evidences))) <==>
            SourcesResolve(evidences, calculations)
    ensures (forall c | c in claims :: Grounded(c, EvidenceIds(evidences), CalculationIds(calculations))) <==>
            SourcesResolve(evidences, calculations) && ReferencesResolve(calculations)
  {
    var evidenceIds, calculationIds := EvidenceIds(evidences), CalculationIds(calculations);
    forall i | 0 <= i < |evidences| ensures Grounded(claims[i], evidenceIds, calculationIds) {
      EvidenceClaimGrounded(evidences, i, calculationIds);
    }
    if SourcesResolve(evidences, calculations) {
      forall k | 0 <= k < |claims|
        ensures CitationsResolve(claims[k], evidenceIds)
        ensures ReferencesResolve(calculations) ==> Grounded(claims[k], evidenceIds, calculationIds)
      {
        if k < |evidences| {
          assert Grounded(claims[k], evidenceIds, calculationIds);
        } else {
          var i := k - |evidences|;
          assert claims[|evidences| + i] == CalculationClaim(calculations[i], i, evidences);
        }
      }
    }
    if forall c | c in claims :: CitationsResolve(c, evidenceIds) {
      forall i, id | 0 <= i < |calculations| && id in calculations[i].sources ensures id in evidenceIds {
        assert CitationsResolve(claims[|evidences| + i], evidenceIds);
      }
    }
    if forall c | c in claims :: Grounded(c, evidenceIds, calculationIds) {
      forall i | 0 <= i < |calculations| ensures CalculationRef(calculations[i], i) in calculationIds {
        assert Grounded(claims[|evidences| + i], evidenceIds, calculationIds);
      }
    }
  }
}
