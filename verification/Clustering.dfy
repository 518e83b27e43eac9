/** Qualification, grouping by fingerprint and cluster assembly (`calibrate_hypotheses`). */
module Clustering {
  import opened Domain
  import opened Ordering
  import opened Ranking
  import opened Supports

  /** What the evidence predicates and word lists decide about one candidate. */
  datatype Grade = Grade(suppression: set<string>, strength: Strength, confidence: Confidence, score: nat)

  /** The read-only inputs: known invariants and families, and the parts of qualification that
      are not modelled, as functions of the candidate. */
  datatype Inputs = Inputs(
    invariants: set<string>, families: set<string>,
    semantics: Candidate -> Semantics, grade: Candidate -> Grade, supports: Candidate -> seq<Unit>)

  datatype Calibration = Calibration(hypotheses: seq<Candidate>, clusters: seq<Cluster>)

  // ----- One candidate

  /** The promotion ladder of `_qualification`. */
  function Ladder(item: Candidate, g: Grade): Promotion {
    var solid := g.strength.Moderate? || g.strength.Strong?;
    if g.suppression != {} then Suppressed
    else if item.kind == "SECURITY_HYPOTHESIS" && item.readiness == Readiness.TestReady && solid && g.confidence != Low
      then Promotion.TestReady
    else if item.kind == "SECURITY_HYPOTHESIS" && item.readiness == Readiness.ReviewRequired && solid
      then Promotion.ReviewRequired
    else if g.strength.Strong? && g.confidence == High then ResearchHigh
    else if solid then ResearchMedium
    else ResearchLow
  }

  predicate Known(inputs: Inputs, item: Candidate) {
    item.invariantId in inputs.invariants && item.workflowFamilyId in inputs.families
  }

  function Demote(item: Candidate): Candidate {
    if item.readiness == Readiness.TestReady && item.blockers != {}
    then item.(readiness := Readiness.ReviewRequired) else item
  }

  function Assess(inputs: Inputs, item: Candidate): Candidate {
    var d := Demote(item);
    if !Known(inputs, d) then d
    else
      var g := inputs.grade(d);
      d.(semantics := Some(inputs.semantics(d)),
         qualification := Some(Qualification(g.confidence, g.strength, Ladder(d, g), g.score, g.suppression)))
  }

  function UnitsOf(inputs: Inputs, item: Candidate): seq<Unit> {
    if Known(inputs, item) then inputs.supports(Demote(item)) else []
  }

  function ContextOf(inputs: Inputs, item: Candidate): Context {
    Context(item.id, item.observationIds, set u | u in UnitsOf(inputs, item) :: u.signature)
  }

  // ----- The dictionaries filled by the main loop, keyed by candidate id

  function Contexts(inputs: Inputs, items: seq<Candidate>): map<string, Context> {
    if items == [] then map[]
    else
      var item, before := items[|items| - 1], Contexts(inputs, items[..|items| - 1]);
      if Known(inputs, item) then before[item.id := ContextOf(inputs, item)] else before
  }

  function SupportLists(inputs: Inputs, items: seq<Candidate>): map<string, seq<Unit>> {
    if items == [] then map[]
    else
      var item := items[|items| - 1];
      SupportLists(inputs, items[..|items| - 1])[item.id := UnitsOf(inputs, item)]
  }

  function ById(): Candidate -> Key {
    (c: Candidate) => Key([], [c.id])
  }

  function AssessAll(inputs: Inputs, items: seq<Candidate>): seq<Candidate> {
    seq(|items|, i requires 0 <= i < |items| => Assess(inputs, items[i]))
  }

  // ----- Grouping

  predicate HasFingerprint(item: Candidate, fp: string) {
    item.semantics.Some? && item.semantics.value.fingerprint == fp
  }

  function Group(items: seq<Candidate>, fp: string): seq<Candidate> {
    if items == [] then []
    else if HasFingerprint(items[0], fp) then [items[0]] + Group(items[1..], fp)
    else Group(items[1..], fp)
  }

  function Fingerprints(items: seq<Candidate>): set<string> {
    set c | c in items && c.semantics.Some? :: c.semantics.value.fingerprint
  }

  // ----- Cluster assembly

  predicate IsVisible(item: Candidate) {
    item.qualification.Some? && item.qualification.value.promotion != Suppressed
  }

  function Visible(items: seq<Candidate>): seq<Candidate> {
    if items == [] then []
    else if IsVisible(items[0]) then [items[0]] + Visible(items[1..])
    else Visible(items[1..])
  }

  function PromotionOf(item: Candidate): Promotion {
    if item.qualification.Some? then item.qualification.value.promotion else Suppressed
  }

  function ScoreOf(item: Candidate): nat {
    if item.qualification.Some? then item.qualification.value.researchScore else 0
  }

  function ByPresentation(): Candidate -> Key {
    (c: Candidate) => Key([0 - PromotionRank(PromotionOf(c)), 0 - ScoreOf(c), 0 - c.totalScore], [c.id])
  }

  function BestPromotion(items: seq<Candidate>): Promotion {
    if items == [] then Suppressed
    else
      var best := BestPromotion(items[1..]);
      if PromotionRank(PromotionOf(items[0])) > PromotionRank(best) then PromotionOf(items[0]) else best
  }

  function BestConfidence(items: seq<Candidate>): Confidence {
    if items == [] then Low
    else
      var best := BestConfidence(items[1..]);
      if items[0].qualification.Some? && ConfidenceRank(items[0].qualification.value.confidence) > ConfidenceRank(best)
      then items[0].qualification.value.confidence else best
  }

  function BestStrength(items: seq<Candidate>): Strength {
    if items == [] then Insufficient
    else
      var best := BestStrength(items[1..]);
      if items[0].qualification.Some? && StrengthRank(items[0].qualification.value.strength) > StrengthRank(best)
      then items[0].qualification.value.strength else best
  }

  function BestScore(items: seq<Candidate>): nat {
    if items == [] then 0 else if ScoreOf(items[0]) > BestScore(items[1..]) then ScoreOf(items[0])
        else BestScore(items[1..])
  }

  function HighestTotal(items: seq<Candidate>): int
    requires items != []
  {
    if |items| == 1 || items[0].totalScore > HighestTotal(items[1..]) then items[0].totalScore
        else HighestTotal(items[1..])
  }

  /** Two independent supports lift research tiers only, and only up to RESEARCH_HIGH. */
  function ClusterPromotion(visible: seq<Candidate>, supportCount: nat): Promotion {
    var best := BestPromotion(visible);
    if (best == ResearchLow || best == ResearchMedium) && supportCount >= 2 then
      if BestConfidence(visible) == High then ResearchHigh else ResearchMedium
    else best
  }

  predicate IsReady(item: Candidate) {
    item.readiness == Readiness.TestReady && item.blockers == {}
  }

  function ClusterReadiness(items: seq<Candidate>): Readiness {
    var visible := Visible(items);
    if visible != [] && forall c :: c in visible ==> IsReady(c) then Readiness.TestReady
    else if exists c :: c in visible && c.readiness != ResearchOnly then Readiness.ReviewRequired
    else ResearchOnly
  }

  function Bonus(supportCount: nat): nat {
    if supportCount == 0 then 0 else if supportCount > 4 then 9 else (supportCount - 1) * 3
  }

  function Ids(items: seq<Candidate>): seq<string> {
    seq(|items|, i requires 0 <= i < |items| => items[i].id)
  }

  function Representative(ordered: seq<Candidate>): Candidate
    requires ordered != []
  {
    SortBy(if Visible(ordered) != [] then Visible(ordered) else ordered, ByPresentation())[0]
  }

  function Assemble(ordered: seq<Candidate>, contexts: seq<Context>, independent: map<Signature, Support>): Cluster
    requires ordered != [] && ordered[0].semantics.Some?
  {
    var semantics := ordered[0].semantics.value;
    var visible := Visible(ordered);
    var readiness := ClusterReadiness(ordered);
    Cluster(semantics.canonicalId, semantics, Representative(ordered).id, Ids(ordered), contexts, independent,
      HighestTotal(ordered), BestScore(ordered) + Bonus(|independent|), BestConfidence(visible), BestStrength(visible),
      ClusterPromotion(visible, |independent|), readiness,
      if readiness == Readiness.TestReady then {} else set c, b | c in visible && b in c.blockers :: b,
      if visible != [] then {} else
        set c, r | c in ordered && c.qualification.Some? && r in c.qualification.value.suppressionReasons :: r,
      set c, o | c in ordered && o in c.observationIds :: o)
  }

  // ----- The whole calibration, as a specification

  ghost function Ordered(hypotheses: seq<Candidate>): seq<Candidate> {
    SortBy(hypotheses, ById())
  }

  /** Every grouped candidate has a context; otherwise the source fails on the missing key. */
  ghost predicate Complete(inputs: Inputs, hypotheses: seq<Candidate>) {
    forall c :: c in AssessAll(inputs, Ordered(hypotheses)) && c.semantics.Some?
      ==> c.id in Contexts(inputs, Ordered(hypotheses))
  }

  function Lookup<T>(items: seq<Candidate>, table: map<string, T>): seq<T>
    requires forall c :: c in items ==> c.id in table
  {
    seq(|items|, i requires 0 <= i < |items| => table[items[i].id])
  }

  ghost function ClusterFor(inputs: Inputs, items: seq<Candidate>, fp: string): Cluster
    requires fp in Fingerprints(AssessAll(inputs, items))
    requires forall c :: c in AssessAll(inputs, items) && c.semantics.Some? ==> c.id in Contexts(inputs, items)
  {
    var members := SortBy(Group(AssessAll(inputs, items), fp), ById());
    GroupMembers(AssessAll(inputs, items), fp);
    SortBySorts(Group(AssessAll(inputs, items), fp), ById());
    MultisetMembers(Group(AssessAll(inputs, items), fp), members);
    AllHaveSupportLists(inputs, items);
    assert members[0] in members;
    Assemble(members, Lookup(members, Contexts(inputs, items)),
        Merged(UnitsIn(Lookup(members, SupportLists(inputs, items)))))
  }

  ghost function Clusters(inputs: Inputs, items: seq<Candidate>, fps: seq<string>): seq<Cluster>
    requires forall fp :: fp in fps ==> fp in Fingerprints(AssessAll(inputs, items))
    requires forall c :: c in AssessAll(inputs, items) && c.semantics.Some? ==> c.id in Contexts(inputs, items)
  {
    seq(|fps|, i requires 0 <= i < |fps| => ClusterFor(inputs, items, fps[i]))
  }

  ghost function Calibrated(inputs: Inputs, hypotheses: seq<Candidate>): Option<Calibration> {
    if !Complete(inputs, hypotheses) then None
    else
      var items := Ordered(hypotheses);
      var all := AssessAll(inputs, items);
      SortedListAscends(Fingerprints(all));
      Some(Calibration(SortBy(all, ByPresentation()),
          Ranked(Clusters(inputs, items, SortedList(Fingerprints(all))), true, true)))
  }

  // ----- Membership facts

  lemma {:induction false} GroupMembers(items: seq<Candidate>, fp: string)
    ensures forall c :: c in Group(items, fp) <==> c in items && HasFingerprint(c, fp)
    ensures fp in Fingerprints(items) ==> Group(items, fp) != []
  {
    if items != [] {
      GroupMembers(items[1..], fp);
      assert items == [items[0]] + items[1..];
    }
    if fp in Fingerprints(items) {
      var c :| c in items && HasFingerprint(c, fp);
      assert c in Group(items, fp);
    }
  }

  lemma {:induction false} VisibleMembers(items: seq<Candidate>)
    ensures forall c :: c in Visible(items) <==> c in items && IsVisible(c)
    ensures Visible(items) == [] <==> forall c :: c in items ==> !IsVisible(c)
  {
    if items != [] {
      VisibleMembers(items[1..]);
      assert items == [items[0]] + items[1..];
    }
  }

  lemma {:induction false} AllHaveSupportLists(inputs: Inputs, items: seq<Candidate>)
    ensures forall c :: c in AssessAll(inputs, items) ==> c.id in SupportLists(inputs, items)
  {
    if items != [] {
      var n := |items| - 1;
      AllHaveSupportLists(inputs, items[..n]);
      forall c | c in AssessAll(inputs, items) ensures c.id in SupportLists(inputs, items) {
        var i :| 0 <= i < |items| && c == Assess(inputs, items[i]);
        if i < n {
          assert AssessAll(inputs, items[..n])[i] == c;
        }
      }
    }
  }
}
