/** Promotion tiers and cluster records in plain terms: which evidence leads to which tier, and what
    every field of a reported cluster says about the candidates of its fingerprint. */
module ClusterGrades {
  import opened Domain
  import opened Ordering
  import opened Ranking
  import opened RankingOrder
  import opened Supports
  import opened Clustering
  import opened ClusteringProperties

  // ----- One candidate

  /** A candidate as it is graded: not ready while something blocks it. */
  function Graded(h: Candidate): Candidate {
    h.(readiness := if h.readiness == Readiness.TestReady && h.blockers != {} then Readiness.ReviewRequired
        else h.readiness)
  }

  predicate IsKnown(inputs: Inputs, h: Candidate) {
    h.invariantId in inputs.invariants && h.workflowFamilyId in inputs.families
  }

  predicate IsSolid(s: Strength) {
    s != Insufficient && s != Weak
  }

  /** The six tiers, each exactly. */
  predicate TierMeans(p: Promotion, h: Candidate, g: Grade) {
    var clear := g.suppression == {};
    var hypothesis := h.kind == "SECURITY_HYPOTHESIS";
    var ready := clear && hypothesis && h.readiness == Readiness.TestReady && IsSolid(g.strength)
        && g.confidence != Low;
    var review := clear && hypothesis && h.readiness == Readiness.ReviewRequired && IsSolid(g.strength);
    var high := clear && !ready && !review && g.strength == Strong && g.confidence == High;
    var medium := clear && !ready && !review && IsSolid(g.strength) && (g.strength == Moderate || g.confidence != High);
    && (p == Suppressed <==> g.suppression != {})
    && (p == Promotion.TestReady <==> ready)
    && (p == Promotion.ReviewRequired <==> review)
    && (p == ResearchHigh <==> high)
    && (p == ResearchMedium <==> medium)
    && (p == ResearchLow <==> clear && (g.strength == Weak || g.strength == Insufficient))
  }

  /** Assessment changes only readiness, semantics and qualification; a known candidate is promoted by
      its evidence exactly as the tiers say, any other keeps what it brought. */
  lemma AssessmentMeans(inputs: Inputs, h: Candidate)
    ensures var a, d := Assess(inputs, h), Graded(h);
      && a.(semantics := d.semantics, qualification := d.qualification) == d
      && (!IsKnown(inputs, h) ==> a == d)
      && (IsKnown(inputs, h) ==>
           var g := inputs.grade(d);
           && a.semantics == Some(inputs.semantics(d)) && a.qualification.Some?
           && var q := a.qualification.value;
           && q.confidence == g.confidence && q.strength == g.strength && q.researchScore == g.score
           && q.suppressionReasons == g.suppression && TierMeans(q.promotion, d, g))
  {
  }

  // ----- The calibrated list

  /** a comes before b in the calibrated list, or nothing compared differs. */
  predicate PresentedBefore(a: Candidate, b: Candidate) {
    var p, q := TierOf(a), TierOf(b);
    p > q || (p == q && (Scored(a) > Scored(b) || (Scored(a) == Scored(b) &&
      (a.totalScore > b.totalScore || (a.totalScore == b.totalScore && !StringLess(b.id, a.id))))))
  }

  function TierOf(m: Candidate): nat {
    if m.qualification.Some? then PromotionRank(m.qualification.value.promotion) else 0
  }

  function Scored(m: Candidate): nat {
    if m.qualification.Some? then m.qualification.value.researchScore else 0
  }

  lemma ThreeNumbers(a: seq<int>, b: seq<int>)
    requires |a| == |b| == 3
    ensures NumbersLess(a, b) <==>
        a[0] < b[0] || (a[0] == b[0] && (a[1] < b[1] || (a[1] == b[1] && a[2] < b[2])))
    ensures a == b <==> a[0] == b[0] && a[1] == b[1] && a[2] == b[2]
  {
    FirstNumber(a, b);
    FirstNumber(a[1..], b[1..]);
    FirstNumber(a[2..], b[2..]);
    assert a[1..][1..] == a[2..] && a[2..][1..] == [] && b[1..][1..] == b[2..] && b[2..][1..] == [];
    assert !NumbersLess([], []);
    hide NumbersLess;
  }

  lemma PresentationMeans(a: Candidate, b: Candidate)
    ensures LessEq(ByPresentation()(a), ByPresentation()(b)) <==> PresentedBefore(a, b)
  {
    ThreeNumbers(ByPresentation()(b).numbers, ByPresentation()(a).numbers);
    OneText(b.id, a.id);
    PromotionOrder();
    hide NumbersLess, TextsLess, StringLess;
  }

  /** The calibrated list holds every candidate as assessed, the most promoted first. */
  lemma CalibratedListMeans(inputs: Inputs, hypotheses: seq<Candidate>)
    requires Complete(inputs, hypotheses)
    ensures var list := Calibrated(inputs, hypotheses).value.hypotheses;
      && |list| == |hypotheses|
      && (forall a :: a in list <==> exists h :: h in hypotheses && a == Assess(inputs, h))
      && forall i, j :: 0 <= i < j < |list| ==> PresentedBefore(list[i], list[j])
  {
    var all := AssessAll(inputs, Ordered(hypotheses));
    var list := SortBy(all, ByPresentation());
    OrderedMembers(hypotheses);
    AssessedMembers(inputs, Ordered(hypotheses));
    SortBySorts(all, ByPresentation());
    MultisetMembers(all, list);
    assert Calibrated(inputs, hypotheses).value.hypotheses == list;
    hide Calibrated, Assess, Ordered, PresentedBefore, Complete;
    forall i, j | 0 <= i < j < |list| ensures PresentedBefore(list[i], list[j]) {
      PresentationMeans(list[i], list[j]);
    }
  }

  // ----- One cluster

  /** A member that counts for the tier of its cluster. */
  predicate Counts(m: Candidate) {
    m.qualification.Some? && m.qualification.value.promotion != Suppressed
  }

  ghost predicate Holds(members: set<Candidate>, p: Promotion) {
    exists m :: m in members && m.qualification.Some? && m.qualification.value.promotion == p
  }

  /** The tier of a cluster, exactly, from the tiers and confidences of its members and the number of
      its independent supports. */
  ghost predicate ClusterTier(c: Cluster, members: set<Candidate>) {
    var sure := exists m :: m in members && Counts(m) && m.qualification.value.confidence == High;
    var several := |c.supports| >= 2;
    var above := Holds(members, Promotion.TestReady) || Holds(members, Promotion.ReviewRequired);
    var lower := Holds(members, ResearchMedium) || Holds(members, ResearchLow);
    && (c.promotion == Promotion.TestReady <==> Holds(members, Promotion.TestReady))
    && (c.promotion == Promotion.ReviewRequired <==>
         Holds(members, Promotion.ReviewRequired) && !Holds(members, Promotion.TestReady))
    && (c.promotion == ResearchHigh <==> !above && (Holds(members, ResearchHigh) || (several && lower && sure)))
    && (c.promotion == ResearchMedium <==>
         !above && !Holds(members, ResearchHigh)
             && (if several then lower && !sure else Holds(members, ResearchMedium)))
    && (c.promotion == ResearchLow <==>
         !above && !Holds(members, ResearchHigh) && !Holds(members, ResearchMedium)
         && Holds(members, ResearchLow) && !several)
  }

  lemma {:induction false} BestIsHeld(visible: seq<Candidate>)
    requires forall m :: m in visible ==> IsVisible(m)
    ensures forall m :: m in visible ==> PromotionRank(PromotionOf(m)) <= PromotionRank(BestPromotion(visible))
    ensures visible == [] <==> BestPromotion(visible) == Suppressed
    ensures visible != [] ==> exists m :: m in visible && PromotionOf(m) == BestPromotion(visible)
  {
    if visible != [] {
      BestIsHeld(visible[1..]);
      assert visible == [visible[0]] + visible[1..];
      assert visible[0] in visible;
    }
  }

  lemma {:induction false} ConfidenceIsBest(items: seq<Candidate>)
    requires forall m :: m in items ==> m.qualification.Some?
    ensures forall m :: m in items ==>
        ConfidenceRank(m.qualification.value.confidence) <= ConfidenceRank(BestConfidence(items))
    ensures if items == [] then BestConfidence(items) == Low
      else exists m :: m in items && m.qualification.value.confidence == BestConfidence(items)
  {
    if items != [] {
      ConfidenceIsBest(items[1..]);
      assert items == [items[0]] + items[1..];
      assert items[0] in items;
    }
  }

  lemma {:induction false} StrengthIsBest(items: seq<Candidate>)
    requires forall m :: m in items ==> m.qualification.Some?
    ensures forall m :: m in items ==>
        StrengthRank(m.qualification.value.strength) <= StrengthRank(BestStrength(items))
    ensures if items == [] then BestStrength(items) == Insufficient
      else exists m :: m in items && m.qualification.value.strength == BestStrength(items)
  {
    if items != [] {
      StrengthIsBest(items[1..]);
      assert items == [items[0]] + items[1..];
      assert items[0] in items;
    }
  }

  lemma {:induction false} ScoreIsBest(items: seq<Candidate>)
    requires items != []
    ensures forall m :: m in items ==> Scored(m) <= BestScore(items)
    ensures exists m :: m in items && Scored(m) == BestScore(items)
  {
    assert items == [items[0]] + items[1..];
    assert items[0] in items;
    if |items| > 1 {
      ScoreIsBest(items[1..]);
    }
  }

  lemma {:induction false} TotalIsHighest(items: seq<Candidate>)
    requires items != []
    ensures forall m :: m in items ==> m.totalScore <= HighestTotal(items)
    ensures exists m :: m in items && m.totalScore == HighestTotal(items)
  {
    assert items == [items[0]] + items[1..];
    assert items[0] in items;
    if |items| > 1 {
      TotalIsHighest(items[1..]);
    }
  }

  /** The ranks of confidence and strength ascend as their names say. */
  lemma RankOrders()
    ensures ConfidenceRank(Low) < ConfidenceRank(Medium) < ConfidenceRank(High)
    ensures StrengthRank(Insufficient) < StrengthRank(Weak) < StrengthRank(Moderate) < StrengthRank(Strong)
  {
  }

  /** Scores: the best member score plus three for each support beyond the first, at most nine, and
      the highest total. */
  ghost predicate ScoresMean(c: Cluster, members: set<Candidate>) {
    var bonus := if |c.supports| <= 1 then 0 else if |c.supports| == 2 then 3 else if |c.supports| == 3 then 6 else 9;
    && (exists m :: m in members && c.researchScore == Scored(m) + bonus)
    && (forall m :: m in members ==> Scored(m) + bonus <= c.researchScore)
    && (exists m :: m in members && c.highestScore == m.totalScore)
    && (forall m :: m in members ==> m.totalScore <= c.highestScore)
  }

  /** Confidence and strength are the best among the members that count. */
  ghost predicate EvidenceMeans(c: Cluster, members: set<Candidate>) {
    && (forall m :: m in members && Counts(m) ==>
         && ConfidenceRank(m.qualification.value.confidence) <= ConfidenceRank(c.confidence)
         && StrengthRank(m.qualification.value.strength) <= StrengthRank(c.strength))
    && (c.confidence == Low || exists m ::
        m in members && Counts(m) && m.qualification.value.confidence == c.confidence)
    && (c.strength == Insufficient || exists m ::
        m in members && Counts(m) && m.qualification.value.strength == c.strength)
  }

  /** Readiness, what blocks it, and why a cluster is suppressed. */
  ghost predicate ReadinessMeans(c: Cluster, members: set<Candidate>) {
    && (c.readiness == Readiness.TestReady <==>
         && (exists m :: m in members && Counts(m))
         && forall m :: m in members && Counts(m) ==> m.readiness == Readiness.TestReady && m.blockers == {})
    && (c.readiness == Readiness.ResearchOnly <==>
         forall m :: m in members && Counts(m) ==> m.readiness == Readiness.ResearchOnly)
    && (forall b :: b in c.blockers <==>
         c.readiness != Readiness.TestReady && exists m :: m in members && Counts(m) && b in m.blockers)
    && (forall r :: r in c.suppressionReasons <==>
         && (forall m :: m in members ==> !Counts(m))
         && exists m :: m in members && m.qualification.Some? && r in m.qualification.value.suppressionReasons)
  }

  /** The representative is the first of the members that count, or of all if none does; the cluster
      is named by its member of least id. */
  ghost predicate NamesMean(c: Cluster, members: set<Candidate>) {
    && (exists m :: m in members && m.id == c.representative
         && (forall k :: k in members && Counts(k) ==> Counts(m))
         && forall k :: k in members && (Counts(m) ==> Counts(k)) ==> PresentedBefore(m, k))
    && (exists m :: m in members && m.semantics == Some(c.semantics) && c.id == c.semantics.canonicalId
         && forall k :: k in members ==> !StringLess(k.id, m.id))
    && (forall i, j :: 0 <= i < j < |c.members| ==> !StringLess(c.members[j], c.members[i]))
    && (forall i :: 0 <= i < |c.members| ==> exists m :: m in members && m.id == c.members[i])
    && (forall m :: m in members ==> m.id in c.members)
  }

  lemma VisibleCounts(ordered: seq<Candidate>)
    ensures forall m :: m in Visible(ordered) <==> m in ordered && Counts(m)
  {
    VisibleMembers(ordered);
  }

  lemma TierOfCluster(ordered: seq<Candidate>, contexts: seq<Context>, independent: map<Signature, Support>,
      members: set<Candidate>)
    requires ordered != [] && ordered[0].semantics.Some? && forall m :: m in ordered <==> m in members
    ensures ClusterTier(Assemble(ordered, contexts, independent), members)
  {
    var visible := Visible(ordered);
    AssembledPromotion(ordered, contexts, independent);
    AssembledSupports(ordered, contexts, independent);
    VisibleCounts(ordered);
    BestIsHeld(visible);
    ConfidenceIsBest(visible);
    hide Assemble, Visible, BestPromotion, BestConfidence;
    HeldTiers(visible, members, BestPromotion(visible));
    SureIffBest(visible, members, BestConfidence(visible));
    assert visible == [] <==> BestPromotion(visible) == Suppressed;
    hide Holds, Counts, IsVisible, PromotionOf, PromotionRank, ConfidenceRank;
    TierCases(Assemble(ordered, contexts, independent), members, BestPromotion(visible), BestConfidence(visible));
  }

  lemma TierCases(c: Cluster, members: set<Candidate>, best: Promotion, confidence: Confidence)
    requires best != Suppressed ==> Holds(members, best)
    requires forall p :: p != Suppressed && PromotionRank(p) > PromotionRank(best) ==> !Holds(members, p)
    requires confidence == High <==> exists m :: m in members && Counts(m) && m.qualification.value.confidence == High
    requires c.promotion ==
      if (best == ResearchLow || best == ResearchMedium) && |c.supports| >= 2
      then (if confidence == High then ResearchHigh else ResearchMedium) else best
    ensures ClusterTier(c, members)
  {
    hide Holds, Counts;
  }

  lemma HeldTiers(visible: seq<Candidate>, members: set<Candidate>, best: Promotion)
    requires forall m :: m in visible <==> m in members && Counts(m)
    requires forall m :: m in visible ==> PromotionRank(PromotionOf(m)) <= PromotionRank(best)
    requires visible == [] <==> best == Suppressed
    requires visible != [] ==> exists m :: m in visible && PromotionOf(m) == best
    ensures best != Suppressed ==> Holds(members, best)
    ensures forall p :: p != Suppressed && PromotionRank(p) > PromotionRank(best) ==> !Holds(members, p)
  {
    if visible != [] {
      var m :| m in visible && PromotionOf(m) == best;
      assert m in members && m.qualification.value.promotion == best;
    }
    forall p | p != Suppressed && PromotionRank(p) > PromotionRank(best) ensures !Holds(members, p) {
      forall m | m in members && m.qualification.Some? ensures m.qualification.value.promotion != p {
        assert Counts(m) ==> m in visible;
      }
    }
  }

  lemma SureIffBest(visible: seq<Candidate>, members: set<Candidate>, best: Confidence)
    requires forall m :: m in visible <==> m in members && Counts(m)
    requires forall m :: m in visible ==> m.qualification.Some?
    requires forall m :: m in visible ==> ConfidenceRank(m.qualification.value.confidence) <= ConfidenceRank(best)
    requires if visible == [] then best == Low else exists m :: m in visible && m.qualification.value.confidence == best
    ensures best == High <==> exists m :: m in members && Counts(m) && m.qualification.value.confidence == High
  {
    if visible != [] {
      var m :| m in visible && m.qualification.value.confidence == best;
      assert m in members && Counts(m);
    }
    if m :| m in members && Counts(m) && m.qualification.value.confidence == High {
      assert m in visible;
    }
  }

  lemma ScoresOfCluster(ordered: seq<Candidate>, contexts: seq<Context>, independent: map<Signature, Support>,
      members: set<Candidate>)
    requires ordered != [] && ordered[0].semantics.Some? && forall m :: m in ordered <==> m in members
    ensures ScoresMean(Assemble(ordered, contexts, independent), members)
  {
    ScoreIsBest(ordered);
    TotalIsHighest(ordered);
    var c := Assemble(ordered, contexts, independent);
    assert c.researchScore == BestScore(ordered) + Bonus(|independent|) && c.highestScore == HighestTotal(ordered);
    assert c.supports == independent;
    hide Assemble, BestScore, HighestTotal;
    var m :| m in ordered && Scored(m) == BestScore(ordered);
    assert m in members;
    var k :| k in ordered && k.totalScore == HighestTotal(ordered);
    assert k in members;
  }

  lemma EvidenceOfCluster(ordered: seq<Candidate>, contexts: seq<Context>, independent: map<Signature, Support>,
      members: set<Candidate>)
    requires ordered != [] && ordered[0].semantics.Some? && forall m :: m in ordered <==> m in members
    ensures EvidenceMeans(Assemble(ordered, contexts, independent), members)
  {
    var visible := Visible(ordered);
    var c := Assemble(ordered, contexts, independent);
    assert c.confidence == BestConfidence(visible) && c.strength == BestStrength(visible);
    hide Assemble, BestConfidence, BestStrength, Visible;
    VisibleCounts(ordered);
    ConfidenceIsBest(visible);
    StrengthIsBest(visible);
    if visible != [] {
      var m :| m in visible && m.qualification.value.confidence == BestConfidence(visible);
      assert m in members && Counts(m);
      var k :| k in visible && k.qualification.value.strength == BestStrength(visible);
      assert k in members && Counts(k);
    }
  }

  lemma ReadinessOfCluster(ordered: seq<Candidate>, contexts: seq<Context>, independent: map<Signature, Support>,
      members: set<Candidate>)
    requires ordered != [] && ordered[0].semantics.Some? && forall m :: m in ordered <==> m in members
    ensures ReadinessMeans(Assemble(ordered, contexts, independent), members)
  {
    var visible := Visible(ordered);
    VisibleCounts(ordered);
    var c := Assemble(ordered, contexts, independent);
    assert c.readiness == ClusterReadiness(ordered);
    assert c.blockers == if c.readiness == Readiness.TestReady then {} else
        set m, b | m in visible && b in m.blockers :: b;
    assert c.suppressionReasons == if visible != [] then {} else
        set m, r | m in ordered && m.qualification.Some? && r in m.qualification.value.suppressionReasons :: r;
    hide Assemble;
    if visible != [] {
      assert visible[0] in members && Counts(visible[0]);
    }
    hide Visible;
  }

  lemma NamesAssembled(ordered: seq<Candidate>, contexts: seq<Context>, independent: map<Signature, Support>)
    requires ordered != [] && ordered[0].semantics.Some?
    ensures var c := Assemble(ordered, contexts, independent);
      && c.representative == Representative(ordered).id
      && c.semantics == ordered[0].semantics.value && c.id == c.semantics.canonicalId
      && |c.members| == |ordered| && forall i :: 0 <= i < |ordered| ==> c.members[i] == ordered[i].id
  {
    hide Representative, Visible, ClusterReadiness, ClusterPromotion;
  }

  lemma NamesOfCluster(ordered: seq<Candidate>, contexts: seq<Context>, independent: map<Signature, Support>,
      members: set<Candidate>)
    requires ordered != [] && ordered[0].semantics.Some? && forall m :: m in ordered <==> m in members
    requires forall i, j :: 0 <= i < j < |ordered| ==> !StringLess(ordered[j].id, ordered[i].id)
    ensures NamesMean(Assemble(ordered, contexts, independent), members)
  {
    var c, m := Assemble(ordered, contexts, independent), Representative(ordered);
    NamesAssembled(ordered, contexts, independent);
    hide Assemble, Representative, PresentedBefore, StringLess;
    RepresentativeComesFirst(ordered);
    RepresentativeIsMember(ordered);
    assert m in members && ordered[0] in members;
    forall k | k in members ensures !StringLess(k.id, ordered[0].id) && k.id in c.members {
      var i :| 0 <= i < |ordered| && ordered[i] == k;
      assert c.members[i] == k.id;
      StringTotal(k.id, k.id);
    }
  }

  lemma RepresentativeComesFirst(ordered: seq<Candidate>)
    requires ordered != []
    ensures var m := Representative(ordered);
      && (forall k :: k in ordered && Counts(k) ==> Counts(m))
      && forall k :: k in ordered && (Counts(m) ==> Counts(k)) ==> PresentedBefore(m, k)
  {
    VisibleCounts(ordered);
    var pool := if Visible(ordered) != [] then Visible(ordered) else ordered;
    var sorted := SortBy(pool, ByPresentation());
    SortBySorts(pool, ByPresentation());
    MultisetMembers(pool, sorted);
    var m := Representative(ordered);
    assert m == sorted[0] && sorted[0] in pool;
    hide Representative, PresentedBefore, LessEq, Visible;
    forall k | k in pool ensures PresentedBefore(m, k) {
      var i :| 0 <= i < |sorted| && sorted[i] == k;
      KeyTotal(ByPresentation()(m), ByPresentation()(m));
      PresentedItself(m);
      PresentationMeans(m, k);
    }
  }

  lemma PresentedItself(m: Candidate)
    ensures LessEq(ByPresentation()(m), ByPresentation()(m))
  {
    KeyTotal(ByPresentation()(m), ByPresentation()(m));
  }

  /** Everything a reported cluster says about the candidates of its fingerprint. */
  ghost predicate ClusterMeans(c: Cluster, members: set<Candidate>) {
    ClusterTier(c, members) && ScoresMean(c, members) && EvidenceMeans(c, members) && ReadinessMeans(c, members)
    && NamesMean(c, members)
  }

  /** Members come in id order. */
  lemma MembersAscend(inputs: Inputs, items: seq<Candidate>, fp: string)
    ensures var members := MembersFor(inputs, items, fp);
      forall i, j :: 0 <= i < j < |members| ==> !StringLess(members[j].id, members[i].id)
  {
    var members := MembersFor(inputs, items, fp);
    SortBySorts(Group(AssessAll(inputs, items), fp), ById());
    forall i, j | 0 <= i < j < |members| ensures !StringLess(members[j].id, members[i].id) {
      assert LessEq(ById()(members[i]), ById()(members[j]));
      OneText(members[j].id, members[i].id);
    }
  }

  /** Every field of every reported cluster, for every list of candidates with unique ids. */
  lemma ReportedClustersMean(inputs: Inputs, hypotheses: seq<Candidate>)
    requires UniqueIds(hypotheses) && Complete(inputs, hypotheses)
    ensures forall c :: c in Calibrated(inputs, hypotheses).value.clusters ==>
        ClusterMeans(c, ClassOf(inputs, hypotheses, c.semantics.fingerprint))
  {
    hide ClusterFor, Contexts, MembersFor, AssessAll, Fingerprints, Ordered, Calibrated, Complete, Assess, Known,
        ClassOf, Assemble, UniqueIds, ClusterTier, ScoresMean, EvidenceMeans, ReadinessMeans, NamesMean;
    var items := Ordered(hypotheses);
    ClustersAreFingerprintClasses(inputs, hypotheses);
    forall c | c in Calibrated(inputs, hypotheses).value.clusters
      ensures ClusterMeans(c, ClassOf(inputs, hypotheses, c.semantics.fingerprint))
    {
      var fp := c.semantics.fingerprint;
      var contexts := AssembledFor(inputs, items, fp);
      var members, class_ := MembersFor(inputs, items, fp), ClassOf(inputs, hypotheses, fp);
      ClassMembers(inputs, hypotheses, fp);
      MembersAscend(inputs, items, fp);
      TierOfCluster(members, contexts, c.supports, class_);
      ScoresOfCluster(members, contexts, c.supports, class_);
      EvidenceOfCluster(members, contexts, c.supports, class_);
      ReadinessOfCluster(members, contexts, c.supports, class_);
      NamesOfCluster(members, contexts, c.supports, class_);
    }
  }

  /** The fresh grade of a candidate, for the consequences below. */
  function GradeOf(inputs: Inputs, h: Candidate): Grade {
    inputs.grade(Graded(h))
  }

  /** The candidates that a cluster is about. */
  ghost predicate IsAbout(inputs: Inputs, hypotheses: seq<Candidate>, c: Cluster, h: Candidate) {
    h in hypotheses && IsKnown(inputs, h) && inputs.semantics(Graded(h)).fingerprint == c.semantics.fingerprint
  }

  lemma ClassIsAbout(inputs: Inputs, hypotheses: seq<Candidate>, c: Cluster)
    requires UniqueIds(hypotheses) && Complete(inputs, hypotheses)
    ensures forall m :: m in ClassOf(inputs, hypotheses, c.semantics.fingerprint) <==>
        exists h :: IsAbout(inputs, hypotheses, c, h) && m == Assess(inputs, h)
  {
    ClassMembers(inputs, hypotheses, c.semantics.fingerprint);
    var class_ := ClassOf(inputs, hypotheses, c.semantics.fingerprint);
    hide Complete, UniqueIds, AssessAll, MembersFor, Ordered;
    forall m | m in class_ ensures exists h :: IsAbout(inputs, hypotheses, c, h) && m == Assess(inputs, h) {
      var h :| h in hypotheses && HasFingerprint(Assess(inputs, h), c.semantics.fingerprint) && m == Assess(inputs, h);
      AssessKeeps(inputs, h);
      AssessmentMeans(inputs, h);
    }
    forall h | IsAbout(inputs, hypotheses, c, h) ensures Assess(inputs, h) in class_ {
      AssessmentMeans(inputs, h);
    }
  }

  /** A cluster with fewer than two supports is RESEARCH_LOW exactly when one of its candidates is not
      suppressed and none of those has more than weak evidence. */
  lemma LowClustersAreWeak(inputs: Inputs, hypotheses: seq<Candidate>)
    requires UniqueIds(hypotheses) && Complete(inputs, hypotheses)
    ensures forall c :: c in Calibrated(inputs, hypotheses).value.clusters && |c.supports| < 2 ==>
        (c.promotion == ResearchLow <==> IsWeak(inputs, hypotheses, c))
  {
    ReportedClustersMean(inputs, hypotheses);
    hide Calibrated, Complete, UniqueIds, ClusterTier, ScoresMean, EvidenceMeans, ReadinessMeans, NamesMean, IsWeak,
        ClassOf;
    forall c | c in Calibrated(inputs, hypotheses).value.clusters && |c.supports| < 2
      ensures c.promotion == ResearchLow <==> IsWeak(inputs, hypotheses, c)
    {
      WeakMembers(inputs, hypotheses, c, ClassOf(inputs, hypotheses, c.semantics.fingerprint));
    }
  }

  /** Some candidate the cluster is about is not suppressed, and none of those has more than weak
      evidence. */
  ghost predicate IsWeak(inputs: Inputs, hypotheses: seq<Candidate>, c: Cluster) {
    && (exists h :: IsAbout(inputs, hypotheses, c, h) && GradeOf(inputs, h).suppression == {})
    && forall h :: IsAbout(inputs, hypotheses, c, h) && GradeOf(inputs, h).suppression == {} ==>
         GradeOf(inputs, h).strength == Weak || GradeOf(inputs, h).strength == Insufficient
  }

  lemma WeakMembers(inputs: Inputs, hypotheses: seq<Candidate>, c: Cluster, members: set<Candidate>)
    requires UniqueIds(hypotheses) && Complete(inputs, hypotheses)
    requires members == ClassOf(inputs, hypotheses, c.semantics.fingerprint)
    requires ClusterTier(c, members) && |c.supports| < 2
    ensures c.promotion == ResearchLow <==> IsWeak(inputs, hypotheses, c)
  {
    ClassIsAbout(inputs, hypotheses, c);
    hide Complete, UniqueIds, ClassOf, Assess, IsAbout;
    forall h | IsAbout(inputs, hypotheses, c, h)
      ensures Assess(inputs, h) in members && Assess(inputs, h).qualification.Some?
      ensures TierMeans(Assess(inputs, h).qualification.value.promotion, Graded(h), GradeOf(inputs, h))
    {
      AboutIsKnown(inputs, hypotheses, c, h);
      AssessmentMeans(inputs, h);
    }
    LowIffNoneBetter(members, c);
  }

  lemma AboutIsKnown(inputs: Inputs, hypotheses: seq<Candidate>, c: Cluster, h: Candidate)
    requires IsAbout(inputs, hypotheses, c, h)
    ensures IsKnown(inputs, h)
  {
  }

  lemma LowIffNoneBetter(members: set<Candidate>, c: Cluster)
    requires ClusterTier(c, members) && |c.supports| < 2
    ensures c.promotion == ResearchLow <==>
      && (exists m :: m in members && Counts(m))
      && forall m :: m in members && Counts(m) ==> m.qualification.value.promotion == ResearchLow
  {
    if m :| m in members && Counts(m) && m.qualification.value.promotion != ResearchLow {
      assert Holds(members, m.qualification.value.promotion);
    }
  }
}
