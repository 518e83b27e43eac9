/** Provenance, promotion and readiness of calibrated clusters, for every candidate list. */
module ClusteringProperties {
  import opened Domain
  import opened Ordering
  import opened Ranking
  import opened Supports
  import opened Clustering
  import RankingProperties

  // ----- Promotion and readiness of one cluster

  lemma {:induction false} BestPromotionIsMaximum(items: seq<Candidate>)
    ensures forall c :: c in items ==> PromotionRank(PromotionOf(c)) <= PromotionRank(BestPromotion(items))
    ensures BestPromotion(items) != Suppressed ==> exists c :: c in items && PromotionOf(c) == BestPromotion(items)
  {
    if items != [] {
      BestPromotionIsMaximum(items[1..]);
      assert items == [items[0]] + items[1..];
      assert items[0] in items;
    }
  }

  /** A cluster is suppressed exactly when every member is. */
  lemma SuppressedIffAllMembersAre(ordered: seq<Candidate>, contexts: seq<Context>,
      independent: map<Signature, Support>)
    requires ordered != [] && ordered[0].semantics.Some?
    ensures Assemble(ordered, contexts, independent).promotion == Suppressed <==> forall c :: c in ordered ==>
        !IsVisible(c)
  {
    var visible := Visible(ordered);
    AssembledPromotion(ordered, contexts, independent);
    VisibleMembers(ordered);
    BestPromotionIsMaximum(visible);
    PromotionCases(visible, |independent|);
    NothingVisible(|independent|);
    hide Assemble, Visible, BestPromotion, BestConfidence, ClusterPromotion, IsVisible, PromotionOf;
    if c :| c in ordered && IsVisible(c) {
      VisibleIsPromoted(c);
      assert c in visible;
    }
  }

  lemma NothingVisible(supportCount: nat)
    ensures ClusterPromotion([], supportCount) == Suppressed
  {
  }

  lemma AssembledPromotion(ordered: seq<Candidate>, contexts: seq<Context>, independent: map<Signature, Support>)
    requires ordered != [] && ordered[0].semantics.Some?
    ensures Assemble(ordered, contexts, independent).promotion == ClusterPromotion(Visible(ordered), |independent|)
  {
  }

  /** A cluster never ranks below a visible member.  It ranks above all of them only by
      independent support, with at least two supports and no further than RESEARCH_HIGH. */
  lemma PromotionBounds(ordered: seq<Candidate>, contexts: seq<Context>, independent: map<Signature, Support>,
      c: Candidate)
    requires ordered != [] && ordered[0].semantics.Some?
    requires c in ordered && IsVisible(c)
    ensures var p := Assemble(ordered, contexts, independent).promotion;
      && PromotionRank(PromotionOf(c)) <= PromotionRank(p)
      && ((exists m :: m in ordered && IsVisible(m) && PromotionOf(m) == p)
          || (|independent| >= 2 && p == ResearchMedium)
          || (|independent| >= 2 && p == ResearchHigh && exists m ::
              m in ordered && IsVisible(m) && m.qualification.value.confidence == High))
  {
    var visible := Visible(ordered);
    AssembledPromotion(ordered, contexts, independent);
    VisibleMembers(ordered);
    BestPromotionIsMaximum(visible);
    VisibleIsPromoted(c);
    PromotionCases(visible, |independent|);
    BestConfidenceIsHeld(visible);
    hide Assemble, Visible, BestPromotion, BestConfidence, ClusterPromotion, IsVisible, PromotionOf;
    assert c in visible;
    var best :| best in visible && PromotionOf(best) == BestPromotion(visible);
    assert best in ordered && IsVisible(best);
    if BestConfidence(visible) == High {
      var m :| m in visible && m.qualification.Some? && m.qualification.value.confidence == High;
      assert m in ordered && IsVisible(m);
    }
  }

  lemma PromotionCases(visible: seq<Candidate>, supportCount: nat)
    ensures var best, p := BestPromotion(visible), ClusterPromotion(visible, supportCount);
      && PromotionRank(best) <= PromotionRank(p)
      && (|| p == best
          || (supportCount >= 2 && p == ResearchMedium)
          || (supportCount >= 2 && p == ResearchHigh && BestConfidence(visible) == High))
  {
    hide BestPromotion, BestConfidence;
  }

  lemma VisibleIsPromoted(c: Candidate)
    requires IsVisible(c)
    ensures PromotionRank(PromotionOf(c)) > 0
  {
  }

  lemma {:induction false} BestConfidenceIsHeld(items: seq<Candidate>)
    ensures BestConfidence(items) == High
      ==> exists m :: m in items && m.qualification.Some? && m.qualification.value.confidence == High
  {
    if items != [] {
      BestConfidenceIsHeld(items[1..]);
      assert items == [items[0]] + items[1..];
      assert items[0] in items;
    }
  }

  /** TEST_READY readiness: some member is visible, and every visible one is ready and unblocked. */
  lemma ReadinessIsUnanimous(ordered: seq<Candidate>, contexts: seq<Context>, independent: map<Signature, Support>)
    requires ordered != [] && ordered[0].semantics.Some?
    ensures Assemble(ordered, contexts, independent).readiness == Readiness.TestReady <==>
      (exists c :: c in ordered && IsVisible(c)) && forall c :: c in ordered && IsVisible(c) ==> IsReady(c)
  {
    VisibleMembers(ordered);
  }

  /** Across qualification and clustering: a TEST_READY promotion rests on an actual member that
      is ready and carries no blocker, because blocked candidates are demoted before grading. */
  lemma TestReadyPromotionHasAReadyMember(inputs: Inputs, items: seq<Candidate>, ordered: seq<Candidate>,
      contexts: seq<Context>, independent: map<Signature, Support>)
    requires ordered != [] && ordered[0].semantics.Some?
    requires forall c :: c in ordered ==> c in AssessAll(inputs, items) && Known(inputs, c)
    requires Assemble(ordered, contexts, independent).promotion == Promotion.TestReady
    ensures exists c :: c in ordered && IsReady(c) && IsVisible(c) && c.qualification.value.suppressionReasons == {}
  {
    AssembledPromotion(ordered, contexts, independent);
    AssessedMembers(inputs, items);
    hide Assemble, Visible, BestPromotion, BestConfidence, Assess, Known, AssessAll;
    VisibleMembers(ordered);
    BestPromotionIsMaximum(Visible(ordered));
    var best :| best in Visible(ordered) && PromotionOf(best) == Promotion.TestReady;
    assert best in ordered;
    var h :| h in items && best == Assess(inputs, h);
    GradedTestReady(inputs, h);
  }

  lemma GradedTestReady(inputs: Inputs, h: Candidate)
    requires Known(inputs, Assess(inputs, h)) && PromotionOf(Assess(inputs, h)) == Promotion.TestReady
    ensures IsReady(Assess(inputs, h)) && Assess(inputs, h).qualification.value.suppressionReasons == {}
  {
  }

  lemma RepresentativeIsMember(ordered: seq<Candidate>)
    requires ordered != []
    ensures Representative(ordered) in ordered
    ensures (exists c :: c in ordered && IsVisible(c)) ==> IsVisible(Representative(ordered))
  {
    VisibleMembers(ordered);
    var pool := if Visible(ordered) != [] then Visible(ordered) else ordered;
    SortBySorts(pool, ByPresentation());
    MultisetMembers(pool, SortBy(pool, ByPresentation()));
    assert SortBy(pool, ByPresentation())[0] in pool;
  }

  // ----- Provenance across the whole calibration

  /** Candidates with one id are the same candidate. */
  ghost predicate UniqueIds(items: seq<Candidate>) {
    forall c, d :: c in items && d in items && c.id == d.id ==> c == d
  }

  ghost predicate HasContext(inputs: Inputs, items: seq<Candidate>, c: Candidate) {
    c.id in Contexts(inputs, items) && Contexts(inputs, items)[c.id] == ContextOf(inputs, c)
  }

  lemma {:induction false} ContextTable(inputs: Inputs, items: seq<Candidate>)
    requires UniqueIds(items)
    ensures forall id :: id in Contexts(inputs, items) ==> exists c :: c in items && c.id == id && Known(inputs, c)
    ensures forall c :: c in items && Known(inputs, c) ==> HasContext(inputs, items, c)
  {
    if items != [] {
      var n := |items| - 1;
      assert forall c :: c in items <==> c in items[..n] || c == items[n] by {
        assert items == items[..n] + [items[n]];
      }
      ContextTable(inputs, items[..n]);
    }
  }

  lemma {:induction false} SupportTable(inputs: Inputs, items: seq<Candidate>)
    requires UniqueIds(items)
    ensures forall c :: c in items ==>
        c.id in SupportLists(inputs, items) && SupportLists(inputs, items)[c.id] == UnitsOf(inputs, c)
  {
    if items != [] {
      var n := |items| - 1;
      assert forall c :: c in items <==> c in items[..n] || c == items[n] by {
        assert items == items[..n] + [items[n]];
      }
      SupportTable(inputs, items[..n]);
    }
  }

  lemma OrderedMembers(hypotheses: seq<Candidate>)
    ensures forall c :: c in Ordered(hypotheses) <==> c in hypotheses
    ensures |Ordered(hypotheses)| == |hypotheses|
  {
    SortBySorts(hypotheses, ById());
    MultisetMembers(hypotheses, Ordered(hypotheses));
  }

  lemma AssessedMembers(inputs: Inputs, items: seq<Candidate>)
    ensures forall c :: c in items ==> Assess(inputs, c) in AssessAll(inputs, items)
    ensures forall c :: c in AssessAll(inputs, items) ==> exists h :: h in items && c == Assess(inputs, h)
  {
    forall c | c in items ensures Assess(inputs, c) in AssessAll(inputs, items) {
      var i :| 0 <= i < |items| && items[i] == c;
      assert AssessAll(inputs, items)[i] == Assess(inputs, c);
    }
  }

  /** Calibration fails exactly on a candidate that brings old semantics along but whose invariant
      or family is no longer known: it is grouped without a context. */
  lemma CalibrationFailsIffStale(inputs: Inputs, hypotheses: seq<Candidate>)
    requires UniqueIds(hypotheses)
    ensures Calibrated(inputs, hypotheses).None? <==>
        exists h :: h in hypotheses && !Known(inputs, h) && h.semantics.Some?
  {
    FailsIffIncomplete(inputs, hypotheses);
    OrderedMembers(hypotheses);
    hide *;
    if h :| h in hypotheses && !Known(inputs, h) && h.semantics.Some? {
      StaleIsIncomplete(inputs, hypotheses, h);
    }
    if forall h :: h in hypotheses && h.semantics.Some? ==> Known(inputs, h) {
      FreshIsComplete(inputs, hypotheses);
    }
  }

  lemma OrderedUniqueIds(hypotheses: seq<Candidate>)
    requires UniqueIds(hypotheses)
    ensures UniqueIds(Ordered(hypotheses))
  {
    OrderedMembers(hypotheses);
    hide Ordered;
  }

  lemma StaleIsIncomplete(inputs: Inputs, hypotheses: seq<Candidate>, h: Candidate)
    requires UniqueIds(hypotheses) && h in hypotheses && !Known(inputs, h) && h.semantics.Some?
    ensures !Complete(inputs, hypotheses)
  {
    var items := Ordered(hypotheses);
    OrderedUniqueIds(hypotheses);
    OrderedMembers(hypotheses);
    ContextTable(inputs, items);
    AssessedMembers(inputs, items);
    hide AssessAll, Contexts, Ordered;
    assert h in items;
    assert Assess(inputs, h) in AssessAll(inputs, items);
  }

  lemma FreshIsComplete(inputs: Inputs, hypotheses: seq<Candidate>)
    requires UniqueIds(hypotheses)
    requires forall h :: h in hypotheses && h.semantics.Some? ==> Known(inputs, h)
    ensures Complete(inputs, hypotheses)
  {
    var items := Ordered(hypotheses);
    OrderedUniqueIds(hypotheses);
    OrderedMembers(hypotheses);
    ContextTable(inputs, items);
    AssessedMembers(inputs, items);
    hide AssessAll, Contexts, Ordered, UniqueIds;
    forall c | c in AssessAll(inputs, items) && c.semantics.Some? ensures c.id in Contexts(inputs, items) {
      var h :| h in items && c == Assess(inputs, h);
      assert Known(inputs, h);
    }
  }

  lemma FailsIffIncomplete(inputs: Inputs, hypotheses: seq<Candidate>)
    ensures Calibrated(inputs, hypotheses).None? <==> !Complete(inputs, hypotheses)
  {
    hide Complete, Clusters, Ranked, SortedList;
  }

  lemma AssessKeeps(inputs: Inputs, h: Candidate)
    ensures Assess(inputs, h).id == h.id && Assess(inputs, h).observationIds == h.observationIds
    ensures Known(inputs, Assess(inputs, h)) <==> Known(inputs, h)
  {
  }

  lemma CompleteIsKnown(inputs: Inputs, hypotheses: seq<Candidate>, c: Candidate)
    requires UniqueIds(hypotheses) && Complete(inputs, hypotheses)
    requires c in AssessAll(inputs, Ordered(hypotheses)) && c.semantics.Some?
    ensures Known(inputs, c)
    ensures exists h :: h in hypotheses && c == Assess(inputs, h)
  {
    hide Contexts, AssessAll, Assess, Ordered, Known, HasContext;
    var items := Ordered(hypotheses);
    OrderedMembers(hypotheses);
    AssessedMembers(inputs, items);
    ContextTable(inputs, items);
    var h :| h in items && c == Assess(inputs, h);
    AssessKeeps(inputs, h);
    assert c.id in Contexts(inputs, items);
    var k :| k in items && k.id == c.id && Known(inputs, k);
    assert h.id == k.id;
  }

  /** The members of the cluster for a fingerprint, in id order. */
  ghost function MembersFor(inputs: Inputs, items: seq<Candidate>, fp: string): seq<Candidate> {
    SortBy(Group(AssessAll(inputs, items), fp), ById())
  }

  lemma MembersForMembers(inputs: Inputs, items: seq<Candidate>, fp: string)
    ensures forall c :: c in MembersFor(inputs, items, fp) <==> c in AssessAll(inputs, items) && HasFingerprint(c, fp)
    ensures fp in Fingerprints(AssessAll(inputs, items)) ==> MembersFor(inputs, items, fp) != []
  {
    GroupMembers(AssessAll(inputs, items), fp);
    SortBySorts(Group(AssessAll(inputs, items), fp), ById());
    MultisetMembers(Group(AssessAll(inputs, items), fp), MembersFor(inputs, items, fp));
  }

  lemma {:induction false} SelectAll(xs: seq<Cluster>)
    ensures Selected(xs, true, true) == xs
  {
    if xs != [] {
      SelectAll(xs[1..]);
      assert xs == [xs[0]] + xs[1..];
    }
  }

  ghost predicate AllContexts(inputs: Inputs, items: seq<Candidate>) {
    forall c :: c in AssessAll(inputs, items) && c.semantics.Some? ==> c.id in Contexts(inputs, items)
  }

  /** `clusters` holds one cluster per fingerprint and nothing else. */
  ghost predicate OnePerFingerprint(inputs: Inputs, items: seq<Candidate>, clusters: seq<Cluster>)
    requires AllContexts(inputs, items)
  {
    var fps := Fingerprints(AssessAll(inputs, items));
    && |clusters| == |fps|
    && Distinct(clusters)
    && (forall fp :: fp in fps ==> ClusterFor(inputs, items, fp) in clusters)
    && (forall c :: c in clusters ==>
         c.semantics.fingerprint in fps && c == ClusterFor(inputs, items, c.semantics.fingerprint))
  }

  lemma BuiltOnePerFingerprint(inputs: Inputs, items: seq<Candidate>, list: seq<string>)
    requires AllContexts(inputs, items)
    requires IsSortedList(list, Fingerprints(AssessAll(inputs, items)))
    ensures OnePerFingerprint(inputs, items, Clusters(inputs, items, list))
  {
    hide AssessAll, Fingerprints, ClusterFor, Contexts;
    var fps := Fingerprints(AssessAll(inputs, items));
    var built := Clusters(inputs, items, list);
    forall i | 0 <= i < |list| ensures built[i].semantics.fingerprint == list[i] {
      assert list[i] in fps;
      ClusterForFingerprint(inputs, items, list[i]);
    }
    forall i, j | 0 <= i < j < |list| ensures list[i] != list[j] {
      StringTotal(list[i], list[j]);
    }
    DistinctCardinality(list, fps);
    forall fp | fp in fps ensures ClusterFor(inputs, items, fp) in built {
      var i :| 0 <= i < |list| && list[i] == fp;
      assert built[i] == ClusterFor(inputs, items, fp);
    }
  }

  lemma PermutedOnePerFingerprint(inputs: Inputs, items: seq<Candidate>, built: seq<Cluster>, clusters: seq<Cluster>)
    requires AllContexts(inputs, items) && OnePerFingerprint(inputs, items, built)
    requires multiset(built) == multiset(clusters)
    ensures OnePerFingerprint(inputs, items, clusters)
  {
    hide AssessAll, Fingerprints, ClusterFor, AllContexts;
    MultisetMembers(built, clusters);
    DistinctCounts(built);
    CountsDistinct(clusters);
  }

  /** The reported clusters are exactly one per fingerprint. */
  lemma ClustersAreFingerprintClasses(inputs: Inputs, hypotheses: seq<Candidate>)
    requires Complete(inputs, hypotheses)
    ensures AllContexts(inputs, Ordered(hypotheses)) && Calibrated(inputs, hypotheses).Some?
    ensures OnePerFingerprint(inputs, Ordered(hypotheses), Calibrated(inputs, hypotheses).value.clusters)
  {
    hide AssessAll, Fingerprints, ClusterFor, Ordered, Contexts, Ranked, OnePerFingerprint, SortedList, IsSortedList;
    var items := Ordered(hypotheses);
    var fps := Fingerprints(AssessAll(inputs, items));
    SortedListAscends(fps);
    BuiltOnePerFingerprint(inputs, items, SortedList(fps));
    var built := Clusters(inputs, items, SortedList(fps));
    SelectAll(built);
    RankingProperties.RankedIsPermutation(built, true, true);
    PermutedOnePerFingerprint(inputs, items, built, Ranked(built, true, true));
  }

  lemma ClusterForFingerprint(inputs: Inputs, items: seq<Candidate>, fp: string)
    requires fp in Fingerprints(AssessAll(inputs, items))
    requires AllContexts(inputs, items)
    ensures ClusterFor(inputs, items, fp).semantics.fingerprint == fp
  {
    MembersForMembers(inputs, items, fp);
    assert MembersFor(inputs, items, fp)[0] in MembersFor(inputs, items, fp);
  }

  /** Member k of a cluster is a known candidate, kept with its own context. */
  ghost predicate KeptBy(inputs: Inputs, hypotheses: seq<Candidate>, c: Cluster, k: nat)
    requires k < |c.members| && k < |c.contexts|
  {
    exists h :: h in hypotheses && Known(inputs, h) && h.id == c.members[k] && c.contexts[k] == ContextOf(inputs, h)
      && HasFingerprint(Assess(inputs, h), c.semantics.fingerprint)
  }

  lemma ClusterForParts(inputs: Inputs, items: seq<Candidate>, fp: string)
    requires AllContexts(inputs, items) && fp in Fingerprints(AssessAll(inputs, items))
    ensures var members, c := MembersFor(inputs, items, fp), ClusterFor(inputs, items, fp);
      && (forall m :: m in members ==> m.id in Contexts(inputs, items) && m.id in SupportLists(inputs, items))
      && c.members == Ids(members) != []
      && c.contexts == Lookup(members, Contexts(inputs, items))
      && c.representative == Representative(members).id
      && c.supports == Merged(UnitsIn(Lookup(members, SupportLists(inputs, items))))
      && c.observationIds == set m, o | m in members && o in m.observationIds :: o
  {
    MembersForMembers(inputs, items, fp);
    AllHaveSupportLists(inputs, items);
  }

  /** One context per member, and nothing observed by a member is lost. */
  ghost predicate HasProvenance(inputs: Inputs, hypotheses: seq<Candidate>, c: Cluster) {
    && |c.contexts| == |c.members| > 0
    && (forall k :: 0 <= k < |c.members| ==> KeptBy(inputs, hypotheses, c, k))
    && c.observationIds == (set x, o | x in c.contexts && o in x.observationIds :: o)
    && c.representative in c.members
  }

  /** Calibration loses no provenance, whatever candidates come in. */
  lemma ClustersKeepProvenance(inputs: Inputs, hypotheses: seq<Candidate>)
    requires UniqueIds(hypotheses) && Complete(inputs, hypotheses)
    ensures forall c :: c in Calibrated(inputs, hypotheses).value.clusters ==> HasProvenance(inputs, hypotheses, c)
  {
    hide ClusterFor, Calibrated, Complete, UniqueIds, HasProvenance;
    ClustersAreFingerprintClasses(inputs, hypotheses);
    forall c | c in Calibrated(inputs, hypotheses).value.clusters ensures HasProvenance(inputs, hypotheses, c) {
      ClusterKeepsProvenance(inputs, hypotheses, c.semantics.fingerprint);
    }
  }

  lemma ClusterKeepsProvenance(inputs: Inputs, hypotheses: seq<Candidate>, fp: string)
    requires UniqueIds(hypotheses) && Complete(inputs, hypotheses)
    requires AllContexts(inputs, Ordered(hypotheses)) && fp in Fingerprints(AssessAll(inputs, Ordered(hypotheses)))
    ensures HasProvenance(inputs, hypotheses, ClusterFor(inputs, Ordered(hypotheses), fp))
  {
    hide ClusterFor, Contexts, SupportLists, Representative, MembersFor, AssessAll, Fingerprints, Ordered, Complete,
        UniqueIds, Merged;
    var items := Ordered(hypotheses);
    var c := ClusterFor(inputs, items, fp);
    ClusterForFingerprint(inputs, items, fp);
    var members := MembersFor(inputs, items, fp);
    MembersForMembers(inputs, items, fp);
    ClusterForParts(inputs, items, fp);
    RepresentativeIsMember(members);
    forall k | 0 <= k < |c.members|
        ensures KeptBy(inputs, hypotheses, c, k) && c.contexts[k].observationIds == members[k].observationIds {
      MemberContext(inputs, hypotheses, members[k]);
    }
    var i :| 0 <= i < |members| && members[i] == Representative(members);
    assert c.members[i] == c.representative;
    SameObservations(members, c.contexts);
  }

  lemma RepresentativeIsListed(inputs: Inputs, hypotheses: seq<Candidate>, c: Cluster)
    requires HasProvenance(inputs, hypotheses, c)
    ensures c.representative in c.members
  {
  }

  lemma SameObservations(members: seq<Candidate>, contexts: seq<Context>)
    requires |members| == |contexts|
    requires forall k :: 0 <= k < |members| ==> contexts[k].observationIds == members[k].observationIds
    ensures (set m, o | m in members && o in m.observationIds :: o) == set x, o | x in contexts
        && o in x.observationIds :: o
  {
    forall m, o | m in members && o in m.observationIds ensures exists x :: x in contexts && o in x.observationIds {
      var j :| 0 <= j < |members| && members[j] == m;
      assert contexts[j] in contexts;
    }
    forall x, o | x in contexts && o in x.observationIds ensures exists m :: m in members && o in m.observationIds {
      var j :| 0 <= j < |contexts| && contexts[j] == x;
      assert members[j] in members;
    }
  }

  lemma MemberContext(inputs: Inputs, hypotheses: seq<Candidate>, m: Candidate)
    requires UniqueIds(hypotheses) && Complete(inputs, hypotheses)
    requires m in AssessAll(inputs, Ordered(hypotheses)) && m.semantics.Some?
    ensures m.id in Contexts(inputs, Ordered(hypotheses))
    ensures exists h ::
        h in hypotheses && Known(inputs, h) && h.id == m.id && Assess(inputs, h) == m
            && HasItsContext(inputs, hypotheses, h, m)
  {
    hide AssessAll, Contexts, Ordered;
    CompleteIsKnown(inputs, hypotheses, m);
    var h :| h in hypotheses && m == Assess(inputs, h);
    AssessKeeps(inputs, h);
    OrderedMembers(hypotheses);
    ContextTable(inputs, Ordered(hypotheses));
    assert HasContext(inputs, Ordered(hypotheses), h);
    assert HasItsContext(inputs, hypotheses, h, m);
  }

  ghost predicate HasItsContext(inputs: Inputs, hypotheses: seq<Candidate>, h: Candidate, m: Candidate)
    requires m.id in Contexts(inputs, Ordered(hypotheses))
  {
    Contexts(inputs, Ordered(hypotheses))[m.id] == ContextOf(inputs, h)
        && ContextOf(inputs, h).observationIds == m.observationIds
  }

  /** Among the clusters, the candidate is a member of the one with its fingerprint and no other. */
  ghost predicate InOneCluster(inputs: Inputs, clusters: seq<Cluster>, h: Candidate) {
    && (forall c :: c in clusters ==>
        (h.id in c.members <==> HasFingerprint(Assess(inputs, h), c.semantics.fingerprint)))
    && (exists d :: d in clusters && HasFingerprint(Assess(inputs, h), d.semantics.fingerprint))
    && (forall c, d :: c in clusters && d in clusters && h.id in c.members && h.id in d.members ==> c == d)
  }

  /** Every known candidate lands in exactly one cluster: that of its fingerprint. */
  lemma EveryCandidateInExactlyOneCluster(inputs: Inputs, hypotheses: seq<Candidate>, h: Candidate)
    requires UniqueIds(hypotheses) && Complete(inputs, hypotheses)
    requires h in hypotheses && Known(inputs, h)
    ensures InOneCluster(inputs, Calibrated(inputs, hypotheses).value.clusters, h)
  {
    ClustersAreFingerprintClasses(inputs, hypotheses);
    ClustersKeepProvenance(inputs, hypotheses);
    KnownIsGraded(inputs, h);
    ListedInOwnCluster(inputs, hypotheses, h);
    hide *;
    var clusters := Calibrated(inputs, hypotheses).value.clusters;
    var fp := Assess(inputs, h).semantics.value.fingerprint;
    OwnCluster(inputs, Ordered(hypotheses), clusters, fp);
    forall c | c in clusters && h.id in c.members ensures c.semantics.fingerprint == fp {
      MemberHasFingerprint(inputs, hypotheses, c, h);
      OneFingerprint(Assess(inputs, h), c.semantics.fingerprint);
    }
    OneCluster(inputs, clusters, h, ClusterFor(inputs, Ordered(hypotheses), fp));
  }

  lemma OwnCluster(inputs: Inputs, items: seq<Candidate>, clusters: seq<Cluster>, fp: string)
    requires AllContexts(inputs, items) && OnePerFingerprint(inputs, items, clusters)
    requires fp in Fingerprints(AssessAll(inputs, items))
    ensures ClusterFor(inputs, items, fp) in clusters
    ensures forall c :: c in clusters && c.semantics.fingerprint == fp ==> c == ClusterFor(inputs, items, fp)
  {
    hide ClusterFor, AssessAll, Fingerprints, AllContexts;
  }

  lemma OneFingerprint(item: Candidate, fp: string)
    ensures HasFingerprint(item, fp) ==> item.semantics.Some? && item.semantics.value.fingerprint == fp
  {
  }

  lemma OneCluster(inputs: Inputs, clusters: seq<Cluster>, h: Candidate, own: Cluster)
    requires Assess(inputs, h).semantics.Some?
        && own.semantics.fingerprint == Assess(inputs, h).semantics.value.fingerprint
    requires own in clusters && h.id in own.members
    requires forall c :: c in clusters && c.semantics.fingerprint == own.semantics.fingerprint ==> c == own
    requires forall c :: c in clusters && h.id in c.members ==> c.semantics.fingerprint == own.semantics.fingerprint
    ensures InOneCluster(inputs, clusters, h)
  {
    hide Assess;
  }

  lemma MemberHasFingerprint(inputs: Inputs, hypotheses: seq<Candidate>, c: Cluster, h: Candidate)
    requires UniqueIds(hypotheses) && h in hypotheses && HasProvenance(inputs, hypotheses, c) && h.id in c.members
    ensures HasFingerprint(Assess(inputs, h), c.semantics.fingerprint)
  {
    hide Assess, Known;
    var k :| 0 <= k < |c.members| && c.members[k] == h.id;
    assert KeptBy(inputs, hypotheses, c, k);
  }

  lemma ListedInOwnCluster(inputs: Inputs, hypotheses: seq<Candidate>, h: Candidate)
    requires h in hypotheses && Assess(inputs, h).semantics.Some? && Assess(inputs, h).id == h.id
    requires AllContexts(inputs, Ordered(hypotheses))
    ensures var fp := Assess(inputs, h).semantics.value.fingerprint;
      && fp in Fingerprints(AssessAll(inputs, Ordered(hypotheses)))
      && h.id in ClusterFor(inputs, Ordered(hypotheses), fp).members
      && ClusterFor(inputs, Ordered(hypotheses), fp).semantics.fingerprint == fp
  {
    OrderedMembers(hypotheses);
    AssessedMembers(inputs, Ordered(hypotheses));
    hide ClusterFor, AssessAll, Ordered, Contexts, Assess, AllContexts;
    var a := Assess(inputs, h);
    var fp := a.semantics.value.fingerprint;
    assert fp in Fingerprints(AssessAll(inputs, Ordered(hypotheses)));
    ClusterForFingerprint(inputs, Ordered(hypotheses), fp);
    MemberIsListed(inputs, Ordered(hypotheses), a, fp);
  }

  lemma KnownIsGraded(inputs: Inputs, h: Candidate)
    requires Known(inputs, h)
    ensures Assess(inputs, h).semantics.Some? && Assess(inputs, h).id == h.id
  {
  }

  lemma MemberIsListed(inputs: Inputs, items: seq<Candidate>, a: Candidate, fp: string)
    requires a in AssessAll(inputs, items) && HasFingerprint(a, fp)
    requires fp in Fingerprints(AssessAll(inputs, items))
    requires AllContexts(inputs, items)
    ensures a.id in ClusterFor(inputs, items, fp).members
  {
    var members := MembersFor(inputs, items, fp);
    MembersForMembers(inputs, items, fp);
    var i :| 0 <= i < |members| && members[i] == a;
    assert Ids(members)[i] == a.id;
  }

  /** What the known candidates of one fingerprint supply. */
  ghost function Supplied(inputs: Inputs, hypotheses: seq<Candidate>, fp: string): set<Unit> {
    set h, u | h in hypotheses && Known(inputs, h) && HasFingerprint(Assess(inputs, h), fp)
        && u in UnitsOf(inputs, h) :: u
  }

  /** A cluster's supports are the merge of everything its members' workflow evidence supplied. */
  lemma ClusterSupportsAreMerged(inputs: Inputs, hypotheses: seq<Candidate>)
    requires UniqueIds(hypotheses) && Complete(inputs, hypotheses)
    ensures forall c :: c in Calibrated(inputs, hypotheses).value.clusters ==>
              c.supports == Merged(Supplied(inputs, hypotheses, c.semantics.fingerprint))
  {
    hide ClusterFor, Contexts, SupportLists, MembersFor, AssessAll, Fingerprints, Ordered, Calibrated, Complete,
        Merged, Assess, UnitsOf, Known;
    var items := Ordered(hypotheses);
    ClustersAreFingerprintClasses(inputs, hypotheses);
    forall c | c in Calibrated(inputs, hypotheses).value.clusters
      ensures c.supports == Merged(Supplied(inputs, hypotheses, c.semantics.fingerprint))
    {
      ClusterForParts(inputs, items, c.semantics.fingerprint);
      MembersSupply(inputs, hypotheses, c.semantics.fingerprint);
    }
  }

  lemma MembersSupply(inputs: Inputs, hypotheses: seq<Candidate>, fp: string)
    requires UniqueIds(hypotheses) && Complete(inputs, hypotheses)
    requires forall m :: m in MembersFor(inputs, Ordered(hypotheses), fp) ==>
        m.id in SupportLists(inputs, Ordered(hypotheses))
    ensures UnitsIn(Lookup(MembersFor(inputs, Ordered(hypotheses), fp), SupportLists(inputs, Ordered(hypotheses))))
         == Supplied(inputs, hypotheses, fp)
  {
    hide Contexts, SupportLists, MembersFor, AssessAll, Ordered, Complete, Assess, UnitsOf, Known;
    var items := Ordered(hypotheses);
    var members := MembersFor(inputs, items, fp);
    var lists := Lookup(members, SupportLists(inputs, items));
    MembersForMembers(inputs, items, fp);
    OrderedMembers(hypotheses);
    AssessedMembers(inputs, items);
    SupportTable(inputs, items);
    forall u | u in UnitsIn(lists) ensures u in Supplied(inputs, hypotheses, fp) {
      var list :| list in lists && u in list;
      var k :| 0 <= k < |members| && lists[k] == list;
      assert members[k] in members;
      CompleteIsKnown(inputs, hypotheses, members[k]);
      var h :| h in hypotheses && members[k] == Assess(inputs, h);
      AssessKeeps(inputs, h);
      assert h in items;
    }
    forall h, u | h in hypotheses && Known(inputs, h) && HasFingerprint(Assess(inputs, h), fp)
        && u in UnitsOf(inputs, h)
      ensures u in UnitsIn(lists)
    {
      AssessKeeps(inputs, h);
      assert Assess(inputs, h) in members;
      var k :| 0 <= k < |members| && members[k] == Assess(inputs, h);
      assert lists[k] == UnitsOf(inputs, h);
      assert lists[k] in lists;
    }
  }

  // ----- Grades of the reported clusters

  /** The assessed candidates of one fingerprint. */
  ghost function ClassOf(inputs: Inputs, hypotheses: seq<Candidate>, fp: string): set<Candidate> {
    set h | h in hypotheses && HasFingerprint(Assess(inputs, h), fp) :: Assess(inputs, h)
  }

  /** A promotion p of a class with visible member m: not below m, and held by some visible member
      or reached through at least two supports. */
  ghost predicate MayPromote(members: set<Candidate>, supportCount: nat, p: Promotion, m: Candidate) {
    && PromotionRank(PromotionOf(m)) <= PromotionRank(p)
    && (|| (exists k :: k in members && IsVisible(k) && PromotionOf(k) == p)
        || (supportCount >= 2 && p == ResearchMedium)
        || (supportCount >= 2 && p == ResearchHigh && exists k ::
            k in members && IsVisible(k) && k.qualification.value.confidence == High))
  }

  /** What promotion and readiness of a cluster say about its members. */
  ghost predicate GradedBy(c: Cluster, members: set<Candidate>) {
    && (c.promotion == Suppressed <==> forall m :: m in members ==> !IsVisible(m))
    && (forall m :: m in members && IsVisible(m) ==> MayPromote(members, |c.supports|, c.promotion, m))
    && (c.promotion == Promotion.TestReady ==> exists m :: m in members && IsVisible(m) && IsReady(m))
    && (c.readiness == Readiness.TestReady <==>
         (exists m :: m in members && IsVisible(m)) && forall m :: m in members && IsVisible(m) ==> IsReady(m))
  }

  lemma AssembledFor(inputs: Inputs, items: seq<Candidate>, fp: string) returns (contexts: seq<Context>)
    requires AllContexts(inputs, items) && fp in Fingerprints(AssessAll(inputs, items))
    ensures var members, c := MembersFor(inputs, items, fp), ClusterFor(inputs, items, fp);
      members != [] && members[0].semantics.Some? && c == Assemble(members, contexts, c.supports)
  {
    ClusterForParts(inputs, items, fp);
    MembersForMembers(inputs, items, fp);
    assert MembersFor(inputs, items, fp)[0] in MembersFor(inputs, items, fp);
    contexts := ClusterFor(inputs, items, fp).contexts;
  }

  lemma AssembledIsGraded(inputs: Inputs, items: seq<Candidate>, members: seq<Candidate>, contexts: seq<Context>,
      independent: map<Signature, Support>, class_: set<Candidate>)
    requires members != [] && members[0].semantics.Some?
    requires forall m :: m in members <==> m in class_
    requires forall m :: m in members ==> m in AssessAll(inputs, items) && Known(inputs, m)
    ensures GradedBy(Assemble(members, contexts, independent), class_)
  {
    var c := Assemble(members, contexts, independent);
    AssembledSupports(members, contexts, independent);
    hide Assemble, IsVisible, IsReady, PromotionOf, AssessAll, Known, MayPromote;
    SuppressedIffAllMembersAre(members, contexts, independent);
    ReadinessIsUnanimous(members, contexts, independent);
    if c.promotion == Promotion.TestReady {
      TestReadyPromotionHasAReadyMember(inputs, items, members, contexts, independent);
    }
    forall m | m in class_ && IsVisible(m) ensures MayPromote(class_, |independent|, c.promotion, m) {
      MemberMayPromote(members, contexts, independent, class_, m);
    }
  }

  lemma AssembledSupports(members: seq<Candidate>, contexts: seq<Context>, independent: map<Signature, Support>)
    requires members != [] && members[0].semantics.Some?
    ensures Assemble(members, contexts, independent).supports == independent
  {
  }

  lemma MemberMayPromote(members: seq<Candidate>, contexts: seq<Context>, independent: map<Signature, Support>,
      class_: set<Candidate>, m: Candidate)
    requires members != [] && members[0].semantics.Some? && m in members && IsVisible(m)
    requires forall k :: k in members <==> k in class_
    ensures MayPromote(class_, |independent|, Assemble(members, contexts, independent).promotion, m)
  {
    PromotionBounds(members, contexts, independent, m);
    hide Assemble, IsVisible, PromotionOf;
  }

  lemma ClassMembers(inputs: Inputs, hypotheses: seq<Candidate>, fp: string)
    requires UniqueIds(hypotheses) && Complete(inputs, hypotheses)
    ensures forall m :: m in MembersFor(inputs, Ordered(hypotheses), fp) <==> m in ClassOf(inputs, hypotheses, fp)
    ensures forall m :: m in ClassOf(inputs, hypotheses, fp) ==>
        m in AssessAll(inputs, Ordered(hypotheses)) && Known(inputs, m)
  {
    MembersForMembers(inputs, Ordered(hypotheses), fp);
    OrderedMembers(hypotheses);
    AssessedMembers(inputs, Ordered(hypotheses));
    hide MembersFor, AssessAll, Ordered, Assess, Known, Complete, UniqueIds;
    forall m | m in AssessAll(inputs, Ordered(hypotheses)) && HasFingerprint(m, fp)
      ensures Known(inputs, m) && m in ClassOf(inputs, hypotheses, fp)
    {
      CompleteIsKnown(inputs, hypotheses, m);
      var h :| h in hypotheses && m == Assess(inputs, h);
    }
  }

  /** Promotion and readiness of every reported cluster are decided by the assessed candidates of
      its fingerprint: suppressed if and only if all are, never below a visible one, above all of
      them only by support, ready if and only if some are visible and all of those are ready. */
  lemma ClustersAreGraded(inputs: Inputs, hypotheses: seq<Candidate>)
    requires UniqueIds(hypotheses) && Complete(inputs, hypotheses)
    ensures forall c :: c in Calibrated(inputs, hypotheses).value.clusters ==>
              GradedBy(c, ClassOf(inputs, hypotheses, c.semantics.fingerprint))
  {
    hide ClusterFor, Contexts, MembersFor, AssessAll, Fingerprints, Ordered, Calibrated, Complete, Assess, Known,
        GradedBy, ClassOf, Assemble, UniqueIds;
    var items := Ordered(hypotheses);
    ClustersAreFingerprintClasses(inputs, hypotheses);
    forall c | c in Calibrated(inputs, hypotheses).value.clusters
      ensures GradedBy(c, ClassOf(inputs, hypotheses, c.semantics.fingerprint))
    {
      var fp := c.semantics.fingerprint;
      var contexts := AssembledFor(inputs, items, fp);
      ClassMembers(inputs, hypotheses, fp);
      AssembledIsGraded(inputs, items, MembersFor(inputs, items, fp), contexts, c.supports,
          ClassOf(inputs, hypotheses, fp));
    }
  }

  /** Calibration does not depend on the order in which candidates arrive. */
  lemma CalibrationForgetsOrder(inputs: Inputs, hypotheses: seq<Candidate>, others: seq<Candidate>)
    requires UniqueIds(hypotheses) && multiset(hypotheses) == multiset(others)
    ensures Calibrated(inputs, hypotheses) == Calibrated(inputs, others)
  {
    assert Distinguishes(ById(), hypotheses) by {
      forall c, d | c in hypotheses && d in hypotheses && ById()(c) == ById()(d) ensures c == d {
        assert [c.id][0] == [d.id][0];
      }
    }
    SortByForgetsOrder(hypotheses, others, ById());
    assert Ordered(hypotheses) == Ordered(others);
    hide AssessAll, Contexts, SortedList, Ranked, Clusters;
  }

  /** A stale candidate on its own: semantics from an earlier run, and its invariant is gone. */
  lemma StaleExample(inputs: Inputs, old': Semantics)
    requires inputs.invariants == {}
    ensures var stale := Candidate("H1", "SECURITY_HYPOTHESIS", "f", "gone", "w", 0, Readiness.ResearchOnly, {}, {},
        Some(old'), None);
      Calibrated(inputs, [stale]).None?
  {
    var stale := Candidate("H1", "SECURITY_HYPOTHESIS", "f", "gone", "w", 0, Readiness.ResearchOnly, {}, {},
        Some(old'), None);
    assert stale in [stale];
    hide Calibrated;
    CalibrationFailsIffStale(inputs, [stale]);
  }
}
