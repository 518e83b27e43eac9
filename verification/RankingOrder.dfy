/** What the ranked queue prefers, in plain numbers: promotion, research score, supports, score, id. */
module RankingOrder {
  import opened Domain
  import opened Ordering
  import opened Ranking
  import opened RankingProperties

  /** The tiers in ascending order. */
  lemma PromotionOrder()
    ensures PromotionRank(Suppressed) < PromotionRank(ResearchLow) < PromotionRank(ResearchMedium)
    ensures PromotionRank(ResearchMedium) < PromotionRank(ResearchHigh)
    ensures PromotionRank(ResearchHigh) < PromotionRank(Promotion.ReviewRequired) < PromotionRank(Promotion.TestReady)
  {
  }

  /** c is shown before d, or they do not differ in anything that is compared. */
  predicate Precedes(c: Cluster, d: Cluster) {
    var p, q := PromotionRank(c.promotion), PromotionRank(d.promotion);
    p > q || (p == q &&
      (c.researchScore > d.researchScore || (c.researchScore == d.researchScore &&
        (|c.supports| > |d.supports| || (|c.supports| == |d.supports| &&
          (c.highestScore > d.highestScore || (c.highestScore == d.highestScore && !StringLess(d.id, c.id))))))))
  }

  lemma KeyMeans(c: Cluster, d: Cluster)
    ensures LessEq(BaseKey(c), BaseKey(d)) <==> Precedes(c, d)
  {
    FourNumbers(BaseKey(d).numbers, BaseKey(c).numbers);
    OneText(d.id, c.id);
  }

  lemma FourNumbers(a: seq<int>, b: seq<int>)
    requires |a| == |b| == 4
    ensures NumbersLess(a, b) <==>
        a[0] < b[0] || (a[0] == b[0] && (a[1] < b[1] || (a[1] == b[1] &&
          (a[2] < b[2] || (a[2] == b[2] && a[3] < b[3])))))
    ensures a == b <==> a[0] == b[0] && a[1] == b[1] && a[2] == b[2] && a[3] == b[3]
  {
    FirstNumber(a, b);
    FirstNumber(a[1..], b[1..]);
    FirstNumber(a[2..], b[2..]);
    FirstNumber(a[3..], b[3..]);
    assert a[1..][1..] == a[2..] && a[2..][1..] == a[3..] && a[3..][1..] == [];
    assert b[1..][1..] == b[2..] && b[2..][1..] == b[3..] && b[3..][1..] == [];
    assert !NumbersLess([], []);
    hide NumbersLess;
  }

  /** What a caller asked to see. */
  predicate Asked(c: Cluster, includeSuppressed: bool, includeLow: bool) {
    (c.promotion == Suppressed ==> includeSuppressed) && (c.promotion == ResearchLow ==> includeLow)
  }

  /** The queue holds the clusters that were asked for, and no others. */
  lemma QueueHoldsWhatWasAsked(clusters: seq<Cluster>, includeSuppressed: bool, includeLow: bool, c: Cluster)
    ensures c in Ranked(clusters, includeSuppressed, includeLow) <==>
        c in clusters && Asked(c, includeSuppressed, includeLow)
    ensures multiset(Ranked(clusters, includeSuppressed, includeLow))[c]
         == if Asked(c, includeSuppressed, includeLow) then multiset(clusters)[c] else 0
  {
    RankedIsPermutation(clusters, includeSuppressed, includeLow);
    SelectedCounts(clusters, includeSuppressed, includeLow, c);
    hide Ranked, Selected;
    assert c in multiset(clusters) <==> c in clusters;
    var ranked := Ranked(clusters, includeSuppressed, includeLow);
    assert c in multiset(ranked) <==> c in ranked;
  }

  lemma AskedIsSelected(clusters: seq<Cluster>, includeSuppressed: bool, includeLow: bool, c: Cluster)
    ensures c in Selected(clusters, includeSuppressed, includeLow) <==>
        c in clusters && Asked(c, includeSuppressed, includeLow)
  {
    SelectedCounts(clusters, includeSuppressed, includeLow, c);
    var selected := Selected(clusters, includeSuppressed, includeLow);
    assert c in multiset(clusters) <==> c in clusters;
    assert c in multiset(selected) <==> c in selected;
  }

  /** The queue opens with the greatest promotion asked for; then the greatest research score, the
      most supports, the highest score and the least id decide. */
  lemma QueueOpensWithBest(clusters: seq<Cluster>, includeSuppressed: bool, includeLow: bool, d: Cluster)
    requires d in clusters && Asked(d, includeSuppressed, includeLow)
    ensures Ranked(clusters, includeSuppressed, includeLow) != []
    ensures Precedes(Ranked(clusters, includeSuppressed, includeLow)[0], d)
  {
    AskedIsSelected(clusters, includeSuppressed, includeLow, d);
    FirstIsBest(clusters, includeSuppressed, includeLow, d);
    KeyMeans(Ranked(clusters, includeSuppressed, includeLow)[0], d);
  }

  /** Place n was rightly taken before the same family's place m: its subject had been shown less
      often, or equally often and the cluster precedes; equal subjects come in preferred order. */
  predicate RightlyFirst(ranked: seq<Cluster>, n: nat, m: nat)
    requires n < m < |ranked|
  {
    var i, j := CountSubject(ranked[..n], ranked[n].semantics.subject),
        CountSubject(ranked[..n], ranked[m].semantics.subject);
    && (i < j || (i == j && Precedes(ranked[n], ranked[m])))
    && (ranked[n].semantics.subject == ranked[m].semantics.subject ==> Precedes(ranked[n], ranked[m]))
  }

  lemma FamiliesAreInPreferredOrder(clusters: seq<Cluster>, includeSuppressed: bool, includeLow: bool)
    ensures var r := Ranked(clusters, includeSuppressed, includeLow);
      forall n, m :: 0 <= n < m < |r| && r[n].semantics.family == r[m].semantics.family ==> RightlyFirst(r, n, m)
  {
    EveryPlaceIsGreedy(clusters, includeSuppressed, includeLow);
    var r := Ranked(clusters, includeSuppressed, includeLow);
    hide Ranked, BaseKey, LessEq, Precedes;
    forall n, m | 0 <= n < m < |r| && r[n].semantics.family == r[m].semantics.family ensures RightlyFirst(r, n, m) {
      assert TakenFirst(r, n, m);
      KeyMeans(r[n], r[m]);
    }
  }

  // ----- The first round: families by their best cluster

  lemma PickFamily(q: Queue, f: string, others: seq<string>)
    requires Proper(q.buckets) && f in q.buckets && f !in others && forall g :: g in others ==> g in q.buckets
    ensures Proper(Pick(q, f).buckets) && forall g :: g in others ==> g in Pick(q, f).buckets
    ensures |Pick(q, f).ranked| == |q.ranked| + 1 && q.ranked <= Pick(q, f).ranked
    ensures Pick(q, f).ranked[|q.ranked|].semantics.family == f
  {
    PickChoice(q, f);
    PickShape(q, f);
    hide Pick, Candidates;
    forall g | g in others ensures g in Pick(q, f).buckets {
      assert Left(Pick(q, f), g) == Left(q, g) && q.buckets[g] != [];
    }
  }

  /** The clusters a round shows have the families of its order. */
  predicate ShowsInOrder(ranked: seq<Cluster>, from: nat, order: seq<string>) {
    from + |order| <= |ranked| && forall i :: 0 <= i < |order| ==> ranked[from + i].semantics.family == order[i]
  }

  lemma {:induction false} RoundFamilies(q: Queue, order: seq<string>)
    requires Proper(q.buckets) && Distinct(order) && forall f :: f in order ==> f in q.buckets
    ensures q.ranked <= Round(q, order).ranked && ShowsInOrder(Round(q, order).ranked, |q.ranked|, order)
    decreases |order|
  {
    if order != [] {
      var next := Pick(q, order[0]);
      assert order[0] in order && order == [order[0]] + order[1..];
      assert order[0] !in order[1..];
      PickFamily(q, order[0], order[1..]);
      RoundFamilies(next, order[1..]);
      var after := Round(next, order[1..]).ranked;
      assert Round(q, order).ranked == after;
      hide Pick, Proper, Round, ShowsInOrder;
      assert after[|q.ranked|] == next.ranked[|q.ranked|];
      ShowsCons(after, |q.ranked|, order);
    }
  }

  lemma ShowsCons(ranked: seq<Cluster>, from: nat, order: seq<string>)
    requires order != [] && from < |ranked| && ranked[from].semantics.family == order[0]
    requires ShowsInOrder(ranked, from + 1, order[1..])
    ensures ShowsInOrder(ranked, from, order)
  {
    forall i | 0 <= i < |order| ensures ranked[from + i].semantics.family == order[i] {
      if i > 0 {
        assert ranked[(from + 1) + (i - 1)].semantics.family == order[1..][i - 1];
      }
    }
  }

  lemma DrainExtendsRound(q: Queue, selected: seq<Cluster>)
    requires Proper(q.buckets) && Inv(q, selected) && BetweenRounds(q, 0) && q.buckets != map[]
    ensures Round(q, FamilyOrder(q.buckets)).ranked <= Drain(q).ranked
  {
    hide Inv, Round, FamilyOrder, Proper, BetweenRounds, InRound;
    var order := FamilyOrder(q.buckets);
    FamilyOrderLists(q.buckets);
    RoundShrinks(q);
    RoundOpens(q, 0);
    RoundKeepsInv(q, selected, 0, order);
    RoundCloses(Round(q, order), 0);
    DrainKeepsInv(Round(q, order), selected, 1);
    assert Drain(q) == Drain(Round(q, order));
  }

  lemma StartFamilies(selected: seq<Cluster>)
    ensures Start(selected).buckets.Keys == Families(selected) && Start(selected).ranked == []
  {
  }

  lemma FirstRoundFamilies(selected: seq<Cluster>)
    ensures Proper(Start(selected).buckets)
    ensures var order := FamilyOrder(Start(selected).buckets);
      |order| == |Families(selected)| && ShowsInOrder(Drain(Start(selected)).ranked, 0, order)
  {
    StartInv(selected);
    StartFamilies(selected);
    hide Start, Inv, Proper, BetweenRounds, FamilyOrder, Round, Families;
    var q := Start(selected);
    var order := FamilyOrder(q.buckets);
    FamilyOrderLists(q.buckets);
    DistinctCardinality(order, q.buckets.Keys);
    if q.buckets != map[] {
      DrainExtendsRound(q, selected);
      RoundFamilies(q, order);
    }
  }

  /** In the first round every family is shown once, and families come by their best clusters: for
      whatever the later family has, the earlier one has something that precedes it. */
  lemma FirstRoundFollowsBest(clusters: seq<Cluster>, includeSuppressed: bool, includeLow: bool, n: nat, m: nat,
      e: Cluster)
    requires var selected := Selected(clusters, includeSuppressed, includeLow);
      n < m < |Families(selected)| && e in selected
    ensures m < |Ranked(clusters, includeSuppressed, includeLow)|
    ensures var r := Ranked(clusters, includeSuppressed, includeLow);
      && r[n].semantics.family != r[m].semantics.family
      && (e.semantics.family == r[m].semantics.family ==>
          exists d :: d in clusters && Asked(d, includeSuppressed, includeLow)
            && d.semantics.family == r[n].semantics.family && Precedes(d, e))
  {
    var selected := Selected(clusters, includeSuppressed, includeLow);
    var order := FamilyOrder(Start(selected).buckets);
    FirstRoundFamilies(selected);
    FamilyOrderLists(Start(selected).buckets);
    hide Precedes, Selected, FamilyOrder, Start, Drain, Proper, Families, Asked;
    assert order[n] != order[m];
    if e.semantics.family == order[m] {
      var d := EarlierFamilyLeads(selected, n, m, e);
      AskedIsSelected(clusters, includeSuppressed, includeLow, d);
    }
  }

  lemma EarlierFamilyLeads(selected: seq<Cluster>, n: nat, m: nat, e: Cluster) returns (d: Cluster)
    requires n < m < |FamilyOrder(Start(selected).buckets)|
    requires e in selected && e.semantics.family == FamilyOrder(Start(selected).buckets)[m]
    ensures d in selected && d.semantics.family == FamilyOrder(Start(selected).buckets)[n] && Precedes(d, e)
  {
    var buckets, order := Start(selected).buckets, FamilyOrder(Start(selected).buckets);
    StartProper(selected);
    FamilyOrderLists(buckets);
    assert order[n] in order && order[m] in order;
    hide BaseKey, LessEq, Precedes, FamilyOrder, Start;
    HeadsInOrder(buckets, n, m);
    HeadIsLeast(selected, e);
    d := buckets[order[n]][0];
    HeadIsSelected(selected, order[n]);
    KeyTransitive(BaseKey(d), BaseKey(buckets[order[m]][0]), BaseKey(e));
    KeyMeans(d, e);
  }

  lemma HeadIsSelected(selected: seq<Cluster>, f: string)
    requires f in Start(selected).buckets && Start(selected).buckets[f] != []
    ensures Start(selected).buckets[f][0] in selected && Start(selected).buckets[f][0].semantics.family == f
  {
    var own := OfFamily(selected, f);
    OfFamilyMembers(selected, f);
    SortBySorts(own, ByBaseKey());
    MultisetMembers(own, SortBy(own, ByBaseKey()));
    assert SortBy(own, ByBaseKey())[0] in SortBy(own, ByBaseKey());
  }

  lemma HeadsInOrder(buckets: map<string, seq<Cluster>>, n: nat, m: nat)
    requires Proper(buckets) && n < m
    ensures var order := FamilyOrder(buckets);
      m < |order| ==> order[n] in buckets && order[m] in buckets
                      && LessEq(BaseKey(buckets[order[n]][0]), BaseKey(buckets[order[m]][0]))
  {
    hide BaseKey, Listing;
    var order, heads := FamilyOrder(buckets), ByHead(buckets);
    FamilyOrderLists(buckets);
    SortBySorts(Listing(buckets.Keys), heads);
    if m < |order| {
      assert order[n] in order && order[m] in order;
      assert LessEq(heads(order[n]), heads(order[m]));
      KeyOfOneText(buckets[order[n]][0]);
      KeyOfOneText(buckets[order[m]][0]);
      HeadKeys(BaseKey(buckets[order[m]][0]), BaseKey(buckets[order[n]][0]), order[m], order[n]);
      assert buckets[order[n]] != [] && buckets[order[m]] != [];
    }
  }
}
