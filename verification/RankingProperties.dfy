/** What the round-robin promises of its output, for every input list. */
module RankingProperties {
  import opened Domain
  import opened Ordering
  import opened Ranking

  // ----- Vocabulary

  function Bucket(q: Queue, f: string): seq<Cluster> {
    if f in q.buckets then q.buckets[f] else []
  }

  /** How a cluster compares once `prefix` has been shown: subject exposure first. */
  function KeyAfter(prefix: seq<Cluster>, c: Cluster): Key {
    Key([CountSubject(prefix, c.semantics.subject)] + BaseKey(c).numbers, BaseKey(c).texts)
  }

  /** Position n was at least as good a choice as `d` would have been. */
  ghost predicate GoodChoice(xs: seq<Cluster>, n: nat, d: Cluster)
    requires n < |xs|
  {
    LessEq(KeyAfter(xs[..n], xs[n]), KeyAfter(xs[..n], d))
  }

  /** While g still has clusters to show, f has appeared at most once more than g. */
  ghost predicate Fair(prefix: seq<Cluster>, selected: seq<Cluster>) {
    forall f, g :: CountFamily(prefix, g) < CountFamily(selected, g)
      ==> CountFamily(prefix, f) <= CountFamily(prefix, g) + 1
  }

  ghost predicate FairAlways(ranked: seq<Cluster>, selected: seq<Cluster>) {
    forall n :: 0 <= n <= |ranked| ==> Fair(ranked[..n], selected)
  }

  /** Two different clusters of one family never tie on the base key.  Distinct ids suffice. */
  ghost predicate NoTies(xs: seq<Cluster>) {
    forall c, d :: c in xs && d in xs && c.semantics.family == d.semantics.family && BaseKey(c) == BaseKey(d)
      ==> c == d
  }

  // ----- The loop invariants, kept by every visit to a family

  ghost predicate Accounted(q: Queue, selected: seq<Cluster>) {
    forall f :: multiset(OfFamily(q.ranked, f)) + multiset(Bucket(q, f)) == multiset(OfFamily(selected, f))
  }

  ghost predicate Tallied(q: Queue) {
    forall s :: Shown(q.shown, s) == CountSubject(q.ranked, s)
  }

  ghost predicate Greedy(q: Queue) {
    && (forall n, d :: 0 <= n < |q.ranked| && d in Bucket(q, q.ranked[n].semantics.family) ==>
        GoodChoice(q.ranked, n, d))
    && (forall n, m :: 0 <= n < m < |q.ranked| && q.ranked[n].semantics.family == q.ranked[m].semantics.family
          ==> GoodChoice(q.ranked, n, q.ranked[m]))
  }

  /** In round r (from 0): every family was shown at most r + 1 times, the families still to be
      visited exactly r times and the others that have clusters left exactly r + 1 times. */
  ghost predicate InRound(q: Queue, r: nat, pending: seq<string>) {
    && (forall f :: CountFamily(q.ranked, f) <= r + 1)
    && (forall f :: f in pending ==> f in q.buckets && CountFamily(q.ranked, f) == r)
    && (forall f :: f in q.buckets && f !in pending ==> CountFamily(q.ranked, f) == r + 1)
  }

  ghost predicate Inv(q: Queue, selected: seq<Cluster>) {
    Accounted(q, selected) && Tallied(q) && Greedy(q) && FairAlways(q.ranked, selected)
  }

  function Candidates(q: Queue, f: string): seq<Cluster>
    requires f in q.buckets
  {
    SortBy(q.buckets[f], ByShown(q.shown))
  }

  lemma PickChoice(q: Queue, f: string)
    requires Proper(q.buckets) && f in q.buckets
    ensures Candidates(q, f) != []
    ensures Candidates(q, f)[0].semantics.family == f
    ensures Pick(q, f).ranked == q.ranked + [Candidates(q, f)[0]]
    ensures Bucket(Pick(q, f), f) == Candidates(q, f)[1..]
    ensures forall g :: g != f ==> Bucket(Pick(q, f), g) == Bucket(q, g)
    ensures multiset(Candidates(q, f)) == multiset(q.buckets[f])
    ensures forall d :: d in q.buckets[f] ==> LessEq(ByShown(q.shown)(Candidates(q, f)[0]), ByShown(q.shown)(d))
    ensures Candidates(q, f)[0] in q.buckets[f]
    ensures forall d :: d in Candidates(q, f)[1..] ==> d in q.buckets[f]
  {
    var own := q.buckets[f];
    var sorted := Candidates(q, f);
    SortBySorts(own, ByShown(q.shown));
    MultisetMembers(own, sorted);
    assert sorted[0] in own;
    forall d | d in own ensures LessEq(ByShown(q.shown)(sorted[0]), ByShown(q.shown)(d)) {
      assert d in sorted;
      var i :| 0 <= i < |sorted| && sorted[i] == d;
      KeyTotal(ByShown(q.shown)(d), ByShown(q.shown)(d));
    }
  }

  lemma PickAccounted(q: Queue, f: string, selected: seq<Cluster>)
    requires Proper(q.buckets) && f in q.buckets && Accounted(q, selected)
    ensures Accounted(Pick(q, f), selected)
  {
    PickChoice(q, f);
    hide Pick, Candidates, OfFamily, Proper;
    var sorted := Candidates(q, f);
    forall g
        ensures multiset(OfFamily(Pick(q, f).ranked, g)) + multiset(Bucket(Pick(q, f), g))
            == multiset(OfFamily(selected, g)) {
      AppendOne(q.ranked, sorted[0], g);
      assert sorted == [sorted[0]] + sorted[1..];
    }
  }

  lemma PickTallied(q: Queue, f: string)
    requires Proper(q.buckets) && f in q.buckets && Tallied(q)
    ensures Tallied(Pick(q, f))
  {
    PickChoice(q, f);
    var next := Pick(q, f);
    assert next.ranked[..|next.ranked| - 1] == q.ranked;
  }

  lemma TalliedKey(q: Queue, c: Cluster)
    requires Tallied(q)
    ensures ByShown(q.shown)(c) == KeyAfter(q.ranked, c)
  {
  }

  lemma PickGreedy(q: Queue, f: string)
    requires Proper(q.buckets) && f in q.buckets && Tallied(q) && Greedy(q)
    ensures Greedy(Pick(q, f))
  {
    PickChoice(q, f);
    hide Pick, Candidates, Proper, KeyAfter, ByShown, LessEq;
    var chosen := Candidates(q, f)[0];
    var next := Pick(q, f).ranked;
    forall n, d | 0 <= n < |next| && d in Bucket(Pick(q, f), next[n].semantics.family) ensures GoodChoice(next, n, d) {
      if n < |q.ranked| {
        EarlierChoice(q.ranked, chosen, n, d);
      } else {
        TalliedKey(q, chosen);
        TalliedKey(q, d);
        assert next[..n] == q.ranked;
      }
    }
    forall n, m | 0 <= n < m < |next| && next[n].semantics.family == next[m].semantics.family
      ensures GoodChoice(next, n, next[m])
    {
      EarlierChoice(q.ranked, chosen, n, next[m]);
    }
  }

  lemma EarlierChoice(xs: seq<Cluster>, c: Cluster, n: nat, d: Cluster)
    requires n < |xs|
    ensures GoodChoice(xs + [c], n, d) == GoodChoice(xs, n, d)
  {
    assert (xs + [c])[..n] == xs[..n];
  }

  lemma AccountedCounts(q: Queue, selected: seq<Cluster>, f: string)
    requires Accounted(q, selected)
    ensures CountFamily(q.ranked, f) + |Bucket(q, f)| == CountFamily(selected, f)
  {
    assert |multiset(OfFamily(q.ranked, f)) + multiset(Bucket(q, f))| == |multiset(OfFamily(selected, f))|;
    assert |multiset(OfFamily(q.ranked, f))| == |OfFamily(q.ranked, f)|;
    assert |multiset(Bucket(q, f))| == |Bucket(q, f)|;
    assert |multiset(OfFamily(selected, f))| == |OfFamily(selected, f)|;
  }

  lemma InRoundIsFair(q: Queue, selected: seq<Cluster>, r: nat, pending: seq<string>)
    requires Accounted(q, selected) && InRound(q, r, pending)
    ensures Fair(q.ranked, selected)
  {
    forall f, g | CountFamily(q.ranked, g) < CountFamily(selected, g)
      ensures CountFamily(q.ranked, f) <= CountFamily(q.ranked, g) + 1
    {
      AccountedCounts(q, selected, g);
      assert g in q.buckets;
    }
  }

  lemma PickCounts(q: Queue, f: string)
    requires Proper(q.buckets) && f in q.buckets
    ensures forall g :: CountFamily(Pick(q, f).ranked, g) == CountFamily(q.ranked, g) + if g == f then 1 else 0
  {
    PickChoice(q, f);
    forall g ensures CountFamily(Pick(q, f).ranked, g) == CountFamily(q.ranked, g) + if g == f then 1 else 0 {
      AppendOne(q.ranked, Candidates(q, f)[0], g);
    }
  }

  lemma PickInRound(q: Queue, r: nat, pending: seq<string>)
    requires Proper(q.buckets) && pending != [] && Distinct(pending) && InRound(q, r, pending)
    ensures InRound(Pick(q, pending[0]), r, pending[1..])
  {
    hide Pick, Candidates, CountFamily;
    var f := pending[0];
    assert f in pending;
    PickShape(q, f);
    assert pending == [f] + pending[1..];
    assert f !in pending[1..];
    PickCounts(q, f);
    forall g | g in pending[1..] ensures g in Pick(q, f).buckets {
      assert Left(Pick(q, f), g) == Left(q, g);
      assert g in q.buckets && q.buckets[g] != [];
    }
  }

  lemma PendingIsLeft(q: Queue, r: nat, pending: seq<string>)
    requires pending != [] && InRound(q, r, pending)
    ensures pending[0] in q.buckets
  {
  }

  lemma PickKeepsInv(q: Queue, selected: seq<Cluster>, r: nat, pending: seq<string>)
    requires Proper(q.buckets) && Inv(q, selected) && pending != [] && Distinct(pending) && InRound(q, r, pending)
    ensures Proper(Pick(q, pending[0]).buckets) && Inv(Pick(q, pending[0]), selected)
    ensures InRound(Pick(q, pending[0]), r, pending[1..])
  {
    hide Accounted, Tallied, Greedy, FairAlways, Fair, InRound, Pick, Proper;
    var f := pending[0];
    var next := Pick(q, f);
    assert f in q.buckets by { PendingIsLeft(q, r, pending); }
    PickShape(q, f);
    PickAccounted(q, f, selected);
    PickTallied(q, f);
    PickGreedy(q, f);
    PickInRound(q, r, pending);
    InRoundIsFair(next, selected, r, pending[1..]);
    PickChoice(q, f);
    FairExtends(q.ranked, next.ranked, selected);
  }

  lemma FairExtends(ranked: seq<Cluster>, next: seq<Cluster>, selected: seq<Cluster>)
    requires FairAlways(ranked, selected) && Fair(next, selected)
    requires |next| == |ranked| + 1 && ranked <= next
    ensures FairAlways(next, selected)
  {
    hide Fair;
    forall n | 0 <= n <= |next| ensures Fair(next[..n], selected) {
      if n <= |ranked| {
        assert next[..n] == ranked[..n];
      } else {
        assert next[..n] == next;
      }
    }
  }

  lemma PickExtends(q: Queue, f: string)
    ensures q.ranked <= Pick(q, f).ranked
  {
  }

  lemma {:induction false} RoundKeepsInv(q: Queue, selected: seq<Cluster>, r: nat, pending: seq<string>)
    requires Proper(q.buckets) && Inv(q, selected) && Distinct(pending) && InRound(q, r, pending)
    ensures Proper(Round(q, pending).buckets) && Inv(Round(q, pending), selected)
    ensures InRound(Round(q, pending), r, [])
    ensures q.ranked <= Round(q, pending).ranked
    decreases |pending|
  {
    hide Inv, InRound, Pick;
    if pending != [] {
      PickKeepsInv(q, selected, r, pending);
      PickExtends(q, pending[0]);
      RoundKeepsInv(Pick(q, pending[0]), selected, r, pending[1..]);
    }
  }

  /** Between rounds every family with clusters left has been shown equally often. */
  ghost predicate BetweenRounds(q: Queue, r: nat) {
    && (forall f :: CountFamily(q.ranked, f) <= r)
    && (forall f :: f in q.buckets ==> CountFamily(q.ranked, f) == r)
  }

  lemma RoundOpens(q: Queue, r: nat)
    requires BetweenRounds(q, r)
    ensures InRound(q, r, FamilyOrder(q.buckets))
  {
    FamilyOrderLists(q.buckets);
  }

  lemma RoundCloses(q: Queue, r: nat)
    requires InRound(q, r, [])
    ensures BetweenRounds(q, r + 1)
  {
  }

  lemma {:induction false} DrainKeepsInv(q: Queue, selected: seq<Cluster>, r: nat)
    requires Proper(q.buckets) && Inv(q, selected) && BetweenRounds(q, r)
    ensures Inv(Drain(q), selected)
    ensures Drain(q).buckets == map[]
    ensures q.ranked <= Drain(q).ranked
    decreases Height(q.buckets)
  {
    if q.buckets != map[] {
      hide Inv, Proper, FamilyOrder, Round, BetweenRounds, InRound;
      var order := FamilyOrder(q.buckets);
      FamilyOrderLists(q.buckets);
      RoundShrinks(q);
      RoundOpens(q, r);
      RoundKeepsInv(q, selected, r, order);
      RoundCloses(Round(q, order), r);
      DrainKeepsInv(Round(q, order), selected, r + 1);
    }
  }

  lemma StartInv(selected: seq<Cluster>)
    ensures Proper(Start(selected).buckets) && Inv(Start(selected), selected) && BetweenRounds(Start(selected), 0)
  {
    StartProper(selected);
    var q := Start(selected);
    forall f ensures multiset(OfFamily(q.ranked, f)) + multiset(Bucket(q, f)) == multiset(OfFamily(selected, f)) {
      OfFamilyMembers(selected, f);
      if f in q.buckets {
        SortBySorts(OfFamily(selected, f), ByBaseKey());
      } else {
        AbsentFamily(selected, f);
      }
    }
    forall n | 0 <= n <= |q.ranked| ensures Fair(q.ranked[..n], selected) {
      assert q.ranked[..n] == [];
    }
  }

  lemma RankedInv(selected: seq<Cluster>)
    ensures Proper(Start(selected).buckets)
    ensures Inv(Drain(Start(selected)), selected)
    ensures Drain(Start(selected)).buckets == map[]
  {
    StartInv(selected);
    DrainKeepsInv(Start(selected), selected, 0);
  }

  // ----- Main results

  /** Exactly the selected clusters come out, each as often as it went in. */
  lemma RankedIsPermutation(clusters: seq<Cluster>, includeSuppressed: bool, includeLow: bool)
    ensures multiset(Ranked(clusters, includeSuppressed, includeLow))
         == multiset(Selected(clusters, includeSuppressed, includeLow))
  {
    var selected := Selected(clusters, includeSuppressed, includeLow);
    RankedInv(selected);
    var q := Drain(Start(selected));
    forall c: Cluster ensures multiset(q.ranked)[c] == multiset(selected)[c] {
      var f := c.semantics.family;
      OfFamilyCounts(q.ranked, c);
      OfFamilyCounts(selected, c);
      assert multiset(OfFamily(q.ranked, f)) + multiset(Bucket(q, f)) == multiset(OfFamily(selected, f));
    }
  }

  /** No family monopolizes the queue: fairness holds of every prefix. */
  lemma RoundRobinIsFair(clusters: seq<Cluster>, includeSuppressed: bool, includeLow: bool)
    ensures FairAlways(Ranked(clusters, includeSuppressed, includeLow),
        Selected(clusters, includeSuppressed, includeLow))
  {
    hide FairAlways;
    RankedInv(Selected(clusters, includeSuppressed, includeLow));
  }

  /** Place n, taken before the same family's place m, went to a subject shown no more often, and
      among equally shown or equal subjects to the smaller base key. */
  ghost predicate TakenFirst(ranked: seq<Cluster>, n: nat, m: nat)
    requires n < m < |ranked|
  {
    var i, j := CountSubject(ranked[..n], ranked[n].semantics.subject),
        CountSubject(ranked[..n], ranked[m].semantics.subject);
    && i <= j
    && (i == j ==> LessEq(BaseKey(ranked[n]), BaseKey(ranked[m])))
    && (ranked[n].semantics.subject == ranked[m].semantics.subject ==> LessEq(BaseKey(ranked[n]), BaseKey(ranked[m])))
  }

  ghost predicate TakenInTurn(ranked: seq<Cluster>) {
    forall n, m :: 0 <= n < m < |ranked| && ranked[n].semantics.family == ranked[m].semantics.family ==>
        TakenFirst(ranked, n, m)
  }

  /** Every place goes to the least-shown subject its family still has, and among those to the
      smallest base key; so clusters sharing family and subject appear in base-key order. */
  lemma EveryPlaceIsGreedy(clusters: seq<Cluster>, includeSuppressed: bool, includeLow: bool)
    ensures TakenInTurn(Ranked(clusters, includeSuppressed, includeLow))
  {
    hide LessEq, BaseKey;
    RankedInv(Selected(clusters, includeSuppressed, includeLow));
    var r := Ranked(clusters, includeSuppressed, includeLow);
    GreedyIsInTurn(r);
  }

  lemma GreedyIsInTurn(ranked: seq<Cluster>)
    requires forall n, m :: 0 <= n < m < |ranked| && ranked[n].semantics.family == ranked[m].semantics.family
               ==> GoodChoice(ranked, n, ranked[m])
    ensures TakenInTurn(ranked)
  {
    hide LessEq, BaseKey, CountSubject;
    forall n, m | 0 <= n < m < |ranked| && ranked[n].semantics.family == ranked[m].semantics.family
        ensures TakenFirst(ranked, n, m) {
      assert GoodChoice(ranked, n, ranked[m]);
      PrefixedKeys(CountSubject(ranked[..n], ranked[n].semantics.subject),
          CountSubject(ranked[..n], ranked[m].semantics.subject),
                   BaseKey(ranked[n]), BaseKey(ranked[m]));
    }
  }

  lemma PrefixedKeys(i: int, j: int, a: Key, b: Key)
    requires LessEq(Key([i] + a.numbers, a.texts), Key([j] + b.numbers, b.texts))
    ensures i <= j
    ensures i == j ==> LessEq(a, b)
  {
    var x, y := [i] + a.numbers, [j] + b.numbers;
    assert x[1..] == a.numbers && y[1..] == b.numbers;
    assert x == y ==> a.numbers == b.numbers;
  }

  lemma {:induction false} SelectedCounts(xs: seq<Cluster>, includeSuppressed: bool, includeLow: bool, c: Cluster)
    ensures multiset(Selected(xs, includeSuppressed, includeLow))[c]
         == if IsSelected(c, includeSuppressed, includeLow) then multiset(xs)[c] else 0
  {
    if xs != [] {
      SelectedCounts(xs[1..], includeSuppressed, includeLow, c);
      assert xs == [xs[0]] + xs[1..];
    }
  }

  lemma {:induction false} OfFamilyPermuted(xs: seq<Cluster>, ys: seq<Cluster>, f: string)
    requires multiset(xs) == multiset(ys)
    ensures multiset(OfFamily(xs, f)) == multiset(OfFamily(ys, f))
  {
    OfFamilyMembers(xs, f);
    OfFamilyMembers(ys, f);
    forall c: Cluster ensures multiset(OfFamily(xs, f))[c] == multiset(OfFamily(ys, f))[c] {
      if c.semantics.family == f {
        OfFamilyCounts(xs, c);
        OfFamilyCounts(ys, c);
      } else {
        assert c !in OfFamily(xs, f) && c !in OfFamily(ys, f);
      }
    }
  }

  lemma StartForgetsOrder(xs: seq<Cluster>, ys: seq<Cluster>)
    requires multiset(xs) == multiset(ys) && NoTies(xs)
    ensures Start(xs) == Start(ys)
  {
    MultisetMembers(xs, ys);
    assert Families(xs) == Families(ys);
    forall f | f in Families(xs) ensures SortBy(OfFamily(xs, f), ByBaseKey()) == SortBy(OfFamily(ys, f), ByBaseKey()) {
      OfFamilyPermuted(xs, ys, f);
      OfFamilyMembers(xs, f);
      SortByForgetsOrder(OfFamily(xs, f), OfFamily(ys, f), ByBaseKey());
    }
  }

  /** The queue does not depend on the order in which clusters arrive. */
  lemma RankedForgetsInputOrder(xs: seq<Cluster>, ys: seq<Cluster>, includeSuppressed: bool, includeLow: bool)
    requires multiset(xs) == multiset(ys) && NoTies(xs)
    ensures Ranked(xs, includeSuppressed, includeLow) == Ranked(ys, includeSuppressed, includeLow)
  {
    var sx, sy := Selected(xs, includeSuppressed, includeLow), Selected(ys, includeSuppressed, includeLow);
    forall c: Cluster ensures multiset(sx)[c] == multiset(sy)[c] {
      SelectedCounts(xs, includeSuppressed, includeLow, c);
      SelectedCounts(ys, includeSuppressed, includeLow, c);
    }
    SelectedNoTies(xs, includeSuppressed, includeLow);
    StartForgetsOrder(sx, sy);
  }

  /** Distinct ids rule ties out. */
  lemma DistinctIdsNeverTie(xs: seq<Cluster>)
    requires forall c, d :: c in xs && d in xs && c.id == d.id ==> c == d
    ensures NoTies(xs)
  {
    forall c, d | c in xs && d in xs && BaseKey(c) == BaseKey(d) ensures c == d {
      assert BaseKey(c).texts[0] == BaseKey(d).texts[0];
    }
  }

  lemma SelectedNoTies(xs: seq<Cluster>, includeSuppressed: bool, includeLow: bool)
    requires NoTies(xs)
    ensures NoTies(Selected(xs, includeSuppressed, includeLow))
  {
    var selected := Selected(xs, includeSuppressed, includeLow);
    forall c | c in selected ensures c in xs {
      SelectedCounts(xs, includeSuppressed, includeLow, c);
      assert c in multiset(selected);
      assert c in multiset(xs);
    }
  }

  /** Ranking a ranked queue again changes nothing. */
  lemma RankedIsIdempotent(xs: seq<Cluster>, includeSuppressed: bool, includeLow: bool)
    requires NoTies(xs)
    ensures var r := Ranked(xs, includeSuppressed, includeLow); Ranked(r, includeSuppressed, includeLow) == r
  {
    var r := Ranked(xs, includeSuppressed, includeLow);
    var selected := Selected(xs, includeSuppressed, includeLow);
    RankedIsPermutation(xs, includeSuppressed, includeLow);
    SelectedNoTies(xs, includeSuppressed, includeLow);
    MultisetMembers(selected, r);
    forall c: Cluster ensures multiset(Selected(selected, includeSuppressed, includeLow))[c] == multiset(selected)[c] {
      SelectedCounts(selected, includeSuppressed, includeLow, c);
      SelectedCounts(xs, includeSuppressed, includeLow, c);
    }
    forall c: Cluster ensures multiset(Selected(r, includeSuppressed, includeLow))[c] == multiset(selected)[c] {
      SelectedCounts(r, includeSuppressed, includeLow, c);
      SelectedCounts(selected, includeSuppressed, includeLow, c);
    }
    StartForgetsOrder(selected, Selected(r, includeSuppressed, includeLow));
  }

  /** The queue opens with a cluster whose base key is the least of all. */
  lemma FirstIsBest(clusters: seq<Cluster>, includeSuppressed: bool, includeLow: bool, d: Cluster)
    requires d in Selected(clusters, includeSuppressed, includeLow)
    ensures Ranked(clusters, includeSuppressed, includeLow) != []
    ensures LessEq(BaseKey(Ranked(clusters, includeSuppressed, includeLow)[0]), BaseKey(d))
  {
    hide Start, Inv, BetweenRounds, FamilyOrder, BaseKey, LessEq, Pick, Drain;
    var selected := Selected(clusters, includeSuppressed, includeLow);
    var q := Start(selected);
    StartInv(selected);
    HeadIsLeast(selected, d);
    NothingShown(selected);
    FirstEmitted(q, selected);
    FirstPickIsLeast(q, d.semantics.family);
    var best := Candidates(q, FamilyOrder(q.buckets)[0])[0];
    KeyTransitive(BaseKey(best), BaseKey(q.buckets[d.semantics.family][0]), BaseKey(d));
  }

  lemma NothingShown(selected: seq<Cluster>)
    ensures Start(selected).shown == map[] && Start(selected).ranked == []
  {
  }

  lemma FirstPickIsLeast(q: Queue, f: string)
    requires Proper(q.buckets) && q.shown == map[] && f in q.buckets
    ensures FamilyOrder(q.buckets) != [] && FamilyOrder(q.buckets)[0] in q.buckets
    ensures Candidates(q, FamilyOrder(q.buckets)[0]) != []
    ensures LessEq(BaseKey(Candidates(q, FamilyOrder(q.buckets)[0])[0]), BaseKey(q.buckets[f][0]))
  {
    hide FamilyOrder, BaseKey, LessEq, Pick;
    FirstFamilyHeads(q.buckets, f);
    var top := FamilyOrder(q.buckets)[0];
    PickChoice(q, top);
    var chosen := Candidates(q, top)[0];
    assert LessEq(ByShown(q.shown)(chosen), ByShown(q.shown)(q.buckets[top][0]));
    PrefixedKeys(0, 0, BaseKey(chosen), BaseKey(q.buckets[top][0]));
    KeyTransitive(BaseKey(chosen), BaseKey(q.buckets[top][0]), BaseKey(q.buckets[f][0]));
  }

  lemma FirstFamilyHeads(buckets: map<string, seq<Cluster>>, f: string)
    requires Proper(buckets) && f in buckets
    ensures FamilyOrder(buckets) != [] && FamilyOrder(buckets)[0] in buckets
    ensures LessEq(BaseKey(buckets[FamilyOrder(buckets)[0]][0]), BaseKey(buckets[f][0]))
  {
    hide BaseKey, Listing;
    var order := FamilyOrder(buckets);
    FamilyOrderLists(buckets);
    assert f in order;
    var heads := ByHead(buckets);
    SortBySorts(Listing(buckets.Keys), heads);
    KeyTotal(heads(f), heads(f));
    assert LessEq(heads(order[0]), heads(f));
    KeyOfOneText(buckets[f][0]);
    KeyOfOneText(buckets[order[0]][0]);
    HeadKeys(BaseKey(buckets[f][0]), BaseKey(buckets[order[0]][0]), f, order[0]);
  }

  lemma KeyOfOneText(c: Cluster)
    ensures |BaseKey(c).texts| == 1
  {
  }

  lemma HeadIsLeast(selected: seq<Cluster>, d: Cluster)
    requires d in selected
    ensures d.semantics.family in Start(selected).buckets
    ensures Start(selected).buckets[d.semantics.family] != []
    ensures LessEq(BaseKey(Start(selected).buckets[d.semantics.family][0]), BaseKey(d))
  {
    var f := d.semantics.family;
    var own := OfFamily(selected, f);
    OfFamilyMembers(selected, f);
    SortBySorts(own, ByBaseKey());
    MultisetMembers(own, SortBy(own, ByBaseKey()));
    var i :| 0 <= i < |SortBy(own, ByBaseKey())| && SortBy(own, ByBaseKey())[i] == d;
    KeyTotal(BaseKey(d), BaseKey(d));
    assert f in Families(selected);
    assert LessEq(ByBaseKey()(SortBy(own, ByBaseKey())[0]), ByBaseKey()(d));
  }

  /** Appending the family name only breaks ties. */
  lemma HeadKeys(a: Key, b: Key, f: string, g: string)
    requires |a.texts| == |b.texts| == 1
    ensures Less(a, b) ==> Less(Key(a.numbers, a.texts + [f]), Key(b.numbers, b.texts + [g]))
  {
    TextsTotal(a.texts, b.texts);
    assert a.texts == [a.texts[0]] && b.texts == [b.texts[0]];
    assert (a.texts + [f])[0] == a.texts[0] && (b.texts + [g])[0] == b.texts[0];
  }

  lemma FirstEmitted(q: Queue, selected: seq<Cluster>)
    requires Proper(q.buckets) && Inv(q, selected) && BetweenRounds(q, 0) && q.ranked == [] && q.buckets != map[]
    ensures FamilyOrder(q.buckets) != [] && FamilyOrder(q.buckets)[0] in q.buckets
    ensures Drain(q).ranked != []
    ensures Drain(q).ranked[0] == Candidates(q, FamilyOrder(q.buckets)[0])[0]
  {
    hide Inv, FamilyOrder, BetweenRounds, InRound, Candidates, Round;
    var order := FamilyOrder(q.buckets);
    FamilyOrderLists(q.buckets);
    var f :| f in q.buckets;
    assert f in order;
    RoundShrinks(q);
    RoundOpens(q, 0);
    FirstOfRound(q, selected, order);
    RoundKeepsInv(q, selected, 0, order);
    RoundCloses(Round(q, order), 0);
    DrainKeepsInv(Round(q, order), selected, 1);
    assert Drain(q) == Drain(Round(q, order));
    assert Round(q, order).ranked <= Drain(q).ranked;
  }

  lemma FirstOfRound(q: Queue, selected: seq<Cluster>, order: seq<string>)
    requires Proper(q.buckets) && Inv(q, selected) && Distinct(order) && InRound(q, 0, order)
    requires q.ranked == [] && order != [] && order[0] in q.buckets
    ensures Candidates(q, order[0]) != []
    ensures Round(q, order).ranked != [] && Round(q, order).ranked[0] == Candidates(q, order[0])[0]
  {
    hide Inv, Pick, InRound, Candidates;
    PickChoice(q, order[0]);
    PickKeepsInv(q, selected, 0, order);
    RoundKeepsInv(Pick(q, order[0]), selected, 0, order[1..]);
    assert Pick(q, order[0]).ranked <= Round(q, order).ranked;
  }
}
