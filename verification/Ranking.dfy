/** The family round-robin of `rank_hypothesis_clusters` as a function on queue states. */
module Ranking {
  import opened Domain
  import opened Ordering

  /** The mutable state of the ranking loop: what is left per family, how often each subject
      has been shown, and the output so far. */
  datatype Queue = Queue(buckets: map<string, seq<Cluster>>, shown: map<string, nat>, ranked: seq<Cluster>)

  predicate IsSelected(c: Cluster, includeSuppressed: bool, includeLow: bool) {
    (includeSuppressed || c.promotion != Promotion.Suppressed) && (includeLow || c.promotion != ResearchLow)
  }

  function Selected(clusters: seq<Cluster>, includeSuppressed: bool, includeLow: bool): seq<Cluster> {
    if clusters == [] then []
    else
      var rest := Selected(clusters[1..], includeSuppressed, includeLow);
      if IsSelected(clusters[0], includeSuppressed, includeLow) then [clusters[0]] + rest else rest
  }

  function BaseKey(c: Cluster): Key {
    Key([0 - PromotionRank(c.promotion), 0 - c.researchScore, 0 - |c.supports|, 0 - c.highestScore], [c.id])
  }

  function ByBaseKey(): Cluster -> Key {
    (c: Cluster) => BaseKey(c)
  }

  function Shown(shown: map<string, nat>, subject: string): nat {
    if subject in shown then shown[subject] else 0
  }

  function ByShown(shown: map<string, nat>): Cluster -> Key {
    (c: Cluster) => Key([Shown(shown, c.semantics.subject)] + BaseKey(c).numbers, BaseKey(c).texts)
  }

  /** The order of families in a round: the key of whatever heads the family's list, then the name. */
  function ByHead(buckets: map<string, seq<Cluster>>): string -> Key {
    (f: string) =>
      if f in buckets && buckets[f] != []
      then Key(BaseKey(buckets[f][0]).numbers, BaseKey(buckets[f][0]).texts + [f])
      else Key([], [f])
  }

  function OfFamily(xs: seq<Cluster>, f: string): seq<Cluster> {
    if xs == [] then []
    else if xs[0].semantics.family == f then [xs[0]] + OfFamily(xs[1..], f)
    else OfFamily(xs[1..], f)
  }

  function CountFamily(xs: seq<Cluster>, f: string): nat {
    |OfFamily(xs, f)|
  }

  function CountSubject(xs: seq<Cluster>, s: string): nat {
    if xs == [] then 0 else (if xs[|xs| - 1].semantics.subject == s then 1 else 0) + CountSubject(xs[..|xs| - 1], s)
  }

  function Families(xs: seq<Cluster>): set<string> {
    set c | c in xs :: c.semantics.family
  }

  /** One visit to a family: re-sort what is left by subject exposure, emit the head. */
  function Pick(q: Queue, f: string): Queue {
    if f !in q.buckets || q.buckets[f] == [] then q
    else
      var candidates := SortBy(q.buckets[f], ByShown(q.shown));
      var chosen, rest := candidates[0], candidates[1..];
      Queue(if rest == [] then q.buckets - {f} else q.buckets[f := rest],
            q.shown[chosen.semantics.subject := Shown(q.shown, chosen.semantics.subject) + 1],
            q.ranked + [chosen])
  }

  function Round(q: Queue, order: seq<string>): Queue
    decreases |order|
  {
    if order == [] then q else Round(Pick(q, order[0]), order[1..])
  }

  ghost function FamilyOrder(buckets: map<string, seq<Cluster>>): seq<string> {
    SortBy(Listing(buckets.Keys), ByHead(buckets))
  }

  /** No family's list is ever left empty, and lists hold only their own family. */
  ghost predicate Proper(buckets: map<string, seq<Cluster>>) {
    forall f :: f in buckets ==> buckets[f] != [] && forall c :: c in buckets[f] ==> c.semantics.family == f
  }

  /** The length of the longest list left: the number of rounds still to run. */
  ghost function Height(buckets: map<string, seq<Cluster>>): nat
    decreases |buckets|
  {
    if buckets == map[] then 0 else
      var f :| f in buckets;
      var h := Height(buckets - {f});
      if |buckets[f]| > h then |buckets[f]| else h
  }

  ghost function Drain(q: Queue): Queue
    requires Proper(q.buckets)
    decreases Height(q.buckets)
  {
    if q.buckets == map[] then q else
      RoundShrinks(q);
      Drain(Round(q, FamilyOrder(q.buckets)))
  }

  ghost function Start(selected: seq<Cluster>): Queue {
    Queue(map f | f in Families(selected) :: SortBy(OfFamily(selected, f), ByBaseKey()), map[], [])
  }

  lemma StartProper(selected: seq<Cluster>)
    ensures Proper(Start(selected).buckets)
  {
    forall f | f in Families(selected)
      ensures Start(selected).buckets[f] != []
      ensures forall c :: c in Start(selected).buckets[f] ==> c.semantics.family == f
    {
      var own := OfFamily(selected, f);
      OfFamilyMembers(selected, f);
      SortBySorts(own, ByBaseKey());
      MultisetMembers(own, SortBy(own, ByBaseKey()));
    }
  }

  ghost function Ranked(clusters: seq<Cluster>, includeSuppressed: bool, includeLow: bool): seq<Cluster> {
    var selected := Selected(clusters, includeSuppressed, includeLow);
    StartProper(selected);
    Drain(Start(selected)).ranked
  }

  // ----- Termination: a round takes exactly one cluster from every family

  lemma {:induction false} HeightBounds(buckets: map<string, seq<Cluster>>, f: string)
    requires f in buckets
    ensures |buckets[f]| <= Height(buckets)
    decreases |buckets|
  {
    var g :| g in buckets && Height(buckets) ==
      if |buckets[g]| > Height(buckets - {g}) then |buckets[g]| else Height(buckets - {g});
    if g != f {
      HeightBounds(buckets - {g}, f);
    }
  }

  lemma {:induction false} HeightAttained(buckets: map<string, seq<Cluster>>, n: nat)
    requires forall f :: f in buckets ==> |buckets[f]| <= n
    ensures Height(buckets) <= n
    decreases |buckets|
  {
    if buckets != map[] {
      var g :| g in buckets && Height(buckets) ==
        if |buckets[g]| > Height(buckets - {g}) then |buckets[g]| else Height(buckets - {g});
      HeightAttained(buckets - {g}, n);
    }
  }

  function Left(q: Queue, f: string): nat {
    if f in q.buckets then |q.buckets[f]| else 0
  }

  lemma PickShape(q: Queue, f: string)
    requires Proper(q.buckets)
    ensures Proper(Pick(q, f).buckets)
    ensures forall g :: Left(Pick(q, f), g) == if g == f && f in q.buckets then Left(q, g) - 1 else Left(q, g)
    ensures Pick(q, f).buckets.Keys <= q.buckets.Keys
  {
    if f in q.buckets {
      var candidates := SortBy(q.buckets[f], ByShown(q.shown));
      SortBySorts(q.buckets[f], ByShown(q.shown));
      MultisetMembers(q.buckets[f], candidates);
    }
  }

  lemma {:induction false} RoundShape(q: Queue, order: seq<string>)
    requires Proper(q.buckets) && Distinct(order)
    ensures Proper(Round(q, order).buckets)
    ensures forall g :: Left(Round(q, order), g) == if g in order && g in q.buckets then Left(q, g) - 1 else Left(q, g)
    ensures Round(q, order).buckets.Keys <= q.buckets.Keys
    decreases |order|
  {
    if order != [] {
      PickShape(q, order[0]);
      RoundShape(Pick(q, order[0]), order[1..]);
      assert order == [order[0]] + order[1..];
      assert order[0] !in order[1..];
    }
  }

  lemma FamilyOrderLists(buckets: map<string, seq<Cluster>>)
    ensures Distinct(FamilyOrder(buckets))
    ensures forall f :: f in FamilyOrder(buckets) <==> f in buckets
  {
    var listing := Listing(buckets.Keys);
    SortBySorts(listing, ByHead(buckets));
    MultisetMembers(listing, FamilyOrder(buckets));
    DistinctCounts(listing);
    CountsDistinct(FamilyOrder(buckets));
  }

  lemma RoundShrinks(q: Queue)
    requires Proper(q.buckets) && q.buckets != map[]
    ensures Proper(Round(q, FamilyOrder(q.buckets)).buckets)
    ensures Height(Round(q, FamilyOrder(q.buckets)).buckets) < Height(q.buckets)
  {
    var order := FamilyOrder(q.buckets);
    FamilyOrderLists(q.buckets);
    RoundShape(q, order);
    var after := Round(q, order).buckets;
    var f :| f in q.buckets;
    HeightBounds(q.buckets, f);
    forall g | g in after ensures |after[g]| <= Height(q.buckets) - 1 {
      assert Left(Round(q, order), g) == Left(q, g) - 1;
      HeightBounds(q.buckets, g);
    }
    HeightAttained(after, Height(q.buckets) - 1);
  }

  // ----- Facts about counting and selecting

  lemma {:induction false} OfFamilyMembers(xs: seq<Cluster>, f: string)
    ensures forall c :: c in OfFamily(xs, f) <==> c in xs && c.semantics.family == f
  {
    if xs != [] {
      OfFamilyMembers(xs[1..], f);
      assert xs == [xs[0]] + xs[1..];
    }
  }

  lemma {:induction false} AbsentFamily(xs: seq<Cluster>, f: string)
    requires f !in Families(xs)
    ensures OfFamily(xs, f) == []
  {
    if xs != [] {
      assert xs[0].semantics.family in Families(xs);
      assert Families(xs[1..]) <= Families(xs);
      AbsentFamily(xs[1..], f);
    }
  }

  lemma {:induction false} OfFamilyAppend(xs: seq<Cluster>, ys: seq<Cluster>, f: string)
    ensures OfFamily(xs + ys, f) == OfFamily(xs, f) + OfFamily(ys, f)
  {
    if xs == [] {
      assert xs + ys == ys;
    } else {
      OfFamilyAppend(xs[1..], ys, f);
      assert (xs + ys)[0] == xs[0] && (xs + ys)[1..] == xs[1..] + ys;
      var a, b := OfFamily(xs[1..], f), OfFamily(ys, f);
      assert [xs[0]] + (a + b) == [xs[0]] + a + b;
    }
  }

  lemma {:induction false} OfFamilyCounts(xs: seq<Cluster>, c: Cluster)
    ensures multiset(OfFamily(xs, c.semantics.family))[c] == multiset(xs)[c]
  {
    if xs != [] {
      OfFamilyCounts(xs[1..], c);
      assert xs == [xs[0]] + xs[1..];
    }
  }

  lemma AppendOne(xs: seq<Cluster>, c: Cluster, f: string)
    ensures OfFamily(xs + [c], f) == if f == c.semantics.family then OfFamily(xs, f) + [c] else OfFamily(xs, f)
  {
    OfFamilyAppend(xs, [c], f);
    assert OfFamily([c][1..], f) == [];
  }
}
