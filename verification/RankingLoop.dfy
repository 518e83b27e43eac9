/** `rank_hypothesis_clusters` in its own form: bucket lists re-sorted and popped in place while
    subject counts grow, proved to compute the queue whose properties RankingProperties states. */
module RankingLoop {
  import opened Domain
  import opened Ordering
  import opened Ranking

  method RankHypothesisClusters(clusters: seq<Cluster>, includeSuppressed: bool, includeLow: bool)
    returns (ranked: seq<Cluster>)
    ensures ranked == Ranked(clusters, includeSuppressed, includeLow)
  {
    var selected := Selected(clusters, includeSuppressed, includeLow);
    var buckets := FillBuckets(selected);
    ghost var start := Start(selected);
    StartProper(selected);
    ranked := [];
    var shown: map<string, nat> := map[];
    while buckets != map[]
      invariant Proper(buckets)
      invariant Drain(Queue(buckets, shown, ranked)) == Drain(start)
      decreases Height(buckets)
    {
      hide Round, FamilyOrder, Height, Proper;
      RoundShrinks(Queue(buckets, shown, ranked));
      var order := OrderFamilies(buckets);
      buckets, shown, ranked := VisitFamilies(buckets, shown, ranked, order);
    }
  }

  /** The inner loop: one visit to every family of the round, in order. */
  method VisitFamilies(buckets0: map<string, seq<Cluster>>, shown0: map<string, nat>, ranked0: seq<Cluster>,
      order: seq<string>)
    returns (buckets: map<string, seq<Cluster>>, shown: map<string, nat>, ranked: seq<Cluster>)
    ensures Queue(buckets, shown, ranked) == Round(Queue(buckets0, shown0, ranked0), order)
  {
    buckets, shown, ranked := buckets0, shown0, ranked0;
    var i := 0;
    while i < |order|
      invariant 0 <= i <= |order|
      invariant Round(Queue(buckets, shown, ranked), order[i..]) == Round(Queue(buckets0, shown0, ranked0), order)
    {
      var family := order[i];
      assert order[i..][0] == family && order[i..][1..] == order[i + 1..];
      if family in buckets && buckets[family] != [] {
        var candidates := SortBy(buckets[family], ByShown(shown));
        var chosen := candidates[0];
        candidates := candidates[1..];
        ranked := ranked + [chosen];
        shown := shown[chosen.semantics.subject := Shown(shown, chosen.semantics.subject) + 1];
        buckets := if candidates == [] then buckets - {family} else buckets[family := candidates];
      }
      i := i + 1;
    }
    assert order[i..] == [];
  }

  /** Groups the selected clusters by family and sorts every group by the base key. */
  method FillBuckets(selected: seq<Cluster>) returns (buckets: map<string, seq<Cluster>>)
    ensures buckets == Start(selected).buckets
  {
    buckets := map[];
    for i := 0 to |selected|
      invariant buckets == Grouped(selected[..i])
    {
      var c := selected[i];
      var f := c.semantics.family;
      assert selected[..i + 1] == selected[..i] + [c];
      BucketAppend(selected[..i], c);
      buckets := buckets[f := (if f in buckets then buckets[f] else []) + [c]];
    }
    assert selected[..|selected|] == selected;
    buckets := map f | f in buckets :: SortBy(buckets[f], ByBaseKey());
  }

  ghost function Grouped(xs: seq<Cluster>): map<string, seq<Cluster>> {
    map f | f in Families(xs) :: OfFamily(xs, f)
  }

  lemma BucketAppend(xs: seq<Cluster>, c: Cluster)
    ensures var f := c.semantics.family;
      Grouped(xs + [c]) == Grouped(xs)[f := (if f in Grouped(xs) then Grouped(xs)[f] else []) + [c]]
  {
    var f := c.semantics.family;
    FamiliesAppend(xs, c);
    AppendOne(xs, c, f);
    if f !in Families(xs) {
      AbsentFamily(xs, f);
    }
    forall g | g in Families(xs) && g != f ensures OfFamily(xs + [c], g) == OfFamily(xs, g) {
      AppendOne(xs, c, g);
    }
  }

  lemma FamiliesAppend(xs: seq<Cluster>, c: Cluster)
    ensures Families(xs + [c]) == Families(xs) + {c.semantics.family}
  {
    assert forall d :: d in xs + [c] <==> d in xs || d == c;
    assert c in xs + [c];
    forall f | f in Families(xs) + {c.semantics.family} ensures f in Families(xs + [c]) {
      if f in Families(xs) {
        var d :| d in xs && d.semantics.family == f;
        assert d in xs + [c];
      }
    }
  }

  /** `sorted(buckets, key=...)`: the families by the key of the list head, then by name. */
  method OrderFamilies(buckets: map<string, seq<Cluster>>) returns (order: seq<string>)
    ensures order == FamilyOrder(buckets)
  {
    var listed := ListSet(buckets.Keys);
    order := SortBy(listed, ByHead(buckets));
    DistinctSameMembers(Listing(buckets.Keys), listed);
    HeadKeysDiffer(buckets);
    SortByForgetsOrder(Listing(buckets.Keys), listed, ByHead(buckets));
  }

  lemma HeadKeysDiffer(buckets: map<string, seq<Cluster>>)
    ensures Distinguishes(ByHead(buckets), Listing(buckets.Keys))
  {
    hide BaseKey;
    forall f, g | f in buckets && g in buckets && ByHead(buckets)(f) == ByHead(buckets)(g) ensures f == g {
      var a, b := ByHead(buckets)(f).texts, ByHead(buckets)(g).texts;
      assert a[|a| - 1] == f && b[|b| - 1] == g;
    }
  }
}
