/** `calibrate_hypotheses` in its own form: dictionaries filled in id order, then grouping. */
module ClusteringLoop {
  import opened Domain
  import opened Ordering
  import opened Ranking
  import opened Supports
  import opened Clustering
  import RankingLoop

  method CalibrateHypotheses(inputs: Inputs, hypotheses: seq<Candidate>) returns (result: Option<Calibration>)
    ensures result == Calibrated(inputs, hypotheses)
  {
    hide Contexts, SupportLists, AssessAll, Fingerprints, Group, Ranked, SortedList;
    var items := SortBy(hypotheses, ById());
    var calibrated, contexts, supports := FillTables(inputs, items);
    var grouped := GroupByFingerprint(calibrated);
    var fps := SortSet(grouped.Keys);
    var clusters := BuildClusters(inputs, items, calibrated, contexts, supports, grouped, fps);
    if clusters.None? {
      return None;
    }
    assert Complete(inputs, hypotheses);
    assert grouped.Keys == Fingerprints(calibrated);
    assert fps == SortedList(Fingerprints(AssessAll(inputs, Ordered(hypotheses))));
    assert clusters.value == Clusters(inputs, Ordered(hypotheses), fps);
    var ranked := RankingLoop.RankHypothesisClusters(clusters.value, true, true);
    result := Some(Calibration(SortBy(calibrated, ByPresentation()), ranked));
  }

  method FillTables(inputs: Inputs, items: seq<Candidate>)
    returns (calibrated: seq<Candidate>, contexts: map<string, Context>, supports: map<string, seq<Unit>>)
    ensures calibrated == AssessAll(inputs, items)
    ensures contexts == Contexts(inputs, items)
    ensures supports == SupportLists(inputs, items)
  {
    calibrated, contexts, supports := [], map[], map[];
    for i := 0 to |items|
      invariant calibrated == AssessAll(inputs, items[..i])
      invariant contexts == Contexts(inputs, items[..i])
      invariant supports == SupportLists(inputs, items[..i])
    {
      assert items[..i + 1][..i] == items[..i] && items[..i + 1][i] == items[i];
      var item := Demote(items[i]);
      if !Known(inputs, item) {
        calibrated := calibrated + [item];
        supports := supports[item.id := []];
      } else {
        var itemSupports := inputs.supports(item);
        var grade := inputs.grade(item);
        var qualification := Qualification(grade.confidence, grade.strength, Ladder(item, grade), grade.score,
            grade.suppression);
        calibrated := calibrated + [item.(semantics := Some(inputs.semantics(item)),
            qualification := Some(qualification))];
        supports := supports[item.id := itemSupports];
        var context := Context(item.id, item.observationIds, set u | u in itemSupports :: u.signature);
        assert context == ContextOf(inputs, items[i]);
        contexts := contexts[item.id := context];
      }
    }
    assert items[..|items|] == items;
  }

  ghost function Groups(items: seq<Candidate>): map<string, seq<Candidate>> {
    map fp | fp in Fingerprints(items) :: Group(items, fp)
  }

  method GroupByFingerprint(calibrated: seq<Candidate>) returns (grouped: map<string, seq<Candidate>>)
    ensures grouped == Groups(calibrated)
  {
    grouped := map[];
    for i := 0 to |calibrated|
      invariant grouped == Groups(calibrated[..i])
    {
      var item := calibrated[i];
      assert calibrated[..i + 1] == calibrated[..i] + [item];
      GroupsAppend(calibrated[..i], item);
      if item.semantics.Some? {
        var fp := item.semantics.value.fingerprint;
        grouped := grouped[fp := (if fp in grouped then grouped[fp] else []) + [item]];
      }
    }
    assert calibrated[..|calibrated|] == calibrated;
  }

  lemma {:induction false} GroupAppend(items: seq<Candidate>, item: Candidate, fp: string)
    ensures Group(items + [item], fp) == if HasFingerprint(item, fp) then Group(items, fp) + [item]
        else Group(items, fp)
  {
    if items == [] {
      assert (items + [item])[1..] == [];
    } else {
      assert (items + [item])[0] == items[0] && (items + [item])[1..] == items[1..] + [item];
      GroupAppend(items[1..], item, fp);
    }
  }

  lemma {:induction false} AbsentGroup(items: seq<Candidate>, fp: string)
    requires fp !in Fingerprints(items)
    ensures Group(items, fp) == []
  {
    if items != [] {
      assert items[0] in items;
      assert Fingerprints(items[1..]) <= Fingerprints(items);
      AbsentGroup(items[1..], fp);
    }
  }

  lemma FingerprintsAppend(items: seq<Candidate>, item: Candidate)
    ensures Fingerprints(items + [item])
         == Fingerprints(items) + if item.semantics.Some? then {item.semantics.value.fingerprint} else {}
  {
    assert forall c :: c in items + [item] <==> c in items || c == item;
  }

  lemma GroupsAppend(items: seq<Candidate>, item: Candidate)
    ensures Groups(items + [item]) ==
      if item.semantics.None? then Groups(items)
      else
        var fp := item.semantics.value.fingerprint;
        Groups(items)[fp := (if fp in Groups(items) then Groups(items)[fp] else []) + [item]]
  {
    FingerprintsAppend(items, item);
    forall fp | fp in Fingerprints(items + [item])
      ensures Group(items + [item], fp) ==
        if HasFingerprint(item, fp) then (if fp in Fingerprints(items) then Group(items, fp) else []) + [item]
            else Group(items, fp)
    {
      GroupAppend(items, item, fp);
      if fp !in Fingerprints(items) {
        AbsentGroup(items, fp);
      }
    }
  }

  method BuildClusters(inputs: Inputs, items: seq<Candidate>, calibrated: seq<Candidate>,
      contexts: map<string, Context>, supports: map<string, seq<Unit>>, grouped: map<string, seq<Candidate>>,
          fps: seq<string>)
    returns (clusters: Option<seq<Cluster>>)
    requires calibrated == AssessAll(inputs, items) && contexts == Contexts(inputs, items)
    requires supports == SupportLists(inputs, items) && grouped == Groups(calibrated)
    requires forall fp :: fp in fps <==> fp in Fingerprints(calibrated)
    ensures clusters.None? <==> !forall c :: c in calibrated && c.semantics.Some? ==> c.id in contexts
    ensures clusters.Some? ==> clusters.value == Clusters(inputs, items, fps)
  {
    hide Contexts, SupportLists, AssessAll, Fingerprints, Group, Assemble, Merged;
    AllHaveSupportLists(inputs, items);
    var built: seq<Cluster> := [];
    for k := 0 to |fps|
      invariant forall j :: 0 <= j < k ==> GroupHasContexts(calibrated, contexts, fps[j])
      invariant |built| == k
      invariant (forall c :: c in calibrated && c.semantics.Some? ==> c.id in contexts)
        ==> forall j :: 0 <= j < k ==> built[j] == ClusterFor(inputs, items, fps[j])
    {
      assert fps[k] in fps;
      SortedGroup(calibrated, fps[k]);
      var cluster := BuildCluster(SortBy(grouped[fps[k]], ById()), contexts, supports);
      if cluster.None? {
        return None;
      }
      built := built + [cluster.value];
    }
    AllGroupsHaveContexts(calibrated, contexts, fps);
    clusters := Some(built);
  }

  /** `_cluster`: fails when a member has no context. */
  method BuildCluster(members: seq<Candidate>, contexts: map<string, Context>, supports: map<string, seq<Unit>>)
    returns (cluster: Option<Cluster>)
    requires members != [] && members[0].semantics.Some?
    requires forall c :: c in members ==> c.id in supports
    ensures cluster.None? <==> exists c :: c in members && c.id !in contexts
    ensures cluster.Some? ==>
      cluster.value == Assemble(members, Lookup(members, contexts), Merged(UnitsIn(Lookup(members, supports))))
  {
    hide Assemble, Merged, UnitsIn;
    if exists c :: c in members && c.id !in contexts {
      return None;
    }
    var independent := AggregateSupports(Lookup(members, supports));
    cluster := Some(Assemble(members, Lookup(members, contexts), independent));
  }

  lemma SortedGroup(calibrated: seq<Candidate>, fp: string)
    requires fp in Fingerprints(calibrated)
    ensures var members := SortBy(Group(calibrated, fp), ById());
      members != [] && members[0] in members
      && forall c :: c in members <==> c in calibrated && HasFingerprint(c, fp)
  {
    var group := Group(calibrated, fp);
    GroupMembers(calibrated, fp);
    SortBySorts(group, ById());
    MultisetMembers(group, SortBy(group, ById()));
    assert group[0] in group;
  }

  ghost predicate GroupHasContexts(calibrated: seq<Candidate>, contexts: map<string, Context>, fp: string) {
    forall c :: c in calibrated && HasFingerprint(c, fp) ==> c.id in contexts
  }

  lemma AllGroupsHaveContexts(calibrated: seq<Candidate>, contexts: map<string, Context>, fps: seq<string>)
    requires forall fp :: fp in fps <==> fp in Fingerprints(calibrated)
    requires forall j :: 0 <= j < |fps| ==> GroupHasContexts(calibrated, contexts, fps[j])
    ensures forall c :: c in calibrated && c.semantics.Some? ==> c.id in contexts
  {
    forall c | c in calibrated && c.semantics.Some? ensures c.id in contexts {
      assert c.semantics.value.fingerprint in fps;
      var j :| 0 <= j < |fps| && fps[j] == c.semantics.value.fingerprint;
      assert HasFingerprint(c, fps[j]);
    }
  }
}
