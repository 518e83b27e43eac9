/** Independent supports: units keyed by what was seen, merged without double counting. */
module Supports {
  import opened Domain

  /** One support as a list element: its signature (standing for its id) and what it collected. */
  datatype Unit = Unit(signature: Signature, instances: set<string>, observations: set<string>)

  datatype WorkflowStep = WorkflowStep(actor: string, action: string, observation: string)

  datatype WorkflowInstance = WorkflowInstance(
    id: string, steps: seq<WorkflowStep>, actors: set<string>, captures: set<string>, resources: set<string>)

  datatype StoredObservation = StoredObservation(id: string, actor: string, capture: Option<string>)

  // ----- The declarative meaning of a merge: a function of the SET of units alone

  ghost function Signatures(units: set<Unit>): set<Signature> {
    set u | u in units :: u.signature
  }

  ghost function InstancesOf(units: set<Unit>, s: Signature): set<string> {
    set u, i | u in units && u.signature == s && i in u.instances :: i
  }

  ghost function ObservationsOf(units: set<Unit>, s: Signature): set<string> {
    set u, o | u in units && u.signature == s && o in u.observations :: o
  }

  ghost function Merged(units: set<Unit>): map<Signature, Support> {
    map s | s in Signatures(units) :: Support(InstancesOf(units, s), ObservationsOf(units, s))
  }

  ghost function AllObservations(supports: map<Signature, Support>): set<string> {
    set s, o | s in supports && o in supports[s].observations :: o
  }

  /** The supports of a merge, seen as units again. */
  ghost function Units(supports: map<Signature, Support>): set<Unit> {
    set s | s in supports :: Unit(s, supports[s].instances, supports[s].observations)
  }

  // ----- The loop step

  function AddUnit(supports: map<Signature, Support>, u: Unit): map<Signature, Support> {
    if u.signature in supports then
      supports[u.signature := Support(supports[u.signature].instances + u.instances,
                                      supports[u.signature].observations + u.observations)]
    else supports[u.signature := Support(u.instances, u.observations)]
  }

  lemma AddUnitMerges(units: set<Unit>, u: Unit)
    ensures AddUnit(Merged(units), u) == Merged(units + {u})
  {
    var all := units + {u};
    var s := u.signature;
    assert Signatures(all) == Signatures(units) + {s} by {
      assert u in all;
      forall t | t in Signatures(units) ensures t in Signatures(all) {
        var v :| v in units && v.signature == t;
        assert v in all;
      }
    }
    forall t | t in Signatures(all) ensures Merged(all)[t] == AddUnit(Merged(units), u)[t] {
      SplitInstances(units, u, t);
      SplitObservations(units, u, t);
      if t !in Signatures(units) {
        assert InstancesOf(units, t) == {} && ObservationsOf(units, t) == {};
      }
    }
  }

  lemma SplitInstances(units: set<Unit>, u: Unit, t: Signature)
    ensures InstancesOf(units + {u}, t) == InstancesOf(units, t) + if t == u.signature then u.instances else {}
  {
    var all := units + {u};
    assert u in all;
    forall i | i in InstancesOf(units, t) ensures i in InstancesOf(all, t) {
      var v :| v in units && v.signature == t && i in v.instances;
      assert v in all;
    }
  }

  lemma SplitObservations(units: set<Unit>, u: Unit, t: Signature)
    ensures ObservationsOf(units + {u}, t) == ObservationsOf(units, t) + if t == u.signature then u.observations else {}
  {
    var all := units + {u};
    assert u in all;
    forall i | i in ObservationsOf(units, t) ensures i in ObservationsOf(all, t) {
      var v :| v in units && v.signature == t && i in v.observations;
      assert v in all;
    }
  }

  // ----- _aggregate_supports

  ghost function UnitsIn(groups: seq<seq<Unit>>): set<Unit> {
    set g, u | g in groups && u in g :: u
  }

  ghost function Members(units: seq<Unit>): set<Unit> {
    set u | u in units
  }

  /** Merges the support lists of a cluster's members. */
  method AggregateSupports(groups: seq<seq<Unit>>) returns (aggregated: map<Signature, Support>)
    ensures aggregated == Merged(UnitsIn(groups))
  {
    aggregated := map[];
    assert UnitsIn(groups[..0]) == {};
    for i := 0 to |groups|
      invariant aggregated == Merged(UnitsIn(groups[..i]))
    {
      var group := groups[i];
      ghost var before := UnitsIn(groups[..i]);
      assert before + Members(group[..0]) == before;
      for j := 0 to |group|
        invariant aggregated == Merged(before + Members(group[..j]))
      {
        AddUnitMerges(before + Members(group[..j]), group[j]);
        assert group[..j + 1] == group[..j] + [group[j]];
        assert before + Members(group[..j + 1]) == before + Members(group[..j]) + {group[j]};
        aggregated := AddUnit(aggregated, group[j]);
      }
      assert group[..|group|] == group;
      OneMoreGroup(groups[..i], group);
      assert groups[..i + 1] == groups[..i] + [group];
    }
    assert groups[..|groups|] == groups;
  }

  lemma OneMoreGroup(groups: seq<seq<Unit>>, group: seq<Unit>)
    ensures UnitsIn(groups + [group]) == UnitsIn(groups) + Members(group)
  {
    assert group in groups + [group];
    forall u | u in UnitsIn(groups) ensures u in UnitsIn(groups + [group]) {
      var g :| g in groups && u in g;
      assert g in groups + [group];
    }
  }

  // ----- _support_units

  predicate IsControlled(actor: string) {
    actor != "ANONYMOUS" && actor != "UNKNOWN"
  }

  function RelatedSteps(steps: seq<WorkflowStep>, evidence: set<string>, action: string): seq<WorkflowStep> {
    if steps == [] then []
    else
      var rest := RelatedSteps(steps[1..], evidence, action);
      if steps[0].observation in evidence || steps[0].action == action then [steps[0]] + rest else rest
  }

  /** What one workflow instance contributes.  The causal path is never empty here, so the
      workflow-instance fallback of the payload cannot be reached. */
  function Sighting(w: WorkflowInstance, related: seq<WorkflowStep>): Unit {
    var actors := set a | a in w.actors + (set s | s in related :: s.actor) && IsControlled(a);
    Unit(Observed(w.captures, actors, w.resources, seq(|related|, i requires 0 <= i < |related| => related[i].action)),
         {w.id}, set s | s in related :: s.observation)
  }

  ghost function Sightings(instances: seq<WorkflowInstance>, evidence: set<string>, action: string): set<Unit> {
    set w | w in instances && RelatedSteps(w.steps, evidence, action) != []
      :: Sighting(w, RelatedSteps(w.steps, evidence, action))
  }

  function FallbackUnit(observations: seq<StoredObservation>, evidence: set<string>, action: string,
      endpoints: set<string>): Unit {
    var found := set o | o in observations && o.id in evidence;
    Unit(Fallback(set o | o in found && o.capture.Some? :: o.capture.value,
                  set o | o in found && o.actor != "UNKNOWN" :: o.actor, action, endpoints),
         {}, set o | o in found :: o.id)
  }

  method SupportUnits(instances: seq<WorkflowInstance>, observations: seq<StoredObservation>, evidence: set<string>,
      action: string, endpoints: set<string>)
    returns (units: map<Signature, Support>)
    ensures Sightings(instances, evidence, action) != {} ==> units == Merged(Sightings(instances, evidence, action))
    ensures Sightings(instances, evidence, action) == {}
      ==> units == Merged({FallbackUnit(observations, evidence, action, endpoints)})
  {
    hide Merged, AddUnit, Sighting, Sightings, FallbackUnit, RelatedSteps;
    units := map[];
    NoSightings(evidence, action);
    for i := 0 to |instances|
      invariant units == Merged(Sightings(instances[..i], evidence, action))
    {
      var related := RelatedSteps(instances[i].steps, evidence, action);
      OneMoreInstance(instances[..i], instances[i], evidence, action);
      assert instances[..i + 1] == instances[..i] + [instances[i]];
      if related != [] {
        AddUnitMerges(Sightings(instances[..i], evidence, action), Sighting(instances[i], related));
        units := AddUnit(units, Sighting(instances[i], related));
      } else {
        assert Sightings(instances[..i], evidence, action) + {} == Sightings(instances[..i], evidence, action);
      }
    }
    assert instances[..|instances|] == instances;
    EmptyMerge(Sightings(instances, evidence, action));
    if units == map[] {
      var fallback := FallbackUnit(observations, evidence, action, endpoints);
      AddUnitMerges({}, fallback);
      EmptyMerge({});
      assert {} + {fallback} == {fallback};
      units := AddUnit(map[], fallback);
    }
  }

  lemma EmptyMerge(units: set<Unit>)
    ensures Merged(units) == map[] <==> units == {}
  {
    if u: Unit :| u in units {
      assert u.signature in Merged(units);
    }
  }

  lemma NoSightings(evidence: set<string>, action: string)
    ensures Sightings([], evidence, action) == {} && Merged({}) == map[]
  {
  }

  lemma OneMoreInstance(instances: seq<WorkflowInstance>, w: WorkflowInstance, evidence: set<string>, action: string)
    ensures var related := RelatedSteps(w.steps, evidence, action);
      Sightings(instances + [w], evidence, action)
      == Sightings(instances, evidence, action) + if related == [] then {} else {Sighting(w, related)}
  {
    assert forall v :: v in instances + [w] <==> v in instances || v == w;
  }

  // ----- Main results

  ghost predicate Supplies(groups: seq<seq<Unit>>, u: Unit) {
    exists g :: g in groups && u in g
  }

  /** Order, repetition and grouping of the supports are irrelevant. */
  lemma AggregationIsASetUnion(groups: seq<seq<Unit>>, others: seq<seq<Unit>>)
    requires forall u :: Supplies(groups, u) <==> Supplies(others, u)
    ensures Merged(UnitsIn(groups)) == Merged(UnitsIn(others))
  {
    forall u ensures u in UnitsIn(groups) <==> u in UnitsIn(others) {
      assert u in UnitsIn(groups) <==> Supplies(groups, u);
      assert u in UnitsIn(others) <==> Supplies(others, u);
    }
    assert UnitsIn(groups) == UnitsIn(others);
  }

  /** Merging in two stages equals merging everything at once, so merging a merge changes nothing. */
  lemma MergingIsIdempotent(units: set<Unit>, more: set<Unit>)
    ensures Merged(Units(Merged(units)) + more) == Merged(units + more)
    ensures Merged(Units(Merged(units))) == Merged(units)
  {
    MergeOnce(units, more);
    MergeOnce(units, {});
    assert Units(Merged(units)) + {} == Units(Merged(units)) && units + {} == units;
  }

  lemma UnitsOfMerge(units: set<Unit>, s: Signature)
    requires s in Signatures(units)
    ensures Unit(s, InstancesOf(units, s), ObservationsOf(units, s)) in Units(Merged(units))
  {
    assert s in Merged(units);
  }

  lemma MergeOnce(units: set<Unit>, more: set<Unit>)
    ensures Merged(Units(Merged(units)) + more) == Merged(units + more)
  {
    var staged, all := Units(Merged(units)) + more, units + more;
    forall s ensures s in Signatures(staged) <==> s in Signatures(all) {
      if s in Signatures(units) {
        UnitsOfMerge(units, s);
      }
    }
    forall s | s in Signatures(all)
      ensures InstancesOf(staged, s) == InstancesOf(all, s) && ObservationsOf(staged, s) == ObservationsOf(all, s)
    {
      StagedMembers(units, more, s);
    }
  }

  lemma StagedMembers(units: set<Unit>, more: set<Unit>, s: Signature)
    ensures InstancesOf(Units(Merged(units)) + more, s) == InstancesOf(units + more, s)
    ensures ObservationsOf(Units(Merged(units)) + more, s) == ObservationsOf(units + more, s)
  {
    var staged, all := Units(Merged(units)) + more, units + more;
    forall i | i in InstancesOf(all, s) ensures i in InstancesOf(staged, s) {
      var u :| u in all && u.signature == s && i in u.instances;
      if u in units {
        UnitsOfMerge(units, s);
        assert i in InstancesOf(units, s);
      }
    }
    forall o | o in ObservationsOf(all, s) ensures o in ObservationsOf(staged, s) {
      var u :| u in all && u.signature == s && o in u.observations;
      if u in units {
        UnitsOfMerge(units, s);
        assert o in ObservationsOf(units, s);
      }
    }
  }

  /** The count is the number of distinct signatures, and no observation is dropped. */
  lemma CountIsDistinctSignatures(units: set<Unit>)
    ensures |Merged(units)| == |Signatures(units)|
    ensures AllObservations(Merged(units)) == set u, o | u in units && o in u.observations :: o
  {
    assert Merged(units).Keys == Signatures(units);
    forall u, o | u in units && o in u.observations ensures o in AllObservations(Merged(units)) {
      assert u.signature in Merged(units);
      assert o in ObservationsOf(units, u.signature);
    }
  }

  /** Seeing a known signature again, in whatever workflow instance, never raises the count. */
  lemma ReobservationKeepsCount(units: set<Unit>, again: Unit)
    ensures |Merged(units + {again})| == |Merged(units)| + if again.signature in Signatures(units) then 0 else 1
  {
    AddUnitMerges(units, again);
    assert Merged(units + {again}).Keys == Merged(units).Keys + {again.signature};
    assert Merged(units).Keys == Signatures(units);
    assert |Merged(units + {again}).Keys| == |Merged(units).Keys| + if again.signature in Signatures(units) then 0
        else 1;
  }

  // ----- What a sighting and the fallback record

  predicate IsRelated(s: WorkflowStep, evidence: set<string>, action: string) {
    s.observation in evidence || s.action == action
  }

  /** The positions of `picked` in `steps`: ascending, and exactly those of the related steps. */
  ghost predicate PicksRelated(steps: seq<WorkflowStep>, evidence: set<string>, action: string, picked: seq<nat>) {
    && (forall i, j :: 0 <= i < j < |picked| ==> picked[i] < picked[j])
    && (forall k: nat :: k in picked <==> k < |steps| && IsRelated(steps[k], evidence, action))
  }

  /** Those positions of the steps hold the listed steps. */
  predicate HoldsAt(steps: seq<WorkflowStep>, picked: seq<nat>, related: seq<WorkflowStep>) {
    |related| == |picked| && forall i :: 0 <= i < |picked| ==> picked[i] < |steps| && related[i] == steps[picked[i]]
  }

  /** The related steps are the steps with evidence or the affected action, in their order. */
  lemma {:induction false} RelatedStepsMean(steps: seq<WorkflowStep>, evidence: set<string>, action: string)
    returns (picked: seq<nat>)
    ensures PicksRelated(steps, evidence, action, picked)
    ensures HoldsAt(steps, picked, RelatedSteps(steps, evidence, action))
  {
    if steps == [] {
      picked := [];
    } else {
      var rest := RelatedStepsMean(steps[1..], evidence, action);
      var shifted := seq(|rest|, i requires 0 <= i < |rest| => rest[i] + 1);
      var related := RelatedSteps(steps[1..], evidence, action);
      ShiftedPicks(steps, evidence, action, rest, shifted);
      ShiftedHold(steps, rest, shifted, related);
      assert RelatedSteps(steps, evidence, action) ==
        if IsRelated(steps[0], evidence, action) then [steps[0]] + related else related;
      hide PicksRelated, IsRelated, RelatedSteps, HoldsAt;
      picked := if IsRelated(steps[0], evidence, action) then [0] + shifted else shifted;
    }
  }

  lemma ShiftedHold(steps: seq<WorkflowStep>, rest: seq<nat>, shifted: seq<nat>, related: seq<WorkflowStep>)
    requires steps != [] && HoldsAt(steps[1..], rest, related)
    requires |shifted| == |rest| && forall i :: 0 <= i < |rest| ==> shifted[i] == rest[i] + 1
    ensures HoldsAt(steps, shifted, related) && HoldsAt(steps, [0] + shifted, [steps[0]] + related)
  {
    forall i | 0 <= i < |shifted| ensures shifted[i] < |steps| && related[i] == steps[shifted[i]] {
      assert steps[1..][rest[i]] == steps[shifted[i]];
    }
  }

  lemma ShiftedPicks(steps: seq<WorkflowStep>, evidence: set<string>, action: string, rest: seq<nat>, shifted: seq<nat>)
    requires steps != [] && PicksRelated(steps[1..], evidence, action, rest)
    requires |shifted| == |rest| && forall i :: 0 <= i < |rest| ==> shifted[i] == rest[i] + 1
    ensures forall i, j :: 0 <= i < j < |shifted| ==> shifted[i] < shifted[j]
    ensures forall k: nat :: k in shifted <==> 0 < k < |steps| && IsRelated(steps[k], evidence, action)
    ensures PicksRelated(steps, evidence, action, if IsRelated(steps[0], evidence, action) then [0] + shifted
        else shifted)
  {
    hide IsRelated;
    forall k: nat ensures k in shifted <==> 0 < k < |steps| && IsRelated(steps[k], evidence, action) {
      if 0 < k < |steps| && IsRelated(steps[k], evidence, action) {
        assert steps[1..][k - 1] == steps[k];
        assert k - 1 in rest;
        var i :| 0 <= i < |rest| && rest[i] == k - 1;
        assert shifted[i] == k;
      }
      if k in shifted {
        var i :| 0 <= i < |shifted| && shifted[i] == k;
        assert rest[i] in rest;
        assert steps[1..][k - 1] == steps[k];
      }
    }
    var picked := if IsRelated(steps[0], evidence, action) then [0] + shifted else shifted;
    assert forall k: nat :: k in picked <==> (k == 0 && IsRelated(steps[0], evidence, action)) || k in shifted;
  }

  /** A sighting is signed by the instance's captures and resources, its controlled actors and those of
      the related steps, and the actions of the related steps in order. */
  lemma SightingMeans(w: WorkflowInstance, related: seq<WorkflowStep>)
    ensures var u := Sighting(w, related);
      && u.signature.Observed? && u.signature.captures == w.captures && u.signature.resources == w.resources
      && |u.signature.path| == |related|
      && (forall i :: 0 <= i < |related| ==> u.signature.path[i] == related[i].action)
      && (forall a :: a in u.signature.actors <==>
           a != "ANONYMOUS" && a != "UNKNOWN" && (a in w.actors || exists s :: s in related && s.actor == a))
      && u.instances == {w.id}
      && (forall o :: o in u.observations <==> exists s :: s in related && s.observation == o)
  {
  }

  /** The fallback is signed by the captures and known actors of the stored evidence, the affected
      action and its endpoints; it counts no workflow instance. */
  lemma FallbackMeans(observations: seq<StoredObservation>, evidence: set<string>, action: string,
      endpoints: set<string>)
    ensures var u := FallbackUnit(observations, evidence, action, endpoints);
      && u.signature.Fallback? && u.signature.action == action && u.signature.endpoints == endpoints
      && (forall c :: c in u.signature.captures <==>
           exists o :: o in observations && o.id in evidence && o.capture == Some(c))
      && (forall a :: a in u.signature.actors <==>
           a != "UNKNOWN" && exists o :: o in observations && o.id in evidence && o.actor == a)
      && u.instances == {} && (forall i :: i in u.observations <==>
          i in evidence && exists o :: o in observations && o.id == i)
  {
  }
}
