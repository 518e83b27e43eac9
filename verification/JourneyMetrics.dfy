/** How labelled journeys survive reconstruction: fragments, retained pairs and order. */
module JourneyMetrics {
  import opened Domain
  import opened Journeys

  datatype PlacedStep = PlacedStep(observation: string, position: int)

  datatype Instance = Instance(id: string, steps: seq<PlacedStep>)

  // ----- One journey as a sequence of places: the instance of each step, if it was found

  type Places = seq<Option<string>>

  function Ids(places: Places): set<string> {
    set p | p in places && p.Some? :: p.value
  }

  function CountOf(places: Places, p: Option<string>): nat {
    if places == [] then 0 else (if places[0] == p then 1 else 0) + CountOf(places[1..], p)
  }

  /** Distinct instances, plus one fragment for every step that was not found. */
  function FragmentCount(places: Places): nat {
    |Ids(places)| + CountOf(places, None)
  }

  function RetainedWith(p: Option<string>, others: Places): nat {
    if p.None? then 0 else CountOf(others, p)
  }

  /** Unordered pairs of steps in the same instance. */
  function RetainedPairs(places: Places): nat {
    if places == [] then 0 else RetainedWith(places[0], places[1..]) + RetainedPairs(places[1..])
  }

  function PairCount(n: nat): nat {
    n * (n - 1) / 2
  }

  lemma PairCountGrows(n: nat)
    ensures PairCount(n + 1) == PairCount(n) + n
  {
    assert (n + 1) * n == n * (n - 1) + 2 * n;
  }

  // ----- The combinatorial bound

  lemma IdsCons(p: Option<string>, places: Places)
    ensures Ids([p] + places) == Ids(places) + if p.Some? then {p.value} else {}
  {
    assert forall q :: q in [p] + places <==> q == p || q in places;
  }

  lemma {:induction false} CountMembers(places: Places, p: Option<string>)
    ensures CountOf(places, p) > 0 <==> p in places
    ensures CountOf(places, p) <= |places|
  {
    if places != [] {
      CountMembers(places[1..], p);
      assert places == [places[0]] + places[1..];
      assert p in places <==> p == places[0] || p in places[1..];
    }
  }

  lemma IdsMember(places: Places, v: string)
    ensures v in Ids(places) <==> Some(v) in places
  {
    assert Some(v) in places ==> Some(v).value in Ids(places);
  }

  lemma FragmentsCons(p: Option<string>, places: Places)
    ensures FragmentCount([p] + places) == FragmentCount(places) + if p.Some? && p in places then 0 else 1
  {
    IdsCons(p, places);
    assert ([p] + places)[1..] == places && ([p] + places)[0] == p;
    if p.None? {
      assert Ids([p] + places) == Ids(places);
    } else if p in places {
      assert p.value in Ids(places);
      assert Ids([p] + places) == Ids(places);
    } else {
      IdsMember(places, p.value);
      assert |Ids(places) + {p.value}| == |Ids(places)| + 1;
    }
  }

  lemma {:induction false} FragmentsAtMostSteps(places: Places)
    ensures FragmentCount(places) <= |places|
    ensures places != [] ==> FragmentCount(places) >= 1
  {
    if places != [] {
      FragmentsAtMostSteps(places[1..]);
      assert places == [places[0]] + places[1..];
      FragmentsCons(places[0], places[1..]);
      if places[1..] == [] {
        assert FragmentCount([]) == 0;
      }
    }
  }

  /** One instance can hold no more steps than the other fragments leave over. */
  lemma {:induction false} InstanceBound(places: Places, p: Option<string>)
    requires p.Some? && p in places
    ensures CountOf(places, p) + FragmentCount(places) <= |places| + 1
  {
    assert places == [places[0]] + places[1..];
    FragmentsCons(places[0], places[1..]);
    FragmentsAtMostSteps(places[1..]);
    CountMembers(places[1..], p);
    if p in places[1..] {
      InstanceBound(places[1..], p);
    }
  }

  /** With n steps in k fragments at most (n-k)(n-k+1)/2 pairs are retained. */
  lemma {:induction false} RetainedBound(places: Places)
    ensures FragmentCount(places) <= |places|
    ensures 2 * RetainedPairs(places) <= (|places| - FragmentCount(places)) * (|places| - FragmentCount(places) + 1)
  {
    FragmentsAtMostSteps(places);
    if places != [] {
      var p, rest := places[0], places[1..];
      assert places == [p] + rest;
      RetainedBound(rest);
      FragmentsCons(p, rest);
      hide FragmentCount;
      var d := |rest| - FragmentCount(rest);
      CountMembers(rest, p);
      if p.Some? && p in rest {
        InstanceBound(rest, p);
        NextProduct(d, RetainedPairs(rest), CountOf(rest, p));
      }
    }
  }

  lemma NextProduct(d: nat, retained: nat, more: nat)
    requires 2 * retained <= d * (d + 1) && more <= d + 1
    ensures 2 * (more + retained) <= (d + 1) * (d + 2)
  {
    assert (d + 1) * (d + 2) == d * (d + 1) + 2 * (d + 1);
  }

  lemma {:induction false} WholeInstance(places: Places, p: Option<string>)
    requires p.Some? && p in places && FragmentCount(places) == 1
    ensures CountOf(places, p) == |places|
  {
    assert places == [places[0]] + places[1..];
    FragmentsCons(places[0], places[1..]);
    if places[1..] == [] {
    } else {
      FragmentsAtMostSteps(places[1..]);
      assert places[0] in places[1..] && p in places[1..];
      WholeInstance(places[1..], p);
      CountMembers(places[1..], places[0]);
      if places[0] != p {
        TwoCounts(places[1..], p, places[0]);
      }
    }
  }

  lemma {:induction false} WholeRetainsAll(places: Places)
    requires FragmentCount(places) == 1
    ensures RetainedPairs(places) == PairCount(|places|)
  {
    if places == [] {
    } else {
      var p, rest := places[0], places[1..];
      assert places == [p] + rest;
      FragmentsCons(p, rest);
      PairCountGrows(|rest|);
      if rest != [] {
        FragmentsAtMostSteps(rest);
        assert p in rest && p.Some?;
        WholeInstance(rest, p);
        WholeRetainsAll(rest);
      }
    }
  }

  /** All pairs of a journey are retained exactly when it is in one fragment. */
  lemma AllRetainedIffWhole(places: Places)
    requires places != []
    ensures RetainedPairs(places) <= PairCount(|places|)
    ensures RetainedPairs(places) == PairCount(|places|) <==> FragmentCount(places) == 1
  {
    var n, k := |places|, FragmentCount(places);
    RetainedBound(places);
    FragmentsAtMostSteps(places);
    FewerPairs(n, k);
    if k == 1 {
      WholeRetainsAll(places);
    }
  }

  lemma FewerPairs(n: nat, k: nat)
    requires 1 <= k <= n
    ensures (n - k) * (n - k + 1) <= 2 * PairCount(n)
    ensures k >= 2 ==> (n - k) * (n - k + 1) < 2 * PairCount(n)
  {
    EvenProduct(n);
    var m := n - k;
    Scale(m, n - 1, m + 1);
    Scale(m + 1, n, n - 1);
    if k >= 2 {
      Scale(m, n - 2, m + 1);
      Scale(m + 1, n - 1, n - 2);
      assert (n - 2) * (n - 1) == n * (n - 1) - 2 * (n - 1);
    }
  }

  lemma Scale(a: int, b: int, c: nat)
    requires a <= b
    ensures a * c <= b * c && c * a <= c * b
  {
  }

  lemma {:induction false} EvenProduct(n: nat)
    ensures 2 * PairCount(n) == n * (n - 1)
  {
    if n > 0 {
      EvenProduct(n - 1);
      PairCountGrows(n - 1);
      assert n * (n - 1) == (n - 1) * (n - 2) + 2 * (n - 1);
    }
  }

  // ----- The metrics over all journeys

  datatype Metrics = Metrics(
    retained: nat, fragmented: nat, orderViolations: nat, knownPairs: nat, retainedPairs: nat, underMergePairs: nat)

  /** Where observations ended up; later instances win. */
  datatype Placement = Placement(instance: map<string, string>, position: map<string, int>)

  function Place(p: Placement, observation: string): Option<string> {
    if observation in p.instance then Some(p.instance[observation]) else None
  }

  function PlacesOf(p: Placement, ids: map<string, string>, steps: seq<string>): Places
    requires forall s :: s in steps ==> s in ids
  {
    seq(|steps|, i requires 0 <= i < |steps| => Place(p, ids[steps[i]]))
  }

  predicate IsDerivedKey(key: string) {
    |key| >= 8 && key[..8] == "derived:"
  }

  predicate InOrder(p: Placement, ids: map<string, string>, steps: seq<string>)
    requires forall s :: s in steps ==> s in ids && ids[s] in p.position
  {
    forall i :: 0 <= i < |steps| - 1 ==> p.position[ids[steps[i]]] < p.position[ids[steps[i + 1]]]
  }

  predicate KnownSteps(ids: map<string, string>, journeys: seq<Journey>) {
    forall j :: 0 <= j < |journeys| ==> |journeys[j].steps| >= 2 && forall s :: s in journeys[j].steps ==> s in ids
  }

  predicate IsWhole(p: Placement, ids: map<string, string>, j: Journey)
    requires forall s :: s in j.steps ==> s in ids
  {
    FragmentCount(PlacesOf(p, ids, j.steps)) == 1
  }

  predicate Consistent(p: Placement) {
    p.instance.Keys == p.position.Keys
  }

  predicate IsOrdered(p: Placement, ids: map<string, string>, j: Journey)
    requires forall s :: s in j.steps ==> s in ids
    requires Consistent(p)
  {
    IsWhole(p, ids, j) && None !in PlacesOf(p, ids, j.steps)
    && (IsDerivedKey(j.key) || (AllPlaced(p, ids, j.steps); InOrder(p, ids, j.steps)))
  }

  lemma AllPlaced(p: Placement, ids: map<string, string>, steps: seq<string>)
    requires forall s :: s in steps ==> s in ids
    requires Consistent(p) && None !in PlacesOf(p, ids, steps)
    ensures forall s :: s in steps ==> ids[s] in p.position
  {
    forall s | s in steps ensures ids[s] in p.position {
      var i :| 0 <= i < |steps| && steps[i] == s;
      assert PlacesOf(p, ids, steps)[i] in PlacesOf(p, ids, steps);
    }
  }

  /** A journey of two or more steps in one fragment has all its steps found. */
  lemma WholeIsFound(places: Places)
    requires |places| >= 2 && FragmentCount(places) == 1
    ensures None !in places
  {
    WholeRetainsAll(places);
    var p, rest := places[0], places[1..];
    assert places == [p] + rest;
    FragmentsCons(p, rest);
    FragmentsAtMostSteps(rest);
    WholeInstance(places, p);
    if None in places {
      CountMembers(places, None);
      TwoCounts(places, p, None);
    }
  }

  lemma {:induction false} TwoCounts(places: Places, p: Option<string>, q: Option<string>)
    requires p != q
    ensures CountOf(places, p) + CountOf(places, q) <= |places|
  {
    if places != [] {
      TwoCounts(places[1..], p, q);
    }
  }

  // ----- What one journey adds, and the totals

  function Contribution(p: Placement, ids: map<string, string>, j: Journey): Metrics
    requires Consistent(p) && forall s :: s in j.steps ==> s in ids
  {
    var places := PlacesOf(p, ids, j.steps);
    var whole, ordered := IsWhole(p, ids, j) && None !in places, IsOrdered(p, ids, j);
    RetainedAtMost(places);
    Metrics(if ordered then 1 else 0, if FragmentCount(places) > j.maxFragments then 1 else 0,
            if whole && !ordered then 1 else 0, PairCount(|places|), RetainedPairs(places),
                PairCount(|places|) - RetainedPairs(places))
  }

  lemma RetainedAtMost(places: Places)
    ensures RetainedPairs(places) <= PairCount(|places|)
  {
    if places != [] {
      AllRetainedIffWhole(places);
    }
  }

  function Plus(a: Metrics, b: Metrics): Metrics {
    Metrics(a.retained + b.retained, a.fragmented + b.fragmented, a.orderViolations + b.orderViolations,
            a.knownPairs + b.knownPairs, a.retainedPairs + b.retainedPairs, a.underMergePairs + b.underMergePairs)
  }

  function Total(p: Placement, ids: map<string, string>, journeys: seq<Journey>): Metrics
    requires Consistent(p) && KnownSteps(ids, journeys)
  {
    if journeys == [] then Metrics(0, 0, 0, 0, 0, 0)
    else Plus(Total(p, ids, journeys[..|journeys| - 1]), Contribution(p, ids, journeys[|journeys| - 1]))
  }

  // ----- The loops

  /** One step as seen by the two dictionaries. */
  datatype Seen = Seen(observation: string, instance: string, position: int)

  function SeenIn(id: string, steps: seq<PlacedStep>): seq<Seen> {
    seq(|steps|, k requires 0 <= k < |steps| => Seen(steps[k].observation, id, steps[k].position))
  }

  /** Every step of every instance, in the order in which they are visited. */
  function AllSeen(instances: seq<Instance>): seq<Seen> {
    if instances == [] then []
    else AllSeen(instances[..|instances| - 1]) + SeenIn(instances[|instances| - 1].id, instances[|instances| - 1].steps)
  }

  predicate IsLast(seen: seq<Seen>, n: nat) {
    n < |seen| && forall m :: n < m < |seen| ==> seen[m].observation != seen[n].observation
  }

  /** Each observation is placed where it was seen last, and nothing else is placed. */
  ghost predicate Records(p: Placement, seen: seq<Seen>) {
    && Consistent(p)
    && (forall o :: o in p.instance <==> exists n :: 0 <= n < |seen| && seen[n].observation == o)
    && (forall n :: 0 <= n < |seen| && IsLast(seen, n) ==>
         seen[n].observation in p.instance
         && p.instance[seen[n].observation] == seen[n].instance && p.position[seen[n].observation] == seen[n].position)
  }

  /** The two dictionaries from observations to instances and positions. */
  method PlaceObservations(instances: seq<Instance>) returns (p: Placement)
    ensures Records(p, AllSeen(instances))
  {
    hide Records, SeenIn;
    p := Placement(map[], map[]);
    NothingRecorded();
    for i := 0 to |instances|
      invariant Records(p, AllSeen(instances[..i]))
    {
      var id, steps := instances[i].id, instances[i].steps;
      ghost var before := AllSeen(instances[..i]);
      assert before + SeenIn(id, steps[..0]) == before by { NoSteps(id, steps); }
      for k := 0 to |steps|
        invariant Records(p, before + SeenIn(id, steps[..k]))
      {
        OneMoreStep(id, steps, k);
        RecordOne(p, before + SeenIn(id, steps[..k]), Seen(steps[k].observation, id, steps[k].position));
        assert before + SeenIn(id, steps[..k + 1])
            == before + SeenIn(id, steps[..k]) + [Seen(steps[k].observation, id, steps[k].position)];
        p := Placement(p.instance[steps[k].observation := id], p.position[steps[k].observation := steps[k].position]);
      }
      assert steps[..|steps|] == steps;
      assert instances[..i + 1][..i] == instances[..i] && instances[..i + 1][i] == instances[i];
    }
    assert instances[..|instances|] == instances;
  }

  lemma NothingRecorded()
    ensures Records(Placement(map[], map[]), [])
  {
  }

  lemma NoSteps(id: string, steps: seq<PlacedStep>)
    ensures SeenIn(id, steps[..0]) == []
  {
  }

  lemma OneMoreStep(id: string, steps: seq<PlacedStep>, k: nat)
    requires k < |steps|
    ensures SeenIn(id, steps[..k + 1]) == SeenIn(id, steps[..k]) + [Seen(steps[k].observation, id, steps[k].position)]
  {
  }

  lemma RecordOne(p: Placement, seen: seq<Seen>, s: Seen)
    requires Records(p, seen)
    ensures Records(Placement(p.instance[s.observation := s.instance], p.position[s.observation := s.position]),
        seen + [s])
  {
    var q := Placement(p.instance[s.observation := s.instance], p.position[s.observation := s.position]);
    var all := seen + [s];
    assert all[|seen|] == s;
    forall o ensures o in q.instance <==> exists n :: 0 <= n < |all| && all[n].observation == o {
      if n :| 0 <= n < |seen| && seen[n].observation == o {
        assert all[n].observation == o;
      }
    }
    forall n | 0 <= n < |all| && IsLast(all, n)
      ensures all[n].observation in q.instance
      ensures q.instance[all[n].observation] == all[n].instance && q.position[all[n].observation] == all[n].position
    {
      if n < |seen| {
        assert all[|seen|].observation != all[n].observation;
        forall m | n < m < |seen| ensures seen[m].observation != seen[n].observation {
          assert all[m] == seen[m];
        }
        assert IsLast(seen, n);
      }
    }
  }

  /** Counts the pairs of one journey: retained ones, and the rest as under-merged. */
  method CountPairs(places: Places) returns (known: nat, retained: nat, under: nat)
    ensures known == PairCount(|places|) && retained == RetainedPairs(places) && under == known - retained
  {
    known, retained, under := 0, 0, 0;
    ghost var n := |places|;
    for left := 0 to |places|
      invariant known == retained + under
      invariant retained + RetainedPairs(places[left..]) == RetainedPairs(places)
      invariant known + PairCount(n - left) == PairCount(n)
    {
      ghost var before, pairs := retained, known;
      assert places[left..][0] == places[left] && places[left..][1..] == places[left + 1..];
      for right := left + 1 to |places|
        invariant known == retained + under
        invariant retained + RetainedWith(places[left], places[right..])
            == before + RetainedWith(places[left], places[left + 1..])
        invariant known == pairs + (right - left - 1)
      {
        assert places[right..][0] == places[right] && places[right..][1..] == places[right + 1..];
        known := known + 1;
        if places[left] == places[right] && places[left].Some? {
          retained := retained + 1;
        } else {
          under := under + 1;
        }
      }
      assert places[|places|..] == [];
      PairCountGrows(n - left - 1);
    }
    assert places[|places|..] == [];
  }

  method MeasureJourney(p: Placement, ids: map<string, string>, j: Journey) returns (m: Metrics)
    requires Consistent(p) && forall s :: s in j.steps ==> s in ids
    ensures m == Contribution(p, ids, j)
  {
    hide PlacesOf, FragmentCount, RetainedPairs, PairCount, InOrder;
    m := Metrics(0, 0, 0, 0, 0, 0);
    var places := PlacesOf(p, ids, j.steps);
    var fragments := FragmentCount(places);
    if fragments > j.maxFragments {
      m := m.(fragmented := 1);
    }
    var sameComponent := fragments == 1 && None !in places;
    var ordered := IsOrdered(p, ids, j);
    if sameComponent && !ordered {
      m := m.(orderViolations := 1);
    }
    if sameComponent && ordered {
      m := m.(retained := 1);
    }
    var known, kept, under := CountPairs(places);
    m := m.(knownPairs := known, retainedPairs := kept, underMergePairs := under);
  }

  method MeasureJourneys(p: Placement, ids: map<string, string>, journeys: seq<Journey>) returns (m: Metrics)
    requires Consistent(p) && KnownSteps(ids, journeys)
    ensures m == Total(p, ids, journeys)
  {
    hide Contribution;
    m := Metrics(0, 0, 0, 0, 0, 0);
    for i := 0 to |journeys|
      invariant m == Total(p, ids, journeys[..i])
    {
      assert journeys[..i + 1][..i] == journeys[..i] && journeys[..i + 1][i] == journeys[i];
      var one := MeasureJourney(p, ids, journeys[i]);
      m := Plus(m, one);
    }
    assert journeys[..|journeys|] == journeys;
  }

  // ----- Main results over all journeys

  function CountWhole(p: Placement, ids: map<string, string>, journeys: seq<Journey>): nat
    requires KnownSteps(ids, journeys)
  {
    if journeys == [] then 0
    else CountWhole(p, ids, journeys[..|journeys| - 1]) + if IsWhole(p, ids, journeys[|journeys| - 1]) then 1 else 0
  }

  predicate AllWhole(p: Placement, ids: map<string, string>, journeys: seq<Journey>)
    requires KnownSteps(ids, journeys)
  {
    forall j :: 0 <= j < |journeys| ==> IsWhole(p, ids, journeys[j])
  }

  /** Pairs are conserved, whole journeys are either retained or out of order, and component recall
      is perfect exactly when every journey is in one fragment. */
  lemma {:induction false} JourneyTotals(p: Placement, ids: map<string, string>, journeys: seq<Journey>)
    requires Consistent(p) && KnownSteps(ids, journeys)
    ensures var m := Total(p, ids, journeys);
      && m.retainedPairs + m.underMergePairs == m.knownPairs
      && m.retained + m.orderViolations == CountWhole(p, ids, journeys)
      && m.retainedPairs <= m.knownPairs
      && (m.retainedPairs == m.knownPairs <==> AllWhole(p, ids, journeys))
  {
    if journeys != [] {
      hide Contribution, IsWhole, AllWhole;
      var n := |journeys| - 1;
      JourneyTotals(p, ids, journeys[..n]);
      ContributionFacts(p, ids, journeys[n]);
      LastWhole(p, ids, journeys);
    }
  }

  lemma LastWhole(p: Placement, ids: map<string, string>, journeys: seq<Journey>)
    requires KnownSteps(ids, journeys) && journeys != []
    ensures AllWhole(p, ids, journeys) <==>
      AllWhole(p, ids, journeys[..|journeys| - 1]) && IsWhole(p, ids, journeys[|journeys| - 1])
  {
    hide IsWhole;
    var n := |journeys| - 1;
    if AllWhole(p, ids, journeys[..n]) && IsWhole(p, ids, journeys[n]) {
      forall j | 0 <= j < |journeys| ensures IsWhole(p, ids, journeys[j]) {
        if j < n {
          assert journeys[..n][j] == journeys[j];
        }
      }
    }
  }

  lemma ContributionFacts(p: Placement, ids: map<string, string>, j: Journey)
    requires Consistent(p) && |j.steps| >= 2 && forall s :: s in j.steps ==> s in ids
    ensures var m := Contribution(p, ids, j);
      && m.retainedPairs + m.underMergePairs == m.knownPairs
      && m.retained + m.orderViolations == (if IsWhole(p, ids, j) then 1 else 0)
      && (m.retainedPairs == m.knownPairs <==> IsWhole(p, ids, j))
  {
    hide RetainedPairs, PairCount, FragmentCount, InOrder;
    var places := PlacesOf(p, ids, j.steps);
    AllRetainedIffWhole(places);
    if FragmentCount(places) == 1 {
      WholeIsFound(places);
    }
  }

  // ----- What the counts mean

  /** The pairs of places, earlier first, that hold the same instance. */
  ghost function SamePairs(places: Places): set<(nat, nat)> {
    set i: nat, j: nat | i < j < |places| && places[i].Some? && places[i] == places[j] :: (i, j)
  }

  ghost function PlacesWith(places: Places, p: Option<string>): set<nat> {
    set i: nat | i < |places| && places[i] == p
  }

  lemma {:induction false} CountOfLast(places: Places, p: Option<string>)
    requires places != []
    ensures CountOf(places, p) == CountOf(places[..|places| - 1], p) + if places[|places| - 1] == p then 1 else 0
  {
    if |places| > 1 {
      CountOfLast(places[1..], p);
      assert places[1..][..|places| - 2] == places[..|places| - 1][1..];
    }
  }

  lemma {:induction false} CountOfMeans(places: Places, p: Option<string>)
    ensures CountOf(places, p) == |PlacesWith(places, p)|
    decreases |places|
  {
    if places == [] {
      assert PlacesWith(places, p) == {};
    } else {
      var n: nat := |places| - 1;
      CountOfMeans(places[..n], p);
      CountOfLast(places, p);
      var before, all := PlacesWith(places[..n], p), PlacesWith(places, p);
      forall i: nat ensures i in all <==> i in before || (i == n && places[n] == p) {
        if i < n {
          assert places[..n][i] == places[i];
        }
      }
      assert n !in before;
      hide PlacesWith, CountOf;
      if places[n] == p {
        assert all == before + {n};
      } else {
        assert all == before;
      }
    }
  }

  lemma {:induction false} RetainedLast(places: Places)
    requires places != []
    ensures RetainedPairs(places) ==
      RetainedPairs(places[..|places| - 1]) + RetainedWith(places[|places| - 1], places[..|places| - 1])
  {
    var n := |places| - 1;
    var last := places[n];
    if n > 0 {
      RetainedLast(places[1..]);
      assert places[1..][..n - 1] == places[..n][1..] && places[1..][n - 1] == last;
      CountOfLast(places[1..], places[0]);
      assert places[..n] == [places[0]] + places[..n][1..];
      assert places[..n][0] == places[0];
    }
  }

  /** Retained pairs are exactly the pairs of steps found in the same instance. */
  lemma {:induction false} RetainedPairsMean(places: Places)
    ensures RetainedPairs(places) == |SamePairs(places)|
    decreases |places|
  {
    if places == [] {
      assert SamePairs(places) == {};
    } else {
      var n: nat := |places| - 1;
      RetainedPairsMean(places[..n]);
      RetainedLast(places);
      CountOfMeans(places[..n], places[n]);
      PairsLast(places);
    }
  }

  lemma PairsLast(places: Places)
    requires places != []
    ensures var n := |places| - 1;
      |SamePairs(places)| == |SamePairs(places[..n])|
        + if places[n].Some? then |PlacesWith(places[..n], places[n])| else 0
  {
    var n: nat := |places| - 1;
    var before := SamePairs(places[..n]);
    var ends := if places[n].Some? then PlacesWith(places[..n], places[n]) else {};
    assert forall q :: q in before ==> q.1 < n;
    hide SamePairs, PlacesWith;
    forall q: (nat, nat) ensures q in SamePairs(places) <==> q in before || q in EndingAt(ends, n) {
      PairPlaced(places, q.0, q.1);
    }
    assert SamePairs(places) == before + EndingAt(ends, n);
    assert before !! EndingAt(ends, n);
    PairedCardinality(ends, n);
  }

  ghost function EndingAt(s: set<nat>, n: nat): set<(nat, nat)> {
    set i | i in s :: (i, n)
  }

  lemma PairPlaced(places: Places, i: nat, j: nat)
    requires places != []
    ensures var n: nat := |places| - 1;
      (i, j) in SamePairs(places) <==>
        (i, j) in SamePairs(places[..n]) || (j == n && places[n].Some? && i in PlacesWith(places[..n], places[n]))
  {
    var n: nat := |places| - 1;
    if i < n {
      assert places[..n][i] == places[i];
    }
    if j < n {
      assert places[..n][j] == places[j];
    }
  }

  lemma {:induction false} PairedCardinality(s: set<nat>, n: nat)
    ensures |EndingAt(s, n)| == |s|
  {
    if s == {} {
      assert EndingAt(s, n) == {};
    } else {
      var x :| x in s;
      PairedCardinality(s - {x}, n);
      assert EndingAt(s, n) == EndingAt(s - {x}, n) + {(x, n)};
      assert (x, n) !in EndingAt(s - {x}, n);
    }
  }

  /** Fragments: one for every instance that holds a step and one for every step not found. */
  lemma FragmentsMean(places: Places)
    ensures FragmentCount(places) == |set q | q in places && q.Some? ::
        q.value| + |set i: nat | i < |places| && places[i].None?|
  {
    CountOfMeans(places, None);
    assert PlacesWith(places, None) == set i: nat | i < |places| && places[i].None?;
  }

  /** The steps of the journey all stand in instance v. */
  predicate AllIn(p: Placement, ids: map<string, string>, j: Journey, v: string)
    requires forall s :: s in j.steps ==> s in ids
  {
    forall i :: 0 <= i < |j.steps| ==> Place(p, ids[j.steps[i]]) == Some(v)
  }

  /** Every step of the journey stands before the next one. */
  predicate Ascends(p: Placement, ids: map<string, string>, j: Journey)
    requires forall s :: s in j.steps ==> s in ids
  {
    forall i, k :: 0 <= i < |j.steps| && k == i + 1 && k < |j.steps| ==>
      && ids[j.steps[i]] in p.position && ids[j.steps[k]] in p.position
      && p.position[ids[j.steps[i]]] < p.position[ids[j.steps[k]]]
  }

  lemma WholeMeans(p: Placement, ids: map<string, string>, j: Journey)
    requires |j.steps| >= 2 && forall s :: s in j.steps ==> s in ids
    ensures IsWhole(p, ids, j) <==> exists v :: AllIn(p, ids, j, v)
  {
    var places := PlacesOf(p, ids, j.steps);
    FragmentsAtMostSteps(places);
    if IsWhole(p, ids, j) {
      WholeIsFound(places);
      WholeInstance(places, places[0]);
      assert places[0] in places;
      AllTheSame(places, places[0]);
      assert forall i :: 0 <= i < |places| ==> places[i] == Place(p, ids[j.steps[i]]);
      assert AllIn(p, ids, j, places[0].value);
    }
    if v :| AllIn(p, ids, j, v) {
      assert forall i :: 0 <= i < |places| ==> places[i] == Some(v);
      SameIsWhole(places, v);
    }
  }

  lemma {:induction false} AllTheSame(places: Places, p: Option<string>)
    requires CountOf(places, p) == |places|
    ensures forall i :: 0 <= i < |places| ==> places[i] == p
  {
    if places != [] {
      CountMembers(places[1..], p);
      AllTheSame(places[1..], p);
      assert places == [places[0]] + places[1..];
    }
  }

  lemma SameIsWhole(places: Places, v: string)
    requires places != [] && forall i :: 0 <= i < |places| ==> places[i] == Some(v)
    ensures FragmentCount(places) == 1
  {
    CountMembers(places, None);
    assert places[0] in places;
    assert Ids(places) == {v};
  }

  /** What a journey adds: retained when all its steps stand in one instance, in strictly ascending
      positions unless it was derived; out of order when whole but not retained; fragmented when it
      falls into more parts than allowed. */
  lemma ContributionMeans(p: Placement, ids: map<string, string>, j: Journey)
    requires Consistent(p) && |j.steps| >= 2 && forall s :: s in j.steps ==> s in ids
    ensures var m := Contribution(p, ids, j);
      var whole := exists v :: AllIn(p, ids, j, v);
      && m.retained + m.orderViolations == (if whole then 1 else 0)
      && (m.retained == 1 <==> whole && ("derived:" <= j.key || Ascends(p, ids, j)))
      && (m.fragmented == 1 <==> FragmentCount(PlacesOf(p, ids, j.steps)) > j.maxFragments) && m.fragmented <= 1
      && m.knownPairs == |j.steps| * (|j.steps| - 1) / 2
  {
    WholeMeans(p, ids, j);
    ContributionFacts(p, ids, j);
    var places := PlacesOf(p, ids, j.steps);
    hide RetainedPairs, FragmentCount;
    if IsWhole(p, ids, j) {
      WholeIsFound(places);
      AllPlaced(p, ids, j.steps);
    }
    assert IsDerivedKey(j.key) <==> "derived:" <= j.key;
  }
}
