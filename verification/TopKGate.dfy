/** Top-K hypothesis metrics and the COMPLETE_TOP_K label gate of the workflow benchmark. */
module TopKGate {
  import opened Domain
  import opened Ordering

  datatype Label = Label(key: string, family: string, action: string, evidence: set<string>,
      semanticKey: Option<string>)

  datatype Item = Item(id: string, family: string, action: string, observations: set<string>, semanticKey: string,
      total: int)

  datatype Labels = Labels(expected: seq<Label>, forbidden: seq<Label>, unknown: seq<Label>) {
    function Outputs(): seq<Label> { expected + forbidden }
    function All(): seq<Label> { expected + forbidden + unknown }
  }

  // ----- Static validation

  datatype Selector = Selector(semanticKey: Option<string>, family: string, action: string, evidence: set<string>)

  function SelectorOf(l: Label): Selector {
    Selector(l.semanticKey, l.family, l.action, l.evidence)
  }

  /** What `_validate_static_labels` demands of hypothesis labels: known evidence, distinct keys and
      selectors, and no unknown labels under the complete policy. */
  predicate StaticallyValid(labels: Labels, entries: set<string>, complete: bool) {
    var all := labels.All();
    && (forall l :: l in all ==> l.evidence <= entries)
    && (forall i, j :: 0 <= i < j < |all| ==> all[i].key != all[j].key)
    && (forall i, j :: 0 <= i < j < |all| ==> SelectorOf(all[i]) != SelectorOf(all[j]))
    && (complete ==> labels.unknown == [])
  }

  // ----- Matching and classification

  /** `ids` maps labelled entries to observations; labels mention known entries only. */
  predicate Matches(l: Label, item: Item, ids: map<string, string>) {
    if l.semanticKey.Some? then l.semanticKey.value == item.semanticKey
    else
      && item.family == l.family && item.action == l.action
      && var wanted := set e | e in l.evidence && e in ids :: ids[e];
         wanted == {} || wanted * item.observations != {}
  }

  function CountLabels(labels: seq<Label>, item: Item, ids: map<string, string>): nat {
    if labels == [] then 0 else (if Matches(labels[0], item, ids) then 1 else 0) + CountLabels(labels[1..], item, ids)
  }

  function CountItems(l: Label, items: seq<Item>, ids: map<string, string>): nat {
    if items == [] then 0 else (if Matches(l, items[0], ids) then 1 else 0) + CountItems(l, items[1..], ids)
  }

  datatype Class = Expected | Forbidden | Unlabeled | Ambiguous

  function Classify(labels: Labels, item: Item, ids: map<string, string>): Class {
    var e, f := CountLabels(labels.expected, item, ids), CountLabels(labels.forbidden, item, ids);
    if e + f + CountLabels(labels.unknown, item, ids) > 1 then Ambiguous
    else if e > 0 then Expected
    else if f > 0 then Forbidden
    else Unlabeled
  }

  function CountClass(labels: Labels, items: seq<Item>, ids: map<string, string>, c: Class): nat {
    if items == [] then 0
    else (if Classify(labels, items[0], ids) == c then 1 else 0) + CountClass(labels, items[1..], ids, c)
  }

  function FoundKeys(expected: seq<Label>, items: seq<Item>, ids: map<string, string>): set<string> {
    set l | l in expected && (exists i :: i in items && Matches(l, i, ids)) :: l.key
  }

  datatype KCounts = KCounts(emitted: nat, expected: nat, forbidden: nat, unknown: nat, found: nat, total: nat) {
    function Labeled(): nat { expected + forbidden }
    function LabeledPrecision(): real { if Labeled() == 0 then 1.0 else expected as real / Labeled() as real }
    function Coverage(): real { if emitted == 0 then 1.0 else Labeled() as real / emitted as real }
    function UnknownRate(): real { if emitted == 0 then 0.0 else unknown as real / emitted as real }
    function PrecisionLowerBound(): real { if emitted == 0 then 1.0 else expected as real / emitted as real }
    function Recall(): real { if total == 0 then 1.0 else found as real / total as real }
  }

  function CountsFor(labels: Labels, selected: seq<Item>, ids: map<string, string>): KCounts {
    KCounts(|selected|, CountClass(labels, selected, ids, Expected), CountClass(labels, selected, ids, Forbidden),
            CountClass(labels, selected, ids, Unlabeled), |FoundKeys(labels.expected, selected, ids)|,
                |labels.expected|)
  }

  function ByScore(): Item -> Key {
    (i: Item) => Key([0 - i.total], [i.id])
  }

  function Take(items: seq<Item>, k: nat): seq<Item> {
    if k <= |items| then items[..k] else items
  }

  function MaxOf(ks: seq<nat>): nat
    requires ks != []
  {
    if |ks| == 1 || ks[0] > MaxOf(ks[1..]) then ks[0] else MaxOf(ks[1..])
  }

  /** The gate on the largest selection: distinct semantic keys, every output label on exactly one
      item, and no item without a label. */
  predicate GatePasses(labels: Labels, selected: seq<Item>, ids: map<string, string>) {
    && (forall i, j :: 0 <= i < j < |selected| ==> selected[i].semanticKey != selected[j].semanticKey)
    && (forall l :: l in labels.Outputs() ==> CountItems(l, selected, ids) == 1)
    && (forall i :: i in selected ==> Classify(labels, i, ids) != Unlabeled)
  }

  predicate NoneAmbiguous(labels: Labels, items: seq<Item>, ids: map<string, string>) {
    forall i :: i in items ==> Classify(labels, i, ids) != Ambiguous
  }

  function RankItems(items: seq<Item>): seq<Item> {
    SortBy(items, ByScore())
  }

  // ----- What a selection for K is, whatever way it is computed

  /** a is emitted before b, or they do not differ in anything that is compared. */
  predicate ScoresBefore(a: Item, b: Item) {
    a.total > b.total || (a.total == b.total && !StringLess(b.id, a.id))
  }

  /** Nothing left out is better than something selected. */
  ghost predicate BeatsRest(selected: seq<Item>, rest: multiset<Item>) {
    forall x, y :: x in rest && y in selected ==> ScoresBefore(y, x)
  }

  /** K of the items, or all if there are fewer: the best ones, best first. */
  ghost predicate IsTopK(selected: seq<Item>, items: seq<Item>, k: nat) {
    && |selected| == (if k <= |items| then k else |items|)
    && multiset(selected) <= multiset(items)
    && (forall i, j :: 0 <= i < j < |selected| ==> ScoresBefore(selected[i], selected[j]))
    && BeatsRest(selected, multiset(items) - multiset(selected))
  }

  lemma ScoreKeyMeans(a: Item, b: Item)
    ensures LessEq(ByScore()(a), ByScore()(b)) <==> ScoresBefore(a, b)
  {
    FirstNumber([0 - b.total], [0 - a.total]);
    assert [0 - b.total][1..] == [] && [0 - a.total][1..] == [];
    OneText(b.id, a.id);
    assert [0 - b.total][0] == 0 - b.total && [0 - a.total][0] == 0 - a.total;
    assert a.total == b.total ==> [0 - b.total] == [0 - a.total];
  }

  lemma RankedBefore(items: seq<Item>)
    ensures multiset(RankItems(items)) == multiset(items) && |RankItems(items)| == |items|
    ensures forall i, j :: 0 <= i < j < |items| ==> ScoresBefore(RankItems(items)[i], RankItems(items)[j])
  {
    SortBySorts(items, ByScore());
    hide LessEq, ScoresBefore;
    forall i, j | 0 <= i < j < |items| ensures ScoresBefore(RankItems(items)[i], RankItems(items)[j]) {
      ScoreKeyMeans(RankItems(items)[i], RankItems(items)[j]);
    }
  }

  lemma SplitAt(items: seq<Item>, n: nat)
    requires n <= |items|
    ensures multiset(items[..n]) <= multiset(items) && multiset(items) - multiset(items[..n]) == multiset(items[n..])
  {
    assert items == items[..n] + items[n..];
    assert multiset(items) == multiset(items[..n]) + multiset(items[n..]);
  }

  lemma LaterIsWorse(ranked: seq<Item>, n: nat)
    requires forall i, j :: 0 <= i < j < |ranked| ==> ScoresBefore(ranked[i], ranked[j])
    requires n <= |ranked|
    ensures BeatsRest(ranked[..n], multiset(ranked[n..]))
  {
    hide ScoresBefore;
    forall x, y | x in ranked[n..] && y in ranked[..n] ensures ScoresBefore(y, x) {
      var i :| 0 <= i < n && ranked[i] == y;
      var j :| 0 <= j < |ranked[n..]| && ranked[n..][j] == x;
      assert ranked[n + j] == x;
    }
  }

  lemma SelectionIsTopK(items: seq<Item>, k: nat)
    ensures IsTopK(Take(RankItems(items), k), items, k)
  {
    var ranked := RankItems(items);
    var n := if k <= |items| then k else |items|;
    RankedBefore(items);
    hide RankItems, ScoresBefore, BeatsRest;
    SplitAt(ranked, n);
    LaterIsWorse(ranked, n);
    assert Take(ranked, k) == ranked[..n];
  }

  /** The counts are those of a best selection of k items. */
  ghost predicate CountsTopK(c: KCounts, labels: Labels, items: seq<Item>, ids: map<string, string>, k: nat) {
    exists selected :: IsTopK(selected, items, k) && c == CountsFor(labels, selected, ids)
  }

  // ----- The evaluation

  /** None is the label error of the source. */
  method HypothesisMetrics(labels: Labels, items: seq<Item>, ids: map<string, string>, complete: bool, ks: seq<nat>)
    returns (counts: Option<seq<KCounts>>)
    requires ks != []
    ensures counts.Some? <==>
      NoneAmbiguous(labels, items, ids) && (complete ==> GatePasses(labels, Take(RankItems(items), MaxOf(ks)), ids))
    ensures counts.Some? ==> |counts.value| == |ks|
    ensures counts.Some? ==> forall i :: 0 <= i < |ks| ==>
        counts.value[i] == CountsFor(labels, Take(RankItems(items), ks[i]), ids)
    ensures counts.Some? ==> forall i :: 0 <= i < |ks| ==> CountsTopK(counts.value[i], labels, items, ids, ks[i])
  {
    var ranked := RankItems(items);
    RankedAmbiguity(labels, items, ids);
    hide Classify, CountsFor, RankItems, GatePasses, NoneAmbiguous, IsTopK;
    var unambiguous := CheckClasses(labels, ranked, ids);
    if !unambiguous {
      return None;
    }
    var result: seq<KCounts> := [];
    for i := 0 to |ks|
      invariant |result| == i
      invariant forall j :: 0 <= j < i ==> result[j] == CountsFor(labels, Take(ranked, ks[j]), ids)
      invariant forall j :: 0 <= j < i ==> CountsTopK(result[j], labels, items, ids, ks[j])
    {
      var one := CountSelected(labels, Take(ranked, ks[i]), ids);
      SelectionIsTopK(items, ks[i]);
      result := result + [one];
    }
    if complete {
      var passes := RunGate(labels, Take(ranked, MaxOf(ks)), ids);
      if !passes {
        return None;
      }
    }
    counts := Some(result);
  }

  lemma RankedAmbiguity(labels: Labels, items: seq<Item>, ids: map<string, string>)
    ensures NoneAmbiguous(labels, RankItems(items), ids) <==> NoneAmbiguous(labels, items, ids)
  {
    SortBySorts(items, ByScore());
    MultisetMembers(items, RankItems(items));
    hide Classify, RankItems;
  }

  method CheckClasses(labels: Labels, items: seq<Item>, ids: map<string, string>) returns (ok: bool)
    ensures ok <==> NoneAmbiguous(labels, items, ids)
  {
    for i := 0 to |items|
      invariant NoneAmbiguous(labels, items[..i], ids)
    {
      assert items[..i + 1] == items[..i] + [items[i]];
      if Classify(labels, items[i], ids) == Ambiguous {
        assert items[i] in items;
        return false;
      }
    }
    assert items[..|items|] == items;
    ok := true;
  }

  method CountSelected(labels: Labels, selected: seq<Item>, ids: map<string, string>) returns (c: KCounts)
    ensures c == CountsFor(labels, selected, ids)
  {
    var e, f, u := 0, 0, 0;
    for i := 0 to |selected|
      invariant e + CountClass(labels, selected[i..], ids, Expected) == CountClass(labels, selected, ids, Expected)
      invariant f + CountClass(labels, selected[i..], ids, Forbidden) == CountClass(labels, selected, ids, Forbidden)
      invariant u + CountClass(labels, selected[i..], ids, Unlabeled) == CountClass(labels, selected, ids, Unlabeled)
    {
      hide Classify;
      assert selected[i..][0] == selected[i] && selected[i..][1..] == selected[i + 1..];
      var class_ := Classify(labels, selected[i], ids);
      if class_ == Expected { e := e + 1; }
      if class_ == Forbidden { f := f + 1; }
      if class_ == Unlabeled { u := u + 1; }
    }
    assert selected[|selected|..] == [];
    c := KCounts(|selected|, e, f, u, |FoundKeys(labels.expected, selected, ids)|, |labels.expected|);
  }

  method RunGate(labels: Labels, selected: seq<Item>, ids: map<string, string>) returns (ok: bool)
    ensures ok <==> GatePasses(labels, selected, ids)
  {
    if exists i, j :: 0 <= i < j < |selected| && selected[i].semanticKey == selected[j].semanticKey {
      return false;
    }
    hide Classify, CountItems;
    var outputs := labels.Outputs();
    for i := 0 to |outputs|
      invariant forall l :: l in outputs[..i] ==> CountItems(l, selected, ids) == 1
    {
      assert outputs[..i + 1] == outputs[..i] + [outputs[i]];
      if CountItems(outputs[i], selected, ids) != 1 {
        assert outputs[i] in outputs;
        return false;
      }
    }
    assert outputs[..|outputs|] == outputs;
    for i := 0 to |selected|
      invariant forall s :: s in selected[..i] ==> Classify(labels, s, ids) != Unlabeled
    {
      assert selected[..i + 1] == selected[..i] + [selected[i]];
      if Classify(labels, selected[i], ids) == Unlabeled {
        assert selected[i] in selected;
        return false;
      }
    }
    assert selected[..|selected|] == selected;
    ok := true;
  }

  // ----- Double counting

  function SumOverLabels(labels: seq<Label>, items: seq<Item>, ids: map<string, string>): nat {
    if labels == [] then 0 else CountItems(labels[0], items, ids) + SumOverLabels(labels[1..], items, ids)
  }

  function SumOverItems(labels: seq<Label>, items: seq<Item>, ids: map<string, string>): nat {
    if items == [] then 0 else CountLabels(labels, items[0], ids) + SumOverItems(labels, items[1..], ids)
  }

  lemma {:induction false} SumNoLabels(items: seq<Item>, ids: map<string, string>)
    ensures SumOverItems([], items, ids) == 0
  {
    if items != [] {
      SumNoLabels(items[1..], ids);
    }
  }

  lemma {:induction false} SumOneMoreLabel(l: Label, labels: seq<Label>, items: seq<Item>, ids: map<string, string>)
    ensures SumOverItems([l] + labels, items, ids) == CountItems(l, items, ids) + SumOverItems(labels, items, ids)
  {
    assert ([l] + labels)[1..] == labels;
    if items != [] {
      SumOneMoreLabel(l, labels, items[1..], ids);
    }
  }

  /** Counting matches by label or by item gives the same number. */
  lemma {:induction false} DoubleCounting(labels: seq<Label>, items: seq<Item>, ids: map<string, string>)
    ensures SumOverLabels(labels, items, ids) == SumOverItems(labels, items, ids)
  {
    if labels == [] {
      SumNoLabels(items, ids);
    } else {
      DoubleCounting(labels[1..], items, ids);
      SumOneMoreLabel(labels[0], labels[1..], items, ids);
      assert labels == [labels[0]] + labels[1..];
    }
  }

  lemma {:induction false} OneItemEach(labels: seq<Label>, items: seq<Item>, ids: map<string, string>)
    requires forall l :: l in labels ==> CountItems(l, items, ids) == 1
    ensures SumOverLabels(labels, items, ids) == |labels|
  {
    if labels != [] {
      assert forall l :: l in labels[1..] ==> l in labels;
      OneItemEach(labels[1..], items, ids);
    }
  }

  lemma {:induction false} ClassesAreSums(labels: Labels, items: seq<Item>, ids: map<string, string>)
    requires NoneAmbiguous(labels, items, ids)
    ensures CountClass(labels, items, ids, Expected) == SumOverItems(labels.expected, items, ids)
    ensures CountClass(labels, items, ids, Forbidden) == SumOverItems(labels.forbidden, items, ids)
    ensures CountClass(labels, items, ids, Expected) + CountClass(labels, items, ids, Forbidden)
            + CountClass(labels, items, ids, Unlabeled) == |items|
  {
    if items != [] {
      assert items[0] in items;
      assert forall i :: i in items[1..] ==> i in items;
      ClassesAreSums(labels, items[1..], ids);
    }
  }

  lemma {:induction false} NoneUnlabeled(labels: Labels, items: seq<Item>, ids: map<string, string>)
    requires forall i :: i in items ==> Classify(labels, i, ids) != Unlabeled
    ensures CountClass(labels, items, ids, Unlabeled) == 0
  {
    if items != [] {
      assert forall i :: i in items[1..] ==> i in items;
      NoneUnlabeled(labels, items[1..], ids);
    }
  }

  lemma {:induction false} CountItemsFinds(l: Label, items: seq<Item>, ids: map<string, string>)
    ensures CountItems(l, items, ids) > 0 <==> exists i :: i in items && Matches(l, i, ids)
  {
    if items != [] {
      CountItemsFinds(l, items[1..], ids);
      assert items == [items[0]] + items[1..];
      assert items[0] in items;
    }
  }

  lemma {:induction false} DistinctKeyCount(labels: seq<Label>)
    requires forall i, j :: 0 <= i < j < |labels| ==> labels[i].key != labels[j].key
    ensures |set l | l in labels :: l.key| == |labels|
  {
    if labels != [] {
      DistinctKeyCount(labels[1..]);
      var rest := set l | l in labels[1..] :: l.key;
      assert labels == [labels[0]] + labels[1..];
      assert (set l | l in labels :: l.key) == rest + {labels[0].key};
      assert labels[0].key !in rest;
    }
  }

  // ----- Main results

  /** Passing the gate puts reviewed labels and emitted outputs in bijection: every label matches
      exactly one output, every output exactly one label, and there are equally many. */
  lemma GateForcesBijection(labels: Labels, entries: set<string>, selected: seq<Item>, ids: map<string, string>)
    requires StaticallyValid(labels, entries, true) && GatePasses(labels, selected, ids)
        && NoneAmbiguous(labels, selected, ids)
    ensures |labels.Outputs()| == |selected|
    ensures forall l :: l in labels.Outputs() ==> CountItems(l, selected, ids) == 1
    ensures forall i :: i in selected ==> CountLabels(labels.Outputs(), i, ids) == 1
  {
    forall i | i in selected ensures CountLabels(labels.Outputs(), i, ids) == 1 {
      CountSplit(labels.expected, labels.forbidden, i, ids);
    }
    OneItemEach(labels.Outputs(), selected, ids);
    DoubleCounting(labels.Outputs(), selected, ids);
    OneLabelEach(labels.Outputs(), selected, ids);
  }

  lemma {:induction false} CountSplit(a: seq<Label>, b: seq<Label>, item: Item, ids: map<string, string>)
    ensures CountLabels(a + b, item, ids) == CountLabels(a, item, ids) + CountLabels(b, item, ids)
  {
    if a == [] {
      assert a + b == b;
    } else {
      CountSplit(a[1..], b, item, ids);
      assert (a + b)[0] == a[0] && (a + b)[1..] == a[1..] + b;
    }
  }

  lemma {:induction false} OneLabelEach(labels: seq<Label>, items: seq<Item>, ids: map<string, string>)
    requires forall i :: i in items ==> CountLabels(labels, i, ids) == 1
    ensures SumOverItems(labels, items, ids) == |items|
  {
    if items != [] {
      assert forall i :: i in items[1..] ==> i in items;
      assert items[0] in items;
      OneLabelEach(labels, items[1..], ids);
    }
  }

  /** The rates of counts without unknowns. */
  lemma FullCoverage(c: KCounts)
    requires c.emitted == c.Labeled() && c.unknown == 0
    ensures c.Coverage() == 1.0 && c.UnknownRate() == 0.0 && c.LabeledPrecision() == c.PrecisionLowerBound()
    ensures c.found == c.total ==> c.Recall() == 1.0
  {
    SelfRatio(c.emitted);
    SelfRatio(c.total);
    assert c.Labeled() as real == c.emitted as real;
  }

  lemma SelfRatio(n: nat)
    ensures n > 0 ==> n as real / n as real == 1.0
  {
  }

  lemma GatedCounts(labels: Labels, entries: set<string>, selected: seq<Item>, ids: map<string, string>)
    requires StaticallyValid(labels, entries, true) && GatePasses(labels, selected, ids)
        && NoneAmbiguous(labels, selected, ids)
    ensures var c := CountsFor(labels, selected, ids);
      && c.expected == |labels.expected| && c.forbidden == |labels.forbidden| && c.unknown == 0
      && c.found == |labels.expected| == c.total && c.emitted == c.Labeled()
  {
    GateForcesBijection(labels, entries, selected, ids);
    hide Classify, CountClass, CountItems, CountLabels, SumOverLabels, SumOverItems, FoundKeys, StaticallyValid;
    ClassesAreSums(labels, selected, ids);
    NoneUnlabeled(labels, selected, ids);
    assert forall l :: l in labels.expected || l in labels.forbidden ==> l in labels.Outputs();
    OneItemEach(labels.expected, selected, ids);
    OneItemEach(labels.forbidden, selected, ids);
    DoubleCounting(labels.expected, selected, ids);
    DoubleCounting(labels.forbidden, selected, ids);
    AllFound(labels, entries, selected, ids);
  }

  /** At the gated selection coverage and recall are 1, nothing is unknown, and labeled precision is
      its own lower bound |expected| / (|expected| + |forbidden|). */
  lemma GatedMetrics(labels: Labels, entries: set<string>, selected: seq<Item>, ids: map<string, string>)
    requires StaticallyValid(labels, entries, true) && GatePasses(labels, selected, ids)
        && NoneAmbiguous(labels, selected, ids)
    ensures var c := CountsFor(labels, selected, ids);
      && c.Coverage() == 1.0 && c.Recall() == 1.0 && c.UnknownRate() == 0.0
      && c.LabeledPrecision() == c.PrecisionLowerBound()
      && (|labels.expected| + |labels.forbidden| > 0 ==>
           c.LabeledPrecision() == |labels.expected| as real / (|labels.expected| + |labels.forbidden|) as real)
  {
    hide CountsFor, StaticallyValid, GatePasses, NoneAmbiguous;
    GatedCounts(labels, entries, selected, ids);
    FullCoverage(CountsFor(labels, selected, ids));
  }

  lemma AllFound(labels: Labels, entries: set<string>, selected: seq<Item>, ids: map<string, string>)
    requires StaticallyValid(labels, entries, true)
    requires forall l :: l in labels.expected ==> CountItems(l, selected, ids) == 1
    ensures |FoundKeys(labels.expected, selected, ids)| == |labels.expected|
  {
    forall l | l in labels.expected ensures exists i :: i in selected && Matches(l, i, ids) {
      CountItemsFinds(l, selected, ids);
    }
    assert FoundKeys(labels.expected, selected, ids) == set l | l in labels.expected :: l.key;
    assert forall i :: 0 <= i < |labels.expected| ==> labels.All()[i] == labels.expected[i];
    DistinctKeyCount(labels.expected);
  }

  /** The gate reaches down to every smaller K as well: nothing emitted there is unknown. */
  lemma GateCoversSmallerK(labels: Labels, selected: seq<Item>, ids: map<string, string>, k: nat)
    requires GatePasses(labels, selected, ids) && NoneAmbiguous(labels, selected, ids) && k <= |selected|
    ensures var c := CountsFor(labels, selected[..k], ids);
      c.unknown == 0 && c.Coverage() == 1.0 && c.LabeledPrecision() == c.PrecisionLowerBound()
  {
    hide Classify, CountClass, FoundKeys;
    assert forall i :: i in selected[..k] ==> i in selected;
    ClassesAreSums(labels, selected[..k], ids);
    NoneUnlabeled(labels, selected[..k], ids);
    FullCoverage(CountsFor(labels, selected[..k], ids));
  }

  // ----- End to end

  lemma {:induction false} LargestOf(ks: seq<nat>)
    requires ks != []
    ensures MaxOf(ks) in ks && forall k :: k in ks ==> k <= MaxOf(ks)
  {
    if |ks| > 1 {
      LargestOf(ks[1..]);
      assert ks == [ks[0]] + ks[1..];
    }
  }

  lemma SelectionIsUnambiguous(labels: Labels, items: seq<Item>, ids: map<string, string>, k: nat)
    requires NoneAmbiguous(labels, items, ids)
    ensures NoneAmbiguous(labels, Take(RankItems(items), k), ids)
  {
    RankedAmbiguity(labels, items, ids);
    hide Classify, RankItems;
    assert forall i :: i in Take(RankItems(items), k) ==> i in RankItems(items);
  }

  /** A complete evaluation that succeeds: its largest selection is in bijection with the reviewed
      labels and scores perfectly, and no smaller K emits anything unknown. */
  lemma CompleteEvaluationIsGated(labels: Labels, entries: set<string>, items: seq<Item>, ids: map<string, string>,
      ks: seq<nat>)
    requires ks != [] && StaticallyValid(labels, entries, true)
    requires NoneAmbiguous(labels, items, ids) && GatePasses(labels, Take(RankItems(items), MaxOf(ks)), ids)
    ensures var selected := Take(RankItems(items), MaxOf(ks));
      var c := CountsFor(labels, selected, ids);
      && IsTopK(selected, items, MaxOf(ks)) && MaxOf(ks) in ks && (forall k :: k in ks ==> k <= MaxOf(ks))
      && |labels.Outputs()| == |selected|
      && (forall l :: l in labels.Outputs() ==> CountItems(l, selected, ids) == 1)
      && (forall i :: i in selected ==> CountLabels(labels.Outputs(), i, ids) == 1)
      && c.Coverage() == 1.0 && c.Recall() == 1.0 && c.UnknownRate() == 0.0
          && c.LabeledPrecision() == c.PrecisionLowerBound()
    ensures forall k :: k in ks ==>
      var c := CountsFor(labels, Take(RankItems(items), k), ids);
      c.unknown == 0 && c.Coverage() == 1.0 && c.LabeledPrecision() == c.PrecisionLowerBound()
  {
    hide GatePasses, NoneAmbiguous, StaticallyValid, CountsFor, CountItems, CountLabels, RankItems;
    var selected := Take(RankItems(items), MaxOf(ks));
    SelectionIsUnambiguous(labels, items, ids, MaxOf(ks));
    SelectionIsTopK(items, MaxOf(ks));
    hide IsTopK;
    GateForcesBijection(labels, entries, selected, ids);
    GatedMetrics(labels, entries, selected, ids);
    LargestOf(ks);
    forall k | k in ks
      ensures var c := CountsFor(labels, Take(RankItems(items), k), ids);
        c.unknown == 0 && c.Coverage() == 1.0 && c.LabeledPrecision() == c.PrecisionLowerBound()
    {
      var m := if k <= |selected| then k else |selected|;
      assert Take(RankItems(items), k) == selected[..m];
      GateCoversSmallerK(labels, selected, ids, m);
    }
  }
}
