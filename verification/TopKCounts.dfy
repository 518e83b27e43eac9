/** What the counts and rates of a selection mean, and the static validation of labels. */
module TopKCounts {
  import opened Domain
  import opened Ordering
  import opened TopKGate

  // ----- Matching

  /** With a semantic key only the key decides; otherwise family, action and, if the label names
      known evidence, one common observation. */
  lemma MatchesMeans(l: Label, item: Item, ids: map<string, string>)
    ensures l.semanticKey.Some? ==> (Matches(l, item, ids) <==> l.semanticKey == Some(item.semanticKey))
    ensures l.semanticKey.None? ==> (Matches(l, item, ids) <==>
        && l.family == item.family && l.action == item.action
        && ((forall e :: e in l.evidence ==> e !in ids)
            || exists e :: e in l.evidence && e in ids && ids[e] in item.observations))
  {
    var wanted := set e | e in l.evidence && e in ids :: ids[e];
    if e :| e in l.evidence && e in ids {
      assert ids[e] in wanted;
    }
    if e :| e in l.evidence && e in ids && ids[e] in item.observations {
      assert ids[e] in wanted * item.observations;
    }
    if o :| o in wanted * item.observations {
      var e :| e in l.evidence && e in ids && ids[e] == o;
    }
  }

  predicate AnyMatches(labels: seq<Label>, item: Item, ids: map<string, string>) {
    exists l :: l in labels && Matches(l, item, ids)
  }

  predicate TwoMatch(labels: seq<Label>, item: Item, ids: map<string, string>) {
    exists i, j :: 0 <= i < j < |labels| && Matches(labels[i], item, ids) && Matches(labels[j], item, ids)
  }

  lemma AnyCons(l: Label, rest: seq<Label>, item: Item, ids: map<string, string>)
    ensures AnyMatches([l] + rest, item, ids) <==> Matches(l, item, ids) || AnyMatches(rest, item, ids)
  {
    hide Matches;
    assert forall m :: m in [l] + rest <==> m == l || m in rest;
  }

  lemma TwoCons(l: Label, rest: seq<Label>, item: Item, ids: map<string, string>)
    ensures TwoMatch([l] + rest, item, ids) <==>
        TwoMatch(rest, item, ids) || (Matches(l, item, ids) && AnyMatches(rest, item, ids))
  {
    hide Matches, TwoMatch, AnyMatches;
    if TwoMatch([l] + rest, item, ids) {
      TwoSplits(l, rest, item, ids);
    }
    if TwoMatch(rest, item, ids) || (Matches(l, item, ids) && AnyMatches(rest, item, ids)) {
      TwoJoins(l, rest, item, ids);
    }
  }

  lemma TwoSplits(l: Label, rest: seq<Label>, item: Item, ids: map<string, string>)
    requires TwoMatch([l] + rest, item, ids)
    ensures TwoMatch(rest, item, ids) || (Matches(l, item, ids) && AnyMatches(rest, item, ids))
  {
    hide Matches, TwoMatch;
    var all := [l] + rest;
    var i, j := TwoOf(all, item, ids);
    assert all[j] == rest[j - 1] && rest[j - 1] in rest;
    if i > 0 {
      assert all[i] == rest[i - 1];
      TwoAt(rest, i - 1, j - 1, item, ids);
    }
  }

  lemma TwoJoins(l: Label, rest: seq<Label>, item: Item, ids: map<string, string>)
    requires TwoMatch(rest, item, ids) || (Matches(l, item, ids) && AnyMatches(rest, item, ids))
    ensures TwoMatch([l] + rest, item, ids)
  {
    hide Matches, TwoMatch;
    var all := [l] + rest;
    if TwoMatch(rest, item, ids) {
      var i, j := TwoOf(rest, item, ids);
      assert all[i + 1] == rest[i] && all[j + 1] == rest[j];
      TwoAt(all, i + 1, j + 1, item, ids);
    } else {
      var m :| m in rest && Matches(m, item, ids);
      var j :| 0 <= j < |rest| && rest[j] == m;
      assert all[j + 1] == m;
      TwoAt(all, 0, j + 1, item, ids);
    }
  }

  lemma TwoAt(labels: seq<Label>, i: nat, j: nat, item: Item, ids: map<string, string>)
    requires i < j < |labels| && Matches(labels[i], item, ids) && Matches(labels[j], item, ids)
    ensures TwoMatch(labels, item, ids)
  {
    hide Matches;
  }

  lemma TwoOf(labels: seq<Label>, item: Item, ids: map<string, string>) returns (i: nat, j: nat)
    requires TwoMatch(labels, item, ids)
    ensures i < j < |labels| && Matches(labels[i], item, ids) && Matches(labels[j], item, ids)
  {
    hide Matches;
    i, j :| 0 <= i < j < |labels| && Matches(labels[i], item, ids) && Matches(labels[j], item, ids);
  }

  lemma {:induction false} CountLabelsMeans(labels: seq<Label>, item: Item, ids: map<string, string>)
    ensures CountLabels(labels, item, ids) > 0 <==> AnyMatches(labels, item, ids)
    ensures CountLabels(labels, item, ids) > 1 <==> TwoMatch(labels, item, ids)
  {
    if labels != [] {
      CountLabelsMeans(labels[1..], item, ids);
      AnyCons(labels[0], labels[1..], item, ids);
      TwoCons(labels[0], labels[1..], item, ids);
      assert labels == [labels[0]] + labels[1..];
      hide Matches, AnyMatches, TwoMatch;
    }
  }

  /** An item raises the label error exactly when two of all the labels match it. */
  lemma AmbiguousMeans(labels: Labels, item: Item, ids: map<string, string>)
    ensures Classify(labels, item, ids) == Ambiguous <==>
        exists i, j :: 0 <= i < j < |labels.All()|
          && Matches(labels.All()[i], item, ids) && Matches(labels.All()[j], item, ids)
  {
    CountSplit(labels.expected + labels.forbidden, labels.unknown, item, ids);
    CountSplit(labels.expected, labels.forbidden, item, ids);
    CountLabelsMeans(labels.All(), item, ids);
    hide CountLabels, Matches;
  }

  /** Otherwise it is expected or forbidden by the side that matches, and unlabeled when neither
      does, also if it carries an unknown label. */
  lemma ClassMeans(labels: Labels, item: Item, ids: map<string, string>)
    requires Classify(labels, item, ids) != Ambiguous
    ensures Classify(labels, item, ids) == Expected <==> AnyMatches(labels.expected, item, ids)
    ensures Classify(labels, item, ids) == Forbidden <==> AnyMatches(labels.forbidden, item, ids)
    ensures Classify(labels, item, ids) == Unlabeled <==>
        !AnyMatches(labels.expected, item, ids) && !AnyMatches(labels.forbidden, item, ids)
  {
    CountLabelsMeans(labels.expected, item, ids);
    CountLabelsMeans(labels.forbidden, item, ids);
    hide CountLabels, Matches;
  }

  // ----- Counts

  function Places(labels: Labels, items: seq<Item>, ids: map<string, string>, c: Class): set<nat> {
    set i: nat | i < |items| && Classify(labels, items[i], ids) == c
  }

  lemma {:induction false} CountClassMeans(labels: Labels, items: seq<Item>, ids: map<string, string>, c: Class)
    ensures CountClass(labels, items, ids, c) == |Places(labels, items, ids, c)|
    decreases |items|
  {
    if items == [] {
      assert Places(labels, items, ids, c) == {};
    } else {
      CountClassMeans(labels, items[..|items| - 1], ids, c);
      CountClassLast(labels, items, ids, c);
      hide Classify, CountClass, Places;
      PlacesLast(labels, items, ids, c);
    }
  }

  lemma PlacesLast(labels: Labels, items: seq<Item>, ids: map<string, string>, c: Class)
    requires items != []
    ensures |Places(labels, items, ids, c)| == |Places(labels, items[..|items| - 1], ids, c)|
        + if Classify(labels, items[|items| - 1], ids) == c then 1 else 0
  {
    hide Classify;
    var n: nat := |items| - 1;
    var before, all := Places(labels, items[..n], ids, c), Places(labels, items, ids, c);
    forall i: nat ensures i in all <==> i in before || (i == n && Classify(labels, items[n], ids) == c) {
      if i < n {
        assert items[..n][i] == items[i];
      }
    }
    assert n !in before;
    hide Places;
    if Classify(labels, items[n], ids) == c {
      assert all == before + {n};
    } else {
      assert all == before;
    }
  }

  lemma {:induction false} CountClassLast(labels: Labels, items: seq<Item>, ids: map<string, string>, c: Class)
    requires items != []
    ensures CountClass(labels, items, ids, c) == CountClass(labels, items[..|items| - 1], ids, c)
        + if Classify(labels, items[|items| - 1], ids) == c then 1 else 0
  {
    hide Classify;
    if |items| > 1 {
      CountClassLast(labels, items[1..], ids, c);
      assert items[1..][..|items| - 2] == items[..|items| - 1][1..];
    }
  }

  /** The counts of an unambiguous selection are the numbers of its places that match an expected
      label, a forbidden one, or neither, and of the expected keys that some item matches. */
  lemma CountsMean(labels: Labels, items: seq<Item>, ids: map<string, string>)
    requires NoneAmbiguous(labels, items, ids)
    ensures var c := CountsFor(labels, items, ids);
      && c.emitted == |items| && c.total == |labels.expected|
      && c.expected == |set i: nat | i < |items| && AnyMatches(labels.expected, items[i], ids)|
      && c.forbidden == |set i: nat | i < |items| && AnyMatches(labels.forbidden, items[i], ids)|
      && c.unknown == |set i: nat | i < |items|
           && !AnyMatches(labels.expected, items[i], ids) && !AnyMatches(labels.forbidden, items[i], ids)|
      && c.found == |set l | l in labels.expected && (exists i :: i in items && Matches(l, i, ids)) :: l.key|
  {
    CountClassMeans(labels, items, ids, Expected);
    CountClassMeans(labels, items, ids, Forbidden);
    CountClassMeans(labels, items, ids, Unlabeled);
    hide CountClass, Classify, Matches, AnyMatches;
    forall i: nat | i < |items|
      ensures Classify(labels, items[i], ids) == Expected <==> AnyMatches(labels.expected, items[i], ids)
      ensures Classify(labels, items[i], ids) == Forbidden <==> AnyMatches(labels.forbidden, items[i], ids)
      ensures Classify(labels, items[i], ids) == Unlabeled <==>
        !AnyMatches(labels.expected, items[i], ids) && !AnyMatches(labels.forbidden, items[i], ids)
    {
      assert items[i] in items;
      ClassMeans(labels, items[i], ids);
    }
    assert Places(labels, items, ids, Expected) == set i: nat | i < |items|
        && AnyMatches(labels.expected, items[i], ids);
    assert Places(labels, items, ids, Forbidden) == set i: nat | i < |items|
        && AnyMatches(labels.forbidden, items[i], ids);
    assert Places(labels, items, ids, Unlabeled) == set i: nat | i < |items|
      && !AnyMatches(labels.expected, items[i], ids) && !AnyMatches(labels.forbidden, items[i], ids);
  }

  lemma Quotient(a: nat, b: nat)
    requires b > 0
    ensures (a as real / b as real) * b as real == a as real
  {
  }

  /** Every rate times what it is a share of gives the counted part; with nothing to share, rates of
      success are 1 and the unknown rate is 0. */
  lemma RatesMean(c: KCounts)
    ensures c.Labeled() == c.expected + c.forbidden
    ensures if c.expected + c.forbidden == 0 then c.LabeledPrecision() == 1.0
            else c.LabeledPrecision() * (c.expected + c.forbidden) as real == c.expected as real
    ensures c.emitted == 0 ==> c.Coverage() == 1.0 && c.UnknownRate() == 0.0 && c.PrecisionLowerBound() == 1.0
    ensures c.emitted > 0 ==> c.Coverage() * c.emitted as real == (c.expected + c.forbidden) as real
    ensures c.emitted > 0 ==> c.UnknownRate() * c.emitted as real == c.unknown as real
    ensures c.emitted > 0 ==> c.PrecisionLowerBound() * c.emitted as real == c.expected as real
    ensures if c.total == 0 then c.Recall() == 1.0 else c.Recall() * c.total as real == c.found as real
  {
    if c.emitted > 0 {
      Quotient(c.Labeled(), c.emitted);
      Quotient(c.unknown, c.emitted);
      Quotient(c.expected, c.emitted);
    }
    if c.Labeled() > 0 {
      Quotient(c.expected, c.Labeled());
    }
    if c.total > 0 {
      Quotient(c.found, c.total);
    }
  }

  // ----- Static validation

  /** A list repeats nothing exactly when its set is as large. */
  lemma {:induction false} NoRepeats<T>(xs: seq<T>)
    ensures |set x | x in xs| <= |xs|
    ensures |set x | x in xs| == |xs| <==> Distinct(xs)
  {
    if xs != [] {
      var n := |xs| - 1;
      var init := xs[..n];
      NoRepeats(init);
      var before := set x | x in init;
      assert xs == init + [xs[n]];
      assert (set x | x in xs) == before + {xs[n]};
      if Distinct(xs) {
        assert xs[n] !in before;
      }
      if xs[n] !in before && Distinct(init) {
        forall i, j | 0 <= i < j < |xs| ensures xs[i] != xs[j] {
          if j == n {
            assert init[i] in before;
          } else {
            assert init[i] != init[j];
          }
        }
      }
      if xs[n] in before {
        var i :| 0 <= i < n && init[i] == xs[n];
        assert xs[i] == xs[n];
      } else if Distinct(xs) {
        assert forall i, j :: 0 <= i < j < n ==> init[i] == xs[i] && init[j] == xs[j];
      }
    }
  }

  predicate SameSelector(l: Label, m: Label) {
    l.semanticKey == m.semanticKey && l.family == m.family && l.action == m.action && l.evidence == m.evidence
  }

  lemma DistinctImage<T>(labels: seq<Label>, f: Label -> T, image: seq<T>)
    requires |image| == |labels| && forall i :: 0 <= i < |labels| ==> image[i] == f(labels[i])
    ensures Distinct(image) <==> forall i, j :: 0 <= i < j < |labels| ==> f(labels[i]) != f(labels[j])
  {
    if Distinct(image) {
      forall i, j | 0 <= i < j < |labels| ensures f(labels[i]) != f(labels[j]) {
        assert image[i] != image[j];
      }
    }
  }

  lemma ReferencedMeans(labels: seq<Label>, entries: set<string>)
    ensures (set l, e | l in labels && e in l.evidence :: e) <= entries <==>
        forall l :: l in labels ==> l.evidence <= entries
  {
    var referenced := set l, e | l in labels && e in l.evidence :: e;
    if referenced <= entries {
      forall l, e | l in labels && e in l.evidence ensures e in entries {
        assert e in referenced;
      }
    }
  }

  /** No two labels agree in what f takes of them. */
  predicate Separates<T(==)>(f: Label -> T, labels: seq<Label>) {
    forall i, j :: 0 <= i < j < |labels| ==> f(labels[i]) != f(labels[j])
  }

  lemma SizesTell<T>(labels: seq<Label>, f: Label -> T, image: seq<T>)
    requires |image| == |labels| && forall i :: 0 <= i < |labels| ==> image[i] == f(labels[i])
    ensures |image| == |set x | x in image| <==> Separates(f, labels)
  {
    NoRepeats(image);
    DistinctImage(labels, f, image);
  }

  /** The acceptance of labels, in plain terms and as the gate lemmas name it. */
  lemma ValidMeans(labels: Labels, entries: set<string>, complete: bool)
    ensures var all := labels.expected + labels.forbidden + labels.unknown;
      StaticallyValid(labels, entries, complete) <==>
      && (forall l :: l in all ==> l.evidence <= entries)
      && (forall i, j :: 0 <= i < j < |all| ==> all[i].key != all[j].key && !SameSelector(all[i], all[j]))
      && (complete ==> labels.unknown == [])
    ensures StaticallyValid(labels, entries, complete) <==>
      && (set l, e | l in labels.All() && e in l.evidence :: e) <= entries
      && Separates((l: Label) => l.key, labels.All()) && Separates((l: Label) => SelectorOf(l), labels.All())
      && (complete ==> labels.unknown == [])
  {
    ReferencedMeans(labels.All(), entries);
    SelectorsDiffer(labels.All());
  }

  lemma SelectorsDiffer(labels: seq<Label>)
    ensures Separates((l: Label) => SelectorOf(l), labels) <==>
        forall i, j :: 0 <= i < j < |labels| ==> !SameSelector(labels[i], labels[j])
  {
    assert forall l, m: Label :: SelectorOf(l) == SelectorOf(m) <==> SameSelector(l, m);
    hide SelectorOf, SameSelector;
  }

  /** `_validate_static_labels` for hypothesis labels: sizes of lists against sizes of sets. */
  method ValidateStaticLabels(labels: Labels, entries: set<string>, complete: bool) returns (ok: bool)
    ensures ok <==>
      var all := labels.expected + labels.forbidden + labels.unknown;
      && (forall l :: l in all ==> l.evidence <= entries)
      && (forall i, j :: 0 <= i < j < |all| ==> all[i].key != all[j].key && !SameSelector(all[i], all[j]))
      && (complete ==> labels.unknown == [])
    ensures ok <==> StaticallyValid(labels, entries, complete)
  {
    var all := labels.All();
    var referenced := set l, e | l in all && e in l.evidence :: e;
    var keys := seq(|all|, i requires 0 <= i < |all| => all[i].key);
    var selectors := seq(|all|, i requires 0 <= i < |all| => SelectorOf(all[i]));
    ValidMeans(labels, entries, complete);
    SizesTell(all, (l: Label) => l.key, keys);
    SizesTell(all, (l: Label) => SelectorOf(l), selectors);
    hide StaticallyValid, Separates, SelectorOf, SameSelector;
    ok := referenced <= entries && |keys| == |set k | k in keys| && |selectors| == |set s | s in selectors|
      && (complete ==> labels.unknown == []);
  }
}
