/** Recommending one captured authentication candidate, and its agreement with storing it. */
module Recommendation {
  import opened Domain
  import opened Ordering
  import opened SecretStores
  import opened Authentication

  /** The current profile to compare with, if the actor has a configured one. */
  function Current(profile: Option<Profile>): Option<Profile> {
    if IsConfigured(profile) then profile else None
  }

  /** Component names are compared after lower-casing and trimming, by a given function. */
  function Required(current: Option<Profile>, normalize: string -> string): set<string> {
    if current.None? then {} else set c | c in current.value.components && c.replayRequired :: normalize(c.name)
  }

  function Offered(c: AuthCandidate, normalize: string -> string): set<string> {
    set k | k in c.components :: normalize(k.name)
  }

  predicate Later(a: Option<int>, b: Option<int>) {
    a.Some? && b.Some? && a.value > b.value
  }

  predicate Comparable(a: Option<int>, b: Option<int>) {
    a.Some? && b.Some?
  }

  predicate InScope(cfg: Config, c: AuthCandidate) {
    c.observedHost.Some? && cfg.covered(c.observedHost.value)
  }

  predicate IsCurrentAt(c: AuthCandidate, now: int) {
    (c.notBefore.Some? ==> c.notBefore.value <= now) && (c.expiresAt.Some? ==> c.expiresAt.value > now)
  }

  /** Known to be no newer than what is stored. */
  predicate IsStale(current: Profile, c: AuthCandidate) {
    (Comparable(c.capturedAt, current.capturedAt) || Comparable(c.expiresAt, current.expiresAt))
    && !Later(c.capturedAt, current.capturedAt) && !Later(c.expiresAt, current.expiresAt)
  }

  predicate Eligible(cfg: Config, profile: Option<Profile>, c: AuthCandidate, normalize: string -> string, now: int) {
    var current := Current(profile);
    && InScope(cfg, c)
    && IsCurrentAt(c, now)
    && (current.Some? ==>
         && IdentityContinuity(current.value.identity.hints, c.hints) != OtherActor
         && Required(current, normalize) <= Offered(c, normalize)
         && !IsStale(current.value, c))
  }

  function ContinuityRank(current: Option<Profile>, c: AuthCandidate): int {
    if current.None? then 1
    else match IdentityContinuity(current.value.identity.hints, c.hints)
         case OtherActor => 0
         case SameActor => 3
         case Unknown => 2
  }

  function Flag(b: bool): int { if b then 1 else 0 }

  /** An unknown instant ranks below every known one. */
  function InstantRank(t: Option<int>): seq<int> {
    if t.None? then [0, 0] else [1, t.value]
  }

  function CountPrimary(captured: seq<Captured>): nat {
    if captured == [] then 0
    else Flag(captured[0].purpose != "csrf" && captured[0].purpose != "other") + CountPrimary(captured[1..])
  }

  function Score(cfg: Config, profile: Option<Profile>, c: AuthCandidate, normalize: string -> string, now: int): Key {
    var current := Current(profile);
    Key([Flag(Eligible(cfg, profile, c, normalize, now)), ContinuityRank(current, c),
         Flag(current.Some? && Offered(c, normalize) == Required(current, normalize)),
         Flag(current.Some? && c.authType == current.value.authType),
         Flag(c.baseline.Some? && IsSuccess(c.baseline.value.expectedStatus))]
        + InstantRank(c.expiresAt) + InstantRank(c.capturedAt) + [CountPrimary(c.components), c.sourceIndex], [])
  }

  datatype Answer = NoActor | AnonymousReceiver | NothingDetected | Assessed(recommended: Option<nat>,
      eligible: seq<bool>)

  /** n is eligible and beats every other eligible candidate, strictly if it comes earlier. */
  ghost predicate IsBest(cfg: Config, profile: Option<Profile>, candidates: seq<AuthCandidate>,
      normalize: string -> string, now: int, n: nat) {
    && n < |candidates| && Eligible(cfg, profile, candidates[n], normalize, now)
    && (forall j :: 0 <= j < |candidates| && Eligible(cfg, profile, candidates[j], normalize, now) ==>
         LessEq(Score(cfg, profile, candidates[j], normalize, now), Score(cfg, profile, candidates[n], normalize, now)))
    && (forall j :: 0 <= j < n && Eligible(cfg, profile, candidates[j], normalize, now) ==>
         Less(Score(cfg, profile, candidates[j], normalize, now), Score(cfg, profile, candidates[n], normalize, now)))
  }

  method Recommend(cfg: Config, w: World, actor: string, candidates: seq<AuthCandidate>, normalize: string -> string,
      now: int)
    returns (answer: Answer)
    ensures answer == NoActor <==> actor !in w.accounts
    ensures answer == AnonymousReceiver <==> actor in w.accounts && IsAnonymous(w.accounts[actor])
    ensures answer == NothingDetected <==> actor in w.accounts && !IsAnonymous(w.accounts[actor]) && candidates == []
    ensures answer.Assessed? ==>
      var profile := w.accounts[actor].profile;
      && |answer.eligible| == |candidates|
      && (forall j :: 0 <= j < |candidates| ==>
          answer.eligible[j] == Eligible(cfg, profile, candidates[j], normalize, now))
      && (answer.recommended.None? <==> forall j :: 0 <= j < |candidates| ==> !answer.eligible[j])
      && (answer.recommended.Some? ==> IsBest(cfg, profile, candidates, normalize, now, answer.recommended.value))
  {
    if actor !in w.accounts { return NoActor; }
    if IsAnonymous(w.accounts[actor]) { return AnonymousReceiver; }
    if candidates == [] { return NothingDetected; }
    hide Eligible, Score;
    var profile := w.accounts[actor].profile;
    var eligible: seq<bool> := [];
    var best: Option<nat> := None;
    for i := 0 to |candidates|
      invariant |eligible| == i
      invariant forall j :: 0 <= j < i ==> eligible[j] == Eligible(cfg, profile, candidates[j], normalize, now)
      invariant best.None? <==> forall j :: 0 <= j < i ==> !eligible[j]
      invariant best.Some? ==> best.value < i && IsBest(cfg, profile, candidates[..i], normalize, now, best.value)
    {
      var ok := Eligible(cfg, profile, candidates[i], normalize, now);
      eligible := eligible + [ok];
      assert candidates[..i + 1] == candidates[..i] + [candidates[i]];
      if ok && (best.None? || Less(Score(cfg, profile, candidates[best.value], normalize, now),
          Score(cfg, profile, candidates[i], normalize, now))) {
        TakeOver(cfg, profile, candidates[..i], candidates[i], normalize, now, best);
        best := Some(i);
      } else if best.Some? {
        Remain(cfg, profile, candidates[..i], candidates[i], normalize, now, best.value);
      }
    }
    assert candidates[..|candidates|] == candidates;
    answer := Assessed(best, eligible);
  }

  lemma TakeOver(cfg: Config, profile: Option<Profile>, before: seq<AuthCandidate>, c: AuthCandidate,
      normalize: string -> string, now: int, best: Option<nat>)
    requires Eligible(cfg, profile, c, normalize, now)
    requires best.None? ==> forall j :: 0 <= j < |before| ==> !Eligible(cfg, profile, before[j], normalize, now)
    requires best.Some? ==> IsBest(cfg, profile, before, normalize, now, best.value)
    requires best.Some? ==>
        Less(Score(cfg, profile, before[best.value], normalize, now), Score(cfg, profile, c, normalize, now))
    ensures IsBest(cfg, profile, before + [c], normalize, now, |before|)
  {
    hide Eligible, Score;
    var all := before + [c];
    var s := Score(cfg, profile, c, normalize, now);
    KeyTotal(s, s);
    forall j | 0 <= j < |before| && Eligible(cfg, profile, all[j], normalize, now)
      ensures Less(Score(cfg, profile, all[j], normalize, now), s)
          && LessEq(Score(cfg, profile, all[j], normalize, now), s)
    {
      var t, b := Score(cfg, profile, before[j], normalize, now),
          Score(cfg, profile, before[best.value], normalize, now);
      assert all[j] == before[j];
      KeyTotal(t, s);
      KeyTotal(b, s);
      KeyTotal(t, b);
      KeyTransitive(t, b, s);
      if t == s {
        KeyTransitive(s, t, b);
      }
    }
  }

  lemma Remain(cfg: Config, profile: Option<Profile>, before: seq<AuthCandidate>, c: AuthCandidate,
      normalize: string -> string, now: int, best: nat)
    requires IsBest(cfg, profile, before, normalize, now, best)
    requires Eligible(cfg, profile, c, normalize, now) ==>
               LessEq(Score(cfg, profile, c, normalize, now), Score(cfg, profile, before[best], normalize, now))
    ensures IsBest(cfg, profile, before + [c], normalize, now, best)
  {
    hide Eligible, Score, Less;
    assert forall j :: 0 <= j < |before| ==> (before + [c])[j] == before[j];
  }

  /** With distinct source indices the recommendation is the one strict maximum. */
  lemma BestIsUniqueMaximum(cfg: Config, profile: Option<Profile>, candidates: seq<AuthCandidate>,
      normalize: string -> string, now: int, n: nat, j: nat)
    requires IsBest(cfg, profile, candidates, normalize, now, n)
    requires forall i, k :: 0 <= i < k < |candidates| ==> candidates[i].sourceIndex != candidates[k].sourceIndex
    requires j < |candidates| && j != n && Eligible(cfg, profile, candidates[j], normalize, now)
    ensures Less(Score(cfg, profile, candidates[j], normalize, now), Score(cfg, profile, candidates[n], normalize, now))
  {
    var s, t := Score(cfg, profile, candidates[j], normalize, now), Score(cfg, profile, candidates[n], normalize, now);
    KeyTotal(s, t);
    assert s.numbers[10] == candidates[j].sourceIndex && t.numbers[10] == candidates[n].sourceIndex;
  }

  /** Recommendation agrees with storage: an eligible candidate, stored as an observed renewal
      under the same target and clock, is never refused for scope or identity, and the profile it
      leaves is neither expired nor marked as another actor's. */
  lemma EligibleStoresCleanly(cfg: Config, w: World, actor: string, c: AuthCandidate, source: CaptureSource,
      normalize: string -> string, now: int)
    requires actor in w.accounts && !IsAnonymous(w.accounts[actor])
    requires Eligible(cfg, w.accounts[actor].profile, c, normalize, now)
    ensures var (v, error) := StoreCandidate(cfg, w, actor, c, source, true, now);
      && (error == None <==> ValidBatch(Entries(cfg, actor, c.components)))
      && (error != None ==> error == Some(InvalidBatch) && v == w)
      && (error == None ==>
           var status := v.accounts[actor].profile.value.status;
           status != Expired && status != ContextChanged && (status == ExpiringSoon || status == InitialStatus(c)))
  {
    hide Entries, Components, ValidBatch, PutAll, Required, Offered, RevokeAll;
  }

  /** Without the renewal flag the same store is marked exactly when a configured actor's identity
      cannot be compared with the candidate's. */
  lemma PlainStoreIsMarkedIff(cfg: Config, w: World, actor: string, c: AuthCandidate, source: CaptureSource,
      normalize: string -> string, now: int)
    requires actor in w.accounts && !IsAnonymous(w.accounts[actor])
    requires Eligible(cfg, w.accounts[actor].profile, c, normalize, now)
        && ValidBatch(Entries(cfg, actor, c.components))
    ensures var v := StoreCandidate(cfg, w, actor, c, source, false, now).0;
      v.accounts[actor].profile.Some? &&
      (v.accounts[actor].profile.value.status == ContextChanged <==>
        var current := Current(w.accounts[actor].profile);
        current.Some? && IdentityContinuity(current.value.identity.hints, c.hints) == Unknown)
  {
    hide Entries, Components, ValidBatch, PutAll, Required, Offered, RevokeAll;
  }

  // ----- What makes a candidate eligible, and what makes it better

  predicate IsCovered(profile: Profile, c: AuthCandidate, normalize: string -> string) {
    forall i :: 0 <= i < |profile.components| && profile.components[i].replayRequired ==>
      exists k :: 0 <= k < |c.components| && normalize(c.components[k].name) == normalize(profile.components[i].name)
  }

  /** Known to be newer in capture or in expiry. */
  predicate IsNewer(profile: Profile, c: AuthCandidate) {
    (c.capturedAt.Some? && profile.capturedAt.Some? && c.capturedAt.value > profile.capturedAt.value)
    || (c.expiresAt.Some? && profile.expiresAt.Some? && c.expiresAt.value > profile.expiresAt.value)
  }

  predicate CannotTell(profile: Profile, c: AuthCandidate) {
    (c.capturedAt.None? || profile.capturedAt.None?) && (c.expiresAt.None? || profile.expiresAt.None?)
  }

  predicate HasStored(profile: Option<Profile>) {
    profile.Some? && profile.value.authType != "none" && profile.value.authType != "unconfigured"
  }

  /** Eligible: from a known host in scope, valid now, and, next to a stored credential, not another
      identity's, with all its replayed components, and newer or not comparable. */
  lemma EligibleMeans(cfg: Config, profile: Option<Profile>, c: AuthCandidate, normalize: string -> string, now: int)
    ensures Eligible(cfg, profile, c, normalize, now) <==>
      && c.observedHost.Some? && cfg.covered(c.observedHost.value)
      && (c.notBefore.Some? ==> c.notBefore.value <= now) && (c.expiresAt.Some? ==> now < c.expiresAt.value)
      && (HasStored(profile) ==>
           && IdentityContinuity(profile.value.identity.hints, c.hints) != OtherActor
           && IsCovered(profile.value, c, normalize)
           && (IsNewer(profile.value, c) || CannotTell(profile.value, c)))
  {
    if HasStored(profile) {
      CoveredMeans(profile.value, c, normalize);
    }
    hide Required, Offered, IdentityContinuity, IsCovered;
  }

  lemma CoveredMeans(profile: Profile, c: AuthCandidate, normalize: string -> string)
    requires HasStored(Some(profile))
    ensures Required(Some(profile), normalize) <= Offered(c, normalize) <==> IsCovered(profile, c, normalize)
  {
    var required, offered := Required(Some(profile), normalize), Offered(c, normalize);
    if required <= offered {
      forall i | 0 <= i < |profile.components| && profile.components[i].replayRequired
        ensures exists k ::
            0 <= k < |c.components| && normalize(c.components[k].name) == normalize(profile.components[i].name)
      {
        assert profile.components[i] in profile.components;
        assert normalize(profile.components[i].name) in offered;
        var x :| x in c.components && normalize(x.name) == normalize(profile.components[i].name);
        var k :| 0 <= k < |c.components| && c.components[k] == x;
      }
    }
    if IsCovered(profile, c, normalize) {
      forall n | n in required ensures n in offered {
        var x :| x in profile.components && x.replayRequired && normalize(x.name) == n;
        var i :| 0 <= i < |profile.components| && profile.components[i] == x;
        var k :| 0 <= k < |c.components| && normalize(c.components[k].name) == normalize(profile.components[i].name);
        assert c.components[k] in c.components;
      }
    }
  }

  /** What is known about a candidate's identity next to the stored one: nothing stored or nothing to
      compare, a conflict, or a match. */
  predicate MatchesStored(profile: Option<Profile>, c: AuthCandidate) {
    HasStored(profile) && IdentityContinuity(profile.value.identity.hints, c.hints) == SameActor
  }

  predicate ReplaysName(components: seq<Component>, name: string, normalize: string -> string) {
    exists i :: 0 <= i < |components| && components[i].replayRequired && normalize(components[i].name) == name
  }

  predicate SameNames(profile: Option<Profile>, c: AuthCandidate, normalize: string -> string) {
    HasStored(profile) && IsCovered(profile.value, c, normalize)
    && forall k :: 0 <= k < |c.components| ==>
         ReplaysName(profile.value.components, normalize(c.components[k].name), normalize)
  }

  predicate SameType(profile: Option<Profile>, c: AuthCandidate) {
    HasStored(profile) && c.authType == profile.value.authType
  }

  predicate Succeeded(c: AuthCandidate) {
    c.baseline.Some? && c.baseline.value.expectedStatus.Some? && 200 <= c.baseline.value.expectedStatus.value <= 299
  }

  /** A known instant beats an unknown one, and a later one an earlier one. */
  predicate LaterInstant(a: Option<int>, b: Option<int>) {
    a.Some? && (b.None? || a.value > b.value)
  }

  function PrimaryPlaces(captured: seq<Captured>): set<nat> {
    set k: nat | k < |captured| && captured[k].purpose !in {"csrf", "other"}
  }

  function Primaries(c: AuthCandidate): nat {
    |PrimaryPlaces(c.components)|
  }

  predicate Wins(x: bool, y: bool) {
    x && !y
  }

  /** a is better than b: compared by identity match, equal component names, equal kind, a successful
      baseline, later expiry, later capture, more primary components and the later entry, in this
      order of weight. */
  predicate Better(profile: Option<Profile>, a: AuthCandidate, b: AuthCandidate, normalize: string -> string) {
    var match1, match2 := MatchesStored(profile, a), MatchesStored(profile, b);
    var names1, names2 := SameNames(profile, a, normalize), SameNames(profile, b, normalize);
    var type1, type2 := SameType(profile, a), SameType(profile, b);
    var good1, good2 := Succeeded(a), Succeeded(b);
    Wins(match1, match2) || (match1 == match2 &&
      (Wins(names1, names2) || (names1 == names2 &&
        (Wins(type1, type2) || (type1 == type2 &&
          (Wins(good1, good2) || (good1 == good2 &&
            (LaterInstant(a.expiresAt, b.expiresAt) || (a.expiresAt == b.expiresAt &&
              (LaterInstant(a.capturedAt, b.capturedAt) || (a.capturedAt == b.capturedAt &&
                (Primaries(a) > Primaries(b)
                    || (Primaries(a) == Primaries(b) && a.sourceIndex > b.sourceIndex)))))))))))))
  }

  lemma {:induction false} PrimaryCount(captured: seq<Captured>)
    ensures CountPrimary(captured) == |PrimaryPlaces(captured)|
    decreases |captured|
  {
    if captured == [] {
      assert PrimaryPlaces(captured) == {};
    } else {
      var n: nat := |captured| - 1;
      PrimaryCount(captured[..n]);
      PrimaryLast(captured);
      var before, all := PrimaryPlaces(captured[..n]), PrimaryPlaces(captured);
      forall k: nat ensures k in all <==> k in before || (k == n && captured[n].purpose !in {"csrf", "other"}) {
        if k < n {
          assert captured[..n][k] == captured[k];
        }
      }
      assert n !in before;
      if n in all {
        assert all == before + {n};
      } else {
        assert all == before;
      }
    }
  }

  lemma {:induction false} PrimaryLast(captured: seq<Captured>)
    requires captured != []
    ensures CountPrimary(captured) == CountPrimary(captured[..|captured| - 1])
      + if captured[|captured| - 1].purpose !in {"csrf", "other"} then 1 else 0
  {
    if |captured| > 1 {
      PrimaryLast(captured[1..]);
      assert captured[1..][..|captured| - 2] == captured[..|captured| - 1][1..];
    }
  }

  lemma NamesMean(profile: Profile, c: AuthCandidate, normalize: string -> string)
    requires HasStored(Some(profile)) && IsCovered(profile, c, normalize)
    ensures Offered(c, normalize) == Required(Some(profile), normalize) <==> SameNames(Some(profile), c, normalize)
  {
    CoveredMeans(profile, c, normalize);
    var required, offered := Required(Some(profile), normalize), Offered(c, normalize);
    if offered == required {
      forall k | 0 <= k < |c.components|
        ensures ReplaysName(profile.components, normalize(c.components[k].name), normalize)
      {
        assert c.components[k] in c.components;
        assert normalize(c.components[k].name) in required;
        var x :| x in profile.components && x.replayRequired && normalize(x.name) == normalize(c.components[k].name);
        var i :| 0 <= i < |profile.components| && profile.components[i] == x;
      }
      assert SameNames(Some(profile), c, normalize);
    }
    if SameNames(Some(profile), c, normalize) {
      forall n | n in offered ensures n in required {
        var x :| x in c.components && normalize(x.name) == n;
        var k :| 0 <= k < |c.components| && c.components[k] == x;
        assert ReplaysName(profile.components, normalize(c.components[k].name), normalize);
        var i :| 0 <= i < |profile.components| && profile.components[i].replayRequired
          && normalize(profile.components[i].name) == normalize(c.components[k].name);
        assert profile.components[i] in profile.components;
      }
      assert offered <= required && required <= offered;
    }
  }

  lemma LessFrom(a: seq<int>, b: seq<int>, i: nat)
    requires |a| == |b| && i < |a|
    ensures NumbersLess(a[i..], b[i..]) <==> a[i] < b[i] || (a[i] == b[i] && NumbersLess(a[i + 1..], b[i + 1..]))
  {
    FirstNumber(a[i..], b[i..]);
    assert a[i..][1..] == a[i + 1..] && b[i..][1..] == b[i + 1..];
  }

  /** Two numbers that spell an optional instant, in front of the rest. */
  lemma InstantsLess(a: seq<int>, b: seq<int>, i: nat, x: Option<int>, y: Option<int>)
    requires |a| == |b| && i + 1 < |a|
    requires a[i] == (if x.Some? then 1 else 0) && a[i + 1] == (if x.Some? then x.value else 0)
    requires b[i] == (if y.Some? then 1 else 0) && b[i + 1] == (if y.Some? then y.value else 0)
    ensures NumbersLess(a[i..], b[i..]) <==> LaterInstant(y, x) || (x == y && NumbersLess(a[i + 2..], b[i + 2..]))
  {
    LessFrom(a, b, i);
    LessFrom(a, b, i + 1);
    hide NumbersLess;
  }

  /** The eleven numbers that spell what is compared about a candidate. */
  predicate ScoreSpells(s: seq<int>, profile: Option<Profile>, c: AuthCandidate, normalize: string -> string) {
    && |s| == 11 && s[0] == 1
    && s[1] == (if MatchesStored(profile, c) then 3 else if HasStored(profile) then 2 else 1)
    && s[2] == (if SameNames(profile, c, normalize) then 1 else 0)
    && s[3] == (if SameType(profile, c) then 1 else 0)
    && s[4] == (if Succeeded(c) then 1 else 0)
    && s[5] == (if c.expiresAt.Some? then 1 else 0) && s[6] == (if c.expiresAt.Some? then c.expiresAt.value else 0)
    && s[7] == (if c.capturedAt.Some? then 1 else 0) && s[8] == (if c.capturedAt.Some? then c.capturedAt.value else 0)
    && s[9] == Primaries(c) && s[10] == c.sourceIndex
  }

  lemma ScoreParts(cfg: Config, profile: Option<Profile>, c: AuthCandidate, normalize: string -> string, now: int)
    ensures var s, current := Score(cfg, profile, c, normalize, now), Current(profile);
      && s.texts == [] && |s.numbers| == 11
      && s.numbers[0] == Flag(Eligible(cfg, profile, c, normalize, now)) && s.numbers[1] == ContinuityRank(current, c)
      && s.numbers[2] == Flag(current.Some? && Offered(c, normalize) == Required(current, normalize))
      && s.numbers[3] == Flag(current.Some? && c.authType == current.value.authType)
      && s.numbers[4] == Flag(c.baseline.Some? && IsSuccess(c.baseline.value.expectedStatus))
      && s.numbers[5..7] == InstantRank(c.expiresAt) && s.numbers[7..9] == InstantRank(c.capturedAt)
      && s.numbers[9] == CountPrimary(c.components) && s.numbers[10] == c.sourceIndex
  {
    hide Eligible, ContinuityRank, Current, Offered, Required, IsSuccess, CountPrimary, Flag;
  }

  lemma NumbersMean(cfg: Config, profile: Option<Profile>, c: AuthCandidate, normalize: string -> string, now: int)
    requires Eligible(cfg, profile, c, normalize, now)
    ensures var s := Score(cfg, profile, c, normalize, now);
      s.texts == [] && ScoreSpells(s.numbers, profile, c, normalize)
  {
    var s := Score(cfg, profile, c, normalize, now).numbers;
    ScoreParts(cfg, profile, c, normalize, now);
    PrimaryCount(c.components);
    EligibleMeans(cfg, profile, c, normalize, now);
    NamesFlag(profile, c, normalize);
    hide Score, Eligible, IdentityContinuity, Required, Offered, IsCovered, SameNames, CountPrimary;
    assert s[5] == s[5..7][0] && s[6] == s[5..7][1] && s[7] == s[7..9][0] && s[8] == s[7..9][1];
  }

  lemma NamesFlag(profile: Option<Profile>, c: AuthCandidate, normalize: string -> string)
    requires HasStored(profile) ==> IsCovered(profile.value, c, normalize)
    ensures Current(profile).Some? && Offered(c, normalize) == Required(Current(profile), normalize) <==>
        SameNames(profile, c, normalize)
  {
    if HasStored(profile) {
      NamesMean(profile.value, c, normalize);
    }
    hide Offered, Required, IsCovered;
  }

  lemma LastNumbersLess(q: seq<int>, p: seq<int>)
    requires |q| == |p| == 11
    ensures NumbersLess(q[9..], p[9..]) <==> q[9] < p[9] || (q[9] == p[9] && q[10] < p[10])
  {
    LessFrom(q, p, 9);
    LessFrom(q, p, 10);
    assert !NumbersLess(q[11..], p[11..]);
    hide NumbersLess;
  }

  lemma FirstNumbersLess(q: seq<int>, p: seq<int>)
    requires |q| == |p| == 11 && q[0] == p[0]
    ensures NumbersLess(q, p) <==>
      q[1] < p[1] || (q[1] == p[1] && (q[2] < p[2] || (q[2] == p[2] && (q[3] < p[3] || (q[3] == p[3] &&
      (q[4] < p[4] || (q[4] == p[4] && NumbersLess(q[5..], p[5..]))))))))
  {
    assert q[0..] == q && p[0..] == p;
    hide NumbersLess;
    LessFrom(q, p, 0);
    LessFrom(q, p, 1);
    LessFrom(q, p, 2);
    LessFrom(q, p, 3);
    LessFrom(q, p, 4);
  }

  lemma SpelledBetter(p: seq<int>, q: seq<int>, profile: Option<Profile>, a: AuthCandidate, b: AuthCandidate,
      normalize: string -> string)
    requires ScoreSpells(p, profile, a, normalize) && ScoreSpells(q, profile, b, normalize)
    ensures NumbersLess(q, p) <==> Better(profile, a, b, normalize)
  {
    hide NumbersLess, LaterInstant, MatchesStored, SameNames, SameType, Succeeded, Primaries, HasStored;
    FirstNumbersLess(q, p);
    InstantsLess(q, p, 5, b.expiresAt, a.expiresAt);
    InstantsLess(q, p, 7, b.capturedAt, a.capturedAt);
    LastNumbersLess(q, p);
  }

  /** Between eligible candidates the score prefers exactly the better one. */
  lemma BetterMeans(cfg: Config, profile: Option<Profile>, a: AuthCandidate, b: AuthCandidate,
      normalize: string -> string, now: int)
    requires Eligible(cfg, profile, a, normalize, now) && Eligible(cfg, profile, b, normalize, now)
    ensures Less(Score(cfg, profile, b, normalize, now), Score(cfg, profile, a, normalize, now)) <==>
        Better(profile, a, b, normalize)
  {
    var p, q := Score(cfg, profile, a, normalize, now).numbers, Score(cfg, profile, b, normalize, now).numbers;
    NumbersMean(cfg, profile, a, normalize, now);
    NumbersMean(cfg, profile, b, normalize, now);
    SpelledBetter(p, q, profile, a, b, normalize);
    hide Score, Eligible, NumbersLess, ScoreSpells, Better;
    assert !TextsLess([], []);
  }

  /** The recommended candidate in these terms: no other eligible one is better, and it is better than
      every eligible one before it. */
  lemma RecommendedIsBetter(cfg: Config, profile: Option<Profile>, candidates: seq<AuthCandidate>,
      normalize: string -> string, now: int, n: nat, j: nat)
    requires IsBest(cfg, profile, candidates, normalize, now, n)
    requires j < |candidates| && Eligible(cfg, profile, candidates[j], normalize, now)
    ensures !Better(profile, candidates[j], candidates[n], normalize)
    ensures j < n ==> Better(profile, candidates[n], candidates[j], normalize)
  {
    BetterMeans(cfg, profile, candidates[j], candidates[n], normalize, now);
    BetterMeans(cfg, profile, candidates[n], candidates[j], normalize, now);
    hide Score, Eligible, Better, Less;
  }
}
