/** What each authentication operation amounts to for a caller, on every branch and in plain terms. */
module AuthOutcomes {
  import opened Domain
  import opened Json
  import opened SecretStores
  import opened RefreshTemplate
  import opened Authentication
  import opened AuthRuns
  import opened AuthLimits
  import Text
  import Id = Identity

  // ----- Identity and time

  predicate Differ(a: Option<string>, b: Option<string>) {
    a.Some? && b.Some? && a.value != b.value
  }

  predicate Agree(a: Option<string>, b: Option<string>) {
    a.Some? && b.Some? && a.value == b.value
  }

  /** Another actor as soon as subject, tenant or roles are known on both sides and differ; the same
      actor when none differs and at least one is known on both sides; otherwise unknown. */
  lemma ContinuityMeans(a: Hints, b: Hints)
    ensures var c := IdentityContinuity(a, b);
      var conflict := Differ(a.subject, b.subject) || Differ(a.tenant, b.tenant)
        || (a.roles != {} && b.roles != {} && a.roles != b.roles);
      var shared := Agree(a.subject, b.subject) || Agree(a.tenant, b.tenant) || (a.roles != {} && a.roles == b.roles);
      && (c == OtherActor <==> conflict) && (c == SameActor <==> !conflict && shared)
      && (c == Unknown <==> !conflict && !shared)
      && IdentityContinuity(b, a) == c
  {
  }

  /** Expired from the instant itself on, expiring soon up to the threshold before it. */
  lemma ExpirationMeans(expiresAt: Option<int>, now: int, soonSeconds: nat, otherwise: Status)
    ensures var s := StatusForExpiration(expiresAt, now, soonSeconds, otherwise);
      && (expiresAt.None? ==> s == otherwise)
      && (expiresAt.Some? ==>
           && (expiresAt.value <= now ==> s == Expired)
           && (now < expiresAt.value <= now + soonSeconds * 1_000_000 ==> s == ExpiringSoon)
           && (now + soonSeconds * 1_000_000 < expiresAt.value ==> s == otherwise))
  {
  }

  /** Revoking takes every approval away and touches nothing else. */
  lemma RevocationMeans(plans: seq<Plan>)
    ensures |RevokeAll(plans)| == |plans|
    ensures forall i :: 0 <= i < |plans| ==>
      && !RevokeAll(plans)[i].approval && RevokeAll(plans)[i].approvalStatus != "APPROVED"
      && (!plans[i].approval && plans[i].approvalStatus != "APPROVED" ==> RevokeAll(plans)[i] == plans[i])
      && (plans[i].approval || plans[i].approvalStatus == "APPROVED" ==>
           RevokeAll(plans)[i].approvalStatus == "NOT_REQUESTED")
  {
  }

  // ----- Accounts

  predicate IsAuthenticated(account: Account) {
    account.authenticated && account.actorType != Some("anonymous")
  }

  predicate HasCredentialProfile(account: Account) {
    account.profile.Some? && account.profile.value.authType !in {"none", "unconfigured"}
  }

  lemma AccountsMean(account: Account)
    ensures IsAnonymous(account) <==> !IsAuthenticated(account)
    ensures IsConfigured(account.profile) <==> HasCredentialProfile(account)
  {
  }

  // ----- References

  predicate IsLetterOrDigit(c: char) {
    c in "abcdefghijklmnopqrstuvwxyz" || c in "0123456789"
  }

  lemma CharactersMean(c: char)
    ensures IsReferenceChar(c) <==> IsLetterOrDigit(c) || c == '-'
    ensures !IsLetterOrDigit('-')
  {
    Letters(c);
    Digits(c);
    Letters('-');
    Digits('-');
  }

  /** The pattern: a lower-case letter or digit, then 2 to 127 lower-case letters, digits or dashes. */
  lemma ReferencePatternMeans(r: string)
    ensures ValidReference(r) <==>
      && 3 <= |r| <= 128 && IsLetterOrDigit(r[0])
      && forall i :: 1 <= i < |r| ==> IsLetterOrDigit(r[i]) || r[i] == '-'
  {
    hide IsReferenceChar, IsLetterOrDigit;
    forall c: char ensures IsReferenceChar(c) <==> IsLetterOrDigit(c) || c == '-' {
      CharactersMean(c);
    }
    CharactersMean('-');
    assert (forall c :: c in r ==> IsReferenceChar(c)) <==> forall i :: 0 <= i < |r| ==> IsReferenceChar(r[i]);
  }

  lemma Letters(c: char)
    ensures c in "abcdefghijklmnopqrstuvwxyz" <==> 'a' <= c <= 'z'
  {
    var s := "abcdefghijklmnopqrstuvwxyz";
    if 'a' <= c <= 'z' {
      assert s[c as int - 'a' as int] == c;
    }
  }

  lemma Digits(c: char)
    ensures c in "0123456789" <==> '0' <= c <= '9'
  {
    var s := "0123456789";
    if '0' <= c <= '9' {
      assert s[c as int - '0' as int] == c;
    }
  }

  /** How many of the components before position i were given the same base. */
  function Earlier(cfg: Config, actor: string, captured: seq<Captured>, i: nat): nat
    requires i < |captured|
  {
    |set k: nat | k < i && "actor-auth-" + cfg.slug(actor) + "-" + cfg.slug(captured[k].name)
                        == "actor-auth-" + cfg.slug(actor) + "-" + cfg.slug(captured[i].name)|
  }

  function WithBase(cfg: Config, actor: string, captured: seq<Captured>, base: string): set<nat> {
    set k: nat | k < |captured| && ReferenceBase(cfg, actor, captured[k].name) == base
  }

  lemma {:induction false} CountBaseMeans(cfg: Config, actor: string, captured: seq<Captured>, base: string)
    ensures CountBase(cfg, actor, captured, base) == |WithBase(cfg, actor, captured, base)|
  {
    if captured == [] {
      assert WithBase(cfg, actor, captured, base) == {};
    } else {
      CountBaseMeans(cfg, actor, captured[..|captured| - 1], base);
      WithBaseLast(cfg, actor, captured, base);
      hide ReferenceBase, WithBase;
    }
  }

  lemma WithBaseLast(cfg: Config, actor: string, captured: seq<Captured>, base: string)
    requires captured != []
    ensures var n := |captured| - 1;
      |WithBase(cfg, actor, captured, base)| == |WithBase(cfg, actor, captured[..n], base)|
        + if ReferenceBase(cfg, actor, captured[n].name) == base then 1 else 0
  {
    hide ReferenceBase;
    var n: nat := |captured| - 1;
    var before, all := WithBase(cfg, actor, captured[..n], base), WithBase(cfg, actor, captured, base);
    forall k: nat
      ensures k in all <==> k in before || (k == n && ReferenceBase(cfg, actor, captured[n].name) == base)
    {
      if k < n {
        assert captured[..n][k] == captured[k];
      }
    }
    assert n !in before;
    hide WithBase;
    if n in all {
      assert all == before + {n};
    } else {
      assert all == before;
    }
  }

  /** Component i of a capture keeps name, place and purpose, is replayed unless it is a refresh token,
      and is stored for the actor under its own reference: the base made of the two slugs, and from
      the second use of the base on its ordinal. */
  ghost predicate ComponentMeans(cfg: Config, actor: string, captured: seq<Captured>, i: nat, c: Component, e: Entry)
    requires i < |captured|
  {
    var k := captured[i];
    var base := "actor-auth-" + cfg.slug(actor) + "-" + cfg.slug(k.name);
    && c.name == k.name && c.location == k.location && c.purpose == k.purpose
    && (c.replayRequired <==> k.purpose != "refresh")
    && e == Entry(c.reference, actor, k.purpose, Plain(k.value))
    && c.reference ==
      if Earlier(cfg, actor, captured, i) == 0 then base
      else base + "-" + Text.DecimalText(Earlier(cfg, actor, captured, i) + 1)
  }

  lemma LastReferenceMeans(cfg: Config, actor: string, captured: seq<Captured>)
    requires captured != []
    ensures var i: nat := |captured| - 1;
      var base := "actor-auth-" + cfg.slug(actor) + "-" + cfg.slug(captured[i].name);
      LastReference(cfg, actor, captured) ==
        if Earlier(cfg, actor, captured, i) == 0 then base
        else base + "-" + Text.DecimalText(Earlier(cfg, actor, captured, i) + 1)
  {
    var n: nat := |captured| - 1;
    var base := ReferenceBase(cfg, actor, captured[n].name);
    CountBaseMeans(cfg, actor, captured, base);
    EarlierAndLast(cfg, actor, captured);
  }

  lemma EarlierAndLast(cfg: Config, actor: string, captured: seq<Captured>)
    requires captured != []
    ensures var n: nat := |captured| - 1;
      |WithBase(cfg, actor, captured, ReferenceBase(cfg, actor, captured[n].name))|
          == Earlier(cfg, actor, captured, n) + 1
  {
    var n: nat := |captured| - 1;
    var base := ReferenceBase(cfg, actor, captured[n].name);
    var earlier := set k: nat | k < n && "actor-auth-" + cfg.slug(actor) + "-" + cfg.slug(captured[k].name)
                        == "actor-auth-" + cfg.slug(actor) + "-" + cfg.slug(captured[n].name);
    var all := WithBase(cfg, actor, captured, base);
    forall k: nat ensures k in all <==> k in earlier || k == n {
    }
    assert n !in earlier;
    assert all == earlier + {n};
  }

  lemma {:induction false} ComponentsMean(cfg: Config, actor: string, captured: seq<Captured>)
    ensures |Components(cfg, actor, captured)| == |Entries(cfg, actor, captured)| == |captured|
    ensures forall i :: 0 <= i < |captured| ==>
      ComponentMeans(cfg, actor, captured, i, Components(cfg, actor, captured)[i], Entries(cfg, actor, captured)[i])
  {
    if captured != [] {
      var n: nat := |captured| - 1;
      ComponentsMean(cfg, actor, captured[..n]);
      var cs, es := Components(cfg, actor, captured), Entries(cfg, actor, captured);
      LastComponentMeans(cfg, actor, captured);
      hide LastReference, ComponentMeans;
      forall i: nat | i < n ensures ComponentMeans(cfg, actor, captured, i, cs[i], es[i]) {
        MeansFromPrefix(cfg, actor, captured, i, cs[i], es[i]);
      }
    }
  }

  lemma LastComponentMeans(cfg: Config, actor: string, captured: seq<Captured>)
    requires captured != []
    ensures var n: nat := |captured| - 1;
      var cs, es := Components(cfg, actor, captured), Entries(cfg, actor, captured);
      && cs != [] && es != []
      && ComponentMeans(cfg, actor, captured, n, cs[|cs| - 1], es[|es| - 1])
  {
    LastReferenceMeans(cfg, actor, captured);
    hide LastReference, Earlier;
  }

  lemma MeansFromPrefix(cfg: Config, actor: string, captured: seq<Captured>, i: nat, c: Component, e: Entry)
    requires i < |captured| - 1 && ComponentMeans(cfg, actor, captured[..|captured| - 1], i, c, e)
    ensures ComponentMeans(cfg, actor, captured, i, c, e)
  {
    EarlierPrefix(cfg, actor, captured, i);
    hide Earlier;
  }

  lemma EarlierPrefix(cfg: Config, actor: string, captured: seq<Captured>, i: nat)
    requires i < |captured| - 1
    ensures Earlier(cfg, actor, captured[..|captured| - 1], i) == Earlier(cfg, actor, captured, i)
  {
    var init := captured[..|captured| - 1];
    assert forall k: nat :: k <= i ==> init[k] == captured[k];
    var base := "actor-auth-" + cfg.slug(actor) + "-" + cfg.slug(captured[i].name);
    assert (set k: nat | k < i && "actor-auth-" + cfg.slug(actor) + "-" + cfg.slug(init[k].name) == base)
        == (set k: nat | k < i && "actor-auth-" + cfg.slug(actor) + "-" + cfg.slug(captured[k].name) == base);
  }

  // ----- Storing a capture

  /** A capture counts as accepted and in scope when it shows a successful read-only baseline. */
  predicate ShowsSuccess(c: AuthCandidate) {
    c.baseline.Some? && c.baseline.value.expectedStatus.Some? && 200 <= c.baseline.value.expectedStatus.value <= 299
  }

  /** The profile a stored capture leaves, up to its status. */
  lemma StoredProfileMeans(cfg: Config, actor: string, previous: Option<Profile>, c: AuthCandidate,
      source: CaptureSource, now: int)
    ensures var p := StoredProfile(cfg, actor, previous, c, source, now);
      && p.authType == c.authType && p.profileRef == Some("actor-" + cfg.slug(actor) + "-default")
      && p.components == Components(cfg, actor, c.components) && p.source == source
      && p.capturedAt == c.capturedAt && p.expiresAt == c.expiresAt && p.baseline == c.baseline
      && p.identity.hints == c.hints && !p.identity.confirmed && p.identity.reference == None
      && p.context == Some(ContextKey(actor, c.authType, c.hints, cfg.hosts)) && p.targetHosts == cfg.hosts
      && (p.accepted <==> ShowsSuccess(c)) && (p.scopeValidated <==> ShowsSuccess(c))
      && (previous.Some? ==> p.refresh == previous.value.refresh)
      && (previous.None? ==> !p.refresh.configured && p.refresh.templateRef == None)
      && p.legacyVariables == {}
  {
    hide Components, StatusForExpiration;
  }

  predicate AllStorable(batch: seq<Entry>) {
    forall e :: e in batch ==> ValidReference(e.reference) && e.value != Plain("")
  }

  /** When storing is refused, and why. */
  lemma StoreRefusals(cfg: Config, w: World, actor: string, c: AuthCandidate, source: CaptureSource, renewal: bool,
      now: int)
    ensures var error := StoreCandidate(cfg, w, actor, c, source, renewal, now).1;
      && (error == Some(UnknownActor) <==> actor !in w.accounts)
      && (actor in w.accounts ==>
           var account := w.accounts[actor];
           var inScope := c.observedHost.Some? ==> cfg.covered(c.observedHost.value);
           var foreign := HasCredentialProfile(account)
             && IdentityContinuity(account.profile.value.identity.hints, c.hints) == OtherActor;
           && (error == Some(AnonymousActor) <==> !IsAuthenticated(account))
           && (error == Some(OutOfScope) <==> IsAuthenticated(account) && !inScope)
           && (error == Some(IdentityChanged) <==> IsAuthenticated(account) && inScope && foreign)
           && (error == None <==>
                IsAuthenticated(account) && inScope && !foreign && AllStorable(Entries(cfg, actor, c.components))))
  {
    hide Entries, StoredProfile, PutAll, RevokeAll, IdentityContinuity, ValidReference;
  }

  /** What a store leaves besides the status: the fresh profile, the secrets of the capture, the actor's
      type if it had none, and every other account as it was. */
  lemma StoreLeaves(cfg: Config, w: World, actor: string, c: AuthCandidate, source: CaptureSource, renewal: bool,
      now: int)
    requires StoreCandidate(cfg, w, actor, c, source, renewal, now).1 == None
    ensures actor in w.accounts && HasProfile(StoreCandidate(cfg, w, actor, c, source, renewal, now).0, actor)
    ensures var v, account := StoreCandidate(cfg, w, actor, c, source, renewal, now).0, w.accounts[actor];
      && ProfileOf(v, actor) ==
           StoredProfile(cfg, actor, account.profile, c, source, now).(status := ProfileOf(v, actor).status)
      && v.secrets == PutAll(w.secrets, Entries(cfg, actor, c.components))
      && v.accounts[actor] == account.(profile := v.accounts[actor].profile, actorType :=
           if account.actorType.Some? then account.actorType else Some("authenticated_user"))
      && v.accounts.Keys == w.accounts.Keys
      && forall b :: b in w.accounts && b != actor ==> v.accounts[b] == w.accounts[b]
  {
    hide Entries, StoredProfile, PutAll, RevokeAll, IdentityContinuity, ValidBatch;
  }

  /** A configured identity that cannot be compared with the capture's, and no renewal. */
  predicate IsUnclear(account: Account, c: AuthCandidate, renewal: bool) {
    HasCredentialProfile(account) && IdentityContinuity(account.profile.value.identity.hints, c.hints) == Unknown
    && !renewal
  }

  /** The status a stored capture gets: marked as changed exactly when the identity is unclear; else by
      its lifetime, ready or not yet validated.  Approvals end when it is marked or the context of a
      configured credential is another one. */
  lemma StoredStatusMeans(cfg: Config, w: World, actor: string, c: AuthCandidate, source: CaptureSource,
      renewal: bool, now: int)
    requires StoreCandidate(cfg, w, actor, c, source, renewal, now).1 == None
    ensures actor in w.accounts && HasProfile(StoreCandidate(cfg, w, actor, c, source, renewal, now).0, actor)
    ensures var v, account := StoreCandidate(cfg, w, actor, c, source, renewal, now).0, w.accounts[actor];
      var s, unclear := ProfileOf(v, actor).status, IsUnclear(account, c, renewal);
      && (s == ContextChanged <==> unclear)
      && (!unclear ==>
           && (s == Expired <==> c.expiresAt.Some? && c.expiresAt.value <= now)
           && (s == ExpiringSoon <==>
                c.expiresAt.Some? && now < c.expiresAt.value <= now + cfg.soonSeconds * 1_000_000)
           && (s == Ready ==> ShowsSuccess(c)) && (s == AvailableNotValidated ==> !ShowsSuccess(c))
           && s in {Expired, ExpiringSoon, Ready, AvailableNotValidated})
      && v.plans ==
           if HasCredentialProfile(account)
              && (unclear || account.profile.value.context != Some(ContextKey(actor, c.authType, c.hints, cfg.hosts)))
           then RevokeAll(w.plans) else w.plans
  {
    StoredStatusByLifetime(cfg, actor, w.accounts[actor].profile, c, source, now);
    StoredProfileMeans(cfg, actor, w.accounts[actor].profile, c, source, now);
    hide Entries, StoredProfile, PutAll, RevokeAll, IdentityContinuity, ValidBatch, ShowsSuccess;
  }

  lemma StoredStatusByLifetime(cfg: Config, actor: string, previous: Option<Profile>, c: AuthCandidate,
      source: CaptureSource, now: int)
    ensures var s := StoredProfile(cfg, actor, previous, c, source, now).status;
      && (c.expiresAt.Some? && c.expiresAt.value <= now <==> s == Expired)
      && (c.expiresAt.Some? && now < c.expiresAt.value <= now + cfg.soonSeconds * 1_000_000 <==> s == ExpiringSoon)
      && (s == Ready ==> ShowsSuccess(c)) && (s == AvailableNotValidated ==> !ShowsSuccess(c))
      && s in {Expired, ExpiringSoon, Ready, AvailableNotValidated}
  {
    hide Components;
  }

  // ----- Clearing

  /** After a clear the profile is the empty one, with nothing to replay and no verdict but a block for
      an authenticated actor; what was listed is gone and every approval with it. */
  lemma ClearMeans(w: World, actor: string)
    ensures var (v, error) := ClearAuthentication(w, actor);
      && (error == None <==> actor in w.accounts) && (error != None ==> error == Some(UnknownActor) && v == w)
      && (error == None ==>
           && HasProfile(v, actor) && ProfileOf(v, actor).components == [] && !ProfileOf(v, actor).identity.confirmed
           && !ProfileOf(v, actor).accepted && !ProfileOf(v, actor).refresh.configured
           && ProfileOf(v, actor).context == None && ProfileOf(v, actor).baseline == None
           && !ProfileOf(v, actor).scopeValidated && ProfileOf(v, actor).expiresAt == None
           && ProfileOf(v, actor).profileRef == None && ProfileOf(v, actor).targetHosts == {}
           && ProfileOf(v, actor).identity.hints == Hints(None, {}, None, None)
           && (IsAuthenticated(w.accounts[actor]) ==>
                ProfileOf(v, actor).authType == "unconfigured" && ProfileOf(v, actor).status == Missing)
           && (!IsAuthenticated(w.accounts[actor]) ==>
                ProfileOf(v, actor).authType == "none" && ProfileOf(v, actor).status == StatusNone)
           && v.plans == RevokeAll(w.plans)
           && forall b :: b in w.accounts && b != actor ==> b in v.accounts && v.accounts[b] == w.accounts[b])
  {
    hide RevokeAll, RemoveAll, ClearedReferences;
  }

  /** The references of a profile: those of its components and that of its template, if it has one. */
  lemma ListedMeans(p: Profile, r: string)
    ensures r in ClearedReferences(p) <==>
      (exists i :: 0 <= i < |p.components| && p.components[i].reference == r)
      || (r != "" && p.refresh.templateRef == Some(r))
  {
    var listed := ClearedReferences(p);
    if i :| 0 <= i < |p.components| && p.components[i].reference == r {
      assert listed[i] == r;
    }
    if r != "" && p.refresh.templateRef == Some(r) {
      assert listed[|p.components|] == r;
    }
    if r in listed {
      var k :| 0 <= k < |listed| && listed[k] == r;
    }
  }

  // ----- Preflight

  /** Something to send: a set environment variable for a legacy profile, else at least one component
      and a non-empty secret of this actor for each that is replayed. */
  predicate CanSend(w: World, actor: string, p: Profile, environment: set<string>) {
    if p.source == LegacyEnvironment then exists v :: v in p.legacyVariables && v in environment
    else p.components != [] && forall i :: 0 <= i < |p.components| && p.components[i].replayRequired ==>
      p.components[i].reference in w.secrets && w.secrets[p.components[i].reference].actor == actor
      && w.secrets[p.components[i].reference].value != Plain("")
  }

  lemma AvailableMeans(w: World, actor: string, p: Profile, environment: set<string>)
    ensures Available(w, actor, p, environment) <==> CanSend(w, actor, p, environment)
  {
    if p.source == LegacyEnvironment {
      if v :| v in p.legacyVariables && v in environment {
        assert v in p.legacyVariables * environment;
      }
      if v :| v in p.legacyVariables * environment {
      }
    } else {
      assert forall c :: c in p.components <==> exists i :: 0 <= i < |p.components| && p.components[i] == c;
    }
  }

  /** The lifetime outlasts the threshold and the execution margin of ten seconds for each request and
      one more, all counted in whole seconds. */
  predicate LastsFor(cfg: Config, p: Profile, now: int, count: nat) {
    p.expiresAt.Some? ==>
      && p.expiresAt.value - now >= (cfg.soonSeconds + 1) * 1_000_000
      && p.expiresAt.value - now >= (cfg.marginSeconds + 10 * count + 11) * 1_000_000
  }

  /** At least one whole second is left. */
  predicate StillLives(p: Profile, now: int) {
    p.expiresAt.Some? ==> p.expiresAt.value - now >= 1_000_000
  }

  lemma WholeSecondsMean(delta: int, m: nat)
    ensures WholeSeconds(delta) > m <==> delta >= (m + 1) * 1_000_000
  {
  }

  predicate StoredIsFine(s: Status) {
    s == Ready || s == AvailableNotValidated || s == StatusNone
  }

  /** Exactly when an authenticated actor may execute, and when a plan may be made for it. */
  lemma PreflightMeans(cfg: Config, w: World, actor: string, request: Request, now: int)
    requires HasProfile(w, actor) && IsAuthenticated(w.accounts[actor])
    ensures var result, p := ActorPreflight(cfg, w, actor, request, now), ProfileOf(w, actor);
      && result.Preflight?
      && (result.verdict == ReadyForExecution <==>
           request.forExecution && Fits(p, request) && CanSend(w, actor, p, request.environment)
           && LastsFor(cfg, p, now, request.count) && StoredIsFine(p.status)
           && p.accepted && p.scopeValidated && p.identity.confirmed)
      && (result.verdict == ReadyForPlanning <==>
           !request.forExecution && Fits(p, request) && CanSend(w, actor, p, request.environment)
           && StillLives(p, now)
           && (LastsFor(cfg, p, now, request.count) ==> StoredIsFine(p.status) || p.status == ExpiringSoon))
  {
    var p := ProfileOf(w, actor);
    AvailableMeans(w, actor, p, request.environment);
    if p.expiresAt.Some? {
      MarginMeans(cfg, p, now, request.count);
    }
    hide Available, CanSend, Margin, WholeSeconds;
  }

  lemma MarginMeans(cfg: Config, p: Profile, now: int, count: nat)
    requires p.expiresAt.Some?
    ensures WholeSeconds(p.expiresAt.value - now) > Margin(cfg, count) <==> LastsFor(cfg, p, now, count)
    ensures WholeSeconds(p.expiresAt.value - now) > 0 <==> StillLives(p, now)
  {
    WholeSecondsMean(p.expiresAt.value - now, Margin(cfg, count));
    WholeSecondsMean(p.expiresAt.value - now, 0);
  }

  /** What is reported of the status, and the answers without a usable profile. */
  lemma PreflightStatusMeans(cfg: Config, w: World, actor: string, request: Request, now: int)
    ensures var result := ActorPreflight(cfg, w, actor, request, now);
      && (actor !in w.accounts <==> result == UnknownAccount)
      && (actor in w.accounts ==>
           var account := w.accounts[actor];
           && (result == UnsafeAssignment <==>
                !IsAuthenticated(account) && account.profile.Some? && account.profile.value.components != [])
           && (!IsAuthenticated(account) && result != UnsafeAssignment ==>
                result == Preflight.Preflight(StatusNone, true, if request.forExecution then ReadyForExecution
                    else ReadyForPlanning))
           && (IsAuthenticated(account) && account.profile.None? ==>
               result == Preflight.Preflight(Missing, false, BlockedByAuth))
           && (IsAuthenticated(account) && account.profile.Some? ==>
                var p := account.profile.value;
                if !Fits(p, request) then
                  result.Preflight? && !result.available && result.verdict == BlockedByAuth
                  && result.status == if BindsElsewhere(p, request) then ContextChanged else Invalid
                else
                  result.Preflight? && (result.available <==> CanSend(w, actor, p, request.environment))
                  && result.status ==
                    if !CanSend(w, actor, p, request.environment) then Missing
                    else if !StillLives(p, now) then Expired
                    else if !LastsFor(cfg, p, now, request.count) then ExpiringSoon
                    else p.status))
  {
    if actor in w.accounts && w.accounts[actor].profile.Some? {
      var p := w.accounts[actor].profile.value;
      AvailableMeans(w, actor, p, request.environment);
      if p.expiresAt.Some? {
        MarginMeans(cfg, p, now, request.count);
      }
      hide Available, CanSend, Margin, WholeSeconds;
    }
  }

  /** The request names another profile or another context. */
  predicate BindsElsewhere(p: Profile, request: Request) {
    (request.profileRef.Some? && request.profileRef.value != "" && p.profileRef != request.profileRef)
    || (request.context.Some? && p.context != request.context)
  }

  // ----- Marking

  /** Given facts are recorded as given. */
  lemma MarkMeans(w: World, actor: string, status: Status, facts: Facts)
    requires HasProfile(w, actor) && ProfileOf(w, actor).authType != "none"
    ensures var v := MarkStatus(w, actor, status, facts);
      && HasProfile(v, actor)
      && var p, q := ProfileOf(w, actor), ProfileOf(v, actor);
      && q.status == status
      && q.accepted == (if facts.accepted.Some? then facts.accepted.value else p.accepted)
      && q.scopeValidated == (if facts.scope.Some? then facts.scope.value else p.scopeValidated)
      && q.identity.lastAssertion == (if facts.assertion.Some? then facts.assertion.value else p.identity.lastAssertion)
      && (facts.confirmed == Some(true) ==> q.identity.confirmed && q.identity.reference == facts.reference)
      && (facts.confirmed == Some(false) ==> !q.identity.confirmed && q.identity.reference == None)
  {
  }

  // ----- A baseline check

  /** The status a check asks for: any success, and the observed one if there is one. */
  predicate StatusAsObserved(b: Baseline, status: int) {
    200 <= status <= 299 && (b.expectedStatus.Some? ==> status == b.expectedStatus.value)
  }

  /** What is known about the actor when its assertion is evaluated. */
  function Known(actor: string, p: Profile): Id.ActorFacts {
    Id.ActorFacts(actor, p.identity.hints.subject, p.identity.hints.tenant)
  }

  /** A completed check: the three ways it can end, with what is recorded in each. */
  lemma CheckMeans(cfg: Config, w: World, actor: string, reply: Option<Id.Response>, environment: set<string>, now: int)
    requires ValidateBaseline(cfg, w, actor, reply, environment, now).1.CheckDone?
    ensures reply.Some? && HasProfile(w, actor) && ProfileOf(w, actor).baseline.Some?
    ensures var (v, result) := ValidateBaseline(cfg, w, actor, reply, environment, now);
      var p, b, r := ProfileOf(w, actor), ProfileOf(w, actor).baseline.value, reply.value;
      var outcome := Id.Evaluate(b.assertion, Known(actor, p), r, cfg.numerals, cfg.lower);
      && outcome.Outcome?
      && (result.matched <==> !r.login && StatusAsObserved(b, r.status))
      && (result.confirmed <==> result.matched && outcome.confirmed)
      && v.secrets == w.secrets && v.plans == w.plans
      && (p.authType == "none" ==> v == w)
      && (p.authType != "none" ==>
           && HasProfile(v, actor)
           && var q := ProfileOf(v, actor);
           && q.scopeValidated && q.identity.lastAssertion == outcome.status
           && (q.accepted <==> result.matched) && (q.identity.confirmed <==> result.confirmed)
           && q.status == (if r.login then Invalid else if result.matched then Ready else AvailableNotValidated)
           && q.identity.reference == (if result.confirmed then outcome.reference else None))
  {
    hide ActorPreflight, Id.Evaluate;
  }

  /** When a check is completed: everything it needs is there and the evaluator does not raise. */
  lemma CheckCompletesIff(cfg: Config, w: World, actor: string, reply: Option<Id.Response>, environment: set<string>,
      now: int)
    ensures var result := ValidateBaseline(cfg, w, actor, reply, environment, now).1;
      var preflight := ActorPreflight(cfg, w, actor, Request(1, false, None, None, {}, environment), now);
      result.CheckDone? <==>
        && cfg.activeExecution && HasProfile(w, actor) && ProfileOf(w, actor).profileRef.Some?
        && ProfileOf(w, actor).baseline.Some? && cfg.covered(ProfileOf(w, actor).baseline.value.host)
        && preflight.Preflight? && preflight.verdict == ReadyForPlanning && reply.Some?
        && !Id.Evaluate(ProfileOf(w, actor).baseline.value.assertion, Known(actor, ProfileOf(w, actor)), reply.value,
                        cfg.numerals, cfg.lower).Raised?
    ensures var (v, result) := ValidateBaseline(cfg, w, actor, reply, environment, now);
      !result.CheckDone? ==> v == w
  {
    PlanningVerdicts(cfg, w, actor, Request(1, false, None, None, {}, environment), now);
    hide ActorPreflight, Id.Evaluate;
  }

  lemma PlanningVerdicts(cfg: Config, w: World, actor: string, request: Request, now: int)
    requires !request.forExecution
    ensures var result := ActorPreflight(cfg, w, actor, request, now);
      && (result == UnknownAccount <==> actor !in w.accounts)
      && (result.Preflight? ==> result.verdict == ReadyForPlanning || result.verdict == BlockedByAuth)
  {
    hide Available, EffectiveStatus;
  }

  /** What a confirming check amounts to: an answer without a login page, with the observed success
      status, in which the baseline's assertion about this actor holds. */
  ghost predicate AnsweredAsObserved(cfg: Config, w: World, step: Step, actor: string) {
    && step.action.Check? && step.action.actor == actor && step.action.response.Some?
    && HasProfile(w, actor) && ProfileOf(w, actor).baseline.Some?
    && var b, r := ProfileOf(w, actor).baseline.value, step.action.response.value;
    && !r.login && StatusAsObserved(b, r.status) && b.assertion.Some?
    && var outcome := Id.Evaluate(b.assertion, Known(actor, ProfileOf(w, actor)), r, cfg.numerals, cfg.lower);
    outcome.Outcome? && outcome.confirmed
  }

  lemma ConfirmsMeans(cfg: Config, w: World, step: Step, actor: string)
    requires Confirms(cfg, w, step, actor)
    ensures AnsweredAsObserved(cfg, w, step, actor)
  {
    CheckMeans(cfg, w, actor, step.action.response, step.action.environment, step.now);
    var b := ProfileOf(w, actor).baseline.value;
    AssertionNeeded(b.assertion, Known(actor, ProfileOf(w, actor)), step.action.response.value, cfg);
    hide ValidateBaseline, Id.Evaluate;
  }

  lemma AssertionNeeded(a: Option<Id.Assertion>, actor: Id.ActorFacts, r: Id.Response, cfg: Config)
    ensures var outcome := Id.Evaluate(a, actor, r, cfg.numerals, cfg.lower);
      outcome.Outcome? && outcome.confirmed ==> a.Some?
  {
    hide Id.Select;
  }

  /** Execution rests on such an answer: in every run, a READY_FOR_EXECUTION verdict of an actor that was
      unverified at the start has behind it a check that was answered as observed. */
  lemma ExecutionRestsOnAnswer(cfg: Config, w: World, steps: seq<Step>, actor: string, request: Request, now: int)
    requires Unverified(w, actor)
    requires var final := Run(cfg, w, steps); actor in final.accounts && IsAuthenticated(final.accounts[actor])
    requires request.forExecution
    requires ActorPreflight(cfg, Run(cfg, w, steps), actor, request, now).Preflight?
    requires ActorPreflight(cfg, Run(cfg, w, steps), actor, request, now).verdict == ReadyForExecution
    ensures HasProfile(Run(cfg, w, steps), actor)
    ensures exists i ::
      0 <= i < |steps| && RestsOn(cfg, w, steps, i, actor)
      && AnsweredAsObserved(cfg, Run(cfg, w, steps[..i]), steps[i], actor)
  {
    AccountsMean(Run(cfg, w, steps).accounts[actor]);
    ExecutionRestsOnConfirmedCheck(cfg, w, steps, actor, request, now);
    hide Run, ActorPreflight, Unverified, IsAnonymous;
    var i :| 0 <= i < |steps| && RestsOn(cfg, w, steps, i, actor);
    RestsConfirm(cfg, w, steps, i, actor);
    ConfirmsMeans(cfg, Run(cfg, w, steps[..i]), steps[i], actor);
  }

  lemma RestsConfirm(cfg: Config, w: World, steps: seq<Step>, i: nat, actor: string)
    requires i < |steps|
    ensures HasProfile(Run(cfg, w, steps), actor) && RestsOn(cfg, w, steps, i, actor) ==>
        Confirms(cfg, Run(cfg, w, steps[..i]), steps[i], actor)
  {
    hide Run, Confirms, SameCredential, WrittenAsChecked, QuietSince, NoOverwriteSince;
  }
}
