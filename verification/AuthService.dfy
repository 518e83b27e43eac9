/** The authentication service over its mutable files: account records and plans are fields that
    the operations update, and the secret store is a shared object.  Every operation is proved to
    leave exactly the state its transition in Authentication describes. */
module AuthServices {
  import opened Domain
  import opened Json
  import opened SecretStores
  import opened RefreshTemplate
  import opened Authentication
  import opened AuthFacts
  import Text
  import Id = Identity

  lemma SetProfileTwice(w: World, actor: string, p: Profile, q: Profile)
    requires actor in w.accounts
    ensures SetProfile(SetProfile(w, actor, p), actor, q) == SetProfile(w, actor, q)
  {
    assert SetProfile(SetProfile(w, actor, p), actor, q).accounts == SetProfile(w, actor, q).accounts;
  }

  lemma RevokeThenSet(w: World, actor: string, p: Profile)
    requires actor in w.accounts
    ensures SetProfile(Invalidate(w), actor, p) == Invalidate(SetProfile(w, actor, p))
  {
  }

  class AuthService {
    var accounts: map<string, Account>
    var plans: seq<Plan>
    const store: SecretStore
    const config: Config

    /** A service on the files of a workspace, whatever they hold. */
    constructor (config: Config, world: World)
      ensures fresh(store) && this.config == config
      ensures Snapshot() == world
    {
      this.config := config;
      this.accounts := world.accounts;
      this.plans := world.plans;
      this.store := new SecretStore(world.secrets);
    }

    function Snapshot(): World
      reads this, store
    {
      World(accounts, store.secrets, plans)
    }

    /** Writes one account's profile back to target.yaml. */
    method WriteProfile(actor: string, profile: Profile)
      requires actor in accounts
      modifies this`accounts
      ensures Snapshot() == SetProfile(old(Snapshot()), actor, profile)
    {
      accounts := accounts[actor := accounts[actor].(profile := Some(profile))];
    }

    /** `_invalidate_approvals`: rewrites the approved plans one by one. */
    method InvalidateApprovals()
      modifies this`plans
      ensures Snapshot() == Invalidate(old(Snapshot()))
    {
      var i := 0;
      while i < |plans|
        invariant 0 <= i <= |plans| == |old(plans)|
        invariant forall k :: 0 <= k < i ==> plans[k] == Revoked(old(plans)[k])
        invariant forall k :: i <= k < |plans| ==> plans[k] == old(plans)[k]
      {
        if plans[i].approval || plans[i].approvalStatus == "APPROVED" {
          plans := plans[i := Plan(false, "NOT_REQUESTED")];
        }
        i := i + 1;
      }
      assert plans == RevokeAll(old(plans));
    }

    /** Builds component metadata and secrets, counting how often a reference base was used. */
    method CandidateComponents(actor: string, captured: seq<Captured>)
      returns (components: seq<Component>, entries: seq<Entry>)
      ensures components == Components(config, actor, captured)
      ensures entries == Entries(config, actor, captured)
    {
      components, entries := [], [];
      var used: map<string, nat> := map[];
      for i := 0 to |captured|
        invariant components == Components(config, actor, captured[..i])
        invariant entries == Entries(config, actor, captured[..i])
        invariant forall b :: (if b in used then used[b] else 0) == CountBase(config, actor, captured[..i], b)
      {
        var c := captured[i];
        assert captured[..i + 1][..i] == captured[..i] && captured[..i + 1][i] == c;
        var base := ReferenceBase(config, actor, c.name);
        var n := (if base in used then used[base] else 0) + 1;
        used := used[base := n];
        var reference := if n == 1 then base else base + "-" + Text.DecimalText(n);
        assert reference == LastReference(config, actor, captured[..i + 1]);
        components := components + [Component(c.name, c.location, reference, c.purpose, c.purpose != "refresh")];
        entries := entries + [Entry(reference, actor, c.purpose, Plain(c.value))];
      }
      assert captured[..|captured|] == captured;
    }

    method StoreCandidate(actor: string, c: AuthCandidate, source: CaptureSource, renewal: bool, now: int)
      returns (error: Option<Error>)
      modifies this, store
      ensures (Snapshot(), error)
          == Authentication.StoreCandidate(config, old(Snapshot()), actor, c, source, renewal, now)
    {
      hide Components, Entries, RevokeAll, PutAll, StoredProfile, ValidBatch, IdentityContinuity;
      if actor !in accounts { return Some(UnknownActor); }
      var account := accounts[actor];
      var previous := account.profile;
      if IsAnonymous(account) { return Some(AnonymousActor); }
      if c.observedHost.Some? && !config.covered(c.observedHost.value) { return Some(OutOfScope); }
      if IsConfigured(previous) && IdentityContinuity(previous.value.identity.hints, c.hints) == OtherActor {
        WriteProfile(actor, previous.value.(status := ContextChanged));
        InvalidateApprovals();
        return Some(IdentityChanged);
      }
      var components, entries := CandidateComponents(actor, c.components);
      var ok := store.PutMany(entries);
      if !ok { return Some(InvalidBatch); }
      var profile := StoredProfile(config, actor, previous, c, source, now);
      accounts := accounts[actor := WithActorType(account)];
      ghost var typed := Snapshot();
      WriteProfile(actor, profile);
      if IsConfigured(previous) {
        if IdentityContinuity(previous.value.identity.hints, c.hints) == Unknown && !renewal {
          SetProfileTwice(typed, actor, profile, profile.(status := ContextChanged));
          WriteProfile(actor, profile.(status := ContextChanged));
          InvalidateApprovals();
        } else if previous.value.context != profile.context {
          InvalidateApprovals();
        }
      }
      error := None;
    }

    method ClearAuthentication(actor: string) returns (error: Option<Error>)
      modifies this, store
      ensures (Snapshot(), error) == Authentication.ClearAuthentication(old(Snapshot()), actor)
    {
      if actor !in accounts { return Some(UnknownActor); }
      var account := accounts[actor];
      if account.profile.Some? {
        store.Remove(ClearedReferences(account.profile.value), actor);
      }
      WriteProfile(actor, if IsAnonymous(account) then AnonymousProfile() else MissingProfile());
      InvalidateApprovals();
      error := None;
    }

    /** Updates the recorded facts field by field. */
    method MarkAuthenticationStatus(actor: string, status: Status, facts: Facts)
      requires actor in accounts
      modifies this`accounts
      ensures Snapshot() == MarkStatus(old(Snapshot()), actor, status, facts)
    {
      var profile := accounts[actor].profile;
      if profile.None? || profile.value.authType == "none" { return; }
      var p := profile.value.(status := status);
      p := p.(accepted := if facts.accepted.Some? then facts.accepted.value else p.accepted);
      p := p.(scopeValidated := if facts.scope.Some? then facts.scope.value else p.scopeValidated);
      p := p.(identity := MarkedIdentity(p.identity, facts));
      WriteProfile(actor, p);
    }

    /** Reads only: missing components are collected one by one, then the status is reassigned. */
    method ActorPreflight(actor: string, request: Request, now: int) returns (result: Preflight)
      ensures result == Authentication.ActorPreflight(config, Snapshot(), actor, request, now)
    {
      hide Available, EffectiveStatus, IsBlocking;
      if actor !in accounts { return UnknownAccount; }
      var profile := accounts[actor].profile;
      if IsAnonymous(accounts[actor]) {
        if profile.Some? && profile.value.components != [] { return UnsafeAssignment; }
        return Preflight.Preflight(StatusNone, true, VerdictFor(false, request.forExecution));
      }
      if profile.None? { return Preflight.Preflight(Missing, false, BlockedByAuth); }
      var p := profile.value;
      if request.profileRef.Some? && request.profileRef.value != "" && p.profileRef != request.profileRef {
        return Preflight.Preflight(ContextChanged, false, BlockedByAuth);
      }
      if request.context.Some?
          && p.context != request.context { return Preflight.Preflight(ContextChanged, false, BlockedByAuth); }
      if !(request.hosts <= p.targetHosts) { return Preflight.Preflight(Invalid, false, BlockedByAuth); }
      result := AssessProfile(actor, p, request, now);
    }

    /** The second half of a preflight: availability, remaining lifetime, then the blocking tests. */
    method AssessProfile(actor: string, p: Profile, request: Request, now: int) returns (result: Preflight)
      ensures
        var available := Available(Snapshot(), actor, p, request.environment);
        var status := EffectiveStatus(config, p, available, now, request.count);
        var blocked := !available || IsBlocking(status)
          || (request.forExecution
              && (status == ExpiringSoon || !p.accepted || !p.scopeValidated || !p.identity.confirmed));
        result == Preflight.Preflight(status, available, VerdictFor(blocked, request.forExecution))
    {
      var missing := MissingReferences(actor, p.components);
      var available := if p.source == LegacyEnvironment then p.legacyVariables * request.environment != {}
                       else p.components != [] && missing == [];
      var status := p.status;
      var margin := Margin(config, request.count);
      if !available {
        status := Missing;
      } else if p.expiresAt.Some? && WholeSeconds(p.expiresAt.value - now) <= 0 {
        status := Expired;
      } else if p.expiresAt.Some? && WholeSeconds(p.expiresAt.value - now) <= margin {
        status := ExpiringSoon;
      }
      var blocked := !available || IsBlocking(status);
      if request.forExecution && status == ExpiringSoon { blocked := true; }
      if request.forExecution && !p.accepted { blocked := true; }
      if request.forExecution && !p.scopeValidated { blocked := true; }
      if request.forExecution && !p.identity.confirmed { blocked := true; }
      result := Preflight.Preflight(status, available, VerdictFor(blocked, request.forExecution));
    }

    /** The replayed references that the store does not contain for the actor, in component order. */
    method MissingReferences(actor: string, components: seq<Component>) returns (missing: seq<string>)
      ensures forall r :: r in missing <==>
        exists c :: c in components && c.replayRequired && c.reference == r && Resolved(store.secrets, r, actor) == None
      ensures missing == [] <==> forall c :: c in components && c.replayRequired ==>
          Resolved(store.secrets, c.reference, actor).Some?
    {
      missing := [];
      for i := 0 to |components|
        invariant forall r :: r in missing <==>
          exists c ::
              c in components[..i] && c.replayRequired && c.reference == r && Resolved(store.secrets, r, actor) == None
      {
        assert components[..i + 1] == components[..i] + [components[i]];
        if components[i].replayRequired && !store.Contains(components[i].reference, actor) {
          missing := missing + [components[i].reference];
        }
      }
      assert components[..|components|] == components;
      if c :| c in components && c.replayRequired && Resolved(store.secrets, c.reference, actor) == None {
        assert c.reference in missing;
      }
      if missing != [] {
        assert missing[0] in missing;
      }
    }

    method ValidateActorBaseline(actor: string, reply: Option<Id.Response>, environment: set<string>, now: int)
      returns (result: CheckResult)
      modifies this`accounts
      ensures (Snapshot(), result) == ValidateBaseline(config, old(Snapshot()), actor, reply, environment, now)
    {
      hide Authentication.ActorPreflight, Id.Evaluate, MarkStatus;
      if !config.activeExecution { return CheckRefused(NotEnabled); }
      if actor !in accounts { return CheckRefused(UnknownActor); }
      var profile := accounts[actor].profile;
      if profile.None? || profile.value.profileRef.None? { return CheckRefused(NotConfigured); }
      if profile.value.baseline.None? { return CheckRefused(NoBaseline); }
      var baseline := profile.value.baseline.value;
      if !config.covered(baseline.host) { return CheckRefused(OutOfScope); }
      var preflight := ActorPreflight(actor, Request(1, false, None, None, {}, environment), now);
      if preflight.UnsafeAssignment? { return CheckRefused(AnonymousActor); }
      if preflight.Preflight? && preflight.verdict == BlockedByAuth { return CheckBlocked; }
      if reply.None? { return CheckRefused(NoReply); }
      var outcome := Id.Evaluate(baseline.assertion, FactsOf(actor, profile.value), reply.value, config.numerals,
          config.lower);
      if outcome.Raised? { return CheckRefused(RaisedByEvaluator); }
      if reply.value.login {
        MarkAuthenticationStatus(actor, Invalid,
            Facts(Some(false), Some(true), Some(false), Some(outcome.status), None));
        return CheckDone(false, false);
      }
      var matched := Matches(baseline, reply.value.status);
      if matched {
        MarkAuthenticationStatus(actor, Ready,
          Facts(Some(true), Some(true), Some(outcome.confirmed), Some(outcome.status), outcome.reference));
      } else {
        MarkAuthenticationStatus(actor, AvailableNotValidated,
            Facts(Some(false), Some(true), Some(false), Some(outcome.status), None));
      }
      result := CheckDone(matched, matched && outcome.confirmed);
    }

    method ConfigureRefreshFlow(actor: string, flow: ObservedFlow) returns (error: Option<Error>)
      modifies this, store
      ensures (Snapshot(), error) == ConfigureRefresh(config, old(Snapshot()), actor, flow)
    {
      hide LeafPaths, FirstNamed, SetJsonPath, PutAll, LastPart;
      var leaves := LeafPaths(flow.requestBody, "$");
      var answers := LeafPaths(flow.responseBody, "$");
      var credential := FirstNamed(leaves, REFRESH_NAMES, config.lower);
      var access := FirstNamed(answers, ACCESS_NAMES, config.lower);
      if (exists leaf :: leaf in leaves && config.lower(LastPart(leaf.0)) in FORBIDDEN_NAMES) || credential.None?
          || access.None? {
        return Some(NoRefreshFlow);
      }
      if actor !in accounts { return Some(UnknownActor); }
      if !IsConfigured(accounts[actor].profile) { return Some(NotConfigured); }
      if !flow.safeUrl || !config.covered(flow.host) { return Some(OutOfScope); }
      var template := SetJsonPath(flow.requestBody, credential.value.0, Str(MARKER));
      if template.None? { return Some(UnsupportedPath); }
      if !flow.safeHeaders { return Some(Incomplete); }
      var ok := store.PutMany([Entry(TemplateReference(config, actor), actor, "refresh_template",
          Template(template.value)),
                               Entry(RefreshReference(config, actor), actor, "refresh", Plain(credential.value.1))]);
      if !ok { return Some(InvalidBatch); }
      if !flow.validPort { return Some(InvalidPort); }
      var p := accounts[actor].profile.value;
      p := p.(components := WithRefreshComponent(config, actor, p.components));
      p := p.(refresh := Refresh(true, Some(TemplateReference(config, actor)), Some(flow.host), PathOf(access),
                                 PathOf(FirstNamed(answers, REFRESH_NAMES, config.lower)), flow.status));
      WriteProfile(actor, p);
      error := None;
    }

    method RefreshActorAuthentication(actor: string, reply: RefreshReply, now: int) returns (result: RefreshResult)
      modifies this, store
      ensures (Snapshot(), result) == RefreshAuthentication(config, old(Snapshot()), actor, reply, now)
    {
      hide RequestBody, AnswerDocument, JsonPath, FirstWithPurpose, ApplyRefresh;
      if actor !in accounts { return RefreshRefused(UnknownActor); }
      if accounts[actor].profile.None?
          || !accounts[actor].profile.value.refresh.configured { return RefreshRefused(NoRefreshFlow); }
      var p := accounts[actor].profile.value;
      if p.refresh.endpoint.None? || p.refresh.templateRef.None? { return RefreshRefused(Incomplete); }
      if !config.covered(p.refresh.endpoint.value) { return RefreshRefused(OutOfScope); }
      var body := RequestBody(config, Snapshot(), actor, p);
      if body.None? { return RefreshRefused(Unresolvable); }
      if reply.Unroutable? { return RefreshRefused(NoReply); }
      var document := AnswerDocument(p, reply);
      var token := if document.Some? then JsonPath(document.value, p.refresh.accessPath) else None;
      var access := FirstWithPurpose(p.components, "access");
      if !IsText(token) || access.None? {
        WriteProfile(actor, p.(status := RefreshFailed));
        return RefreshRefused(RefreshRejected);
      }
      result := AcceptRefresh(actor, p, document.value, access.value, token.value.s, body.value, now);
    }

    /** The second half of a refresh: identity continuity first, only then the new secrets. */
    method AcceptRefresh(actor: string, p: Profile, document: Json, access: Component, token: string, body: Json,
        now: int)
      returns (result: RefreshResult)
      requires actor in accounts
      modifies this, store
      ensures (Snapshot(), result)
          == ApplyRefresh(config, old(Snapshot()), actor, p, document, access, token, body, now)
    {
      hide PutAll, RevokeAll, RefreshEntries, FirstWithPurpose, RefreshedProfile, ValidBatch, IdentityContinuity,
          SameButFacts, SetProfile, Invalidate;
      var claims := config.decode(token);
      var continuity := IdentityContinuity(p.identity.hints, claims.hints);
      if continuity == OtherActor {
        WriteProfile(actor, p.(status := ContextChanged));
        InvalidateApprovals();
        return RefreshRefused(IdentityChanged);
      }
      var renewal := FirstWithPurpose(p.components, "refresh");
      if renewal.None? { return RefreshRefused(InvalidBatch); }
      var ok := store.PutMany(RefreshEntries(config, actor, p, document, access, renewal.value, token));
      if !ok { return RefreshRefused(InvalidBatch); }
      var updated := UpdateProfile(actor, p, claims, continuity, now);
      RecordRefresh(actor, updated, continuity);
      result := Refreshed(body, continuity);
    }

    /** Approvals go unless continuity was confirmed; the target is written last. */
    method RecordRefresh(actor: string, updated: Profile, continuity: Continuity)
      requires actor in accounts
      modifies this`accounts, this`plans
      ensures Snapshot() ==
        var after := SetProfile(old(Snapshot()), actor, updated); if continuity == SameActor then after
            else Invalidate(after)
    {
      RevokeThenSet(Snapshot(), actor, updated);
      if continuity != SameActor {
        InvalidateApprovals();
      }
      WriteProfile(actor, updated);
    }

    /** Field by field, as the record is updated after a refresh. */
    method UpdateProfile(actor: string, p: Profile, claims: Claims, continuity: Continuity, now: int)
        returns (updated: Profile)
      ensures updated == RefreshedProfile(config, actor, p, claims, continuity, now)
      ensures !updated.accepted && !updated.scopeValidated
      ensures SameButFacts(p, updated.(expiresAt := p.expiresAt, context := p.context))
      ensures continuity != SameActor ==>
        updated.identity == p.identity && updated.context == p.context && updated.status == ContextChanged
      ensures continuity == SameActor ==> !updated.identity.confirmed && updated.identity.hints == claims.hints
    {
      updated := p.(expiresAt := claims.expiresAt);
      updated := updated.(accepted := false);
      updated := updated.(scopeValidated := false);
      if continuity == SameActor {
        updated := updated.(identity := Unconfirmed(claims.hints));
        updated := updated.(context := Some(ContextKey(actor, p.authType, claims.hints, p.targetHosts)));
        updated := updated.(status := StatusForExpiration(claims.expiresAt, now, config.soonSeconds,
            AvailableNotValidated));
      } else {
        updated := updated.(status := ContextChanged);
      }
    }
  }
}
