/** Plan approvals over runs: approvals only ever disappear, and none outlives a change of the
    authentication context except through a renewal whose continuity was confirmed. */
module AuthApprovals {
  import opened Domain
  import opened SecretStores
  import opened RefreshTemplate
  import opened Authentication
  import opened AuthRuns
  import Id = Identity

  predicate SomeApproved(w: World) {
    exists i :: 0 <= i < |w.plans| && IsApproved(w.plans[i])
  }

  /** The actor has a configured profile whose context, if any, was made for its kind. */
  predicate Configured(w: World, actor: string) {
    HasProfile(w, actor) && IsConfigured(w.accounts[actor].profile)
    && (ProfileOf(w, actor).context.Some? ==>
        ProfileOf(w, actor).context.value.authType == ProfileOf(w, actor).authType)
  }

  /** An accepted renewal of the actor whose token confirmed the identity on record. */
  predicate ConfirmedRenewal(cfg: Config, w: World, step: Step, actor: string) {
    step.action.Renew? && step.action.actor == actor
    && var result := RefreshAuthentication(cfg, w, actor, step.action.reply, step.now).1;
    result.Refreshed? && result.continuity == SameActor
  }

  /** Every plan is as it was, or its approval was revoked. */
  predicate OnlyRevoked(w: World, v: World) {
    v.plans == w.plans || v.plans == RevokeAll(w.plans)
  }

  lemma RevokedIsUnapproved(w: World, v: World)
    requires v.plans == RevokeAll(w.plans)
    ensures !SomeApproved(v)
  {
  }

  /** No step ever approves a plan. */
  lemma StepOnlyRevokes(cfg: Config, w: World, step: Step)
    ensures OnlyRevoked(w, Apply(cfg, w, step))
  {
    hide Entries, StoredProfile, RequestBody, AnswerDocument, JsonPath, FirstWithPurpose, RefreshEntries,
        ActorPreflight, Id.Evaluate, LeafPaths, FirstNamed, SetJsonPath, PutAll, LastPart, WithRefreshComponent,
            ValidBatch, IdentityContinuity, RevokeAll;
  }

  // ----- What a step may do while an approval survives it

  /** The actor is still configured, in the same context, and was not marked as changed. */
  ghost predicate Unchanged(w: World, v: World, actor: string)
    requires Configured(w, actor)
  {
    && Configured(v, actor)
    && (ProfileOf(v, actor).status == ContextChanged ==> ProfileOf(w, actor).status == ContextChanged)
    && ProfileOf(v, actor).context == ProfileOf(w, actor).context
  }

  lemma StoreApproval(cfg: Config, w: World, a: string, c: AuthCandidate, source: CaptureSource, renewal: bool,
      now: int, actor: string)
    requires Configured(w, actor)
    ensures var v := StoreCandidate(cfg, w, a, c, source, renewal, now).0;
      SomeApproved(v) ==> Unchanged(w, v, actor)
  {
    hide Entries, StoredProfile, ValidBatch, PutAll, RevokeAll, IsApproved, SomeApproved, IdentityContinuity;
    var v := StoreCandidate(cfg, w, a, c, source, renewal, now).0;
    if a in w.accounts {
      StoredFacts(cfg, a, w.accounts[a].profile, c, source, now);
    }
    if v.plans == RevokeAll(w.plans) {
      RevokedIsUnapproved(w, v);
    }
  }

  lemma StoredFacts(cfg: Config, a: string, previous: Option<Profile>, c: AuthCandidate, source: CaptureSource,
      now: int)
    ensures StoredProfile(cfg, a, previous, c, source, now).authType == c.authType
    ensures StoredProfile(cfg, a, previous, c, source, now).status != ContextChanged
    ensures StoredProfile(cfg, a, previous, c, source, now).context
        == Some(ContextKey(a, c.authType, c.hints, cfg.hosts))
  {
  }

  lemma RenewApproval(cfg: Config, w: World, a: string, reply: RefreshReply, now: int, actor: string)
    requires Configured(w, actor)
    ensures var v := RefreshAuthentication(cfg, w, a, reply, now).0;
      && (SomeApproved(v) && !ConfirmedRenewal(cfg, w, Step(Renew(a, reply), now), actor) ==> Unchanged(w, v, actor))
      && (SomeApproved(v) ==>
          Configured(v, actor) && (ProfileOf(v, actor).status == ContextChanged ==>
              ProfileOf(w, actor).status == ContextChanged))
  {
    hide RequestBody, AnswerDocument, JsonPath, FirstWithPurpose, ValidBatch, PutAll, RevokeAll, IsApproved,
        SomeApproved, IdentityContinuity, RefreshEntries;
    var v := RefreshAuthentication(cfg, w, a, reply, now).0;
    if v.plans == RevokeAll(w.plans) {
      RevokedIsUnapproved(w, v);
    }
  }

  lemma CheckApproval(cfg: Config, w: World, a: string, response: Option<Id.Response>, environment: set<string>,
      now: int, actor: string)
    requires Configured(w, actor)
    ensures var v := ValidateBaseline(cfg, w, a, response, environment, now).0;
      Unchanged(w, v, actor)
  {
    hide ActorPreflight, Id.Evaluate;
  }

  lemma ClearApproval(w: World, a: string, actor: string)
    requires Configured(w, actor)
    ensures var v := ClearAuthentication(w, a).0; SomeApproved(v) ==> Unchanged(w, v, actor)
  {
    hide RevokeAll, IsApproved, SomeApproved;
    var v := ClearAuthentication(w, a).0;
    if v.plans == RevokeAll(w.plans) {
      RevokedIsUnapproved(w, v);
    }
  }

  lemma ConfigureApproval(cfg: Config, w: World, a: string, flow: ObservedFlow, actor: string)
    requires Configured(w, actor)
    ensures var v := ConfigureRefresh(cfg, w, a, flow).0; Unchanged(w, v, actor)
  {
    hide LeafPaths, FirstNamed, SetJsonPath, PutAll, LastPart, WithRefreshComponent, ValidBatch;
  }

  /** One step: while an approval survives it, a configured actor keeps its context and is
      not newly marked, unless a confirmed renewal replaced the context. */
  lemma StepApproval(cfg: Config, w: World, step: Step, actor: string)
    requires Configured(w, actor)
    ensures SomeApproved(Apply(cfg, w, step)) ==>
      && Configured(Apply(cfg, w, step), actor)
      && (ProfileOf(Apply(cfg, w, step), actor).status == ContextChanged ==>
          ProfileOf(w, actor).status == ContextChanged)
      && (ConfirmedRenewal(cfg, w, step, actor)
          || ProfileOf(Apply(cfg, w, step), actor).context == ProfileOf(w, actor).context)
  {
    hide StoreCandidate, RefreshAuthentication, ValidateBaseline, ClearAuthentication, ConfigureRefresh, SomeApproved,
        RevokeAll;
    match step.action
    case Store(a, c, source, renewal) => StoreApproval(cfg, w, a, c, source, renewal, step.now, actor);
    case Renew(a, reply) => RenewApproval(cfg, w, a, reply, step.now, actor);
    case Check(a, response, environment) => CheckApproval(cfg, w, a, response, environment, step.now, actor);
    case Clear(a) => ClearApproval(w, a, actor);
    case Configure(a, flow) => ConfigureApproval(cfg, w, a, flow, actor);
  }

  lemma RevocationKeeps(w: World, v: World, k: nat)
    requires OnlyRevoked(w, v) && k < |v.plans| && IsApproved(v.plans[k])
    ensures k < |w.plans| && IsApproved(w.plans[k]) && SomeApproved(w) && SomeApproved(v) && |w.plans| == |v.plans|
  {
  }

  // ----- Runs

  function ContextOf(w: World, actor: string): Option<ContextKey> {
    if HasProfile(w, actor) then ProfileOf(w, actor).context else None
  }

  /** The context right after the last confirmed renewal of the run, or the initial one. */
  function LastRenewedContext(cfg: Config, w: World, steps: seq<Step>, actor: string): Option<ContextKey> {
    if steps == [] then ContextOf(w, actor)
    else if ConfirmedRenewal(cfg, Run(cfg, w, steps[..|steps| - 1]), steps[|steps| - 1], actor)
      then ContextOf(Run(cfg, w, steps), actor)
    else LastRenewedContext(cfg, w, steps[..|steps| - 1], actor)
  }

  /** Whatever the run and whichever configured actor: a plan that is approved at the end was
      approved at the start, the actor is still configured and was not marked as changed on the
      way, and its context is the initial one or the one its last confirmed renewal left. */
  lemma {:induction false} ApprovalOutlivesNoChange(cfg: Config, w: World, steps: seq<Step>, actor: string, k: nat)
    requires Configured(w, actor)
    requires k < |Run(cfg, w, steps).plans| && IsApproved(Run(cfg, w, steps).plans[k])
    ensures |w.plans| == |Run(cfg, w, steps).plans| && IsApproved(w.plans[k])
    ensures Configured(Run(cfg, w, steps), actor)
    ensures ProfileOf(Run(cfg, w, steps), actor).status == ContextChanged ==>
        ProfileOf(w, actor).status == ContextChanged
    ensures ContextOf(Run(cfg, w, steps), actor) == LastRenewedContext(cfg, w, steps, actor)
  {
    if steps != [] {
      hide Apply, ConfirmedRenewal, SomeApproved, IsApproved, OnlyRevoked;
      var n := |steps| - 1;
      var before := Run(cfg, w, steps[..n]);
      RunPrefix(cfg, w, steps);
      StepOnlyRevokes(cfg, before, steps[n]);
      RevocationKeeps(before, Run(cfg, w, steps), k);
      ApprovalOutlivesNoChange(cfg, w, steps[..n], actor, k);
      StepApproval(cfg, before, steps[n], actor);
    }
  }
}
