/** What recorded authentication facts mean: which ones an operation may touch, and what stands
    behind a confirmed identity in every run. */
module AuthFacts {
  import opened Domain
  import opened SecretStores
  import opened RefreshTemplate
  import opened Authentication
  import opened AuthRuns
  import Id = Identity

  // ----- Single operations

  /** Two profiles differ at most in status, acceptance, scope and identity. */
  predicate SameButFacts(p: Profile, q: Profile) {
    q.(status := p.status, accepted := p.accepted, scopeValidated := p.scopeValidated, identity := p.identity) == p
  }

  /** Marking touches the recorded facts of one profile: a fact that is not given stays, identity
      hints always stay, and a reference stays only next to a confirmation. */
  lemma MarkingTouchesOnlyFacts(w: World, actor: string, status: Status, facts: Facts)
    requires actor in w.accounts
    ensures var v := MarkStatus(w, actor, status, facts);
      && v.secrets == w.secrets && v.plans == w.plans && v.accounts.Keys == w.accounts.Keys
      && (forall a :: a in w.accounts && a != actor ==> v.accounts[a] == w.accounts[a])
      && (v != w ==>
           && HasProfile(w, actor) && HasProfile(v, actor)
           && var p, q := ProfileOf(w, actor), ProfileOf(v, actor);
           && SameButFacts(p, q) && q.status == status && q.identity.hints == p.identity.hints
           && (facts.accepted.None? ==> q.accepted == p.accepted)
           && (facts.scope.None? ==> q.scopeValidated == p.scopeValidated)
           && (facts.assertion.None? ==> q.identity.lastAssertion == p.identity.lastAssertion)
           && (facts.confirmed.None? ==>
               q.identity.confirmed == p.identity.confirmed && q.identity.reference == p.identity.reference)
           && (facts.confirmed.Some? && q.identity.reference.Some? ==> q.identity.confirmed))
  {
    if HasProfile(w, actor) {
      assert w.accounts[actor := w.accounts[actor]] == w.accounts;
    }
  }

  /** An accepted refresh blocks execution at every later instant until the next check, keeps
      everything the credential's replay depends on, and replaces the identity only when continuity
      was confirmed; then nothing is confirmed about the new one yet. */
  lemma RefreshForgetsAcceptance(cfg: Config, w: World, actor: string, reply: RefreshReply, now: int,
      request: Request, later: int)
    requires RefreshAuthentication(cfg, w, actor, reply, now).1.Refreshed?
    requires !IsAnonymous(w.accounts[actor]) && request.forExecution
    ensures var (v, result) := RefreshAuthentication(cfg, w, actor, reply, now);
      && HasProfile(w, actor) && HasProfile(v, actor)
      && ActorPreflight(cfg, v, actor, request, later).verdict == BlockedByAuth
      && var p, q := ProfileOf(w, actor), ProfileOf(v, actor);
      && SameButFacts(p, q.(expiresAt := p.expiresAt, context := p.context))
      && (if result.continuity == SameActor then !q.identity.confirmed && q.identity.reference == None
          else q.identity == p.identity && q.context == p.context && q.status == ContextChanged)
  {
    hide RequestBody, AnswerDocument, JsonPath, FirstWithPurpose, IdentityContinuity, StatusForExpiration, RevokeAll,
        PutAll, ValidBatch, Available, EffectiveStatus;
  }

  /** A check on which the evaluator raises leaves every verdict, and the whole state, as it was: it
      is no failed check, and an actor that was ready for execution stays ready. */
  lemma RaisedCheckDecidesNothing(cfg: Config, w: World, a: string, response: Option<Id.Response>,
      environment: set<string>, now: int, actor: string, request: Request, later: int)
    requires ValidateBaseline(cfg, w, a, response, environment, now).1 == CheckRefused(RaisedByEvaluator)
    ensures var v := ValidateBaseline(cfg, w, a, response, environment, now).0;
      && v == w && ActorPreflight(cfg, v, actor, request, later) == ActorPreflight(cfg, w, actor, request, later)
    ensures !FailsCheck(cfg, w, Step(Check(a, response, environment), now), actor)
    ensures response.Some? && HasProfile(w, a) && ProfileOf(w, a).baseline.Some?
      && Id.Evaluate(ProfileOf(w, a).baseline.value.assertion, FactsOf(a, ProfileOf(w, a)), response.value,
          cfg.numerals, cfg.lower).Raised?
  {
    hide ActorPreflight, Id.Evaluate;
  }

  // ----- Runs: what stands behind a confirmed identity

  /** The reference describes an assertion on this actor. */
  predicate Describes(r: Id.Reference, a: Id.Assertion, actor: string) {
    r.actor == actor && r.source == a.source && r.selector == a.selector && r.expectedStatus == a.expectedStatus
    && (r.value.Some? <==> a.fingerprintValue)
  }

  /** Confirmation, reference and CONFIRMED status come together, and the reference describes the
      assertion of the profile's present baseline on this very actor. */
  predicate Referenced(w: World, actor: string) {
    HasProfile(w, actor) ==>
      var p := ProfileOf(w, actor);
      && (p.identity.confirmed <==> p.identity.reference.Some?)
      && (p.identity.confirmed ==>
           && p.identity.lastAssertion == Id.ConfirmedIdentity
           && p.baseline.Some? && p.baseline.value.assertion.Some?
           && Describes(p.identity.reference.value, p.baseline.value.assertion.value, actor))
  }

  lemma EvaluationDescribes(assertion: Option<Id.Assertion>, actor: Id.ActorFacts, response: Id.Response, cfg: Config)
    ensures var outcome := Id.Evaluate(assertion, actor, response, cfg.numerals, cfg.lower);
      outcome.Outcome? ==>
        && (outcome.confirmed <==> outcome.reference.Some?)
        && (outcome.confirmed ==>
            outcome.status == Id.ConfirmedIdentity && assertion.Some?
                && Describes(outcome.reference.value, assertion.value, actor.id))
  {
    hide Id.Select, Id.Expected;
  }

  lemma CheckReferences(cfg: Config, w: World, a: string, response: Option<Id.Response>, environment: set<string>,
      now: int, actor: string)
    requires Referenced(w, actor)
    ensures Referenced(ValidateBaseline(cfg, w, a, response, environment, now).0, actor)
  {
    var (v, result) := ValidateBaseline(cfg, w, a, response, environment, now);
    if result.CheckDone? {
      var p := ProfileOf(w, a);
      EvaluationDescribes(p.baseline.value.assertion, FactsOf(a, p), response.value, cfg);
      hide ActorPreflight, Id.Evaluate, Describes;
      if a == actor {
        assert ProfileOf(v, a).baseline == p.baseline;
      }
    } else {
      assert v == w by { RefusedCheck(cfg, w, a, response, environment, now); }
    }
  }

  lemma RefusedCheck(cfg: Config, w: World, a: string, response: Option<Id.Response>, environment: set<string>,
      now: int)
    requires !ValidateBaseline(cfg, w, a, response, environment, now).1.CheckDone?
    ensures ValidateBaseline(cfg, w, a, response, environment, now).0 == w
  {
    hide ActorPreflight, Id.Evaluate;
  }

  lemma StoreReferences(cfg: Config, w: World, a: string, c: AuthCandidate, source: CaptureSource, renewal: bool,
      now: int, actor: string)
    requires Referenced(w, actor)
    ensures Referenced(StoreCandidate(cfg, w, a, c, source, renewal, now).0, actor)
  {
    hide Entries, StoredProfile, ValidBatch, PutAll, RevokeAll, IdentityContinuity, Describes;
    if a in w.accounts {
      StoredUnconfirmed(cfg, a, w.accounts[a].profile, c, source, now);
    }
  }

  lemma StoredUnconfirmed(cfg: Config, a: string, previous: Option<Profile>, c: AuthCandidate, source: CaptureSource,
      now: int)
    ensures StoredProfile(cfg, a, previous, c, source, now).identity == Unconfirmed(c.hints)
  {
  }

  lemma RenewReferences(cfg: Config, w: World, a: string, reply: RefreshReply, now: int, actor: string)
    requires Referenced(w, actor)
    ensures Referenced(RefreshAuthentication(cfg, w, a, reply, now).0, actor)
  {
    hide RequestBody, AnswerDocument, JsonPath, FirstWithPurpose, IdentityContinuity, RefreshedProfile, RevokeAll,
        PutAll, ValidBatch, Describes, RefreshEntries;
    if RefreshAuthentication(cfg, w, a, reply, now).1.Refreshed? {
      RenewedIsUnaccepted(cfg, w, a, reply, now);
    }
  }

  lemma StepReferences(cfg: Config, w: World, step: Step, actor: string)
    requires Referenced(w, actor)
    ensures Referenced(Apply(cfg, w, step), actor)
  {
    hide StoreCandidate, RefreshAuthentication, ValidateBaseline, Describes;
    match step.action
    case Store(a, c, source, renewal) => StoreReferences(cfg, w, a, c, source, renewal, step.now, actor);
    case Renew(a, reply) => RenewReferences(cfg, w, a, reply, step.now, actor);
    case Check(a, response, environment) => CheckReferences(cfg, w, a, response, environment, step.now, actor);
    case Clear(a) => hide RevokeAll, RemoveAll;
    case Configure(a, flow) => ConfigureReferences(cfg, w, a, flow, actor);
  }

  lemma ConfigureReferences(cfg: Config, w: World, a: string, flow: ObservedFlow, actor: string)
    requires Referenced(w, actor)
    ensures Referenced(ConfigureRefresh(cfg, w, a, flow).0, actor)
  {
    hide LeafPaths, FirstNamed, SetJsonPath, PutAll, LastPart, WithRefreshComponent, ValidBatch, Describes;
  }

  /** In every run on any actors, a confirmed identity carries a reference to the assertion of the
      baseline its profile still has, made about this actor, and nothing else carries one. */
  lemma {:induction false} RunKeepsReferences(cfg: Config, w: World, steps: seq<Step>, actor: string)
    requires Referenced(w, actor)
    ensures Referenced(Run(cfg, w, steps), actor)
  {
    if steps != [] {
      hide Referenced, Apply;
      RunKeepsReferences(cfg, w, steps[..|steps| - 1], actor);
      StepReferences(cfg, Run(cfg, w, steps[..|steps| - 1]), steps[|steps| - 1], actor);
    }
  }
}
