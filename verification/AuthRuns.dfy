/** Whole runs of the authentication lifecycle: what an execution verdict and a bound subject rest on. */
module AuthRuns {
  import opened Domain
  import opened Json
  import opened SecretStores
  import opened RefreshTemplate
  import opened Authentication
  import Id = Identity

  datatype Action =
    | Store(actor: string, candidate: AuthCandidate, source: CaptureSource, renewal: bool)
    | Renew(actor: string, reply: RefreshReply)
    | Check(actor: string, response: Option<Id.Response>, environment: set<string>)
    | Clear(actor: string)
    | Configure(actor: string, flow: ObservedFlow)

  /** One step of a run: an operation on any actor, with the clock it reads. */
  datatype Step = Step(action: Action, now: int)

  function Apply(cfg: Config, w: World, step: Step): World {
    match step.action
    case Store(a, c, source, renewal) => StoreCandidate(cfg, w, a, c, source, renewal, step.now).0
    case Renew(a, reply) => RefreshAuthentication(cfg, w, a, reply, step.now).0
    case Check(a, response, environment) => ValidateBaseline(cfg, w, a, response, environment, step.now).0
    case Clear(a) => ClearAuthentication(w, a).0
    case Configure(a, flow) => ConfigureRefresh(cfg, w, a, flow).0
  }

  function Run(cfg: Config, w: World, steps: seq<Step>): World {
    if steps == [] then w else Apply(cfg, Run(cfg, w, steps[..|steps| - 1]), steps[|steps| - 1])
  }

  // ----- What a step did

  /** A baseline check of the actor that matched and confirmed its identity. */
  predicate Confirms(cfg: Config, w: World, step: Step, actor: string) {
    step.action.Check? && step.action.actor == actor
    && ValidateBaseline(cfg, w, actor, step.action.response, step.action.environment, step.now).1
        == CheckDone(true, true)
  }

  /** A baseline check of the actor that was completed and did not confirm.  A check on which the
      evaluator raises is not completed: it records nothing. */
  predicate FailsCheck(cfg: Config, w: World, step: Step, actor: string) {
    step.action.Check? && step.action.actor == actor
    && var result := ValidateBaseline(cfg, w, actor, step.action.response, step.action.environment, step.now).1;
    result.CheckDone? && result != CheckDone(true, true)
  }

  /** A step that gave the actor a new credential or took it away. */
  predicate ReplacesCredential(cfg: Config, w: World, step: Step, actor: string) {
    match step.action
    case Store(a, c, source, renewal) => a == actor && StoreCandidate(cfg, w, a, c, source, renewal, step.now).1 == None
    case Renew(a, reply) => a == actor && RefreshAuthentication(cfg, w, a, reply, step.now).1.Refreshed?
    case Clear(a) => a == actor && a in w.accounts
    case _ => false
  }

  // ----- What replay sends

  function ReplayRefs(p: Profile): set<string> {
    set c | c in p.components && c.replayRequired :: c.reference
  }

  predicate HasProfile(w: World, actor: string) {
    actor in w.accounts && w.accounts[actor].profile.Some?
  }

  function ProfileOf(w: World, actor: string): Profile
    requires HasProfile(w, actor)
  {
    w.accounts[actor].profile.value
  }

  /** The replayed references are the same, and each one resolves to the same secret. */
  ghost predicate SameCredential(w: World, v: World, actor: string) {
    && HasProfile(w, actor) && HasProfile(v, actor)
    && ReplayRefs(ProfileOf(w, actor)) == ReplayRefs(ProfileOf(v, actor))
    && forall r :: r in ReplayRefs(ProfileOf(w, actor)) ==>
        Resolved(w.secrets, r, actor) == Resolved(v.secrets, r, actor)
  }

  /** Looking back from v: whatever the actor can still replay in v is what it could replay in w. */
  ghost predicate Inherited(w: World, v: World, actor: string) {
    && HasProfile(w, actor) && HasProfile(v, actor)
    && ReplayRefs(ProfileOf(w, actor)) == ReplayRefs(ProfileOf(v, actor))
    && forall r :: r in ReplayRefs(ProfileOf(v, actor)) && Resolved(v.secrets, r, actor).Some?
         ==> Resolved(w.secrets, r, actor) == Resolved(v.secrets, r, actor)
  }

  // ----- Invariant and verified state

  predicate Verified(w: World, actor: string) {
    HasProfile(w, actor) && ProfileOf(w, actor).accepted && ProfileOf(w, actor).identity.confirmed
  }

  /** Profiles never come from the environment, a profile without authentication is never
      confirmed, and refresh components are never replayed. */
  predicate Sound(w: World, actor: string) {
    HasProfile(w, actor) ==>
      var p := ProfileOf(w, actor);
      && p.source != LegacyEnvironment
      && (p.identity.confirmed ==> p.authType != "none")
      && forall c :: c in p.components && c.purpose == "refresh" ==> !c.replayRequired
  }

  /** The actor has no profile, the missing profile, or any other unconfirmed one. */
  predicate Unverified(w: World, actor: string) {
    Sound(w, actor) && (HasProfile(w, actor) ==> !ProfileOf(w, actor).identity.confirmed)
  }

  /** The two exits of configuring that leave the secrets written. */
  predicate WritesSecrets(error: Option<Error>) {
    error == None || error == Some(InvalidPort)
  }

  /** The credential that an observed flow carries, and its body with the marker in place. */
  function FlowToken(cfg: Config, flow: ObservedFlow): string {
    var credential := FirstNamed(LeafPaths(flow.requestBody, "$"), REFRESH_NAMES, cfg.lower);
    if credential.Some? then credential.value.1 else ""
  }

  function FlowTemplate(cfg: Config, flow: ObservedFlow): Json {
    var credential := FirstNamed(LeafPaths(flow.requestBody, "$"), REFRESH_NAMES, cfg.lower);
    var template := if credential.Some? then SetJsonPath(flow.requestBody, credential.value.0, Str(MARKER)) else None;
    if template.Some? then template.value else Null
  }

  /** A configuration of the actor's refresh flow that gets as far as storing its two secrets. */
  predicate WritesFlow(cfg: Config, w: World, step: Step, actor: string) {
    step.action.Configure? && step.action.actor == actor
    && WritesSecrets(ConfigureRefresh(cfg, w, actor, step.action.flow).1)
  }

  predicate IsFlowReference(cfg: Config, actor: string, r: string) {
    r == TemplateReference(cfg, actor) || r == RefreshReference(cfg, actor)
  }

  /** What the actor's reference r holds after a step that neither stores, renews nor clears. */
  function SecretAfter(cfg: Config, w: World, step: Step, actor: string, r: string): Option<SecretValue> {
    if WritesFlow(cfg, w, step, actor) && r == TemplateReference(cfg, actor)
        then Some(Template(FlowTemplate(cfg, step.action.flow)))
    else if WritesFlow(cfg, w, step, actor) && r == RefreshReference(cfg, actor)
        then Some(Plain(FlowToken(cfg, step.action.flow)))
    else Resolved(w.secrets, r, actor)
  }

  /** The configuration writes something else under a reference that is replayed. */
  ghost predicate Overwrites(cfg: Config, w: World, step: Step, actor: string) {
    HasProfile(w, actor)
    && exists r ::
        r in ReplayRefs(ProfileOf(w, actor)) && SecretAfter(cfg, w, step, actor, r) != Resolved(w.secrets, r, actor)
  }

  // ----- Secrets of other actors' steps

  lemma {:induction false} EntriesBelong(cfg: Config, actor: string, captured: seq<Captured>)
    ensures forall e :: e in Entries(cfg, actor, captured) ==> e.actor == actor
  {
    if captured != [] {
      EntriesBelong(cfg, actor, captured[..|captured| - 1]);
    }
  }

  /** Batches of another actor can only take a reference away. */
  lemma ForeignBatch(secrets: map<string, Secret>, batch: seq<Entry>, owner: string, actor: string, r: string)
    requires owner != actor && forall e :: e in batch ==> e.actor == owner
    ensures Resolved(PutAll(secrets, batch), r, actor).Some? ==>
        Resolved(secrets, r, actor) == Resolved(PutAll(secrets, batch), r, actor)
  {
    PutAllHolds(secrets, batch, r);
    if e :| e in batch && e.reference == r {
      PutAllTakes(secrets, batch, r);
    }
  }

  lemma ForeignPut(w: World, v: World, batch: seq<Entry>, owner: string, actor: string)
    requires owner != actor && forall e :: e in batch ==> e.actor == owner
    requires v.secrets == PutAll(w.secrets, batch)
    requires HasProfile(w, actor) && HasProfile(v, actor) && ProfileOf(w, actor) == ProfileOf(v, actor)
    ensures Inherited(w, v, actor)
  {
    forall r | r in ReplayRefs(ProfileOf(v, actor)) && Resolved(v.secrets, r, actor).Some?
      ensures Resolved(w.secrets, r, actor) == Resolved(v.secrets, r, actor)
    {
      ForeignBatch(w.secrets, batch, owner, actor, r);
    }
  }

  // ----- One lemma per operation: a verified state after it was verified before it

  /** What each operation owes: the invariant, and that a verified actor it did not just confirm
      was verified before with the credential it still has. */
  ghost predicate Keeps(w: World, v: World, actor: string) {
    && Sound(v, actor)
    && (Verified(v, actor) ==> Verified(w, actor) && Inherited(w, v, actor))
  }

  lemma KeepsProfile(w: World, v: World, actor: string)
    requires Sound(w, actor) && v.secrets == w.secrets
    requires HasProfile(w, actor) && HasProfile(v, actor)
    requires exists s :: ProfileOf(v, actor) == ProfileOf(w, actor).(status := s)
    ensures Keeps(w, v, actor)
  {
    assert ReplayRefs(ProfileOf(v, actor)) == ReplayRefs(ProfileOf(w, actor));
  }

  lemma UntouchedAccount(w: World, v: World, actor: string)
    requires Sound(w, actor) && v.secrets == w.secrets
    requires actor in w.accounts <==> actor in v.accounts
    requires actor in w.accounts ==> v.accounts[actor].profile == w.accounts[actor].profile
    ensures Keeps(w, v, actor)
  {
  }

  lemma {:induction false} ComponentsOfCapture(cfg: Config, actor: string, captured: seq<Captured>)
    ensures forall c :: c in Components(cfg, actor, captured) && c.purpose == "refresh" ==> !c.replayRequired
  {
    if captured != [] {
      ComponentsOfCapture(cfg, actor, captured[..|captured| - 1]);
    }
  }

  lemma StoreKeeps(cfg: Config, w: World, a: string, c: AuthCandidate, source: CaptureSource, renewal: bool, now: int,
      actor: string)
    requires Sound(w, actor)
    ensures Keeps(w, StoreCandidate(cfg, w, a, c, source, renewal, now).0, actor)
    ensures Verified(StoreCandidate(cfg, w, a, c, source, renewal, now).0, actor)
      ==> !ReplacesCredential(cfg, w, Step(Store(a, c, source, renewal), now), actor)
  {
    hide Entries, StoredProfile, IdentityContinuity, ValidBatch, PutAll, RevokeAll;
    var (v, error) := StoreCandidate(cfg, w, a, c, source, renewal, now);
    if error == None {
      StoredIsUnverified(cfg, a, w.accounts[a].profile, c, source, now);
      EntriesBelong(cfg, a, c.components);
      if a != actor && HasProfile(v, actor) {
        ForeignPut(w, v, Entries(cfg, a, c.components), a, actor);
      }
    } else if error == Some(IdentityChanged) && a == actor {
      KeepsProfile(w, v, actor);
    } else {
      UntouchedAccount(w, v, actor);
    }
  }

  lemma StoredIsUnverified(cfg: Config, a: string, previous: Option<Profile>, c: AuthCandidate, source: CaptureSource,
      now: int)
    ensures var p := StoredProfile(cfg, a, previous, c, source, now);
      && !p.identity.confirmed && p.source != LegacyEnvironment
      && forall c :: c in p.components && c.purpose == "refresh" ==> !c.replayRequired
  {
    ComponentsOfCapture(cfg, a, c.components);
    hide Components, StatusForExpiration;
  }

  lemma ClearKeeps(w: World, a: string, actor: string)
    requires Sound(w, actor)
    ensures Keeps(w, ClearAuthentication(w, a).0, actor)
    ensures Verified(ClearAuthentication(w, a).0, actor) ==> !(a == actor && a in w.accounts)
  {
  }

  lemma CheckKeeps(cfg: Config, w: World, a: string, response: Option<Id.Response>, environment: set<string>,
      now: int, actor: string)
    requires Sound(w, actor)
    requires !Confirms(cfg, w, Step(Check(a, response, environment), now), actor)
    ensures Keeps(w, ValidateBaseline(cfg, w, a, response, environment, now).0, actor)
    ensures Verified(ValidateBaseline(cfg, w, a, response, environment, now).0, actor)
      ==> !FailsCheck(cfg, w, Step(Check(a, response, environment), now), actor)
  {
    hide ActorPreflight, Id.Evaluate;
    var (v, result) := ValidateBaseline(cfg, w, a, response, environment, now);
    assert v.secrets == w.secrets;
    if a != actor || !result.CheckDone? {
      UntouchedAccount(w, v, actor);
    }
  }

  lemma RenewKeeps(cfg: Config, w: World, a: string, reply: RefreshReply, now: int, actor: string)
    requires Sound(w, actor)
    ensures Keeps(w, RefreshAuthentication(cfg, w, a, reply, now).0, actor)
    ensures Verified(RefreshAuthentication(cfg, w, a, reply, now).0, actor)
      ==> !(a == actor && RefreshAuthentication(cfg, w, a, reply, now).1.Refreshed?)
  {
    hide RequestBody, AnswerDocument, JsonPath, FirstWithPurpose, IdentityContinuity, RefreshEntries,
        RefreshedProfile, RevokeAll, PutAll, ValidBatch;
    var (v, result) := RefreshAuthentication(cfg, w, a, reply, now);
    if result.Refreshed? {
      RenewedIsUnaccepted(cfg, w, a, reply, now);
      if a != actor && HasProfile(v, actor) {
        var p := ProfileOf(w, a);
        var batch := RenewalBatch(cfg, w, a, reply, now);
        ForeignPut(w, v, batch, a, actor);
      }
    } else if a == actor && HasProfile(w, actor) && ProfileOf(v, actor) != ProfileOf(w, actor) {
      KeepsProfile(w, v, actor);
    } else {
      UntouchedAccount(w, v, actor);
    }
  }

  lemma RenewedIsUnaccepted(cfg: Config, w: World, a: string, reply: RefreshReply, now: int)
    requires RefreshAuthentication(cfg, w, a, reply, now).1.Refreshed?
    ensures var v := RefreshAuthentication(cfg, w, a, reply, now).0;
      && HasProfile(w, a) && HasProfile(v, a) && !ProfileOf(v, a).accepted
      && ProfileOf(v, a).components == ProfileOf(w, a).components && ProfileOf(v, a).source == ProfileOf(w, a).source
      && ProfileOf(v, a).authType == ProfileOf(w, a).authType
      && ProfileOf(v, a).baseline == ProfileOf(w, a).baseline
      && (ProfileOf(v, a).identity.confirmed || ProfileOf(v, a).identity.reference.Some? ==>
          ProfileOf(v, a).identity == ProfileOf(w, a).identity)
  {
    hide RequestBody, AnswerDocument, JsonPath, FirstWithPurpose, IdentityContinuity, RefreshEntries,
        StatusForExpiration, RevokeAll, PutAll, ValidBatch;
  }

  /** The secrets written by a successful refresh, all of them the refreshed actor's. */
  lemma RenewalBatch(cfg: Config, w: World, a: string, reply: RefreshReply, now: int) returns (batch: seq<Entry>)
    requires RefreshAuthentication(cfg, w, a, reply, now).1.Refreshed?
    ensures RefreshAuthentication(cfg, w, a, reply, now).0.secrets == PutAll(w.secrets, batch)
    ensures forall e :: e in batch ==> e.actor == a
  {
    hide RequestBody, JsonPath, FirstWithPurpose, IdentityContinuity, StatusForExpiration, RevokeAll, PutAll,
        ValidBatch;
    var p := w.accounts[a].profile.value;
    var document := AnswerDocument(p, reply).value;
    var access := FirstWithPurpose(p.components, "access").value;
    batch := RefreshEntries(cfg, a, p, document, access, FirstWithPurpose(p.components, "refresh").value,
                            JsonPath(document, p.refresh.accessPath).value.s);
  }

  lemma {:induction false} DroppedMembers(components: seq<Component>, purpose: string)
    ensures forall c :: c in DropPurpose(components, purpose) <==> c in components && c.purpose != purpose
  {
    if components != [] {
      DroppedMembers(components[1..], purpose);
      assert components == [components[0]] + components[1..];
    }
  }

  /** Replacing the refresh component leaves the replayed references alone. */
  lemma ReplayRefsKept(cfg: Config, actor: string, p: Profile, refresh: Refresh)
    requires forall c :: c in p.components && c.purpose == "refresh" ==> !c.replayRequired
    ensures var q := p.(components := WithRefreshComponent(cfg, actor, p.components), refresh := refresh);
      && ReplayRefs(q) == ReplayRefs(p)
      && forall c :: c in q.components && c.purpose == "refresh" ==> !c.replayRequired
  {
    var q := p.(components := WithRefreshComponent(cfg, actor, p.components), refresh := refresh);
    DroppedMembers(p.components, "refresh");
    forall r | r in ReplayRefs(p) ensures r in ReplayRefs(q) {
      var c :| c in p.components && c.replayRequired && c.reference == r;
      assert c in q.components;
    }
  }

  /** The secrets written when a refresh flow is configured. */
  function FlowBatch(cfg: Config, actor: string, template: Json, token: string): seq<Entry> {
    [Entry(TemplateReference(cfg, actor), actor, "refresh_template", Template(template)),
     Entry(RefreshReference(cfg, actor), actor, "refresh", Plain(token))]
  }

  lemma {:induction false} FirstNamedIsLeaf(leaves: seq<(string, Json)>, names: set<string>, lower: string -> string)
    requires FirstNamed(leaves, names, lower).Some?
    ensures var (path, s) := FirstNamed(leaves, names, lower).value; (path, Str(s)) in leaves && s != ""
  {
    if !(lower(LastPart(leaves[0].0)) in names && leaves[0].1.Str? && leaves[0].1.s != "") {
      FirstNamedIsLeaf(leaves[1..], names, lower);
    }
  }

  lemma FlowReferencesDiffer(cfg: Config, actor: string)
    ensures TemplateReference(cfg, actor) != RefreshReference(cfg, actor)
  {
    assert |TemplateReference(cfg, actor)| == 11 + |cfg.slug(actor)| + 17;
    assert |RefreshReference(cfg, actor)| == 11 + |cfg.slug(actor)| + 14;
  }

  lemma FlowSecretsResolve(cfg: Config, secrets: map<string, Secret>, actor: string, template: Json, token: string)
    requires token != ""
    ensures var stored := PutAll(secrets, FlowBatch(cfg, actor, template, token));
      && Resolved(stored, TemplateReference(cfg, actor), actor) == Some(Template(template))
      && Resolved(stored, RefreshReference(cfg, actor), actor) == Some(Plain(token))
  {
    FlowReferencesDiffer(cfg, actor);
    hide TemplateReference, RefreshReference;
    var batch := FlowBatch(cfg, actor, template, token);
    assert batch[..1] == [batch[0]] && batch[..1][..0] == [];
    assert PutAll(secrets, batch[..1][..0]) == secrets;
    assert PutAll(secrets, batch[..1]) == PutEntry(secrets, batch[0]);
  }

  /** What configuring does, by outcome. */
  lemma ConfigureShape(cfg: Config, w: World, a: string, flow: ObservedFlow) returns (refresh: Refresh)
    ensures var (v, error) := ConfigureRefresh(cfg, w, a, flow);
      if WritesSecrets(error) then
        && HasProfile(w, a) && FlowToken(cfg, flow) != ""
        && v.secrets == PutAll(w.secrets, FlowBatch(cfg, a, FlowTemplate(cfg, flow), FlowToken(cfg, flow)))
        && v.accounts == if error == None then
             w.accounts[a := w.accounts[a].(profile := Some(ProfileOf(w, a).(
               components := WithRefreshComponent(cfg, a, ProfileOf(w, a).components), refresh := refresh)))]
           else w.accounts
      else v == w
  {
    hide LeafPaths, FirstNamed, SetJsonPath, PutAll, LastPart, WithRefreshComponent, ValidBatch;
    refresh := NoRefresh();
    var (v, error) := ConfigureRefresh(cfg, w, a, flow);
    if WritesSecrets(error) {
      FirstNamedIsLeaf(LeafPaths(flow.requestBody, "$"), REFRESH_NAMES, cfg.lower);
      if error == None {
        refresh := ProfileOf(v, a).refresh;
      }
    }
  }

  /** Under every reference: what a stored flow leaves there. */
  lemma FlowSecretAfter(cfg: Config, secrets: map<string, Secret>, actor: string, template: Json, token: string,
      r: string)
    requires token != ""
    ensures Resolved(PutAll(secrets, FlowBatch(cfg, actor, template, token)), r, actor)
         == if r == TemplateReference(cfg, actor) then Some(Template(template))
            else if r == RefreshReference(cfg, actor) then Some(Plain(token))
            else Resolved(secrets, r, actor)
  {
    FlowReferencesDiffer(cfg, actor);
    FlowSecretsResolve(cfg, secrets, actor, template, token);
    hide TemplateReference, RefreshReference, PutAll;
    if r != TemplateReference(cfg, actor) && r != RefreshReference(cfg, actor) {
      PutAllHolds(secrets, FlowBatch(cfg, actor, template, token), r);
    }
  }

  /** From w to v by a step: the same references are replayed, and what one still resolves to is
      what the step wrote there, or what it resolved to before. */
  ghost predicate Carries(cfg: Config, w: World, step: Step, v: World, actor: string) {
    && HasProfile(w, actor) && HasProfile(v, actor)
    && ReplayRefs(ProfileOf(w, actor)) == ReplayRefs(ProfileOf(v, actor))
    && forall r :: r in ReplayRefs(ProfileOf(v, actor)) && Resolved(v.secrets, r, actor).Some?
         ==> Resolved(v.secrets, r, actor) == SecretAfter(cfg, w, step, actor, r)
  }

  lemma InheritedCarries(cfg: Config, w: World, step: Step, v: World, actor: string)
    requires !WritesFlow(cfg, w, step, actor) && Inherited(w, v, actor)
    ensures Carries(cfg, w, step, v, actor)
  {
    hide WritesFlow;
  }

  lemma ConfigureKeeps(cfg: Config, w: World, a: string, flow: ObservedFlow, now: int, actor: string)
    requires Sound(w, actor)
    ensures var v := ConfigureRefresh(cfg, w, a, flow).0;
      && Sound(v, actor)
      && (Verified(v, actor) ==> Verified(w, actor) && Carries(cfg, w, Step(Configure(a, flow), now), v, actor))
  {
    var refresh := ConfigureShape(cfg, w, a, flow);
    var step := Step(Configure(a, flow), now);
    hide ConfigureRefresh, WithRefreshComponent, PutAll, FlowTemplate, FlowToken, TemplateReference, RefreshReference;
    var (v, error) := ConfigureRefresh(cfg, w, a, flow);
    if !WritesSecrets(error) {
      if HasProfile(w, actor) {
        InheritedCarries(cfg, w, step, v, actor);
      }
    } else if a != actor {
      if HasProfile(v, actor) {
        ForeignPut(w, v, FlowBatch(cfg, a, FlowTemplate(cfg, flow), FlowToken(cfg, flow)), a, actor);
        InheritedCarries(cfg, w, step, v, actor);
      }
    } else {
      ReplayRefsKept(cfg, a, ProfileOf(w, a), refresh);
      forall r ensures Resolved(v.secrets, r, actor) == SecretAfter(cfg, w, step, actor, r) {
        FlowSecretAfter(cfg, w.secrets, a, FlowTemplate(cfg, flow), FlowToken(cfg, flow), r);
      }
    }
  }

  /** One step, whatever it is but a confirming check: the invariant holds on, and an actor that is
      verified after it was verified before with what it now replays, unless the step configured
      the flow and wrote it; nothing failed and no new credential came. */
  lemma StepKeeps(cfg: Config, w: World, step: Step, actor: string)
    requires Sound(w, actor) && !Confirms(cfg, w, step, actor)
    ensures Sound(Apply(cfg, w, step), actor)
    ensures Verified(Apply(cfg, w, step), actor) ==>
      && Verified(w, actor) && Carries(cfg, w, step, Apply(cfg, w, step), actor)
      && !FailsCheck(cfg, w, step, actor) && !ReplacesCredential(cfg, w, step, actor)
  {
    hide StoreCandidate, RefreshAuthentication, ValidateBaseline, ClearAuthentication, ConfigureRefresh, Verified,
        Sound, Carries, Inherited;
    match step.action {
      case Store(a, c, source, renewal) => StoreKeeps(cfg, w, a, c, source, renewal, step.now, actor);
      case Renew(a, reply) => RenewKeeps(cfg, w, a, reply, step.now, actor);
      case Check(a, response, environment) => CheckKeeps(cfg, w, a, response, environment, step.now, actor);
      case Clear(a) => ClearKeeps(w, a, actor);
      case Configure(a, flow) => ConfigureKeeps(cfg, w, a, flow, step.now, actor);
    }
    if !step.action.Configure? && Verified(Apply(cfg, w, step), actor) {
      InheritedCarries(cfg, w, step, Apply(cfg, w, step), actor);
    }
  }

  lemma ConfirmingKeepsSound(cfg: Config, w: World, step: Step, actor: string)
    requires Sound(w, actor) && Confirms(cfg, w, step, actor)
    ensures Sound(Apply(cfg, w, step), actor)
  {
    hide ActorPreflight, Id.Evaluate;
  }

  // ----- Main result: execution needs a confirmed check of the credential it replays

  /** Between steps i and n nothing failed and nothing replaced the credential. */
  ghost predicate QuietSince(cfg: Config, w: World, steps: seq<Step>, i: nat, actor: string) {
    forall j :: i < j < |steps| ==>
      !FailsCheck(cfg, Run(cfg, w, steps[..j]), steps[j], actor)
          && !ReplacesCredential(cfg, Run(cfg, w, steps[..j]), steps[j], actor)
  }

  /** What reference r ought to hold: what the last configuration after step i wrote there, or else
      what it held right after step i. */
  function SecretSince(cfg: Config, w: World, steps: seq<Step>, i: nat, actor: string, r: string): Option<SecretValue>
    requires i < |steps|
  {
    var n := |steps| - 1;
    if i == n then Resolved(Run(cfg, w, steps).secrets, r, actor)
    else if WritesFlow(cfg, Run(cfg, w, steps[..n]), steps[n], actor) && IsFlowReference(cfg, actor, r)
      then SecretAfter(cfg, Run(cfg, w, steps[..n]), steps[n], actor, r)
    else SecretSince(cfg, w, steps[..n], i, actor, r)
  }

  /** For every reference replayed at the end, the last configuration after step i that wrote it, if
      any, wrote what was there right after step i. */
  ghost predicate WrittenAsChecked(cfg: Config, w: World, steps: seq<Step>, i: nat, actor: string)
    requires i < |steps| && HasProfile(Run(cfg, w, steps), actor)
  {
    forall r :: r in ReplayRefs(ProfileOf(Run(cfg, w, steps), actor)) ==>
      SecretSince(cfg, w, steps, i, actor, r) == Resolved(Run(cfg, w, steps[..i + 1]).secrets, r, actor)
  }

  ghost predicate NoOverwriteSince(cfg: Config, w: World, steps: seq<Step>, i: nat, actor: string) {
    forall j :: i < j < |steps| ==> !Overwrites(cfg, Run(cfg, w, steps[..j]), steps[j], actor)
  }

  /** The references replayed at the end are those right after step i, and whatever one still
      resolves to is what it ought to hold. */
  ghost predicate Traced(cfg: Config, w: World, steps: seq<Step>, i: nat, actor: string)
    requires i < |steps|
  {
    var checked, final := Run(cfg, w, steps[..i + 1]), Run(cfg, w, steps);
    && HasProfile(checked, actor) && HasProfile(final, actor)
    && ReplayRefs(ProfileOf(checked, actor)) == ReplayRefs(ProfileOf(final, actor))
    && forall r :: r in ReplayRefs(ProfileOf(final, actor)) && Resolved(final.secrets, r, actor).Some?
         ==> Resolved(final.secrets, r, actor) == SecretSince(cfg, w, steps, i, actor, r)
  }

  lemma RunPrefix(cfg: Config, w: World, steps: seq<Step>)
    requires steps != []
    ensures Run(cfg, w, steps) == Apply(cfg, Run(cfg, w, steps[..|steps| - 1]), steps[|steps| - 1])
  {
  }

  lemma {:induction false} RunKeepsSound(cfg: Config, w: World, steps: seq<Step>, actor: string)
    requires Sound(w, actor)
    ensures Sound(Run(cfg, w, steps), actor)
  {
    if steps != [] {
      hide Sound, Apply, Confirms, Carries;
      var n := |steps| - 1;
      RunKeepsSound(cfg, w, steps[..n], actor);
      if Confirms(cfg, Run(cfg, w, steps[..n]), steps[n], actor) {
        ConfirmingKeepsSound(cfg, Run(cfg, w, steps[..n]), steps[n], actor);
      } else {
        StepKeeps(cfg, Run(cfg, w, steps[..n]), steps[n], actor);
      }
    }
  }

  lemma TraceStarts(cfg: Config, w: World, steps: seq<Step>, actor: string)
    requires steps != [] && HasProfile(Run(cfg, w, steps), actor)
    ensures Traced(cfg, w, steps, |steps| - 1, actor) && WrittenAsChecked(cfg, w, steps, |steps| - 1, actor)
  {
    hide Run;
    assert steps[..|steps| - 1 + 1] == steps;
  }

  lemma TraceExtends(cfg: Config, w: World, steps: seq<Step>, i: nat, actor: string)
    requires i < |steps| - 1 && Traced(cfg, w, steps[..|steps| - 1], i, actor)
    requires Carries(cfg, Run(cfg, w, steps[..|steps| - 1]), steps[|steps| - 1], Run(cfg, w, steps), actor)
    ensures Traced(cfg, w, steps, i, actor)
  {
    hide Run, WritesFlow, ReplayRefs;
    assert steps[..|steps| - 1][..i + 1] == steps[..i + 1];
  }

  /** If no configuration overwrites a replayed secret, each one wrote what was checked. */
  lemma NoOverwriteExtends(cfg: Config, w: World, steps: seq<Step>, i: nat, actor: string)
    requires i < |steps| - 1 && Traced(cfg, w, steps[..|steps| - 1], i, actor)
    requires HasProfile(Run(cfg, w, steps[..|steps| - 1]), actor) && HasProfile(Run(cfg, w, steps), actor)
    requires ReplayRefs(ProfileOf(Run(cfg, w, steps[..|steps| - 1]), actor))
        == ReplayRefs(ProfileOf(Run(cfg, w, steps), actor))
    requires NoOverwriteSince(cfg, w, steps[..|steps| - 1], i, actor) ==>
        WrittenAsChecked(cfg, w, steps[..|steps| - 1], i, actor)
    ensures NoOverwriteSince(cfg, w, steps, i, actor) ==> WrittenAsChecked(cfg, w, steps, i, actor)
  {
    hide Run, NoOverwriteSince, Overwrites, SecretSince, Traced, ReplayRefs;
    if NoOverwriteSince(cfg, w, steps, i, actor) {
      NoOverwritePrefix(cfg, w, steps, i, actor);
      forall r | r in ReplayRefs(ProfileOf(Run(cfg, w, steps), actor))
        ensures SecretSince(cfg, w, steps, i, actor, r) == Resolved(Run(cfg, w, steps[..i + 1]).secrets, r, actor)
      {
        NotOverwrittenSince(cfg, w, steps, i, actor, r);
      }
    }
  }

  lemma SameReplay(cfg: Config, w: World, step: Step, v: World, actor: string)
    requires Carries(cfg, w, step, v, actor)
    ensures HasProfile(w, actor) && HasProfile(v, actor)
        && ReplayRefs(ProfileOf(w, actor)) == ReplayRefs(ProfileOf(v, actor))
  {
    hide ReplayRefs;
  }

  lemma NotOverwrittenSince(cfg: Config, w: World, steps: seq<Step>, i: nat, actor: string, r: string)
    requires i < |steps| - 1 && Traced(cfg, w, steps[..|steps| - 1], i, actor)
    requires !Overwrites(cfg, Run(cfg, w, steps[..|steps| - 1]), steps[|steps| - 1], actor)
    requires HasProfile(Run(cfg, w, steps[..|steps| - 1]), actor)
        && r in ReplayRefs(ProfileOf(Run(cfg, w, steps[..|steps| - 1]), actor))
    requires WrittenAsChecked(cfg, w, steps[..|steps| - 1], i, actor)
    ensures SecretSince(cfg, w, steps, i, actor, r) == Resolved(Run(cfg, w, steps[..i + 1]).secrets, r, actor)
  {
    var n := |steps| - 1;
    var before := Run(cfg, w, steps[..n]);
    assert steps[..n][..i + 1] == steps[..i + 1];
    hide Run, WritesFlow, ReplayRefs, SecretSince, SecretAfter, IsFlowReference;
    SecretSinceStep(cfg, w, steps, i, actor, r);
    NotOverwritten(cfg, before, steps[n], actor);
    if WritesFlow(cfg, before, steps[n], actor) {
      FlowSecretsAreSome(cfg, before, steps[n], actor);
    }
  }

  lemma SecretSinceStep(cfg: Config, w: World, steps: seq<Step>, i: nat, actor: string, r: string)
    requires i < |steps| - 1
    ensures var n := |steps| - 1;
      SecretSince(cfg, w, steps, i, actor, r)
      == if WritesFlow(cfg, Run(cfg, w, steps[..n]), steps[n], actor) && IsFlowReference(cfg, actor, r)
         then SecretAfter(cfg, Run(cfg, w, steps[..n]), steps[n], actor, r)
             else SecretSince(cfg, w, steps[..n], i, actor, r)
  {
    hide WritesFlow, IsFlowReference, SecretAfter, Run;
  }

  lemma NoOverwritePrefix(cfg: Config, w: World, steps: seq<Step>, i: nat, actor: string)
    requires i < |steps| - 1 && NoOverwriteSince(cfg, w, steps, i, actor)
    ensures NoOverwriteSince(cfg, w, steps[..|steps| - 1], i, actor)
    ensures !Overwrites(cfg, Run(cfg, w, steps[..|steps| - 1]), steps[|steps| - 1], actor)
  {
    hide Run, Overwrites;
    var init := steps[..|steps| - 1];
    forall j | i < j < |init| ensures !Overwrites(cfg, Run(cfg, w, init[..j]), init[j], actor) {
      assert init[..j] == steps[..j];
    }
  }

  lemma NotOverwritten(cfg: Config, w: World, step: Step, actor: string)
    requires HasProfile(w, actor) && !Overwrites(cfg, w, step, actor)
    ensures forall r :: r in ReplayRefs(ProfileOf(w, actor)) ==>
        SecretAfter(cfg, w, step, actor, r) == Resolved(w.secrets, r, actor)
  {
    hide SecretAfter;
  }

  lemma FlowSecretsAreSome(cfg: Config, w: World, step: Step, actor: string)
    requires WritesFlow(cfg, w, step, actor)
    ensures forall r :: IsFlowReference(cfg, actor, r) ==> SecretAfter(cfg, w, step, actor, r).Some?
  {
    hide WritesFlow;
  }

  lemma QuietExtends(cfg: Config, w: World, steps: seq<Step>, i: nat, actor: string)
    requires steps != [] && i < |steps| - 1
    requires QuietSince(cfg, w, steps[..|steps| - 1], i, actor)
    requires !FailsCheck(cfg, Run(cfg, w, steps[..|steps| - 1]), steps[|steps| - 1], actor)
    requires !ReplacesCredential(cfg, Run(cfg, w, steps[..|steps| - 1]), steps[|steps| - 1], actor)
    ensures QuietSince(cfg, w, steps, i, actor)
  {
    hide FailsCheck, ReplacesCredential, Run;
    var init := steps[..|steps| - 1];
    forall j | i < j < |steps|
      ensures !FailsCheck(cfg, Run(cfg, w, steps[..j]), steps[j], actor)
          && !ReplacesCredential(cfg, Run(cfg, w, steps[..j]), steps[j], actor)
    {
      if j < |init| {
        assert init[..j] == steps[..j] && init[j] == steps[j];
      }
    }
  }

  /** Finds the check that a verified state rests on. */
  lemma {:induction false} LastConfirmingCheck(cfg: Config, w: World, steps: seq<Step>, actor: string) returns (i: nat)
    requires Unverified(w, actor) && Verified(Run(cfg, w, steps), actor)
    ensures i < |steps| && Confirms(cfg, Run(cfg, w, steps[..i]), steps[i], actor)
    ensures QuietSince(cfg, w, steps, i, actor) && Traced(cfg, w, steps, i, actor)
    ensures NoOverwriteSince(cfg, w, steps, i, actor) ==> WrittenAsChecked(cfg, w, steps, i, actor)
  {
    var n := |steps| - 1;
    assert steps != [];
    hide Apply, Confirms, FailsCheck, ReplacesCredential, Sound, Run, Carries, Traced, WrittenAsChecked,
        NoOverwriteSince;
    var before := Run(cfg, w, steps[..n]);
    RunPrefix(cfg, w, steps);
    assert Sound(w, actor) by { UnverifiedIsSound(w, actor); }
    RunKeepsSound(cfg, w, steps[..n], actor);
    if Confirms(cfg, before, steps[n], actor) {
      i := n;
      TraceStarts(cfg, w, steps, actor);
    } else {
      StepKeeps(cfg, before, steps[n], actor);
      i := LastConfirmingCheck(cfg, w, steps[..n], actor);
      assert steps[..n][..i] == steps[..i] && steps[..n][i] == steps[i];
      QuietExtends(cfg, w, steps, i, actor);
      TraceExtends(cfg, w, steps, i, actor);
      SameReplay(cfg, before, steps[n], Run(cfg, w, steps), actor);
      NoOverwriteExtends(cfg, w, steps, i, actor);
    }
  }

  lemma UnverifiedIsSound(w: World, actor: string)
    requires Unverified(w, actor)
    ensures Sound(w, actor)
  {
  }

  /** An execution verdict for an authenticated actor means: verified, everything resolves, and
      the stored status is none of the blocking ones. */
  lemma ReadyMeansVerified(cfg: Config, w: World, actor: string, request: Request, now: int)
    requires actor in w.accounts && !IsAnonymous(w.accounts[actor]) && request.forExecution
    requires ActorPreflight(cfg, w, actor, request, now).Preflight?
    requires ActorPreflight(cfg, w, actor, request, now).verdict == ReadyForExecution
    ensures Verified(w, actor) && ProfileOf(w, actor).scopeValidated && !IsBlocking(ProfileOf(w, actor).status)
    ensures Sound(w, actor) ==> AllResolve(w, actor, ProfileOf(w, actor)) && ProfileOf(w, actor).components != []
  {
  }

  /** Step i of the run is a check that all of a ready state rests on: it matched and confirmed the
      actor; no check failed and no credential was stored, refreshed or cleared since; and every
      secret that execution replays is the one in place at that check exactly when configurations
      since wrote what was checked, in particular when none overwrote a replayed secret. */
  ghost predicate RestsOn(cfg: Config, w: World, steps: seq<Step>, i: nat, actor: string)
    requires i < |steps| && HasProfile(Run(cfg, w, steps), actor)
  {
    && Confirms(cfg, Run(cfg, w, steps[..i]), steps[i], actor)
    && QuietSince(cfg, w, steps, i, actor)
    && (SameCredential(Run(cfg, w, steps[..i + 1]), Run(cfg, w, steps), actor) <==>
        WrittenAsChecked(cfg, w, steps, i, actor))
    && (NoOverwriteSince(cfg, w, steps, i, actor) ==>
        SameCredential(Run(cfg, w, steps[..i + 1]), Run(cfg, w, steps), actor))
  }

  /** Whatever the run on whichever actors, a READY_FOR_EXECUTION verdict for an authenticated actor
      that was unverified at the start rests on a confirming check. */
  lemma ExecutionRestsOnConfirmedCheck(cfg: Config, w: World, steps: seq<Step>, actor: string, request: Request,
      now: int)
    requires Unverified(w, actor)
    requires var final := Run(cfg, w, steps); actor in final.accounts && !IsAnonymous(final.accounts[actor])
    requires request.forExecution
    requires ActorPreflight(cfg, Run(cfg, w, steps), actor, request, now).Preflight?
    requires ActorPreflight(cfg, Run(cfg, w, steps), actor, request, now).verdict == ReadyForExecution
    ensures HasProfile(Run(cfg, w, steps), actor)
    ensures exists i :: 0 <= i < |steps| && RestsOn(cfg, w, steps, i, actor)
  {
    hide Run, Confirms, QuietSince, ActorPreflight, Sound, Traced, WrittenAsChecked, NoOverwriteSince, SameCredential;
    var final := Run(cfg, w, steps);
    assert Sound(w, actor) by { UnverifiedIsSound(w, actor); }
    RunKeepsSound(cfg, w, steps, actor);
    ReadyMeansVerified(cfg, final, actor, request, now);
    var i := LastConfirmingCheck(cfg, w, steps, actor);
    SameIffWritten(cfg, w, steps, i, actor);
    assert RestsOn(cfg, w, steps, i, actor);
  }

  lemma SameIffWritten(cfg: Config, w: World, steps: seq<Step>, i: nat, actor: string)
    requires i < |steps| && Traced(cfg, w, steps, i, actor)
    requires AllResolve(Run(cfg, w, steps), actor, ProfileOf(Run(cfg, w, steps), actor))
    ensures SameCredential(Run(cfg, w, steps[..i + 1]), Run(cfg, w, steps), actor) <==>
        WrittenAsChecked(cfg, w, steps, i, actor)
  {
    hide Run, SecretSince;
    var p := ProfileOf(Run(cfg, w, steps), actor);
    forall r | r in ReplayRefs(p) ensures Resolved(Run(cfg, w, steps).secrets, r, actor).Some? {
      var c :| c in p.components && c.replayRequired && c.reference == r;
    }
  }
}
