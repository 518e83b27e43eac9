/** What a clear leaves behind after a run: secrets that an earlier step wrote for the actor and that
    the actor's profile no longer lists. */
module AuthClearing {
  import opened Domain
  import opened SecretStores
  import opened RefreshTemplate
  import opened Authentication
  import opened AuthRuns
  import opened AuthLimits
  import Id = Identity

  /** Every secret that resolves for the actor is under a reference its profile lists. */
  ghost predicate AllListed(w: World, actor: string) {
    forall r :: Resolved(w.secrets, r, actor).Some? ==> r in Listed(w, actor)
  }

  /** The step leaves a secret of the actor unlisted: one that the actor's own store or configuration
      drops from the list, or one that a configuration writes before it fails on its port. */
  ghost predicate Orphans(cfg: Config, w: World, step: Step, actor: string) {
    step.action.actor == actor && (step.action.Store? || step.action.Configure?)
    && var v := Apply(cfg, w, step);
    exists r ::
        Resolved(v.secrets, r, actor).Some? && r !in Listed(v, actor)
            && (r in Listed(w, actor) || FailsAfterWriting(cfg, w, step, r))
  }

  predicate FailsAfterWriting(cfg: Config, w: World, step: Step, r: string) {
    step.action.Configure? && IsFlowReference(cfg, step.action.actor, r)
    && ConfigureRefresh(cfg, w, step.action.actor, step.action.flow).1 == Some(InvalidPort)
  }

  // ----- Other actors

  lemma ForeignKeepsListed(w: World, v: World, actor: string)
    requires AllListed(w, actor) && Listed(v, actor) == Listed(w, actor)
    requires forall r :: Resolved(v.secrets, r, actor).Some? ==> Resolved(w.secrets, r, actor).Some?
    ensures AllListed(v, actor)
  {
    hide Listed;
  }

  lemma ForeignBatches(w: World, v: World, batch: seq<Entry>, owner: string, actor: string)
    requires AllListed(w, actor) && owner != actor && forall e :: e in batch ==> e.actor == owner
    requires v.secrets == PutAll(w.secrets, batch) && Listed(v, actor) == Listed(w, actor)
    ensures AllListed(v, actor)
  {
    hide Listed;
    forall r | Resolved(v.secrets, r, actor).Some? ensures Resolved(w.secrets, r, actor).Some? {
      ForeignBatch(w.secrets, batch, owner, actor, r);
    }
    ForeignKeepsListed(w, v, actor);
  }

  /** A batch whose references are all listed afterwards, and that dropped nothing. */
  lemma OwnBatch(w: World, v: World, batch: seq<Entry>, actor: string)
    requires AllListed(w, actor) && v.secrets == PutAll(w.secrets, batch)
    requires forall e :: e in batch ==> e.reference in Listed(v, actor)
    requires forall r :: r in Listed(w, actor) && Resolved(v.secrets, r, actor).Some? ==> r in Listed(v, actor)
    ensures AllListed(v, actor)
  {
    hide Listed;
    forall r | Resolved(v.secrets, r, actor).Some? ensures r in Listed(v, actor) {
      PutAllHolds(w.secrets, batch, r);
    }
  }

  // ----- One lemma per operation

  predicate HasReference(components: seq<Component>, r: string) {
    exists i :: 0 <= i < |components| && components[i].reference == r
  }

  lemma {:induction false} EntriesAreComponents(cfg: Config, actor: string, captured: seq<Captured>)
    ensures forall e :: e in Entries(cfg, actor, captured) ==>
        HasReference(Components(cfg, actor, captured), e.reference)
  {
    if captured != [] {
      var n := |captured| - 1;
      EntriesAreComponents(cfg, actor, captured[..n]);
      hide LastReference;
      var c := captured[n];
      var last := Component(c.name, c.location, LastReference(cfg, actor, captured), c.purpose, c.purpose != "refresh");
      assert Components(cfg, actor, captured) == Components(cfg, actor, captured[..n]) + [last];
      OneMoreComponent(Components(cfg, actor, captured[..n]), last);
    }
  }

  lemma OneMoreComponent(components: seq<Component>, last: Component)
    ensures HasReference(components + [last], last.reference)
    ensures forall r :: HasReference(components, r) ==> HasReference(components + [last], r)
  {
    assert (components + [last])[|components|] == last;
    forall r | HasReference(components, r) ensures HasReference(components + [last], r) {
      var i :| 0 <= i < |components| && components[i].reference == r;
      assert (components + [last])[i].reference == r;
    }
  }

  lemma ComponentIsListed(p: Profile, i: nat)
    requires i < |p.components|
    ensures p.components[i].reference in ClearedReferences(p)
  {
    assert ClearedReferences(p)[i] == p.components[i].reference;
  }

  lemma SameListing(p: Profile, q: Profile)
    requires p.components == q.components && p.refresh.templateRef == q.refresh.templateRef
    ensures ClearedReferences(p) == ClearedReferences(q)
  {
  }

  lemma StoreLists(cfg: Config, w: World, a: string, c: AuthCandidate, source: CaptureSource, renewal: bool, now: int,
      actor: string)
    requires AllListed(w, actor) && !Orphans(cfg, w, Step(Store(a, c, source, renewal), now), actor)
    ensures AllListed(StoreCandidate(cfg, w, a, c, source, renewal, now).0, actor)
  {
    var (v, error) := StoreCandidate(cfg, w, a, c, source, renewal, now);
    if error == None {
      StoredComponents(cfg, w, a, c, source, renewal, now);
      StoredSecrets(cfg, w, a, c, source, renewal, now);
      EntriesBelong(cfg, a, c.components);
      EntriesAreComponents(cfg, a, c.components);
      hide StoreCandidate, Entries, Components, PutAll, ClearedReferences;
      if a == actor {
        forall e | e in Entries(cfg, a, c.components) ensures e.reference in Listed(v, actor) {
          var i :| 0 <= i < |Components(cfg, a, c.components)|
              && Components(cfg, a, c.components)[i].reference == e.reference;
          ComponentIsListed(ProfileOf(v, a), i);
        }
        OwnBatch(w, v, Entries(cfg, a, c.components), actor);
      } else {
        StoreSparesOthers(cfg, w, a, c, source, renewal, now, actor);
        ForeignBatches(w, v, Entries(cfg, a, c.components), a, actor);
      }
    } else {
      FailedStore(cfg, w, a, c, source, renewal, now, actor);
      hide StoreCandidate, Listed;
    }
  }

  lemma StoredComponents(cfg: Config, w: World, a: string, c: AuthCandidate, source: CaptureSource, renewal: bool,
      now: int)
    requires StoreCandidate(cfg, w, a, c, source, renewal, now).1 == None
    ensures var v := StoreCandidate(cfg, w, a, c, source, renewal, now).0;
      HasProfile(v, a) && ProfileOf(v, a).components == Components(cfg, a, c.components)
  {
    StoredParts(cfg, a, w.accounts[a].profile, c, source, now);
    hide Entries, Components, StoredProfile, ValidBatch, PutAll, RevokeAll, IdentityContinuity;
  }

  lemma StoredSecrets(cfg: Config, w: World, a: string, c: AuthCandidate, source: CaptureSource, renewal: bool,
      now: int)
    requires StoreCandidate(cfg, w, a, c, source, renewal, now).1 == None
    ensures StoreCandidate(cfg, w, a, c, source, renewal, now).0.secrets
         == PutAll(w.secrets, Entries(cfg, a, c.components))
  {
    hide Entries, StoredProfile, ValidBatch, PutAll, RevokeAll, IdentityContinuity;
  }

  lemma StoreSparesOthers(cfg: Config, w: World, a: string, c: AuthCandidate, source: CaptureSource, renewal: bool,
      now: int, actor: string)
    requires a != actor
    ensures Listed(StoreCandidate(cfg, w, a, c, source, renewal, now).0, actor) == Listed(w, actor)
  {
    hide Entries, StoredProfile, ValidBatch, PutAll, RevokeAll, IdentityContinuity, ClearedReferences;
  }

  lemma StoredParts(cfg: Config, a: string, previous: Option<Profile>, c: AuthCandidate, source: CaptureSource,
      now: int)
    ensures StoredProfile(cfg, a, previous, c, source, now).components == Components(cfg, a, c.components)
  {
    hide Components, StatusForExpiration;
  }

  lemma FailedStore(cfg: Config, w: World, a: string, c: AuthCandidate, source: CaptureSource, renewal: bool,
      now: int, actor: string)
    requires StoreCandidate(cfg, w, a, c, source, renewal, now).1 != None
    ensures var v := StoreCandidate(cfg, w, a, c, source, renewal, now).0;
      v.secrets == w.secrets && Listed(v, actor) == Listed(w, actor)
  {
    hide Entries, StoredProfile, ValidBatch, PutAll, RevokeAll, IdentityContinuity;
  }

  lemma {:induction false} FirstIsComponent(components: seq<Component>, purpose: string)
    ensures FirstWithPurpose(components, purpose).Some? ==>
              exists i :: 0 <= i < |components| && components[i] == FirstWithPurpose(components, purpose).value
  {
    if components != [] && components[0].purpose != purpose {
      FirstIsComponent(components[1..], purpose);
      var first := FirstWithPurpose(components[1..], purpose);
      if first.Some? {
        var i :| 0 <= i < |components[1..]| && components[1..][i] == first.value;
        assert components[i + 1] == first.value;
      }
    }
  }

  lemma FirstIsListed(p: Profile, purpose: string)
    ensures FirstWithPurpose(p.components, purpose).Some? ==>
        FirstWithPurpose(p.components, purpose).value.reference in ClearedReferences(p)
  {
    FirstIsComponent(p.components, purpose);
    hide ClearedReferences, FirstWithPurpose;
    var first := FirstWithPurpose(p.components, purpose);
    if first.Some? {
      var i :| 0 <= i < |p.components| && p.components[i] == first.value;
      ComponentIsListed(p, i);
    }
  }

  lemma RenewLists(cfg: Config, w: World, a: string, reply: RefreshReply, now: int, actor: string)
    requires AllListed(w, actor)
    ensures AllListed(RefreshAuthentication(cfg, w, a, reply, now).0, actor)
  {
    var (v, result) := RefreshAuthentication(cfg, w, a, reply, now);
    RenewalListing(cfg, w, a, reply, now, actor);
    if result.Refreshed? {
      var batch := RenewedEntries(cfg, w, a, reply, now);
      hide RefreshAuthentication, PutAll, Listed;
      if a == actor {
        OwnBatch(w, v, batch, actor);
      } else {
        ForeignBatches(w, v, batch, a, actor);
      }
    } else {
      hide RefreshAuthentication, Listed;
    }
  }

  /** A refresh changes neither what any profile lists nor, when refused, any secret. */
  lemma RenewalListing(cfg: Config, w: World, a: string, reply: RefreshReply, now: int, actor: string)
    ensures var (v, result) := RefreshAuthentication(cfg, w, a, reply, now);
      Listed(v, actor) == Listed(w, actor) && (!result.Refreshed? ==> v.secrets == w.secrets)
  {
    hide RequestBody, AnswerDocument, JsonPath, FirstWithPurpose, IdentityContinuity, RefreshEntries,
        RefreshedProfile, RevokeAll, PutAll, ValidBatch, ClearedReferences;
    var (v, result) := RefreshAuthentication(cfg, w, a, reply, now);
    if HasProfile(w, a) && ProfileOf(v, a) != ProfileOf(w, a) {
      RenewedParts(cfg, w, a, reply, now);
      SameListing(ProfileOf(w, a), ProfileOf(v, a));
    }
  }

  lemma RenewedParts(cfg: Config, w: World, a: string, reply: RefreshReply, now: int)
    requires HasProfile(w, a)
    ensures var v := RefreshAuthentication(cfg, w, a, reply, now).0;
      HasProfile(v, a) && ProfileOf(v, a).components == ProfileOf(w, a).components
      && ProfileOf(v, a).refresh == ProfileOf(w, a).refresh
  {
    hide RequestBody, AnswerDocument, JsonPath, FirstWithPurpose, IdentityContinuity, RefreshEntries,
        StatusForExpiration, RevokeAll, PutAll, ValidBatch;
  }

  /** What an accepted refresh writes: secrets of the actor under references it lists. */
  lemma RenewedEntries(cfg: Config, w: World, a: string, reply: RefreshReply, now: int) returns (batch: seq<Entry>)
    requires RefreshAuthentication(cfg, w, a, reply, now).1.Refreshed?
    ensures var v := RefreshAuthentication(cfg, w, a, reply, now).0;
      && v.secrets == PutAll(w.secrets, batch)
      && forall e :: e in batch ==> e.actor == a && e.reference in Listed(v, a)
  {
    RenewalListing(cfg, w, a, reply, now, a);
    var p := w.accounts[a].profile.value;
    FirstIsListed(p, "access");
    FirstIsListed(p, "refresh");
    hide RequestBody, JsonPath, FirstWithPurpose, IdentityContinuity, StatusForExpiration, RevokeAll, PutAll,
        ValidBatch, ClearedReferences;
    var document := AnswerDocument(p, reply).value;
    batch := RefreshEntries(cfg, a, p, document, FirstWithPurpose(p.components, "access").value,
                            FirstWithPurpose(p.components, "refresh").value,
                                JsonPath(document, p.refresh.accessPath).value.s);
  }

  lemma CheckLists(cfg: Config, w: World, a: string, response: Option<Id.Response>, environment: set<string>,
      now: int, actor: string)
    requires AllListed(w, actor)
    ensures AllListed(ValidateBaseline(cfg, w, a, response, environment, now).0, actor)
  {
    hide ActorPreflight, Id.Evaluate;
    var v := ValidateBaseline(cfg, w, a, response, environment, now).0;
    assert Listed(v, actor) == Listed(w, actor) && v.secrets == w.secrets;
    hide Listed, ValidateBaseline;
  }

  lemma ClearLists(w: World, a: string, actor: string)
    requires AllListed(w, actor)
    ensures AllListed(ClearAuthentication(w, a).0, actor)
  {
    var v := ClearAuthentication(w, a).0;
    if a == actor {
      ClearLeavesNothingIff(w, actor);
    } else {
      assert Listed(v, actor) == Listed(w, actor) by { hide ClearedReferences, RevokeAll, RemoveAll; }
      assert forall r :: Resolved(v.secrets, r, actor).Some? ==>
          Resolved(w.secrets, r, actor).Some? by { hide ClearedReferences, RevokeAll; }
      hide Listed, ClearAuthentication;
    }
  }

  lemma ConfigureLists(cfg: Config, w: World, a: string, flow: ObservedFlow, now: int, actor: string)
    requires AllListed(w, actor) && !Orphans(cfg, w, Step(Configure(a, flow), now), actor)
    ensures AllListed(ConfigureRefresh(cfg, w, a, flow).0, actor)
  {
    var refresh := ConfigureShape(cfg, w, a, flow);
    if WritesSecrets(ConfigureRefresh(cfg, w, a, flow).1) {
      if a == actor {
        OwnConfigureLists(cfg, w, a, flow, now);
      } else {
        hide ConfigureRefresh, PutAll, ClearedReferences, FlowTemplate, FlowToken;
        ForeignBatches(w, ConfigureRefresh(cfg, w, a, flow).0,
                       FlowBatch(cfg, a, FlowTemplate(cfg, flow), FlowToken(cfg, flow)), a, actor);
      }
    }
  }

  lemma OwnConfigureLists(cfg: Config, w: World, a: string, flow: ObservedFlow, now: int)
    requires AllListed(w, a) && !Orphans(cfg, w, Step(Configure(a, flow), now), a)
    requires WritesSecrets(ConfigureRefresh(cfg, w, a, flow).1)
    ensures AllListed(ConfigureRefresh(cfg, w, a, flow).0, a)
  {
    var (v, error) := ConfigureRefresh(cfg, w, a, flow);
    var refresh := ConfigureShape(cfg, w, a, flow);
    var step := Step(Configure(a, flow), now);
    assert Apply(cfg, w, step) == v;
    if error == None {
      FlowIsListed(cfg, w, a, flow);
    }
    hide ConfigureRefresh, PutAll, Listed, FlowTemplate, FlowToken, TemplateReference, RefreshReference, Apply;
    var batch := FlowBatch(cfg, a, FlowTemplate(cfg, flow), FlowToken(cfg, flow));
    forall e | e in batch ensures e.reference in Listed(v, a) {
      FlowSecretAfter(cfg, w.secrets, a, FlowTemplate(cfg, flow), FlowToken(cfg, flow), e.reference);
      if error != None {
        assert FailsAfterWriting(cfg, w, step, e.reference);
      }
    }
    OwnBatch(w, v, batch, a);
  }

  /** A configured flow is listed with both of its references. */
  lemma FlowIsListed(cfg: Config, w: World, a: string, flow: ObservedFlow)
    requires ConfigureRefresh(cfg, w, a, flow).1 == None
    ensures var v := ConfigureRefresh(cfg, w, a, flow).0;
      TemplateReference(cfg, a) in Listed(v, a) && RefreshReference(cfg, a) in Listed(v, a)
  {
    hide LeafPaths, FirstNamed, SetJsonPath, PutAll, LastPart, ValidBatch;
    var v := ConfigureRefresh(cfg, w, a, flow).0;
    var p := ProfileOf(v, a);
    assert p.components[|p.components| - 1].reference == RefreshReference(cfg, a);
    ComponentIsListed(p, |p.components| - 1);
    assert p.refresh.templateRef == Some(TemplateReference(cfg, a)) && TemplateReference(cfg, a) != "";
    assert ClearedReferences(p)[|p.components|] == TemplateReference(cfg, a);
  }

  // ----- Runs

  lemma StepLists(cfg: Config, w: World, step: Step, actor: string)
    requires AllListed(w, actor) && !Orphans(cfg, w, step, actor)
    ensures AllListed(Apply(cfg, w, step), actor)
  {
    hide StoreCandidate, RefreshAuthentication, ValidateBaseline, ClearAuthentication, ConfigureRefresh, AllListed,
        Orphans;
    match step.action
    case Store(a, c, source, renewal) => StoreLists(cfg, w, a, c, source, renewal, step.now, actor);
    case Renew(a, reply) => RenewLists(cfg, w, a, reply, step.now, actor);
    case Check(a, response, environment) => CheckLists(cfg, w, a, response, environment, step.now, actor);
    case Clear(a) => ClearLists(w, a, actor);
    case Configure(a, flow) => ConfigureLists(cfg, w, a, flow, step.now, actor);
  }

  ghost predicate NeverOrphans(cfg: Config, w: World, steps: seq<Step>, actor: string) {
    forall j :: 0 <= j < |steps| ==> !Orphans(cfg, Run(cfg, w, steps[..j]), steps[j], actor)
  }

  lemma {:induction false} RunLists(cfg: Config, w: World, steps: seq<Step>, actor: string)
    requires AllListed(w, actor) && NeverOrphans(cfg, w, steps, actor)
    ensures AllListed(Run(cfg, w, steps), actor)
  {
    if steps != [] {
      var n := |steps| - 1;
      RunPrefix(cfg, w, steps);
      hide AllListed, Apply, Run, Orphans;
      forall j | 0 <= j < n ensures !Orphans(cfg, Run(cfg, w, steps[..n][..j]), steps[..n][j], actor) {
        assert steps[..n][..j] == steps[..j];
      }
      RunLists(cfg, w, steps[..n], actor);
      StepLists(cfg, Run(cfg, w, steps[..n]), steps[n], actor);
    }
  }

  /** After every run, on whichever actors, in which no store or configuration of the actor orphaned
      a secret, a clear leaves the actor without any secret. */
  lemma ClearAfterRunLeavesNothing(cfg: Config, w: World, steps: seq<Step>, actor: string)
    requires AllListed(w, actor) && NeverOrphans(cfg, w, steps, actor)
    ensures forall r :: Resolved(ClearAuthentication(Run(cfg, w, steps), actor).0.secrets, r, actor) == None
  {
    RunLists(cfg, w, steps, actor);
    hide Run, ClearAuthentication, NeverOrphans, Listed;
    ClearLeavesNothingIff(Run(cfg, w, steps), actor);
  }
}
