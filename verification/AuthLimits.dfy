/** Laws of single authentication operations, and the exact conditions where a natural claim fails. */
module AuthLimits {
  import opened Domain
  import opened Json
  import opened SecretStores
  import opened RefreshTemplate
  import opened Authentication
  import opened AuthRuns
  import Text
  import Id = Identity
  import P = JsonPointer

  // ----- Preflight: planning can hide a blocking status, execution cannot

  /** What the request expects of the profile: its reference, its context and its hosts. */
  predicate Fits(p: Profile, request: Request) {
    && (request.profileRef.Some? && request.profileRef.value != "" ==> p.profileRef == request.profileRef)
    && (request.context.Some? ==> p.context == request.context)
    && request.hosts <= p.targetHosts
  }

  /** A planning verdict is ready in spite of a stored blocking status exactly when the profile is
      the one expected and the credential is available and about to expire: the short lifetime
      overrides the stored status. */
  lemma PlanningHidesStatusIff(cfg: Config, w: World, actor: string, request: Request, now: int)
    requires HasProfile(w, actor) && !IsAnonymous(w.accounts[actor]) && IsBlocking(ProfileOf(w, actor).status)
    requires !request.forExecution
    ensures var p := ProfileOf(w, actor);
      ActorPreflight(cfg, w, actor, request, now).verdict == ReadyForPlanning <==>
        && Fits(p, request) && Available(w, actor, p, request.environment)
        && p.expiresAt.Some? && 0 < WholeSeconds(p.expiresAt.value - now) <= Margin(cfg, request.count)
  {
  }

  /** Execution is refused for every stored blocking status. */
  lemma ExecutionNeverHidesStatus(cfg: Config, w: World, actor: string, request: Request, now: int)
    requires HasProfile(w, actor) && !IsAnonymous(w.accounts[actor]) && request.forExecution
    requires IsBlocking(ProfileOf(w, actor).status)
    ensures ActorPreflight(cfg, w, actor, request, now).verdict == BlockedByAuth
  {
  }

  // ----- Refresh: the bound subject

  function Token(cfg: Config, p: Profile, access: Component, stored: string): string {
    if UsesBearerPrefix(cfg, p, access) && |stored| >= 7 then stored[7..] else stored
  }

  lemma TokenOfStored(cfg: Config, p: Profile, access: Component, token: string)
    ensures Token(cfg, p, access, StoredAccess(cfg, p, access, token)) == token
  {
    if UsesBearerPrefix(cfg, p, access) {
      assert ("Bearer " + token)[7..] == token;
    }
  }

  /** The recorded subject is s and the stored access credential decodes to s. */
  ghost predicate SubjectBound(cfg: Config, w: World, actor: string, s: string) {
    HasProfile(w, actor) && var p := ProfileOf(w, actor);
    p.identity.hints.subject == Some(s)
    && var access := FirstWithPurpose(p.components, "access");
    access.Some? && Resolved(w.secrets, access.value.reference, actor).Some?
    && var v := Resolved(w.secrets, access.value.reference, actor).value;
    v.Plain? && cfg.decode(Token(cfg, p, access.value, v.text)).hints.subject == Some(s)
  }

  /** The access and refresh components have references of their own. */
  predicate SeparateReferences(w: World, actor: string) {
    HasProfile(w, actor) ==>
      var access, renewal := FirstWithPurpose(ProfileOf(w, actor).components, "access"),
          FirstWithPurpose(ProfileOf(w, actor).components, "refresh");
      access.Some? && renewal.Some? ==> access.value.reference != renewal.value.reference
  }

  /** The token an answer carries, if any, names a subject. */
  predicate NamesSubject(cfg: Config, w: World, actor: string, reply: RefreshReply) {
    HasProfile(w, actor) ==>
      var p := ProfileOf(w, actor);
      var document := AnswerDocument(p, reply);
      var token := if document.Some? then JsonPath(document.value, p.refresh.accessPath) else None;
      IsText(token) ==> cfg.decode(token.value.s).hints.subject.Some?
  }

  lemma RefreshKeepsSubject(cfg: Config, w: World, actor: string, reply: RefreshReply, now: int, s: string)
    requires SubjectBound(cfg, w, actor, s) && SeparateReferences(w, actor) && NamesSubject(cfg, w, actor, reply)
    ensures SubjectBound(cfg, RefreshAuthentication(cfg, w, actor, reply, now).0, actor, s)
    ensures SeparateReferences(RefreshAuthentication(cfg, w, actor, reply, now).0, actor)
    ensures ProfileOf(RefreshAuthentication(cfg, w, actor, reply, now).0, actor).refresh == ProfileOf(w, actor).refresh
  {
    hide RequestBody, AnswerDocument, JsonPath, StatusForExpiration, RevokeAll, Token, PutAll, FirstWithPurpose,
        ValidBatch;
    var (v, result) := RefreshAuthentication(cfg, w, actor, reply, now);
    if result.Refreshed? {
      var p := ProfileOf(w, actor);
      var document := AnswerDocument(p, reply).value;
      var token := JsonPath(document, p.refresh.accessPath).value.s;
      var access, renewal := FirstWithPurpose(p.components, "access").value,
          FirstWithPurpose(p.components, "refresh").value;
      StoredTokenResolves(cfg, w.secrets, actor, p, document, access, renewal, token);
      TokenOfStored(cfg, p, access, token);
      TokenIgnoresStatus(cfg, p, ProfileOf(v, actor), access, StoredAccess(cfg, p, access, token));
    } else if v != w {
      SubjectIgnoresStatus(cfg, w, v, actor, s);
    }
  }

  lemma TokenIgnoresStatus(cfg: Config, p: Profile, q: Profile, access: Component, stored: string)
    requires p.authType == q.authType
    ensures Token(cfg, p, access, stored) == Token(cfg, q, access, stored)
  {
  }

  lemma SubjectIgnoresStatus(cfg: Config, w: World, v: World, actor: string, s: string)
    requires SubjectBound(cfg, w, actor, s) && v.secrets == w.secrets && HasProfile(v, actor)
    requires exists status :: ProfileOf(v, actor) == ProfileOf(w, actor).(status := status)
    ensures SubjectBound(cfg, v, actor, s)
  {
  }

  lemma StoredTokenResolves(cfg: Config, secrets: map<string, Secret>, actor: string, p: Profile, document: Json,
      access: Component, renewal: Component, token: string)
    requires access.reference != renewal.reference
    requires ValidBatch(RefreshEntries(cfg, actor, p, document, access, renewal, token))
    ensures Resolved(PutAll(secrets, RefreshEntries(cfg, actor, p, document, access, renewal, token)),
        access.reference, actor)
         == Some(Plain(StoredAccess(cfg, p, access, token)))
  {
    hide JsonPath;
    var batch := RefreshEntries(cfg, actor, p, document, access, renewal, token);
    var e := batch[0];
    assert e in batch && ValidEntry(e);
    PutAllHolds(secrets, batch, access.reference);
    assert forall d :: d in batch && d.reference == access.reference ==> d == e;
  }

  datatype Renewal = Renewal(reply: RefreshReply, now: int)

  function RefreshAll(cfg: Config, w: World, actor: string, renewals: seq<Renewal>): World {
    if renewals == [] then w
    else RefreshAuthentication(cfg, RefreshAll(cfg, w, actor, renewals[..|renewals| - 1]), actor,
                               renewals[|renewals| - 1].reply, renewals[|renewals| - 1].now).0
  }

  ghost predicate AllNameSubject(cfg: Config, w: World, actor: string, renewals: seq<Renewal>) {
    forall i :: 0 <= i < |renewals| ==>
        NamesSubject(cfg, RefreshAll(cfg, w, actor, renewals[..i]), actor, renewals[i].reply)
  }

  lemma AllNameSubjectPrefix(cfg: Config, w: World, actor: string, renewals: seq<Renewal>)
    requires renewals != [] && AllNameSubject(cfg, w, actor, renewals)
    ensures AllNameSubject(cfg, w, actor, renewals[..|renewals| - 1])
    ensures NamesSubject(cfg, RefreshAll(cfg, w, actor, renewals[..|renewals| - 1]), actor,
        renewals[|renewals| - 1].reply)
  {
    hide NamesSubject, RefreshAll;
    var init := renewals[..|renewals| - 1];
    forall i | 0 <= i < |init| ensures NamesSubject(cfg, RefreshAll(cfg, w, actor, init[..i]), actor, init[i].reply) {
      assert init[..i] == renewals[..i];
    }
  }

  /** Over any sequence of refreshes whose tokens all name a subject, the recorded subject and the
      subject of the stored access credential stay what they were first. */
  lemma {:induction false} RefreshesKeepSubject(cfg: Config, w: World, actor: string, renewals: seq<Renewal>, s: string)
    requires SubjectBound(cfg, w, actor, s) && SeparateReferences(w, actor) && AllNameSubject(cfg, w, actor, renewals)
    ensures SubjectBound(cfg, RefreshAll(cfg, w, actor, renewals), actor, s)
    ensures SeparateReferences(RefreshAll(cfg, w, actor, renewals), actor)
  {
    if renewals != [] {
      var n := |renewals| - 1;
      AllNameSubjectPrefix(cfg, w, actor, renewals);
      hide SubjectBound, SeparateReferences, NamesSubject, RefreshAuthentication, AllNameSubject;
      RefreshesKeepSubject(cfg, w, actor, renewals[..n], s);
      RefreshKeepsSubject(cfg, RefreshAll(cfg, w, actor, renewals[..n]), actor, renewals[n].reply, renewals[n].now, s);
    }
  }

  /** The token condition is exact: an accepted refresh keeps record and credential of a bound
      subject in agreement if and only if its token names a subject. */
  lemma RenewalKeepsSubjectIffNamed(cfg: Config, w: World, actor: string, reply: RefreshReply, now: int, s: string)
    requires SubjectBound(cfg, w, actor, s) && SeparateReferences(w, actor)
    requires RefreshAuthentication(cfg, w, actor, reply, now).1.Refreshed?
    ensures SubjectBound(cfg, RefreshAuthentication(cfg, w, actor, reply, now).0, actor, s) <==>
        NamesSubject(cfg, w, actor, reply)
  {
    if NamesSubject(cfg, w, actor, reply) {
      RefreshKeepsSubject(cfg, w, actor, reply, now, s);
    } else {
      AcceptedTokenIsStored(cfg, w, actor, reply, now);
      hide RefreshAuthentication, FirstWithPurpose, JsonPath, AnswerDocument, Token;
    }
  }

  /** The token an answer carries. */
  function TokenOf(w: World, actor: string, reply: RefreshReply): Option<Json>
    requires HasProfile(w, actor)
  {
    var p := ProfileOf(w, actor);
    var document := AnswerDocument(p, reply);
    if document.Some? then JsonPath(document.value, p.refresh.accessPath) else None
  }

  /** After an accepted refresh the stored access credential is the answer's token. */
  lemma AcceptedTokenIsStored(cfg: Config, w: World, actor: string, reply: RefreshReply, now: int)
    requires SeparateReferences(w, actor) && RefreshAuthentication(cfg, w, actor, reply, now).1.Refreshed?
    ensures var v := RefreshAuthentication(cfg, w, actor, reply, now).0;
      && HasProfile(w, actor) && IsText(TokenOf(w, actor, reply)) && HasProfile(v, actor)
      && var q, access := ProfileOf(v, actor), FirstWithPurpose(ProfileOf(v, actor).components, "access");
      && access.Some? && Resolved(v.secrets, access.value.reference, actor).Some?
      && var stored := Resolved(v.secrets, access.value.reference, actor).value;
      && stored.Plain? && Token(cfg, q, access.value, stored.text) == TokenOf(w, actor, reply).value.s
  {
    hide RequestBody, AnswerDocument, JsonPath, StatusForExpiration, RevokeAll, Token, PutAll, FirstWithPurpose,
        ValidBatch, IdentityContinuity;
    var (v, result) := RefreshAuthentication(cfg, w, actor, reply, now);
    var p := ProfileOf(w, actor);
    var document := AnswerDocument(p, reply).value;
    var token := JsonPath(document, p.refresh.accessPath).value.s;
    var access, renewal := FirstWithPurpose(p.components, "access").value,
        FirstWithPurpose(p.components, "refresh").value;
    StoredTokenResolves(cfg, w.secrets, actor, p, document, access, renewal, token);
    TokenOfStored(cfg, p, access, token);
    TokenIgnoresStatus(cfg, p, ProfileOf(v, actor), access, StoredAccess(cfg, p, access, token));
  }

  /** A refresh that confirms the identity and whose token names s binds s, whatever was bound. */
  lemma ConfirmedRefreshBinds(cfg: Config, w: World, actor: string, reply: RefreshReply, now: int, s: string)
    requires SeparateReferences(w, actor) && HasProfile(w, actor)
    requires RefreshAuthentication(cfg, w, actor, reply, now).1.Refreshed?
    requires RefreshAuthentication(cfg, w, actor, reply, now).1.continuity == SameActor
    requires IsText(TokenOf(w, actor, reply)) && cfg.decode(TokenOf(w, actor, reply).value.s).hints.subject == Some(s)
    ensures SubjectBound(cfg, RefreshAuthentication(cfg, w, actor, reply, now).0, actor, s)
  {
    AcceptedTokenIsStored(cfg, w, actor, reply, now);
    hide RequestBody, AnswerDocument, JsonPath, StatusForExpiration, RevokeAll, Token, PutAll, FirstWithPurpose,
        ValidBatch, IdentityContinuity;
  }

  /** A renewal refused for another identity changes nothing but the status, and revokes every
      approval. */
  lemma ForeignTokenOnlyMarks(cfg: Config, w: World, actor: string, reply: RefreshReply, now: int)
    requires RefreshAuthentication(cfg, w, actor, reply, now).1 == RefreshRefused(IdentityChanged)
    ensures var v := RefreshAuthentication(cfg, w, actor, reply, now).0;
      && HasProfile(w, actor)
      && v.secrets == w.secrets
      && v.accounts == w.accounts[actor := w.accounts[actor].(profile := Some(ProfileOf(w,
          actor).(status := ContextChanged)))]
      && |v.plans| == |w.plans|
      && forall i :: 0 <= i < |v.plans| ==>
          !IsApproved(v.plans[i]) && (!IsApproved(w.plans[i]) ==> v.plans[i] == w.plans[i])
  {
    hide RequestBody, AnswerDocument, JsonPath, FirstWithPurpose, StatusForExpiration, PutAll, ValidBatch;
  }

  /** A usable answer whose token names another subject is always refused that way. */
  lemma ForeignSubjectIsRefused(cfg: Config, w: World, actor: string, reply: RefreshReply, now: int)
    requires HasProfile(w, actor)
    requires var p := ProfileOf(w, actor);
      && p.refresh.configured && p.refresh.endpoint.Some? && p.refresh.templateRef.Some?
          && cfg.covered(p.refresh.endpoint.value)
      && RequestBody(cfg, w, actor, p).Some? && FirstWithPurpose(p.components, "access").Some?
      && AnswerDocument(p, reply).Some? && IsText(JsonPath(AnswerDocument(p, reply).value, p.refresh.accessPath))
      && Conflicts(p.identity.hints.subject,
          cfg.decode(JsonPath(AnswerDocument(p, reply).value, p.refresh.accessPath).value.s).hints.subject)
    ensures RefreshAuthentication(cfg, w, actor, reply, now).1 == RefreshRefused(IdentityChanged)
  {
    hide RequestBody, JsonPath, FirstWithPurpose, StatusForExpiration, PutAll, ValidBatch;
  }

  // ----- Refresh template: what is sent is what was observed

  lemma {:induction false} NoneLeft(components: seq<Component>, purpose: string, c: Component)
    requires c.purpose == purpose
    ensures FirstWithPurpose(DropPurpose(components, purpose) + [c], purpose) == Some(c)
  {
    if components == [] {
    } else if components[0].purpose == purpose {
      NoneLeft(components[1..], purpose, c);
    } else {
      NoneLeft(components[1..], purpose, c);
      var rest := DropPurpose(components[1..], purpose);
      assert ([components[0]] + rest + [c])[1..] == rest + [c];
    }
  }

  /** Through the store and back: once a flow is configured, the request that a refresh sends is
      the observed body, if and only if the credential's path reads that credential in the body and
      the body carries no marker of its own (or the credential is itself the marker). */
  lemma RefreshSendsObservedBody(cfg: Config, w: World, actor: string, flow: ObservedFlow)
    requires ConfigureRefresh(cfg, w, actor, flow).1 == None
    ensures var v := ConfigureRefresh(cfg, w, actor, flow).0;
      && HasProfile(v, actor)
      && RequestBody(cfg, v, actor, ProfileOf(v, actor)).Some?
      && var (path, secret) := FirstNamed(LeafPaths(flow.requestBody, "$"), REFRESH_NAMES, cfg.lower).value;
      (RequestBody(cfg, v, actor, ProfileOf(v, actor)) == Some(flow.requestBody) <==>
         JsonPath(flow.requestBody, Some(path)) == Some(Str(secret))
             && (MarkerFree(flow.requestBody) || secret == MARKER))
  {
    hide LeafPaths, FirstNamed, SetJsonPath, JsonPath, PutAll, LastPart, WithRefreshComponent, MarkerFree,
        ReplaceMarker, TemplateReference, RefreshReference;
    var credential := FirstNamed(LeafPaths(flow.requestBody, "$"), REFRESH_NAMES, cfg.lower).value;
    var template := SetJsonPath(flow.requestBody, credential.0, Str(MARKER)).value;
    FirstNamedIsLeaf(LeafPaths(flow.requestBody, "$"), REFRESH_NAMES, cfg.lower);
    TemplateRoundTrip(flow.requestBody, credential.0, credential.1);
    FlowSecretsResolve(cfg, w.secrets, actor, template, credential.1);
    RefreshComponentFound(cfg, actor, ProfileOf(w, actor).components);
  }

  /** The dotted-key body through the store, for instance with inner "refresh_token": what a refresh
      sends is not what was observed. */
  lemma DottedFlowExample(cfg: Config, w: World, actor: string, flow: ObservedFlow, outer: string, inner: string,
      x: string, y: string)
    requires ConfigureRefresh(cfg, w, actor, flow).1 == None
    requires flow.requestBody == DottedBody(outer, inner, x, y)
    requires inner in REFRESH_NAMES && cfg.lower(inner) == inner && IsClean(inner)
    requires IsClean(outer) && x != y && x != MARKER && x != ""
    ensures var v := ConfigureRefresh(cfg, w, actor, flow).0;
      HasProfile(v, actor) && RequestBody(cfg, v, actor, ProfileOf(v, actor)) != Some(flow.requestBody)
  {
    var leaves, path := LeafPaths(flow.requestBody, "$"), "$" + ("." + outer + "." + inner);
    DottedKeyExample(outer, inner, x, y);
    DottedLastPart(outer, inner);
    hide LeafPaths, LastPart, DottedBody, RequestBody, ConfigureRefresh, SetJsonPath, ReplaceMarker, JsonPath, IsClean;
    assert FirstNamed(leaves, REFRESH_NAMES, cfg.lower) == Some((path, x));
    hide FirstNamed;
    TemplateRoundTrip(flow.requestBody, path, x);
    RefreshSendsObservedBody(cfg, w, actor, flow);
  }

  lemma DottedLastPart(outer: string, inner: string)
    requires IsClean(outer) && IsClean(inner)
    ensures LastPart("$" + ("." + outer + "." + inner)) == inner
  {
    Text.SplitToken("$", outer + "." + inner, '.');
    Text.SplitToken(outer, inner, '.');
    Text.SplitToken(inner, [], '.');
    hide Text.Split;
    assert "$" + ("." + outer + "." + inner) == "$" + ['.'] + (outer + "." + inner);
    assert outer + "." + inner == outer + ['.'] + inner;
  }

  lemma RefreshComponentFound(cfg: Config, actor: string, components: seq<Component>)
    ensures var c := FirstWithPurpose(WithRefreshComponent(cfg, actor, components), "refresh");
      c.Some? && c.value.reference == RefreshReference(cfg, actor)
  {
    NoneLeft(components, "refresh", Component("refresh_token", Body, RefreshReference(cfg, actor), "refresh", false));
  }

  // ----- Configuring a refresh flow can overwrite a replayed secret

  /** Exactly when: the credential survives configuring a flow, also one that fails on its port, if
      and only if what is written under a replayed reference was there before.  Every other failure
      leaves the whole state alone. */
  lemma ConfigureKeepsCredentialIff(cfg: Config, w: World, actor: string, flow: ObservedFlow, now: int)
    requires Sound(w, actor) && HasProfile(w, actor)
    ensures var (v, error) := ConfigureRefresh(cfg, w, actor, flow);
      if WritesSecrets(error) then
        SameCredential(w, v, actor) <==>
          && (TemplateReference(cfg, actor) in ReplayRefs(ProfileOf(w, actor)) ==>
               Resolved(w.secrets, TemplateReference(cfg, actor), actor) == Some(Template(FlowTemplate(cfg, flow))))
          && (RefreshReference(cfg, actor) in ReplayRefs(ProfileOf(w, actor)) ==>
               Resolved(w.secrets, RefreshReference(cfg, actor), actor) == Some(Plain(FlowToken(cfg, flow))))
      else v == w
    ensures SameCredential(w, ConfigureRefresh(cfg, w, actor, flow).0, actor)
      <==> !Overwrites(cfg, w, Step(Configure(actor, flow), now), actor)
  {
    var (v, error) := ConfigureRefresh(cfg, w, actor, flow);
    var refresh := ConfigureShape(cfg, w, actor, flow);
    FlowReferencesDiffer(cfg, actor);
    hide ConfigureRefresh, PutAll, WithRefreshComponent, ReplayRefs, TemplateReference, RefreshReference,
        FlowTemplate, FlowToken;
    if WritesSecrets(error) {
      ReplayRefsKept(cfg, actor, ProfileOf(w, actor), refresh);
      forall r
          ensures Resolved(v.secrets, r, actor) == SecretAfter(cfg, w, Step(Configure(actor, flow), now), actor, r) {
        FlowSecretAfter(cfg, w.secrets, actor, FlowTemplate(cfg, flow), FlowToken(cfg, flow), r);
      }
    }
  }

  /** So the run property needs its condition: a verified, ready actor whose replayed secret lives
      under the refresh token's reference stays ready although that secret has been replaced and
      nothing was checked since. */
  lemma ClobberedActorStaysReady(cfg: Config, w: World, actor: string, flow: ObservedFlow, request: Request, now: int)
    requires Sound(w, actor) && HasProfile(w, actor) && !IsAnonymous(w.accounts[actor]) && request.forExecution
    requires ActorPreflight(cfg, w, actor, request, now).Preflight?
        && ActorPreflight(cfg, w, actor, request, now).verdict == ReadyForExecution
    requires ConfigureRefresh(cfg, w, actor, flow).1 == None
    requires RefreshReference(cfg, actor) in ReplayRefs(ProfileOf(w, actor))
        && TemplateReference(cfg, actor) !in ReplayRefs(ProfileOf(w, actor))
    requires Resolved(w.secrets, RefreshReference(cfg, actor), actor)
          != Some(Plain(FirstNamed(LeafPaths(flow.requestBody, "$"), REFRESH_NAMES, cfg.lower).value.1))
    ensures var v := ConfigureRefresh(cfg, w, actor, flow).0;
      && Verified(v, actor)
      && ActorPreflight(cfg, v, actor, request, now).Preflight?
      && ActorPreflight(cfg, v, actor, request, now).verdict == ReadyForExecution
      && !SameCredential(w, v, actor)
  {
    hide LeafPaths, FirstNamed, SetJsonPath, PutAll, LastPart, WithRefreshComponent, ReplayRefs, TemplateReference,
        RefreshReference, AllResolve;
    var p := ProfileOf(w, actor);
    var v := ConfigureRefresh(cfg, w, actor, flow).0;
    var credential := FirstNamed(LeafPaths(flow.requestBody, "$"), REFRESH_NAMES, cfg.lower).value;
    var template := SetJsonPath(flow.requestBody, credential.0, Str(MARKER)).value;
    FirstNamedIsLeaf(LeafPaths(flow.requestBody, "$"), REFRESH_NAMES, cfg.lower);
    FlowSecretsResolve(cfg, w.secrets, actor, template, credential.1);
    ReplayRefsKept(cfg, actor, p, ProfileOf(v, actor).refresh);
    var batch := FlowBatch(cfg, actor, template, credential.1);
    forall r | r in ReplayRefs(p) ensures Resolved(w.secrets, r, actor).Some? ==> Resolved(v.secrets, r, actor).Some? {
      PutAllHolds(w.secrets, batch, r);
    }
    ResolvedStays(w, v, actor);
    NotEmptied(cfg, actor, p.components);
  }

  lemma ResolvedStays(w: World, v: World, actor: string)
    requires HasProfile(w, actor) && HasProfile(v, actor)
    requires ReplayRefs(ProfileOf(w, actor)) == ReplayRefs(ProfileOf(v, actor))
    requires forall r :: r in ReplayRefs(ProfileOf(w, actor)) ==>
        (Resolved(w.secrets, r, actor).Some? ==> Resolved(v.secrets, r, actor).Some?)
    ensures AllResolve(w, actor, ProfileOf(w, actor)) ==> AllResolve(v, actor, ProfileOf(v, actor))
  {
    if AllResolve(w, actor, ProfileOf(w, actor)) {
      forall c | c in ProfileOf(v, actor).components && c.replayRequired
          ensures Resolved(v.secrets, c.reference, actor).Some? {
        assert c.reference in ReplayRefs(ProfileOf(v, actor));
        var d :| d in ProfileOf(w, actor).components && d.replayRequired && d.reference == c.reference;
      }
    }
  }

  lemma NotEmptied(cfg: Config, actor: string, components: seq<Component>)
    ensures WithRefreshComponent(cfg, actor, components) != []
  {
  }

  // ----- Clearing

  /** The references a clear goes through: none without a profile. */
  function Listed(w: World, actor: string): seq<string> {
    if HasProfile(w, actor) then ClearedReferences(ProfileOf(w, actor)) else []
  }

  /** Clearing leaves the actor without any secret exactly when every secret it had is under a
      reference of its present profile, if it has one. */
  lemma ClearLeavesNothingIff(w: World, actor: string)
    ensures (forall r :: Resolved(ClearAuthentication(w, actor).0.secrets, r, actor) == None)
      <==> forall r :: Resolved(w.secrets, r, actor).Some? ==> r in Listed(w, actor)
  {
    hide ClearedReferences;
    var v, cleared := ClearAuthentication(w, actor).0, Listed(w, actor);
    if HasProfile(w, actor) {
      assert v.secrets == RemoveAll(w.secrets, cleared, actor);
    } else {
      assert v.secrets == w.secrets;
    }
    forall r ensures Resolved(v.secrets, r, actor) == if r in cleared then None else Resolved(w.secrets, r, actor) {
    }
  }
}
