/** Actor authentication: the records of target.yaml and the transitions of `finsec/auth/service.py`
    as functions on the whole persisted state. */
module Authentication {
  import opened Domain
  import opened Json
  import opened SecretStores
  import opened RefreshTemplate
  import Text
  import Id = Identity
  import P = JsonPointer

  datatype Status =
    | Ready | ExpiringSoon | Expired | Invalid | Missing | AvailableNotValidated
    | RefreshRequired | RefreshFailed | ContextChanged | StatusNone

  datatype Location = Header | Cookie | Body

  datatype Component = Component(name: string, location: Location, reference: string, purpose: string,
      replayRequired: bool)

  /** Untrusted identity hints, as decoded from a token or a capture. */
  datatype Hints = Hints(subject: Option<string>, roles: set<string>, tenant: Option<string>, baseline: Option<string>)

  datatype ActorIdentity = ActorIdentity(
    hints: Hints, confirmed: bool, lastAssertion: Id.AssertionStatus, reference: Option<Id.Reference>)

  /** `endpoint` is the host when method, scheme, host and path are all present. */
  datatype Refresh = Refresh(
    configured: bool, templateRef: Option<string>, endpoint: Option<string>,
    accessPath: Option<string>, refreshPath: Option<string>, expectedStatus: Option<int>)

  datatype Baseline = Baseline(host: string, expectedStatus: Option<int>, assertion: Option<Id.Assertion>)

  datatype SourceType = Har | Burp | RawRequest | Manual | LegacyEnvironment | NoSource

  /** The sources a captured candidate can name. */
  type CaptureSource = s: SourceType | s != LegacyEnvironment && s != NoSource witness Har

  /** The hashed context document, with the hash taken to be injective. */
  datatype ContextKey = ContextKey(actor: string, authType: string, hints: Hints, hosts: set<string>)

  datatype Profile = Profile(
    authType: string, profileRef: Option<string>, components: seq<Component>, source: SourceType,
    capturedAt: Option<int>, expiresAt: Option<int>, refresh: Refresh, baseline: Option<Baseline>,
    identity: ActorIdentity, status: Status, context: Option<ContextKey>, targetHosts: set<string>,
    accepted: bool, scopeValidated: bool, legacyVariables: set<string>)

  datatype Account = Account(authenticated: bool, actorType: Option<string>, profile: Option<Profile>)

  datatype Plan = Plan(approval: bool, approvalStatus: string)

  /** Everything the steps read and write: target.yaml, the secret file and the plan file. */
  datatype World = World(accounts: map<string, Account>, secrets: map<string, Secret>, plans: seq<Plan>)

  datatype Claims = Claims(expiresAt: Option<int>, hints: Hints)

  /** Settings the steps never change, and code taken as given: scope matching, token decoding,
      name slugs and case folding.  Instants are in microseconds, settings in seconds. */
  datatype Config = Config(
    covered: string -> bool, hosts: set<string>, decode: string -> Claims, slug: string -> string,
    lower: string -> string, numerals: P.Numerals, soonSeconds: nat, marginSeconds: nat, activeExecution: bool)

  const SECOND := 1_000_000

  datatype Error =
    | UnknownActor | AnonymousActor | OutOfScope | IdentityChanged | InvalidBatch | NotConfigured | NoBaseline
    | NotEnabled | NoReply | RaisedByEvaluator | NoRefreshFlow | Incomplete | Unresolvable | UnsupportedPath
    | RefreshRejected | InvalidPort

  // ----- Identity continuity and contexts

  datatype Continuity = SameActor | OtherActor | Unknown

  predicate Conflicts(before: Option<string>, after: Option<string>) {
    before.Some? && after.Some? && before != after
  }

  function IdentityContinuity(previous: Hints, replacement: Hints): Continuity {
    if Conflicts(previous.subject, replacement.subject) || Conflicts(previous.tenant, replacement.tenant)
        then OtherActor
    else if previous.roles != {} && replacement.roles != {} && previous.roles != replacement.roles then OtherActor
    else if (previous.subject.Some? && replacement.subject.Some?) || (previous.tenant.Some? && replacement.tenant.Some?)
      || (previous.roles != {} && replacement.roles != {}) then SameActor
    else Unknown
  }

  function Unconfirmed(hints: Hints): ActorIdentity {
    ActorIdentity(hints, false, Id.NotConfigured, None)
  }

  predicate IsAnonymous(account: Account) {
    account.actorType == Some("anonymous") || !account.authenticated
  }

  predicate IsConfigured(profile: Option<Profile>) {
    profile.Some? && profile.value.authType != "none" && profile.value.authType != "unconfigured"
  }

  function NoRefresh(): Refresh {
    Refresh(false, None, None, None, None, None)
  }

  function EmptyProfile(authType: string, source: SourceType, status: Status): Profile {
    Profile(authType, None, [], source, None, None, NoRefresh(), None, Unconfirmed(Hints(None, {}, None, None)), status,
            None, {}, false, false, {})
  }

  function AnonymousProfile(): Profile {
    EmptyProfile("none", NoSource, StatusNone)
  }

  function MissingProfile(): Profile {
    EmptyProfile("unconfigured", Manual, Missing)
  }

  function SetProfile(w: World, actor: string, profile: Profile): World
    requires actor in w.accounts
  {
    w.(accounts := w.accounts[actor := w.accounts[actor].(profile := Some(profile))])
  }

  // ----- Plan approvals

  predicate IsApproved(p: Plan) {
    p.approval || p.approvalStatus == "APPROVED"
  }

  function Revoked(p: Plan): Plan {
    if IsApproved(p) then Plan(false, "NOT_REQUESTED") else p
  }

  function RevokeAll(plans: seq<Plan>): seq<Plan> {
    seq(|plans|, i requires 0 <= i < |plans| => Revoked(plans[i]))
  }

  function Invalidate(w: World): World {
    w.(plans := RevokeAll(w.plans))
  }

  // ----- Time

  function StatusForExpiration(expiresAt: Option<int>, now: int, soonSeconds: nat, otherwise: Status): Status {
    if expiresAt.None? then otherwise
    else if expiresAt.value - now <= 0 then Expired
    else if expiresAt.value - now <= soonSeconds * SECOND then ExpiringSoon
    else otherwise
  }

  /** Python's `int(delta.total_seconds())`: truncation toward zero. */
  function WholeSeconds(delta: int): int {
    if delta >= 0 then delta / SECOND else -((-delta) / SECOND)
  }

  // ----- Storing a captured candidate

  datatype Captured = Captured(name: string, value: string, purpose: string, location: Location)

  datatype AuthCandidate = AuthCandidate(
    authType: string, components: seq<Captured>, expiresAt: Option<int>, notBefore: Option<int>, hints: Hints,
    baseline: Option<Baseline>, capturedAt: Option<int>, sourceIndex: int, observedHost: Option<string>)

  function ReferenceBase(cfg: Config, actor: string, name: string): string {
    "actor-auth-" + cfg.slug(actor) + "-" + cfg.slug(name)
  }

  function CountBase(cfg: Config, actor: string, captured: seq<Captured>, base: string): nat {
    if captured == [] then 0
    else
      CountBase(cfg, actor, captured[..|captured| - 1], base)
      + if ReferenceBase(cfg, actor, captured[|captured| - 1].name) == base then 1 else 0
  }

  /** The reference of the last captured component: repeated names get a numeric suffix. */
  function LastReference(cfg: Config, actor: string, captured: seq<Captured>): string
    requires captured != []
  {
    var base := ReferenceBase(cfg, actor, captured[|captured| - 1].name);
    var n := CountBase(cfg, actor, captured, base);
    if n == 1 then base else base + "-" + Text.DecimalText(n)
  }

  function Components(cfg: Config, actor: string, captured: seq<Captured>): seq<Component> {
    if captured == [] then []
    else
      var c := captured[|captured| - 1];
      Components(cfg, actor, captured[..|captured| - 1])
      + [Component(c.name, c.location, LastReference(cfg, actor, captured), c.purpose, c.purpose != "refresh")]
  }

  function Entries(cfg: Config, actor: string, captured: seq<Captured>): seq<Entry> {
    if captured == [] then []
    else
      var c := captured[|captured| - 1];
      Entries(cfg, actor, captured[..|captured| - 1])
      + [Entry(LastReference(cfg, actor, captured), actor, c.purpose, Plain(c.value))]
  }

  predicate IsSuccess(status: Option<int>) {
    status.Some? && 200 <= status.value < 300
  }

  function InitialStatus(c: AuthCandidate): Status {
    if c.baseline.Some? && IsSuccess(c.baseline.value.expectedStatus) then Ready else AvailableNotValidated
  }

  function StoredProfile(cfg: Config, actor: string, previous: Option<Profile>, c: AuthCandidate,
      source: CaptureSource, now: int): Profile {
    var initial := InitialStatus(c);
    Profile(c.authType, Some("actor-" + cfg.slug(actor) + "-default"), Components(cfg, actor, c.components), source,
        c.capturedAt,
            c.expiresAt, if previous.Some? then previous.value.refresh else NoRefresh(), c.baseline,
                Unconfirmed(c.hints),
            StatusForExpiration(c.expiresAt, now, cfg.soonSeconds, initial),
            Some(ContextKey(actor, c.authType, c.hints, cfg.hosts)), cfg.hosts, initial == Ready, initial == Ready, {})
  }

  function WithActorType(account: Account): Account {
    account.(actorType := Some(
      if account.actorType.Some? then account.actorType.value
      else if account.authenticated then "authenticated_user" else "anonymous"))
  }

  function StoreCandidate(cfg: Config, w: World, actor: string, c: AuthCandidate, source: CaptureSource,
      renewal: bool, now: int)
    : (World, Option<Error>)
  {
    if actor !in w.accounts then (w, Some(UnknownActor))
    else
      var account := w.accounts[actor];
      var previous := account.profile;
      if IsAnonymous(account) then (w, Some(AnonymousActor))
      else if c.observedHost.Some? && !cfg.covered(c.observedHost.value) then (w, Some(OutOfScope))
      else if IsConfigured(previous) && IdentityContinuity(previous.value.identity.hints, c.hints) == OtherActor then
        (Invalidate(SetProfile(w, actor, previous.value.(status := ContextChanged))), Some(IdentityChanged))
      else if !ValidBatch(Entries(cfg, actor, c.components)) then (w, Some(InvalidBatch))
      else
        var profile := StoredProfile(cfg, actor, previous, c, source, now);
        var secrets := PutAll(w.secrets, Entries(cfg, actor, c.components));
        var typed := World(w.accounts[actor := WithActorType(account)], secrets, w.plans);
        if !IsConfigured(previous) then (SetProfile(typed, actor, profile), None)
        else if IdentityContinuity(previous.value.identity.hints, c.hints) == Unknown && !renewal then
          (Invalidate(SetProfile(typed, actor, profile.(status := ContextChanged))), None)
        else if previous.value.context != profile.context then
          (Invalidate(SetProfile(typed, actor, profile)), None)
        else (SetProfile(typed, actor, profile), None)
  }

  // ----- Clearing

  function ClearedReferences(profile: Profile): seq<string> {
    seq(|profile.components|, i requires 0 <= i < |profile.components| => profile.components[i].reference)
    + if profile.refresh.templateRef.Some? && profile.refresh.templateRef.value != ""
        then [profile.refresh.templateRef.value] else []
  }

  function ClearAuthentication(w: World, actor: string): (World, Option<Error>) {
    if actor !in w.accounts then (w, Some(UnknownActor))
    else
      var account := w.accounts[actor];
      var secrets := if account.profile.None? then w.secrets
                     else RemoveAll(w.secrets, ClearedReferences(account.profile.value), actor);
      var profile := if IsAnonymous(account) then AnonymousProfile() else MissingProfile();
      (Invalidate(SetProfile(w.(secrets := secrets), actor, profile)), None)
  }

  // ----- Preflight

  datatype Verdict = ReadyForExecution | ReadyForPlanning | BlockedByAuth

  datatype Preflight = Preflight(status: Status, available: bool, verdict: Verdict) | UnsafeAssignment | UnknownAccount

  /** What the caller asks for: how many requests, on what binding, and which environment
      variables are set (for legacy profiles). */
  datatype Request = Request(
    count: nat, forExecution: bool, profileRef: Option<string>, context: Option<ContextKey>,
    hosts: set<string>, environment: set<string>)

  function VerdictFor(blocked: bool, forExecution: bool): Verdict {
    if blocked then BlockedByAuth else if forExecution then ReadyForExecution else ReadyForPlanning
  }

  predicate AllResolve(w: World, actor: string, profile: Profile) {
    forall c :: c in profile.components && c.replayRequired ==> Resolved(w.secrets, c.reference, actor).Some?
  }

  predicate Available(w: World, actor: string, profile: Profile, environment: set<string>) {
    if profile.source == LegacyEnvironment then profile.legacyVariables * environment != {}
    else profile.components != [] && AllResolve(w, actor, profile)
  }

  function Margin(cfg: Config, count: nat): nat {
    var bounded := cfg.marginSeconds + (count + 1) * 10;
    if cfg.soonSeconds > bounded then cfg.soonSeconds else bounded
  }

  function EffectiveStatus(cfg: Config, profile: Profile, available: bool, now: int, count: nat): Status {
    if !available then Missing
    else if profile.expiresAt.Some? && WholeSeconds(profile.expiresAt.value - now) <= 0 then Expired
    else if profile.expiresAt.Some? && WholeSeconds(profile.expiresAt.value - now) <= Margin(cfg, count)
        then ExpiringSoon
    else profile.status
  }

  predicate IsBlocking(s: Status) {
    s in {Missing, Expired, Invalid, RefreshRequired, RefreshFailed, ContextChanged}
  }

  function ActorPreflight(cfg: Config, w: World, actor: string, request: Request, now: int): Preflight {
    if actor !in w.accounts then UnknownAccount
    else
      var account := w.accounts[actor];
      if IsAnonymous(account) then
        if account.profile.Some? && account.profile.value.components != [] then UnsafeAssignment
        else Preflight(StatusNone, true, VerdictFor(false, request.forExecution))
      else if account.profile.None? then Preflight(Missing, false, BlockedByAuth)
      else
        var p := account.profile.value;
        if request.profileRef.Some? && request.profileRef.value != "" && p.profileRef != request.profileRef then
          Preflight(ContextChanged, false, BlockedByAuth)
        else if request.context.Some? && p.context != request.context
            then Preflight(ContextChanged, false, BlockedByAuth)
        else if !(request.hosts <= p.targetHosts) then Preflight(Invalid, false, BlockedByAuth)
        else
          var available := Available(w, actor, p, request.environment);
          var status := EffectiveStatus(cfg, p, available, now, request.count);
          var blocked := !available || IsBlocking(status)
            || (request.forExecution
                && (status == ExpiringSoon || !p.accepted || !p.scopeValidated || !p.identity.confirmed));
          Preflight(status, available, VerdictFor(blocked, request.forExecution))
  }

  // ----- Marking and validating

  /** Facts to record; None leaves a fact alone. */
  datatype Facts = Facts(
    accepted: Option<bool>, scope: Option<bool>, confirmed: Option<bool>,
    assertion: Option<Id.AssertionStatus>, reference: Option<Id.Reference>)

  function MarkedIdentity(identity: ActorIdentity, facts: Facts): ActorIdentity {
    var marked := if facts.confirmed.None? then identity
                  else identity.(confirmed := facts.confirmed.value, reference := if facts.confirmed.value
                      then facts.reference else None);
    if facts.assertion.Some? then marked.(lastAssertion := facts.assertion.value) else marked
  }

  function MarkStatus(w: World, actor: string, status: Status, facts: Facts): World
    requires actor in w.accounts
  {
    var profile := w.accounts[actor].profile;
    if profile.None? || profile.value.authType == "none" then w
    else
      var p := profile.value;
      SetProfile(w, actor, p.(
        status := status,
        accepted := if facts.accepted.Some? then facts.accepted.value else p.accepted,
        scopeValidated := if facts.scope.Some? then facts.scope.value else p.scopeValidated,
        identity := MarkedIdentity(p.identity, facts)))
  }

  datatype CheckResult = CheckRefused(error: Error) | CheckBlocked | CheckDone(matched: bool, confirmed: bool)

  predicate Matches(baseline: Baseline, status: int) {
    200 <= status < 300 && (baseline.expectedStatus.None? || status == baseline.expectedStatus.value)
  }

  function FactsOf(actor: string, p: Profile): Id.ActorFacts {
    Id.ActorFacts(actor, p.identity.hints.subject, p.identity.hints.tenant)
  }

  /** `reply` is None when the request could not be built, sent or read. */
  function ValidateBaseline(cfg: Config, w: World, actor: string, reply: Option<Id.Response>,
      environment: set<string>, now: int)
    : (World, CheckResult)
  {
    if !cfg.activeExecution then (w, CheckRefused(NotEnabled))
    else if actor !in w.accounts then (w, CheckRefused(UnknownActor))
    else
      var profile := w.accounts[actor].profile;
      if profile.None? || profile.value.profileRef.None? then (w, CheckRefused(NotConfigured))
      else if profile.value.baseline.None? then (w, CheckRefused(NoBaseline))
      else
        var p, baseline := profile.value, profile.value.baseline.value;
        if !cfg.covered(baseline.host) then (w, CheckRefused(OutOfScope))
        else
          var preflight := ActorPreflight(cfg, w, actor, Request(1, false, None, None, {}, environment), now);
          if preflight.UnsafeAssignment? then (w, CheckRefused(AnonymousActor))
          else if preflight.Preflight? && preflight.verdict == BlockedByAuth then (w, CheckBlocked)
          else if reply.None? then (w, CheckRefused(NoReply))
          else
            var outcome := Id.Evaluate(baseline.assertion, FactsOf(actor, p), reply.value, cfg.numerals, cfg.lower);
            if outcome.Raised? then (w, CheckRefused(RaisedByEvaluator))
            else if reply.value.login then
              (MarkStatus(w, actor, Invalid, Facts(Some(false), Some(true), Some(false), Some(outcome.status), None)),
               CheckDone(false, false))
            else if Matches(baseline, reply.value.status) then
              (MarkStatus(w, actor, Ready,
                  Facts(Some(true), Some(true), Some(outcome.confirmed), Some(outcome.status), outcome.reference)),
               CheckDone(true, outcome.confirmed))
            else
              (MarkStatus(w, actor, AvailableNotValidated,
                  Facts(Some(false), Some(true), Some(false), Some(outcome.status), None)),
               CheckDone(false, false))
  }

  // ----- Configuring and performing an observed refresh

  function TemplateReference(cfg: Config, actor: string): string {
    "actor-auth-" + cfg.slug(actor) + "-refresh-template"
  }

  function RefreshReference(cfg: Config, actor: string): string {
    "actor-auth-" + cfg.slug(actor) + "-refresh-token"
  }

  /** `path.rsplit(".", 1)[-1]`. */
  function LastPart(path: string): string {
    Text.SplitParts(path, '.');
    var parts := Text.Split(path, '.');
    parts[|parts| - 1]
  }

  /** The first leaf with one of the names that is a non-empty text. */
  function FirstNamed(leaves: seq<(string, Json)>, names: set<string>,
      lower: string -> string): Option<(string, string)> {
    if leaves == [] then None
    else if lower(LastPart(leaves[0].0)) in names && leaves[0].1.Str? && leaves[0].1.s != ""
        then Some((leaves[0].0, leaves[0].1.s))
    else FirstNamed(leaves[1..], names, lower)
  }

  const REFRESH_NAMES := {"refresh_token", "refreshtoken"}
  const ACCESS_NAMES := {"access_token", "accesstoken", "token"}
  const FORBIDDEN_NAMES := {"password", "otp", "mfa", "captcha", "verification_code"}

  /** The selected HAR entry: parsed bodies, and what the URL and header checks found. */
  datatype ObservedFlow = ObservedFlow(
    requestBody: Json, responseBody: Json, host: string, safeUrl: bool, safeHeaders: bool, validPort: bool,
        status: Option<int>)

  function WithRefreshComponent(cfg: Config, actor: string, components: seq<Component>): seq<Component> {
    DropPurpose(components,
        "refresh") + [Component("refresh_token", Body, RefreshReference(cfg, actor), "refresh", false)]
  }

  function DropPurpose(components: seq<Component>, purpose: string): seq<Component> {
    if components == [] then []
    else if components[0].purpose == purpose then DropPurpose(components[1..], purpose)
    else [components[0]] + DropPurpose(components[1..], purpose)
  }

  function PathOf(found: Option<(string, string)>): Option<string> {
    if found.Some? then Some(found.value.0) else None
  }

  function ConfigureRefresh(cfg: Config, w: World, actor: string, flow: ObservedFlow): (World, Option<Error>) {
    var leaves := LeafPaths(flow.requestBody, "$");
    var answers := LeafPaths(flow.responseBody, "$");
    var credential := FirstNamed(leaves, REFRESH_NAMES, cfg.lower);
    var access := FirstNamed(answers, ACCESS_NAMES, cfg.lower);
    if (exists leaf :: leaf in leaves && cfg.lower(LastPart(leaf.0)) in FORBIDDEN_NAMES) || credential.None?
        || access.None? then
      (w, Some(NoRefreshFlow))
    else if actor !in w.accounts then (w, Some(UnknownActor))
    else if !IsConfigured(w.accounts[actor].profile) then (w, Some(NotConfigured))
    else if !flow.safeUrl || !cfg.covered(flow.host) then (w, Some(OutOfScope))
    else
      match SetJsonPath(flow.requestBody, credential.value.0, Str(MARKER))
      case None => (w, Some(UnsupportedPath))
      case Some(template) =>
        var batch := [Entry(TemplateReference(cfg, actor), actor, "refresh_template", Template(template)),
                      Entry(RefreshReference(cfg, actor), actor, "refresh", Plain(credential.value.1))];
        if !flow.safeHeaders then (w, Some(Incomplete))
        else if !ValidBatch(batch) then (w, Some(InvalidBatch))
        else
          var stored := w.(secrets := PutAll(w.secrets, batch));
          if !flow.validPort then (stored, Some(InvalidPort))
          else
            var p := w.accounts[actor].profile.value;
            var refresh := Refresh(true, Some(TemplateReference(cfg, actor)), Some(flow.host), PathOf(access),
                                   PathOf(FirstNamed(answers, REFRESH_NAMES, cfg.lower)), flow.status);
            (SetProfile(stored, actor,
                p.(components := WithRefreshComponent(cfg, actor, p.components), refresh := refresh)), None)
  }

  /** Unroutable: refused before anything was sent.  Dropped: sent without a usable answer. */
  datatype RefreshReply = Unroutable | Dropped | Answered(status: int, typeMatches: bool, document: Option<Json>)

  datatype RefreshResult =
    | RefreshRefused(error: Error)
    | Refreshed(body: Json, continuity: Continuity)

  function FirstWithPurpose(components: seq<Component>, purpose: string): Option<Component> {
    if components == [] then None
    else if components[0].purpose == purpose then Some(components[0])
    else FirstWithPurpose(components[1..], purpose)
  }

  predicate IsText(j: Option<Json>) {
    j.Some? && j.value.Str? && j.value.s != ""
  }

  predicate UsesBearerPrefix(cfg: Config, p: Profile, access: Component) {
    (p.authType == "bearer" || p.authType == "bearer_jwt") && cfg.lower(access.name) == "authorization"
  }

  function StoredAccess(cfg: Config, p: Profile, access: Component, token: string): string {
    if UsesBearerPrefix(cfg, p, access) then "Bearer " + token else token
  }

  /** The request body to send: the stored template with the stored credential put back. */
  function RequestBody(cfg: Config, w: World, actor: string, p: Profile): Option<Json> {
    var template := if p.refresh.templateRef.Some? then Resolved(w.secrets, p.refresh.templateRef.value, actor)
        else None;
    var component := FirstWithPurpose(p.components, "refresh");
    var secret := if component.Some? then Resolved(w.secrets, component.value.reference, actor) else None;
    if template.Some? && template.value.Template? && secret.Some? && secret.value.Plain?
    then Some(ReplaceMarker(template.value.body, secret.value.text)) else None
  }

  function AnswerDocument(p: Profile, reply: RefreshReply): Option<Json> {
    if reply.Answered? && (p.refresh.expectedStatus.None? || reply.status == p.refresh.expectedStatus.value)
        && reply.typeMatches
    then reply.document else None
  }

  function RefreshEntries(cfg: Config, actor: string, p: Profile, document: Json, access: Component,
      renewal: Component, token: string): seq<Entry> {
    var next := JsonPath(document, p.refresh.refreshPath);
    [Entry(access.reference, actor, "access", Plain(StoredAccess(cfg, p, access, token)))]
    + if IsText(next) then [Entry(renewal.reference, actor, "refresh", Plain(next.value.s))] else []
  }

  function RefreshAuthentication(cfg: Config, w: World, actor: string, reply: RefreshReply, now: int): (World,
      RefreshResult) {
    if actor !in w.accounts then (w, RefreshRefused(UnknownActor))
    else if w.accounts[actor].profile.None? || !w.accounts[actor].profile.value.refresh.configured
        then (w, RefreshRefused(NoRefreshFlow))
    else
      var p := w.accounts[actor].profile.value;
      if p.refresh.endpoint.None? || p.refresh.templateRef.None? then (w, RefreshRefused(Incomplete))
      else if !cfg.covered(p.refresh.endpoint.value) then (w, RefreshRefused(OutOfScope))
      else
        var body := RequestBody(cfg, w, actor, p);
        if body.None? then (w, RefreshRefused(Unresolvable))
        else if reply.Unroutable? then (w, RefreshRefused(NoReply))
        else
          var failed := SetProfile(w, actor, p.(status := RefreshFailed));
          var document := AnswerDocument(p, reply);
          var token := if document.Some? then JsonPath(document.value, p.refresh.accessPath) else None;
          var access := FirstWithPurpose(p.components, "access");
          if !IsText(token) || access.None? then (failed, RefreshRefused(RefreshRejected))
          else
            ApplyRefresh(cfg, w, actor, p, document.value, access.value, token.value.s, body.value, now)
  }

  function ApplyRefresh(cfg: Config, w: World, actor: string, p: Profile, document: Json, access: Component,
      token: string, body: Json, now: int): (World, RefreshResult)
    requires actor in w.accounts
  {
    var claims := cfg.decode(token);
    var continuity := IdentityContinuity(p.identity.hints, claims.hints);
    var renewal := FirstWithPurpose(p.components, "refresh");
    if continuity == OtherActor then
      (Invalidate(SetProfile(w, actor, p.(status := ContextChanged))), RefreshRefused(IdentityChanged))
    else if renewal.None? || !ValidBatch(RefreshEntries(cfg, actor, p, document, access, renewal.value, token)) then
      (w, RefreshRefused(InvalidBatch))
    else
      var stored := w.(secrets := PutAll(w.secrets,
          RefreshEntries(cfg, actor, p, document, access, renewal.value, token)));
      var after := SetProfile(stored, actor, RefreshedProfile(cfg, actor, p, claims, continuity, now));
      (if continuity == SameActor then after else Invalidate(after), Refreshed(body, continuity))
  }

  /** Acceptance is forgotten; the identity is replaced only when continuity was confirmed. */
  function RefreshedProfile(cfg: Config, actor: string, p: Profile, claims: Claims, continuity: Continuity,
      now: int): Profile {
    var reset := p.(expiresAt := claims.expiresAt, accepted := false, scopeValidated := false);
    if continuity == SameActor then
      reset.(identity := Unconfirmed(claims.hints),
             context := Some(ContextKey(actor, p.authType, claims.hints, p.targetHosts)),
             status := StatusForExpiration(claims.expiresAt, now, cfg.soonSeconds, AvailableNotValidated))
    else reset.(status := ContextChanged)
  }
}
