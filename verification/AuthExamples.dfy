/** Concrete runs that show where the laws of AuthLimits and AuthRuns need their conditions. */
module AuthExamples {
  import opened Domain
  import opened Json
  import opened SecretStores
  import opened RefreshTemplate
  import opened Authentication
  import opened AuthRuns
  import opened AuthLimits
  import Text
  import Id = Identity
  import P = JsonPointer

  function Nobody(): Hints {
    Hints(None, {}, None, None)
  }

  /** Tokens of two subjects of one tenant, one without a subject, and any other without hints. */
  function Decoded(token: string): Claims {
    Claims(None,
           if token == "t0" then Hints(Some("alice"), {}, Some("acme"), None)
           else if token == "t1" then Hints(None, {}, Some("acme"), None)
           else if token == "t2" then Hints(Some("mallory"), {}, Some("acme"), None)
           else Nobody())
  }

  function Settings(kind: P.Numerals): Config {
    Config(h => true, {}, Decoded, s => s, s => s, kind, 300, 120, true)
  }

  // ----- A refresh that forgets its subject

  function RenewableProfile(hints: Hints): Profile {
    Profile("custom", Some("p"),
            [Component("token", Header, "ref-access", "access", true),
                Component("refresh_token", Body, "ref-renew", "refresh", false)],
            Har, None, None, Refresh(true, Some("ref-template"), Some("h"), Some("$.t"), None, None), None,
                Unconfirmed(hints), Ready,
            None, {}, true, true, {})
  }

  predicate Renewable(p: Profile) {
    var q := RenewableProfile(p.identity.hints);
    p.authType == q.authType && p.components == q.components && p.refresh == q.refresh
  }

  function RenewableWorld(p: Profile, access: string): World {
    World(map["a" := Account(true, Some("authenticated_user"), Some(p))],
          map["ref-access" := Secret("a", "access", Plain(access)), "ref-renew" := Secret("a", "refresh", Plain("r")),
              "ref-template" := Secret("a", "refresh_template", Template(Obj([])))],
          [])
  }

  function AnswerWith(token: string): RefreshReply {
    Answered(200, true, Some(Obj([Member("t", Str(token))])))
  }

  lemma AnswerRead(token: string)
    ensures JsonPath(Obj([Member("t", Str(token))]), Some("$.t")) == Some(Str(token))
  {
    assert "$.t"[2..] == "t";
    Text.SplitToken("t", [], '.');
    assert ["t"][1..] == [];
    assert GetKeys(Obj([Member("t", Str(token))]), ["t"]) == GetKeys(Str(token), []);
  }

  lemma RenewableParts(p: Profile)
    requires Renewable(p)
    ensures FirstWithPurpose(p.components, "access") == Some(Component("token", Header, "ref-access", "access", true))
    ensures FirstWithPurpose(p.components, "refresh")
        == Some(Component("refresh_token", Body, "ref-renew", "refresh", false))
  {
    assert p.components[1..][0].purpose == "refresh";
  }

  /** One refresh of the example actor: refused for another identity, or carried out. */
  lemma OneRefresh(kind: P.Numerals, p: Profile, access: string, token: string, now: int)
    requires Renewable(p) && token != ""
    ensures var cfg, w := Settings(kind), RenewableWorld(p, access);
      var continuity := IdentityContinuity(p.identity.hints, Decoded(token).hints);
      var (v, result) := RefreshAuthentication(cfg, w, "a", AnswerWith(token), now);
      if continuity == OtherActor then result == RefreshRefused(IdentityChanged)
      else
        && result.Refreshed? && result.continuity == continuity
        && var q := RefreshedProfile(cfg, "a", p, Decoded(token), continuity, now);
        && v == RenewableWorld(q, token)
  {
    var cfg, w := Settings(kind), RenewableWorld(p, access);
    RenewableParts(p);
    AnswerRead(token);
    RenewableBatch(kind, p, access, token);
    hide FirstWithPurpose, JsonPath, IdentityContinuity, Decoded, PutAll, ValidBatch, RefreshedProfile, ReplaceMarker,
        RefreshEntries;
    assert Resolved(w.secrets, "ref-template", "a") == Some(Template(Obj([])));
    assert Resolved(w.secrets, "ref-renew", "a") == Some(Plain("r"));
    assert RequestBody(cfg, w, "a", p).Some?;
    assert AnswerDocument(p, AnswerWith(token)) == Some(Obj([Member("t", Str(token))]));
  }

  lemma RenewableBatch(kind: P.Numerals, p: Profile, access: string, token: string)
    requires Renewable(p) && token != ""
    ensures var w := RenewableWorld(p, access);
      var batch := RefreshEntries(Settings(kind), "a", p, Obj([Member("t", Str(token))]),
                                  Component("token", Header, "ref-access", "access", true),
                                      Component("refresh_token", Body, "ref-renew", "refresh", false), token);
      ValidBatch(batch) && PutAll(w.secrets, batch) == RenewableWorld(p, token).secrets
  {
    var e := Entry("ref-access", "a", "access", Plain(token));
    assert ValidReference("ref-access");
    assert [e][..0] == [];
    assert PutAll(RenewableWorld(p, access).secrets, [e][..0]) == RenewableWorld(p, access).secrets;
  }

  lemma BoundInRenewable(kind: P.Numerals, p: Profile, token: string, s: string)
    requires Renewable(p) && token != ""
    ensures SubjectBound(Settings(kind), RenewableWorld(p, token), "a", s)
      <==> p.identity.hints.subject == Some(s) && Decoded(token).hints.subject == Some(s)
  {
    RenewableParts(p);
    hide FirstWithPurpose, Decoded;
  }

  /** Two accepted refreshes, the first with a token that names only the tenant, move the actor and
      its credential from alice to mallory; the second token alone is refused. */
  lemma SubjectlessTokenUnbinds(kind: P.Numerals, now: int, later: int)
    ensures var cfg, p := Settings(kind), RenewableProfile(Decoded("t0").hints);
      var w := RenewableWorld(p, "t0");
      var (v, first) := RefreshAuthentication(cfg, w, "a", AnswerWith("t1"), now);
      var (u, second) := RefreshAuthentication(cfg, v, "a", AnswerWith("t2"), later);
      && SubjectBound(cfg, w, "a", "alice")
      && first.Refreshed? && second.Refreshed? && SubjectBound(cfg, u, "a", "mallory")
      && RefreshAuthentication(cfg, w, "a", AnswerWith("t2"), later).1 == RefreshRefused(IdentityChanged)
  {
    var cfg, p := Settings(kind), RenewableProfile(Decoded("t0").hints);
    var q := RefreshedProfile(cfg, "a", p, Decoded("t1"), SameActor, now);
    var r := RefreshedProfile(cfg, "a", q, Decoded("t2"), SameActor, later);
    TokenContinuity();
    StillRenewable(kind, p, Decoded("t1"), now);
    StillRenewable(kind, q, Decoded("t2"), later);
    hide Decoded, RefreshedProfile, RenewableProfile, Renewable, IdentityContinuity, RefreshAuthentication,
        SubjectBound, RenewableWorld, AnswerWith;
    OneRefresh(kind, p, "t0", "t1", now);
    OneRefresh(kind, p, "t0", "t2", later);
    OneRefresh(kind, q, "t1", "t2", later);
    BoundInRenewable(kind, p, "t0", "alice");
    BoundInRenewable(kind, r, "t2", "mallory");
  }

  lemma TokenContinuity()
    ensures var none, alice, mallory := Decoded("t1").hints, Decoded("t0").hints, Decoded("t2").hints;
      && alice.subject == Some("alice") && mallory.subject == Some("mallory")
      && IdentityContinuity(alice, none) == SameActor && IdentityContinuity(none, mallory) == SameActor
      && IdentityContinuity(alice, mallory) == OtherActor
    ensures Renewable(RenewableProfile(Decoded("t0").hints))
        && RenewableProfile(Decoded("t0").hints).identity.hints == Decoded("t0").hints
  {
  }

  lemma StillRenewable(kind: P.Numerals, p: Profile, claims: Claims, now: int)
    requires Renewable(p)
    ensures var q := RefreshedProfile(Settings(kind), "a", p, claims, SameActor, now);
      Renewable(q) && q.identity.hints == claims.hints
  {
    hide StatusForExpiration;
  }

  /** A token without any hint is accepted for alice: the record keeps her, and the stored
      credential is no longer known to be hers. */
  lemma HintlessTokenSplitsRecord(kind: P.Numerals, now: int)
    ensures var cfg := Settings(kind);
      var w := RenewableWorld(RenewableProfile(Hints(Some("alice"), {}, None, None)), "t0");
      var (v, result) := RefreshAuthentication(cfg, w, "a", AnswerWith("t3"), now);
      && SubjectBound(cfg, w, "a", "alice") && result.Refreshed? && HasProfile(v, "a")
      && ProfileOf(v, "a").identity.hints.subject == Some("alice") && !SubjectBound(cfg, v, "a", "alice")
  {
    var cfg, p := Settings(kind), RenewableProfile(Hints(Some("alice"), {}, None, None));
    var q := RefreshedProfile(cfg, "a", p, Decoded("t3"), Unknown, now);
    OneRefresh(kind, p, "t0", "t3", now);
    BoundInRenewable(kind, p, "t0", "alice");
    BoundInRenewable(kind, q, "t3", "alice");
    hide RefreshAuthentication;
  }

  // ----- References and single captures

  predicate IsPlain(s: string) {
    forall c :: c in s ==> IsReferenceChar(c)
  }

  lemma PlainConcat(s: string, t: string)
    requires IsPlain(s) && IsPlain(t)
    ensures IsPlain(s + t)
  {
  }

  lemma PlainPieces()
    ensures IsPlain("actor-auth-") && IsPlain("a") && IsPlain("-") && IsPlain("-refresh-template")
        && IsPlain("-refresh-token")
  {
  }

  lemma StartsPlain(s: string)
    requires IsPlain(s) && |s| <= 116
    ensures ValidReference("actor-auth-a" + s)
  {
    PlainPieces();
    hide IsPlain;
    PlainConcat("actor-auth-", "a");
    assert "actor-auth-" + "a" == "actor-auth-a";
    PlainConcat("actor-auth-a", s);
    PlainMeans("actor-auth-a" + s);
  }

  lemma PlainMeans(s: string)
    requires IsPlain(s)
    ensures forall c :: c in s ==> IsReferenceChar(c)
  {
  }

  lemma References(kind: P.Numerals, name: string)
    ensures TemplateReference(Settings(kind), "a") == "actor-auth-a" + "-refresh-template"
    ensures RefreshReference(Settings(kind), "a") == "actor-auth-a" + "-refresh-token"
    ensures ReferenceBase(Settings(kind), "a", name) == "actor-auth-a" + ("-" + name)
  {
    assert "actor-auth-" + "a" + "-" + name == "actor-auth-a" + ("-" + name);
  }

  lemma OneCaptured(cfg: Config, actor: string, k: Captured)
    ensures Components(cfg, actor, [k])
        == [Component(k.name, k.location, ReferenceBase(cfg, actor, k.name), k.purpose, k.purpose != "refresh")]
    ensures Entries(cfg, actor, [k]) == [Entry(ReferenceBase(cfg, actor, k.name), actor, k.purpose, Plain(k.value))]
  {
    var none: seq<Captured> := [];
    assert [k][..0] == none;
    assert CountBase(cfg, actor, none, ReferenceBase(cfg, actor, k.name)) == 0;
    assert CountBase(cfg, actor, [k], ReferenceBase(cfg, actor, k.name)) == 1;
    assert LastReference(cfg, actor, [k]) == ReferenceBase(cfg, actor, k.name);
    assert Components(cfg, actor, none) == [] && Entries(cfg, actor, none) == [];
  }

  lemma PutOne(secrets: map<string, Secret>, e: Entry)
    ensures PutAll(secrets, [e]) == PutEntry(secrets, e)
    ensures ValidBatch([e]) <==> ValidEntry(e)
  {
    assert [e][..0] == [] && PutAll(secrets, [e][..0]) == secrets;
    assert e in [e];
  }

  function HeaderCapture(name: string, value: string): Captured {
    Captured(name, value, "other", Header)
  }

  /** A capture of one header without identity hints. */
  function Capture(name: string, value: string, baseline: Option<Baseline>): AuthCandidate {
    AuthCandidate("custom_header", [HeaderCapture(name, value)], None, None, Nobody(), baseline, None, 0, Some("h"))
  }

  /** The actor's world with one profile and given secrets. */
  function Alone(p: Option<Profile>, secrets: map<string, Secret>): World {
    World(map["a" := Account(true, if p.None? then None else Some("authenticated_user"), p)], secrets, [])
  }

  /** What storing a one-header capture does to the actor without hints. */
  lemma StoreOne(kind: P.Numerals, previous: Option<Profile>, secrets: map<string, Secret>, name: string,
      value: string, baseline: Option<Baseline>, now: int)
    requires IsPlain(name) && |name| <= 100 && value != ""
    requires previous.Some? ==> previous.value.identity.hints == Nobody()
    ensures var cfg, c := Settings(kind), Capture(name, value, baseline);
      var (v, error) := StoreCandidate(cfg, Alone(previous, secrets), "a", c, Har, true, now);
      && error == None
      && v == Alone(Some(StoredProfile(cfg, "a", previous, c, Har, now)),
                    secrets["actor-auth-a" + ("-" + name) := Secret("a", "other", Plain(value))])
  {
    var cfg, c := Settings(kind), Capture(name, value, baseline);
    OneCaptured(cfg, "a", HeaderCapture(name, value));
    References(kind, name);
    PlainPieces();
    PlainConcat("-", name);
    StartsPlain("-" + name);
    PutOne(secrets, Entry("actor-auth-a" + ("-" + name), "a", "other", Plain(value)));
    hide StoredProfile, Entries, PutAll, ValidBatch, ValidReference, ReferenceBase;
  }

  // ----- Clearing leaves a secret of an earlier profile

  /** Two captures with different header names, then a clear: the first secret still resolves. */
  lemma ClearingLeavesSecret(kind: P.Numerals, now: int)
    ensures var cfg := Settings(kind);
      var first := StoreCandidate(cfg, Alone(None, map[]), "a", Capture("x", "old", None), Har, true, now).0;
      var second := StoreCandidate(cfg, first, "a", Capture("y", "new", None), Har, true, now).0;
      var cleared := ClearAuthentication(second, "a");
      cleared.1 == None && Resolved(cleared.0.secrets, "actor-auth-a" + ("-" + "x"), "a") == Some(Plain("old"))
  {
    var cfg := Settings(kind);
    var x, y := "actor-auth-a" + ("-" + "x"), "actor-auth-a" + ("-" + "y");
    var p := StoredProfile(cfg, "a", None, Capture("x", "old", None), Har, now);
    var q := StoredProfile(cfg, "a", Some(p), Capture("y", "new", None), Har, now);
    StoreOne(kind, None, map[], "x", "old", None, now);
    StoreOne(kind, Some(p), map[x := Secret("a", "other", Plain("old"))], "y", "new", None, now);
    StoredReferences(kind, p, now);
    assert x[13] == 'x' && y[13] == 'y';
    hide StoreCandidate, StoredProfile, ClearedReferences, Capture, Settings, ClearAuthentication, Alone;
    ClearKeepsOthers(q, map[x := Secret("a", "other", Plain("old")), y := Secret("a", "other", Plain("new"))], x,
        "old");
  }

  lemma ClearKeepsOthers(p: Profile, secrets: map<string, Secret>, r: string, value: string)
    requires r !in ClearedReferences(p) && Resolved(secrets, r, "a") == Some(Plain(value))
    ensures ClearAuthentication(Alone(Some(p), secrets), "a").1 == None
    ensures Resolved(ClearAuthentication(Alone(Some(p), secrets), "a").0.secrets, r, "a") == Some(Plain(value))
  {
    hide ClearedReferences;
  }

  lemma StoredReferences(kind: P.Numerals, p: Profile, now: int)
    requires p.refresh == NoRefresh()
    ensures ClearedReferences(StoredProfile(Settings(kind), "a", Some(p), Capture("y", "new", None), Har, now))
        == ["actor-auth-a" + ("-" + "y")]
  {
    OneCaptured(Settings(kind), "a", HeaderCapture("y", "new"));
    References(kind, "y");
    hide Components, ReferenceBase, StatusForExpiration;
  }

  // ----- Planning is ready although the identity has changed

  lemma PlanningHidesExample(kind: P.Numerals, now: int)
    ensures var p := RenewableProfile(Nobody()).(status := ContextChanged, expiresAt := Some(now + 60 * SECOND));
      var w := RenewableWorld(p, "t0");
      && ActorPreflight(Settings(kind), w, "a", Request(1, false, None, None, {}, {}), now).verdict == ReadyForPlanning
      && ActorPreflight(Settings(kind), w, "a", Request(1, true, None, None, {}, {}), now).verdict == BlockedByAuth
  {
    var p := RenewableProfile(Nobody()).(status := ContextChanged, expiresAt := Some(now + 60 * SECOND));
    var w := RenewableWorld(p, "t0");
    PlanningHidesStatusIff(Settings(kind), w, "a", Request(1, false, None, None, {}, {}), now);
    ExecutionNeverHidesStatus(Settings(kind), w, "a", Request(1, true, None, None, {}, {}), now);
    assert Available(w, "a", p, {});
    assert WholeSeconds(60 * SECOND) == 60;
  }

  // ----- A run that ends ready with a secret nobody checked

  const WHO := "x-actor"

  /** A capture of a header named refresh-token, with a read-only baseline that echoes the actor. */
  function EchoBaseline(): Baseline {
    Baseline("h", Some(200), Some(Id.Assertion(Id.ResponseHeader, WHO, Id.Actor(Id.AccountId), None, false)))
  }

  function Echo(): Id.Response {
    Id.Response(200, [(WHO, "a")], None, false)
  }

  /** A refresh exchange of one request member and one answer member. */
  function SmallFlow(name: string, credential: string, access: string, token: string): ObservedFlow {
    ObservedFlow(Obj([Member(name, Str(credential))]), Obj([Member(access, Str(token))]), "h", true, true, true, None)
  }

  function Flow(): ObservedFlow {
    SmallFlow("refresh_token", "unchecked", "token", "t")
  }

  function ClobberingSteps(now: int): seq<Step> {
    [Step(Store("a", Capture("refresh-token", "checked", Some(EchoBaseline())), Har, true), now),
     Step(Check("a", Some(Echo()), {}), now),
     Step(Configure("a", Flow()), now)]
  }

  lemma RunThree(cfg: Config, w: World, steps: seq<Step>)
    requires |steps| == 3
    ensures Run(cfg, w, steps[..0]) == w
    ensures Run(cfg, w, steps[..1]) == Apply(cfg, w, steps[0])
    ensures Run(cfg, w, steps[..2]) == Apply(cfg, Run(cfg, w, steps[..1]), steps[1])
    ensures Run(cfg, w, steps) == Run(cfg, w, steps[..3]) == Apply(cfg, Run(cfg, w, steps[..2]), steps[2])
  {
    hide Apply;
    assert steps[..1][..0] == steps[..0] == [];
    assert steps[..2][..1] == steps[..1];
    assert steps[..3] == steps;
  }

  function Checked(kind: P.Numerals, now: int): Profile {
    var p := StoredProfile(Settings(kind), "a", None, Capture("refresh-token", "checked", Some(EchoBaseline())), Har,
        now);
    p.(identity := p.identity.(confirmed := true, lastAssertion := Id.ConfirmedIdentity,
                               reference := Some(Id.Reference("a", Id.ResponseHeader, WHO, None, None))))
  }

  function CheckedSecrets(): map<string, Secret> {
    map["actor-auth-a" + "-refresh-token" := Secret("a", "other", Plain("checked"))]
  }

  lemma HeaderName()
    ensures IsPlain("refresh-token") && |"refresh-token"| <= 100 && "-" + "refresh-token" == "-refresh-token"
  {
  }

  lemma StoredHeader(kind: P.Numerals, now: int)
    ensures var cfg, c := Settings(kind), Capture("refresh-token", "checked", Some(EchoBaseline()));
      var p := StoredProfile(cfg, "a", None, c, Har, now);
      && p.components == [Component("refresh-token", Header, "actor-auth-a" + "-refresh-token", "other", true)]
      && p.status == Ready && p.accepted && p.scopeValidated && p.identity == Unconfirmed(Nobody())
      && p.profileRef.Some? && p.baseline == Some(EchoBaseline()) && p.source == Har
      && p.authType == "custom_header" && p.expiresAt == None
      && StoreCandidate(cfg, Alone(None, map[]), "a", c, Har, true, now).0 == Alone(Some(p), CheckedSecrets())
  {
    HeaderName();
    hide IsPlain;
    StoredHeaderState(kind, now);
    OneCaptured(Settings(kind), "a", HeaderCapture("refresh-token", "checked"));
    References(kind, "refresh-token");
    hide StoreCandidate, Components, ReferenceBase, Alone, CheckedSecrets;
  }

  lemma StoredHeaderState(kind: P.Numerals, now: int)
    ensures var cfg, c := Settings(kind), Capture("refresh-token", "checked", Some(EchoBaseline()));
      StoreCandidate(cfg, Alone(None, map[]), "a", c, Har, true, now).0
      == Alone(Some(StoredProfile(cfg, "a", None, c, Har, now)), CheckedSecrets())
  {
    HeaderName();
    hide StoreCandidate, StoredProfile, IsPlain, Alone, Capture;
    StoreOne(kind, None, map[], "refresh-token", "checked", Some(EchoBaseline()), now);
  }

  /** A stored, unexpired profile whose one secret resolves passes the planning preflight. */
  lemma PlanningReady(kind: P.Numerals, p: Profile, c: Component, secrets: map<string, Secret>, now: int)
    requires p.components == [c] && p.source == Har && p.expiresAt == None && p.status == Ready
    requires Resolved(secrets, c.reference, "a").Some?
    ensures ActorPreflight(Settings(kind), Alone(Some(p), secrets), "a", Request(1, false, None, None, {}, {}), now)
         == Preflight(Ready, true, ReadyForPlanning)
  {
    hide Resolved;
  }

  lemma CheckConfirms(kind: P.Numerals, now: int)
    ensures var cfg, p := Settings(kind),
        StoredProfile(Settings(kind), "a", None, Capture("refresh-token", "checked", Some(EchoBaseline())), Har, now);
      ValidateBaseline(cfg, Alone(Some(p), CheckedSecrets()), "a", Some(Echo()), {}, now)
      == (Alone(Some(Checked(kind, now)), CheckedSecrets()), CheckDone(true, true))
  {
    var cfg, p := Settings(kind),
        StoredProfile(Settings(kind), "a", None, Capture("refresh-token", "checked", Some(EchoBaseline())), Har, now);
    StoredHeader(kind, now);
    CapturedResolves();
    hide StoredProfile, StoreCandidate, Resolved, CheckedSecrets;
    EchoConfirms(kind, p);
    PlanningReady(kind, p, p.components[0], CheckedSecrets(), now);
    hide ActorPreflight, Id.Evaluate;
    EchoPasses(kind, p, CheckedSecrets(), now);
  }

  lemma CapturedResolves()
    ensures Resolved(CheckedSecrets(), "actor-auth-a" + "-refresh-token", "a") == Some(Plain("checked"))
  {
  }

  lemma EchoPasses(kind: P.Numerals, p: Profile, secrets: map<string, Secret>, now: int)
    requires p.profileRef.Some? && p.baseline == Some(EchoBaseline()) && p.authType != "none"
    requires p.status == Ready && p.accepted && p.scopeValidated && p.identity == Unconfirmed(Nobody())
    requires ActorPreflight(Settings(kind), Alone(Some(p), secrets), "a", Request(1, false, None, None, {}, {}), now)
          == Preflight(Ready, true, ReadyForPlanning)
    requires Id.Evaluate(EchoBaseline().assertion, FactsOf("a", p), Echo(), kind, Settings(kind).lower)
          == Id.Outcome(true, Id.ConfirmedIdentity, Some(Id.Reference("a", Id.ResponseHeader, WHO, None, None)))
    ensures ValidateBaseline(Settings(kind), Alone(Some(p), secrets), "a", Some(Echo()), {}, now)
         == (Alone(Some(p.(identity := p.identity.(confirmed := true, lastAssertion := Id.ConfirmedIdentity,
                             reference := Some(Id.Reference("a", Id.ResponseHeader, WHO, None, None))))), secrets),
                                 CheckDone(true, true))
  {
    var identity := p.identity.(confirmed := true, lastAssertion := Id.ConfirmedIdentity,
                                reference := Some(Id.Reference("a", Id.ResponseHeader, WHO, None, None)));
    SetAlone(p, p.(identity := identity), secrets);
    hide ActorPreflight, Id.Evaluate, Alone, SetProfile;
    AloneHas(p, secrets);
  }

  lemma SetAlone(p: Profile, q: Profile, secrets: map<string, Secret>)
    ensures SetProfile(Alone(Some(p), secrets), "a", q) == Alone(Some(q), secrets)
  {
    assert SetProfile(Alone(Some(p), secrets), "a", q).accounts == Alone(Some(q), secrets).accounts;
  }

  lemma EchoConfirms(kind: P.Numerals, p: Profile)
    ensures Id.Evaluate(EchoBaseline().assertion, FactsOf("a", p), Echo(), kind, Settings(kind).lower)
         == Id.Outcome(true, Id.ConfirmedIdentity, Some(Id.Reference("a", Id.ResponseHeader, WHO, None, None)))
  {
    assert Echo().headers[1..] == [];
    assert Id.HeaderValues(Echo().headers[1..], WHO, Settings(kind).lower) == [];
    assert Id.HeaderValues(Echo().headers, WHO, Settings(kind).lower) == ["a"];
  }

  lemma OneLeaf(name: string, value: string, lower: string -> string, names: set<string>)
    requires IsClean(name) && lower(name) == name && name in names && value != ""
    ensures LeafPaths(Obj([Member(name, Str(value))]), "$") == [("$." + name, Str(value))]
    ensures LastPart("$." + name) == name
    ensures FirstNamed(LeafPaths(Obj([Member(name, Str(value))]), "$"), names, lower) == Some(("$." + name, value))
    ensures SetJsonPath(Obj([Member(name, Str(value))]), "$." + name, Str(MARKER)).Some?
  {
    var members, q := [Member(name, Str(value))], [P.Key(name)];
    assert members[1..] == [] && q[1..] == [];
    assert MemberPaths(members[1..], "$") == [];
    assert "$" + "." + name == "$." + name == "$" + Spelled(q);
    assert LeafPaths(members[0].value, "$." + name) == [("$." + name, Str(value))];
    Text.SplitToken("$", name, '.');
    Text.SplitToken(name, [], '.');
    assert "$" + ['.'] + name == "$." + name;
    assert P.At(Obj(members), q) == P.At(Str(value), []);
    ListedPathIsSettable(Obj(members), q, Str(MARKER));
  }

  lemma FlowBatchIsValid(kind: P.Numerals, template: Json, token: string)
    requires token != ""
    ensures ValidBatch(FlowBatch(Settings(kind), "a", template, token))
  {
    References(kind, "");
    PlainPieces();
    StartsPlain("-refresh-template");
    StartsPlain("-refresh-token");
    hide TemplateReference, RefreshReference, IsPlain, ValidReference;
  }

  /** A small flow is configured when its two members have fitting names. */
  lemma SmallFlowConfigures(kind: P.Numerals, p: Profile, secrets: map<string, Secret>, name: string,
      credential: string, access: string, token: string)
    requires IsConfigured(Some(p))
    requires IsClean(name) && name in REFRESH_NAMES && name !in FORBIDDEN_NAMES && credential != ""
    requires IsClean(access) && access in ACCESS_NAMES && token != ""
    ensures var cfg, flow := Settings(kind), SmallFlow(name, credential, access, token);
      && ConfigureRefresh(cfg, Alone(Some(p), secrets), "a", flow).1 == None
      && FirstNamed(LeafPaths(flow.requestBody, "$"), REFRESH_NAMES, cfg.lower) == Some(("$." + name, credential))
  {
    var cfg, flow := Settings(kind), SmallFlow(name, credential, access, token);
    OneLeaf(name, credential, cfg.lower, REFRESH_NAMES);
    OneLeaf(access, token, cfg.lower, ACCESS_NAMES);
    AloneHas(p, secrets);
    hide LeafPaths, FirstNamed, SetJsonPath, LastPart, ValidBatch, FlowBatch, IsConfigured, Alone, IsClean,
        ConfigureRefresh;
    FlowBatchIsValid(kind, SetJsonPath(flow.requestBody, "$." + name, Str(MARKER)).value, credential);
    Configures(cfg, Alone(Some(p), secrets), "a", flow, "$." + name, credential);
  }

  /** What it takes for a flow to be configured. */
  lemma Configures(cfg: Config, w: World, actor: string, flow: ObservedFlow, path: string, credential: string)
    requires forall leaf :: leaf in LeafPaths(flow.requestBody, "$") ==> cfg.lower(LastPart(leaf.0)) !in FORBIDDEN_NAMES
    requires FirstNamed(LeafPaths(flow.requestBody, "$"), REFRESH_NAMES, cfg.lower) == Some((path, credential))
    requires FirstNamed(LeafPaths(flow.responseBody, "$"), ACCESS_NAMES, cfg.lower).Some?
    requires SetJsonPath(flow.requestBody, path, Str(MARKER)).Some?
    requires ValidBatch(FlowBatch(cfg, actor, SetJsonPath(flow.requestBody, path, Str(MARKER)).value, credential))
    requires actor in w.accounts && IsConfigured(w.accounts[actor].profile)
    requires flow.safeUrl && cfg.covered(flow.host) && flow.safeHeaders && flow.validPort
    ensures ConfigureRefresh(cfg, w, actor, flow).1 == None
  {
    hide LeafPaths, FirstNamed, SetJsonPath, LastPart, ValidBatch, TemplateReference, RefreshReference, PutAll,
        WithRefreshComponent, IsConfigured;
  }

  lemma FlowConfigures(kind: P.Numerals, p: Profile, secrets: map<string, Secret>)
    requires IsConfigured(Some(p))
    ensures ConfigureRefresh(Settings(kind), Alone(Some(p), secrets), "a", Flow()).1 == None
    ensures FirstNamed(LeafPaths(Flow().requestBody, "$"), REFRESH_NAMES, Settings(kind).lower)
        == Some(("$." + "refresh_token", "unchecked"))
  {
    FlowNames();
    hide IsConfigured, IsClean, ConfigureRefresh, LeafPaths, FirstNamed, SmallFlow, Alone;
    SmallFlowConfigures(kind, p, secrets, "refresh_token", "unchecked", "token", "t");
  }

  lemma FlowNames()
    ensures IsClean("refresh_token") && "refresh_token" in REFRESH_NAMES && "refresh_token" !in FORBIDDEN_NAMES
    ensures IsClean("token") && "token" in ACCESS_NAMES
  {
  }

  lemma CheckedIsReady(kind: P.Numerals, now: int)
    ensures var w := Alone(Some(Checked(kind, now)), CheckedSecrets());
      && ActorPreflight(Settings(kind), w, "a", Request(1, true, None, None, {}, {}), now)
          == Preflight(Ready, true, ReadyForExecution)
      && Sound(w, "a") && ReplayRefs(Checked(kind, now)) == {"actor-auth-a" + "-refresh-token"}
      && Resolved(w.secrets, "actor-auth-a" + "-refresh-token", "a") == Some(Plain("checked"))
  {
    StoredHeader(kind, now);
    hide StoredProfile, StoreCandidate;
    var p := Checked(kind, now);
    assert p.components[0] in p.components;
  }

  /** Store a captured refresh-token header, confirm it with a check, configure a refresh flow: the
      actor is ready for execution, and for no check of the run is the secret that execution replays
      still the one that was checked. */
  lemma ClobberingRun(kind: P.Numerals, now: int)
    ensures var cfg, w, steps := Settings(kind), Alone(None, map[]), ClobberingSteps(now);
      var final := Run(cfg, w, steps);
      && Unverified(w, "a")
      && ActorPreflight(cfg, final, "a", Request(1, true, None, None, {}, {}), now).Preflight?
      && ActorPreflight(cfg, final, "a", Request(1, true, None, None, {}, {}), now).verdict == ReadyForExecution
      && Confirms(cfg, Run(cfg, w, steps[..1]), steps[1], "a")
      && !exists i ::
          0 <= i < 3 && Confirms(cfg, Run(cfg, w, steps[..i]), steps[i], "a")
              && SameCredential(Run(cfg, w, steps[..i + 1]), final, "a")
  {
    var cfg, w, steps := Settings(kind), Alone(None, map[]), ClobberingSteps(now);
    ClobberingStates(kind, now);
    ClobberedEnd(kind, now);
    AloneUnverified();
    hide Run, ActorPreflight, ConfigureRefresh, Checked, SameCredential, Alone, CheckedSecrets, Unverified,
        ValidateBaseline;
    forall i | 0 <= i < 3 && Confirms(cfg, Run(cfg, w, steps[..i]), steps[i], "a") ensures i == 1 {
    }
  }

  lemma ClobberingStates(kind: P.Numerals, now: int)
    ensures var cfg, w, steps := Settings(kind), Alone(None, map[]), ClobberingSteps(now);
      var checked := Alone(Some(Checked(kind, now)), CheckedSecrets());
      && Run(cfg, w, steps[..2]) == checked
      && Confirms(cfg, Run(cfg, w, steps[..1]), steps[1], "a")
      && Run(cfg, w, steps) == ConfigureRefresh(cfg, checked, "a", Flow()).0
  {
    var cfg, w, steps := Settings(kind), Alone(None, map[]), ClobberingSteps(now);
    RunThree(cfg, w, steps);
    StoredHeader(kind, now);
    CheckConfirms(kind, now);
    hide Run, Apply, StoreCandidate, ValidateBaseline, ConfigureRefresh, StoredProfile, Checked, Alone,
        CheckedSecrets, Capture, Echo, Flow, Settings, EchoBaseline;
    ApplyEach(cfg, w, steps[0]);
    ApplyEach(cfg, Run(cfg, w, steps[..1]), steps[1]);
    ApplyEach(cfg, Run(cfg, w, steps[..2]), steps[2]);
  }

  lemma ApplyEach(cfg: Config, w: World, step: Step)
    ensures step.action.Store? ==>
      Apply(cfg, w, step) == StoreCandidate(cfg, w, step.action.actor, step.action.candidate, step.action.source,
          step.action.renewal, step.now).0
    ensures step.action.Check? ==>
      Apply(cfg, w, step) == ValidateBaseline(cfg, w, step.action.actor, step.action.response,
          step.action.environment, step.now).0
    ensures step.action.Configure? ==>
        Apply(cfg, w, step) == ConfigureRefresh(cfg, w, step.action.actor, step.action.flow).0
  {
    hide StoreCandidate, ValidateBaseline, ConfigureRefresh;
  }

  lemma ClobberedEnd(kind: P.Numerals, now: int)
    ensures var cfg, checked, request := Settings(kind), Alone(Some(Checked(kind, now)), CheckedSecrets()),
        Request(1, true, None, None, {}, {});
      var final := ConfigureRefresh(cfg, checked, "a", Flow()).0;
      && ActorPreflight(cfg, final, "a", request, now).Preflight?
      && ActorPreflight(cfg, final, "a", request, now).verdict == ReadyForExecution
      && !SameCredential(checked, final, "a")
  {
    CheckedIsReady(kind, now);
    CheckedIsConfigured(kind, now);
    FlowConfigures(kind, Checked(kind, now), CheckedSecrets());
    References(kind, "");
    AloneHas(Checked(kind, now), CheckedSecrets());
    ReferencesDiffer();
    hide ConfigureRefresh, ActorPreflight, Checked, Sound, SameCredential, LeafPaths, FirstNamed, TemplateReference,
        RefreshReference, ReplayRefs, Alone, CheckedSecrets, Flow, Settings, IsConfigured, Resolved, HasProfile,
            IsAnonymous, ReferenceBase;
    ClobberedActorStaysReady(Settings(kind), Alone(Some(Checked(kind, now)), CheckedSecrets()), "a", Flow(),
                             Request(1, true, None, None, {}, {}), now);
  }

  lemma ReferencesDiffer()
    ensures "actor-auth-a" + "-refresh-template" != "actor-auth-a" + "-refresh-token"
    ensures Plain("checked") != Plain("unchecked")
  {
    assert |"actor-auth-a" + "-refresh-template"| != |"actor-auth-a" + "-refresh-token"|;
  }

  lemma AloneHas(p: Profile, secrets: map<string, Secret>)
    ensures var w := Alone(Some(p), secrets);
      HasProfile(w, "a") && ProfileOf(w, "a") == p && !IsAnonymous(w.accounts["a"])
  {
  }

  lemma AloneUnverified()
    ensures Unverified(Alone(None, map[]), "a")
  {
  }

  lemma CheckedIsConfigured(kind: P.Numerals, now: int)
    ensures IsConfigured(Some(Checked(kind, now)))
  {
    StoredHeader(kind, now);
    hide StoredProfile, StoreCandidate;
  }

  // ----- A configured flow with a dotted key

  /** A flow whose request has the dotted body; the answer is small. */
  function DottedFlow(outer: string, inner: string, x: string, y: string): ObservedFlow {
    ObservedFlow(DottedBody(outer, inner, x, y), Obj([Member("token", Str("t"))]), "h", true, true, true, None)
  }

  lemma DottedConfigures(kind: P.Numerals, p: Profile, secrets: map<string, Secret>, outer: string, inner: string,
      x: string, y: string)
    requires IsConfigured(Some(p)) && IsClean(outer) && IsClean(inner) && inner in REFRESH_NAMES
        && inner !in FORBIDDEN_NAMES
    requires x != y && x != MARKER && x != ""
    ensures ConfigureRefresh(Settings(kind), Alone(Some(p), secrets), "a", DottedFlow(outer, inner, x, y)).1 == None
  {
    var cfg, flow, path := Settings(kind), DottedFlow(outer, inner, x, y), "$" + ("." + outer + "." + inner);
    DottedNames(kind, outer, inner, x, y);
    FlowNames();
    OneLeaf("token", "t", cfg.lower, ACCESS_NAMES);
    DottedKeyExample(outer, inner, x, y);
    AloneHas(p, secrets);
    hide LeafPaths, SetJsonPath, LastPart, ValidBatch, FlowBatch, IsConfigured, Alone, IsClean, ConfigureRefresh,
        DottedBody, FirstNamed;
    FlowBatchIsValid(kind, SetJsonPath(flow.requestBody, path, Str(MARKER)).value, x);
    Configures(cfg, Alone(Some(p), secrets), "a", flow, path, x);
  }

  lemma DottedNames(kind: P.Numerals, outer: string, inner: string, x: string, y: string)
    requires IsClean(outer) && IsClean(inner) && inner in REFRESH_NAMES && inner !in FORBIDDEN_NAMES && x != ""
    ensures var cfg, leaves := Settings(kind), LeafPaths(DottedBody(outer, inner, x, y), "$");
      && FirstNamed(leaves, REFRESH_NAMES, cfg.lower) == Some(("$" + ("." + outer + "." + inner), x))
      && forall leaf :: leaf in leaves ==> cfg.lower(LastPart(leaf.0)) !in FORBIDDEN_NAMES
  {
    DottedListing(outer, inner, x, y);
    DottedLastPart(outer, inner);
    hide LeafPaths, LastPart, IsClean, DottedBody;
  }

  /** From a world that exists: the flow is configured, and what a refresh then sends is not the body
      that was observed. */
  lemma DottedFlowRun(kind: P.Numerals)
    ensures var cfg, w := Settings(kind), Alone(Some(RenewableProfile(Nobody())), map[]);
      var flow := DottedFlow("a", "refresh_token", "X", "Y");
      var (v, error) := ConfigureRefresh(cfg, w, "a", flow);
      && error == None && HasProfile(v, "a")
      && RequestBody(cfg, v, "a", ProfileOf(v, "a")).Some?
          && RequestBody(cfg, v, "a", ProfileOf(v, "a")) != Some(flow.requestBody)
  {
    var cfg, w := Settings(kind), Alone(Some(RenewableProfile(Nobody())), map[]);
    FlowNames();
    NotTheMarker();
    assert IsClean("a");
    hide IsClean, ConfigureRefresh, RequestBody, DottedBody, Alone;
    DottedConfigures(kind, RenewableProfile(Nobody()), map[], "a", "refresh_token", "X", "Y");
    DottedFlowExample(cfg, w, "a", DottedFlow("a", "refresh_token", "X", "Y"), "a", "refresh_token", "X", "Y");
    RefreshSendsObservedBody(cfg, w, "a", DottedFlow("a", "refresh_token", "X", "Y"));
  }

  lemma NotTheMarker()
    ensures "X" != "Y" && "X" != MARKER && "X" != ""
  {
    assert |MARKER| > 1;
  }
}
