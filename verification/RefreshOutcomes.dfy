/** What a refresh and the configuration of its flow amount to, in plain terms. */
module RefreshOutcomes {
  import opened Domain
  import opened Json
  import opened SecretStores
  import opened RefreshTemplate
  import opened Authentication
  import opened AuthRuns
  import opened AuthLimits
  import opened AuthOutcomes
  import Text

  // ----- A refresh

  predicate IsFirstAt(components: seq<Component>, purpose: string, c: Component, i: nat) {
    i < |components| && components[i] == c && forall k :: 0 <= k < i ==> components[k].purpose != purpose
  }

  /** The first component with a purpose, and none exactly when there is none. */
  lemma {:induction false} FirstWithPurposeMeans(components: seq<Component>, purpose: string)
    ensures var first := FirstWithPurpose(components, purpose);
      && (first.None? <==> forall i :: 0 <= i < |components| ==> components[i].purpose != purpose)
      && (first.Some? ==>
          first.value.purpose == purpose && exists i: nat :: IsFirstAt(components, purpose, first.value, i))
  {
    if components != [] && components[0].purpose != purpose {
      FirstWithPurposeMeans(components[1..], purpose);
      var rest := FirstWithPurpose(components[1..], purpose);
      if rest.Some? {
        var i: nat :| IsFirstAt(components[1..], purpose, rest.value, i);
        assert components[i + 1] == rest.value;
        forall k | 0 <= k < i + 1 ensures components[k].purpose != purpose {
          if k > 0 {
            assert components[1..][k - 1] == components[k];
          }
        }
        assert IsFirstAt(components, purpose, rest.value, i + 1);
      } else {
        forall k | 0 <= k < |components| ensures components[k].purpose != purpose {
          if k > 0 {
            assert components[1..][k - 1] == components[k];
          }
        }
      }
    } else if components != [] {
      assert IsFirstAt(components, purpose, components[0], 0);
    }
  }

  /** A non-empty text at a recorded path of the answer. */
  predicate HasText(document: Json, path: Option<string>, x: string) {
    x != "" && JsonPath(document, path) == Some(Str(x))
  }

  /** The answer that was accepted: the observed status if one was recorded, the right type, and a
      document with the access token. */
  lemma AcceptedAnswer(cfg: Config, w: World, actor: string, reply: RefreshReply, now: int) returns (token: string)
    requires RefreshAuthentication(cfg, w, actor, reply, now).1.Refreshed?
    ensures HasProfile(w, actor) && reply.Answered? && reply.typeMatches && reply.document.Some?
    ensures var p := ProfileOf(w, actor);
      && (p.refresh.expectedStatus.Some? ==> reply.status == p.refresh.expectedStatus.value)
      && HasText(reply.document.value, p.refresh.accessPath, token)
      && p.refresh.configured && p.refresh.endpoint.Some? && cfg.covered(p.refresh.endpoint.value)
      && FirstWithPurpose(p.components, "access").Some? && FirstWithPurpose(p.components, "refresh").Some?
      && IdentityContinuity(p.identity.hints, cfg.decode(token).hints) != OtherActor
      && RefreshAuthentication(cfg, w, actor, reply, now).1.continuity
         == IdentityContinuity(p.identity.hints, cfg.decode(token).hints)
  {
    hide RequestBody, JsonPath, FirstWithPurpose, StatusForExpiration, RevokeAll, PutAll, ValidBatch,
        IdentityContinuity, RefreshEntries, RefreshedProfile;
    var p := ProfileOf(w, actor);
    token := JsonPath(reply.document.value, p.refresh.accessPath).value.s;
  }

  function Holding(secrets: map<string, Secret>, reference: string): Option<Secret> {
    if reference in secrets then Some(secrets[reference]) else None
  }

  /** The secrets after an accepted refresh: the access reference holds the new token, with the bearer
      prefix for a bearer profile's Authorization header; the renewal reference holds the rotated
      token if the answer carries one and otherwise what it held; every other reference is as it
      was. */
  lemma RefreshedSecretsMean(cfg: Config, w: World, actor: string, reply: RefreshReply, now: int, token: string)
    requires RefreshAuthentication(cfg, w, actor, reply, now).1.Refreshed?
    requires HasProfile(w, actor) && SeparateReferences(w, actor)
    requires reply.Answered? && reply.document.Some?
    requires HasText(reply.document.value, ProfileOf(w, actor).refresh.accessPath, token)
    requires FirstWithPurpose(ProfileOf(w, actor).components, "access").Some?
    requires FirstWithPurpose(ProfileOf(w, actor).components, "refresh").Some?
    ensures var v, p := RefreshAuthentication(cfg, w, actor, reply, now).0, ProfileOf(w, actor);
      var access := FirstWithPurpose(p.components, "access").value;
      var renewal := FirstWithPurpose(p.components, "refresh").value;
      var bearer := p.authType in {"bearer", "bearer_jwt"} && cfg.lower(access.name) == "authorization";
      && Holding(v.secrets, access.reference) ==
           Some(Secret(actor, "access", Plain(if bearer then "Bearer " + token else token)))
      && (forall x :: HasText(reply.document.value, p.refresh.refreshPath, x) ==>
           Holding(v.secrets, renewal.reference) == Some(Secret(actor, "refresh", Plain(x)))
           && Resolved(v.secrets, renewal.reference, actor) == Some(Plain(x)))
      && ((forall x :: !HasText(reply.document.value, p.refresh.refreshPath, x)) ==>
           Holding(v.secrets, renewal.reference) == Holding(w.secrets, renewal.reference))
      && forall r :: r != access.reference && r != renewal.reference ==> Holding(v.secrets, r) == Holding(w.secrets, r)
  {
    var v, p := RefreshAuthentication(cfg, w, actor, reply, now).0, ProfileOf(w, actor);
    var access := FirstWithPurpose(p.components, "access").value;
    var renewal := FirstWithPurpose(p.components, "refresh").value;
    var batch := RefreshEntries(cfg, actor, p, reply.document.value, access, renewal, token);
    RefreshWrites(cfg, w, actor, reply, now, token);
    hide RefreshAuthentication, FirstWithPurpose, JsonPath, PutAll, ValidBatch;
    var next := JsonPath(reply.document.value, p.refresh.refreshPath);
    if IsText(next) {
      assert HasText(reply.document.value, p.refresh.refreshPath, next.value.s);
      TwoEntries(w.secrets, batch);
    } else {
      OneEntry(w.secrets, batch);
    }
  }

  lemma RefreshWrites(cfg: Config, w: World, actor: string, reply: RefreshReply, now: int, token: string)
    requires RefreshAuthentication(cfg, w, actor, reply, now).1.Refreshed?
    requires HasProfile(w, actor) && reply.Answered? && reply.document.Some?
    requires HasText(reply.document.value, ProfileOf(w, actor).refresh.accessPath, token)
    requires FirstWithPurpose(ProfileOf(w, actor).components, "access").Some?
    requires FirstWithPurpose(ProfileOf(w, actor).components, "refresh").Some?
    ensures var p := ProfileOf(w, actor);
      RefreshAuthentication(cfg, w, actor, reply, now).0.secrets
      == PutAll(w.secrets,
          RefreshEntries(cfg, actor, p, reply.document.value, FirstWithPurpose(p.components, "access").value,
                                          FirstWithPurpose(p.components, "refresh").value, token))
  {
    hide RequestBody, JsonPath, FirstWithPurpose, StatusForExpiration, RevokeAll, PutAll, ValidBatch,
        IdentityContinuity, RefreshEntries, RefreshedProfile;
  }

  lemma OneEntry(secrets: map<string, Secret>, batch: seq<Entry>)
    requires |batch| == 1
    ensures PutAll(secrets, batch)
        == secrets[batch[0].reference := Secret(batch[0].actor, batch[0].kind, batch[0].value)]
  {
    assert batch[..0] == [];
    assert PutAll(secrets, batch[..0]) == secrets;
  }

  lemma TwoEntries(secrets: map<string, Secret>, batch: seq<Entry>)
    requires |batch| == 2
    ensures PutAll(secrets, batch) ==
      secrets[batch[0].reference := Secret(batch[0].actor, batch[0].kind, batch[0].value)]
             [batch[1].reference := Secret(batch[1].actor, batch[1].kind, batch[1].value)]
  {
    OneEntry(secrets, batch[..1]);
    assert batch[..1][0] == batch[0];
  }

  /** The profile after an accepted refresh. */
  lemma RefreshedProfileMeans(cfg: Config, w: World, actor: string, reply: RefreshReply, now: int, token: string)
    requires RefreshAuthentication(cfg, w, actor, reply, now).1.Refreshed?
    requires HasProfile(w, actor) && reply.Answered? && reply.document.Some?
    requires HasText(reply.document.value, ProfileOf(w, actor).refresh.accessPath, token)
    ensures var (v, result) := RefreshAuthentication(cfg, w, actor, reply, now);
      && HasProfile(v, actor)
      && var p, q, claims := ProfileOf(w, actor), ProfileOf(v, actor), cfg.decode(token);
      && q.components == p.components && q.refresh == p.refresh && q.authType == p.authType && q.baseline == p.baseline
      && q.expiresAt == claims.expiresAt && !q.accepted && !q.scopeValidated
      && (result.continuity == SameActor ==>
           && q.identity.hints == claims.hints && !q.identity.confirmed && v.plans == w.plans
           && q.context == Some(ContextKey(actor, p.authType, claims.hints, p.targetHosts))
           && (q.status == Expired <==> claims.expiresAt.Some? && claims.expiresAt.value <= now)
           && (q.status == ExpiringSoon <==>
                claims.expiresAt.Some? && now < claims.expiresAt.value <= now + cfg.soonSeconds * 1_000_000)
           && q.status in {Expired, ExpiringSoon, AvailableNotValidated})
      && (result.continuity != SameActor ==>
           q.identity == p.identity && q.context == p.context && q.status == ContextChanged
               && v.plans == RevokeAll(w.plans))
  {
    hide RequestBody, JsonPath, FirstWithPurpose, RevokeAll, PutAll, ValidBatch, IdentityContinuity, RefreshEntries;
  }

  /** A failed answer marks the profile; a refresh that was not sent changes nothing. */
  lemma FailedRefreshMeans(cfg: Config, w: World, actor: string, reply: RefreshReply, now: int)
    ensures var (v, result) := RefreshAuthentication(cfg, w, actor, reply, now);
      && v.secrets == (if result.Refreshed? then v.secrets else w.secrets)
      && (result == RefreshRefused(RefreshRejected) ==>
           && HasProfile(w, actor) && HasProfile(v, actor) && v.plans == w.plans
           && ProfileOf(v, actor) == ProfileOf(w, actor).(status := RefreshFailed))
      && (result.RefreshRefused? && result.error != RefreshRejected && result.error != IdentityChanged ==> v == w)
  {
    hide RequestBody, AnswerDocument, JsonPath, FirstWithPurpose, StatusForExpiration, RevokeAll, PutAll, ValidBatch,
        IdentityContinuity, RefreshEntries, RefreshedProfile;
  }

  /** When an answer is rejected: it is no answer, has another status or type, is no document, carries no
      access token, or there is no access component. */
  lemma RejectedIff(cfg: Config, w: World, actor: string, reply: RefreshReply, now: int)
    requires HasProfile(w, actor) && RequestBody(cfg, w, actor, ProfileOf(w, actor)).Some?
    requires var p := ProfileOf(w, actor);
      p.refresh.configured && p.refresh.endpoint.Some? && p.refresh.templateRef.Some?
          && cfg.covered(p.refresh.endpoint.value)
    requires !reply.Unroutable?
    ensures RefreshAuthentication(cfg, w, actor, reply, now).1 == RefreshRefused(RefreshRejected) <==>
      var p := ProfileOf(w, actor);
      || reply.Dropped?
      || !reply.typeMatches || reply.document.None?
      || (p.refresh.expectedStatus.Some? && reply.status != p.refresh.expectedStatus.value)
      || (forall x :: !HasText(reply.document.value, p.refresh.accessPath, x))
      || FirstWithPurpose(p.components, "access").None?
  {
    hide RequestBody, JsonPath, FirstWithPurpose, StatusForExpiration, RevokeAll, PutAll, ValidBatch,
        IdentityContinuity, RefreshEntries, RefreshedProfile;
    if reply.Answered? && reply.document.Some? {
      var found := JsonPath(reply.document.value, ProfileOf(w, actor).refresh.accessPath);
      if IsText(found) {
        assert HasText(reply.document.value, ProfileOf(w, actor).refresh.accessPath, found.value.s);
      }
    }
  }

  /** The next refresh sends the stored template with the rotated token where the marker stands. */
  lemma NextRefreshSendsRotated(cfg: Config, w: World, actor: string, reply: RefreshReply, now: int, x: string,
      template: Json, again: RefreshReply, later: int)
    requires RefreshAuthentication(cfg, w, actor, reply, now).1.Refreshed?
    requires HasProfile(w, actor) && SeparateReferences(w, actor)
    requires reply.Answered? && reply.document.Some?
    requires HasText(reply.document.value, ProfileOf(w, actor).refresh.refreshPath, x)
    requires var p := ProfileOf(w, actor);
      && p.refresh.templateRef.Some?
          && Resolved(w.secrets, p.refresh.templateRef.value, actor) == Some(Template(template))
      && (forall i :: 0 <= i < |p.components| ==> p.components[i].reference != p.refresh.templateRef.value)
    requires var v := RefreshAuthentication(cfg, w, actor, reply, now).0;
      RefreshAuthentication(cfg, v, actor, again, later).1.Refreshed?
    ensures var v := RefreshAuthentication(cfg, w, actor, reply, now).0;
      RefreshAuthentication(cfg, v, actor, again, later).1.body == ReplaceMarker(template, x)
  {
    var token := AcceptedAnswer(cfg, w, actor, reply, now);
    var v := RefreshAuthentication(cfg, w, actor, reply, now).0;
    var p := ProfileOf(w, actor);
    RefreshedSecretsMean(cfg, w, actor, reply, now, token);
    RefreshedProfileMeans(cfg, w, actor, reply, now, token);
    FirstWithPurposeMeans(p.components, "access");
    FirstWithPurposeMeans(p.components, "refresh");
    SentBody(cfg, v, actor, again, later);
    hide RefreshAuthentication, FirstWithPurpose, JsonPath, ReplaceMarker, HasText;
    var kept := p.refresh.templateRef.value;
    assert Holding(v.secrets, kept) == Holding(w.secrets, kept);
  }

  lemma SentBody(cfg: Config, w: World, actor: string, reply: RefreshReply, now: int)
    requires RefreshAuthentication(cfg, w, actor, reply, now).1.Refreshed?
    ensures HasProfile(w, actor)
    ensures RequestBody(cfg, w, actor, ProfileOf(w, actor))
        == Some(RefreshAuthentication(cfg, w, actor, reply, now).1.body)
  {
    hide RequestBody, AnswerDocument, JsonPath, FirstWithPurpose, StatusForExpiration, RevokeAll, PutAll, ValidBatch,
        IdentityContinuity, RefreshEntries, RefreshedProfile;
  }

  // ----- Configuring a flow

  predicate NamedIn(path: string, names: set<string>, lower: string -> string) {
    lower(LastPart(path)) in names
  }

  /** The first of the leaves that has a wanted name and is a non-empty text. */
  lemma {:induction false} FirstNamedMeans(leaves: seq<(string, Json)>, names: set<string>, lower: string -> string)
    ensures var found := FirstNamed(leaves, names, lower);
      && (found.None? <==> forall i :: 0 <= i < |leaves| && NamedIn(leaves[i].0, names, lower) ==>
           !leaves[i].1.Str? || leaves[i].1.s == "")
      && (found.Some? ==> exists i ::
           0 <= i < |leaves| && leaves[i] == (found.value.0, Str(found.value.1))
               && IsFirstNamed(leaves, names, lower, i))
  {
    hide LastPart;
    if leaves != [] && !(NamedIn(leaves[0].0, names, lower) && leaves[0].1.Str? && leaves[0].1.s != "") {
      FirstNamedMeans(leaves[1..], names, lower);
      var rest := FirstNamed(leaves[1..], names, lower);
      hide NamedIn;
      assert forall i :: 0 < i < |leaves| ==> leaves[i] == leaves[1..][i - 1];
      if rest.Some? {
        var i :| 0 <= i < |leaves[1..]| && leaves[1..][i] == (rest.value.0, Str(rest.value.1))
            && IsFirstNamed(leaves[1..], names, lower, i);
        assert leaves[i + 1] == leaves[1..][i];
        assert IsFirstNamed(leaves, names, lower, i + 1);
      }
    } else if leaves != [] {
      assert IsFirstNamed(leaves, names, lower, 0);
    }
  }

  predicate IsFirstNamed(leaves: seq<(string, Json)>, names: set<string>, lower: string -> string, i: nat)
    requires i < |leaves|
  {
    && NamedIn(leaves[i].0, names, lower) && leaves[i].1.Str? && leaves[i].1.s != ""
    && forall k :: 0 <= k < i && NamedIn(leaves[k].0, names, lower) ==> !leaves[k].1.Str? || leaves[k].1.s == ""
  }

  /** The names that count. */
  lemma NamesMean()
    ensures REFRESH_NAMES == {"refresh_token"} + {"refreshtoken"}
    ensures ACCESS_NAMES == {"access_token"} + {"accesstoken"} + {"token"}
    ensures FORBIDDEN_NAMES == {"password"} + {"otp"} + {"mfa"} + {"captcha"} + {"verification_code"}
  {
  }

  /** A configured flow: its record, its components, its secrets and nothing else. */
  lemma ConfiguredMeans(cfg: Config, w: World, actor: string, flow: ObservedFlow)
    requires ConfigureRefresh(cfg, w, actor, flow).1 == None
    ensures HasProfile(w, actor) && HasProfile(ConfigureRefresh(cfg, w, actor, flow).0, actor)
    ensures var v := ConfigureRefresh(cfg, w, actor, flow).0;
      var p, q := ProfileOf(w, actor), ProfileOf(v, actor);
      var base := "actor-auth-" + cfg.slug(actor);
      var credential := FirstNamed(LeafPaths(flow.requestBody, "$"), {"refresh_token", "refreshtoken"}, cfg.lower);
      var access := FirstNamed(LeafPaths(flow.responseBody, "$"), {"access_token", "accesstoken", "token"}, cfg.lower);
      var renewed := FirstNamed(LeafPaths(flow.responseBody, "$"), {"refresh_token", "refreshtoken"}, cfg.lower);
      && credential.Some? && access.Some?
      && q == p.(components := q.components, refresh := q.refresh)
      && (forall c :: c in q.components <==>
           (c in p.components && c.purpose != "refresh")
           || c == Component("refresh_token", Body, base + "-refresh-token", "refresh", false))
      && q.refresh.configured && q.refresh.templateRef == Some(base + "-refresh-template")
      && q.refresh.endpoint == Some(flow.host) && q.refresh.expectedStatus == flow.status
      && q.refresh.accessPath == Some(access.value.0)
      && q.refresh.refreshPath == (if renewed.Some? then Some(renewed.value.0) else None)
      && cfg.covered(flow.host) && flow.safeUrl && flow.safeHeaders && flow.validPort
      && v.plans == w.plans
  {
    DroppedMembers(ProfileOf(w, actor).components, "refresh");
    hide LeafPaths, FirstNamed, SetJsonPath, PutAll, LastPart, ValidBatch;
  }

  /** The secrets after configuring, also when it fails on the port: the observed body with the marker in
      place of the credential, the credential, and whatever else was there. */
  lemma ConfiguredSecretsMean(cfg: Config, w: World, actor: string, flow: ObservedFlow)
    requires ConfigureRefresh(cfg, w, actor, flow).1 in {None, Some(InvalidPort)}
    ensures var v := ConfigureRefresh(cfg, w, actor, flow).0;
      var base := "actor-auth-" + cfg.slug(actor);
      var credential := FirstNamed(LeafPaths(flow.requestBody, "$"), {"refresh_token", "refreshtoken"}, cfg.lower);
      && credential.Some?
      && var template := SetJsonPath(flow.requestBody, credential.value.0, Str("[FINSEC-REFRESH-CREDENTIAL]"));
      && template.Some?
      && Holding(v.secrets, base + "-refresh-template") ==
           Some(Secret(actor, "refresh_template", Template(template.value)))
      && Holding(v.secrets, base + "-refresh-token") == Some(Secret(actor, "refresh", Plain(credential.value.1)))
      && forall r :: r != base + "-refresh-template" && r != base + "-refresh-token" ==>
           Holding(v.secrets, r) == Holding(w.secrets, r)
  {
    var base := "actor-auth-" + cfg.slug(actor);
    var credential := FirstNamed(LeafPaths(flow.requestBody, "$"), REFRESH_NAMES, cfg.lower).value;
    var template := SetJsonPath(flow.requestBody, credential.0, Str(MARKER)).value;
    var batch := [Entry(base + "-refresh-template", actor, "refresh_template", Template(template)),
                  Entry(base + "-refresh-token", actor, "refresh", Plain(credential.1))];
    hide LeafPaths, FirstNamed, SetJsonPath, PutAll, LastPart, ValidBatch, WithRefreshComponent;
    TwoEntries(w.secrets, batch);
    assert |base + "-refresh-template"| != |base + "-refresh-token"|;
  }

  /** When configuring is refused. */
  lemma ConfigureRefusals(cfg: Config, w: World, actor: string, flow: ObservedFlow)
    ensures var error := ConfigureRefresh(cfg, w, actor, flow).1;
      var leaves := LeafPaths(flow.requestBody, "$");
      var credential := FirstNamed(leaves, {"refresh_token", "refreshtoken"}, cfg.lower);
      var access := FirstNamed(LeafPaths(flow.responseBody, "$"), {"access_token", "accesstoken", "token"}, cfg.lower);
      var interactive := exists leaf ::
        leaf in leaves && NamedIn(leaf.0, {"password", "otp", "mfa", "captcha", "verification_code"}, cfg.lower);
      && (error == Some(NoRefreshFlow) <==> interactive || credential.None? || access.None?)
      && (error != Some(NoRefreshFlow) ==>
           && (error == Some(UnknownActor) <==> actor !in w.accounts)
           && (actor in w.accounts ==>
                var account := w.accounts[actor];
                && (error == Some(NotConfigured) <==> !HasCredentialProfile(account))
                && (HasCredentialProfile(account) ==>
                     var reachable := flow.safeUrl && cfg.covered(flow.host);
                     && (error == Some(OutOfScope) <==> !reachable)
                     && (error == Some(UnsupportedPath) <==>
                          reachable && JsonPath(flow.requestBody, Some(credential.value.0)).None?)
                     && (error == Some(Incomplete) <==>
                         reachable && error != Some(UnsupportedPath) && !flow.safeHeaders))))
  {
    var credential := FirstNamed(LeafPaths(flow.requestBody, "$"), REFRESH_NAMES, cfg.lower);
    if credential.Some? {
      SettableIffReadable(flow.requestBody, credential.value.0, Str(MARKER));
    }
    hide LeafPaths, FirstNamed, SetJsonPath, PutAll, LastPart, ValidBatch, WithRefreshComponent, JsonPath;
  }

  /** A path ends in its last part. */
  lemma LastPartMeans(path: string, init: string, last: string)
    requires '.' !in last
    ensures LastPart(init + "." + last) == last
  {
    LastOfSplit(init, last);
  }

  lemma {:induction false} LastOfSplit(init: string, last: string)
    requires '.' !in last
    ensures var parts := Text.Split(init + "." + last, '.'); |parts| >= 2 && parts[|parts| - 1] == last
  {
    var s := init + "." + last;
    Text.SplitToken(last, [], '.');
    if init == [] {
      assert s == ['.'] + last;
      assert s[1..] == last;
    } else {
      LastOfSplit(init[1..], last);
      var rest := Text.Split(init[1..] + "." + last, '.');
      assert s[1..] == init[1..] + "." + last && s[0] == init[0];
      assert Text.Split(s, '.') == if s[0] == '.' then [[]] + rest else [[s[0]] + rest[0]] + rest[1..];
    }
  }
}
