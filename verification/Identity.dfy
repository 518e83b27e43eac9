/** Structured identity assertions (`evaluate_identity_assertion`). */
module Identity {
  import opened Domain
  import opened Json
  import opened Text
  import P = JsonPointer

  datatype AssertionStatus =
    | NotConfigured | NotChecked | ConfirmedIdentity | StatusMismatch | LoginOrErrorResponse | MalformedBody
    | SelectorMissing | SelectorAmbiguous | ExpectedValueMissing | ValueMismatch | LegacyUntrusted

  datatype Source = JsonBody | ResponseHeader
  datatype ActorReference = AccountId | IdentitySubject | IdentityTenant

  /** Exactly one of the two expectations is configured. */
  datatype Expectation = Literal(value: Json) | Actor(reference: ActorReference)

  datatype Assertion = Assertion(
    source: Source, selector: string, expectation: Expectation, expectedStatus: Option<int>, fingerprintValue: bool)

  /** What the assertion may refer to about the actor. */
  datatype ActorFacts = ActorFacts(id: string, subject: Option<string>, tenant: Option<string>)

  /** A response as seen by the evaluator; no document when the body does not parse or repeats a
      key.  Header names are compared in lower case by a given function. */
  datatype Response = Response(status: int, headers: seq<(string, string)>, document: Option<Json>, login: bool)

  /** The fingerprinted payload of a confirmation reference, with the hash taken to be injective. */
  datatype Reference = Reference(actor: string, source: Source, selector: string, expectedStatus: Option<int>,
      value: Option<Json>)

  /** Raised is the conversion error of a non-decimal digit, which the evaluator does not catch. */
  datatype Outcome = Outcome(confirmed: bool, status: AssertionStatus, reference: Option<Reference>) | Raised

  function Expected(e: Expectation, actor: ActorFacts): Option<Json> {
    match e
    case Literal(v) => Some(v)
    case Actor(AccountId) => Some(Str(actor.id))
    case Actor(IdentitySubject) => if actor.subject.Some? then Some(Str(actor.subject.value)) else None
    case Actor(IdentityTenant) => if actor.tenant.Some? then Some(Str(actor.tenant.value)) else None
  }

  function HeaderValues(headers: seq<(string, string)>, selector: string, lower: string -> string): seq<string> {
    if headers == [] then []
    else
      var rest := HeaderValues(headers[1..], selector, lower);
      if lower(headers[0].0) == lower(selector) then [headers[0].1] + rest else rest
  }

  predicate IsSuccess(status: int) {
    200 <= status < 300
  }

  /** What the selector picks from the response, or why it picks nothing. */
  datatype Selection = Selected(value: Json) | Missing(status: AssertionStatus) | Fails

  function Select(a: Assertion, response: Response, kind: P.Numerals, lower: string -> string): Selection {
    match a.source
    case ResponseHeader =>
      var values := HeaderValues(response.headers, a.selector, lower);
      if values == [] then Missing(SelectorMissing)
      else if |values| != 1 then Missing(SelectorAmbiguous)
      else Selected(Str(values[0]))
    case JsonBody =>
      if response.document.None? then Missing(MalformedBody)
      else
        match P.Resolve(kind, response.document.value, a.selector)
        case Confirmed(v) => Selected(v)
        case SelectorMissing => Missing(SelectorMissing)
        case ConversionError => Fails
  }

  function Evaluate(assertion: Option<Assertion>, actor: ActorFacts, response: Response, kind: P.Numerals,
      lower: string -> string): Outcome {
    if assertion.None? then Outcome(false, NotConfigured, None)
    else
      var a := assertion.value;
      if response.login || !IsSuccess(response.status) then Outcome(false, LoginOrErrorResponse, None)
      else if a.expectedStatus.Some? && response.status != a.expectedStatus.value
          then Outcome(false, StatusMismatch, None)
      else
        match Expected(a.expectation, actor)
        case None => Outcome(false, ExpectedValueMissing, None)
        case Some(expected) =>
          match Select(a, response, kind, lower)
          case Missing(status) => Outcome(false, status, None)
          case Fails => Raised
          case Selected(actual) =>
            if actual.Obj? || actual.Arr? || actual != expected then Outcome(false, ValueMismatch, None)
            else Outcome(true, ConfirmedIdentity,
              Some(Reference(actor.id, a.source, a.selector, a.expectedStatus, if a.fingerprintValue then Some(actual)
                  else None)))
  }

  /** The scalar an expectation stands for: its own literal, or what it refers to about the actor, if
      that is known. */
  predicate Wants(e: Expectation, actor: ActorFacts, v: Json) {
    match e
    case Literal(value) => v == value
    case Actor(reference) =>
      v.Str? &&
      ((reference == AccountId && v.s == actor.id)
       || (reference == IdentitySubject && actor.subject.Some? && v.s == actor.subject.value)
       || (reference == IdentityTenant && actor.tenant.Some? && v.s == actor.tenant.value))
  }

  lemma ExpectedMeans(e: Expectation, actor: ActorFacts)
    ensures Expected(e, actor).Some? ==> Wants(e, actor, Expected(e, actor).value)
    ensures forall v :: Wants(e, actor, v) ==> Expected(e, actor) == Some(v)
  {
  }

  /** An answer to look at: no login page, a success status, and the asserted status if there is one. */
  predicate Fits(a: Assertion, response: Response) {
    && !response.login && 200 <= response.status <= 299
    && (a.expectedStatus.Some? ==> response.status == a.expectedStatus.value)
  }

  /** A fitting response carries, at a path whose pointer is the selector, the wanted scalar of the
      same type. */
  ghost predicate CarriesExpected(a: Assertion, actor: ActorFacts, response: Response) {
    Fits(a, response) && response.document.Some?
    && exists v ::
        Wants(a.expectation, actor, v) && !v.Obj? && !v.Arr? && P.Denotes(response.document.value, a.selector, v)
  }

  /** An identity is confirmed from a JSON body, without a foreign array index in the selector,
      exactly when the response carries the expected value. */
  lemma ConfirmedIffNodeEqualsExpected(a: Assertion, actor: ActorFacts, response: Response, kind: P.Numerals,
      lower: string -> string)
    requires P.Standard(kind) && a.source == JsonBody
    requires a.selector != [] && a.selector[0] == '/'
    ensures var outcome := Evaluate(Some(a), actor, response, kind, lower);
      (outcome.Outcome? && outcome.confirmed && response.document.Some?
       && !P.UsesForeignIndex(kind, response.document.value, Split(P.RemovePrefix(a.selector), '/')))
      <==> CarriesExpected(a, actor, response)
  {
    ExpectedMeans(a.expectation, actor);
    hide P.Resolve, P.Denotes, P.UsesForeignIndex, Split, Wants, Expected;
    if response.document.Some? && Expected(a.expectation, actor).Some? {
      P.ResolvesIffRendered(kind, response.document.value, a.selector, Expected(a.expectation, actor).value);
    }
  }

  /** Position k of the headers is the only one with the selected name. */
  predicate OnlyHeader(headers: seq<(string, string)>, selector: string, lower: string -> string, k: nat) {
    && k < |headers| && lower(headers[k].0) == lower(selector)
    && forall i :: 0 <= i < |headers| && i != k ==> lower(headers[i].0) != lower(selector)
  }

  lemma {:induction false} HeaderValuesMean(headers: seq<(string, string)>, selector: string, lower: string -> string)
    ensures HeaderValues(headers, selector, lower) == [] <==>
        forall i :: 0 <= i < |headers| ==> lower(headers[i].0) != lower(selector)
    ensures forall k: nat :: OnlyHeader(headers, selector, lower, k) ==>
        k < |headers| && HeaderValues(headers, selector, lower) == [headers[k].1]
    ensures |HeaderValues(headers, selector, lower)| == 1 ==> exists k: nat :: OnlyHeader(headers, selector, lower, k)
  {
    if headers != [] {
      var rest := headers[1..];
      HeaderValuesMean(rest, selector, lower);
      assert forall i :: 0 < i < |headers| ==> headers[i] == rest[i - 1];
      assert forall i :: 0 <= i < |rest| ==> rest[i] == headers[i + 1];
      if lower(headers[0].0) == lower(selector) {
        if HeaderValues(rest, selector, lower) == [] {
          assert OnlyHeader(headers, selector, lower, 0);
        }
        forall k: nat | OnlyHeader(headers, selector, lower, k) ensures k == 0 {
        }
      } else {
        forall k: nat | OnlyHeader(headers, selector, lower, k)
            ensures k > 0 && OnlyHeader(rest, selector, lower, k - 1) {
          assert headers[k] == rest[k - 1];
        }
        if k: nat :| OnlyHeader(rest, selector, lower, k) {
          assert headers[k + 1] == rest[k];
          assert OnlyHeader(headers, selector, lower, k + 1);
        }
      }
    }
  }

  /** An identity is confirmed from a header exactly when a fitting response has that header once, with
      the wanted text. */
  lemma ConfirmedIffHeaderEqualsExpected(a: Assertion, actor: ActorFacts, response: Response, kind: P.Numerals,
      lower: string -> string)
    requires a.source == ResponseHeader
    ensures var outcome := Evaluate(Some(a), actor, response, kind, lower);
      && outcome.Outcome?
      && (outcome.confirmed <==> Fits(a, response) && exists k: nat ::
            k < |response.headers| && OnlyHeader(response.headers, a.selector, lower, k)
            && Wants(a.expectation, actor, Str(response.headers[k].1)))
  {
    ExpectedMeans(a.expectation, actor);
    HeaderValuesMean(response.headers, a.selector, lower);
    hide HeaderValues, Wants, Expected, OnlyHeader;
    var values := HeaderValues(response.headers, a.selector, lower);
    if |values| == 1 {
      var k: nat :| OnlyHeader(response.headers, a.selector, lower, k);
      assert values == [response.headers[k].1];
    }
  }

  /** The status of an evaluation that is not confirmed names the first test that failed. */
  lemma StatusesMean(a: Assertion, actor: ActorFacts, response: Response, kind: P.Numerals, lower: string -> string)
    ensures Evaluate(None, actor, response, kind, lower) == Outcome(false, NotConfigured, None)
    ensures var s := Evaluate(Some(a), actor, response, kind, lower);
      var wanted := exists v :: Wants(a.expectation, actor, v);
      var body := a.source == JsonBody && response.document.Some?;
      && (response.login || response.status < 200 || response.status > 299 ==>
          s == Outcome(false, LoginOrErrorResponse, None))
      && (!response.login && 200 <= response.status <= 299 && !Fits(a, response) ==>
          s == Outcome(false, StatusMismatch, None))
      && (Fits(a, response) && !wanted ==> s == Outcome(false, ExpectedValueMissing, None))
      && (Fits(a, response) && wanted && a.source == JsonBody && response.document.None? ==>
           s == Outcome(false, MalformedBody, None))
      && (Fits(a, response) && wanted && body
          && P.Resolve(kind, response.document.value, a.selector).SelectorMissing? ==>
           s == Outcome(false, SelectorMissing, None))
      && (Fits(a, response) && wanted && body && P.Resolve(kind, response.document.value, a.selector).Confirmed? ==>
           s.Outcome? && (s.confirmed || s == Outcome(false, ValueMismatch, None)))
      && (Fits(a, response) && wanted && a.source == ResponseHeader ==>
           (s == Outcome(false, SelectorMissing, None) <==>
             forall i :: 0 <= i < |response.headers| ==> lower(response.headers[i].0) != lower(a.selector)))
      && (Fits(a, response) && wanted && a.source == ResponseHeader ==>
           (s.Outcome? && s.status == SelectorAmbiguous <==>
             |HeaderValues(response.headers, a.selector, lower)| >= 2))
  {
    ExpectedMeans(a.expectation, actor);
    HeaderValuesMean(response.headers, a.selector, lower);
    hide P.Resolve, HeaderValues, Wants, Expected, OnlyHeader;
  }

  /** What a confirmation refers to. */
  lemma ReferenceMeans(a: Assertion, actor: ActorFacts, response: Response, kind: P.Numerals, lower: string -> string)
    ensures var s := Evaluate(Some(a), actor, response, kind, lower);
      s.Outcome? && s.confirmed ==>
        && s.reference.Some?
        && var r := s.reference.value;
        && r.actor == actor.id && r.source == a.source && r.selector == a.selector
            && r.expectedStatus == a.expectedStatus
        && (if a.fingerprintValue then r.value.Some? && Wants(a.expectation, actor, r.value.value) else r.value == None)
  {
    ExpectedMeans(a.expectation, actor);
    hide Select, Wants, Expected;
  }

  /** The evaluator raises exactly when it gets as far as resolving a body selector that reaches an
      array with a token of digits one of which is not a decimal. */
  lemma EvaluatorRaisesIff(assertion: Option<Assertion>, actor: ActorFacts, response: Response, kind: P.Numerals,
      lower: string -> string)
    ensures Evaluate(assertion, actor, response, kind, lower).Raised? <==>
      && assertion.Some? && assertion.value.source == JsonBody && Fits(assertion.value, response)
      && (exists v :: Wants(assertion.value.expectation, actor, v)) && response.document.Some?
      && P.Raises(kind, response.document.value, assertion.value.selector)
  {
    if assertion.Some? {
      ExpectedMeans(assertion.value.expectation, actor);
    }
    hide P.Resolve, P.Raises, Wants, Expected;
    if assertion.Some? && response.document.Some? {
      P.ResolveRaisesIff(kind, response.document.value, assertion.value.selector);
    }
  }

  /** Confirmation always leaves a reference to what was asserted, and only confirmation does. */
  lemma ConfirmationLeavesReference(assertion: Option<Assertion>, actor: ActorFacts, response: Response,
      kind: P.Numerals, lower: string -> string)
    ensures var outcome := Evaluate(assertion, actor, response, kind, lower);
      outcome.Outcome? ==>
          (outcome.confirmed <==> outcome.reference.Some?)
              && (outcome.confirmed <==> outcome.status == ConfirmedIdentity)
  {
  }
}
