/** Records of the behaviour analysis: candidates, independent supports and semantic clusters. */
module Domain {

  datatype Option<+T> = None | Some(value: T)

  datatype Promotion = Suppressed | ResearchLow | ResearchMedium | ResearchHigh | ReviewRequired | TestReady

  function PromotionRank(p: Promotion): nat {
    match p
    case Suppressed => 0
    case ResearchLow => 1
    case ResearchMedium => 2
    case ResearchHigh => 3
    case ReviewRequired => 4
    case TestReady => 5
  }

  datatype Readiness = ResearchOnly | ReviewRequired | TestReady

  datatype Confidence = Low | Medium | High

  function ConfidenceRank(c: Confidence): nat {
    match c case Low => 1 case Medium => 2 case High => 3
  }

  datatype Strength = Insufficient | Weak | Moderate | Strong

  function StrengthRank(s: Strength): nat {
    match s case Insufficient => 0 case Weak => 1 case Moderate => 2 case Strong => 3
  }

  /** The payload whose hash identifies a support.  The hash is taken to be injective, so the
      payload itself stands for the support id. */
  datatype Signature =
    | Observed(captures: set<string>, actors: set<string>, resources: set<string>, path: seq<string>)
    | Fallback(captures: set<string>, actors: set<string>, action: string, endpoints: set<string>)

  /** What one support unit accumulates besides its signature. */
  datatype Support = Support(instances: set<string>, observations: set<string>)

  /** The canonical identity of a security question; `fingerprint` stands for the injective hash
      of the whole semantic payload. */
  datatype Semantics = Semantics(family: string, subject: string, fingerprint: string, canonicalId: string)

  datatype Qualification = Qualification(
    confidence: Confidence, strength: Strength, promotion: Promotion, researchScore: nat,
    suppressionReasons: set<string>)

  datatype Candidate = Candidate(
    id: string, kind: string, family: string, invariantId: string, workflowFamilyId: string,
    totalScore: int, readiness: Readiness, blockers: set<string>, observationIds: set<string>,
    semantics: Option<Semantics>, qualification: Option<Qualification>)

  datatype Context = Context(hypothesisId: string, observationIds: set<string>, supportIds: set<Signature>)

  datatype Cluster = Cluster(
    id: string, semantics: Semantics, representative: string, members: seq<string>,
    contexts: seq<Context>, supports: map<Signature, Support>, highestScore: int, researchScore: nat,
    confidence: Confidence, strength: Strength, promotion: Promotion, readiness: Readiness,
    blockers: set<string>, suppressionReasons: set<string>, observationIds: set<string>)
}
