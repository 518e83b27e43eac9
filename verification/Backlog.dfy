/** Backlog drafts: one representative per cluster (`_backlog_draft`, `_sync_backlog`). */
module Backlog {
  import opened Domain
  import opened Ordering
  import opened Ranking
  import opened Clustering
  import opened ClusteringProperties

  datatype Disposition = Active | NeedsResearch | SuppressedDuplicate | SuppressedInsufficientEvidence

  datatype Draft = Draft(id: string, clusterFingerprint: string, disposition: Disposition, notes: seq<string>)

  predicate ClusterIsVisible(c: Cluster, includeLow: bool := false) {
    if c.promotion == Suppressed then false else includeLow || c.promotion != ResearchLow
  }

  predicate IsUnsuppressed(d: Draft) {
    d.disposition == Active || d.disposition == NeedsResearch
  }

  function DispositionOf(item: Candidate, c: Cluster): Disposition {
    if c.representative != item.id then SuppressedDuplicate
    else if !ClusterIsVisible(c) then SuppressedInsufficientEvidence
    else if item.kind == "SECURITY_HYPOTHESIS" then Active
    else NeedsResearch
  }

  /** The dictionary comprehension member -> cluster: later clusters win. */
  function ClusterByMember(clusters: seq<Cluster>): map<string, Cluster> {
    if clusters == [] then map[]
    else
      var c := clusters[|clusters| - 1];
      ClusterByMember(clusters[..|clusters| - 1]) + map m | m in c.members :: c
  }

  /** The disposition is reassigned and the notes grow as the draft is decided. */
  method BacklogDraft(item: Candidate, c: Cluster, representative: bool) returns (draft: Draft)
    requires representative <==> c.representative == item.id
    ensures draft.id == item.id && draft.clusterFingerprint == c.semantics.fingerprint
    ensures draft.disposition == DispositionOf(item, c)
    ensures draft.disposition == SuppressedDuplicate <==> item.id != c.representative
    ensures draft.disposition == SuppressedInsufficientEvidence <==>
        item.id == c.representative && (c.promotion == Suppressed || c.promotion == ResearchLow)
    ensures draft.disposition == Active <==>
        item.id == c.representative && c.promotion != Suppressed && c.promotion != ResearchLow
        && item.kind == "SECURITY_HYPOTHESIS"
    ensures draft.notes == [] <==> draft.disposition == Active || draft.disposition == NeedsResearch
  {
    var visible := ClusterIsVisible(c);
    var disposition := if item.kind == "SECURITY_HYPOTHESIS" then Active else NeedsResearch;
    var notes: seq<string> := [];
    if !representative {
      disposition := SuppressedDuplicate;
      notes := notes + ["Semantically duplicated by canonical cluster " + c.id];
    } else if !visible {
      disposition := SuppressedInsufficientEvidence;
      var reasons := SortSet(c.suppressionReasons);
      if c.suppressionReasons != {} {
        var r :| r in c.suppressionReasons;
        assert r in reasons;
      }
      notes := notes + if c.suppressionReasons != {} then reasons else ["Hidden from the default queue."];
    }
    draft := Draft(item.id, c.semantics.fingerprint, disposition, notes);
  }

  /** Draft k describes candidate k among those that belong to a cluster. */
  function Clustered(hypotheses: seq<Candidate>, byMember: map<string, Cluster>): seq<Candidate> {
    if hypotheses == [] then []
    else if hypotheses[0].id in byMember then [hypotheses[0]] + Clustered(hypotheses[1..], byMember)
    else Clustered(hypotheses[1..], byMember)
  }

  predicate Describes(draft: Draft, item: Candidate, byMember: map<string, Cluster>) {
    && item.id in byMember
    && draft.id == item.id
    && draft.clusterFingerprint == byMember[item.id].semantics.fingerprint
    && draft.disposition == DispositionOf(item, byMember[item.id])
  }

  ghost predicate DraftsFor(drafts: seq<Draft>, hypotheses: seq<Candidate>, clusters: seq<Cluster>) {
    var items := Clustered(hypotheses, ClusterByMember(clusters));
    |drafts| == |items| && forall k :: 0 <= k < |items| ==> Describes(drafts[k], items[k], ClusterByMember(clusters))
  }

  method SyncBacklog(hypotheses: seq<Candidate>, clusters: seq<Cluster>) returns (drafts: seq<Draft>)
    ensures DraftsFor(drafts, hypotheses, clusters)
  {
    var byMember: map<string, Cluster> := map[];
    for i := 0 to |clusters|
      invariant byMember == ClusterByMember(clusters[..i])
    {
      assert clusters[..i + 1][..i] == clusters[..i];
      byMember := byMember + map m | m in clusters[i].members :: clusters[i];
    }
    assert clusters[..|clusters|] == clusters;
    drafts := [];
    for i := 0 to |hypotheses|
      invariant |drafts| == |Clustered(hypotheses[..i], byMember)|
      invariant forall k :: 0 <= k < |drafts| ==>
          Describes(drafts[k], Clustered(hypotheses[..i], byMember)[k], byMember)
    {
      ClusteredAppend(hypotheses[..i], hypotheses[i], byMember);
      assert hypotheses[..i + 1] == hypotheses[..i] + [hypotheses[i]];
      var item := hypotheses[i];
      if item.id in byMember {
        var draft := BacklogDraft(item, byMember[item.id], byMember[item.id].representative == item.id);
        drafts := drafts + [draft];
      }
    }
    assert hypotheses[..|hypotheses|] == hypotheses;
  }

  lemma {:induction false} ClusteredAppend(hypotheses: seq<Candidate>, item: Candidate, byMember: map<string, Cluster>)
    ensures Clustered(hypotheses + [item], byMember)
         == if item.id in byMember then Clustered(hypotheses, byMember) + [item] else Clustered(hypotheses, byMember)
  {
    if hypotheses == [] {
      assert (hypotheses + [item])[1..] == [];
    } else {
      assert (hypotheses + [item])[0] == hypotheses[0] && (hypotheses + [item])[1..] == hypotheses[1..] + [item];
      ClusteredAppend(hypotheses[1..], item, byMember);
    }
  }

  /** A cluster is visible unless it is suppressed, or low and low ones were not asked for. */
  lemma VisibleMeans(c: Cluster, includeLow: bool)
    ensures ClusterIsVisible(c, includeLow) <==>
        c.promotion != Suppressed && (c.promotion == ResearchLow ==> includeLow)
    ensures ClusterIsVisible(c) <==> c.promotion != Suppressed && c.promotion != ResearchLow
  {
  }

  // ----- Counting

  function CountVisible(clusters: seq<Cluster>): nat {
    if clusters == [] then 0 else (if ClusterIsVisible(clusters[0]) then 1 else 0) + CountVisible(clusters[1..])
  }

  function CountUnsuppressed(drafts: seq<Draft>): nat {
    if drafts == [] then 0 else (if IsUnsuppressed(drafts[0]) then 1 else 0) + CountUnsuppressed(drafts[1..])
  }

  ghost function VisibleRepresentatives(clusters: seq<Cluster>): set<string> {
    set c | c in clusters && ClusterIsVisible(c) :: c.representative
  }

  ghost function UnsuppressedIds(drafts: seq<Draft>): set<string> {
    set d | d in drafts && IsUnsuppressed(d) :: d.id
  }

  lemma {:induction false} VisibleCardinality(clusters: seq<Cluster>)
    requires forall i, j :: 0 <= i < j < |clusters| ==> clusters[i].representative != clusters[j].representative
    ensures CountVisible(clusters) == |VisibleRepresentatives(clusters)|
  {
    if clusters != [] {
      VisibleCardinality(clusters[1..]);
      VisibleCons(clusters[0], clusters[1..]);
      hide VisibleRepresentatives, ClusterIsVisible;
      assert clusters == [clusters[0]] + clusters[1..];
    }
  }

  lemma VisibleCons(c: Cluster, rest: seq<Cluster>)
    requires forall i :: 0 <= i < |rest| ==> rest[i].representative != c.representative
    ensures VisibleRepresentatives([c] + rest) == VisibleRepresentatives(rest) + if ClusterIsVisible(c)
        then {c.representative} else {}
    ensures c.representative !in VisibleRepresentatives(rest)
  {
    hide ClusterIsVisible;
    assert forall d :: d in [c] + rest <==> d == c || d in rest;
  }

  lemma {:induction false} UnsuppressedCardinality(drafts: seq<Draft>)
    requires forall i, j :: 0 <= i < j < |drafts| ==> drafts[i].id != drafts[j].id
    ensures CountUnsuppressed(drafts) == |UnsuppressedIds(drafts)|
  {
    if drafts != [] {
      UnsuppressedCardinality(drafts[1..]);
      UnsuppressedCons(drafts[0], drafts[1..]);
      hide UnsuppressedIds, IsUnsuppressed;
      assert drafts == [drafts[0]] + drafts[1..];
    }
  }

  lemma UnsuppressedCons(d: Draft, rest: seq<Draft>)
    requires forall i :: 0 <= i < |rest| ==> rest[i].id != d.id
    ensures UnsuppressedIds([d] + rest) == UnsuppressedIds(rest) + if IsUnsuppressed(d) then {d.id} else {}
    ensures d.id !in UnsuppressedIds(rest)
  {
    hide IsUnsuppressed;
    assert forall e :: e in [d] + rest <==> e == d || e in rest;
  }

  // ----- What one representative per cluster rests on

  ghost predicate DistinctIds(items: seq<Candidate>) {
    forall i, j :: 0 <= i < j < |items| ==> items[i].id != items[j].id
  }

  /** Clusters share no member, and every representative is a member that has a candidate. */
  ghost predicate Partition(hypotheses: seq<Candidate>, clusters: seq<Cluster>) {
    && (forall i, j, m :: 0 <= i < j < |clusters| && m in clusters[i].members ==> m !in clusters[j].members)
    && (forall c :: c in clusters ==> c.representative in c.members)
    && (forall c, m :: c in clusters && m in c.members ==> exists h :: h in hypotheses && h.id == m)
  }

  lemma {:induction false} ByMemberLookup(hypotheses: seq<Candidate>, clusters: seq<Cluster>)
    requires forall i, j, m :: 0 <= i < j < |clusters| && m in clusters[i].members ==> m !in clusters[j].members
    ensures forall c, m :: c in clusters && m in c.members ==>
        m in ClusterByMember(clusters) && ClusterByMember(clusters)[m] == c
    ensures forall m :: m in ClusterByMember(clusters) ==>
        ClusterByMember(clusters)[m] in clusters && m in ClusterByMember(clusters)[m].members
  {
    if clusters != [] {
      var n := |clusters| - 1;
      assert forall c :: c in clusters <==> c in clusters[..n] || c == clusters[n] by {
        assert clusters == clusters[..n] + [clusters[n]];
      }
      ByMemberLookup(hypotheses, clusters[..n]);
    }
  }

  lemma {:induction false} ClusteredMembers(hypotheses: seq<Candidate>, byMember: map<string, Cluster>)
    ensures forall h :: h in Clustered(hypotheses, byMember) <==> h in hypotheses && h.id in byMember
    ensures DistinctIds(hypotheses) ==> DistinctIds(Clustered(hypotheses, byMember))
  {
    if hypotheses != [] {
      ClusteredMembers(hypotheses[1..], byMember);
      assert hypotheses == [hypotheses[0]] + hypotheses[1..];
    }
  }

  /** What a draft says when its candidate belongs to cluster c. */
  predicate Speaks(d: Draft, c: Cluster) {
    && d.id in c.members
    && d.clusterFingerprint == c.semantics.fingerprint
    && (d.disposition != SuppressedDuplicate <==> d.id == c.representative)
    && (IsUnsuppressed(d) <==> d.id == c.representative && ClusterIsVisible(c))
  }

  lemma ByMemberFinds(hypotheses: seq<Candidate>, clusters: seq<Cluster>, c: Cluster, m: string) returns (h: Candidate)
    requires Partition(hypotheses, clusters) && c in clusters && m in c.members
    ensures m in ClusterByMember(clusters) && ClusterByMember(clusters)[m] == c
    ensures h in hypotheses && h.id == m
  {
    ByMemberLookup(hypotheses, clusters);
    h :| h in hypotheses && h.id == m;
  }

  lemma MemberDraft(hypotheses: seq<Candidate>, clusters: seq<Cluster>, drafts: seq<Draft>, c: Cluster, m: string)
      returns (k: nat)
    requires Partition(hypotheses, clusters) && DraftsFor(drafts, hypotheses, clusters)
    requires c in clusters && m in c.members
    ensures k < |drafts| && drafts[k].id == m && Speaks(drafts[k], c)
  {
    hide Clustered, ClusterByMember, Partition;
    var byMember := ClusterByMember(clusters);
    var items := Clustered(hypotheses, byMember);
    var h := ByMemberFinds(hypotheses, clusters, c, m);
    ClusteredMembers(hypotheses, byMember);
    k :| 0 <= k < |items| && items[k] == h;
    assert Describes(drafts[k], items[k], byMember);
  }

  lemma DraftOwner(hypotheses: seq<Candidate>, clusters: seq<Cluster>, drafts: seq<Draft>, k: nat) returns (c: Cluster)
    requires Partition(hypotheses, clusters) && DraftsFor(drafts, hypotheses, clusters) && k < |drafts|
    ensures c in clusters && Speaks(drafts[k], c)
  {
    var byMember := ClusterByMember(clusters);
    ByMemberLookup(hypotheses, clusters);
    assert Describes(drafts[k], Clustered(hypotheses, byMember)[k], byMember);
    c := byMember[drafts[k].id];
  }

  lemma DraftIdsDiffer(hypotheses: seq<Candidate>, clusters: seq<Cluster>, drafts: seq<Draft>)
    requires DistinctIds(hypotheses) && DraftsFor(drafts, hypotheses, clusters)
    ensures forall i, j :: 0 <= i < j < |drafts| ==> drafts[i].id != drafts[j].id
  {
    var byMember := ClusterByMember(clusters);
    var items := Clustered(hypotheses, byMember);
    ClusteredMembers(hypotheses, byMember);
    forall i, j | 0 <= i < j < |drafts| ensures drafts[i].id != drafts[j].id {
      assert Describes(drafts[i], items[i], byMember) && Describes(drafts[j], items[j], byMember);
    }
  }

  lemma RepresentativesDiffer(hypotheses: seq<Candidate>, clusters: seq<Cluster>)
    requires Partition(hypotheses, clusters)
    ensures forall i, j :: 0 <= i < j < |clusters| ==> clusters[i].representative != clusters[j].representative
    ensures forall c :: c in clusters ==> c.representative in c.members
  {
    forall i, j | 0 <= i < j < |clusters| ensures clusters[i].representative != clusters[j].representative {
      assert clusters[i] in clusters && clusters[j] in clusters;
    }
  }

  lemma SharedMember(hypotheses: seq<Candidate>, clusters: seq<Cluster>, c: Cluster, d: Cluster, m: string)
    requires Partition(hypotheses, clusters) && c in clusters && d in clusters && m in c.members && m in d.members
    ensures c == d
  {
    var i :| 0 <= i < |clusters| && clusters[i] == c;
    var j :| 0 <= j < |clusters| && clusters[j] == d;
  }

  /** Of the drafts for the cluster's members, the representative's is one that is not a suppressed
      duplicate, and it is the only one. */
  ghost predicate OnlyRepresentativeSpeaks(drafts: seq<Draft>, c: Cluster) {
    && (exists k ::
        0 <= k < |drafts| && drafts[k].id == c.representative && drafts[k].disposition != SuppressedDuplicate)
    && (forall i :: 0 <= i < |drafts| && drafts[i].id in c.members && drafts[i].disposition != SuppressedDuplicate
          ==> drafts[i].id == c.representative)
    && (forall i, j :: 0 <= i < j < |drafts| && drafts[i].id in c.members && drafts[j].id in c.members
          ==> drafts[i].disposition == SuppressedDuplicate || drafts[j].disposition == SuppressedDuplicate)
  }

  /** Exactly one draft of every cluster is not a suppressed duplicate: its representative's. */
  lemma OneDraftPerCluster(hypotheses: seq<Candidate>, clusters: seq<Cluster>, drafts: seq<Draft>, c: Cluster)
    requires DistinctIds(hypotheses) && Partition(hypotheses, clusters) && DraftsFor(drafts, hypotheses, clusters)
    requires c in clusters
    ensures OnlyRepresentativeSpeaks(drafts, c)
  {
    hide Partition, DraftsFor, DistinctIds;
    RepresentativesDiffer(hypotheses, clusters);
    DraftIdsDiffer(hypotheses, clusters, drafts);
    var k := MemberDraft(hypotheses, clusters, drafts, c, c.representative);
    assert drafts[k] in drafts;
    forall i | 0 <= i < |drafts| && drafts[i].id in c.members ensures Speaks(drafts[i], c) {
      var owner := DraftOwner(hypotheses, clusters, drafts, i);
      SharedMember(hypotheses, clusters, c, owner, drafts[i].id);
    }
  }

  /** As many drafts stay unsuppressed as clusters are reported visible. */
  lemma UnsuppressedEqualsVisible(hypotheses: seq<Candidate>, clusters: seq<Cluster>, drafts: seq<Draft>)
    requires DistinctIds(hypotheses) && Partition(hypotheses, clusters) && DraftsFor(drafts, hypotheses, clusters)
    ensures CountUnsuppressed(drafts) == CountVisible(clusters)
  {
    hide Partition, DraftsFor, DistinctIds;
    RepresentativesDiffer(hypotheses, clusters);
    VisibleCardinality(clusters);
    DraftIdsDiffer(hypotheses, clusters, drafts);
    UnsuppressedCardinality(drafts);
    forall id | id in UnsuppressedIds(drafts) ensures id in VisibleRepresentatives(clusters) {
      var k :| 0 <= k < |drafts| && IsUnsuppressed(drafts[k]) && drafts[k].id == id;
      var c := DraftOwner(hypotheses, clusters, drafts, k);
    }
    forall id | id in VisibleRepresentatives(clusters) ensures id in UnsuppressedIds(drafts) {
      var c :| c in clusters && ClusterIsVisible(c) && c.representative == id;
      var k := MemberDraft(hypotheses, clusters, drafts, c, id);
      assert drafts[k] in drafts;
    }
    assert UnsuppressedIds(drafts) == VisibleRepresentatives(clusters);
  }

  // ----- Calibration delivers what the backlog needs

  /** The whole pipeline: whatever candidates come in, after calibration the unsuppressed drafts
      are as many as the visible clusters, one per cluster. */
  lemma CalibratedBacklogMatches(inputs: Inputs, hypotheses: seq<Candidate>, drafts: seq<Draft>)
    requires DistinctIds(hypotheses) && Complete(inputs, hypotheses)
    requires DraftsFor(drafts, Calibrated(inputs, hypotheses).value.hypotheses,
        Calibrated(inputs, hypotheses).value.clusters)
    ensures CountUnsuppressed(drafts) == CountVisible(Calibrated(inputs, hypotheses).value.clusters)
    ensures forall c :: c in Calibrated(inputs, hypotheses).value.clusters ==> OnlyRepresentativeSpeaks(drafts, c)
  {
    var r := Calibrated(inputs, hypotheses).value;
    CalibratedIds(inputs, hypotheses);
    CalibratedPartition(inputs, hypotheses);
    hide Calibrated, Complete, DraftsFor, Partition, DistinctIds, OnlyRepresentativeSpeaks;
    UnsuppressedEqualsVisible(r.hypotheses, r.clusters, drafts);
    forall c | c in r.clusters ensures OnlyRepresentativeSpeaks(drafts, c) {
      OneDraftPerCluster(r.hypotheses, r.clusters, drafts, c);
    }
  }

  lemma DistinctFromIds(items: seq<Candidate>)
    requires DistinctIds(items)
    ensures Distinct(items) && UniqueIds(items)
  {
    forall c, d | c in items && d in items && c.id == d.id ensures c == d {
      var i :| 0 <= i < |items| && items[i] == c;
      var j :| 0 <= j < |items| && items[j] == d;
      assert i == j;
    }
  }

  lemma IdsFromDistinct(items: seq<Candidate>)
    requires Distinct(items) && UniqueIds(items)
    ensures DistinctIds(items)
  {
    forall i, j | 0 <= i < j < |items| ensures items[i].id != items[j].id {
      assert items[i] in items && items[j] in items;
    }
  }

  lemma PermutedIds(xs: seq<Candidate>, ys: seq<Candidate>)
    requires DistinctIds(xs) && multiset(xs) == multiset(ys)
    ensures DistinctIds(ys)
  {
    DistinctFromIds(xs);
    MultisetMembers(xs, ys);
    DistinctCounts(xs);
    CountsDistinct(ys);
    IdsFromDistinct(ys);
  }

  lemma CalibratedIds(inputs: Inputs, hypotheses: seq<Candidate>)
    requires DistinctIds(hypotheses) && Complete(inputs, hypotheses)
    ensures DistinctIds(Calibrated(inputs, hypotheses).value.hypotheses)
  {
    SortBySorts(hypotheses, ById());
    PermutedIds(hypotheses, Ordered(hypotheses));
    var all := AssessAll(inputs, Ordered(hypotheses));
    forall i, j | 0 <= i < j < |all| ensures all[i].id != all[j].id {
      AssessKeeps(inputs, Ordered(hypotheses)[i]);
      AssessKeeps(inputs, Ordered(hypotheses)[j]);
    }
    SortBySorts(all, ByPresentation());
    PermutedIds(all, SortBy(all, ByPresentation()));
  }

  lemma CalibratedMembers(inputs: Inputs, hypotheses: seq<Candidate>)
    requires Complete(inputs, hypotheses)
    ensures forall h :: h in hypotheses ==> Assess(inputs, h) in Calibrated(inputs, hypotheses).value.hypotheses
    ensures var clusters := Calibrated(inputs, hypotheses).value.clusters;
      forall c, d :: c in clusters && d in clusters && c.semantics.fingerprint == d.semantics.fingerprint ==> c == d
    ensures Distinct(Calibrated(inputs, hypotheses).value.clusters)
  {
    var all := AssessAll(inputs, Ordered(hypotheses));
    ClustersAreFingerprintClasses(inputs, hypotheses);
    SortBySorts(all, ByPresentation());
    MultisetMembers(all, SortBy(all, ByPresentation()));
    AssessedMembers(inputs, Ordered(hypotheses));
    OrderedMembers(hypotheses);
  }

  lemma CalibratedPartition(inputs: Inputs, hypotheses: seq<Candidate>)
    requires DistinctIds(hypotheses) && Complete(inputs, hypotheses)
    ensures Partition(Calibrated(inputs, hypotheses).value.hypotheses, Calibrated(inputs, hypotheses).value.clusters)
  {
    var r := Calibrated(inputs, hypotheses).value;
    DistinctFromIds(hypotheses);
    CalibratedMembers(inputs, hypotheses);
    ClustersKeepProvenance(inputs, hypotheses);
    hide *;
    PartitionOfKept(inputs, hypotheses, r.hypotheses, r.clusters);
  }

  lemma PartitionOfKept(inputs: Inputs, hypotheses: seq<Candidate>, assessed: seq<Candidate>, clusters: seq<Cluster>)
    requires UniqueIds(hypotheses) && Distinct(clusters)
    requires forall h :: h in hypotheses ==> Assess(inputs, h) in assessed
    requires forall c, d :: c in clusters && d in clusters && c.semantics.fingerprint == d.semantics.fingerprint ==>
        c == d
    requires forall c :: c in clusters ==> HasProvenance(inputs, hypotheses, c)
    ensures Partition(assessed, clusters)
  {
    hide Assess, HasFingerprint, HasProvenance, UniqueIds;
    forall i, j, m | 0 <= i < j < |clusters| && m in clusters[i].members ensures m !in clusters[j].members {
      if m in clusters[j].members {
        SharedKeptMember(inputs, hypotheses, clusters[i], clusters[j], m);
      }
    }
    forall c | c in clusters ensures c.representative in c.members {
      RepresentativeIsListed(inputs, hypotheses, c);
    }
    forall c, m | c in clusters && m in c.members ensures exists h :: h in assessed && h.id == m {
      var h := MemberIsKept(inputs, hypotheses, c, m);
      AssessKeeps(inputs, h);
    }
  }

  lemma SharedKeptMember(inputs: Inputs, hypotheses: seq<Candidate>, c: Cluster, d: Cluster, m: string)
    requires UniqueIds(hypotheses) && HasProvenance(inputs, hypotheses, c) && HasProvenance(inputs, hypotheses, d)
    requires m in c.members && m in d.members
    ensures c.semantics.fingerprint == d.semantics.fingerprint
  {
    var h := MemberIsKept(inputs, hypotheses, c, m);
    var g := MemberIsKept(inputs, hypotheses, d, m);
  }

  lemma MemberIsKept(inputs: Inputs, hypotheses: seq<Candidate>, c: Cluster, m: string) returns (h: Candidate)
    requires HasProvenance(inputs, hypotheses, c) && m in c.members
    ensures h in hypotheses && h.id == m && HasFingerprint(Assess(inputs, h), c.semantics.fingerprint)
  {
    var k :| 0 <= k < |c.members| && c.members[k] == m;
    assert KeptBy(inputs, hypotheses, c, k);
    h :| h in hypotheses && h.id == m && HasFingerprint(Assess(inputs, h), c.semantics.fingerprint);
  }
}
