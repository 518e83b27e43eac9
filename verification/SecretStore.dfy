/** The actor-bound secret store: a mutable map from references to bound values. */
module SecretStores {
  import opened Domain
  import opened Json

  /** Secret values are texts; a refresh template is stored as JSON text and is kept here as the
      document it encodes. */
  datatype SecretValue = Plain(text: string) | Template(body: Json)

  datatype Secret = Secret(actor: string, kind: string, value: SecretValue)

  datatype Entry = Entry(reference: string, actor: string, kind: string, value: SecretValue)

  predicate IsReferenceChar(c: char) {
    'a' <= c <= 'z' || '0' <= c <= '9' || c == '-'
  }

  /** The pattern ^[a-z0-9][a-z0-9-]{2,127}$, matched in full. */
  predicate ValidReference(r: string) {
    3 <= |r| <= 128 && r[0] != '-' && forall c :: c in r ==> IsReferenceChar(c)
  }

  predicate ValidEntry(e: Entry) {
    ValidReference(e.reference) && e.value != Plain("")
  }

  predicate ValidBatch(batch: seq<Entry>) {
    forall e :: e in batch ==> ValidEntry(e)
  }

  function PutEntry(secrets: map<string, Secret>, e: Entry): map<string, Secret> {
    secrets[e.reference := Secret(e.actor, e.kind, e.value)]
  }

  function PutAll(secrets: map<string, Secret>, batch: seq<Entry>): map<string, Secret> {
    if batch == [] then secrets else PutEntry(PutAll(secrets, batch[..|batch| - 1]), batch[|batch| - 1])
  }

  function Resolved(secrets: map<string, Secret>, reference: string, actor: string): Option<SecretValue> {
    if reference in secrets && secrets[reference].actor == actor && secrets[reference].value != Plain("")
    then Some(secrets[reference].value) else None
  }

  predicate Owned(secrets: map<string, Secret>, reference: string, actor: string) {
    reference in secrets && secrets[reference].actor == actor
  }

  function RemoveAll(secrets: map<string, Secret>, references: seq<string>, actor: string): map<string, Secret> {
    map r | r in secrets && !(r in references && secrets[r].actor == actor) :: secrets[r]
  }

  class SecretStore {
    var secrets: map<string, Secret>

    /** Opens a store with what its file holds. */
    constructor (stored: map<string, Secret>)
      ensures secrets == stored
    {
      secrets := stored;
    }

    method Put(reference: string, actor: string, kind: string, value: SecretValue) returns (ok: bool)
      modifies this
      ensures ok <==> ValidReference(reference) && value != Plain("")
      ensures secrets == if ok then PutAll(old(secrets), [Entry(reference, actor, kind, value)]) else old(secrets)
    {
      if !ValidReference(reference) || value == Plain("") {
        return false;
      }
      var e := Entry(reference, actor, kind, value);
      assert [e][..0] == [] && PutAll(secrets, [e][..0]) == secrets;
      secrets := secrets[reference := Secret(actor, kind, value)];
      ok := true;
    }

    /** All or nothing: the document is written back only after every entry was accepted. */
    method PutMany(batch: seq<Entry>) returns (ok: bool)
      modifies this
      ensures ok <==> ValidBatch(batch)
      ensures secrets == if ok then PutAll(old(secrets), batch) else old(secrets)
    {
      var document := secrets;
      for i := 0 to |batch|
        invariant document == PutAll(old(secrets), batch[..i])
        invariant ValidBatch(batch[..i])
        invariant secrets == old(secrets)
      {
        if !ValidEntry(batch[i]) {
          return false;
        }
        assert batch[..i + 1][..i] == batch[..i] && batch[..i + 1][i] == batch[i];
        assert batch[..i + 1] == batch[..i] + [batch[i]];
        document := PutEntry(document, batch[i]);
      }
      assert batch[..|batch|] == batch;
      secrets := document;
      ok := true;
    }

    function Resolve(reference: string, actor: string): (r: Option<SecretValue>)
      reads this
      ensures r.Some? <==> Owned(secrets, reference, actor) && secrets[reference].value != Plain("")
      ensures r.Some? ==> r.value == secrets[reference].value
    {
      Resolved(secrets, reference, actor)
    }

    predicate Contains(reference: string, actor: string): (known: bool)
      reads this
      ensures known <==> Owned(secrets, reference, actor) && secrets[reference].value != Plain("")
    {
      Resolve(reference, actor).Some?
    }

    /** Deletes the actor's own records among the references and nothing else. */
    method Remove(references: seq<string>, actor: string)
      modifies this
      ensures secrets == RemoveAll(old(secrets), references, actor)
    {
      var document := secrets;
      for i := 0 to |references|
        invariant document == RemoveAll(old(secrets), references[..i], actor)
        invariant secrets == old(secrets)
      {
        assert references[..i + 1] == references[..i] + [references[i]];
        if references[i] in document && document[references[i]].actor == actor {
          document := document - {references[i]};
        }
      }
      assert references[..|references|] == references;
      secrets := document;
    }
  }

  // ----- Laws

  /** Entry i is the last one of the batch for its reference. */
  predicate IsLastFor(batch: seq<Entry>, i: nat, r: string) {
    i < |batch| && batch[i].reference == r && forall j :: i < j < |batch| ==> batch[j].reference != r
  }

  lemma {:induction false} PutAllKeeps(secrets: map<string, Secret>, batch: seq<Entry>, r: string)
    requires forall i :: 0 <= i < |batch| ==> batch[i].reference != r
    ensures r in PutAll(secrets, batch) <==> r in secrets
    ensures r in secrets ==> PutAll(secrets, batch)[r] == secrets[r]
  {
    if batch != [] {
      PutAllKeeps(secrets, batch[..|batch| - 1], r);
    }
  }

  lemma {:induction false} PutAllLast(secrets: map<string, Secret>, batch: seq<Entry>, i: nat, r: string)
    requires IsLastFor(batch, i, r)
    ensures r in PutAll(secrets, batch)
        && PutAll(secrets, batch)[r] == Secret(batch[i].actor, batch[i].kind, batch[i].value)
  {
    var n := |batch| - 1;
    if i < n {
      PutAllLast(secrets, batch[..n], i, r);
    }
  }

  lemma {:induction false} LastExists(batch: seq<Entry>, r: string) returns (i: nat)
    requires exists e :: e in batch && e.reference == r
    ensures IsLastFor(batch, i, r)
  {
    var n := |batch| - 1;
    if batch[n].reference == r {
      i := n;
    } else {
      assert batch == batch[..n] + [batch[n]];
      i := LastExists(batch[..n], r);
    }
  }

  /** After a batch, a reference of the batch holds its last entry, and others are untouched. */
  lemma PutAllHolds(secrets: map<string, Secret>, batch: seq<Entry>, r: string)
    ensures (forall e :: e in batch ==> e.reference != r) ==>
              ((r in PutAll(secrets, batch) <==> r in secrets)
                  && (r in secrets ==> PutAll(secrets, batch)[r] == secrets[r]))
    ensures (exists e :: e in batch && e.reference == r) ==> exists i: nat :: IsLastFor(batch, i, r)
    ensures forall i: nat :: IsLastFor(batch, i, r) ==>
              i < |batch| && r in PutAll(secrets, batch)
                  && PutAll(secrets, batch)[r] == Secret(batch[i].actor, batch[i].kind, batch[i].value)
  {
    hide PutAll;
    if e :| e in batch && e.reference == r {
      var i := LastExists(batch, r);
    } else {
      assert forall i :: 0 <= i < |batch| ==> batch[i] in batch;
      PutAllKeeps(secrets, batch, r);
    }
    forall i: nat | IsLastFor(batch, i, r)
      ensures i < |batch| && r in PutAll(secrets, batch)
          && PutAll(secrets, batch)[r] == Secret(batch[i].actor, batch[i].kind, batch[i].value)
    {
      PutAllLast(secrets, batch, i, r);
    }
  }

  /** Where a batch writes a reference, one of its entries for it is what the store holds. */
  lemma PutAllTakes(secrets: map<string, Secret>, batch: seq<Entry>, r: string)
    requires exists e :: e in batch && e.reference == r
    ensures r in PutAll(secrets, batch)
    ensures exists e :: e in batch && e.reference == r && PutAll(secrets, batch)[r] == Secret(e.actor, e.kind, e.value)
  {
    PutAllHolds(secrets, batch, r);
    var i: nat :| IsLastFor(batch, i, r);
    assert batch[i] in batch;
  }

  /** A secret is never resolved for an actor other than the one that stored it. */
  lemma ResolveIsActorBound(secrets: map<string, Secret>, batch: seq<Entry>, r: string, actor: string)
    requires forall e :: e in batch && e.reference == r ==> e.actor != actor
    requires exists e :: e in batch && e.reference == r
    ensures Resolved(PutAll(secrets, batch), r, actor) == None
  {
    PutAllTakes(secrets, batch, r);
  }

  /** Removing what an actor has just stored under new references restores the store. */
  lemma RemoveUndoesPut(secrets: map<string, Secret>, batch: seq<Entry>, actor: string)
    requires forall e :: e in batch ==> e.actor == actor && e.reference !in secrets
    ensures RemoveAll(PutAll(secrets, batch), seq(|batch|, i requires 0 <= i < |batch| => batch[i].reference), actor)
        == secrets
  {
    var references := seq(|batch|, i requires 0 <= i < |batch| => batch[i].reference);
    var after := RemoveAll(PutAll(secrets, batch), references, actor);
    forall r ensures r in after <==> r in secrets {
      PutAllHolds(secrets, batch, r);
      if e :| e in batch && e.reference == r {
        PutAllTakes(secrets, batch, r);
        var i :| 0 <= i < |batch| && batch[i] == e;
        assert references[i] == r;
      }
    }
    forall r | r in secrets ensures r in after && after[r] == secrets[r] {
      PutAllHolds(secrets, batch, r);
    }
  }
}
