/** JSON documents as parsed by the program: objects keep their members in insertion order. */
module Json {
  import opened Domain

  datatype Json =
    | Null
    | Bool(b: bool)
    | Int(n: int)
    | Float(x: real)
    | Str(s: string)
    | Arr(items: seq<Json>)
    | Obj(members: seq<Member>)

  datatype Member = Member(key: string, value: Json)

  predicate HasKey(members: seq<Member>, key: string) {
    exists i :: 0 <= i < |members| && members[i].key == key
  }

  function Find(members: seq<Member>, key: string): Option<Json> {
    if members == [] then None
    else if members[0].key == key then Some(members[0].value)
    else Find(members[1..], key)
  }

  /** Keys of a dictionary are unique. */
  predicate UniqueKeys(members: seq<Member>) {
    forall i, j :: 0 <= i < j < |members| ==> members[i].key != members[j].key
  }

  predicate WellFormed(j: Json) {
    match j
    case Arr(items) => forall i :: 0 <= i < |items| ==> WellFormed(items[i])
    case Obj(members) => UniqueKeys(members) && forall i :: 0 <= i < |members| ==> WellFormed(members[i].value)
    case _ => true
  }

  /** `_unique_object`: builds an object and refuses a repeated key. */
  method UniqueObject(pairs: seq<Member>) returns (r: Option<Json>)
    ensures r.Some? <==> UniqueKeys(pairs)
    ensures r.Some? ==> r.value == Obj(pairs)
  {
    var members: seq<Member> := [];
    for i := 0 to |pairs|
      invariant members == pairs[..i] && UniqueKeys(pairs[..i])
    {
      if HasKey(members, pairs[i].key) {
        return None;
      }
      members := members + [pairs[i]];
      assert pairs[..i + 1] == pairs[..i] + [pairs[i]];
    }
    assert pairs[..|pairs|] == pairs;
    r := Some(Obj(members));
  }

  lemma {:induction false} FindFinds(members: seq<Member>, key: string)
    ensures Find(members, key).Some? <==> HasKey(members, key)
    ensures Find(members, key).Some? ==>
        exists i :: 0 <= i < |members| && members[i] == Member(key, Find(members, key).value)
  {
    if members != [] {
      FindFinds(members[1..], key);
      assert forall i :: 0 <= i < |members[1..]| ==> members[1..][i] == members[i + 1];
      if members[0].key != key && HasKey(members, key) {
        var i :| 0 <= i < |members| && members[i].key == key;
        assert members[1..][i - 1].key == key;
      }
    }
  }
}
