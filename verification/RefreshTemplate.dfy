/** The path language of the refresh template: listing, reading, setting, and replacing the marker. */
module RefreshTemplate {
  import opened Domain
  import opened Json
  import opened Text
  import P = JsonPointer

  const MARKER := "[FINSEC-REFRESH-CREDENTIAL]"

  // ----- _json_paths: every leaf with its path

  function LeafPaths(j: Json, prefix: string): seq<(string, Json)>
    decreases j, 1
  {
    match j
    case Obj(members) => MemberPaths(members, prefix)
    case Arr(items) => ItemPaths(items, 0, prefix)
    case _ => [(prefix, j)]
  }

  function MemberPaths(members: seq<Member>, prefix: string): seq<(string, Json)>
    decreases members, 0
  {
    if members == [] then []
    else LeafPaths(members[0].value, prefix + "." + members[0].key) + MemberPaths(members[1..], prefix)
  }

  function ItemPaths(items: seq<Json>, index: nat, prefix: string): seq<(string, Json)>
    decreases items, 0
  {
    if items == [] then []
    else LeafPaths(items[0], prefix + "[" + DecimalText(index) + "]") + ItemPaths(items[1..], index + 1, prefix)
  }

  // ----- _json_path and _set_json_path

  /** The guard of both: a dotted path from the root without array steps. */
  predicate Supported(path: string) {
    |path| >= 2 && path[0] == '$' && path[1] == '.' && '[' !in path
  }

  function GetKeys(j: Json, keys: seq<string>): Option<Json>
    decreases |keys|
  {
    if keys == [] then Some(j)
    else if !j.Obj? then None
    else match Find(j.members, keys[0]) case None => None case Some(v) => GetKeys(v, keys[1..])
  }

  function JsonPath(j: Json, path: Option<string>): Option<Json> {
    if path.None? || !Supported(path.value) then None else GetKeys(j, Split(path.value[2..], '.'))
  }

  function Update(members: seq<Member>, key: string, v: Json): seq<Member> {
    if members == [] then []
    else if members[0].key == key then [Member(key, v)] + members[1..]
    else [members[0]] + Update(members[1..], key, v)
  }

  /** Descends through dictionaries only and overwrites an existing key; None is the source's False. */
  function SetKeys(j: Json, keys: seq<string>, v: Json): Option<Json>
    requires keys != []
    decreases |keys|
  {
    if !j.Obj? || Find(j.members, keys[0]).None? then None
    else if |keys| == 1 then Some(Obj(Update(j.members, keys[0], v)))
    else if !Find(j.members, keys[0]).value.Obj? then None
    else
      match SetKeys(Find(j.members, keys[0]).value, keys[1..], v)
      case None => None
      case Some(child) => Some(Obj(Update(j.members, keys[0], child)))
  }

  function SetJsonPath(j: Json, path: string, v: Json): Option<Json> {
    if !Supported(path) then None
    else
      SplitParts(path[2..], '.');
      SetKeys(j, Split(path[2..], '.'), v)
  }

  // ----- _replace_marker

  function ReplaceMarker(j: Json, secret: string): Json
    decreases j, 1
  {
    match j
    case Obj(members) => Obj(ReplaceInMembers(members, secret))
    case Arr(items) => Arr(ReplaceInItems(items, secret))
    case _ => if j == Str(MARKER) then Str(secret) else j
  }

  function ReplaceInMembers(members: seq<Member>, secret: string): seq<Member>
    decreases members, 0
  {
    if members == [] then []
    else [Member(members[0].key, ReplaceMarker(members[0].value, secret))] + ReplaceInMembers(members[1..], secret)
  }

  function ReplaceInItems(items: seq<Json>, secret: string): seq<Json>
    decreases items, 0
  {
    if items == [] then [] else [ReplaceMarker(items[0], secret)] + ReplaceInItems(items[1..], secret)
  }

  // ----- Conditions on observed bodies

  predicate IsClean(key: string) {
    '.' !in key && '[' !in key
  }

  /** Only keys, and each of them clean: what the path language can spell unambiguously. */
  predicate CleanPath(q: seq<P.Step>) {
    forall i :: 0 <= i < |q| ==> q[i].Key? && IsClean(q[i].name)
  }

  predicate IsScalar(j: Json) {
    !j.Obj? && !j.Arr?
  }

  predicate MarkerFree(j: Json) {
    match j
    case Obj(members) => forall i :: 0 <= i < |members| ==> MarkerFree(members[i].value)
    case Arr(items) => forall i :: 0 <= i < |items| ==> MarkerFree(items[i])
    case _ => j != Str(MARKER)
  }

  // ----- The listing: exactly the scalars, each under the spelling of where it is

  function SpelledStep(step: P.Step): string {
    match step case Key(name) => "." + name case Index(i) => "[" + DecimalText(i) + "]"
  }

  function Spelled(q: seq<P.Step>): string {
    if q == [] then [] else SpelledStep(q[0]) + Spelled(q[1..])
  }

  lemma {:induction false} MemberPathOrigin(members: seq<Member>, prefix: string, leaf: (string, Json)) returns (i: nat)
    requires leaf in MemberPaths(members, prefix)
    ensures i < |members| && leaf in LeafPaths(members[i].value, prefix + "." + members[i].key)
  {
    if leaf in LeafPaths(members[0].value, prefix + "." + members[0].key) {
      i := 0;
    } else {
      var k := MemberPathOrigin(members[1..], prefix, leaf);
      i := k + 1;
    }
  }

  lemma {:induction false} ItemPathOrigin(items: seq<Json>, index: nat, prefix: string, leaf: (string, Json))
      returns (i: nat)
    requires leaf in ItemPaths(items, index, prefix)
    ensures i < |items| && leaf in LeafPaths(items[i], prefix + "[" + DecimalText(index + i) + "]")
  {
    if leaf in LeafPaths(items[0], prefix + "[" + DecimalText(index) + "]") {
      i := 0;
    } else {
      var k := ItemPathOrigin(items[1..], index + 1, prefix, leaf);
      i := k + 1;
    }
  }

  lemma {:induction false} FindUnique(members: seq<Member>, i: nat)
    requires UniqueKeys(members) && i < |members|
    ensures Find(members, members[i].key) == Some(members[i].value)
  {
    if i > 0 {
      FindUnique(members[1..], i - 1);
    }
  }

  lemma SpelledCons(prefix: string, step: P.Step, rest: seq<P.Step>)
    ensures Spelled([step] + rest) == SpelledStep(step) + Spelled(rest)
    ensures prefix + Spelled([step] + rest) == (prefix + SpelledStep(step)) + Spelled(rest)
  {
    assert ([step] + rest)[1..] == rest;
  }

  lemma {:induction false} ListedHasNode(j: Json, prefix: string, leaf: (string, Json)) returns (q: seq<P.Step>)
    requires WellFormed(j) && leaf in LeafPaths(j, prefix)
    ensures P.At(j, q) == Some(leaf.1) && IsScalar(leaf.1) && leaf.0 == prefix + Spelled(q)
    decreases j
  {
    hide SpelledStep;
    match j
    case Obj(members) =>
      var i := MemberPathOrigin(members, prefix, leaf);
      var step := P.Key(members[i].key);
      assert prefix + "." + members[i].key == prefix + SpelledStep(step) by { KeySpelling(prefix, members[i].key); }
      var rest := ListedHasNode(members[i].value, prefix + SpelledStep(step), leaf);
      FindUnique(members, i);
      q := [step] + rest;
      SpelledCons(prefix, step, rest);
      assert q[1..] == rest;
    case Arr(items) =>
      var i := ItemPathOrigin(items, 0, prefix, leaf);
      var step := P.Index(i);
      assert prefix + "[" + DecimalText(i) + "]" == prefix + SpelledStep(step) by { IndexSpelling(prefix, i); }
      var rest := ListedHasNode(items[i], prefix + SpelledStep(step), leaf);
      q := [step] + rest;
      SpelledCons(prefix, step, rest);
      assert q[1..] == rest;
    case _ =>
      q := [];
      assert prefix + [] == prefix;
  }

  lemma KeySpelling(prefix: string, key: string)
    ensures prefix + "." + key == prefix + SpelledStep(P.Key(key))
  {
  }

  lemma IndexSpelling(prefix: string, i: nat)
    ensures prefix + "[" + DecimalText(i) + "]" == prefix + SpelledStep(P.Index(i))
  {
  }

  lemma {:induction false} MemberPathIncluded(members: seq<Member>, prefix: string, i: nat, leaf: (string, Json))
    requires i < |members| && leaf in LeafPaths(members[i].value, prefix + "." + members[i].key)
    ensures leaf in MemberPaths(members, prefix)
  {
    if i > 0 {
      MemberPathIncluded(members[1..], prefix, i - 1, leaf);
    }
  }

  lemma {:induction false} ItemPathIncluded(items: seq<Json>, index: nat, prefix: string, i: nat, leaf: (string, Json))
    requires i < |items| && leaf in LeafPaths(items[i], prefix + "[" + DecimalText(index + i) + "]")
    ensures leaf in ItemPaths(items, index, prefix)
  {
    if i > 0 {
      ItemPathIncluded(items[1..], index + 1, prefix, i - 1, leaf);
    }
  }

  lemma {:induction false} NodeIsListed(j: Json, prefix: string, q: seq<P.Step>)
    requires P.At(j, q).Some? && IsScalar(P.At(j, q).value)
    ensures (prefix + Spelled(q), P.At(j, q).value) in LeafPaths(j, prefix)
    decreases |q|
  {
    hide SpelledStep;
    if q == [] {
      assert prefix + [] == prefix;
    } else {
      var step, rest := q[0], q[1..];
      assert q == [step] + rest;
      SpelledCons(prefix, step, rest);
      NodeIsListed(P.Child(j, step).value, prefix + SpelledStep(step), rest);
      var leaf := (prefix + Spelled(q), P.At(j, q).value);
      match j
      case Obj(members) =>
        FindFinds(members, step.name);
        var i :| 0 <= i < |members| && members[i] == Member(step.name, P.Child(j, step).value);
        KeySpelling(prefix, step.name);
        MemberPathIncluded(members, prefix, i, leaf);
      case Arr(items) =>
        IndexSpelling(prefix, step.i);
        ItemPathIncluded(items, 0, prefix, step.i, leaf);
    }
  }

  // ----- Reading a spelled path back

  lemma {:induction false} SpelledKeys(keys: seq<string>)
    ensures Spelled(KeySteps(keys)) == Join(keys, '.')
  {
    if keys != [] {
      SpelledKeys(keys[1..]);
      assert KeySteps(keys)[1..] == KeySteps(keys[1..]);
      assert "." + keys[0] + Join(keys[1..], '.') == ['.'] + (keys[0] + Join(keys[1..], '.'));
    }
  }

  function Names(q: seq<P.Step>): seq<string>
    requires forall i :: 0 <= i < |q| ==> q[i].Key?
  {
    seq(|q|, i requires 0 <= i < |q| => q[i].name)
  }

  lemma {:induction false} StepsOfNames(q: seq<P.Step>)
    requires forall i :: 0 <= i < |q| ==> q[i].Key?
    ensures KeySteps(Names(q)) == q
  {
    if q != [] {
      StepsOfNames(q[1..]);
      assert Names(q)[1..] == Names(q[1..]);
    }
  }

  lemma {:induction false} StepsAreKeys(keys: seq<string>)
    ensures |KeySteps(keys)| == |keys|
    ensures forall i :: 0 <= i < |keys| ==> KeySteps(keys)[i] == P.Key(keys[i])
  {
    if keys != [] {
      StepsAreKeys(keys[1..]);
    }
  }

  lemma {:induction false} NoBracket(keys: seq<string>)
    requires forall k :: k in keys ==> IsClean(k)
    ensures '[' !in Join(keys, '.')
  {
    if keys != [] {
      assert keys[0] in keys;
      NoBracket(keys[1..]);
    }
  }

  lemma CleanReadsBack(q: seq<P.Step>)
    requires q != [] && CleanPath(q)
    ensures var path := "$" + Spelled(q); Supported(path) && KeySteps(Split(path[2..], '.')) == q
  {
    var names, path := Names(q), "$" + Spelled(q);
    StepsOfNames(q);
    SpelledKeys(names);
    NoBracket(names);
    SplitJoin(names, '.');
    hide Spelled, Split, KeySteps, Names, Join;
    AfterRoot(Join(names, '.'));
  }

  lemma AfterRoot(s: string)
    requires s != [] && s[0] == '.' && '[' !in s
    ensures Supported("$" + s) && ("$" + s)[2..] == s[1..]
  {
    assert forall c :: c in "$" + s ==> c == '$' || c in s;
  }

  lemma ReadBackIsClean(q: seq<P.Step>, path: string)
    requires Supported(path) && KeySteps(Split(path[2..], '.')) == q
    ensures CleanPath(q)
  {
    var parts := Split(path[2..], '.');
    SplitParts(path[2..], '.');
    StepsAreKeys(parts);
    hide Split, KeySteps;
    forall i | 0 <= i < |q| ensures q[i].Key? && IsClean(q[i].name) {
      assert parts[i] in parts;
      assert forall c :: c in path[2..] ==> c in path;
    }
  }

  /** Exactly the clean paths are read back as the path they spell. */
  lemma SpellingReadsBackIff(q: seq<P.Step>)
    requires q != []
    ensures var path := "$" + Spelled(q);
      Supported(path) && KeySteps(Split(path[2..], '.')) == q <==> CleanPath(q)
  {
    var path := "$" + Spelled(q);
    hide Spelled, Split, KeySteps, CleanPath;
    if CleanPath(q) {
      CleanReadsBack(q);
    }
    if Supported(path) && KeySteps(Split(path[2..], '.')) == q {
      ReadBackIsClean(q, path);
    }
  }

  // ----- What setting does

  lemma {:induction false} FindUpdate(members: seq<Member>, key: string, v: Json, other: string)
    ensures Find(Update(members, key, v), other)
         == if other == key && Find(members, key).Some? then Some(v) else Find(members, other)
  {
    if members != [] {
      FindUpdate(members[1..], key, v, other);
      if members[0].key != key {
        assert Update(members, key, v)[1..] == Update(members[1..], key, v);
      } else {
        assert Update(members, key, v)[1..] == members[1..];
      }
    }
  }

  lemma {:induction false} SetKeysSucceeds(j: Json, keys: seq<string>, v: Json)
    requires keys != [] && GetKeys(j, keys).Some?
    ensures SetKeys(j, keys, v).Some?
    ensures GetKeys(SetKeys(j, keys, v).value, keys) == Some(v)
    decreases |keys|
  {
    if |keys| == 1 {
      FindUpdate(j.members, keys[0], v, keys[0]);
      assert keys[1..] == [];
    } else {
      var child := Find(j.members, keys[0]).value;
      SetKeysSucceeds(child, keys[1..], v);
      FindUpdate(j.members, keys[0], SetKeys(child, keys[1..], v).value, keys[0]);
    }
  }

  /** The steps of a key list. */
  function KeySteps(keys: seq<string>): seq<P.Step> {
    if keys == [] then [] else [P.Key(keys[0])] + KeySteps(keys[1..])
  }

  /** Every node beside the path is untouched. */
  lemma {:induction false} SetKeysFrame(j: Json, keys: seq<string>, v: Json, q: seq<P.Step>)
    requires keys != [] && SetKeys(j, keys, v).Some?
    requires !(q <= KeySteps(keys)) && !(KeySteps(keys) <= q)
    ensures P.At(SetKeys(j, keys, v).value, q) == P.At(j, q)
    decreases |keys|
  {
    var after := SetKeys(j, keys, v).value;
    var steps := KeySteps(keys);
    assert |keys| == 1 ==> KeySteps(keys[1..]) == [];
    assert q == [q[0]] + q[1..];
    if q[0].Key? {
      var child := if |keys| == 1 then v else SetKeys(Find(j.members, keys[0]).value, keys[1..], v).value;
      FindUpdate(j.members, keys[0], child, q[0].name);
      if q[0] == steps[0] && |keys| > 1 {
        SetKeysFrame(Find(j.members, keys[0]).value, keys[1..], v, q[1..]);
      }
    }
  }

  // ----- What replacing does

  lemma {:induction false} ReplaceInMembersAt(members: seq<Member>, secret: string)
    ensures |ReplaceInMembers(members, secret)| == |members|
    ensures forall i :: 0 <= i < |members| ==>
              ReplaceInMembers(members, secret)[i] == Member(members[i].key, ReplaceMarker(members[i].value, secret))
  {
    if members != [] {
      ReplaceInMembersAt(members[1..], secret);
    }
  }

  lemma {:induction false} ReplaceInItemsAt(items: seq<Json>, secret: string)
    ensures |ReplaceInItems(items, secret)| == |items|
    ensures forall i :: 0 <= i < |items| ==> ReplaceInItems(items, secret)[i] == ReplaceMarker(items[i], secret)
  {
    if items != [] {
      ReplaceInItemsAt(items[1..], secret);
    }
  }

  /** Replacing changes nothing exactly when there is no marker, or the secret is the marker. */
  lemma {:induction false} ReplaceIsIdentityIff(j: Json, secret: string)
    ensures ReplaceMarker(j, secret) == j <==> MarkerFree(j) || secret == MARKER
    decreases j
  {
    match j
    case Obj(members) =>
      ReplaceInMembersAt(members, secret);
      forall i | 0 <= i < |members|
        ensures ReplaceMarker(members[i].value, secret) == members[i].value <==>
            MarkerFree(members[i].value) || secret == MARKER
      {
        ReplaceIsIdentityIff(members[i].value, secret);
      }
      MembersEqual(ReplaceInMembers(members, secret), members);
    case Arr(items) =>
      ReplaceInItemsAt(items, secret);
      forall i | 0 <= i < |items|
        ensures ReplaceMarker(items[i], secret) == items[i] <==> MarkerFree(items[i]) || secret == MARKER
      {
        ReplaceIsIdentityIff(items[i], secret);
      }
      assert ReplaceInItems(items, secret) == items <==> forall i :: 0 <= i < |items| ==>
          ReplaceInItems(items, secret)[i] == items[i];
    case _ =>
  }

  lemma MembersEqual(xs: seq<Member>, ys: seq<Member>)
    requires |xs| == |ys|
    ensures xs == ys <==> forall i :: 0 <= i < |xs| ==> xs[i] == ys[i]
  {
  }

  lemma {:induction false} UpdateAt(members: seq<Member>, key: string, v: Json) returns (i: nat)
    requires Find(members, key).Some?
    ensures i < |members| && members[i] == Member(key, Find(members, key).value)
    ensures Update(members, key, v) == members[i := Member(key, v)]
  {
    if members[0].key == key {
      i := 0;
    } else {
      var k := UpdateAt(members[1..], key, v);
      i := k + 1;
    }
  }

  /** Marking a leaf and replacing the marker by the leaf's secret restores the document exactly
      when no other leaf is the marker. */
  lemma {:induction false} MarkThenReplaceIff(j: Json, keys: seq<string>, secret: string)
    requires keys != [] && GetKeys(j, keys) == Some(Str(secret))
    ensures SetKeys(j, keys, Str(MARKER)).Some?
    ensures ReplaceMarker(SetKeys(j, keys, Str(MARKER)).value, secret) == j <==> MarkerFree(j) || secret == MARKER
    decreases |keys|
  {
    SetKeysSucceeds(j, keys, Str(MARKER));
    var old' := Find(j.members, keys[0]).value;
    var new' := if |keys| == 1 then Str(MARKER) else SetKeys(old', keys[1..], Str(MARKER)).value;
    if |keys| == 1 {
      assert GetKeys(old', keys[1..]) == Some(old');
    } else {
      MarkThenReplaceIff(old', keys[1..], secret);
    }
    var i := UpdateAt(j.members, keys[0], new');
    OneMemberReplaced(j.members, i, new', secret);
  }

  lemma OneMemberReplaced(members: seq<Member>, i: nat, v: Json, secret: string)
    requires i < |members|
    requires ReplaceMarker(v, secret) == members[i].value <==> MarkerFree(members[i].value) || secret == MARKER
    ensures var after := members[i := Member(members[i].key, v)];
      ReplaceInMembers(after, secret) == members <==> MarkerFree(Obj(members)) || secret == MARKER
  {
    var after := members[i := Member(members[i].key, v)];
    ReplaceInMembersAt(after, secret);
    forall k | 0 <= k < |members|
      ensures ReplaceInMembers(after, secret)[k] == members[k] <==> MarkerFree(members[k].value) || secret == MARKER
    {
      if k != i {
        ReplaceIsIdentityIff(members[k].value, secret);
      }
    }
    MembersEqual(ReplaceInMembers(after, secret), members);
  }

  /** Replacing markers commutes with reading. */
  lemma {:induction false} GetThroughReplace(j: Json, keys: seq<string>, secret: string)
    requires GetKeys(j, keys).Some?
    ensures GetKeys(ReplaceMarker(j, secret), keys) == Some(ReplaceMarker(GetKeys(j, keys).value, secret))
    decreases |keys|
  {
    if keys != [] {
      FindThroughReplace(j.members, keys[0], secret);
      GetThroughReplace(Find(j.members, keys[0]).value, keys[1..], secret);
    }
  }

  lemma {:induction false} FindThroughReplace(members: seq<Member>, key: string, secret: string)
    requires Find(members, key).Some?
    ensures Find(ReplaceInMembers(members, secret), key) == Some(ReplaceMarker(Find(members, key).value, secret))
  {
    if members[0].key != key {
      FindThroughReplace(members[1..], key, secret);
      assert ReplaceInMembers(members, secret)[1..] == ReplaceInMembers(members[1..], secret);
    }
  }

  lemma {:induction false} SetNeedsReadable(j: Json, keys: seq<string>, v: Json)
    requires keys != []
    ensures SetKeys(j, keys, v).Some? <==> GetKeys(j, keys).Some?
    decreases |keys|
  {
    if GetKeys(j, keys).Some? {
      SetKeysSucceeds(j, keys, v);
    } else if j.Obj? && Find(j.members, keys[0]).Some? && |keys| > 1 {
      SetNeedsReadable(Find(j.members, keys[0]).value, keys[1..], v);
    }
  }

  lemma {:induction false} AtKeySteps(j: Json, keys: seq<string>)
    ensures P.At(j, KeySteps(keys)) == GetKeys(j, keys)
    decreases |keys|
  {
    if keys != [] && j.Obj? && Find(j.members, keys[0]).Some? {
      AtKeySteps(Find(j.members, keys[0]).value, keys[1..]);
    }
  }

  // ----- Main results

  /** The listing of any document holds exactly its scalars, each under the spelling of its place. */
  lemma ListedIffScalar(body: Json, path: string, leaf: Json)
    requires WellFormed(body)
    ensures (path, leaf) in LeafPaths(body, "$")
      <==> IsScalar(leaf) && exists q :: P.At(body, q) == Some(leaf) && path == "$" + Spelled(q)
  {
    if (path, leaf) in LeafPaths(body, "$") {
      var q := ListedHasNode(body, "$", (path, leaf));
    }
    if q :| IsScalar(leaf) && P.At(body, q) == Some(leaf) && path == "$" + Spelled(q) {
      NodeIsListed(body, "$", q);
    }
  }

  /** The path is a dollar sign and these keys, each after a dot, without an opening bracket. */
  predicate IsPathOf(path: string, keys: seq<string>) {
    keys != [] && path == "$" + Join(keys, '.') && '[' !in path && forall k :: k in keys ==> '.' !in k
  }

  /** A path reads a value exactly when its keys lead there, and no other path reads anything. */
  lemma PathReadsIff(j: Json, path: string, v: Json)
    ensures JsonPath(j, Some(path)) == Some(v) <==>
        exists keys :: IsPathOf(path, keys) && P.At(j, KeySteps(keys)) == Some(v)
    ensures JsonPath(j, None) == None
  {
    hide Split, Join, GetKeys, P.At, KeySteps;
    if Supported(path) {
      var keys := Split(path[2..], '.');
      JoinSplit(path[2..], '.');
      SplitParts(path[2..], '.');
      AtKeySteps(j, keys);
      assert path == "$" + ("." + path[2..]);
      assert IsPathOf(path, keys);
    }
    forall keys | IsPathOf(path, keys)
      ensures Supported(path) && Split(path[2..], '.') == keys && GetKeys(j, keys) == P.At(j, KeySteps(keys))
    {
      SplitJoin(keys, '.');
      AtKeySteps(j, keys);
      var tail := Join(keys, '.');
      assert path[1..] == tail && path[1] == tail[0] && path[2..] == tail[1..];
    }
  }

  /** A path of any document can be set exactly when it can be read, and then reads what was set. */
  lemma SettableIffReadable(body: Json, path: string, v: Json)
    ensures SetJsonPath(body, path, v).Some? <==> JsonPath(body, Some(path)).Some?
    ensures SetJsonPath(body, path, v).Some? ==> JsonPath(SetJsonPath(body, path, v).value, Some(path)) == Some(v)
  {
    if Supported(path) {
      SplitParts(path[2..], '.');
      SetNeedsReadable(body, Split(path[2..], '.'), v);
      if GetKeys(body, Split(path[2..], '.')).Some? {
        SetKeysSucceeds(body, Split(path[2..], '.'), v);
      }
    }
  }

  /** A listed path means the node it was listed for if and only if that node is reached by clean
      keys alone; then it can be set, and reading it gives the node.  Keys elsewhere do not matter. */
  lemma ListedPathIsSettable(body: Json, q: seq<P.Step>, v: Json)
    requires q != [] && P.At(body, q).Some?
    ensures var path := "$" + Spelled(q);
      && (Supported(path) && KeySteps(Split(path[2..], '.')) == q <==> CleanPath(q))
      && (CleanPath(q) ==> SetJsonPath(body, path, v).Some? && JsonPath(body, Some(path)) == P.At(body, q))
  {
    var path := "$" + Spelled(q);
    SpellingReadsBackIff(q);
    if CleanPath(q) {
      AtKeySteps(body, Split(path[2..], '.'));
      SettableIffReadable(body, path, v);
    }
  }

  /** The template round trip, for any body, any path that can be marked and any secret: replacing
      the marker by the secret gives the body back if and only if the path reads that secret and the
      body holds no marker of its own (or the secret itself is the marker). */
  lemma TemplateRoundTrip(body: Json, path: string, secret: string)
    requires SetJsonPath(body, path, Str(MARKER)).Some?
    ensures ReplaceMarker(SetJsonPath(body, path, Str(MARKER)).value, secret) == body
      <==> JsonPath(body, Some(path)) == Some(Str(secret)) && (MarkerFree(body) || secret == MARKER)
  {
    SplitParts(path[2..], '.');
    var keys := Split(path[2..], '.');
    SetNeedsReadable(body, keys, Str(MARKER));
    if GetKeys(body, keys) == Some(Str(secret)) {
      MarkThenReplaceIff(body, keys, secret);
    } else {
      SetKeysSucceeds(body, keys, Str(MARKER));
      GetThroughReplace(SetKeys(body, keys, Str(MARKER)).value, keys, secret);
    }
  }

  /** In between, the marker stands where the path leads and every node off it is as observed. */
  lemma TemplateHidesOnlyTheSecret(body: Json, path: string, q: seq<P.Step>)
    requires SetJsonPath(body, path, Str(MARKER)).Some?
    ensures var steps, template := KeySteps(Split(path[2..], '.')), SetJsonPath(body, path, Str(MARKER)).value;
      && P.At(template, steps) == Some(Str(MARKER))
      && (!(q <= steps) && !(steps <= q) ==> P.At(template, q) == P.At(body, q))
  {
    SplitParts(path[2..], '.');
    var keys := Split(path[2..], '.');
    SetNeedsReadable(body, keys, Str(MARKER));
    SetKeysSucceeds(body, keys, Str(MARKER));
    var template := SetKeys(body, keys, Str(MARKER)).value;
    AtKeySteps(template, keys);
    if !(q <= KeySteps(keys)) && !(KeySteps(keys) <= q) {
      SetKeysFrame(body, keys, Str(MARKER), q);
    }
  }

  lemma {:induction false} AtBeyond(j: Json, p: seq<P.Step>, r: seq<P.Step>)
    requires P.At(j, p).Some?
    ensures P.At(j, p + r) == P.At(P.At(j, p).value, r)
    decreases |p|
  {
    if p == [] {
      assert p + r == r;
    } else {
      assert (p + r)[0] == p[0] && (p + r)[1..] == p[1..] + r;
      AtBeyond(P.Child(j, p[0]).value, p[1..], r);
    }
  }

  lemma {:induction false} SpelledAppend(p: seq<P.Step>, r: seq<P.Step>)
    ensures Spelled(p + r) == Spelled(p) + Spelled(r)
    decreases |p|
  {
    hide SpelledStep;
    if p == [] {
      assert p + r == r;
    } else {
      SpelledAppend(p[1..], r);
      assert (p + r)[0] == p[0] && (p + r)[1..] == p[1..] + r;
    }
  }

  lemma SpelledLength(r: seq<P.Step>)
    requires r != []
    ensures |Spelled(r)| > 0
  {
  }

  /** The secret disappears from its own node if and only if that node is reached by clean keys. */
  lemma SecretIsHiddenIff(body: Json, q: seq<P.Step>, secret: string)
    requires q != [] && P.At(body, q) == Some(Str(secret))
    requires SetJsonPath(body, "$" + Spelled(q), Str(MARKER)).Some?
    ensures P.At(SetJsonPath(body, "$" + Spelled(q), Str(MARKER)).value, q) == Some(Str(MARKER))
      <==> CleanPath(q) || secret == MARKER
  {
    var path := "$" + Spelled(q);
    var keys := Split(path[2..], '.');
    TemplateHidesOnlyTheSecret(body, path, q);
    SpellingReadsBackIff(q);
    SettableIffReadable(body, path, Str(MARKER));
    AtKeySteps(body, keys);
    hide P.At, Spelled, Split, KeySteps, SetJsonPath, CleanPath;
    if !CleanPath(q) {
      ReadsElsewhere(body, q, keys);
    }
  }

  /** A path that is read back differently leads to a node beside the leaf it was spelled for. */
  lemma ReadsElsewhere(body: Json, q: seq<P.Step>, keys: seq<string>)
    requires P.At(body, q).Some? && IsScalar(P.At(body, q).value) && P.At(body, KeySteps(keys)).Some?
    requires Supported("$" + Spelled(q)) && keys == Split(("$" + Spelled(q))[2..], '.')
    requires KeySteps(keys) != q
    ensures !(q <= KeySteps(keys)) && !(KeySteps(keys) <= q)
  {
    var steps, path := KeySteps(keys), "$" + Spelled(q);
    hide KeySteps, Spelled, Split;
    if q <= steps {
      assert steps == q + steps[|q|..];
      AtBeyond(body, q, steps[|q|..]);
    }
    if steps <= q {
      assert q == steps + q[|steps|..];
      SpelledAppend(steps, q[|steps|..]);
      SpelledLength(q[|steps|..]);
      SpelledKeys(keys);
      JoinSplit(path[2..], '.');
    }
  }

  // ----- The two failures on concrete bodies

  /** Two members whose spellings coincide. */
  function DottedBody(outer: string, inner: string, x: string, y: string): Json {
    Obj([Member(outer + "." + inner, Str(x)), Member(outer, Obj([Member(inner, Str(y))]))])
  }

  lemma DottedNodes(outer: string, inner: string, x: string, y: string)
    ensures var body := DottedBody(outer, inner, x, y);
      && P.At(body, [P.Key(outer + "." + inner)]) == Some(Str(x))
      && P.At(body, [P.Key(outer), P.Key(inner)]) == Some(Str(y))
  {
    var body := DottedBody(outer, inner, x, y);
    var low := Obj([Member(inner, Str(y))]);
    assert [P.Key(outer + "." + inner)][1..] == [];
    assert body.members[1..][0] == Member(outer, low);
    assert |outer + "." + inner| > |outer|;
    assert Find(body.members, outer) == Some(low);
    assert [P.Key(outer), P.Key(inner)][1..] == [P.Key(inner)] && [P.Key(inner)][1..] == [];
    assert P.At(low, [P.Key(inner)]) == P.At(Str(y), []);
  }

  lemma DottedSpellings(outer: string, inner: string)
    ensures Spelled([P.Key(outer + "." + inner)]) == "." + outer + "." + inner == Spelled([P.Key(outer), P.Key(inner)])
  {
    assert [P.Key(outer + "." + inner)][1..] == [];
    assert [P.Key(outer), P.Key(inner)][1..] == [P.Key(inner)] && [P.Key(inner)][1..] == [];
    assert Spelled([P.Key(inner)]) == "." + inner;
    assert "." + (outer + "." + inner) == "." + outer + "." + inner == ("." + outer) + ("." + inner);
  }

  /** A dotted key, for instance outer "a", inner "refresh_token", x "X", y "Y": the path listed
      first leads to the other member, the credential stays in clear text in the template, and the
      body that is sent differs from the observed one. */
  lemma DottedKeyExample(outer: string, inner: string, x: string, y: string)
    requires IsClean(outer) && IsClean(inner) && x != y && x != MARKER
    ensures var body, path := DottedBody(outer, inner, x, y), "$" + ("." + outer + "." + inner);
      && LeafPaths(body, "$") != [] && LeafPaths(body, "$")[0] == (path, Str(x))
      && SetJsonPath(body, path, Str(MARKER)).Some?
      && var template := SetJsonPath(body, path, Str(MARKER)).value;
      && P.At(template, [P.Key(outer + "." + inner)]) == Some(Str(x))
      && ReplaceMarker(template, x) != body
  {
    var body, path := DottedBody(outer, inner, x, y), "$" + ("." + outer + "." + inner);
    var listed, reached := [P.Key(outer + "." + inner)], [P.Key(outer), P.Key(inner)];
    DottedListing(outer, inner, x, y);
    DottedNodes(outer, inner, x, y);
    DottedSpellings(outer, inner);
    hide *;
    assert CleanPath(reached) by { CleanTwo(outer, inner); }
    assert !CleanPath(listed) by { DottedIsUnclean(outer, inner); }
    ListedPathIsSettable(body, reached, Str(MARKER));
    SecretIsHiddenIff(body, listed, x);
    TemplateHidesOnlyTheSecret(body, path, listed);
    OtherSteps(outer, inner);
    TemplateRoundTrip(body, path, x);
  }

  lemma CleanTwo(outer: string, inner: string)
    requires IsClean(outer) && IsClean(inner)
    ensures CleanPath([P.Key(outer), P.Key(inner)])
  {
  }

  lemma DottedIsUnclean(outer: string, inner: string)
    ensures !CleanPath([P.Key(outer + "." + inner)])
  {
    assert (outer + "." + inner)[|outer|] == '.';
    assert [P.Key(outer + "." + inner)][0].name == outer + "." + inner;
  }

  lemma OtherSteps(outer: string, inner: string)
    ensures !([P.Key(outer + "." + inner)] <= [P.Key(outer), P.Key(inner)])
    ensures !([P.Key(outer), P.Key(inner)] <= [P.Key(outer + "." + inner)])
  {
    assert |outer + "." + inner| > |outer|;
    assert [P.Key(outer + "." + inner)][0] != [P.Key(outer), P.Key(inner)][0];
  }

  lemma DottedListing(outer: string, inner: string, x: string, y: string)
    ensures var path := "$" + ("." + outer + "." + inner);
      LeafPaths(DottedBody(outer, inner, x, y), "$") == [(path, Str(x)), (path, Str(y))]
  {
    var members := DottedBody(outer, inner, x, y).members;
    var path := "$" + "." + (outer + "." + inner);
    assert path == "$" + ("." + outer + "." + inner);
    assert LeafPaths(members[0].value, path) == [(path, Str(x))];
    assert LeafPaths(DottedBody(outer, inner, x, y), "$") == [(path, Str(x))] + MemberPaths(members[1..], "$");
    SecondListing(outer, inner, y);
    assert members[1..] == [Member(outer, Obj([Member(inner, Str(y))]))];
    assert path == "$" + "." + outer + "." + inner;
  }

  lemma SecondListing(outer: string, inner: string, y: string)
    ensures MemberPaths([Member(outer, Obj([Member(inner, Str(y))]))], "$")
        == [("$" + "." + outer + "." + inner, Str(y))]
  {
    var members, low := [Member(outer, Obj([Member(inner, Str(y))]))], [Member(inner, Str(y))];
    var prefix := "$" + "." + outer;
    assert members[1..] == [] && low[1..] == [];
    assert MemberPaths(low[1..], prefix) == [] && MemberPaths(members[1..], "$") == [];
    assert LeafPaths(Str(y), prefix + "." + inner) == [(prefix + "." + inner, Str(y))];
    assert MemberPaths(low, prefix) == [(prefix + "." + inner, Str(y))];
  }

  /** A marker in another member, for instance key "refresh_token", t "t", other "note": what is
      sent carries the credential in both places. */
  lemma MarkedBodyExample(key: string, t: string, other: string)
    requires IsClean(key) && key != other && t != MARKER
    ensures var body, path := Obj([Member(key, Str(t)), Member(other, Str(MARKER))]), "$" + ("." + key);
      && SetJsonPath(body, path, Str(MARKER)).Some?
      && JsonPath(body, Some(path)) == Some(Str(t))
      && ReplaceMarker(SetJsonPath(body, path, Str(MARKER)).value, t) != body
  {
    var body, q := Obj([Member(key, Str(t)), Member(other, Str(MARKER))]), [P.Key(key)];
    assert q[1..] == [];
    assert Spelled(q) == "." + key;
    assert P.At(body, q) == P.At(Str(t), []) == Some(Str(t));
    assert !MarkerFree(body) by {
      assert !MarkerFree(body.members[1].value);
    }
    ListedPathIsSettable(body, q, Str(MARKER));
    TemplateRoundTrip(body, "$" + Spelled(q), t);
  }
}
