/** JSON Pointer evaluation (RFC 6901) as `finsec/auth/identity.py` performs it. */
module JsonPointer {
  import opened Domain
  import opened Json
  import opened Text

  /** Python's view of a character: `isdigit` holds of decimals and of other digits such as
      superscripts, but only decimals convert with `int`. */
  datatype DigitKind = NotDigit | Decimal(value: nat) | OtherDigit

  type Numerals = char -> DigitKind

  predicate IsAsciiDigit(c: char) {
    '0' <= c <= '9'
  }

  /** What every Unicode table agrees on. */
  ghost predicate Standard(kind: Numerals) {
    && (forall c: char :: IsAsciiDigit(c) ==> kind(c) == Decimal((c - '0') as nat))
    && (forall c: char :: kind(c).Decimal? ==> kind(c).value < 10)
    && (forall c: char :: c < 128 as char && !IsAsciiDigit(c) ==> kind(c) == NotDigit)
  }

  datatype Resolved = Confirmed(value: Json) | SelectorMissing | ConversionError

  // ----- Tokens

  /** The regular expression ~(?:[^01]|$): a tilde that does not start an escape. */
  predicate BadEscape(s: string) {
    exists i :: 0 <= i < |s| && s[i] == '~' && (i + 1 == |s| || (s[i + 1] != '0' && s[i + 1] != '1'))
  }

  /** `s.replace("~" + second, plain)`. */
  function ReplaceEscape(s: string, second: char, plain: char): string {
    if s == [] then []
    else if |s| >= 2 && s[0] == '~' && s[1] == second then [plain] + ReplaceEscape(s[2..], second, plain)
    else [s[0]] + ReplaceEscape(s[1..], second, plain)
  }

  function PointerToken(raw: string): Option<string> {
    if BadEscape(raw) then None
    else Some(ReplaceEscape(ReplaceEscape(raw, '1', '/'), '0', '~'))
  }

  /** Section 4 of RFC 6901 as one left-to-right pass. */
  function DecodeOnce(s: string): string {
    if s == [] then []
    else if |s| >= 2 && s[0] == '~' && s[1] == '1' then "/" + DecodeOnce(s[2..])
    else if |s| >= 2 && s[0] == '~' && s[1] == '0' then "~" + DecodeOnce(s[2..])
    else [s[0]] + DecodeOnce(s[1..])
  }

  function Escape(key: string): string {
    if key == [] then []
    else (if key[0] == '~' then "~0" else if key[0] == '/' then "~1" else [key[0]]) + Escape(key[1..])
  }

  lemma BadEscapeHere(s: string)
    requires s != []
    requires !BadEscape(s)
    ensures s[0] == '~' ==> |s| >= 2 && (s[1] == '0' || s[1] == '1') && !BadEscape(s[2..])
    ensures s[0] != '~' ==> !BadEscape(s[1..])
  {
    assert s[0] == '~' ==> |s| >= 2 && (s[1] == '0' || s[1] == '1');
    if s[0] == '~' {
      assert forall i :: 0 <= i < |s[2..]| ==> s[2..][i] == s[i + 2];
    } else {
      assert forall i :: 0 <= i < |s[1..]| ==> s[1..][i] == s[i + 1];
    }
  }

  /** The two replacement passes, in this order, are the one-pass decoding of every accepted token. */
  lemma {:induction false} TwoPassesDecodeOnce(s: string)
    requires !BadEscape(s)
    ensures PointerToken(s) == Some(DecodeOnce(s))
  {
    if s != [] {
      BadEscapeHere(s);
      hide BadEscape;
      if s[0] == '~' {
        var t := s[2..];
        TwoPassesDecodeOnce(t);
        assert s == ['~', s[1]] + t;
        var r := ReplaceEscape(t, '1', '/');
        if s[1] == '0' {
          SkipEscape(t, r);
        } else {
          assert ReplaceEscape(s, '1', '/') == ['/'] + r;
          PlainChar('/', r, '0', '~');
        }
      } else {
        var t := s[1..];
        TwoPassesDecodeOnce(t);
        assert s == [s[0]] + t;
        PlainChar(s[0], t, '1', '/');
        PlainChar(s[0], ReplaceEscape(t, '1', '/'), '0', '~');
      }
    }
  }

  /** A character other than the tilde is copied. */
  lemma PlainChar(c: char, r: string, second: char, plain: char)
    requires c != '~'
    ensures ReplaceEscape([c] + r, second, plain) == [c] + ReplaceEscape(r, second, plain)
  {
    assert ([c] + r)[1..] == r;
  }

  /** The first pass leaves `~0` alone, and the second turns it into a tilde. */
  lemma SkipEscape(t: string, r: string)
    requires r == ReplaceEscape(t, '1', '/')
    ensures ReplaceEscape(['~', '0'] + t, '1', '/') == ['~', '0'] + r
    ensures ReplaceEscape(['~', '0'] + r, '0', '~') == ['~'] + ReplaceEscape(r, '0', '~')
  {
    assert (['~', '0'] + t)[1..] == ['0'] + t;
    PlainChar('0', t, '1', '/');
    assert ['~'] + (['0'] + r) == ['~', '0'] + r;
    assert (['~', '0'] + r)[2..] == r;
  }

  /** Escaping produces accepted tokens without a slash, and decoding undoes it. */
  lemma {:induction false} DecodeEscape(key: string)
    ensures !BadEscape(Escape(key)) && '/' !in Escape(key)
    ensures DecodeOnce(Escape(key)) == key
  {
    if key != [] {
      DecodeEscape(key[1..]);
      assert key == [key[0]] + key[1..];
      hide BadEscape, DecodeOnce;
      var t := Escape(key[1..]);
      if key[0] == '~' {
        EscapedHead('0', t);
      } else if key[0] == '/' {
        EscapedHead('1', t);
      } else {
        PlainHead(key[0], t);
      }
    }
  }

  lemma EscapedHead(second: char, t: string)
    requires !BadEscape(t) && (second == '0' || second == '1')
    ensures !BadEscape(['~', second] + t)
    ensures DecodeOnce(['~', second] + t) == [if second == '1' then '/' else '~'] + DecodeOnce(t)
  {
    var s := ['~', second] + t;
    assert s[2..] == t;
    forall i | 1 < i < |s| && s[i] == '~' ensures i + 1 < |s| && (s[i + 1] == '0' || s[i + 1] == '1') {
      assert t[i - 2] == '~';
    }
  }

  lemma PlainHead(c: char, t: string)
    requires !BadEscape(t) && c != '~'
    ensures !BadEscape([c] + t) && DecodeOnce([c] + t) == [c] + DecodeOnce(t)
  {
    var s := [c] + t;
    assert s[1..] == t;
    forall i | 0 < i < |s| && s[i] == '~' ensures i + 1 < |s| && (s[i + 1] == '0' || s[i + 1] == '1') {
      assert t[i - 1] == '~';
    }
  }

  /** Decoding is injective: every accepted token without a slash is the escape of its decoding. */
  lemma {:induction false} EscapeDecode(s: string)
    requires !BadEscape(s) && '/' !in s
    ensures Escape(DecodeOnce(s)) == s
  {
    if s != [] {
      BadEscapeHere(s);
      if s[0] == '~' {
        EscapeDecode(s[2..]);
        assert (DecodeOnce(s))[1..] == DecodeOnce(s[2..]);
        assert s == s[..2] + s[2..];
      } else {
        EscapeDecode(s[1..]);
        assert (DecodeOnce(s))[1..] == DecodeOnce(s[1..]);
        assert s == [s[0]] + s[1..];
      }
    }
  }

  // ----- Array indices

  predicate AllDigits(kind: Numerals, s: string) {
    s != [] && forall c :: c in s ==> kind(c) != NotDigit
  }

  predicate Converts(kind: Numerals, s: string) {
    forall c :: c in s ==> kind(c).Decimal?
  }

  function ToInt(kind: Numerals, s: string): nat
    requires Converts(kind, s)
  {
    if s == [] then 0 else ToInt(kind, s[..|s| - 1]) * 10 + kind(s[|s| - 1]).value
  }

  predicate HasLeadingZero(s: string) {
    |s| > 1 && s[0] == '0'
  }

  lemma {:induction false} DecimalTextReads(kind: Numerals, n: nat)
    requires Standard(kind)
    ensures DecimalText(n) != [] && !HasLeadingZero(DecimalText(n))
    ensures n > 0 ==> DecimalText(n)[0] != '0'
    ensures forall c :: c in DecimalText(n) ==> IsAsciiDigit(c)
    ensures Converts(kind, DecimalText(n)) && ToInt(kind, DecimalText(n)) == n
  {
    var s := DecimalText(n);
    if n < 10 {
      assert s[..0] == [];
      assert ToInt(kind, s[..0]) == 0;
    } else {
      DecimalTextReads(kind, n / 10);
      assert s[..|s| - 1] == DecimalText(n / 10);
      assert s[0] == DecimalText(n / 10)[0];
    }
  }

  lemma {:induction false} AsciiReadsBack(kind: Numerals, s: string)
    requires Standard(kind) && AllDigits(kind, s) && IsAscii(s) && !HasLeadingZero(s)
    ensures Converts(kind, s) && DecimalText(ToInt(kind, s)) == s
    ensures s[0] != '0' ==> ToInt(kind, s) > 0
  {
    hide DecimalText, Standard, Digit, ToInt, Converts, IsAsciiDigit;
    var n := |s| - 1;
    assert s[n] in s && s[0] in s;
    AsciiDigitKind(kind, s[n]);
    if n == 0 {
      assert s == [s[0]];
      SingleReads(kind, s[0]);
    } else {
      PrefixDigits(kind, s, n);
      AsciiReadsBack(kind, s[..n]);
      AppendReads(kind, s[..n], s[n]);
      assert s == s[..n] + [s[n]];
    }
  }

  lemma PrefixDigits(kind: Numerals, s: string, n: nat)
    requires AllDigits(kind, s) && IsAscii(s) && !HasLeadingZero(s) && 0 < n < |s|
    ensures AllDigits(kind, s[..n]) && IsAscii(s[..n]) && !HasLeadingZero(s[..n]) && s[..n][0] == s[0] != '0'
  {
    assert forall c :: c in s[..n] ==> c in s;
  }

  lemma SingleReads(kind: Numerals, c: char)
    requires kind(c).Decimal? && kind(c).value < 10 && Digit(kind(c).value) == c && (c != '0' ==> kind(c).value > 0)
    ensures Converts(kind, [c]) && DecimalText(ToInt(kind, [c])) == [c]
    ensures c != '0' ==> ToInt(kind, [c]) > 0
  {
    assert [c][..0] == [];
    assert ToInt(kind, [c][..0]) == 0;
    OneDigit(kind(c).value);
  }

  lemma AppendReads(kind: Numerals, init: string, c: char)
    requires Converts(kind, init) && ToInt(kind, init) > 0 && DecimalText(ToInt(kind, init)) == init
    requires kind(c).Decimal? && kind(c).value < 10 && Digit(kind(c).value) == c
    ensures Converts(kind, init + [c]) && ToInt(kind, init + [c]) > 0
        && DecimalText(ToInt(kind, init + [c])) == init + [c]
  {
    hide DecimalText, Digit;
    var s := init + [c];
    assert s[..|s| - 1] == init;
    AppendedDigit(ToInt(kind, init), kind(c).value);
  }

  lemma AsciiDigitKind(kind: Numerals, c: char)
    requires Standard(kind) && kind(c) != NotDigit && c < 128 as char
    ensures kind(c).Decimal? && kind(c).value < 10 && Digit(kind(c).value) == c && (c != '0' ==> kind(c).value > 0)
  {
    assert IsAsciiDigit(c);
  }

  lemma OneDigit(v: nat)
    requires v < 10
    ensures DecimalText(v) == [Digit(v)]
  {
  }

  lemma AppendedDigit(n: nat, v: nat)
    requires n > 0 && v < 10
    ensures DecimalText(n * 10 + v) == DecimalText(n) + [Digit(v)]
  {
    assert (n * 10 + v) / 10 == n;
  }

  /** Two different accepted index tokens can mean the same element only through non-ASCII
      digits: a token is the canonical decimal of its value exactly when it is ASCII. */
  lemma IndexTokenIsCanonicalIffAscii(kind: Numerals, s: string)
    requires Standard(kind) && AllDigits(kind, s) && Converts(kind, s) && !HasLeadingZero(s)
    ensures s == DecimalText(ToInt(kind, s)) <==> IsAscii(s)
  {
    if IsAscii(s) {
      AsciiReadsBack(kind, s);
    }
    DecimalTextReads(kind, ToInt(kind, s));
  }

  // ----- Resolution

  function RemovePrefix(s: string): string {
    if s != [] && s[0] == '/' then s[1..] else s
  }

  /** One iteration of the resolution loop. */
  function StepInto(kind: Numerals, current: Json, raw: string): Resolved {
    match PointerToken(raw)
    case None => SelectorMissing
    case Some(part) =>
      match current
      case Obj(members) =>
        (match Find(members, part) case Some(v) => Confirmed(v) case None => SelectorMissing)
      case Arr(items) =>
        if !AllDigits(kind, part) || HasLeadingZero(part) then SelectorMissing
        else if !Converts(kind, part) then ConversionError
        else if ToInt(kind, part) >= |items| then SelectorMissing
        else Confirmed(items[ToInt(kind, part)])
      case _ => SelectorMissing
  }

  function Walk(kind: Numerals, current: Json, parts: seq<string>): Resolved
    decreases |parts|
  {
    if parts == [] then Confirmed(current)
    else
      var next := StepInto(kind, current, parts[0]);
      if next.Confirmed? then Walk(kind, next.value, parts[1..]) else next
  }

  function Resolve(kind: Numerals, document: Json, pointer: string): Resolved {
    Walk(kind, document, Split(RemovePrefix(pointer), '/'))
  }

  method ResolveJsonPointer(kind: Numerals, document: Json, pointer: string) returns (r: Resolved)
    ensures r == Resolve(kind, document, pointer)
  {
    var parts := Split(RemovePrefix(pointer), '/');
    var current := document;
    for i := 0 to |parts|
      invariant Walk(kind, current, parts[i..]) == Resolve(kind, document, pointer)
    {
      assert parts[i..][0] == parts[i] && parts[i..][1..] == parts[i + 1..];
      var next := StepInto(kind, current, parts[i]);
      if !next.Confirmed? {
        return next;
      }
      current := next.value;
    }
    assert parts[|parts|..] == [];
    r := Confirmed(current);
  }

  // ----- Paths and their pointers

  datatype Step = Key(name: string) | Index(i: nat)

  function Child(j: Json, step: Step): Option<Json> {
    match (j, step)
    case (Obj(members), Key(name)) => Find(members, name)
    case (Arr(items), Index(i)) => if i < |items| then Some(items[i]) else None
    case _ => None
  }

  function At(j: Json, path: seq<Step>): Option<Json>
    decreases |path|
  {
    if path == [] then Some(j)
    else match Child(j, path[0]) case None => None case Some(v) => At(v, path[1..])
  }

  function Token(step: Step): string {
    match step case Key(name) => Escape(name) case Index(i) => DecimalText(i)
  }

  function Tokens(path: seq<Step>): seq<string> {
    if path == [] then [] else [Token(path[0])] + Tokens(path[1..])
  }

  /** The RFC 6901 pointer to a path. */
  function Render(path: seq<Step>): string {
    if path == [] then [] else "/" + (Token(path[0]) + Render(path[1..]))
  }

  lemma TokenHasNoSlash(kind: Numerals, step: Step)
    requires Standard(kind)
    ensures '/' !in Token(step) && !BadEscape(Token(step))
  {
    match step
    case Key(name) => DecodeEscape(name);
    case Index(i) =>
      DecimalTextReads(kind, i);
      PlainToken(DecimalText(i));
  }

  lemma RenderParts(path: seq<Step>)
    requires path != []
    ensures RemovePrefix(Render(path)) == Token(path[0]) + Render(path[1..])
    ensures |path| > 1 ==> Render(path[1..]) == "/" + RemovePrefix(Render(path[1..]))
  {
    hide Token;
    SlashPrefix(Token(path[0]) + Render(path[1..]));
    if |path| > 1 {
      SlashPrefix(Token(path[1..][0]) + Render(path[1..][1..]));
    }
  }

  lemma SlashPrefix(s: string)
    ensures RemovePrefix("/" + s) == s
  {
    assert ("/" + s)[1..] == s;
  }

  lemma {:induction false} SplitRender(kind: Numerals, path: seq<Step>)
    requires Standard(kind) && path != []
    ensures Split(RemovePrefix(Render(path)), '/') == Tokens(path)
  {
    TokenHasNoSlash(kind, path[0]);
    RenderParts(path);
    hide Render, Token, BadEscape, RemovePrefix, Split;
    var token := Token(path[0]);
    if |path| == 1 {
      assert path[1..] == [];
      assert Render([]) == [] by { EmptyRender(); }
      assert token + [] == token;
      SplitToken(token, [], '/');
      assert Tokens(path[1..]) == [];
    } else {
      SplitRender(kind, path[1..]);
      SplitSlash(token, RemovePrefix(Render(path[1..])));
    }
  }

  lemma SplitSlash(token: string, rest: string)
    requires '/' !in token
    ensures Split(token + ("/" + rest), '/') == [token] + Split(rest, '/')
  {
    assert token + ("/" + rest) == token + ['/'] + rest;
    SplitToken(token, rest, '/');
  }

  lemma EmptyRender()
    ensures Render([]) == []
  {
  }

  /** Decimal tokens carry no escapes. */
  lemma {:induction false} PlainToken(s: string)
    requires '~' !in s
    ensures !BadEscape(s) && DecodeOnce(s) == s
  {
    if s != [] {
      PlainToken(s[1..]);
      assert s == [s[0]] + s[1..];
    }
  }

  lemma StepFollowsChild(kind: Numerals, j: Json, step: Step)
    requires Standard(kind) && Child(j, step).Some?
    ensures StepInto(kind, j, Token(step)) == Confirmed(Child(j, step).value)
  {
    match step
    case Key(name) =>
      DecodeEscape(name);
      TwoPassesDecodeOnce(Escape(name));
    case Index(i) =>
      DecimalTextReads(kind, i);
      PlainToken(DecimalText(i));
      TwoPassesDecodeOnce(DecimalText(i));
  }

  lemma {:induction false} WalkFollowsPath(kind: Numerals, j: Json, path: seq<Step>)
    requires Standard(kind) && At(j, path).Some?
    ensures Walk(kind, j, Tokens(path)) == Confirmed(At(j, path).value)
    decreases |path|
  {
    if path != [] {
      StepFollowsChild(kind, j, path[0]);
      WalkFollowsPath(kind, Child(j, path[0]).value, path[1..]);
      assert Tokens(path)[1..] == Tokens(path[1..]);
    }
  }

  /** Every node of every document is found again by the pointer of its path. */
  lemma PointerRoundTrip(kind: Numerals, document: Json, path: seq<Step>)
    requires Standard(kind) && path != [] && At(document, path).Some?
    ensures Resolve(kind, document, Render(path)) == Confirmed(At(document, path).value)
  {
    SplitRender(kind, path);
    WalkFollowsPath(kind, document, path);
  }

  // ----- The converse: an accepted pointer is the rendering of exactly one path

  /** On its way the pointer indexes an array with a digit token that is not ASCII. */
  predicate UsesForeignIndex(kind: Numerals, j: Json, parts: seq<string>)
    decreases |parts|
  {
    parts != []
    && ((j.Arr? && AllDigits(kind, parts[0]) && !IsAscii(parts[0]))
        || (StepInto(kind, j, parts[0]).Confirmed?
            && UsesForeignIndex(kind, StepInto(kind, j, parts[0]).value, parts[1..])))
  }

  lemma ChildOfStep(kind: Numerals, j: Json, raw: string) returns (step: Step)
    requires Standard(kind) && '/' !in raw
    requires j.Arr? && AllDigits(kind, raw) ==> IsAscii(raw)
    requires StepInto(kind, j, raw).Confirmed?
    ensures Token(step) == raw && Child(j, step) == Some(StepInto(kind, j, raw).value)
  {
    TwoPassesDecodeOnce(raw);
    EscapeDecode(raw);
    var part := DecodeOnce(raw);
    if j.Obj? {
      step := Key(part);
    } else {
      NoTildeInDigits(kind, raw);
      AsciiReadsBack(kind, part);
      step := Index(ToInt(kind, part));
    }
  }

  /** A token that decodes to digits was plain to begin with. */
  lemma {:induction false} NoTildeInDigits(kind: Numerals, raw: string)
    requires Standard(kind) && !BadEscape(raw)
    requires forall c :: c in DecodeOnce(raw) ==> kind(c) != NotDigit
    ensures DecodeOnce(raw) == raw
  {
    if raw != [] {
      BadEscapeHere(raw);
      var d := DecodeOnce(raw);
      assert d[0] in d;
      assert d == [d[0]] + d[1..];
      assert kind('~') == NotDigit && kind('/') == NotDigit;
      assert raw[0] != '~';
      assert d[1..] == DecodeOnce(raw[1..]);
      NoTildeInDigits(kind, raw[1..]);
      assert raw == [raw[0]] + raw[1..];
    }
  }

  lemma {:induction false} PathOfWalk(kind: Numerals, j: Json, parts: seq<string>) returns (path: seq<Step>)
    requires Standard(kind) && Walk(kind, j, parts).Confirmed? && !UsesForeignIndex(kind, j, parts)
    requires forall p :: p in parts ==> '/' !in p
    ensures Tokens(path) == parts && At(j, path) == Some(Walk(kind, j, parts).value)
    decreases |parts|
  {
    if parts == [] {
      path := [];
    } else {
      assert parts[0] in parts;
      var step := ChildOfStep(kind, j, parts[0]);
      var rest := PathOfWalk(kind, Child(j, step).value, parts[1..]);
      path := [step] + rest;
      assert path[1..] == rest;
    }
  }

  lemma {:induction false} JoinTokens(path: seq<Step>)
    ensures Join(Tokens(path), '/') == Render(path)
  {
    if path != [] {
      JoinTokens(path[1..]);
      assert Tokens(path)[1..] == Tokens(path[1..]);
    }
  }

  lemma {:induction false} RenderedIsPlain(kind: Numerals, j: Json, path: seq<Step>)
    requires Standard(kind) && At(j, path).Some?
    ensures !UsesForeignIndex(kind, j, Tokens(path))
    decreases |path|
  {
    if path != [] {
      StepFollowsChild(kind, j, path[0]);
      RenderedIsPlain(kind, Child(j, path[0]).value, path[1..]);
      assert Tokens(path)[1..] == Tokens(path[1..]);
      if path[0].Index? {
        DecimalTextReads(kind, path[0].i);
      }
    }
  }

  /** Some path of the document to the value renders as the pointer. */
  ghost predicate Denotes(document: Json, pointer: string, v: Json) {
    exists path :: path != [] && At(document, path) == Some(v) && Render(path) == pointer
  }

  /** For every document, pointer and value: some path to the value renders as the pointer if and
      only if the pointer resolves to it without a foreign index on the way. */
  lemma ResolvesIffRendered(kind: Numerals, document: Json, pointer: string, v: Json)
    requires Standard(kind) && pointer != [] && pointer[0] == '/'
    ensures Denotes(document, pointer, v)
      <==>
          Resolve(kind, document, pointer) == Confirmed(v)
              && !UsesForeignIndex(kind, document, Split(RemovePrefix(pointer), '/'))
  {
    if path :| path != [] && At(document, path) == Some(v) && Render(path) == pointer {
      PointerRoundTrip(kind, document, path);
      SplitRender(kind, path);
      RenderedIsPlain(kind, document, path);
    }
    var body := pointer[1..];
    if Resolve(kind, document, pointer) == Confirmed(v) && !UsesForeignIndex(kind, document, Split(body, '/')) {
      assert pointer == ['/'] + body;
      SplitParts(body, '/');
      JoinSplit(body, '/');
      var path := PathOfWalk(kind, document, Split(body, '/'));
      JoinTokens(path);
      assert path != [];
    }
  }

  /** A selector without a leading slash resolves like the pointer with it. */
  lemma SlashIsOptional(kind: Numerals, document: Json, selector: string)
    requires selector == [] || selector[0] != '/'
    ensures Resolve(kind, document, selector) == Resolve(kind, document, "/" + selector)
  {
    assert ("/" + selector)[0] == '/' && ("/" + selector)[1..] == selector;
  }

  // ----- When resolution raises

  /** A token that passes the digit test and that `int` refuses. */
  predicate RaisesAsIndex(kind: Numerals, raw: string) {
    PointerToken(raw).Some? && var part := PointerToken(raw).value;
    AllDigits(kind, part) && !HasLeadingZero(part) && exists c :: c in part && !kind(c).Decimal?
  }

  /** The first n tokens lead to an array and the next one raises. */
  predicate RaisesAt(kind: Numerals, j: Json, parts: seq<string>, n: nat)
    requires n < |parts|
  {
    Walk(kind, j, parts[..n]).Confirmed? && Walk(kind, j, parts[..n]).value.Arr? && RaisesAsIndex(kind, parts[n])
  }

  /** Resolution raises exactly when some resolvable prefix of the pointer ends in an array and the
      next token is all digits, has no leading zero, and holds a digit that is not a decimal. */
  lemma {:induction false} RaisesIff(kind: Numerals, j: Json, parts: seq<string>)
    ensures Walk(kind, j, parts).ConversionError? <==> exists n :: 0 <= n < |parts| && RaisesAt(kind, j, parts, n)
    decreases |parts|
  {
    if parts != [] {
      var next := StepInto(kind, j, parts[0]);
      StepRaisesIff(kind, j, parts[0]);
      hide StepInto, RaisesAsIndex;
      assert parts[..0] == [];
      assert RaisesAt(kind, j, parts, 0) <==> next.ConversionError?;
      if next.Confirmed? {
        RaisesIff(kind, next.value, parts[1..]);
        forall n | 0 < n < |parts|
          ensures RaisesAt(kind, j, parts, n) == RaisesAt(kind, next.value, parts[1..], n - 1)
        {
          assert parts[..n][1..] == parts[1..][..n - 1];
        }
        if n :| 0 <= n < |parts[1..]| && RaisesAt(kind, next.value, parts[1..], n) {
          assert RaisesAt(kind, j, parts, n + 1);
        }
      } else {
        forall n | 0 < n < |parts| ensures !RaisesAt(kind, j, parts, n) {
          assert parts[..n][0] == parts[0];
        }
      }
    }
  }

  ghost predicate Raises(kind: Numerals, document: Json, pointer: string) {
    var parts := Split(RemovePrefix(pointer), '/');
    exists n :: 0 <= n < |parts| && RaisesAt(kind, document, parts, n)
  }

  lemma ResolveRaisesIff(kind: Numerals, document: Json, pointer: string)
    ensures Resolve(kind, document, pointer) == ConversionError <==> Raises(kind, document, pointer)
  {
    RaisesIff(kind, document, Split(RemovePrefix(pointer), '/'));
  }

  lemma StepRaisesIff(kind: Numerals, j: Json, raw: string)
    ensures StepInto(kind, j, raw).ConversionError? <==> j.Arr? && RaisesAsIndex(kind, raw)
  {
  }

  /** In particular no pointer whose digit tokens are ASCII ever raises. */
  lemma AsciiDigitsNeverRaise(kind: Numerals, j: Json, parts: seq<string>)
    requires Standard(kind)
    requires forall p :: p in parts && AllDigits(kind, p) ==> IsAscii(p)
    ensures !Walk(kind, j, parts).ConversionError?
  {
    RaisesIff(kind, j, parts);
    forall n | 0 <= n < |parts| ensures !RaisesAsIndex(kind, parts[n]) {
      assert parts[n] in parts;
      PlainTokenConverts(kind, parts[n]);
    }
  }

  lemma PlainTokenConverts(kind: Numerals, raw: string)
    requires Standard(kind) && (AllDigits(kind, raw) ==> IsAscii(raw))
    ensures !RaisesAsIndex(kind, raw)
  {
    if PointerToken(raw).Some? && AllDigits(kind, PointerToken(raw).value) {
      TwoPassesDecodeOnce(raw);
      NoTildeInDigits(kind, raw);
      forall c | c in raw ensures kind(c).Decimal? {
        AsciiDigitKind(kind, c);
      }
    }
  }

  /** The path behind a pointer is unique within a document. */
  lemma {:induction false} RenderedPathIsUnique(kind: Numerals, j: Json, p: seq<Step>, q: seq<Step>)
    requires Standard(kind) && At(j, p).Some? && At(j, q).Some?
    requires Render(p) == Render(q)
    ensures p == q
  {
    if p != [] && q != [] {
      SplitRender(kind, p);
      SplitRender(kind, q);
      TokensDeterminePath(kind, j, p, q);
    }
  }

  lemma {:induction false} TokensDeterminePath(kind: Numerals, j: Json, p: seq<Step>, q: seq<Step>)
    requires Standard(kind) && At(j, p).Some? && At(j, q).Some?
    requires Tokens(p) == Tokens(q)
    ensures p == q
    decreases |p|
  {
    if p != [] && q != [] {
      assert Tokens(p)[0] == Tokens(q)[0];
      assert Tokens(p)[1..] == Tokens(p[1..]) && Tokens(q)[1..] == Tokens(q[1..]);
      if p[0].Key? {
        DecodeEscape(p[0].name);
        DecodeEscape(q[0].name);
      } else {
        DecimalTextReads(kind, p[0].i);
        DecimalTextReads(kind, q[0].i);
      }
      assert p[0] == q[0];
      TokensDeterminePath(kind, Child(j, p[0]).value, p[1..], q[1..]);
      assert p == [p[0]] + p[1..] && q == [q[0]] + q[1..];
    }
  }

  /** A foreign decimal digit for 1 selects element 1 although no path renders to that pointer. */
  lemma ForeignDigitsAlias(kind: Numerals, c: char, a: Json, b: Json)
    requires Standard(kind) && kind(c) == Decimal(1) && c >= 128 as char
    ensures Resolve(kind, Arr([a, b]), ['/', c]) == Confirmed(b) == Resolve(kind, Arr([a, b]), "/1")
    ensures !exists path :: path != [] && At(Arr([a, b]), path).Some? && Render(path) == ['/', c]
  {
    ForeignToken(kind, c);
    PointerRoundTrip(kind, Arr([a, b]), [Index(1)]);
    assert Render([Index(1)]) == "/1" by {
      assert Render([Index(1)]) == "/" + Token(Index(1)) + Render([Index(1)][1..]);
    }
    assert At(Arr([a, b]), [Index(1)]) == Some(b) by {
      assert At(b, [Index(1)][1..]) == Some(b);
    }
    forall path: seq<Step> | path != [] && At(Arr([a, b]), path).Some? ensures Render(path) != ['/', c] {
      DecimalTextReads(kind, path[0].i);
      assert Render(path)[1] == DecimalText(path[0].i)[0];
    }
  }

  /** A digit that is not a decimal, such as a superscript, raises. */
  lemma SuperscriptRaises(kind: Numerals, c: char, a: Json)
    requires Standard(kind) && kind(c) == OtherDigit
    ensures Resolve(kind, Arr([a]), ['/', c]) == ConversionError
  {
    assert RemovePrefix(['/', c]) == [c];
    assert c != '/' && c != '~' && c != '0';
    SplitToken([c], [], '/');
    PlainToken([c]);
    TwoPassesDecodeOnce([c]);
    assert [c][0] in [c];
  }

  lemma ForeignToken(kind: Numerals, c: char)
    requires Standard(kind) && kind(c) == Decimal(1) && c >= 128 as char
    ensures Split(RemovePrefix(['/', c]), '/') == [[c]]
    ensures PointerToken([c]) == Some([c])
    ensures AllDigits(kind, [c]) && Converts(kind, [c]) && ToInt(kind, [c]) == 1
  {
    assert RemovePrefix(['/', c]) == [c];
    SplitToken([c], [], '/');
    PlainToken([c]);
    TwoPassesDecodeOnce([c]);
    assert [c][..0] == [];
    assert ToInt(kind, [c][..0]) == 0;
  }
}
