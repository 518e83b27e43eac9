/** Text helpers: splitting at a separator, decimal numerals, ASCII. */
module Text {

  /** Python's `s.split(sep)`. */
  function Split(s: string, sep: char): seq<string> {
    if s == [] then [[]]
    else
      var rest := Split(s[1..], sep);
      if s[0] == sep then [[]] + rest else [[s[0]] + rest[0]] + rest[1..]
  }

  lemma {:induction false} SplitToken(token: string, rest: string, sep: char)
    requires sep !in token
    ensures Split(token, sep) == [token]
    ensures Split(token + [sep] + rest, sep) == [token] + Split(rest, sep)
  {
    if token == [] {
      assert token + [sep] + rest == [sep] + rest;
      assert ([sep] + rest)[1..] == rest;
    } else {
      SplitToken(token[1..], rest, sep);
      assert token == [token[0]] + token[1..];
      assert (token + [sep] + rest)[1..] == token[1..] + [sep] + rest;
    }
  }

  predicate IsAscii(s: string) {
    forall c :: c in s ==> c < 128 as char
  }

  lemma {:induction false} SplitParts(s: string, sep: char)
    ensures Split(s, sep) != []
    ensures IsAscii(s) ==> forall p :: p in Split(s, sep) ==> IsAscii(p)
    ensures forall p :: p in Split(s, sep) ==> sep !in p
    ensures forall p, c :: p in Split(s, sep) && c in p ==> c in s
  {
    if s != [] {
      SplitParts(s[1..], sep);
      var rest := Split(s[1..], sep);
      assert s[0] in s && rest[0] in rest;
      assert forall c :: c in s[1..] ==> c in s;
      assert forall p :: p in rest[1..] ==> p in rest;
    }
  }

  /** Every part preceded by the separator. */
  function Join(parts: seq<string>, sep: char): string {
    if parts == [] then [] else [sep] + (parts[0] + Join(parts[1..], sep))
  }

  /** Joining undoes splitting. */
  lemma {:induction false} JoinSplit(s: string, sep: char)
    ensures Split(s, sep) != [] && Join(Split(s, sep), sep) == [sep] + s
  {
    if s != [] {
      JoinSplit(s[1..], sep);
      var rest := Split(s[1..], sep);
      if s[0] == sep {
        assert Split(s, sep) == [[]] + rest;
        hide Join, Split;
        JoinCons([], rest, sep);
        assert s == [sep] + s[1..];
        assert [] + ([sep] + s[1..]) == s;
      } else {
        assert Split(s, sep) == [[s[0]] + rest[0]] + rest[1..];
        hide Join, Split;
        JoinPrepend(s[0], rest, s[1..], sep);
        assert s == [s[0]] + s[1..];
      }
    }
  }

  lemma JoinPrepend(c: char, parts: seq<string>, tail: string, sep: char)
    requires parts != [] && Join(parts, sep) == [sep] + tail
    ensures Join([[c] + parts[0]] + parts[1..], sep) == [sep] + ([c] + tail)
  {
    assert parts == [parts[0]] + parts[1..];
    JoinCons(parts[0], parts[1..], sep);
    JoinCons([c] + parts[0], parts[1..], sep);
    hide Join;
    SameTail(sep, parts[0] + Join(parts[1..], sep), tail);
    assert ([c] + parts[0]) + Join(parts[1..], sep) == [c] + (parts[0] + Join(parts[1..], sep));
  }

  lemma SameTail(c: char, x: string, y: string)
    requires [c] + x == [c] + y
    ensures x == y
  {
    assert ([c] + x)[1..] == x && ([c] + y)[1..] == y;
  }

  lemma JoinCons(part: string, parts: seq<string>, sep: char)
    ensures Join([part] + parts, sep) == [sep] + (part + Join(parts, sep))
  {
    assert ([part] + parts)[1..] == parts;
  }

  /** Splitting undoes joining when no part contains the separator. */
  lemma {:induction false} SplitJoin(parts: seq<string>, sep: char)
    requires parts != [] && forall p :: p in parts ==> sep !in p
    ensures Join(parts, sep) != [] && Join(parts, sep)[0] == sep && Split(Join(parts, sep)[1..], sep) == parts
  {
    var part, rest := parts[0], Join(parts[1..], sep);
    assert Join(parts, sep)[1..] == part + rest;
    assert part in parts && parts == [part] + parts[1..];
    if |parts| == 1 {
      assert part + rest == part;
      SplitToken(part, [], sep);
    } else {
      SplitJoin(parts[1..], sep);
      assert rest == [sep] + rest[1..];
      assert part + rest == part + [sep] + rest[1..];
      SplitToken(part, rest[1..], sep);
    }
  }

  function Digit(n: nat): char
    requires n < 10
  {
    '0' + n as char
  }

  function DecimalText(n: nat): string {
    if n < 10 then [Digit(n)] else DecimalText(n / 10) + [Digit(n % 10)]
  }
}
