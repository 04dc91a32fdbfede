/** Printing and parsing the query part of a URL. */
module Cgi {
  import opened Common
  import opened Fragments
  import opened Buffers
  import opened Sinks

  /** A key, which is a C string, and a value, which may hold any bytes. */
  datatype Variable = Variable(key: seq<byte>, value: seq<byte>)

  const AMPERSAND: byte := 38
  const PERCENT: byte := 37
  const PLUS: byte := 43
  const EQUALS: byte := 61
  const QUESTION: byte := 63
  const SPACE: byte := 32

  // ----- the ASCII classes -----

  predicate IsDigit(c: byte) {
    48 <= c <= 57
  }

  predicate IsXDigit(c: byte) {
    IsDigit(c) || 65 <= c <= 70 || 97 <= c <= 102
  }

  function XDigitValue(c: byte): (v: nat)
    ensures v < 16
  {
    if IsDigit(c) then c - 48 else if 65 <= c <= 70 then c - 55 else if 97 <= c <= 102 then c - 87 else 0
  }

  /** dsk_ascii_hex_digits */
  function HexDigit(v: nat): (c: byte)
    requires v < 16
    ensures IsXDigit(c) && XDigitValue(c) == v
  {
    if v < 10 then 48 + v else 87 + v
  }

  /** Letters, digits, minus and underscore. */
  predicate IsToken(c: byte) {
    IsDigit(c) || 65 <= c <= 90 || 97 <= c <= 122 || c == 45 || c == 95
  }

  // ----- what is printed -----

  function Escaped(v: seq<byte>): seq<byte> {
    if v == [] then [] else EscapedByte(v[0]) + Escaped(v[1..])
  }

  function EscapedByte(c: byte): (s: seq<byte>)
    ensures 1 <= |s| <= 3
  {
    if IsToken(c) then [c] else if c == SPACE then [PLUS] else [PERCENT, HexDigit(c / 16), HexDigit(c % 16)]
  }

  function Printed(vars: seq<Variable>): seq<byte> {
    PrintedFrom(vars, 0)
  }

  function PrintedFrom(vars: seq<Variable>, i: nat): seq<byte>
    decreases |vars| - i
  {
    if i >= |vars| then []
    else [if i == 0 then QUESTION else AMPERSAND] + Pair(vars[i]) + PrintedFrom(vars, i + 1)
  }

  function Pair(x: Variable): seq<byte> {
    x.key + [EQUALS] + Escaped(x.value)
  }

  // ----- what is parsed -----

  /** Parsing fails on a bad escape. It is undefined on a key without an equals sign: the length of the key
      is then the difference of a null pointer and its start. */
  datatype Parse = Vars(vars: seq<Variable>) | BadEscape | Undefined

  function Unescaped(v: seq<byte>): Option<seq<byte>> {
    if v == [] then Some([])
    else if v[0] == PERCENT then
      if |v| >= 3 && IsXDigit(v[1]) && IsXDigit(v[2])
          then ConsByte(XDigitValue(v[1]) * 16 + XDigitValue(v[2]), Unescaped(v[3..]))
      else None
    else ConsByte(if v[0] == PLUS then SPACE else v[0], Unescaped(v[1..]))
  }

  function ConsByte(c: byte, o: Option<seq<byte>>): Option<seq<byte>> {
    match o
    case None => None
    case Some(s) => Some([c] + s)
  }

  /** The first index of c, or the length. */
  function Find(c: byte, s: seq<byte>): (n: nat)
    ensures n <= |s| && c !in s[..n] && (n < |s| ==> s[n] == c)
  {
    if s == [] || s[0] == c then 0 else
      var n := Find(c, s[1..]);
      assert s[..n + 1] == [s[0]] + s[1..][..n];
      n + 1
  }

  function ParsedPair(seg: seq<byte>): Parse {
    var k := Find(EQUALS, seg);
    if k == |seg| then Undefined
    else match Unescaped(seg[k + 1..])
      case None => BadEscape
      case Some(v) => Vars([Variable(seg[..k], v)])
  }

  /** Pairs between ampersands, empty ones skipped, up to the first failure. */
  function Parsed(s: seq<byte>): Parse
    decreases |s|
  {
    if s == [] then Vars([])
    else if s[0] == AMPERSAND then Parsed(s[1..])
    else
      var n := Find(AMPERSAND, s);
      var p := ParsedPair(s[..n]);
      if p.Vars? then Behind(p.vars, Parsed(s[n..])) else p
  }

  function Behind(a: seq<Variable>, p: Parse): Parse {
    if p.Vars? then Vars(a + p.vars) else p
  }

  function ParsedQuery(s: seq<byte>): Parse {
    if s != [] && s[0] == QUESTION then Parsed(s[1..]) else Parsed(s)
  }

  // ----- the round trip -----

  predicate KeyOk(k: seq<byte>) {
    AMPERSAND !in k && EQUALS !in k && 0 !in k
  }

  predicate KeysOk(vars: seq<Variable>) {
    forall i :: 0 <= i < |vars| ==> KeyOk(vars[i].key)
  }

  /** Unescaping undoes escaping, and what is escaped holds neither ampersand nor NUL. */
  lemma {:induction false} EscapedBack(v: seq<byte>)
    ensures Unescaped(Escaped(v)) == Some(v) && AMPERSAND !in Escaped(v) && 0 !in Escaped(v)
  {
    if v != [] {
      EscapedBack(v[1..]);
      var c, rest := v[0], Escaped(v[1..]);
      var e := EscapedByte(c);
      assert (e + rest)[|e|..] == rest;
      if !IsToken(c) && c != SPACE {
        assert e + rest == [PERCENT, HexDigit(c / 16), HexDigit(c % 16)] + rest;
        assert XDigitValue(HexDigit(c / 16)) * 16 + XDigitValue(HexDigit(c % 16)) == c;
      }
      assert [c] + v[1..] == v;
    }
  }

  lemma {:induction false} FindAt(c: byte, s: seq<byte>, n: nat)
    requires n <= |s| && c !in s[..n] && (n < |s| ==> s[n] == c)
    ensures Find(c, s) == n
  {
    if n > 0 {
      assert s[0] == s[..n][0];
      assert s[..n] == [s[0]] + s[1..][..n - 1];
      FindAt(c, s[1..], n - 1);
    }
  }

  lemma PairBack(x: Variable)
    requires KeyOk(x.key)
    ensures ParsedPair(Pair(x)) == Vars([x]) && AMPERSAND !in Pair(x) && 0 !in Pair(x)
  {
    var seg, k := Pair(x), |x.key|;
    EscapedBack(x.value);
    assert seg[..k] == x.key && seg[k + 1..] == Escaped(x.value);
    FindAt(EQUALS, seg, k);
  }

  /** A segment up to the next ampersand is parsed by itself. */
  lemma {:induction false} SegmentFirst(seg: seq<byte>, rest: seq<byte>)
    requires seg != [] && AMPERSAND !in seg && (rest != [] ==> rest[0] == AMPERSAND)
    ensures Parsed(seg + rest) == if ParsedPair(seg).Vars? then Behind(ParsedPair(seg).vars, Parsed(rest))
      else ParsedPair(seg)
  {
    var s := seg + rest;
    assert s[..|seg|] == seg && s[|seg|..] == rest;
    FindAt(AMPERSAND, s, |seg|);
    assert s[0] == seg[0] && seg[0] in seg;
  }

  lemma {:induction false} PrintedBack(vars: seq<Variable>, i: nat)
    requires KeysOk(vars) && i <= |vars|
    ensures 0 !in PrintedFrom(vars, i)
    ensures i < |vars| ==> Parsed(PrintedFrom(vars, i)[1..]) == Vars(vars[i..])
    ensures i > 0 ==> Parsed(PrintedFrom(vars, i)) == Vars(vars[i..])
    decreases |vars| - i
  {
    hide Pair, ParsedPair, PrintedFrom, Parsed;
    PrintedHead(vars, i);
    if i < |vars| {
      PrintedBack(vars, i + 1);
      PairBack(vars[i]);
      var seg, rest := Pair(vars[i]), PrintedFrom(vars, i + 1);
      PairFilled(vars[i]);
      PrintedHead(vars, i + 1);
      SegmentFirst(seg, rest);
      assert [vars[i]] + vars[i + 1..] == vars[i..];
    }
  }

  lemma PrintedHead(vars: seq<Variable>, i: nat)
    requires i <= |vars|
    ensures i == |vars| ==> PrintedFrom(vars, i) == [] && Parsed([]) == Vars(vars[i..])
    ensures i < |vars| ==>
              PrintedFrom(vars, i) != [] && PrintedFrom(vars, i)[1..] == Pair(vars[i]) + PrintedFrom(vars, i + 1)
              && PrintedFrom(vars, i)[0] == (if i > 0 then AMPERSAND else QUESTION)
    ensures 0 < i < |vars| ==> Parsed(PrintedFrom(vars, i)) == Parsed(PrintedFrom(vars, i)[1..])
  {
    hide Pair, Parsed;
    ParsedSkip(PrintedFrom(vars, i));
    if i < |vars| {
      AfterFirst(if i == 0 then QUESTION else AMPERSAND, Pair(vars[i]), PrintedFrom(vars, i + 1));
    }
  }

  lemma AfterFirst(c: byte, p: seq<byte>, rest: seq<byte>)
    ensures ([c] + p + rest)[0] == c && ([c] + p + rest)[1..] == p + rest
  {
  }

  lemma {:induction false} ParsedSkip(s: seq<byte>)
    ensures Parsed([]) == Vars([])
    ensures s != [] && s[0] == AMPERSAND ==> Parsed(s) == Parsed(s[1..])
  {
  }

  lemma PairFilled(x: Variable)
    ensures Pair(x) != []
  {
  }

  /** What is printed with an empty prefix is parsed back, for keys without the separators and NUL, and
      values of any bytes. */
  lemma RoundTrip(vars: seq<Variable>)
    requires KeysOk(vars)
    ensures ParsedQuery(Printed(vars)) == Vars(vars) && 0 !in Printed(vars)
  {
    PrintedBack(vars, 0);
    assert vars[0..] == vars;
  }

  // ----- what is taken -----

  /** A value is taken exactly when every percent sign has two hexadecimal digits behind it. */
  lemma {:induction false} UnescapedExactly(v: seq<byte>)
    ensures Unescaped(v).Some? <==> EscapesOk(v)
    decreases |v|
  {
    if v != [] {
      if v[0] != PERCENT {
        UnescapedExactly(v[1..]);
        EscapesAfter(v, 1);
      } else if |v| >= 3 && IsXDigit(v[1]) && IsXDigit(v[2]) {
        UnescapedExactly(v[3..]);
        EscapesAfter(v, 3);
      } else {
        assert !EscapeAt(v, 0);
      }
    }
  }

  predicate EscapesOk(v: seq<byte>) {
    forall i: nat :: i < |v| ==> EscapeAt(v, i)
  }

  predicate EscapeAt(v: seq<byte>, i: nat) {
    i < |v| && v[i] == PERCENT ==> i + 2 < |v| && IsXDigit(v[i + 1]) && IsXDigit(v[i + 2])
  }

  lemma EscapesAfter(v: seq<byte>, n: nat)
    requires n <= |v| && forall i: nat :: i < n ==> EscapeAt(v, i)
    ensures EscapesOk(v) <==> EscapesOk(v[n..])
  {
    if EscapesOk(v[n..]) {
      forall i: nat | i < |v|
        ensures EscapeAt(v, i)
      {
        if i >= n {
          assert EscapeAt(v[n..], i - n);
        }
      }
    }
    if EscapesOk(v) {
      forall i: nat | i < |v[n..]|
        ensures EscapeAt(v[n..], i)
      {
        var j := n + i;
        assert EscapeAt(v, j);
      }
    }
  }

  /** The pairs of a query. */
  function Segments(s: seq<byte>): seq<seq<byte>>
    decreases |s|
  {
    if s == [] then []
    else if s[0] == AMPERSAND then Segments(s[1..])
    else [s[..Find(AMPERSAND, s)]] + Segments(s[Find(AMPERSAND, s)..])
  }

  /** A query is taken exactly when every pair has an equals sign and every escape in its value is whole; it
      then gives one variable a pair. */
  lemma {:induction false} ParsedExactly(s: seq<byte>)
    ensures Parsed(s).Vars? <==> forall seg :: seg in Segments(s) ==>
      EQUALS in seg && EscapesOk(seg[Find(EQUALS, seg) + 1..])
    ensures Parsed(s).Vars? ==> |Parsed(s).vars| == |Segments(s)|
    decreases |s|
  {
    hide EscapesOk;
    if s != [] {
      if s[0] == AMPERSAND {
        ParsedExactly(s[1..]);
      } else {
        var n := Find(AMPERSAND, s);
        var seg := s[..n];
        ParsedExactly(s[n..]);
        PairExactly(seg);
        assert Segments(s) == [seg] + Segments(s[n..]);
      }
    }
  }

  predicate Taken(seg: seq<byte>) {
    EQUALS in seg && EscapesOk(seg[Find(EQUALS, seg) + 1..])
  }

  /** The i-th pair is the first that is not taken. */
  ghost predicate FailsAt(segs: seq<seq<byte>>, i: nat) {
    i < |segs| && !Taken(segs[i]) && forall j :: 0 <= j < i ==> Taken(segs[j])
  }

  /** A query fails at the first pair that is not taken: on a bad escape if that has an equals sign, and for
      want of one otherwise. */
  lemma {:induction false} ParseFails(s: seq<byte>, i: nat)
    requires FailsAt(Segments(s), i)
    ensures Parsed(s) == if EQUALS in Segments(s)[i] then BadEscape else Undefined
    decreases |s|
  {
    hide Taken;
    if s != [] {
      if s[0] == AMPERSAND {
        ParseFails(s[1..], i);
      } else {
        var n := Find(AMPERSAND, s);
        var seg, rest := s[..n], Segments(s[n..]);
        assert Segments(s) == [seg] + rest;
        PairTaken(seg);
        if i > 0 {
          assert Taken(Segments(s)[0]);
          forall j | 0 <= j < i - 1
            ensures Taken(rest[j])
          {
            var k := j + 1;
            assert Taken(Segments(s)[k]);
          }
          ParseFails(s[n..], i - 1);
        }
      }
    }
  }

  lemma PairTaken(seg: seq<byte>)
    ensures ParsedPair(seg).Vars? <==> Taken(seg)
    ensures !Taken(seg) ==> ParsedPair(seg) == if EQUALS in seg then BadEscape else Undefined
  {
    PairExactly(seg);
    var k := Find(EQUALS, seg);
    assert seg[..|seg|] == seg;
    assert EQUALS in seg <==> k < |seg|;
  }

  lemma {:induction false} PairExactly(seg: seq<byte>)
    ensures ParsedPair(seg).Vars? <==> EQUALS in seg && EscapesOk(seg[Find(EQUALS, seg) + 1..])
    ensures ParsedPair(seg).Vars? ==> |ParsedPair(seg).vars| == 1
  {
    var k := Find(EQUALS, seg);
    assert seg[..|seg|] == seg;
    if k < |seg| {
      UnescapedExactly(seg[k + 1..]);
    }
  }

  // ----- spellings -----

  const LOWER_DIGITS: string := "0123456789abcdef"
  const UPPER_DIGITS: string := "0123456789ABCDEF"

  /** c is the hexadecimal digit of worth v, in lower or upper case. */
  predicate IsDigitFor(c: byte, v: nat)
    requires v < 16
  {
    c == LOWER_DIGITS[v] as int || c == UPPER_DIGITS[v] as int
  }

  /** e is a way to write byte c in a value: itself, a plus sign for a space, or a percent sign and its two
      hexadecimal digits. */
  predicate Spells(e: seq<byte>, c: byte) {
    (e == [c] && c != '%' as int && c != '+' as int && c != '&' as int && c != 0)
    || (e == ['+' as int] && c == ' ' as int)
    || (|e| == 3 && e[0] == '%' as int && IsDigitFor(e[1], c / 16) && IsDigitFor(e[2], c % 16))
  }

  /** The pieces spell the bytes of v. */
  ghost predicate Spelled(pieces: seq<seq<byte>>, v: seq<byte>) {
    |pieces| == |v| && forall i :: 0 <= i < |v| ==> Spells(pieces[i], v[i])
  }

  lemma SpelledTail(pieces: seq<seq<byte>>, v: seq<byte>)
    requires Spelled(pieces, v) && v != []
    ensures Spelled(pieces[1..], v[1..])
  {
    hide Spells;
    forall i | 0 <= i < |v[1..]|
      ensures Spells(pieces[1..][i], v[1..][i])
    {
      var j := i + 1;
      assert Spells(pieces[j], v[j]);
    }
  }

  lemma DigitWorth(c: byte, v: nat)
    requires v < 16
    ensures IsDigitFor(c, v) <==> IsXDigit(c) && XDigitValue(c) == v
    ensures HexDigit(v) == LOWER_DIGITS[v] as int
  {
  }

  lemma DigitsWorth(a: byte, b: byte, c: byte)
    ensures IsXDigit(a) && IsXDigit(b) && XDigitValue(a) * 16 + XDigitValue(b) == c <==>
              IsDigitFor(a, c / 16) && IsDigitFor(b, c % 16)
  {
    hide IsDigitFor, IsXDigit, XDigitValue;
    DigitWorth(a, c / 16);
    DigitWorth(b, c % 16);
  }

  /** What one spelling adds to what is behind it. */
  lemma {:induction false} SpellingFirst(e: seq<byte>, c: byte, rest: seq<byte>)
    requires Spells(e, c)
    ensures Unescaped(e + rest) == ConsByte(c, Unescaped(rest))
  {
    hide IsDigitFor, IsXDigit, XDigitValue;
    var s := e + rest;
    assert s[|e|..] == rest;
    if |e| == 3 {
      DigitsWorth(e[1], e[2], c);
      assert s[1] == e[1] && s[2] == e[2];
    }
  }

  /** Every spelling of bytes is read as those bytes. */
  lemma {:induction false} SpellingRead(pieces: seq<seq<byte>>, v: seq<byte>)
    requires Spelled(pieces, v)
    ensures Unescaped(Flatten(pieces)) == Some(v)
  {
    hide Unescaped, Spells;
    UnescapedNone();
    if v != [] {
      assert Spells(pieces[0], v[0]);
      SpelledTail(pieces, v);
      SpellingRead(pieces[1..], v[1..]);
      SpellingFirst(pieces[0], v[0], Flatten(pieces[1..]));
      assert [v[0]] + v[1..] == v;
    }
  }

  /** What is read without an error spells what is read. */
  lemma {:induction false} ReadSpells(s: seq<byte>, v: seq<byte>) returns (pieces: seq<seq<byte>>)
    requires Unescaped(s) == Some(v) && AMPERSAND !in s && 0 !in s
    ensures Flatten(pieces) == s && Spelled(pieces, v)
    decreases |s|
  {
    hide IsDigitFor, IsXDigit, XDigitValue;
    if s == [] {
      pieces := [];
    } else {
      var n := if s[0] == PERCENT then 3 else 1;
      var e, rest := s[..n], s[n..];
      assert s == e + rest;
      if n == 3 {
        DigitsWorth(s[1], s[2], v[0]);
      }
      assert s[0] in s;
      var behind := ReadSpells(rest, v[1..]);
      pieces := [e] + behind;
      assert pieces[1..] == behind;
    }
  }

  /** A value is read as v exactly when it spells v. */
  lemma {:induction false} ReadExactly(s: seq<byte>, v: seq<byte>)
    requires AMPERSAND !in s && 0 !in s
    ensures Unescaped(s) == Some(v) <==> exists pieces: seq<seq<byte>> :: Flatten(pieces) == s && Spelled(pieces, v)
  {
    if Unescaped(s) == Some(v) {
      var pieces := ReadSpells(s, v);
    }
    forall pieces: seq<seq<byte>> | Flatten(pieces) == s && Spelled(pieces, v)
      ensures Unescaped(s) == Some(v)
    {
      SpellingRead(pieces, v);
    }
  }

  /** A query of pairs, with an ampersand in front of each but the first. */
  function Query(segs: seq<seq<byte>>): seq<byte> {
    if segs == [] then [] else segs[0] + (if |segs| == 1 then [] else ['&' as int] + Query(segs[1..]))
  }

  /** A pair: the key, an equals sign, and a spelling of the value. */
  ghost predicate PairSpells(seg: seq<byte>, x: Variable) {
    exists pieces: seq<seq<byte>> :: seg == x.key + ['=' as int] + Flatten(pieces) && Spelled(pieces, x.value)
  }

  /** Queries are read back however their values are spelled, with a question mark in front or without. */
  lemma {:induction false} SpellingsBack(segs: seq<seq<byte>>, vars: seq<Variable>)
    requires |segs| == |vars| && KeysOk(vars) && forall i :: 0 <= i < |vars| ==> PairSpells(segs[i], vars[i])
    ensures Parsed(Query(segs)) == Vars(vars) && ParsedQuery(['?' as int] + Query(segs)) == Vars(vars)
    decreases |segs|
  {
    hide PairSpells, Parsed, ParsedPair;
    ParsedSkip([]);
    if segs != [] {
      var rest := if |segs| == 1 then [] else ['&' as int] + Query(segs[1..]);
      assert PairSpells(segs[0], vars[0]);
      PairSpelled(segs[0], vars[0]);
      SegmentFirst(segs[0], rest);
      if |segs| > 1 {
        forall i | 0 <= i < |segs[1..]|
          ensures PairSpells(segs[1..][i], vars[1..][i])
        {
          var j := i + 1;
          assert PairSpells(segs[j], vars[j]);
        }
        SpellingsBack(segs[1..], vars[1..]);
        ParsedSkip(rest);
        assert rest[1..] == Query(segs[1..]);
        assert [vars[0]] + vars[1..] == vars;
      } else {
        assert [vars[0]] + [] == vars;
      }
    }
  }

  lemma PairSpelled(seg: seq<byte>, x: Variable)
    requires PairSpells(seg, x) && KeyOk(x.key)
    ensures seg != [] && AMPERSAND !in seg && ParsedPair(seg) == Vars([x])
  {
    var pieces: seq<seq<byte>> :| seg == x.key + [EQUALS] + Flatten(pieces) && Spelled(pieces, x.value);
    var k := |x.key|;
    assert seg[..k] == x.key && seg[k + 1..] == Flatten(pieces);
    FindAt(EQUALS, seg, k);
    SpellingRead(pieces, x.value);
    NoAmpersand(pieces, x.value);
  }

  lemma {:induction false} NoAmpersand(pieces: seq<seq<byte>>, v: seq<byte>)
    requires Spelled(pieces, v)
    ensures AMPERSAND !in Flatten(pieces)
  {
    hide IsDigitFor, Spells;
    if v != [] {
      assert Spells(pieces[0], v[0]);
      SpellingPlain(pieces[0], v[0]);
      SpelledTail(pieces, v);
      NoAmpersand(pieces[1..], v[1..]);
    }
  }

  lemma SpellingPlain(e: seq<byte>, c: byte)
    requires Spells(e, c)
    ensures AMPERSAND !in e
  {
    hide IsDigitFor;
    if |e| == 3 {
      DigitWorth(e[1], c / 16);
      DigitWorth(e[2], c % 16);
    }
  }

  predicate IsPlain(c: char) {
    'a' <= c <= 'z' || 'A' <= c <= 'Z' || '0' <= c <= '9' || c == '-' || c == '_'
  }

  /** How a byte is printed: letters, digits, minus and underscore as they are, a space as a plus sign, and all
      others as a percent sign and two digits in lower case. */
  lemma PrintedAs(c: byte)
    ensures var plain := IsPlain(c as char);
            EscapedByte(c) == if plain then [c] else if c == ' ' as int then ['+' as int]
                              else ['%' as int, LOWER_DIGITS[c / 16] as int, LOWER_DIGITS[c % 16] as int]
  {
    DigitWorth(0, c / 16);
    DigitWorth(0, c % 16);
  }

  /** The pairs as they are printed. */
  function Pairs(vars: seq<Variable>): (r: seq<seq<byte>>)
    ensures |r| == |vars| && forall i :: 0 <= i < |r| ==> r[i] == vars[i].key + ['=' as int] + Escaped(vars[i].value)
  {
    seq(|vars|, i requires 0 <= i < |vars| => Pair(vars[i]))
  }

  /** What is printed is a question mark and the pairs, with ampersands between them, or nothing at all. */
  lemma PrintedIsQuery(vars: seq<Variable>)
    ensures Printed(vars) == if vars == [] then [] else ['?' as int] + Query(Pairs(vars))
  {
    if vars != [] {
      RestIsQuery(vars, 0);
      assert Pairs(vars)[0..] == Pairs(vars);
    }
  }

  lemma {:induction false} RestIsQuery(vars: seq<Variable>, i: nat)
    requires i < |vars|
    ensures PrintedFrom(vars, i) == [if i == 0 then '?' as int else '&' as int] + Query(Pairs(vars)[i..])
    decreases |vars| - i
  {
    hide Pairs, Pair;
    var segs := Pairs(vars)[i..];
    assert segs[0] == Pair(vars[i]) by { PairIs(vars, i); }
    assert segs[1..] == Pairs(vars)[i + 1..];
    if i + 1 < |vars| {
      RestIsQuery(vars, i + 1);
    }
  }

  lemma PairIs(vars: seq<Variable>, i: nat)
    requires i < |vars|
    ensures Pairs(vars)[i] == Pair(vars[i])
  {
  }

  // ----- the parser -----

  /** A C string at an index; NUL ends it. */
  function At(s: seq<byte>, i: nat): byte {
    if i < |s| then s[i] else 0
  }

  datatype Status = Ok | BadPercent | NoEquals

  function Count(s: seq<byte>): nat {
    if s == [] then 0 else (if s[0] == AMPERSAND then 1 else 0) + Count(s[1..])
  }

  lemma {:induction false} CountFrom(s: seq<byte>, n: nat)
    requires n <= |s|
    ensures Count(s[n..]) <= Count(s)
  {
    if n > 0 {
      CountFrom(s[1..], n - 1);
      assert s[1..][n - 1..] == s[n..];
    } else {
      assert s[n..] == s;
    }
  }

  /** There are not more pairs than ampersands and one. */
  lemma {:induction false} SegmentsFit(s: seq<byte>)
    ensures |Segments(s)| <= Count(s) + (if s == [] || s[0] == AMPERSAND then 0 else 1)
    decreases |s|
  {
    if s != [] {
      if s[0] == AMPERSAND {
        SegmentsFit(s[1..]);
      } else {
        var n := Find(AMPERSAND, s);
        SegmentsFit(s[n..]);
        CountFrom(s, n);
      }
    }
  }

  lemma {:induction false} CountSnoc(s: seq<byte>, c: byte)
    ensures Count(s + [c]) == Count(s) + if c == AMPERSAND then 1 else 0
  {
    if s == [] {
      assert s + [c] == [c] && [c][1..] == [];
    } else {
      assert (s + [c])[1..] == s[1..] + [c];
      CountSnoc(s[1..], c);
    }
  }

  method CountAmpersands(s: seq<byte>) returns (n: nat)
    ensures n == Count(s)
  {
    n := 0;
    for at := 0 to |s|
      invariant n == Count(s[..at])
    {
      assert s[..at + 1] == s[..at] + [s[at]];
      CountSnoc(s[..at], s[at]);
      if s[at] == AMPERSAND {
        n := n + 1;
      }
    }
    assert s[..|s|] == s;
  }

  /** The end of the segment that `at` is in. */
  function EndOf(s: seq<byte>, at: nat): (e: nat)
    requires at <= |s|
    ensures at <= e <= |s| && AMPERSAND !in s[at..e] && (e < |s| ==> s[e] == AMPERSAND)
  {
    var n := Find(AMPERSAND, s[at..]);
    assert s[at..][..n] == s[at..at + n];
    at + n
  }

  lemma EndOfIs(s: seq<byte>, at: nat, e: nat)
    requires at <= e <= |s| && AMPERSAND !in s[at..e] && (e < |s| ==> s[e] == AMPERSAND)
    ensures EndOf(s, at) == e
  {
    assert s[at..][..e - at] == s[at..e];
    FindAt(AMPERSAND, s[at..], e - at);
  }

  lemma NotIn(s: seq<byte>, a: nat, b: nat, e: nat)
    requires a <= b <= e <= |s| && AMPERSAND !in s[a..e]
    ensures AMPERSAND !in s[b..e]
  {
    forall i | 0 <= i < e - b
      ensures s[b..e][i] != AMPERSAND
    {
      assert s[b..e][i] == s[a..e][b - a + i];
    }
  }

  /** The end is the same seen from further on in the segment. */
  lemma EndOfOn(s: seq<byte>, at: nat, at': nat)
    requires at <= at' <= |s| && at' <= EndOf(s, at)
    ensures EndOf(s, at') == EndOf(s, at)
  {
    hide EndOf;
    var e := EndOf(s, at);
    NotIn(s, at, at', e);
    EndOfIs(s, at', e);
  }

  lemma EndAfter(s: seq<byte>, at: nat, at': nat)
    requires at <= at' <= |s| && AMPERSAND !in s[at..at']
    ensures at' <= EndOf(s, at)
  {
    hide EndOf;
    var e := EndOf(s, at');
    assert s[at..e] == s[at..at'] + s[at'..e];
    EndOfIs(s, at, e);
  }

  /** An ampersand or the NUL is where the segment ends. */
  lemma EndsHere(s: seq<byte>, at: nat, at': nat)
    requires 0 !in s && at <= at' <= |s| && at' <= EndOf(s, at) && (At(s, at') == 0 || At(s, at') == AMPERSAND)
    ensures EndOf(s, at) == at'
  {
    hide EndOf;
    EndOfIs(s, at', at');
    EndOfOn(s, at, at');
  }

  /** The loop over a key. */
  method ReadKey(s: seq<byte>, start: nat) returns (at: nat)
    requires start <= |s|
    ensures start <= at <= EndOf(s, start)
    ensures if At(s, at) == EQUALS then at < EndOf(s, start) && Find(EQUALS, s[start..EndOf(s, start)]) == at - start
            else at == EndOf(s, start) && Find(EQUALS, s[start..EndOf(s, start)]) == at - start
  {
    hide EndOf, Find;
    at := start;
    while at < |s| && s[at] != AMPERSAND && s[at] != EQUALS
      invariant start <= at <= |s| && AMPERSAND !in s[start..at] && EQUALS !in s[start..at]
    {
      assert s[start..at + 1] == s[start..at] + [s[at]];
      at := at + 1;
    }
    KeyEnds(s, start, at);
  }

  lemma KeyEnds(s: seq<byte>, start: nat, at: nat)
    requires start <= at <= |s| && AMPERSAND !in s[start..at] && EQUALS !in s[start..at]
    requires at < |s| ==> s[at] == AMPERSAND || s[at] == EQUALS
    ensures var e := EndOf(s, start);
            at <= e && Find(EQUALS, s[start..e]) == at - start && (At(s, at) == EQUALS ==> at < e)
            && (At(s, at) != EQUALS ==> at == e)
  {
    if at < |s| && s[at] == EQUALS {
      EndAfter(s, start, at);
      var e := EndOf(s, start);
      FindAt(EQUALS, s[start..e], at - start) by { assert s[start..e][..at - start] == s[start..at]; }
    } else {
      EndOfIs(s, start, at);
      assert s[start..at][..at - start] == s[start..at];
      FindAt(EQUALS, s[start..at], at - start);
    }
  }

  /** What one round of either loop over a value does, at `at` in a value that ends at e. */
  lemma ValueStep(s: seq<byte>, at: nat, e: nat)
    requires at < e <= |s| && e == EndOf(s, at)
    ensures var hex := IsXDigit(At(s, at + 1)) && IsXDigit(At(s, at + 2));
            if s[at] != PERCENT then Unescaped(s[at..e]) == ConsByte(if s[at] == PLUS then SPACE
                                     else s[at], Unescaped(s[at + 1..e]))
            else if hex then at + 3 <= e
              && Unescaped(s[at..e]) == ConsByte(XDigitValue(s[at + 1]) * 16 + XDigitValue(s[at + 2]),
              Unescaped(s[at + 3..e]))
            else Unescaped(s[at..e]) == None
  {
    var v := s[at..e];
    assert v[1..] == s[at + 1..e];
    assert !IsXDigit(At(s, e));
    if at + 3 <= e {
      assert v[1] == s[at + 1] && v[2] == s[at + 2] && v[3..] == s[at + 3..e];
    }
  }

  /** The first pass over a value: are all escapes whole, and how long will it be? */
  method SizeValue(s: seq<byte>, start: nat) returns (ok: bool, length: nat)
    requires start <= |s| && 0 !in s
    ensures var v := Unescaped(s[start..EndOf(s, start)]); ok == v.Some? && (ok ==> length == |v.value|)
  {
    hide Unescaped, IsXDigit, XDigitValue, EndOf;
    var at := start;
    length := 0;
    ghost var e := EndOf(s, start);
    ghost var v := Unescaped(s[start..e]);
    while At(s, at) != 0 && At(s, at) != AMPERSAND
      invariant start <= at <= e
      invariant v.Some? <==> Unescaped(s[at..e]).Some?
      invariant v.Some? ==> |v.value| == length + |Unescaped(s[at..e]).value|
      decreases |s| - at
    {
      EndOfOn(s, start, at);
      ValueStep(s, at, e);
      if s[at] == PERCENT {
        if !IsXDigit(At(s, at + 1)) || !IsXDigit(At(s, at + 2)) {
          return false, length;
        }
        length := length + 1;
        at := at + 3;
      } else {
        length := length + 1;
        at := at + 1;
      }
    }
    EndsHere(s, start, at);
    UnescapedNone();
    assert s[e..e] == [];
    return true, length;
  }

  lemma UnescapedNone()
    ensures Unescaped([]) == Some([])
  {
  }

  /** The second pass over a value: write it into the block from `from` on, with a NUL behind it. The block
      has just the room. */
  method WriteValue(s: seq<byte>, start: nat, kv: array<byte>, from: nat) returns (out: nat, at: nat)
    requires start <= |s| && 0 !in s && Unescaped(s[start..EndOf(s, start)]).Some?
    requires kv.Length == from + |Unescaped(s[start..EndOf(s, start)]).value| + 1
    modifies kv
    ensures at == EndOf(s, start) && out == kv.Length - 1
    ensures kv[..] == old(kv[..from]) + Unescaped(s[start..EndOf(s, start)]).value + [0]
  {
    hide Unescaped, IsXDigit, XDigitValue, EndOf;
    at, out := start, from;
    ghost var e := EndOf(s, start);
    ghost var v := Unescaped(s[start..e]).value;
    ghost var done: seq<byte> := [];
    assert [] + v == v;
    while At(s, at) != AMPERSAND && At(s, at) != 0
      invariant start <= at <= e && out == from + |done| && Unescaped(s[at..e]).Some?
        && v == done + Unescaped(s[at..e]).value
      invariant out < kv.Length && kv[..out] == old(kv[..from]) + done
      decreases |s| - at
    {
      EndOfOn(s, start, at);
      ValueStep(s, at, e);
      var c: byte;
      if s[at] == PERCENT {
        c := XDigitValue(At(s, at + 1)) * 16 + XDigitValue(At(s, at + 2));
        at := at + 2;
      } else if s[at] == PLUS {
        c := SPACE;
      } else {
        c := s[at];
      }
      kv[out] := c;
      out := out + 1;
      at := at + 1;
      assert kv[..out] == kv[..out - 1] + [c];
      assert done + ([c] + Unescaped(s[at..e]).value) == done + [c] + Unescaped(s[at..e]).value;
      done := done + [c];
    }
    EndsHere(s, start, at);
    UnescapedNone();
    assert s[e..e] == [] && done + [] == done;
    kv[out] := 0;
    assert kv[..] == kv[..out] + [0];
  }

  /** One variable, with its key and value in one block. */
  method ReadPair(s: seq<byte>, start: nat) returns (status: Status, x: Variable, at: nat)
    requires start < |s| && 0 !in s && s[start] != AMPERSAND
    ensures at <= |s| && match ParsedPair(s[start..EndOf(s, start)])
            case Undefined => status == NoEquals
            case BadEscape => status == BadPercent
            case Vars(vars) => status == Ok && vars == [x] && at == EndOf(s, start)
  {
    hide Unescaped, EndOf, Find;
    ghost var e := EndOf(s, start);
    x := Variable([], []);
    at := ReadKey(s, start);
    if At(s, at) != EQUALS {
      return NoEquals, x, at;
    }
    var eq := at;
    EndOfOn(s, start, eq + 1);
    assert s[start..e][eq - start + 1..] == s[eq + 1..e];
    var ok, valueLength := SizeValue(s, eq + 1);
    if !ok {
      return BadPercent, x, at;
    }
    var keyLength := eq - start;
    assert s[start..e][..keyLength] == s[start..eq];
    var kv := new byte[keyLength + 1 + valueLength + 1](_ => 0);
    CopyKey(kv, s[start..eq]);
    var out;
    ghost var value := Unescaped(s[eq + 1..e]).value;
    out, at := WriteValue(s, eq + 1, kv, keyLength + 1);
    assert kv[..] == s[start..eq] + [0] + value + [0];
    assert kv[..keyLength] == kv[..][..keyLength] == s[start..eq];
    assert kv[keyLength + 1..out] == kv[..][keyLength + 1..out] == value;
    x := Variable(kv[..keyLength], kv[keyLength + 1..out]);
    status := Ok;
  }

  method CopyKey(kv: array<byte>, key: seq<byte>)
    requires |key| < kv.Length && kv[|key|] == 0
    modifies kv
    ensures kv[..|key| + 1] == key + [0]
  {
    for k := 0 to |key|
      invariant kv[..k] == key[..k] && kv[|key|] == 0
    {
      kv[k] := key[k];
      assert kv[..k + 1] == kv[..k] + [key[k]];
    }
    assert kv[..|key| + 1] == kv[..|key|] + [0];
  }

  /** dsk_cgi_parse_query_string. One entry more than there are ampersands is room for all variables. */
  method ParseQueryString(query: seq<byte>) returns (status: Status, n: nat, variables: array<Variable>)
    requires 0 !in query
    ensures n <= variables.Length && match ParsedQuery(query)
            case Undefined => status == NoEquals
            case BadEscape => status == BadPercent
            case Vars(vars) => status == Ok && vars == variables[..n]
  {
    hide EndOf, Find, ParsedPair, Count, Segments, Parsed;
    var s := if At(query, 0) == QUESTION then query[1..] else query;
    var count := CountAmpersands(s);
    variables := new Variable[count + 1](_ => Variable([], []));
    SegmentsFit(s);
    n := 0;
    var at := 0;
    assert s[0..] == s;
    BehindNothing(Parsed(s));
    while at < |s|
      invariant 0 <= at <= |s| && n + |Segments(s[at..])| <= variables.Length
      invariant Parsed(s) == Behind(variables[..n], Parsed(s[at..]))
      decreases |s| - at
    {
      PairNext(s, at);
      if s[at] == AMPERSAND {
        at := at + 1;
      } else {
        ghost var was := variables[..n];
        var x;
        status, x, at := ReadPair(s, at);
        if status != Ok {
          return;
        }
        BehindBehind(was, [x], Parsed(s[at..]));
        variables[n] := x;
        n := n + 1;
        assert variables[..n] == was + [x];
      }
    }
    ParsedNone();
    assert s[at..] == [] && variables[..n] + [] == variables[..n];
    status := Ok;
  }

  lemma BehindNothing(p: Parse)
    ensures Behind([], p) == p
  {
    if p.Vars? {
      assert [] + p.vars == p.vars;
    }
  }

  lemma BehindBehind(a: seq<Variable>, b: seq<Variable>, p: Parse)
    ensures Behind(a, Behind(b, p)) == Behind(a + b, p)
  {
    if p.Vars? {
      assert a + (b + p.vars) == a + b + p.vars;
    }
  }

  lemma ParsedNone()
    ensures Parsed([]) == Vars([])
  {
  }

  /** The next pair, or an ampersand to skip. */
  lemma PairNext(s: seq<byte>, at: nat)
    requires at < |s|
    ensures if s[at] == AMPERSAND
      then Parsed(s[at..]) == Parsed(s[at + 1..]) && Segments(s[at..]) == Segments(s[at + 1..])
            else var e := EndOf(s, at); var p := ParsedPair(s[at..e]);
                 |Segments(s[at..])| == 1 + |Segments(s[e..])|
                 && Parsed(s[at..]) == (if p.Vars? then Behind(p.vars, Parsed(s[e..])) else p)
  {
    var t := s[at..];
    if s[at] == AMPERSAND {
      assert t[1..] == s[at + 1..];
    } else {
      var n := Find(AMPERSAND, t);
      assert t[..n] == s[at..at + n] && t[n..] == s[at + n..];
    }
  }

  // ----- the printer -----

  /** dsk_cgi_make_path, by way of a buffer that is then turned into a string. */
  method MakePath(prefix: seq<byte>, vars: seq<Variable>, pool: Pool) returns (path: seq<byte>)
    requires pool.Valid() && |prefix| + |Printed(vars)| < SIZE_LIMIT
    modifies pool, pool.free
    ensures pool.Valid() && path == prefix + Printed(vars)
  {
    hide Filling, Owns, Printed, Bytes, Filled, LastFilled, Owed, Released, Linked;
    var buffer := new Buffer();
    ghost var free, d := pool.free, prefix + Printed(vars);
    FillingStarts(buffer, pool);
    PutPath(prefix, vars, buffer, pool, free);
    FillingEnds(buffer, pool, [], free, [], d);
    assert [] + d == d;
    path := buffer.Read(buffer.size, pool);
    AllRead(path, buffer.Contents(), d);
  }

  lemma AllRead(path: seq<byte>, left: seq<byte>, d: seq<byte>)
    requires d == path + left && |path| <= |d| && (|path| < |d| ==> left == [])
    ensures path == d
  {
  }

  method PutPath(prefix: seq<byte>, vars: seq<Variable>, buffer: Buffer, pool: Pool, ghost free: seq<Fragment>)
    requires Filling(buffer, pool, [], free, [], []) && |prefix| + |Printed(vars)| < SIZE_LIMIT
    modifies buffer, buffer.frags, pool, pool.free
    ensures Filling(buffer, pool, [], free, [], prefix + Printed(vars))
    ensures forall i :: 0 <= i < |buffer.frags| ==>
      buffer.frags[i] in old(buffer.frags) || buffer.frags[i] in old(pool.free) || fresh(buffer.frags[i])
    ensures forall i :: 0 <= i < |pool.free| ==> pool.free[i] in old(pool.free)
  {
    hide Filling, Owns, PrintedFrom, Pair, Bytes;
    ghost var fs0, free0 := buffer.frags, pool.free;
    Emit(Block(prefix), buffer, pool, [], free, [], []);
    ghost var d: seq<byte> := prefix;
    assert [] + prefix == prefix;
    var i := 0;
    while i < |vars|
      invariant 0 <= i <= |vars| && Filling(buffer, pool, [], free, [], d)
        && d + PrintedFrom(vars, i) == prefix + Printed(vars)
      invariant forall k :: 0 <= k < |buffer.frags| ==>
        buffer.frags[k] in fs0 || buffer.frags[k] in free0 || fresh(buffer.frags[k])
      invariant forall k :: 0 <= k < |pool.free| ==> pool.free[k] in free0
    {
      PrintedStep(vars, i, d);
      PutVariable(vars[i], i == 0, buffer, pool, free, d);
      d := d + [if i == 0 then QUESTION else AMPERSAND] + Pair(vars[i]);
      i := i + 1;
    }
    PrintedEnd(vars, i, d);
  }

  method PutVariable(x: Variable, first: bool, buffer: Buffer, pool: Pool, ghost free: seq<Fragment>,
      ghost d: seq<byte>)
    requires Filling(buffer, pool, [], free, [], d) && |d| + 1 + |Pair(x)| < SIZE_LIMIT
    modifies buffer, buffer.frags, pool, pool.free
    ensures Filling(buffer, pool, [], free, [], d + [if first then QUESTION else AMPERSAND] + Pair(x))
    ensures forall i :: 0 <= i < |buffer.frags| ==>
      buffer.frags[i] in old(buffer.frags) || buffer.frags[i] in old(pool.free) || fresh(buffer.frags[i])
    ensures forall i :: 0 <= i < |pool.free| ==> pool.free[i] in old(pool.free)
  {
    hide Filling, Owns, Pair, Bytes;
    var c := if first then QUESTION else AMPERSAND;
    Emit(OneByte(c), buffer, pool, [], free, [], d);
    PutPair(x, buffer, pool, free, d + [c]);
  }

  method PutPair(x: Variable, buffer: Buffer, pool: Pool, ghost free: seq<Fragment>, ghost d: seq<byte>)
    requires Filling(buffer, pool, [], free, [], d) && |d| + |Pair(x)| < SIZE_LIMIT
    modifies buffer, buffer.frags, pool, pool.free
    ensures Filling(buffer, pool, [], free, [], d + Pair(x))
    ensures forall i :: 0 <= i < |buffer.frags| ==>
      buffer.frags[i] in old(buffer.frags) || buffer.frags[i] in old(pool.free) || fresh(buffer.frags[i])
    ensures forall i :: 0 <= i < |pool.free| ==> pool.free[i] in old(pool.free)
  {
    hide Filling, Owns, Escaped, Bytes;
    ghost var fs0, free0 := buffer.frags, pool.free;
    Emit(Block(x.key), buffer, pool, [], free, [], d);
    ghost var d1 := d + x.key;
    Emit(OneByte(EQUALS), buffer, pool, [], free, [], d1);
    ghost var d2 := d1 + [EQUALS];
    PutValue(x.value, buffer, pool, free, d2);
    assert d2 + Escaped(x.value) == d + Pair(x);
  }

  method PutValue(v: seq<byte>, buffer: Buffer, pool: Pool, ghost free: seq<Fragment>, ghost d: seq<byte>)
    requires Filling(buffer, pool, [], free, [], d) && |d| + |Escaped(v)| < SIZE_LIMIT
    modifies buffer, buffer.frags, pool, pool.free
    ensures Filling(buffer, pool, [], free, [], d + Escaped(v))
    ensures forall i :: 0 <= i < |buffer.frags| ==>
      buffer.frags[i] in old(buffer.frags) || buffer.frags[i] in old(pool.free) || fresh(buffer.frags[i])
    ensures forall i :: 0 <= i < |pool.free| ==> pool.free[i] in old(pool.free)
  {
    hide Filling, Owns, Escaped, Bytes, EscapedByte;
    ghost var fs0, free0, e := buffer.frags, pool.free, d;
    var j := 0;
    assert v[0..] == v;
    assert forall i :: 0 <= i < |fs0| ==> fs0[i] in fs0;
    assert forall i :: 0 <= i < |free0| ==> free0[i] in free0;
    while j < |v|
      invariant 0 <= j <= |v| && Filling(buffer, pool, [], free, [], e) && e + Escaped(v[j..]) == d + Escaped(v)
      invariant forall i :: 0 <= i < |buffer.frags| ==>
        buffer.frags[i] in fs0 || buffer.frags[i] in free0 || fresh(buffer.frags[i])
      invariant forall i :: 0 <= i < |pool.free| ==> pool.free[i] in free0
    {
      EscapedStep(v, j, e);
      PutByte(v[j], buffer, pool, free, e);
      e := e + EscapedByte(v[j]);
      j := j + 1;
    }
    EscapedNone();
    assert v[j..] == [] && e + [] == e;
  }

  method PutByte(c: byte, buffer: Buffer, pool: Pool, ghost free: seq<Fragment>, ghost d: seq<byte>)
    requires Filling(buffer, pool, [], free, [], d) && |d| + |EscapedByte(c)| < SIZE_LIMIT
    modifies buffer, buffer.frags, pool, pool.free
    ensures Filling(buffer, pool, [], free, [], d + EscapedByte(c))
    ensures forall i :: 0 <= i < |buffer.frags| ==>
      buffer.frags[i] in old(buffer.frags) || buffer.frags[i] in old(pool.free) || fresh(buffer.frags[i])
    ensures forall i :: 0 <= i < |pool.free| ==> pool.free[i] in old(pool.free)
  {
    hide Filling, Owns, Bytes;
    if IsToken(c) {
      Emit(OneByte(c), buffer, pool, [], free, [], d);
    } else if c == SPACE {
      Emit(OneByte(PLUS), buffer, pool, [], free, [], d);
    } else {
      Emit(Block([PERCENT, HexDigit(c / 16), HexDigit(c % 16)]), buffer, pool, [], free, [], d);
    }
  }

  lemma EscapedNone()
    ensures Escaped([]) == []
  {
  }

  lemma EscapedStep(v: seq<byte>, j: nat, e: seq<byte>)
    requires j < |v|
    ensures e + Escaped(v[j..]) == e + EscapedByte(v[j]) + Escaped(v[j + 1..])
  {
    assert v[j..][1..] == v[j + 1..];
    assert e + (EscapedByte(v[j]) + Escaped(v[j + 1..])) == e + EscapedByte(v[j]) + Escaped(v[j + 1..]);
  }

  lemma PrintedStep(vars: seq<Variable>, i: nat, d: seq<byte>)
    requires i < |vars|
    ensures d + PrintedFrom(vars, i) == d + [if i == 0 then QUESTION else AMPERSAND] + Pair(vars[i])
      + PrintedFrom(vars, i + 1)
  {
    hide Pair;
  }

  lemma {:induction false} PrintedEnd(vars: seq<Variable>, i: nat, d: seq<byte>)
    requires i == |vars|
    ensures d + PrintedFrom(vars, i) == d
  {
  }
}
