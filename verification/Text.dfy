/** The string functions of the Go library that the modelled code relies on. */
module Text {

  datatype Option<+T> = None | Some(value: T)

  /** White space as trimming and word splitting see it. */
  predicate IsSpace(c: char) {
    '\t' <= c <= '\r' || c == ' ' || c == '\U{0085}' || c == '\U{00A0}' || c == '\U{1680}'
    || '\U{2000}' <= c <= '\U{200A}' || c == '\U{2028}' || c == '\U{2029}' || c == '\U{202F}'
    || c == '\U{205F}' || c == '\U{3000}'
  }

  function TrimLeft(s: string): (r: string)
    ensures r != [] ==> !IsSpace(r[0])
  {
    if s != [] && IsSpace(s[0]) then TrimLeft(s[1..]) else s
  }

  function TrimRight(s: string): (r: string)
    ensures r <= s
    ensures r != [] ==> !IsSpace(r[|r| - 1])
  {
    if s != [] && IsSpace(s[|s| - 1]) then TrimRight(s[..|s| - 1]) else s
  }

  function TrimSpace(s: string): string {
    TrimRight(TrimLeft(s))
  }

  /** Trimming takes white space off both ends, all of it and nothing else. */
  lemma {:induction false} TrimLeftTakes(s: string)
    ensures var r := TrimLeft(s);
      |r| <= |s| && s[|s| - |r|..] == r && forall i :: 0 <= i < |s| - |r| ==> IsSpace(s[i])
  {
    if s != [] && IsSpace(s[0]) {
      TrimLeftTakes(s[1..]);
      assert forall i :: 0 < i < |s| ==> s[i] == s[1..][i - 1];
    }
  }

  lemma {:induction false} TrimRightTakes(s: string)
    ensures var r := TrimRight(s); r <= s && forall i :: |r| <= i < |s| ==> IsSpace(s[i])
  {
    if s != [] && IsSpace(s[|s| - 1]) { TrimRightTakes(s[..|s| - 1]); }
  }

  lemma TrimSpaceTakes(s: string) returns (before: string, after: string)
    ensures s == before + TrimSpace(s) + after
    ensures (forall i :: 0 <= i < |before| ==> IsSpace(before[i])) && forall i :: 0 <= i < |after| ==> IsSpace(after[i])
    ensures TrimSpace(s) != [] ==> !IsSpace(TrimSpace(s)[0]) && !IsSpace(TrimSpace(s)[|TrimSpace(s)| - 1])
  {
    var l := TrimLeft(s);
    TrimLeftTakes(s);
    TrimRightTakes(l);
    before, after := s[..|s| - |l|], l[|TrimSpace(s)|..];
    assert forall i :: 0 <= i < |after| ==> after[i] == l[|TrimSpace(s)| + i];
  }

  /** The position of the first c in s. */
  function Index(s: string, c: char): (r: Option<nat>)
    ensures r.None? ==> c !in s
    ensures r.Some? ==> r.value < |s| && s[r.value] == c && c !in s[..r.value]
  {
    if s == [] then None
    else if s[0] == c then Some(0)
    else match Index(s[1..], c)
      case None => None
      case Some(i) =>
        assert s[..i + 1] == [s[0]] + s[1..][..i];
        Some(i + 1)
  }

  /** Cuts s at every c. */
  function Split(s: string, c: char): (r: seq<string>)
    ensures |r| >= 1
    ensures forall i :: 0 <= i < |r| ==> c !in r[i]
    decreases |s|
  {
    match Index(s, c)
    case None => [s]
    case Some(i) => [s[..i]] + Split(s[i + 1..], c)
  }

  function Join(parts: seq<string>, c: char): string {
    if parts == [] then []
    else if |parts| == 1 then parts[0]
    else parts[0] + [c] + Join(parts[1..], c)
  }

  lemma JoinCons(head: string, parts: seq<string>, c: char)
    requires parts != []
    ensures Join([head] + parts, c) == head + [c] + Join(parts, c)
  {
    assert ([head] + parts)[1..] == parts;
  }

  lemma {:induction false} JoinSplit(s: string, c: char)
    ensures Join(Split(s, c), c) == s
    decreases |s|
  {
    match Index(s, c)
    case None =>
    case Some(i) =>
      var head, rest := s[..i], s[i + 1..];
      assert s == head + [c] + rest;
      JoinSplit(rest, c);
      JoinCons(head, Split(rest, c), c);
  }

  predicate IsDigit(c: char) { '0' <= c <= '9' }

  predicate AllDigits(s: string) { forall i :: 0 <= i < |s| ==> IsDigit(s[i]) }

  /** The number a string of decimal digits writes down. */
  function DecimalValue(s: string): (n: nat)
    requires AllDigits(s)
  {
    if s == [] then 0 else 10 * DecimalValue(s[..|s| - 1]) + (s[|s| - 1] - '0') as int
  }

  const MAX_INT: int := 0x7fff_ffff_ffff_ffff

  /** Decimal to a 64-bit integer: an optional sign, at least one digit, nothing else, in range. */
  function Atoi(s: string): Option<int> {
    var signed := s != [] && (s[0] == '-' || s[0] == '+');
    var digits := if signed then s[1..] else s;
    if digits == [] || !AllDigits(digits) then None
    else
      var value: int := DecimalValue(digits);
      var n := if signed && s[0] == '-' then -value else value;
      if -MAX_INT - 1 <= n <= MAX_INT then Some(n) else None
  }

  function Digit(d: nat): (c: char)
    requires d < 10
    ensures IsDigit(c)
  {
    '0' + d as char
  }

  /** A natural number in decimal. */
  function Numeral(n: nat): (s: string)
    ensures s != [] && AllDigits(s)
  {
    if n < 10 then [Digit(n)] else Numeral(n / 10) + [Digit(n % 10)]
  }

  lemma {:induction false} NumeralValue(n: nat)
    ensures DecimalValue(Numeral(n)) == n
  {
    var s := Numeral(n);
    assert s[|s| - 1] == Digit(n % 10) && s[|s| - 1] - '0' == (n % 10) as char;
    if n >= 10 {
      assert s[..|s| - 1] == Numeral(n / 10);
      NumeralValue(n / 10);
    } else {
      assert s[..|s| - 1] == [];
    }
  }

  /** Numbers in decimal are read back, with a sign or without, as far as they fit into 64 bits. */
  lemma AtoiNumeral(n: nat)
    ensures Atoi(Numeral(n)) == (if n <= 0x7fff_ffff_ffff_ffff then Some(n) else None)
    ensures Atoi("+" + Numeral(n)) == (if n <= 0x7fff_ffff_ffff_ffff then Some(n) else None)
    ensures Atoi("-" + Numeral(n)) == (if n <= 0x8000_0000_0000_0000 then Some(-(n as int)) else None)
  {
    hide Numeral, DecimalValue;
    NumeralValue(n);
    assert IsDigit(Numeral(n)[0]);
    assert ("+" + Numeral(n))[1..] == Numeral(n) && ("-" + Numeral(n))[1..] == Numeral(n);
  }

  /** The words of s, cut at white space. */
  function Fields(s: string): (r: seq<string>)
    ensures forall i :: 0 <= i < |r| ==> r[i] != [] && forall j :: 0 <= j < |r[i]| ==> !IsSpace(r[i][j])
    decreases |s|
  {
    if s == [] then []
    else if IsSpace(s[0]) then Fields(s[1..])
    else
      var n := WordLength(s);
      [s[..n]] + Fields(s[n..])
  }

  function WordLength(s: string): (n: nat)
    ensures n <= |s|
    ensures forall j :: 0 <= j < n ==> !IsSpace(s[j])
    ensures n < |s| ==> IsSpace(s[n])
    ensures s != [] && !IsSpace(s[0]) ==> n > 0
  {
    if s == [] || IsSpace(s[0]) then 0
    else
      var n := WordLength(s[1..]);
      assert forall j :: 0 < j < n + 1 ==> s[j] == s[1..][j - 1];
      n + 1
  }

  lemma WordThenSpace(w: string, rest: string)
    requires forall j :: 0 <= j < |w| ==> !IsSpace(w[j])
    requires rest == [] || IsSpace(rest[0])
    ensures WordLength(w + rest) == |w|
  {
    assert forall j :: 0 <= j < |w| ==> (w + rest)[j] == w[j];
    assert rest != [] ==> (w + rest)[|w|] == rest[0];
  }

  /** A word followed by a space is cut off as the first word. */
  lemma FieldsCons(w: string, rest: string)
    requires w != [] && forall j :: 0 <= j < |w| ==> !IsSpace(w[j])
    ensures Fields(w) == [w]
    ensures Fields(w + " " + rest) == [w] + Fields(rest)
  {
    assert w + [] == w;
    WordThenSpace(w, []);
    var tail := " " + rest;
    assert w + " " + rest == w + tail;
    WordThenSpace(w, tail);
    assert (w + tail)[..|w|] == w && (w + tail)[|w|..] == tail;
    assert tail[1..] == rest;
  }
}
