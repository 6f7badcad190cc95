/** JSON string and number literals, as sequences of UTF-16 code units. */
module JsonText {
  import opened Wrappers

  type Unit = x: int | 0 <= x < 0x10000

  type Text = seq<Unit>

  const NEWLINE: Unit := 10
  const QUOTE: Unit := 34
  const COMMA: Unit := 44
  const MINUS: Unit := 45
  const COLON: Unit := 58
  const BACKSLASH: Unit := 92
  const OPEN_LIST: Unit := 91
  const CLOSE_LIST: Unit := 93
  const OPEN_OBJECT: Unit := 123
  const CLOSE_OBJECT: Unit := 125

  /** What may follow a value inside a larger one. */
  predicate Stop(t: Text) {
    t == [] || t[0] == COMMA || t[0] == CLOSE_LIST || t[0] == CLOSE_OBJECT
  }

  // ---------------------------------------------------------------- numbers

  predicate IsDigit(u: Unit) {
    48 <= u < 58
  }

  function Digits(n: nat): (t: Text)
    ensures t != [] && forall k :: 0 <= k < |t| ==> IsDigit(t[k])
  {
    if n < 10 then [48 + n] else Digits(n / 10) + [48 + n % 10]
  }

  function Number(n: int): Text {
    if n < 0 then [MINUS] + Digits(-n) else Digits(n)
  }

  function Value(t: Text): int {
    if t == [] then 0 else 10 * Value(t[..|t| - 1]) + t[|t| - 1] - 48
  }

  lemma {:induction false} DigitsValue(n: nat)
    ensures Value(Digits(n)) == n
  {
    if n >= 10 {
      DigitsValue(n / 10);
      assert Digits(n)[..|Digits(n)| - 1] == Digits(n / 10);
    } else {
      assert Value([48 + n][..0]) == 0;
    }
  }

  /** How many digits the text starts with. */
  function Run(t: Text): nat {
    if t == [] || !IsDigit(t[0]) then 0 else 1 + Run(t[1..])
  }

  /** A run of digits ends where the first other unit stands. */
  lemma {:induction false} RunEnds(s: Text, x: Text)
    requires Stop(x) && forall k :: 0 <= k < |s| ==> IsDigit(s[k])
    ensures Run(s + x) == |s|
  {
    if s == [] {
      assert s + x == x;
    } else {
      RunEnds(s[1..], x);
      assert (s + x)[1..] == s[1..] + x;
    }
  }

  lemma SameSplit(s: Text, x: Text, t: Text, y: Text)
    requires |s| == |t| && s + x == t + y
    ensures s == t && x == y
  {
    assert s == (s + x)[..|s|] && x == (s + x)[|s|..];
    assert t == (t + y)[..|t|] && y == (t + y)[|t|..];
  }

  lemma DigitsUnique(m: nat, n: nat, x: Text, y: Text)
    requires Stop(x) && Stop(y) && Digits(m) + x == Digits(n) + y
    ensures m == n && x == y
  {
    hide Digits;
    RunEnds(Digits(m), x);
    RunEnds(Digits(n), y);
    SameSplit(Digits(m), x, Digits(n), y);
    DigitsValue(m);
    DigitsValue(n);
  }

  lemma SignShows(n: int, x: Text)
    ensures (Number(n) + x)[0] == MINUS <==> n < 0
  {
    hide Digits;
  }

  lemma DropFirst(u: Unit, s: Text, x: Text, t: Text, y: Text)
    requires [u] + s + x == [u] + t + y
    ensures s + x == t + y
  {
    assert s + x == ([u] + s + x)[1..] && t + y == ([u] + t + y)[1..];
  }

  lemma NumberUnique(m: int, n: int, x: Text, y: Text)
    requires Stop(x) && Stop(y) && Number(m) + x == Number(n) + y
    ensures m == n && x == y
  {
    hide Digits, Stop;
    SignShows(m, x);
    SignShows(n, y);
    if m < 0 {
      DropFirst(MINUS, Digits(-m), x, Digits(-n), y);
      DigitsUnique(-m, -n, x, y);
    } else {
      DigitsUnique(m, n, x, y);
    }
  }

  // ---------------------------------------------------------------- strings

  function HexDigit(d: int): (u: Unit)
    requires 0 <= d < 16
  {
    if d < 10 then 48 + d else 87 + d
  }

  /** Four lower-case hexadecimal digits. */
  function Hex4(u: Unit): Text {
    [HexDigit(u / 4096), HexDigit(u / 256 % 16), HexDigit(u / 16 % 16), HexDigit(u % 16)]
  }

  predicate High(u: Unit) {
    0xD800 <= u < 0xDC00
  }

  predicate Low(u: Unit) {
    0xDC00 <= u < 0xE000
  }

  /** The letter of a short escape. */
  function Short(u: Unit): Option<Unit> {
    if u == QUOTE || u == BACKSLASH then Some(u)
    else if u == 8 then Some(98)
    else if u == 12 then Some(102)
    else if u == 10 then Some(110)
    else if u == 13 then Some(114)
    else if u == 9 then Some(116)
    else None
  }

  /** How many units at the front are printed together, and how: quotes, backslashes, control units and
      unpaired surrogates are escaped; a surrogate pair and everything else stand for themselves. */
  function Front(s: Text): (r: (nat, Text))
    requires s != []
    ensures 1 <= r.0 <= |s|
  {
    var u := s[0];
    if Short(u).Some? then (1, [BACKSLASH, Short(u).value])
    else if High(u) && |s| > 1 && Low(s[1]) then (2, s[..2])
    else if u < 32 || High(u) || Low(u) then (1, [BACKSLASH, 117] + Hex4(u))
    else (1, [u])
  }

  function Escaped(s: Text): Text {
    if s == [] then [] else Front(s).1 + Escaped(s[Front(s).0..])
  }

  function Quoted(s: Text): Text {
    [QUOTE] + Escaped(s) + [QUOTE]
  }

  function HexValue(u: Unit): int {
    if u < 58 then u - 48 else u - 87
  }

  /** What a short escape letter stands for. */
  function Long(letter: Unit): Unit {
    if letter == 98 then 8
    else if letter == 102 then 12
    else if letter == 110 then 10
    else if letter == 114 then 13
    else if letter == 116 then 9
    else letter
  }

  /** Reads a literal after its opening quote: the string and what follows the closing quote. */
  function Unquoted(t: Text): Option<(Text, Text)> {
    if t == [] then None
    else if t[0] == QUOTE then Some(([], t[1..]))
    else if t[0] != BACKSLASH then Behind([t[0]], Unquoted(t[1..]))
    else if |t| < 2 then None
    else if t[1] != 117 then Behind([Long(t[1])], Unquoted(t[2..]))
    else if |t| < 6 then None
    else
      var v := 4096 * HexValue(t[2]) + 256 * HexValue(t[3]) + 16 * HexValue(t[4]) + HexValue(t[5]);
      if 0 <= v < 0x10000 then Behind([v], Unquoted(t[6..])) else None
  }

  function Behind(s: Text, r: Option<(Text, Text)>): Option<(Text, Text)> {
    match r
    case None => None
    case Some((rest, after)) => Some((s + rest, after))
  }

  lemma HexReadsBack(u: Unit)
    ensures var h := Hex4(u);
            4096 * HexValue(h[0]) + 256 * HexValue(h[1]) + 16 * HexValue(h[2]) + HexValue(h[3]) == u
  {
    assert u / 16 == 16 * (u / 256) + u / 16 % 16;
    assert u / 256 == 16 * (u / 4096) + u / 256 % 16;
  }

  lemma ReadShort(u: Unit, rest: Text)
    requires Short(u).Some?
    ensures Unquoted([BACKSLASH, Short(u).value] + rest) == Behind([u], Unquoted(rest))
  {
    var t := [BACKSLASH, Short(u).value] + rest;
    assert t[2..] == rest;
  }

  lemma ReadHex(u: Unit, rest: Text)
    ensures Unquoted([BACKSLASH, 117] + Hex4(u) + rest) == Behind([u], Unquoted(rest))
  {
    var t := [BACKSLASH, 117] + Hex4(u) + rest;
    HexReadsBack(u);
    assert t[6..] == rest;
  }

  lemma ReadRaw(u: Unit, rest: Text)
    requires u != QUOTE && u != BACKSLASH
    ensures Unquoted([u] + rest) == Behind([u], Unquoted(rest))
  {
    assert ([u] + rest)[1..] == rest;
  }

  lemma BehindTwice(u: Unit, v: Unit, r: Option<(Text, Text)>)
    ensures Behind([u], Behind([v], r)) == Behind([u, v], r)
  {
    if r.Some? {
      assert [u] + ([v] + r.value.0) == [u, v] + r.value.0;
    }
  }

  lemma ReadPair(u: Unit, v: Unit, rest: Text)
    requires High(u) && Low(v)
    ensures Unquoted([u, v] + rest) == Behind([u, v], Unquoted(rest))
  {
    hide Unquoted, Behind;
    ReadRaw(v, rest);
    ReadRaw(u, [v] + rest);
    assert [u, v] + rest == [u] + ([v] + rest);
    BehindTwice(u, v, Unquoted(rest));
  }

  lemma ReadFront(s: Text, rest: Text)
    requires s != []
    ensures Unquoted(Front(s).1 + rest) == Behind(s[..Front(s).0], Unquoted(rest))
  {
    hide Unquoted, Hex4, Behind;
    var u := s[0];
    assert s[..1] == [u];
    if Short(u).Some? {
      ReadShort(u, rest);
    } else if High(u) && |s| > 1 && Low(s[1]) {
      assert s[..2] == [u, s[1]];
      ReadPair(u, s[1], rest);
    } else if u < 32 || High(u) || Low(u) {
      ReadHex(u, rest);
    } else {
      ReadRaw(u, rest);
    }
  }

  /** Reading a printed literal gives the string back. */
  lemma {:induction false} ReadsBack(s: Text, x: Text)
    ensures Unquoted(Escaped(s) + ([QUOTE] + x)) == Some((s, x))
  {
    hide Unquoted, Front;
    var close := [QUOTE] + x;
    if s == [] {
      assert Escaped(s) + close == close;
      ReadEnd(x);
    } else {
      var n := Front(s).0;
      ReadsBack(s[n..], x);
      ReadFront(s, Escaped(s[n..]) + close);
      assert Escaped(s) + close == Front(s).1 + (Escaped(s[n..]) + close);
      assert s == s[..n] + s[n..];
    }
  }

  lemma ReadEnd(x: Text)
    ensures Unquoted([QUOTE] + x) == Some(([], x))
  {
    assert ([QUOTE] + x)[1..] == x;
  }

  lemma QuotedUnique(s: Text, t: Text, x: Text, y: Text)
    requires Quoted(s) + x == Quoted(t) + y
    ensures s == t && x == y
  {
    hide Escaped, Unquoted;
    assert (Quoted(s) + x)[1..] == Escaped(s) + ([QUOTE] + x);
    assert (Quoted(t) + y)[1..] == Escaped(t) + ([QUOTE] + y);
    ReadsBack(s, x);
    ReadsBack(t, y);
  }

  // ---------------------------------------------------------------- the order of keys

  /** Comparison of strings by code units. */
  predicate Less(a: Text, b: Text) {
    b != [] && (a == [] || a[0] < b[0] || (a[0] == b[0] && Less(a[1..], b[1..])))
  }

  lemma {:induction false} LessTotal(a: Text, b: Text)
    ensures a == b || Less(a, b) || Less(b, a)
    ensures !(Less(a, b) && Less(b, a)) && !Less(a, a)
  {
    if a != [] {
      LessTotal(a[1..], a[1..]);
      if b != [] {
        LessTotal(a[1..], b[1..]);
        assert a == [a[0]] + a[1..] && b == [b[0]] + b[1..];
      }
    }
  }

  lemma {:induction false} LessTransitive(a: Text, b: Text, c: Text)
    requires Less(a, b) && Less(b, c)
    ensures Less(a, c)
  {
    if a != [] && a[0] == b[0] == c[0] {
      LessTransitive(a[1..], b[1..], c[1..]);
    }
  }

  /** One string comes before another if it is cut short by it, or smaller at the first unit where they differ. */
  lemma {:induction false} LessMeaning(a: Text, b: Text)
    ensures Less(a, b) <==>
      exists n: nat :: n <= |a| && n < |b| && a[..n] == b[..n] && (n == |a| || a[n] < b[n])
  {
    if b != [] {
      if a == [] {
        assert a[..0] == b[..0];
      } else {
        LessMeaning(a[1..], b[1..]);
        if Less(a[1..], b[1..]) && a[0] == b[0] {
          var m: nat :| m <= |a[1..]| && m < |b[1..]| && a[1..][..m] == b[1..][..m] && (m == |a[1..]| || a[1..][m] < b[1..][m]);
          assert a[..m + 1] == [a[0]] + a[1..][..m] && b[..m + 1] == [b[0]] + b[1..][..m];
        }
        if a[0] < b[0] {
          assert a[..0] == b[..0];
        }
        if n: nat :| 0 < n <= |a| && n < |b| && a[..n] == b[..n] && (n == |a| || a[n] < b[n]) {
          assert a[0] == a[..n][0] && b[0] == b[..n][0];
          assert a[1..][..n - 1] == a[..n][1..] && b[1..][..n - 1] == b[..n][1..];
        }
      }
    }
  }

  /** A string without quotes, backslashes, control units and surrogates stands for itself between quotes. */
  lemma {:induction false} PlainStringPrintsItself(s: Text)
    requires forall k :: 0 <= k < |s| ==> s[k] != QUOTE && s[k] != BACKSLASH && s[k] >= 32 && !High(s[k]) && !Low(s[k])
    ensures Escaped(s) == s && Quoted(s) == [QUOTE] + s + [QUOTE]
  {
    if s != [] {
      PlainStringPrintsItself(s[1..]);
      assert s == [s[0]] + s[1..];
    }
  }
}
