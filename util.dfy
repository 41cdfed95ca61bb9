/** Shared building blocks of the model: optional values, sums of reals,
    the two rounding rules used for percentages, and the small part of
    JavaScript string behaviour the pages rely on (whitespace, trim,
    lower-casing, number-to-string). */
module Util {

  datatype Option<T> = None | Some(value: T) {
    function GetOr(default: T): T {
      match this
      case Some(v) => v
      case None => default
    }
  }

  /** An operation's outcome: a value, or the error the source reports. */
  datatype Result<T, E> = Ok(value: T) | Err(error: E)

  // ---------------------------------------------------------------------
  // Sums

  /** Left-to-right sum, the way `reduce((s, v) => s + v, 0)` and an
      accumulating `total +=` loop compute it. */
  function Sum(xs: seq<real>): real
    decreases |xs|
  {
    if xs == [] then 0.0 else Sum(xs[..|xs| - 1]) + xs[|xs| - 1]
  }

  lemma {:induction false} SumAppend(a: seq<real>, b: seq<real>)
    ensures Sum(a + b) == Sum(a) + Sum(b)
    decreases |b|
  {
    if b == [] {
      assert a + b == a;
    } else {
      var b' := b[..|b| - 1];
      assert (a + b)[..|a + b| - 1] == a + b';
      SumAppend(a, b');
    }
  }

  lemma {:induction false} SumCons(x: real, xs: seq<real>)
    ensures Sum([x] + xs) == x + Sum(xs)
  {
    SumAppend([x], xs);
    assert [x][..0] == [];
  }

  lemma {:induction false} SumNonNegative(xs: seq<real>)
    requires forall i :: 0 <= i < |xs| ==> xs[i] >= 0.0
    ensures Sum(xs) >= 0.0
    decreases |xs|
  {
    if xs != [] {
      SumNonNegative(xs[..|xs| - 1]);
    }
  }

  /** Pointwise bound: each term at most its partner gives the sums in the same order. */
  lemma {:induction false} SumMonotone(xs: seq<real>, ys: seq<real>)
    requires |xs| == |ys|
    requires forall i :: 0 <= i < |xs| ==> xs[i] <= ys[i]
    ensures Sum(xs) <= Sum(ys)
    decreases |xs|
  {
    if xs != [] {
      SumMonotone(xs[..|xs| - 1], ys[..|ys| - 1]);
    }
  }

  /** A subset is no larger, and one of the same size is the whole set. */
  lemma {:induction false} SubsetCard<T>(a: set<T>, b: set<T>)
    requires a <= b
    ensures |a| <= |b|
    ensures |a| == |b| ==> a == b
    decreases |a|
  {
    if a != {} {
      var x :| x in a;
      SubsetCard(a - {x}, b - {x});
      assert |a - {x}| == |a| - 1;
      assert |b - {x}| == |b| - 1;
      if |a| == |b| {
        assert a == (a - {x}) + {x};
        assert b == (b - {x}) + {x};
      }
    } else if b != {} {
      var y :| y in b;
      assert |b| >= 1 by { assert |b - {y}| + 1 == |b|; }
    }
  }

  // ---------------------------------------------------------------------
  // Rounding of n / d for d > 0, on exact rationals

  /** JavaScript `Math.round(n / d)`: nearest integer, halves rounded up. */
  function RoundHalfUp(n: int, d: int): (r: int)
    requires d > 0
    ensures 2 * d * r <= 2 * n + d < 2 * d * r + 2 * d
  {
    (2 * n + d) / (2 * d)
  }

  /** Python `round(n / d)`: nearest integer, halves rounded to the even neighbour. */
  function RoundHalfEven(n: int, d: int): (r: int)
    requires d > 0
    ensures -d <= 2 * (n - r * d) <= d
    ensures (2 * (n - r * d) == d || 2 * (n - r * d) == -d) ==> r % 2 == 0
  {
    var q := n / d;
    var rem := n % d;
    if 2 * rem < d then q
    else if 2 * rem > d then q + 1
    else if q % 2 == 0 then q
    else q + 1
  }

  lemma MulLeft(a: int, b: int, c: int)
    requires a <= b && c >= 0
    ensures c * a <= c * b
  {
  }

  /** A ratio in [0, 1] rounds to a percentage in [0, 100] under either rule. */
  lemma PercentageBounds(scored: int, total: int)
    requires 0 <= scored <= total && total > 0
    ensures 0 <= RoundHalfUp(scored * 100, total) <= 100
    ensures 0 <= RoundHalfEven(scored * 100, total) <= 100
  {
    var n := scored * 100;
    MulLeft(scored, total, 100);
    var u := RoundHalfUp(n, total);
    var e := RoundHalfEven(n, total);
    if u > 100 {
      MulLeft(101, u, 2 * total);
      assert false;
    }
    if u < 0 {
      MulLeft(u, -1, 2 * total);
      assert false;
    }
    if e > 100 {
      MulLeft(101, e, total);
      assert false;
    }
    if e < 0 {
      MulLeft(e, -1, total);
      assert false;
    }
  }

  // ---------------------------------------------------------------------
  // JavaScript strings

  /** The characters JavaScript's `\s` and `String.prototype.trim` treat as white space. */
  predicate IsWhitespace(c: char) {
    c == ' ' || c == '\t' || c == '\n' || c == '\r' || c == '\U{B}' || c == '\U{C}'
    || c == '\U{A0}' || c == '\U{1680}' || ('\U{2000}' <= c <= '\U{200A}')
    || c == '\U{2028}' || c == '\U{2029}' || c == '\U{202F}' || c == '\U{205F}'
    || c == '\U{3000}' || c == '\U{FEFF}'
  }

  predicate NoWhitespace(s: string) {
    forall i :: 0 <= i < |s| ==> !IsWhitespace(s[i])
  }

  function TrimStart(s: string): (r: string)
    ensures |r| <= |s|
    ensures r == [] || !IsWhitespace(r[0])
  {
    if s != [] && IsWhitespace(s[0]) then TrimStart(s[1..]) else s
  }

  function TrimEnd(s: string): (r: string)
    ensures |r| <= |s|
    ensures r == [] || !IsWhitespace(r[|r| - 1])
  {
    if s != [] && IsWhitespace(s[|s| - 1]) then TrimEnd(s[..|s| - 1]) else s
  }

  /** `String.prototype.trim`. */
  function Trim(s: string): (r: string)
    ensures |r| <= |s|
    ensures r == [] || (!IsWhitespace(r[0]) && !IsWhitespace(r[|r| - 1]))
  {
    TrimEndShape(TrimStart(s));
    TrimEnd(TrimStart(s))
  }

  /** `trimStart` drops a run of white space from the front and keeps the rest. */
  lemma {:induction false} TrimStartShape(s: string)
    ensures TrimStart(s) == s[|s| - |TrimStart(s)|..]
    ensures forall i :: 0 <= i < |s| - |TrimStart(s)| ==> IsWhitespace(s[i])
    decreases |s|
  {
    if s != [] && IsWhitespace(s[0]) {
      TrimStartShape(s[1..]);
    }
  }

  /** `trimEnd` drops a run of white space from the back and keeps the rest. */
  lemma {:induction false} TrimEndShape(s: string)
    ensures TrimEnd(s) == s[..|TrimEnd(s)|]
    ensures forall i :: |TrimEnd(s)| <= i < |s| ==> IsWhitespace(s[i])
    decreases |s|
  {
    if s != [] && IsWhitespace(s[|s| - 1]) {
      TrimEndShape(s[..|s| - 1]);
    }
  }

  /** `trim` keeps a contiguous part of its input and drops only white
      space on either side of it. */
  lemma TrimShape(s: string)
    ensures |s| - |TrimStart(s)| + |Trim(s)| <= |s|
    ensures Trim(s) == s[|s| - |TrimStart(s)|..|s| - |TrimStart(s)| + |Trim(s)|]
    ensures forall i :: 0 <= i < |s| - |TrimStart(s)| ==> IsWhitespace(s[i])
    ensures forall i :: |s| - |TrimStart(s)| + |Trim(s)| <= i < |s| ==> IsWhitespace(s[i])
  {
    var t := TrimStart(s);
    TrimStartShape(s);
    TrimEndShape(t);
    var a := |s| - |t|;
    var n := |Trim(s)|;
    assert Trim(s) == t[..n];
    assert t[..n] == s[a..a + n];
    BlankTailShifted(s, a, n);
  }

  /** White space at the back of a suffix is white space at the back of the whole. */
  lemma BlankTailShifted(s: string, a: nat, n: nat)
    requires a + n <= |s|
    requires forall i :: n <= i < |s[a..]| ==> IsWhitespace(s[a..][i])
    ensures forall i :: a + n <= i < |s| ==> IsWhitespace(s[i])
  {
    forall i | a + n <= i < |s| ensures IsWhitespace(s[i]) {
      assert s[i] == s[a..][i - a];
    }
  }

  /** Trimming twice is trimming once. */
  lemma TrimIdempotent(s: string)
    ensures Trim(Trim(s)) == Trim(s)
  {
    var r := Trim(s);
    if r != [] {
      assert TrimStart(r) == r;
      assert TrimEnd(r) == r;
    }
  }

  lemma TrimOfBlank(s: string)
    requires forall i :: 0 <= i < |s| ==> IsWhitespace(s[i])
    ensures Trim(s) == []
  {
    TrimStartShape(s);
  }

  /** `toLowerCase` on one character, for the characters whose lower case is
      a single ASCII letter: the ASCII capitals and the Kelvin sign U+212A,
      which becomes `k`. Every other character is kept. */
  function LowerChar(c: char): char {
    if 'A' <= c <= 'Z' then (c as int + 32) as char
    else if c == '\U{212A}' then 'k'
    else c
  }

  /** `toLowerCase` character by character, as the extension check uses it. */
  function ToLowerAscii(s: string): (r: string)
    ensures |r| == |s|
    ensures forall i :: 0 <= i < |s| ==> r[i] == LowerChar(s[i])
  {
    seq(|s|, i requires 0 <= i < |s| => LowerChar(s[i]))
  }

  /** `toLowerCase` as the user-name cleaner sees it: besides `LowerChar`, the
      capital I with dot above U+0130 becomes two characters, `i` and the
      combining dot above U+0307. */
  function LowerCase(s: string): (r: string)
    ensures |s| <= |r|
    ensures '\U{0130}' !in s ==> r == ToLowerAscii(s)
    ensures forall i :: 0 <= i < |r| ==> !('A' <= r[i] <= 'Z')
  {
    if s == [] then []
    else
      var rest := LowerCase(s[1..]);
      assert '\U{0130}' !in s ==> '\U{0130}' !in s[1..];
      (if s[0] == '\U{0130}' then ['i', '\U{0307}'] else [LowerChar(s[0])]) + rest
  }

  predicate IsLowerAlnum(c: char) {
    ('a' <= c <= 'z') || ('0' <= c <= '9')
  }

  /** `s.replace(/[^a-z0-9]/g, '')`. */
  function KeepLowerAlnum(s: string): (r: string)
    ensures |r| <= |s|
    ensures forall i :: 0 <= i < |r| ==> IsLowerAlnum(r[i])
  {
    if s == [] then []
    else (if IsLowerAlnum(s[0]) then [s[0]] else []) + KeepLowerAlnum(s[1..])
  }

  /** `name.toLowerCase().replace(/[^a-z0-9]/g, '')`, the user-name base of both jury screens. */
  function CleanName(name: string): (r: string)
    ensures |r| <= |name|
    ensures forall i :: 0 <= i < |r| ==> IsLowerAlnum(r[i])
  {
    CleanNameLength(name);
    KeepLowerAlnum(LowerCase(name))
  }

  /** Lower-casing adds at most one character per dotted capital I, and that
      character is the combining dot, which the filter drops. */
  lemma {:induction false} CleanNameLength(name: string)
    ensures |KeepLowerAlnum(LowerCase(name))| <= |name|
  {
    if name != [] {
      CleanNameLength(name[1..]);
      var head := if name[0] == '\U{0130}' then ['i', '\U{0307}'] else [LowerChar(name[0])];
      assert LowerCase(name) == head + LowerCase(name[1..]);
      KeepLowerAlnumAppend(head, LowerCase(name[1..]));
      if name[0] == '\U{0130}' {
        assert KeepLowerAlnum(head) == ['i'];
      }
    }
  }

  lemma {:induction false} KeepLowerAlnumAppend(a: string, b: string)
    ensures KeepLowerAlnum(a + b) == KeepLowerAlnum(a) + KeepLowerAlnum(b)
  {
    if a == [] {
      assert a + b == b;
    } else {
      var h := if IsLowerAlnum(a[0]) then [a[0]] else [];
      assert (a + b)[0] == a[0];
      assert (a + b)[1..] == a[1..] + b;
      KeepLowerAlnumAppend(a[1..], b);
      assert KeepLowerAlnum(a + b) == h + KeepLowerAlnum(a[1..] + b);
      assert KeepLowerAlnum(a) == h + KeepLowerAlnum(a[1..]);
    }
  }

  /** Small letters and digits come through lower-casing and the filter unchanged. */
  lemma {:induction false} LowerAlnumFixed(s: string)
    requires forall i :: 0 <= i < |s| ==> IsLowerAlnum(s[i])
    ensures LowerCase(s) == s && KeepLowerAlnum(s) == s
  {
    if s != [] {
      LowerAlnumFixed(s[1..]);
    }
  }

  /** A dotted capital I cleans to `i`: "İlker" gives the base "ilker". */
  lemma CleanNameDottedI(rest: string)
    requires forall i :: 0 <= i < |rest| ==> IsLowerAlnum(rest[i])
    ensures CleanName(['\U{0130}'] + rest) == ['i'] + rest
  {
    var s := ['\U{0130}'] + rest;
    assert s[1..] == rest;
    LowerAlnumFixed(rest);
    assert LowerCase(s) == ['i', '\U{0307}'] + rest;
    KeepLowerAlnumAppend(['i', '\U{0307}'], rest);
    assert KeepLowerAlnum(['i', '\U{0307}']) == ['i'];
  }

  /** The Kelvin sign cleans to `k`: "Kim" written with it gives "kim". */
  lemma CleanNameKelvin(rest: string)
    requires forall i :: 0 <= i < |rest| ==> IsLowerAlnum(rest[i])
    ensures CleanName(['\U{212A}'] + rest) == ['k'] + rest
  {
    var s := ['\U{212A}'] + rest;
    assert s[1..] == rest;
    LowerAlnumFixed(rest);
    assert LowerCase(s) == ['k'] + rest;
    KeepLowerAlnumAppend(['k'], rest);
  }

  /** `s.replace(/\s+/g, '_')`: every maximal run of white space becomes one underscore. */
  function ReplaceWhitespaceRuns(s: string): (r: string)
    ensures |r| <= |s|
    ensures NoWhitespace(r)
    decreases |s|
  {
    if s == [] then []
    else if IsWhitespace(s[0]) then "_" + ReplaceWhitespaceRuns(TrimStart(s[1..]))
    else [s[0]] + ReplaceWhitespaceRuns(s[1..])
  }

  /** A name without white space is kept as it is, so the rewrite is idempotent. */
  lemma {:induction false} ReplaceWhitespaceRunsIdentity(s: string)
    requires NoWhitespace(s)
    ensures ReplaceWhitespaceRuns(s) == s
  {
    if s != [] {
      ReplaceWhitespaceRunsIdentity(s[1..]);
    }
  }

  lemma ReplaceWhitespaceRunsIdempotent(s: string)
    ensures ReplaceWhitespaceRuns(ReplaceWhitespaceRuns(s)) == ReplaceWhitespaceRuns(s)
  {
    ReplaceWhitespaceRunsIdentity(ReplaceWhitespaceRuns(s));
  }

  /** `s.includes(sub)`. */
  predicate Contains(s: string, sub: string)
    decreases |s|
  {
    sub <= s || (s != [] && Contains(s[1..], sub))
  }

  predicate IsDigit(c: char) { '0' <= c <= '9' }

  function DigitChar(d: nat): (c: char)
    requires d < 10
    ensures IsDigit(c) && c as int - '0' as int == d
  {
    ('0' as int + d) as char
  }

  /** `String(n)` for a natural number: its decimal digits, no leading zero. */
  function NatToString(n: nat): (r: string)
    ensures 1 <= |r|
    ensures forall i :: 0 <= i < |r| ==> IsDigit(r[i])
    ensures r[0] == '0' ==> n == 0
    ensures |r| == 1 <==> n < 10
    decreases n
  {
    if n < 10 then [DigitChar(n)] else NatToString(n / 10) + [DigitChar(n % 10)]
  }

  /** The number a string of decimal digits denotes (`parseInt` on digits only). */
  function DigitsValue(s: string): nat
    requires forall i :: 0 <= i < |s| ==> IsDigit(s[i])
    decreases |s|
  {
    if s == [] then 0
    else
      var last := s[|s| - 1];
      assert IsDigit(last);
      10 * DigitsValue(s[..|s| - 1]) + (last as int - '0' as int)
  }

  /** Reading back the digits of `String(n)` gives `n`. */
  lemma {:induction false} NatToStringRoundTrip(n: nat)
    ensures DigitsValue(NatToString(n)) == n
    decreases n
  {
    if n >= 10 {
      var s := NatToString(n);
      assert s[..|s| - 1] == NatToString(n / 10);
      NatToStringRoundTrip(n / 10);
    }
  }

  lemma NatToStringInjective(a: nat, b: nat)
    requires NatToString(a) == NatToString(b)
    ensures a == b
  {
    NatToStringRoundTrip(a);
    NatToStringRoundTrip(b);
  }

  /** `String(i)` for any integer. */
  function IntToString(i: int): (r: string)
    ensures 1 <= |r|
    ensures i >= 0 ==> r == NatToString(i)
  {
    if i >= 0 then NatToString(i) else "-" + NatToString(-i)
  }

  /** `s.padStart(width, '0')`. */
  function PadStartZero(s: string, width: nat): (r: string)
    ensures |r| == if |s| < width then width else |s|
    decreases width - |s|
  {
    if |s| < width then PadStartZero("0" + s, width) else s
  }

  /** Padding keeps the text at the end and puts only zeros before it. */
  lemma {:induction false} PadStartZeroShape(s: string, width: nat)
    ensures var r := PadStartZero(s, width);
            r[|r| - |s|..] == s && forall i :: 0 <= i < |r| - |s| ==> r[i] == '0'
    decreases width - |s|
  {
    if |s| < width {
      PadStartZeroShape("0" + s, width);
      var r := PadStartZero(s, width);
      assert r[|r| - |s|..] == r[|r| - |"0" + s|..][1..];
    }
  }

  /** `String(n).padStart(2, '0')` for n < 100: exactly the tens and the units digit. */
  lemma TwoDigits(n: nat)
    requires n < 100
    ensures PadStartZero(NatToString(n), 2) == [DigitChar(n / 10), DigitChar(n % 10)]
  {
    var s := NatToString(n);
    if n < 10 {
      assert n / 10 == 0 && n % 10 == n;
      assert s == [DigitChar(n)];
      var p := PadStartZero("0" + s, 2);
      assert p == "0" + s;
      assert DigitChar(0) == '0';
    } else {
      var t := NatToString(n / 10);
      assert |t| == 1;
      assert s == t + [DigitChar(n % 10)];
      assert t == [DigitChar(n / 10)];
    }
  }

  // ---------------------------------------------------------------------
  // `split(c)`

  /** The first part of `s.split(c)`: everything before the first `c`. */
  function Before(s: string, c: char): (r: string)
    ensures c !in r
    ensures r <= s
    ensures |r| < |s| <==> c in s
    ensures |r| < |s| ==> s[|r|] == c
  {
    if s == [] then []
    else if s[0] == c then []
    else [s[0]] + Before(s[1..], c)
  }

  /** Everything after the first `c`, or nothing when there is none. */
  function After(s: string, c: char): (r: string)
    ensures |r| <= |s|
  {
    if c in s then s[|Before(s, c)| + 1..] else []
  }

  /** `Before` reads up to the first separator only. */
  lemma {:induction false} BeforeConcat(a: string, c: char, b: string)
    requires c !in a
    ensures Before(a + [c] + b, c) == a
    ensures After(a + [c] + b, c) == b
    decreases |a|
  {
    if a != [] {
      BeforeConcat(a[1..], c, b);
      assert (a + [c] + b)[1..] == a[1..] + [c] + b;
    }
    assert (a + [c] + b)[|a|] == c;
    assert (a + [c] + b)[|a| + 1..] == b;
  }
}
