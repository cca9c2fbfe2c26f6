/**
 * The numeric normaliser of src/components.ts: `toNearestEven` and `fixPxValues`.
 *
 * `fixPxValues` is a global replace of the pattern `-?\d+\.\d+px`. Here the
 * replace is a left-to-right scanner (`ScanFrom`) that splits the text into
 * single characters and pixel tokens, proved to be the one and only
 * decomposition that the regular-expression semantics allows (`IsReplaceScan`).
 * Numbers are exact decimals (reals), not IEEE doubles.
 */
module PxValues {
  import opened Wrappers

  // ---------------------------------------------------------------- digits

  predicate IsDigit(c: char) { '0' <= c <= '9' }

  predicate AllDigits(s: string) { forall k :: 0 <= k < |s| ==> IsDigit(s[k]) }

  function DigitValue(c: char): nat
    requires IsDigit(c)
  {
    (c as int - '0' as int) as nat
  }

  function DigitChar(d: nat): (c: char)
    requires d < 10
    ensures IsDigit(c) && DigitValue(c) == d
  {
    ('0' as int + d) as char
  }

  /** The natural number a string of decimal digits denotes (most significant first). */
  function DigitsValue(s: string): nat
    requires AllDigits(s)
  {
    if s == [] then 0 else DigitsValue(s[..|s| - 1]) * 10 + DigitValue(s[|s| - 1])
  }

  /** The value of the digits after a decimal point: 0.d1 d2 d3 ... */
  function FractionValue(s: string): (r: real)
    requires AllDigits(s)
    ensures 0.0 <= r < 1.0
  {
    if s == [] then 0.0 else (DigitValue(s[0]) as real + FractionValue(s[1..])) / 10.0
  }

  /** Decimal text of a natural number, as JavaScript prints an integer below 1e21. */
  function NatToString(n: nat): (s: string)
    ensures |s| > 0 && AllDigits(s)
    ensures DigitsValue(s) == n
    ensures s[0] == '0' ==> n == 0 && s == "0"
  {
    if n < 10 then [DigitChar(n)]
    else
      var s := NatToString(n / 10) + [DigitChar(n % 10)];
      assert s[..|s| - 1] == NatToString(n / 10);
      s
  }

  /** Template-literal text of an integer; there is no `-0` among integers, so 0 prints as "0". */
  function IntToString(i: int): (s: string)
    ensures |s| > 0 && (s[0] == '-' <==> i < 0)
  {
    if i < 0 then "-" + NatToString(-i) else NatToString(i)
  }

  /** Reads back an optional minus sign followed by decimal digits. */
  function ParseInt(s: string): int
    requires |s| > 0
    requires if s[0] == '-' then AllDigits(s[1..]) else AllDigits(s)
  {
    if s[0] == '-' then -(DigitsValue(s[1..]) as int) else DigitsValue(s)
  }

  lemma IntToStringRoundTrip(i: int)
    ensures var s := IntToString(i);
      && |s| > 0
      && (s[0] == '-' <==> i < 0)
      && (if s[0] == '-' then |s| > 1 && AllDigits(s[1..]) else AllDigits(s))
      && (var digits := if s[0] == '-' then s[1..] else s; digits[0] == '0' ==> i == 0 && s == "0")
      && ParseInt(s) == i
  {
    var s := IntToString(i);
    if i < 0 {
      assert s[1..] == NatToString(-i);
    } else {
      assert IsDigit(s[0]);
    }
  }

  // ------------------------------------------------------------ arithmetic

  /** JavaScript `a % 2`: the remainder takes the sign of the dividend. */
  function JsRemainderTwo(a: int): (r: int)
    ensures r == 0 <==> a % 2 == 0
    ensures a >= 0 ==> 0 <= r
    ensures a < 0 ==> r <= 0
    ensures -1 <= r <= 1
  {
    if a >= 0 then a % 2 else -((-a) % 2)
  }

  /**
   * `Math.round`: the integer closest to `x`, a tie going towards +infinity.
   * The half-open interval carries the tie rule: of the two integers at
   * distance one half, only the upper one lies in it.
   */
  function JsRound(x: real): (r: int)
    ensures x - 0.5 < r as real <= x + 0.5
  {
    (x + 0.5).Floor
  }

  /**
   * `toNearestEven(num)`: round, then move an odd result up by one. The source
   * tests oddness with JavaScript's `%`, so an odd negative (remainder -1)
   * also goes up: -3 becomes -2.
   */
  function ToNearestEven(num: real): (e: int)
    ensures e % 2 == 0
    ensures JsRound(num) % 2 == 0 ==> e == JsRound(num)
    ensures JsRound(num) % 2 != 0 ==> e == JsRound(num) + 1
  {
    var rounded := JsRound(num);
    if JsRemainderTwo(rounded) == 0 then rounded else rounded + 1
  }

  lemma NearestEvenBounds(num: real)
    ensures var e := ToNearestEven(num) as real; num - 0.5 < e <= num + 1.5
  {
  }

  // ---------------------------------------------------------------- tokens

  /** One match of `-?\d+\.\d+px`: the sign, the digits before and after the point. */
  datatype PxToken = PxToken(negative: bool, whole: string, fraction: string)

  function Sign(t: PxToken): string
  {
    if t.negative then "-" else ""
  }

  function TokenText(t: PxToken): (text: string)
    ensures |text| == |Sign(t)| + |t.whole| + 1 + |t.fraction| + 2
  {
    Sign(t) + t.whole + "." + t.fraction + "px"
  }

  predicate WellFormed(t: PxToken)
  {
    |t.whole| > 0 && |t.fraction| > 0 && AllDigits(t.whole) && AllDigits(t.fraction)
  }

  /** `Number.parseFloat` of the matched number, as an exact decimal. */
  function ParseFloat(t: PxToken): (r: real)
    requires WellFormed(t)
    ensures t.negative ==> -r >= DigitsValue(t.whole) as real && -r < DigitsValue(t.whole) as real + 1.0
    ensures !t.negative ==> r >= DigitsValue(t.whole) as real && r < DigitsValue(t.whole) as real + 1.0
  {
    var magnitude := DigitsValue(t.whole) as real + FractionValue(t.fraction);
    if t.negative then -magnitude else magnitude
  }

  /** The text that replaces a match: `${toNearestEven(value)}px`. */
  function Replacement(t: PxToken): (r: string)
    requires WellFormed(t)
    ensures |r| >= 3 && r[|r| - 2..] == "px"
    ensures r[0] == '-' <==> ToNearestEven(ParseFloat(t)) < 0
  {
    IntToString(ToNearestEven(ParseFloat(t))) + "px"
  }

  /** The regular expression matches token `t` at position `i` of `s`. */
  predicate MatchesAt(s: string, i: nat, t: PxToken)
  {
    WellFormed(t) && SpellsAt(s, i, TokenText(t))
  }

  /** The text `w` occurs in `s` starting at position `i`, character by character. */
  predicate SpellsAt(s: string, i: nat, w: string)
    decreases |w|
  {
    if w == [] then i <= |s| else i < |s| && s[i] == w[0] && SpellsAt(s, i + 1, w[1..])
  }

  /** ... that is, the slice of `s` of the length of `w` at `i` is `w`. */
  lemma {:induction false} SpellsAtSlice(s: string, i: nat, w: string)
    ensures SpellsAt(s, i, w) <==> i + |w| <= |s| && s[i..i + |w|] == w
    decreases |w|
  {
    if w != [] {
      SpellsAtSlice(s, i + 1, w[1..]);
      if i + |w| <= |s| {
        assert s[i..i + |w|] == [s[i]] + s[i + 1..i + |w|];
        assert w == [w[0]] + w[1..];
      }
    }
  }

  /** Spelling a concatenation is spelling its two parts one after the other. */
  lemma {:induction false} SpellsAtConcat(s: string, i: nat, x: string, y: string)
    ensures SpellsAt(s, i, x + y) <==> SpellsAt(s, i, x) && SpellsAt(s, i + |x|, y)
    decreases |x|
  {
    if x == [] {
      assert x + y == y;
      SpellsAtBound(s, i, y);
    } else {
      assert (x + y)[0] == x[0] && (x + y)[1..] == x[1..] + y;
      SpellsAtConcat(s, i + 1, x[1..], y);
    }
  }

  lemma SpellsAtBound(s: string, i: nat, w: string)
    ensures SpellsAt(s, i, w) ==> i <= |s|
  {
  }

  lemma SpellsChar(s: string, i: nat, c: char)
    ensures SpellsAt(s, i, [c]) <==> i < |s| && s[i] == c
  {
    assert [c][1..] == [];
  }

  lemma SpellsUnit(s: string, i: nat)
    ensures SpellsAt(s, i, "px") <==> i + 1 < |s| && s[i] == 'p' && s[i + 1] == 'x'
  {
    assert "px"[1..] == "x" && "x"[1..] == [];
  }

  /** The sign, the digits, the point, the digits and the unit of `t`, one after the other at `i`. */
  predicate PartsAt(s: string, i: nat, t: PxToken)
  {
    var j := i + |Sign(t)|;
    var a := j + |t.whole|;
    && SpellsAt(s, i, Sign(t))
    && SpellsAt(s, j, t.whole)
    && SpellsAt(s, a, ".")
    && SpellsAt(s, a + 1, t.fraction)
    && SpellsAt(s, a + 1 + |t.fraction|, "px")
  }

  lemma TokenParts(s: string, i: nat, t: PxToken)
    ensures SpellsAt(s, i, TokenText(t)) <==> PartsAt(s, i, t)
  {
    var x1 := Sign(t) + t.whole;
    var x2 := x1 + ".";
    var x3 := x2 + t.fraction;
    SpellsAtConcat(s, i, x3, "px");
    SpellsAtConcat(s, i, x2, t.fraction);
    SpellsAtConcat(s, i, x1, ".");
    SpellsAtConcat(s, i, Sign(t), t.whole);
  }

  // --------------------------------------------------------------- scanner

  /** Length of the longest run of digits starting at `i`. */
  function DigitRun(s: string, i: nat): (n: nat)
    requires i <= |s|
    ensures i + n <= |s|
    decreases |s| - i
  {
    if i < |s| && IsDigit(s[i]) then 1 + DigitRun(s, i + 1) else 0
  }

  /** `\d+` is greedy: the run is all digits and is followed by a non-digit or the end. */
  lemma {:induction false} DigitRunMaximal(s: string, i: nat)
    requires i <= |s|
    ensures var n := DigitRun(s, i);
      AllDigits(s[i..i + n]) && (i + n == |s| || !IsDigit(s[i + n]))
    decreases |s| - i
  {
    if i < |s| && IsDigit(s[i]) {
      DigitRunMaximal(s, i + 1);
      var n := DigitRun(s, i);
      assert s[i..i + n] == [s[i]] + s[i + 1..i + n];
    }
  }

  /** A run of digits spelled at `i` and followed by a non-digit is the longest one. */
  lemma {:induction false} DigitRunIs(s: string, i: nat, w: string)
    requires SpellsAt(s, i, w) && AllDigits(w)
    requires i + |w| < |s| && !IsDigit(s[i + |w|])
    ensures DigitRun(s, i) == |w|
    decreases |w|
  {
    if w != [] {
      assert IsDigit(w[0]);
      assert AllDigits(w[1..]) by {
        forall k | 0 <= k < |w[1..]| ensures IsDigit(w[1..][k]) {
          assert w[1..][k] == w[k + 1];
        }
      }
      DigitRunIs(s, i + 1, w[1..]);
    }
  }

  /**
   * The match of `-?\d+\.\d+px` that starts exactly at `i`, if any. Because
   * both digit runs must be followed by a non-digit (`.` and `p`), the greedy
   * match with backtracking is the longest digit run each time.
   */
  function MatchAt(s: string, i: nat): (r: Option<PxToken>)
    requires i <= |s|
    ensures r.Some? ==> i + |TokenText(r.value)| <= |s|
  {
    var negative := i < |s| && s[i] == '-';
    var j := if negative then i + 1 else i;
    var w := DigitRun(s, j);
    if w == 0 || j + w >= |s| || s[j + w] != '.' then None
    else
      var f := DigitRun(s, j + w + 1);
      var e := j + w + 1 + f;
      if f == 0 || e + 2 > |s| || s[e] != 'p' || s[e + 1] != 'x' then None
      else
        Some(PxToken(negative, s[j..j + w], s[j + w + 1..e]))
  }

  /**
   * The characters of token `t` at `i`: the optional `-`, the digits of
   * the whole part, `.`, the digits of the fraction and `px`.
   */
  predicate LaidOutAt(s: string, i: nat, t: PxToken)
  {
    var j := i + |Sign(t)|;
    var a := j + |t.whole|;
    var e := a + 1 + |t.fraction|;
    && e + 2 <= |s|
    && (t.negative <==> s[i] == '-')
    && t.whole == s[j..a] && s[a] == '.'
    && t.fraction == s[a + 1..e] && s[e] == 'p' && s[e + 1] == 'x'
  }

  /**
   * What the scanner reads at `i` for token `t`: the optional sign, a
   * longest digit run ending at a point, a longest digit run ending at `px`.
   */
  predicate ScannedAt(s: string, i: nat, t: PxToken)
  {
    var j := i + |Sign(t)|;
    && LaidOutAt(s, i, t)
    && |t.whole| == DigitRun(s, j) > 0
    && |t.fraction| == DigitRun(s, j + |t.whole| + 1) > 0
  }

  lemma MatchAtIs(s: string, i: nat, t: PxToken)
    requires i <= |s|
    ensures MatchAt(s, i) == Some(t) <==> ScannedAt(s, i, t)
  {
    if MatchAt(s, i) == Some(t) {
      MatchAtScanned(s, i);
    }
    if ScannedAt(s, i, t) {
      ScannedMatchAt(s, i, t);
    }
  }

  lemma MatchAtScanned(s: string, i: nat)
    requires i <= |s| && MatchAt(s, i).Some?
    ensures ScannedAt(s, i, MatchAt(s, i).value)
  {
  }

  lemma ScannedMatchAt(s: string, i: nat, t: PxToken)
    requires ScannedAt(s, i, t)
    ensures MatchAt(s, i) == Some(t)
  {
  }

  /** Both digit runs the scanner reads are non-empty runs of digits. */
  lemma ScannedWellFormed(s: string, i: nat, t: PxToken)
    requires ScannedAt(s, i, t)
    ensures WellFormed(t)
  {
    var j := i + |Sign(t)|;
    RunIsDigits(s, j, t.whole);
    RunIsDigits(s, j + |t.whole| + 1, t.fraction);
  }

  lemma RunIsDigits(s: string, i: nat, w: string)
    requires i + |w| <= |s| && |w| == DigitRun(s, i) && w == s[i..i + |w|]
    ensures AllDigits(w)
  {
    DigitRunMaximal(s, i);
  }

  /** Characters laid out one after the other spell the parts of the token. */
  lemma LaidOutParts(s: string, i: nat, t: PxToken)
    requires LaidOutAt(s, i, t)
    ensures PartsAt(s, i, t)
  {
    var j := i + |Sign(t)|;
    var a := j + |t.whole|;
    SpellsAtSlice(s, j, t.whole);
    SpellsAtSlice(s, a + 1, t.fraction);
    SpellsChar(s, a, '.');
    SpellsUnit(s, a + 1 + |t.fraction|);
    LaidOutSign(s, i, t);
  }

  lemma LaidOutSign(s: string, i: nat, t: PxToken)
    requires LaidOutAt(s, i, t)
    ensures SpellsAt(s, i, Sign(t))
  {
    if t.negative {
      SpellsChar(s, i, '-');
    }
  }

  /** ... and the parts of a well-formed token are laid out that way. */
  lemma PartsLaidOut(s: string, i: nat, t: PxToken)
    requires PartsAt(s, i, t) && WellFormed(t)
    ensures LaidOutAt(s, i, t)
  {
    var j := i + |Sign(t)|;
    var a := j + |t.whole|;
    SpellsAtSlice(s, j, t.whole);
    SpellsAtSlice(s, a + 1, t.fraction);
    SpellsChar(s, a, '.');
    SpellsUnit(s, a + 1 + |t.fraction|);
    PartsSign(s, i, t);
  }

  /** The token starts with `-` exactly when it is negative, as its digits cannot. */
  lemma PartsSign(s: string, i: nat, t: PxToken)
    requires PartsAt(s, i, t) && WellFormed(t)
    ensures i < |s| && (t.negative <==> s[i] == '-')
  {
    if t.negative {
      SpellsChar(s, i, '-');
    } else {
      assert IsDigit(t.whole[0]);
    }
  }

  /** What the scanner reads is a match of the pattern. */
  lemma ScannedMatches(s: string, i: nat, t: PxToken)
    requires ScannedAt(s, i, t)
    ensures MatchesAt(s, i, t)
  {
    ScannedWellFormed(s, i, t);
    LaidOutParts(s, i, t);
    TokenParts(s, i, t);
  }

  /** A match of the pattern is what the scanner reads: both digit runs are the longest. */
  lemma MatchesScanned(s: string, i: nat, t: PxToken)
    requires MatchesAt(s, i, t)
    ensures ScannedAt(s, i, t)
  {
    TokenParts(s, i, t);
    PartsLaidOut(s, i, t);
    var j := i + |Sign(t)|;
    DigitRunIs(s, j, t.whole);
    DigitRunIs(s, j + |t.whole| + 1, t.fraction);
  }

  /** A token the scanner finds at a position is a match of the pattern there. */
  lemma MatchAtSound(s: string, i: nat)
    requires i <= |s|
    ensures MatchAt(s, i).Some? ==> MatchesAt(s, i, MatchAt(s, i).value)
  {
    if MatchAt(s, i).Some? {
      var t := MatchAt(s, i).value;
      MatchAtIs(s, i, t);
      ScannedMatches(s, i, t);
    }
  }

  /** Any match of the pattern at `i` is the token the scanner finds there. */
  lemma MatchIsFound(s: string, i: nat, t: PxToken)
    requires MatchesAt(s, i, t)
    ensures MatchAt(s, i) == Some(t)
  {
    MatchesScanned(s, i, t);
    MatchAtIs(s, i, t);
  }

  /** The scanner finds a match at `i` exactly when the pattern matches there, and then the only one. */
  lemma MatchAtComplete(s: string, i: nat)
    requires i <= |s|
    ensures MatchAt(s, i).Some? ==> forall t :: MatchesAt(s, i, t) ==> t == MatchAt(s, i).value
    ensures MatchAt(s, i).None? ==> NoMatchAt(s, i)
  {
    forall t | MatchesAt(s, i, t) ensures MatchAt(s, i) == Some(t) {
      MatchIsFound(s, i, t);
    }
  }

  // ---------------------------------------------------- the global replace

  /** The regular expression matches no token at position `i` of `s`. */
  ghost predicate NoMatchAt(s: string, i: nat)
  {
    forall t :: !MatchesAt(s, i, t)
  }

  /** A piece of the input: a character outside every match, or one match. */
  datatype Segment = Text(c: char) | Px(token: PxToken)

  function SegmentText(g: Segment): (w: string)
    ensures |w| > 0
  {
    match g
    case Text(c) => [c]
    case Px(t) => TokenText(t)
  }

  /** The input text a sequence of segments was read from. */
  function Sources(gs: seq<Segment>): string
  {
    if gs == [] then [] else SegmentText(gs[0]) + Sources(gs[1..])
  }

  /**
   * Segment `g` may stand at position `i` of `s`: a character is copied only
   * where no match starts, and a match is taken wherever one starts.
   */
  ghost predicate Leads(s: string, i: nat, g: Segment)
  {
    && i < |s|
    && match g
       case Text(c) => c == s[i] && NoMatchAt(s, i)
       case Px(t) => MatchesAt(s, i, t)
  }

  /**
   * `gs` reads `s` from position `i` to its end: each segment stands where
   * the one before it ended, and `leads` allows it there.
   */
  ghost predicate Chain(s: string, i: nat, gs: seq<Segment>, leads: (nat, Segment) -> bool)
    decreases |gs|
  {
    if gs == [] then i == |s|
    else leads(i, gs[0]) && Chain(s, i + |SegmentText(gs[0])|, gs[1..], leads)
  }

  ghost function LeadsIn(s: string): (nat, Segment) -> bool
  {
    (i: nat, g: Segment) => Leads(s, i, g)
  }

  /**
   * What `String.prototype.replace` with a global regular expression does:
   * from the current position, the leftmost match is replaced, the search
   * resumes after it, and a position where no match starts is copied.
   */
  ghost predicate IsReplaceScan(s: string, i: nat, gs: seq<Segment>)
  {
    Chain(s, i, gs, LeadsIn(s))
  }

  /** At most one segment is allowed at each position. */
  ghost predicate Functional(leads: (nat, Segment) -> bool)
  {
    forall i: nat, g1, g2 :: leads(i, g1) && leads(i, g2) ==> g1 == g2
  }

  /** Every segment allowed at a position spells `s` there. */
  ghost predicate Spelled(s: string, leads: (nat, Segment) -> bool)
  {
    forall i: nat, g :: leads(i, g) ==> i + |SegmentText(g)| <= |s| && s[i..i + |SegmentText(g)|] == SegmentText(g)
  }

  /** The first segment of a chain and the chain of the rest. */
  lemma ChainUncons(s: string, i: nat, gs: seq<Segment>, leads: (nat, Segment) -> bool) returns (n: nat)
    requires gs != [] && Chain(s, i, gs, leads)
    ensures n == i + |SegmentText(gs[0])|
    ensures leads(i, gs[0]) && Chain(s, n, gs[1..], leads)
  {
    n := i + |SegmentText(gs[0])|;
  }

  /** A chain extended at the front by a segment allowed there. */
  lemma ChainFold(s: string, i: nat, gs: seq<Segment>, n: nat, leads: (nat, Segment) -> bool)
    requires gs != [] && n == i + |SegmentText(gs[0])|
    requires leads(i, gs[0]) && Chain(s, n, gs[1..], leads)
    ensures Chain(s, i, gs, leads)
  {
  }

  /** When segments spell the text, a chain reads the whole rest of it, in order. */
  lemma {:induction false} ChainCovers(s: string, i: nat, gs: seq<Segment>, leads: (nat, Segment) -> bool)
    requires Spelled(s, leads) && Chain(s, i, gs, leads)
    ensures i <= |s| && Sources(gs) == s[i..]
    decreases |gs|
  {
    if gs != [] {
      var n := ChainUncons(s, i, gs, leads);
      ChainCovers(s, n, gs[1..], leads);
      SourcesCons(gs);
      SlicesJoin(s, i, n, SegmentText(gs[0]), Sources(gs[1..]), Sources(gs));
    }
  }

  /** When at most one segment is allowed at each position, there is at most one chain. */
  lemma {:induction false} ChainDeterministic(s: string, i: nat, gs1: seq<Segment>, gs2: seq<Segment>,
                                              leads: (nat, Segment) -> bool)
    requires Spelled(s, leads) && Functional(leads)
    requires Chain(s, i, gs1, leads) && Chain(s, i, gs2, leads)
    ensures gs1 == gs2
    decreases |gs1|
  {
    if gs1 != [] && gs2 != [] {
      var n1 := ChainUncons(s, i, gs1, leads);
      var n2 := ChainUncons(s, i, gs2, leads);
      assert gs1[0] == gs2[0];
      assert n1 == n2;
      ChainDeterministic(s, n1, gs1[1..], gs2[1..], leads);
    } else if gs1 != [] {
      var n1 := ChainUncons(s, i, gs1, leads);
    } else if gs2 != [] {
      var n2 := ChainUncons(s, i, gs2, leads);
    }
  }

  lemma SourcesCons(gs: seq<Segment>)
    requires gs != []
    ensures Sources(gs) == SegmentText(gs[0]) + Sources(gs[1..])
  {
  }

  /** A text read as `x` at `i` and as `y` after it is read as `x + y` from `i`. */
  lemma SlicesJoin(s: string, i: nat, m: nat, x: string, y: string, z: string)
    requires i <= m <= |s| && s[i..m] == x && y == s[m..] && z == x + y
    ensures z == s[i..]
  {
    assert s[i..] == s[i..m] + s[m..];
  }

  /** Where the pattern matches nowhere, the scanner finds nothing. */
  lemma NoMatchNone(s: string, i: nat)
    requires i <= |s| && NoMatchAt(s, i)
    ensures MatchAt(s, i).None?
  {
    MatchAtSound(s, i);
  }

  /** One step of the scanner: the match at `i`, or else the character there. */
  function Head(s: string, i: nat): (g: Segment)
    requires i < |s|
    ensures i + |SegmentText(g)| <= |s|
  {
    match MatchAt(s, i)
    case Some(t) => Px(t)
    case None => Text(s[i])
  }

  /** The scanner: tries a match at each position, left to right. */
  function ScanFrom(s: string, i: nat): (gs: seq<Segment>)
    requires i <= |s|
    ensures |gs| <= |s| - i
    decreases |s| - i
  {
    if i == |s| then []
    else
      var g := Head(s, i);
      [g] + ScanFrom(s, i + |SegmentText(g)|)
  }

  function Scan(s: string): seq<Segment>
  {
    ScanFrom(s, 0)
  }

  lemma ScanFromCons(s: string, i: nat)
    requires i < |s|
    ensures ScanFrom(s, i) != [] && ScanFrom(s, i)[0] == Head(s, i)
    ensures ScanFrom(s, i)[1..] == ScanFrom(s, i + |SegmentText(Head(s, i))|)
  {
  }

  /** The scanner's output is a chain as soon as each of its steps is allowed. */
  lemma {:induction false} ScanChain(s: string, i: nat, leads: (nat, Segment) -> bool)
    requires i <= |s|
    requires forall j :: i <= j < |s| ==> leads(j, Head(s, j))
    ensures Chain(s, i, ScanFrom(s, i), leads)
    decreases |s| - i
  {
    if i < |s| {
      var g := Head(s, i);
      var n := i + |SegmentText(g)|;
      ScanChain(s, n, leads);
      ScanFromCons(s, i);
      var gs := ScanFrom(s, i);
      assert gs[0] == g && gs[1..] == ScanFrom(s, n);
      ChainFold(s, i, gs, n, leads);
    }
  }

  /** Each step of the scanner may stand where it is taken. */
  lemma HeadLeads(s: string, i: nat)
    requires i < |s|
    ensures Leads(s, i, Head(s, i))
  {
    MatchAtComplete(s, i);
    MatchAtSound(s, i);
  }

  /** A segment that may stand at `i` spells the input there. */
  lemma LeadsSpells(s: string, i: nat, g: Segment)
    requires Leads(s, i, g)
    ensures i + |SegmentText(g)| <= |s| && s[i..i + |SegmentText(g)|] == SegmentText(g)
  {
    if g.Text? {
      assert s[i..i + 1] == [s[i]];
    } else {
      SpellsAtSlice(s, i, TokenText(g.token));
    }
  }

  /** Only one segment may stand at a position. */
  lemma LeadsUnique(s: string, i: nat, g1: Segment, g2: Segment)
    requires Leads(s, i, g1) && Leads(s, i, g2)
    ensures g1 == g2
  {
    if g1.Px? && g2.Px? {
      MatchIsFound(s, i, g1.token);
      MatchIsFound(s, i, g2.token);
    }
  }

  lemma LeadsInSpelled(s: string)
    ensures Spelled(s, LeadsIn(s))
  {
    forall i: nat, g | LeadsIn(s)(i, g)
      ensures i + |SegmentText(g)| <= |s| && s[i..i + |SegmentText(g)|] == SegmentText(g)
    {
      LeadsSpells(s, i, g);
    }
  }

  lemma LeadsInFunctional(s: string)
    ensures Functional(LeadsIn(s))
  {
    forall i: nat, g1, g2 | LeadsIn(s)(i, g1) && LeadsIn(s)(i, g2) ensures g1 == g2 {
      LeadsUnique(s, i, g1, g2);
    }
  }

  /** The scanner produces the regular-expression decomposition. */
  lemma ScanIsReplaceScan(s: string, i: nat)
    requires i <= |s|
    ensures IsReplaceScan(s, i, ScanFrom(s, i))
  {
    forall j | i <= j < |s| ensures LeadsIn(s)(j, Head(s, j)) {
      HeadLeads(s, j);
    }
    ScanChain(s, i, LeadsIn(s));
  }

  /** ... and it is the only one. */
  lemma ReplaceScanUnique(s: string, i: nat, gs: seq<Segment>)
    requires IsReplaceScan(s, i, gs)
    ensures i <= |s| && gs == ScanFrom(s, i)
  {
    LeadsInSpelled(s);
    ChainCovers(s, i, gs, LeadsIn(s));
    ScanIsReplaceScan(s, i);
    LeadsInFunctional(s);
    ChainDeterministic(s, i, gs, ScanFrom(s, i), LeadsIn(s));
  }

  /** Every decomposition of this kind reads the whole input, in order, and nothing else. */
  lemma ReplaceScanCovers(s: string, i: nat, gs: seq<Segment>)
    requires IsReplaceScan(s, i, gs)
    ensures i <= |s| && Sources(gs) == s[i..]
  {
    LeadsInSpelled(s);
    ChainCovers(s, i, gs, LeadsIn(s));
  }

  function Render(g: Segment): string
  {
    match g
    case Text(c) => [c]
    case Px(t) => if WellFormed(t) then Replacement(t) else TokenText(t)
  }

  function RenderAll(gs: seq<Segment>): string
  {
    if gs == [] then [] else Render(gs[0]) + RenderAll(gs[1..])
  }

  /** `fixPxValues(cssString)`. */
  function FixPxValues(css: string): string
  {
    RenderAll(Scan(css))
  }

  /**
   * `fixPxValues` is the global replace: for the one decomposition of `css`
   * into unmatched characters and leftmost non-overlapping matches, the
   * characters are kept in order and each match is replaced.
   */
  lemma FixPxIsGlobalReplace(css: string)
    ensures IsReplaceScan(css, 0, Scan(css))
    ensures forall gs :: IsReplaceScan(css, 0, gs) ==>
      gs == Scan(css) && Sources(gs) == css && FixPxValues(css) == RenderAll(gs)
  {
    ScanIsReplaceScan(css, 0);
    forall gs | IsReplaceScan(css, 0, gs)
      ensures gs == Scan(css) && Sources(gs) == css
    {
      ReplaceScanUnique(css, 0, gs);
      ReplaceScanCovers(css, 0, gs);
    }
  }

  /**
   * Each replacement is an optional minus sign, a run of digits without a
   * decimal point, and `px`; the integer it spells is even and is
   * `toNearestEven` of the matched number.
   */
  lemma ReplacementShape(t: PxToken)
    requires WellFormed(t)
    ensures var r := Replacement(t); var body := r[..|r| - 2];
      && |r| >= 3 && r[|r| - 2..] == "px" && '.' !in r
      && (if body[0] == '-' then |body| > 1 && AllDigits(body[1..]) else AllDigits(body))
      && (body[0] == '-' <==> ToNearestEven(ParseFloat(t)) < 0)
      && (var digits := if body[0] == '-' then body[1..] else body; digits[0] == '0' ==> body == "0")
      && ParseInt(body) == ToNearestEven(ParseFloat(t))
      && ParseInt(body) % 2 == 0
  {
    var r := Replacement(t);
    var e := ToNearestEven(ParseFloat(t));
    var body := IntToString(e);
    IntToStringRoundTrip(e);
    assert r[..|r| - 2] == body;
    assert r[|r| - 2..] == "px";
    assert forall k :: 0 <= k < |r| ==> r[k] != '.' by {
      forall k | 0 <= k < |r| ensures r[k] != '.' {
        if k < |body| && k > 0 {
          assert body[k] == (if body[0] == '-' then body[1..][k - 1] else body[k]);
        }
      }
    }
  }

  /** A text in which the pattern never matches comes back unchanged. */
  lemma NoMatchUnchanged(s: string, i: nat)
    requires i <= |s|
    requires forall k :: i <= k < |s| ==> MatchAt(s, k).None?
    ensures RenderAll(ScanFrom(s, i)) == s[i..]
  {
    var copies := (j: nat, g: Segment) => g.Text?;
    forall j | i <= j < |s| ensures copies(j, Head(s, j)) {
    }
    ScanChain(s, i, copies);
    CopiesRenderSources(s, i, ScanFrom(s, i), copies);
    ScanIsReplaceScan(s, i);
    ReplaceScanCovers(s, i, ScanFrom(s, i));
  }

  /** A chain of copied characters renders as the text it was read from. */
  lemma {:induction false} CopiesRenderSources(s: string, i: nat, gs: seq<Segment>, leads: (nat, Segment) -> bool)
    requires Chain(s, i, gs, leads)
    requires forall j: nat, g :: leads(j, g) ==> g.Text?
    ensures RenderAll(gs) == Sources(gs)
    decreases |gs|
  {
    if gs != [] {
      var n := ChainUncons(s, i, gs, leads);
      CopiesRenderSources(s, n, gs[1..], leads);
    }
  }

  lemma FixPxNoMatch(css: string)
    requires forall k :: 0 <= k < |css| ==> NoMatchAt(css, k)
    ensures FixPxValues(css) == css
  {
    forall k | 0 <= k < |css| ensures MatchAt(css, k).None? {
      NoMatchNone(css, k);
    }
    NoMatchUnchanged(css, 0);
  }
}

/** Worked values of `fixPxValues`: rounding with ties up, odd results moved up, other units kept. */
module PxValuesExamples {
  import opened Wrappers
  import opened PxValues

  /** A text that is exactly one match becomes that match's replacement. */
  lemma {:induction false} WholeToken(s: string, t: PxToken)
    requires WellFormed(t) && s == TokenText(t)
    ensures FixPxValues(s) == Replacement(t)
  {
    SpellsAtSlice(s, 0, TokenText(t));
    assert MatchesAt(s, 0, t);
    MatchIsFound(s, 0, t);
    assert ScanFrom(s, 0) == [Px(t)] + ScanFrom(s, |s|);
    assert RenderAll([Px(t)]) == Replacement(t) + RenderAll([]);
  }

  /** The value of a token with one digit on each side of the point. */
  lemma OneDigitEach(negative: bool, w: char, f: char)
    requires IsDigit(w) && IsDigit(f)
    ensures var m := DigitValue(w) as real + DigitValue(f) as real / 10.0;
      ParseFloat(PxToken(negative, [w], [f])) == if negative then -m else m
  {
    assert DigitsValue([w]) == DigitValue(w) by { assert [w][..0] == []; }
    assert FractionValue([f]) == DigitValue(f) as real / 10.0 by { assert [f][1..] == []; }
  }

  /** `Math.round(x) == n` when `x` lies in `[n - 1/2, n + 1/2)`. */
  lemma RoundIs(x: real, n: int)
    requires n as real - 0.5 <= x < n as real + 0.5
    ensures JsRound(x) == n
  {
  }

  lemma NineteenPointFour()
    ensures FixPxValues("19.4px") == "20px"
  {
    var t := PxToken(false, "19", "4");
    assert DigitsValue("19") == 19 by { assert "19"[..1] == "1"; assert "1"[..0] == []; }
    assert FractionValue("4") == 0.4 by { assert "4"[1..] == ""; }
    assert ParseFloat(t) == 19.4;
    RoundIs(19.4, 19);
    assert ToNearestEven(19.4) == 20;
    assert IntToString(20) == "20" by { assert NatToString(2) == "2"; }
    assert Replacement(t) == "20px";
    WholeToken("19.4px", t);
  }

  lemma TwoPointFive()
    ensures FixPxValues("2.5px") == "4px"
  {
    var t := PxToken(false, "2", "5");
    OneDigitEach(false, '2', '5');
    assert ParseFloat(t) == 2.5;
    RoundIs(2.5, 3);
    assert ToNearestEven(2.5) == 4;
    assert IntToString(4) == "4";
    assert Replacement(t) == "4px";
    WholeToken("2.5px", t);
  }

  lemma MinusTwoPointFive()
    ensures FixPxValues("-2.5px") == "-2px"
  {
    var t := PxToken(true, "2", "5");
    OneDigitEach(true, '2', '5');
    assert ParseFloat(t) == -2.5;
    RoundIs(-2.5, -2);
    assert ToNearestEven(-2.5) == -2;
    assert IntToString(-2) == "-2" by { assert NatToString(2) == "2"; }
    assert Replacement(t) == "-2px";
    WholeToken("-2.5px", t);
  }

  lemma MinusZeroPointFour()
    ensures FixPxValues("-0.4px") == "0px"
  {
    var t := PxToken(true, "0", "4");
    OneDigitEach(true, '0', '4');
    assert ParseFloat(t) == -0.4;
    RoundIs(-0.4, 0);
    assert ToNearestEven(-0.4) == 0;
    assert IntToString(0) == "0";
    assert Replacement(t) == "0px";
    WholeToken("-0.4px", t);
  }

  lemma MinusThreePointTwo()
    ensures FixPxValues("-3.2px") == "-2px"
  {
    var t := PxToken(true, "3", "2");
    OneDigitEach(true, '3', '2');
    assert ParseFloat(t) == -3.2;
    RoundIs(-3.2, -3);
    assert ToNearestEven(-3.2) == -2;
    assert IntToString(-2) == "-2" by { assert NatToString(2) == "2"; }
    assert Replacement(t) == "-2px";
    WholeToken("-3.2px", t);
  }

  /** An integer pixel value has no decimal point and is not a match. */
  lemma IntegerPixelsKept()
    ensures FixPxValues("3px") == "3px"
  {
    var s := "3px";
    assert DigitRun(s, 1) == 0;
    assert DigitRun(s, 0) == 1;
    assert MatchAt(s, 0).None?;
    assert DigitRun(s, 2) == 0;
    assert MatchAt(s, 1).None? && MatchAt(s, 2).None?;
    NoMatchUnchanged(s, 0);
  }

  /** A decimal with another unit is not a match. */
  lemma OtherUnitsKept()
    ensures FixPxValues("1.5em") == "1.5em"
  {
    var s := "1.5em";
    forall k | 1 <= k < 5 ensures MatchAt(s, k).None? {
      assert DigitRun(s, k) == if k == 2 then 1 else 0 by {
        if k == 2 { assert DigitRun(s, 3) == 0; }
      }
    }
    assert DigitRun(s, 2) == 1 by { assert DigitRun(s, 3) == 0; }
    assert DigitRun(s, 0) == 1;
    assert s[3] != 'p';
    assert MatchAt(s, 0).None?;
    NoMatchUnchanged(s, 0);
  }
}
