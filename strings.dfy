/**
 * The Python `str` and `list` operations the application relies on,
 * restricted to ASCII character classes: `isdigit`, `isspace`, `strip`,
 * `int`, `str`, `zfill`, `capitalize`, `split('**')` and `list.index`.
 */
module Strings {
  import opened Wrappers

  /** `c.isdigit()` for an ASCII character. */
  predicate IsDigit(c: char) {
    '0' <= c <= '9'
  }

  /**
   * `c.isspace()` for an ASCII character: space, the controls \t \n \v \f \r
   * and the four information separators 0x1c-0x1f.
   */
  predicate IsSpace(c: char) {
    c == ' ' || '\t' <= c <= '\r' || '\U{1C}' <= c <= '\U{1F}'
  }

  predicate AllDigits(s: string) {
    forall i :: 0 <= i < |s| ==> IsDigit(s[i])
  }

  /** `s.isdigit()`: false on the empty string. */
  predicate IsDigits(s: string) {
    |s| > 0 && AllDigits(s)
  }

  function DigitValue(c: char): (d: nat)
    requires IsDigit(c)
    ensures d < 10
  {
    c as int - '0' as int
  }

  function DigitChar(d: nat): (c: char)
    requires d < 10
    ensures IsDigit(c) && DigitValue(c) == d
  {
    ('0' as int + d) as char
  }

  /** `int(s)` for a string of ASCII digits (leading zeros allowed). */
  function DecimalValue(s: string): nat
    requires AllDigits(s)
  {
    if |s| == 0 then 0 else 10 * DecimalValue(s[..|s| - 1]) + DigitValue(s[|s| - 1])
  }

  /** A digit string reads as zero exactly when all its digits are '0'. */
  lemma {:induction false} DecimalValueZero(s: string)
    requires AllDigits(s)
    ensures DecimalValue(s) == 0 <==> forall i :: 0 <= i < |s| ==> s[i] == '0'
    decreases |s|
  {
    if |s| > 0 {
      var init := s[..|s| - 1];
      DecimalValueZero(init);
      assert forall i :: 0 <= i < |init| ==> init[i] == s[i];
    }
  }

  /** `str(n)` for a non-negative int: its decimal digits, no leading zero. */
  function NatToString(n: nat): (s: string)
    ensures IsDigits(s)
    ensures DecimalValue(s) == n
    ensures |s| > 1 ==> s[0] != '0'
  {
    if n < 10 then [DigitChar(n)]
    else
      var prefix := NatToString(n / 10);
      var s := prefix + [DigitChar(n % 10)];
      assert s[..|s| - 1] == prefix;
      s
  }

  function Zeros(k: nat): (z: string)
    ensures |z| == k && forall i :: 0 <= i < k ==> z[i] == '0'
  {
    if k == 0 then "" else "0" + Zeros(k - 1)
  }

  /**
   * `s.zfill(width)`: pads with '0' on the left up to `width` characters,
   * keeping a leading '+' or '-' in front of the padding.
   */
  function ZFill(s: string, width: nat): (r: string)
    ensures |r| == if |s| >= width then |s| else width
    ensures |s| >= width ==> r == s
    ensures |s| < width && (|s| == 0 || (s[0] != '+' && s[0] != '-')) ==>
              r == Zeros(width - |s|) + s
    ensures |s| < width && |s| > 0 && (s[0] == '+' || s[0] == '-') ==>
              r == [s[0]] + Zeros(width - |s|) + s[1..]
  {
    if |s| >= width then s
    else if |s| > 0 && (s[0] == '+' || s[0] == '-') then [s[0]] + Zeros(width - |s|) + s[1..]
    else Zeros(width - |s|) + s
  }

  function Upper(c: char): char {
    if 'a' <= c <= 'z' then (c as int - 32) as char else c
  }

  function Lower(c: char): char {
    if 'A' <= c <= 'Z' then (c as int + 32) as char else c
  }

  /** `s.capitalize()`: first character upper case, all others lower case. */
  function Capitalize(s: string): (r: string)
    ensures |r| == |s|
    ensures |s| > 0 ==> r[0] == Upper(s[0])
    ensures forall i :: 1 <= i < |s| ==> r[i] == Lower(s[i])
  {
    if |s| == 0 then "" else [Upper(s[0])] + LowerAll(s[1..])
  }

  function LowerAll(s: string): (r: string)
    ensures |r| == |s| && forall i :: 0 <= i < |s| ==> r[i] == Lower(s[i])
  {
    if |s| == 0 then "" else [Lower(s[0])] + LowerAll(s[1..])
  }

  /** Number of whitespace characters at the start of `s`. */
  function LeadingSpaces(s: string): (n: nat)
    ensures n <= |s|
  {
    if |s| > 0 && IsSpace(s[0]) then 1 + LeadingSpaces(s[1..]) else 0
  }

  /** The leading run is whitespace and stops at a character that is not. */
  lemma {:induction false} LeadingSpacesSpec(s: string)
    ensures forall i :: 0 <= i < LeadingSpaces(s) ==> IsSpace(s[i])
    ensures LeadingSpaces(s) < |s| ==> !IsSpace(s[LeadingSpaces(s)])
    decreases |s|
  {
    if |s| > 0 && IsSpace(s[0]) {
      LeadingSpacesSpec(s[1..]);
    }
  }

  /** Number of whitespace characters at the end of `s`. */
  function TrailingSpaces(s: string): (n: nat)
    ensures n <= |s|
  {
    if |s| > 0 && IsSpace(s[|s| - 1]) then 1 + TrailingSpaces(s[..|s| - 1]) else 0
  }

  /** The trailing run is whitespace and stops at a character that is not. */
  lemma {:induction false} TrailingSpacesSpec(s: string)
    ensures forall i :: |s| - TrailingSpaces(s) <= i < |s| ==> IsSpace(s[i])
    ensures TrailingSpaces(s) < |s| ==> !IsSpace(s[|s| - 1 - TrailingSpaces(s)])
    decreases |s|
  {
    if |s| > 0 && IsSpace(s[|s| - 1]) {
      TrailingSpacesSpec(s[..|s| - 1]);
    }
  }

  /** `s.strip()`: the slice of `s` left after removing whitespace at both ends. */
  function Strip(s: string): (r: string)
    ensures |r| <= |s|
  {
    var a := LeadingSpaces(s);
    s[a..|s| - TrailingSpaces(s[a..])]
  }

  /** The result of `strip` is a slice of `s` that neither starts nor ends with whitespace. */
  lemma StripEnds(s: string)
    ensures LeadingSpaces(s) + |Strip(s)| <= |s|
    ensures Strip(s) == s[LeadingSpaces(s)..LeadingSpaces(s) + |Strip(s)|]
    ensures |Strip(s)| > 0 ==> !IsSpace(Strip(s)[0]) && !IsSpace(Strip(s)[|Strip(s)| - 1])
  {
    var a := LeadingSpaces(s);
    var rest := s[a..];
    var t := TrailingSpaces(rest);
    var r := Strip(s);
    assert r == s[a..|s| - t];
    if |r| > 0 {
      LeadingSpacesSpec(s);
      TrailingSpacesSpec(rest);
      assert r[0] == s[a];
      assert r[|r| - 1] == s[|s| - t - 1];
      assert s[|s| - t - 1] == rest[|rest| - 1 - t];
    }
  }

  /** `strip` removes only whitespace: it keeps every other character, so it is empty exactly when `s` is all whitespace. */
  lemma StripKeeps(s: string)
    ensures forall i :: 0 <= i < |s| && !IsSpace(s[i]) ==>
              LeadingSpaces(s) <= i < LeadingSpaces(s) + |Strip(s)|
    ensures |Strip(s)| == 0 <==> forall i :: 0 <= i < |s| ==> IsSpace(s[i])
  {
    var a := LeadingSpaces(s);
    StripOutside(s);
    LeadingSpacesSpec(s);
    if a < |s| {
      assert !IsSpace(s[a]);
    }
  }

  /** Every character before or after the slice that `strip` keeps is whitespace. */
  lemma StripOutside(s: string)
    ensures LeadingSpaces(s) + |Strip(s)| <= |s|
    ensures forall i :: 0 <= i < |s| && (i < LeadingSpaces(s) || LeadingSpaces(s) + |Strip(s)| <= i) ==>
              IsSpace(s[i])
  {
    var a := LeadingSpaces(s);
    var rest := s[a..];
    var t := TrailingSpaces(rest);
    var b := |s| - t;
    LeadingSpacesSpec(s);
    TrailingSpacesSpec(rest);
    assert |Strip(s)| == b - a;
    forall i | 0 <= i < |s| && (i < a || b <= i)
      ensures IsSpace(s[i])
    {
      if b <= i {
        var j := i - a;
        assert |rest| - t <= j < |rest|;
        assert rest[j] == s[a + j];
      }
    }
  }

  /** Whitespace in front adds to the leading run. */
  lemma {:induction false} LeadingSpacesPrefix(pre: string, x: string)
    requires forall i :: 0 <= i < |pre| ==> IsSpace(pre[i])
    ensures LeadingSpaces(pre + x) == |pre| + LeadingSpaces(x)
    decreases |pre|
  {
    if |pre| > 0 {
      assert (pre + x)[1..] == pre[1..] + x;
      LeadingSpacesPrefix(pre[1..], x);
    } else {
      assert pre + x == x;
    }
  }

  /** Whitespace behind adds to the trailing run. */
  lemma {:induction false} TrailingSpacesSuffix(x: string, suf: string)
    requires forall i :: 0 <= i < |suf| ==> IsSpace(suf[i])
    ensures TrailingSpaces(x + suf) == |suf| + TrailingSpaces(x)
    decreases |suf|
  {
    if |suf| > 0 {
      var s := x + suf;
      assert s[..|s| - 1] == x + suf[..|suf| - 1];
      TrailingSpacesSuffix(x, suf[..|suf| - 1]);
    } else {
      assert x + suf == x;
    }
  }

  /** Any whitespace around a text that neither starts nor ends with whitespace is stripped away. */
  lemma StripPadded(pre: string, t: string, suf: string)
    requires forall i :: 0 <= i < |pre| ==> IsSpace(pre[i])
    requires forall i :: 0 <= i < |suf| ==> IsSpace(suf[i])
    requires |t| > 0 && !IsSpace(t[0]) && !IsSpace(t[|t| - 1])
    ensures Strip(pre + t + suf) == t
  {
    var s := pre + t + suf;
    assert s == pre + (t + suf);
    LeadingSpacesPrefix(pre, t + suf);
    assert (t + suf)[0] == t[0];
    assert s[|pre|..] == t + suf;
    TrailingSpacesSuffix(t, suf);
    assert TrailingSpaces(t) == 0;
    assert s[|pre|..|s| - |suf|] == t;
  }

  /** A string of digits has no whitespace to strip. */
  lemma StripDigits(s: string)
    requires AllDigits(s)
    ensures Strip(s) == s
  {
    if |s| > 0 {
      assert !IsSpace(s[0]) && !IsSpace(s[|s| - 1]);
      assert LeadingSpaces(s) == 0;
      assert s[0..] == s;
    }
  }

  // ---------------------------------------------------------------------
  // Splitting on the bold marker `**`.

  /** The separator `**` starts at position i of s. */
  predicate SepAt(s: string, i: int) {
    0 <= i && i + 1 < |s| && s[i] == '*' && s[i + 1] == '*'
  }

  predicate HasNoSep(s: string) {
    forall i :: 0 <= i < |s| ==> !SepAt(s, i)
  }

  /** Position of the leftmost `**` in s, or |s| when there is none. */
  function FirstSep(s: string): (k: nat)
    ensures k <= |s|
    ensures k < |s| ==> SepAt(s, k)
    ensures forall j :: 0 <= j < k ==> !SepAt(s, j)
  {
    if |s| < 2 then |s|
    else if SepAt(s, 0) then 0
    else
      var k := 1 + FirstSep(s[1..]);
      assert forall j :: 1 <= j < |s| ==> (SepAt(s, j) <==> SepAt(s[1..], j - 1));
      k
  }

  /** The inverse of `Split`: the tokens glued back with `**`. */
  function Join(tokens: seq<string>): string
    requires |tokens| > 0
  {
    if |tokens| == 1 then tokens[0] else tokens[0] + "**" + Join(tokens[1..])
  }

  /**
   * `s.split('**')`: the pieces between the non-overlapping occurrences of
   * `**`, found from the left. Joining them with `**` gives back `s`, no
   * piece contains `**`, and no piece but the last ends with `*` (each cut
   * is at the leftmost `**`), which together fix the pieces.
   */
  function Split(s: string): (tokens: seq<string>)
    ensures |tokens| > 0
    ensures Join(tokens) == s
    ensures forall i :: 0 <= i < |tokens| ==> HasNoSep(tokens[i])
    ensures forall i :: 0 <= i < |tokens| - 1 ==> |tokens[i]| == 0 || tokens[i][|tokens[i]| - 1] != '*'
    decreases |s|
  {
    var k := FirstSep(s);
    if k == |s| then
      assert HasNoSep(s);
      [s]
    else
      var head := s[..k];
      var tail := Split(s[k + 2..]);
      HeadBeforeSep(s, k);
      var tokens := [head] + tail;
      assert tokens[1..] == tail;
      assert head + "**" + s[k + 2..] == s;
      tokens
  }

  /** The text before the leftmost `**` has no `**` and does not end with `*`. */
  lemma HeadBeforeSep(s: string, k: nat)
    requires k == FirstSep(s) < |s|
    ensures HasNoSep(s[..k])
    ensures k > 0 ==> s[k - 1] != '*'
  {
    var head := s[..k];
    forall i | 0 <= i < |head| ensures !SepAt(head, i) {
      assert SepAt(head, i) ==> SepAt(s, i);
    }
    assert k > 0 ==> !SepAt(s, k - 1);
  }

  /** `tokens.index(x)`, with `None` for the `ValueError` of a missing token. */
  function IndexOf(tokens: seq<string>, x: string): (r: Option<nat>)
    ensures r.Some? ==> r.value < |tokens| && tokens[r.value] == x
  {
    if |tokens| == 0 then None
    else if tokens[0] == x then Some(0)
    else
      match IndexOf(tokens[1..], x)
      case None => None
      case Some(k) => Some(k + 1)
  }

  /** `index` fails exactly when `x` is absent, and otherwise finds its first occurrence. */
  lemma {:induction false} IndexOfSpec(tokens: seq<string>, x: string)
    ensures IndexOf(tokens, x).None? <==> x !in tokens
    ensures IndexOf(tokens, x).Some? ==> forall j :: 0 <= j < IndexOf(tokens, x).value ==> tokens[j] != x
    decreases |tokens|
  {
    if |tokens| > 0 && tokens[0] != x {
      IndexOfSpec(tokens[1..], x);
      assert tokens == [tokens[0]] + tokens[1..];
    }
  }

  // ---------------------------------------------------------------------
  // Digit entries: the values of the strings whose stripped text is all digits.

  /** The int value of `s` when `s.strip().isdigit()`, else `None`. */
  function StrippedNumber(s: string): Option<nat> {
    var t := Strip(s);
    if IsDigits(t) then Some(DecimalValue(t)) else None
  }

  /**
   * The values of the strings of `ts` whose stripped text is all digits,
   * in their order in `ts`; the others are skipped.
   */
  function DigitValues(ts: seq<string>): (vs: seq<nat>)
    ensures |vs| <= |ts|
  {
    if |ts| == 0 then []
    else
      var last := ts[|ts| - 1];
      DigitValues(ts[..|ts| - 1]) + (if StrippedNumber(last).Some? then [StrippedNumber(last).value] else [])
  }

  /** The last string adds its value when it is a digit string. */
  lemma DigitValuesLast(ts: seq<string>)
    requires |ts| > 0
    ensures var n := |ts| - 1;
      DigitValues(ts) == DigitValues(ts[..n]) + (if StrippedNumber(ts[n]).Some? then [StrippedNumber(ts[n]).value] else [])
  {
  }

  /** One more string at the end of the range adds its value, if it is a digit string. */
  lemma DigitValuesExtend(ts: seq<string>, a: nat, b: nat)
    requires a <= b < |ts|
    ensures DigitValues(ts[a..b + 1]) == DigitValues(ts[a..b])
              + (if StrippedNumber(ts[b]).Some? then [StrippedNumber(ts[b]).value] else [])
  {
    assert ts[a..b + 1][..b - a] == ts[a..b];
  }

  lemma {:induction false} DigitValuesAppend(a: seq<string>, b: seq<string>)
    ensures DigitValues(a + b) == DigitValues(a) + DigitValues(b)
    decreases |b|
  {
    if |b| > 0 {
      var b' := b[..|b| - 1];
      assert (a + b)[..|a + b| - 1] == a + b';
      DigitValuesAppend(a, b');
    } else {
      assert a + b == a;
    }
  }

  /** The positions of the digit strings of `ts`, in order. */
  function DigitPositions(ts: seq<string>): (ps: seq<nat>)
    ensures |ps| == |DigitValues(ts)|
  {
    if |ts| == 0 then []
    else
      var n := |ts| - 1;
      var ps := DigitPositions(ts[..n]);
      if StrippedNumber(ts[n]).Some? then ps + [n] else ps
  }

  /** One more string at the end: its position is added when it is a digit string. */
  lemma DigitPositionsLast(ts: seq<string>)
    requires |ts| > 0
    ensures var n := |ts| - 1;
      && DigitPositions(ts) == DigitPositions(ts[..n]) + (if StrippedNumber(ts[n]).Some? then [n] else [])
      && DigitValues(ts) == DigitValues(ts[..n]) + (if StrippedNumber(ts[n]).Some? then [StrippedNumber(ts[n]).value] else [])
  {
  }

  /** Each position holds the value `DigitValues` lists at the same rank. */
  lemma {:induction false} DigitPositionsValues(ts: seq<string>)
    ensures forall i :: 0 <= i < |DigitPositions(ts)| ==>
              DigitPositions(ts)[i] < |ts| && StrippedNumber(ts[DigitPositions(ts)[i]]) == Some(DigitValues(ts)[i])
    decreases |ts|
  {
    if |ts| > 0 {
      var n := |ts| - 1;
      var init := ts[..n];
      DigitPositionsValues(init);
      DigitPositionsLast(ts);
      var ps, vs := DigitPositions(init), DigitValues(init);
      forall i | 0 <= i < |DigitPositions(ts)|
        ensures DigitPositions(ts)[i] < |ts| && StrippedNumber(ts[DigitPositions(ts)[i]]) == Some(DigitValues(ts)[i])
      {
        if i < |ps| {
          assert DigitPositions(ts)[i] == ps[i] && DigitValues(ts)[i] == vs[i];
          assert ts[ps[i]] == init[ps[i]];
        } else {
          assert DigitPositions(ts)[i] == n;
        }
      }
    }
  }

  /** The positions are strictly increasing. */
  lemma {:induction false} DigitPositionsIncreasing(ts: seq<string>)
    ensures forall i, j :: 0 <= i < j < |DigitPositions(ts)| ==> DigitPositions(ts)[i] < DigitPositions(ts)[j]
    decreases |ts|
  {
    if |ts| > 0 {
      var n := |ts| - 1;
      var init := ts[..n];
      DigitPositionsIncreasing(init);
      DigitPositionsValues(init);
      DigitPositionsLast(ts);
    }
  }

  /** Every position left out holds a string that is not a digit string. */
  lemma {:induction false} DigitPositionsSkipped(ts: seq<string>)
    ensures forall k :: 0 <= k < |ts| && k !in DigitPositions(ts) ==> StrippedNumber(ts[k]).None?
    decreases |ts|
  {
    if |ts| > 0 {
      var n := |ts| - 1;
      var init := ts[..n];
      DigitPositionsSkipped(init);
      DigitPositionsLast(ts);
      var ps := DigitPositions(init);
      assert ps <= DigitPositions(ts);
      forall k | 0 <= k < |ts| && k !in DigitPositions(ts)
        ensures StrippedNumber(ts[k]).None?
      {
        if k < n {
          assert ts[k] == init[k];
        }
      }
    }
  }

  /** Some string of `ts` strips to the digits of `v`. */
  predicate HasDigitEntry(ts: seq<string>, v: nat) {
    exists k :: 0 <= k < |ts| && StrippedNumber(ts[k]) == Some(v)
  }

  /** A value is among `DigitValues(ts)` iff some string of `ts` strips to its digits. */
  lemma {:induction false} DigitValuesMembership(ts: seq<string>, v: nat)
    ensures v in DigitValues(ts) <==> HasDigitEntry(ts, v)
    decreases |ts|
  {
    if |ts| > 0 {
      var n := |ts| - 1;
      var init := ts[..n];
      var last := if StrippedNumber(ts[n]).Some? then [StrippedNumber(ts[n]).value] else [];
      assert DigitValues(ts) == DigitValues(init) + last;
      DigitValuesMembership(init, v);
      if v in DigitValues(init) {
        var k :| 0 <= k < n && StrippedNumber(init[k]) == Some(v);
        assert ts[k] == init[k];
        assert HasDigitEntry(ts, v);
      } else if v in last {
        assert StrippedNumber(ts[n]) == Some(v);
        assert HasDigitEntry(ts, v);
      }
      if HasDigitEntry(ts, v) {
        var k :| 0 <= k < |ts| && StrippedNumber(ts[k]) == Some(v);
        if k < n {
          assert init[k] == ts[k];
          assert HasDigitEntry(init, v);
          assert v in DigitValues(init);
        } else {
          assert k == n;
          assert v in last;
        }
      }
    }
  }

  /** The first `n` elements of `xs`, or all of them when there are fewer. */
  function Take<T>(xs: seq<T>, n: nat): (r: seq<T>)
    ensures |r| <= n && r <= xs
    ensures |xs| <= n ==> r == xs
    ensures |xs| > n ==> |r| == n
  {
    if |xs| <= n then xs else xs[..n]
  }

  /**
   * The first n digit values: each read from a digit string at a strictly
   * later position than the one before, fewer than n only when there are
   * no more digit strings.
   */
  lemma TakeDigits(ts: seq<string>, n: nat)
    ensures var t := Take(DigitValues(ts), n);
            var ps := DigitPositions(ts);
      && |t| <= |ps|
      && (forall i :: 0 <= i < |t| ==> ps[i] < |ts| && StrippedNumber(ts[ps[i]]) == Some(t[i]))
      && (forall i, j :: 0 <= i < j < |t| ==> ps[i] < ps[j])
      && (|t| < n ==> |t| == |ps|)
  {
    DigitPositionsValues(ts);
    DigitPositionsIncreasing(ts);
  }

  // ---------------------------------------------------------------------
  // Leading zeros and canonical decimal forms.

  lemma {:induction false} LeadingZero(s: string)
    requires AllDigits(s)
    ensures AllDigits("0" + s) && DecimalValue("0" + s) == DecimalValue(s)
    decreases |s|
  {
    if |s| > 0 {
      var z := "0" + s;
      assert z[..|z| - 1] == "0" + s[..|s| - 1];
      LeadingZero(s[..|s| - 1]);
    }
  }

  lemma {:induction false} LeadingZeros(k: nat, s: string)
    requires AllDigits(s)
    ensures AllDigits(Zeros(k) + s) && DecimalValue(Zeros(k) + s) == DecimalValue(s)
  {
    if k > 0 {
      var t := Zeros(k - 1) + s;
      LeadingZeros(k - 1, s);
      assert Zeros(k) + s == "0" + t;
      LeadingZero(t);
    } else {
      assert Zeros(k) + s == s;
    }
  }

  /** `str(n)` has at most two digits below 100 and at most four below 10000. */
  lemma NatToStringShort(n: nat)
    ensures n < 100 ==> |NatToString(n)| <= 2
    ensures n < 10000 ==> |NatToString(n)| <= 4
  {
    if n >= 10 {
      NatToStringShort(n / 10);
    }
  }

  /** `str(n).zfill(w)` reads back as `n` and is a digit string. */
  lemma PaddedValue(n: nat, width: nat)
    ensures IsDigits(ZFill(NatToString(n), width))
    ensures DecimalValue(ZFill(NatToString(n), width)) == n
  {
    var s := NatToString(n);
    if |s| < width {
      LeadingZeros(width - |s|, s);
    }
  }

  lemma {:induction false} PositiveValue(s: string)
    requires IsDigits(s) && s[0] != '0'
    ensures DecimalValue(s) >= 1
    decreases |s|
  {
    if |s| > 1 {
      var p := s[..|s| - 1];
      PositiveValue(p);
    }
  }

  /** A digit string with no leading zero is `str` of its value. */
  lemma {:induction false} CanonicalString(s: string)
    requires IsDigits(s) && s[0] != '0'
    ensures NatToString(DecimalValue(s)) == s
    decreases |s|
  {
    var n := DecimalValue(s);
    if |s| == 1 {
      assert DigitChar(DigitValue(s[0])) == s[0];
    } else {
      var p := s[..|s| - 1];
      PositiveValue(p);
      CanonicalString(p);
      assert n / 10 == DecimalValue(p) && n % 10 == DigitValue(s[|s| - 1]);
      assert DigitChar(DigitValue(s[|s| - 1])) == s[|s| - 1];
      assert s == p + [s[|s| - 1]];
    }
  }

  /** A digit string of length `width` is exactly `str(value).zfill(width)`. */
  lemma {:induction false} CanonicalPadded(s: string, width: nat)
    requires AllDigits(s) && |s| == width && width > 0
    ensures ZFill(NatToString(DecimalValue(s)), width) == s
    decreases |s|
  {
    var n := DecimalValue(s);
    var t := NatToString(n);
    if s[0] != '0' {
      CanonicalString(s);
    } else if |s| == 1 {
      assert s == "0";
    } else {
      var rest := s[1..];
      assert s == "0" + rest;
      LeadingZero(rest);
      CanonicalPadded(rest, width - 1);
      // t fits in width - 1 digits, so one more '0' of padding gives s
      ZFillOneMore(t, width - 1);
    }
  }

  /** Padding a digit string to one more place puts one more '0' in front. */
  lemma ZFillOneMore(t: string, width: nat)
    requires IsDigits(t) && |t| <= width
    ensures ZFill(t, width + 1) == "0" + ZFill(t, width)
  {
    var z := Zeros(width - |t|);
    assert Zeros(width + 1 - |t|) == "0" + z;
    assert IsDigit(t[0]);
    assert ZFill(t, width + 1) == ("0" + z) + t;
    assert ZFill(t, width) == z + t by {
      if |t| == width {
        assert z == [];
      }
    }
    assert ("0" + z) + t == "0" + (z + t);
  }
}
