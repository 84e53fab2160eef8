/**
 * The two regular expressions the Loto page parser searches for, written
 * as hand-made scanners over the page text:
 *
 *   Header:      LOTO PLUS Nro: (\d+) - ([0-9/]+)
 *   PlusNumber:  Número plus:\*\*\s*\*\*(\d+)\*\*
 *
 * `At(pat, s, p)` is the match anchored at position p (its groups, or None);
 * `Search(pat, s)` is the match at the leftmost position where one exists,
 * as `re.search` returns it. Character classes are ASCII.
 */
module Patterns {
  import opened Wrappers
  import opened Strings

  datatype Pattern = Header | PlusNumber

  const HeaderPrefix := "LOTO PLUS Nro: "
  const HeaderDash := " - "
  const PlusLabel := "N\U{00FA}mero plus:**"
  const Bold := "**"

  /** `\d`, `[0-9/]` and `\s`. */
  datatype CharClass = Digits | DateChars | Spaces

  predicate InClass(cls: CharClass, c: char) {
    match cls
    case Digits => IsDigit(c)
    case DateChars => IsDigit(c) || c == '/'
    case Spaces => IsSpace(c)
  }

  predicate AllIn(cls: CharClass, s: string) {
    forall i :: 0 <= i < |s| ==> InClass(cls, s[i])
  }

  /** The literal `lit` occurs in `s` at position p. */
  predicate HasAt(s: string, p: nat, lit: string) {
    p + |lit| <= |s| && s[p..p + |lit|] == lit
  }

  /** Length of the longest run of `cls` characters starting at i (a greedy `cls*`). */
  function Run(s: string, i: nat, cls: CharClass): (n: nat)
    requires i <= |s|
    ensures i + n <= |s|
    decreases |s| - i
  {
    if i < |s| && InClass(cls, s[i]) then 1 + Run(s, i + 1, cls) else 0
  }

  /** The run holds only `cls` characters and stops at the end or at a character outside `cls`. */
  lemma {:induction false} RunSpec(s: string, i: nat, cls: CharClass)
    requires i <= |s|
    ensures AllIn(cls, s[i..i + Run(s, i, cls)])
    ensures i + Run(s, i, cls) < |s| ==> !InClass(cls, s[i + Run(s, i, cls)])
    decreases |s| - i
  {
    if i < |s| && InClass(cls, s[i]) {
      RunSpec(s, i + 1, cls);
      var n := Run(s, i, cls);
      assert s[i..i + n] == [s[i]] + s[i + 1..i + n];
    }
  }

  /** The groups of `pat` matched at position p, or None. */
  function At(pat: Pattern, s: string, p: nat): Option<seq<string>> {
    match pat
    case Header => HeaderAt(s, p)
    case PlusNumber => PlusAt(s, p)
  }

  /** The header scanner: the digits of the draw id and the date characters. */
  function HeaderAt(s: string, p: nat): (groups: Option<seq<string>>)
    ensures groups.Some? ==> p <= |s| && |groups.value| == 2
    ensures groups.Some? ==> IsDigits(groups.value[0])
    ensures groups.Some? ==> |groups.value[1]| > 0 && AllIn(DateChars, groups.value[1])
  {
    if !HasAt(s, p, HeaderPrefix) then None
    else
      var a := p + |HeaderPrefix|;
      var n := Run(s, a, Digits);
      if n == 0 || !HasAt(s, a + n, HeaderDash) then None
      else
        var b := a + n + |HeaderDash|;
        var m := Run(s, b, DateChars);
        if m == 0 then None
        else
          RunSpec(s, a, Digits);
          RunSpec(s, b, DateChars);
          Some([s[a..a + n], s[b..b + m]])
  }

  /** The plus scanner: whitespace, then the digits of the plus number between bold markers. */
  function PlusAt(s: string, p: nat): (groups: Option<seq<string>>)
    ensures groups.Some? ==> p <= |s| && |groups.value| == 1 && IsDigits(groups.value[0])
  {
    if !HasAt(s, p, PlusLabel) then None
    else
      var a := p + |PlusLabel|;
      var b := a + Run(s, a, Spaces);
      if !HasAt(s, b, Bold) then None
      else
        var c := b + |Bold|;
        var n := Run(s, c, Digits);
        if n == 0 || !HasAt(s, c + n, Bold) then None
        else
          RunSpec(s, c, Digits);
          Some([s[c..c + n]])
  }

  /** The leftmost position q >= p, q <= |s|, where `pat` matches. */
  function Find(pat: Pattern, s: string, p: nat): (r: Option<nat>)
    ensures r.Some? ==> p <= r.value <= |s| && At(pat, s, r.value).Some?
    ensures r.Some? ==> forall q :: p <= q < r.value ==> At(pat, s, q).None?
    ensures r.None? ==> forall q :: p <= q <= |s| ==> At(pat, s, q).None?
    decreases |s| + 1 - p
  {
    if p > |s| then None
    else if At(pat, s, p).Some? then Some(p)
    else Find(pat, s, p + 1)
  }

  /** `re.search(pat, s)`: the groups of the leftmost match. */
  function Search(pat: Pattern, s: string): (groups: Option<seq<string>>)
    ensures groups.Some? <==> exists q :: 0 <= q <= |s| && At(pat, s, q).Some?
  {
    match Find(pat, s, 0)
    case None => None
    case Some(q) => At(pat, s, q)
  }

  // ---------------------------------------------------------------------
  // The scanners against the regular expressions, read declaratively.

  /**
   * The header expression matches at p with groups `id` and `date`: the text
   * there reads `LOTO PLUS Nro: `, `id`, ` - `, `date` in turn, and as
   * `[0-9/]+` is greedy and ends the expression, `date` is not followed by
   * another date character.
   */
  predicate HeaderMatch(s: string, p: nat, id: string, date: string) {
    IsDigits(id) && |date| > 0 && AllIn(DateChars, date)
    && var a := p + |HeaderPrefix|;
       var b := a + |id| + |HeaderDash|;
       var e := b + |date|;
    HasAt(s, p, HeaderPrefix) && HasAt(s, a, id) && HasAt(s, a + |id|, HeaderDash) && HasAt(s, b, date)
    && (e < |s| ==> !InClass(DateChars, s[e]))
  }

  /**
   * The plus expression matches at p with whitespace `ws` and group `num`:
   * the text there reads `Número plus:**`, `ws`, `**`, `num`, `**` in turn.
   */
  predicate PlusMatch(s: string, p: nat, ws: string, num: string) {
    AllIn(Spaces, ws) && IsDigits(num)
    && var a := p + |PlusLabel|;
       var c := a + |ws| + |Bold|;
    HasAt(s, p, PlusLabel) && HasAt(s, a, ws) && HasAt(s, a + |ws|, Bold) && HasAt(s, c, num) && HasAt(s, c + |num|, Bold)
  }

  /** A maximal run of `cls` of length n starting at i is what `Run` finds. */
  lemma {:induction false} RunIs(s: string, i: nat, cls: CharClass, n: nat)
    requires i + n <= |s|
    requires forall k :: i <= k < i + n ==> InClass(cls, s[k])
    requires i + n < |s| ==> !InClass(cls, s[i + n])
    ensures Run(s, i, cls) == n
    decreases n
  {
    if n > 0 {
      RunIs(s, i + 1, cls, n - 1);
    }
  }

  /** `run` of `cls` characters at i, followed by a character outside `cls`. */
  lemma RunOfLiteral(s: string, i: nat, cls: CharClass, run: string, next: string)
    requires HasAt(s, i, run) && AllIn(cls, run)
    requires HasAt(s, i + |run|, next) && |next| > 0 && !InClass(cls, next[0])
    ensures Run(s, i, cls) == |run|
  {
    assert forall k :: i <= k < i + |run| ==> s[k] == run[k - i];
    assert s[i + |run|] == next[0];
    RunIs(s, i, cls, |run|);
  }

  /** `run` of `cls` characters at i, ending the text or followed by a character outside `cls`. */
  lemma RunToEnd(s: string, i: nat, cls: CharClass, run: string)
    requires HasAt(s, i, run) && AllIn(cls, run)
    requires i + |run| < |s| ==> !InClass(cls, s[i + |run|])
    ensures Run(s, i, cls) == |run|
  {
    assert forall k :: i <= k < i + |run| ==> s[k] == run[k - i];
    RunIs(s, i, cls, |run|);
  }

  lemma HeaderMatchFound(s: string, p: nat, id: string, date: string)
    requires HeaderMatch(s, p, id, date)
    ensures HeaderAt(s, p) == Some([id, date])
  {
    var a := p + |HeaderPrefix|;
    RunOfLiteral(s, a, Digits, id, HeaderDash);
    RunToEnd(s, a + |id| + |HeaderDash|, DateChars, date);
  }

  lemma HeaderFoundMatches(s: string, p: nat, id: string, date: string)
    requires HeaderAt(s, p) == Some([id, date])
    ensures HeaderMatch(s, p, id, date)
  {
    var a := p + |HeaderPrefix|;
    var n := Run(s, a, Digits);
    var b := a + n + |HeaderDash|;
    var m := Run(s, b, DateChars);
    RunSpec(s, b, DateChars);
    assert id == s[a..a + n] && date == s[b..b + m];
  }

  /** The header scanner finds exactly the matches of the header expression. */
  lemma HeaderAtIsMatch(s: string, p: nat, id: string, date: string)
    ensures HeaderAt(s, p) == Some([id, date]) <==> HeaderMatch(s, p, id, date)
  {
    if HeaderMatch(s, p, id, date) { HeaderMatchFound(s, p, id, date); }
    if HeaderAt(s, p) == Some([id, date]) { HeaderFoundMatches(s, p, id, date); }
  }

  lemma PlusMatchFound(s: string, p: nat, ws: string, num: string)
    requires PlusMatch(s, p, ws, num)
    ensures PlusAt(s, p) == Some([num])
  {
    var a := p + |PlusLabel|;
    RunOfLiteral(s, a, Spaces, ws, Bold);
    RunOfLiteral(s, a + |ws| + |Bold|, Digits, num, Bold);
  }

  lemma PlusFoundMatches(s: string, p: nat, num: string)
    requires PlusAt(s, p) == Some([num])
    ensures PlusMatch(s, p, s[p + |PlusLabel|..p + |PlusLabel| + Run(s, p + |PlusLabel|, Spaces)], num)
  {
    RunSpec(s, p + |PlusLabel|, Spaces);
  }

  /** The plus scanner finds exactly the matches of the plus expression. */
  lemma PlusAtIsMatch(s: string, p: nat, num: string)
    ensures PlusAt(s, p) == Some([num]) <==> exists ws :: PlusMatch(s, p, ws, num)
  {
    if ws :| PlusMatch(s, p, ws, num) { PlusMatchFound(s, p, ws, num); }
    if PlusAt(s, p) == Some([num]) { PlusFoundMatches(s, p, num); }
  }

  /**
   * `re.search` for the header expression: it finds a match exactly when the
   * scanner matches at some position, and its groups are those of the
   * leftmost match.
   */
  lemma HeaderSearch(s: string)
    ensures Search(Header, s).Some? <==> exists q :: 0 <= q <= |s| && HeaderAt(s, q).Some?
    ensures Search(Header, s).Some? ==> |Search(Header, s).value| == 2
    ensures Search(Header, s).Some? ==>
              exists q :: 0 <= q <= |s| && HeaderMatch(s, q, Search(Header, s).value[0], Search(Header, s).value[1])
                && forall q' :: 0 <= q' < q ==> HeaderAt(s, q').None?
  {
    if q :| 0 <= q <= |s| && HeaderAt(s, q).Some? {
      assert At(Header, s, q).Some?;
    }
    match Find(Header, s, 0)
    case None =>
    case Some(q) =>
      var groups := HeaderAt(s, q).value;
      assert Search(Header, s) == Some(groups);
      HeaderFoundMatches(s, q, groups[0], groups[1]);
      forall q' | 0 <= q' < q
        ensures HeaderAt(s, q').None?
      {
        assert At(Header, s, q').None?;
      }
  }

  /**
   * `re.search` for the plus expression: it finds a match exactly when the
   * scanner matches at some position, and its group is that of the
   * leftmost match.
   */
  lemma PlusSearch(s: string)
    ensures Search(PlusNumber, s).Some? <==> exists q :: 0 <= q <= |s| && PlusAt(s, q).Some?
    ensures Search(PlusNumber, s).Some? ==> |Search(PlusNumber, s).value| == 1
    ensures Search(PlusNumber, s).Some? ==>
              exists q, ws :: 0 <= q <= |s| && PlusMatch(s, q, ws, Search(PlusNumber, s).value[0])
                && forall q' :: 0 <= q' < q ==> PlusAt(s, q').None?
  {
    if q :| 0 <= q <= |s| && PlusAt(s, q).Some? {
      assert At(PlusNumber, s, q).Some?;
    }
    match Find(PlusNumber, s, 0)
    case None =>
    case Some(q) =>
      var num := PlusAt(s, q).value[0];
      assert Search(PlusNumber, s) == Some([num]);
      PlusFoundMatches(s, q, num);
      forall q' | 0 <= q' < q
        ensures PlusAt(s, q').None?
      {
        assert At(PlusNumber, s, q').None?;
      }
  }
}
