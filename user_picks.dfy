/**
 * The values `save_user_data` writes to and `load_user_data` reads from the
 * users file: the loto entries whose stripped text is all digits are kept as
 * ints, in order; the plus entry is kept as an int when its text, as typed,
 * is all digits. Loading puts each saved int back, zero-padded to two
 * characters, in front of the text of the entry at the same position.
 */
module UserPicks {
  import opened Wrappers
  import opened Strings

  /** Six loto entry boxes. */
  const Slots := 6
  const PadWidth := 2
  const EmptyEntries: seq<string> := ["", "", "", "", "", ""]

  /** The contents of the users file: {"loto": [...], "plus": int or null}. */
  datatype Saved = Saved(loto: seq<nat>, plus: Option<nat>)

  /** `int(v) if v.isdigit() else None` on the plus entry's text, which is not stripped. */
  function PlusValue(entry: string): Option<nat> {
    if IsDigits(entry) then Some(DecimalValue(entry)) else None
  }

  /**
   * The data `save_user_data` writes for the given entry texts: one number
   * for each entry that strips to digits, read from it, in box order, and
   * none for the other entries; the plus number only when the plus text, as
   * typed, is all digits, and then its value.
   */
  function SavedData(entries: seq<string>, plus: string): (r: Saved)
    ensures |r.loto| == |DigitPositions(entries)| <= |entries|
    ensures forall i :: 0 <= i < |r.loto| ==>
              DigitPositions(entries)[i] < |entries| && StrippedNumber(entries[DigitPositions(entries)[i]]) == Some(r.loto[i])
    ensures forall i, j :: 0 <= i < j < |r.loto| ==> DigitPositions(entries)[i] < DigitPositions(entries)[j]
    ensures forall k :: 0 <= k < |entries| && k !in DigitPositions(entries) ==> StrippedNumber(entries[k]).None?
    ensures forall v :: v in r.loto <==> HasDigitEntry(entries, v)
    ensures r.plus.Some? <==> IsDigits(plus)
    ensures r.plus.Some? ==> r.plus.value == DecimalValue(plus)
  {
    DigitPositionsValues(entries);
    DigitPositionsIncreasing(entries);
    DigitPositionsSkipped(entries);
    forall v ensures v in DigitValues(entries) <==> HasDigitEntry(entries, v) {
      DigitValuesMembership(entries, v);
    }
    Saved(DigitValues(entries), PlusValue(plus))
  }

  /**
   * `str(val).zfill(2)`: the digits of `val`, two of them below 100, and with
   * no leading zero when there are more than two.
   */
  function PaddedPick(n: nat): (s: string)
    ensures IsDigits(s) && DecimalValue(s) == n
    ensures n < 100 ==> |s| == PadWidth
    ensures |s| > PadWidth ==> s[0] != '0'
  {
    PaddedValue(n, PadWidth);
    NatToStringShort(n);
    ZFill(NatToString(n), PadWidth)
  }

  /** The entry texts after `entry.insert(0, str(val).zfill(2))` for each zipped pair. */
  function LoadedEntries(entries: seq<string>, loto: seq<nat>): (r: seq<string>)
    ensures |r| == |entries|
    ensures forall i :: 0 <= i < |entries| ==> |entries[i]| <= |r[i]| && r[i][|r[i]| - |entries[i]|..] == entries[i]
    ensures forall i :: |loto| <= i < |entries| ==> r[i] == entries[i]
    ensures forall i :: 0 <= i < |entries| && i < |loto| ==>
              var k := |r[i]| - |entries[i]|;
              && IsDigits(r[i][..k]) && DecimalValue(r[i][..k]) == loto[i]
              && (loto[i] < 100 ==> k == PadWidth)
              && (k > PadWidth ==> r[i][0] != '0')
  {
    var r := seq(|entries|, i requires 0 <= i < |entries| => if i < |loto| then PaddedPick(loto[i]) + entries[i] else entries[i]);
    forall i | 0 <= i < |entries| && i < |loto|
      ensures r[i][..|r[i]| - |entries[i]|] == PaddedPick(loto[i])
    {
      assert r[i] == PaddedPick(loto[i]) + entries[i];
    }
    r
  }

  /** The plus entry text after `plus_entry.insert(0, str(plus))` when a plus number was saved. */
  function LoadedPlus(entry: string, plus: Option<nat>): (r: string)
    ensures plus.None? ==> r == entry
    ensures plus.Some? ==>
              var k := |r| - |entry|;
              && k > 0 && r[k..] == entry
              && IsDigits(r[..k]) && DecimalValue(r[..k]) == plus.value
              && (k > 1 ==> r[0] != '0')
  {
    match plus
    case None => entry
    case Some(p) =>
      var t := NatToString(p);
      assert (t + entry)[|t|..] == entry && (t + entry)[..|t|] == t;
      t + entry
  }

  /** A padded pick is a digit string that reads back as the number. */
  lemma PaddedPickReads(n: nat)
    ensures IsDigits(PaddedPick(n))
    ensures StrippedNumber(PaddedPick(n)) == Some(n)
  {
    PaddedValue(n, PadWidth);
    StripDigits(PaddedPick(n));
  }

  /**
   * Saving the entries a load fills in gives back the loaded numbers: the
   * round trip through the entry boxes keeps every saved number, in order,
   * up to the number of boxes; numbers past the sixth are dropped.
   */
  lemma ReloadKeepsNumbers(loto: seq<nat>)
    ensures DigitValues(LoadedEntries(EmptyEntries, loto)) == Take(loto, Slots)
  {
    var kept := Take(loto, Slots);
    assert LoadedEntries(EmptyEntries, loto) == LoadedEntries(EmptyEntries, kept);
    ReloadIntoEmpty(EmptyEntries, kept);
  }

  lemma ReloadIntoEmpty(boxes: seq<string>, loto: seq<nat>)
    requires |loto| <= |boxes| && forall i :: 0 <= i < |boxes| ==> boxes[i] == ""
    ensures DigitValues(LoadedEntries(boxes, loto)) == loto
  {
    LoadedIntoEmpty(boxes, loto);
    PaddedThenEmpty(loto, boxes[|loto|..]);
  }

  /** The padded numbers followed by empty boxes read back as the numbers. */
  lemma PaddedThenEmpty(loto: seq<nat>, rest: seq<string>)
    requires forall i :: 0 <= i < |rest| ==> rest[i] == ""
    ensures DigitValues(Padding(loto) + rest) == loto
  {
    PaddedValues(loto);
    DigitValuesAppend(Padding(loto), rest);
    NoDigitValues(rest);
    assert loto + [] == loto;
  }

  /** Loading into empty boxes: the padded numbers, then empty boxes. */
  lemma LoadedIntoEmpty(boxes: seq<string>, loto: seq<nat>)
    requires |loto| <= |boxes| && forall i :: 0 <= i < |boxes| ==> boxes[i] == ""
    ensures LoadedEntries(boxes, loto) == Padding(loto) + boxes[|loto|..]
  {
    var loaded := LoadedEntries(boxes, loto);
    var n := |loto|;
    forall i | 0 <= i < |boxes|
      ensures loaded[i] == (Padding(loto) + boxes[n..])[i]
    {
      if i < n {
        assert PaddedPick(loto[i]) + "" == PaddedPick(loto[i]);
      }
    }
  }

  /** The padded forms of a list of numbers. */
  function Padding(loto: seq<nat>): (r: seq<string>)
    ensures |r| == |loto|
    ensures forall i :: 0 <= i < |loto| ==> r[i] == PaddedPick(loto[i])
  {
    seq(|loto|, i requires 0 <= i < |loto| => PaddedPick(loto[i]))
  }

  lemma {:induction false} PaddedValues(loto: seq<nat>)
    ensures DigitValues(Padding(loto)) == loto
    decreases |loto|
  {
    if |loto| > 0 {
      var init := loto[..|loto| - 1];
      PaddedValues(init);
      PaddingPrefix(loto);
      DigitValuesLast(Padding(loto));
      PaddedPickReads(loto[|loto| - 1]);
      assert loto == init + [loto[|loto| - 1]];
    }
  }

  lemma PaddingPrefix(loto: seq<nat>)
    requires |loto| > 0
    ensures Padding(loto)[..|loto| - 1] == Padding(loto[..|loto| - 1])
  {
  }

  lemma {:induction false} NoDigitValues(ts: seq<string>)
    requires forall i :: 0 <= i < |ts| ==> ts[i] == ""
    ensures DigitValues(ts) == []
    decreases |ts|
  {
    if |ts| > 0 {
      NoDigitValues(ts[..|ts| - 1]);
      DigitValuesLast(ts);
      assert Strip(ts[|ts| - 1]) == "";
    }
  }

  /**
   * Loading what was saved for six entries fills the first boxes, in
   * order, with the padded numbers of the entries that held numbers, and
   * leaves the other boxes empty.
   */
  lemma SaveThenLoad(entries: seq<string>)
    requires |entries| == Slots
    ensures var saved := DigitValues(entries);
            var loaded := LoadedEntries(EmptyEntries, saved);
      && (forall i :: 0 <= i < |saved| ==> StrippedNumber(loaded[i]) == Some(saved[i]))
      && (forall i :: |saved| <= i < Slots ==> loaded[i] == "")
      && DigitValues(loaded) == saved
  {
    var saved := DigitValues(entries);
    LoadedIntoEmpty(EmptyEntries, saved);
    PaddingReads(saved);
    ReloadKeepsNumbers(saved);
  }

  /** Each padded number reads back as the number. */
  lemma PaddingReads(loto: seq<nat>)
    ensures forall i :: 0 <= i < |loto| ==> StrippedNumber(Padding(loto)[i]) == Some(loto[i])
  {
    forall i | 0 <= i < |loto|
      ensures StrippedNumber(Padding(loto)[i]) == Some(loto[i])
    {
      PaddedPickReads(loto[i]);
    }
  }

  /** Six two-digit entries come back exactly as they were typed. */
  lemma CanonicalReload(entries: seq<string>)
    requires |entries| == Slots
    requires forall i :: 0 <= i < Slots ==> |entries[i]| == PadWidth && AllDigits(entries[i])
    ensures LoadedEntries(EmptyEntries, DigitValues(entries)) == entries
  {
    TwoDigitValues(entries);
    var values := DigitValues(entries);
    forall i | 0 <= i < Slots
      ensures LoadedEntries(EmptyEntries, values)[i] == entries[i]
    {
      CanonicalPadded(entries[i], PadWidth);
      assert values[i] == DecimalValue(entries[i]);
      assert EmptyEntries[i] == "";
      assert LoadedEntries(EmptyEntries, values)[i] == PaddedPick(values[i]) + "";
      assert PaddedPick(values[i]) + "" == entries[i];
    }
  }

  /** Entries that are all two-digit strings save one value each, in order. */
  lemma {:induction false} TwoDigitValues(entries: seq<string>)
    requires forall i :: 0 <= i < |entries| ==> |entries[i]| == PadWidth && AllDigits(entries[i])
    ensures |DigitValues(entries)| == |entries|
    ensures forall i :: 0 <= i < |entries| ==> DigitValues(entries)[i] == DecimalValue(entries[i])
    decreases |entries|
  {
    if |entries| > 0 {
      var init := entries[..|entries| - 1];
      TwoDigitValues(init);
      DigitValuesLast(entries);
      StripDigits(entries[|entries| - 1]);
    }
  }

  /** A saved plus number is loaded as its decimal text, which saves back as the same number. */
  lemma PlusRoundTrip(plus: Option<nat>)
    ensures PlusValue(LoadedPlus("", plus)) == plus
  {
    if plus.Some? {
      assert LoadedPlus("", plus) == NatToString(plus.value);
    }
  }

  /**
   * The plus entry is not stripped before saving: " 7" is a number for the
   * matching, which strips it, but is saved as null.
   */
  lemma PlusSavedUnstripped()
    ensures PlusValue(" 7") == None
    ensures StrippedNumber(" 7") == Some(7)
  {
    assert !IsDigit(" 7"[0]);
    assert " 7" == " " + "7";
    StripLeadingSpace("7");
  }

  /** One space in front of a digit string is stripped away. */
  lemma StripLeadingSpace(s: string)
    requires IsDigits(s)
    ensures Strip(" " + s) == s
  {
    var t := " " + s;
    assert t[1..] == s;
    assert LeadingSpaces(s) == 0;
    assert LeadingSpaces(t) == 1;
    StripDigits(s);
    assert s[0..] == s;
  }
}
