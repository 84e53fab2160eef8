/**
 * The matching part of `compare_and_display`: each number the user entered
 * is coloured green (a hit) or red (a miss) against the drawn numbers, or
 * left white when its text is not a number. Colours are modelled as marks.
 */
module PickMatch {
  import opened Wrappers
  import opened Strings
  import opened LotoParser

  /** The colour of an entry box: white (unclassified), green (hit) or red (miss). */
  datatype Mark = Blank | Hit | Miss

  /** `results.get('Tradicional', {}).get('numeros', [])`. */
  function TradicionalNumbers(results: Results): seq<nat> {
    if "Tradicional" in results && results["Tradicional"].Draw? then results["Tradicional"].numeros else []
  }

  /** `results.get('Plus')`. */
  function PlusNumber(results: Results): Option<nat> {
    if "Plus" in results && results["Plus"].Number? then Some(results["Plus"].value) else None
  }

  /**
   * The mark of one loto entry: a hit exactly when its stripped text is all
   * digits and its int is drawn, a miss exactly when it is all digits and
   * not drawn, and unclassified exactly when it is not all digits.
   */
  function MarkOf(entry: string, drawn: seq<nat>): (m: Mark)
    ensures m == Hit <==> IsDigits(Strip(entry)) && DecimalValue(Strip(entry)) in drawn
    ensures m == Miss <==> IsDigits(Strip(entry)) && DecimalValue(Strip(entry)) !in drawn
    ensures m == Blank <==> !IsDigits(Strip(entry))
  {
    match StrippedNumber(entry)
    case None => Blank
    case Some(n) => if n in drawn then Hit else Miss
  }

  /**
   * The mark of the plus entry: a hit exactly when its stripped text is all
   * digits, a plus number was drawn, and they are equal; unclassified when
   * either is missing.
   */
  function PlusMarkOf(entry: string, plus: Option<nat>): (m: Mark)
    ensures m == Hit <==> IsDigits(Strip(entry)) && plus == Some(DecimalValue(Strip(entry)))
    ensures m == Miss <==> IsDigits(Strip(entry)) && plus.Some? && plus != Some(DecimalValue(Strip(entry)))
    ensures m == Blank <==> !IsDigits(Strip(entry)) || plus.None?
  {
    match StrippedNumber(entry)
    case None => Blank
    case Some(n) =>
      match plus
      case None => Blank
      case Some(p) => if n == p then Hit else Miss
  }

  /** The marking loop over the loto entries. */
  method MarkPicks(entries: seq<string>, drawn: seq<nat>) returns (marks: seq<Mark>)
    ensures |marks| == |entries|
    ensures forall i :: 0 <= i < |entries| ==> marks[i] == MarkOf(entries[i], drawn)
  {
    marks := [];
    for i := 0 to |entries|
      invariant |marks| == i
      invariant forall k :: 0 <= k < i ==> marks[k] == MarkOf(entries[k], drawn)
    {
      var mark := Blank;
      var value := StrippedNumber(entries[i]);
      if value.Some? {
        mark := if value.value in drawn then Hit else Miss;
      }
      marks := marks + [mark];
    }
  }

  /** Surrounding whitespace does not change a mark; leading zeros do not either. */
  lemma MarkIgnoresPadding(entry: string, drawn: seq<nat>, k: nat, pre: string, suf: string)
    requires IsDigits(entry)
    requires forall i :: 0 <= i < |pre| ==> IsSpace(pre[i])
    requires forall i :: 0 <= i < |suf| ==> IsSpace(suf[i])
    ensures MarkOf(pre + Zeros(k) + entry + suf, drawn) == MarkOf(entry, drawn)
  {
    var padded := Zeros(k) + entry;
    assert pre + Zeros(k) + entry + suf == pre + padded + suf;
    LeadingZeros(k, entry);
    StripDigits(entry);
    StripPadded(pre, padded, suf);
  }
}
