/**
 * `TrebolApp`: the state the application keeps between updates (the texts
 * of the six loto entry boxes and of the plus box, their colours, the last
 * results shown, and the users file) and the operations on it that
 * `scrape_once` runs: fetch the results, compare and display them (marking
 * the picks, notifying on a change), and save the picks.
 */
module Trebol {
  import opened Wrappers
  import opened LotoParser
  import opened Calendar
  import opened DrawScheduler
  import opened PickMatch
  import opened UserPicks

  /** What `compare_and_display` ends with. */
  datatype Display =
    | ErrorShown(message: Entry)              // the early return on an error result
    | DrawOverflow                            // calculate_next_draw raised OverflowError
    | Shown(nextDraw: string, notified: bool) // results shown; notified is the beep

  /** `results.get('fecha', '')`. */
  function FechaText(results: Results): string {
    if "fecha" in results && results["fecha"].Text? then results["fecha"].text else ""
  }

  /**
   * How `compare_and_display` ends for `results`, given the last results
   * shown: an error result is shown as its message; other results are shown
   * exactly when their next draw exists, with the next draw text for them,
   * and notify exactly when they differ from the last results shown.
   */
  function DisplayOf(previous: Option<Results>, results: Results, now: Date): (d: Display)
    requires Valid(now)
    ensures "error" in results ==> d == ErrorShown(results["error"])
    ensures d.ErrorShown? <==> "error" in results
    ensures d.DrawOverflow? <==> "error" !in results && NextDraw(BaseDate(FechaText(results), now)).None?
    ensures d.Shown? <==> "error" !in results && NextDraw(BaseDate(FechaText(results), now)).Some?
    ensures d.Shown? ==> Some(d.nextDraw) == NextDrawText(FechaText(results), now)
    ensures d.Shown? ==> (d.notified <==> previous != Some(results))
  {
    NextDrawTextSpec(FechaText(results), now);
    if "error" in results then ErrorShown(results["error"])
    else
      match NextDrawText(FechaText(results), now)
      case None => DrawOverflow
      case Some(t) => Shown(t, previous != Some(results))
  }

  /**
   * `previous_results` after `compare_and_display`: the results when they
   * were shown, otherwise the old value; an error result never becomes it.
   */
  function PreviousAfter(previous: Option<Results>, results: Results, now: Date): (r: Option<Results>)
    requires Valid(now)
    ensures "error" in results ==> r == previous
    ensures r == previous || (r == Some(results) && "error" !in results)
  {
    if DisplayOf(previous, results, now).Shown? then Some(results) else previous
  }

  /** The results `fetch_loto` returns for a response. */
  function Fetched(response: Response): Results {
    match response
    case Page(text) => ParseLoto(text)
    case RequestFailed(reason) => ErrorResults(reason)
  }

  /** The colours of the loto entry boxes after marking them against `drawn`. */
  function MarksOf(entries: seq<string>, drawn: seq<nat>): (marks: seq<Mark>)
    ensures |marks| == |entries|
  {
    seq(|entries|, i requires 0 <= i < |entries| => MarkOf(entries[i], drawn))
  }

  /**
   * The change detector of one update: an error result is shown and
   * changes nothing; results whose next draw overflows change nothing
   * either; other results are shown, notify exactly when they differ from
   * the last results shown (always when there were none), and become the
   * last results shown.
   */
  lemma ChangeDetector(previous: Option<Results>, results: Results, now: Date)
    requires Valid(now)
    ensures "error" in results ==>
              DisplayOf(previous, results, now) == ErrorShown(results["error"]) &&
              PreviousAfter(previous, results, now) == previous
    ensures DisplayOf(previous, results, now).Shown? <==>
              "error" !in results && NextDraw(BaseDate(FechaText(results), now)).Some?
    ensures !DisplayOf(previous, results, now).Shown? ==> PreviousAfter(previous, results, now) == previous
    ensures DisplayOf(previous, results, now).Shown? ==>
              && (DisplayOf(previous, results, now).notified <==> previous != Some(results))
              && (previous == None ==> DisplayOf(previous, results, now).notified)
              && PreviousAfter(previous, results, now) == Some(results)
  {
    NextDrawTextSpec(FechaText(results), now);
  }

  lemma DisplayOverflow(previous: Option<Results>, results: Results, now: Date)
    requires Valid(now) && "error" !in results && NextDrawText(FechaText(results), now).None?
    ensures DisplayOf(previous, results, now) == DrawOverflow
    ensures PreviousAfter(previous, results, now) == previous
  {
  }

  lemma DisplayShown(previous: Option<Results>, results: Results, now: Date, t: string)
    requires Valid(now) && "error" !in results && NextDrawText(FechaText(results), now) == Some(t)
    ensures DisplayOf(previous, results, now) == Shown(t, previous != Some(results))
    ensures PreviousAfter(previous, results, now) == Some(results)
  {
  }

  /** Showing the same results a second time, at any time, does not notify. */
  lemma RepeatIsSilent(previous: Option<Results>, results: Results, now: Date, later: Date)
    requires Valid(now) && Valid(later)
    requires DisplayOf(previous, results, now).Shown?
    ensures var again := DisplayOf(PreviousAfter(previous, results, now), results, later);
      again.Shown? ==> !again.notified
  {
    ChangeDetector(previous, results, now);
  }

  /** Every update has a valid date of its own. */
  predicate ValidDates(updates: seq<Results>, nows: seq<Date>) {
    |nows| == |updates| && forall i :: 0 <= i < |nows| ==> Valid(nows[i])
  }

  /** The last results shown after a sequence of updates, the i-th one at date `nows[i]`. */
  function LastShown(previous: Option<Results>, updates: seq<Results>, nows: seq<Date>): Option<Results>
    requires ValidDates(updates, nows)
    decreases |updates|
  {
    if updates == [] then previous
    else
      var n := |updates| - 1;
      PreviousAfter(LastShown(previous, updates[..n], nows[..n]), updates[n], nows[n])
  }

  /**
   * After any sequence of updates, the last results shown are the initial
   * ones or one of the updates, and never an error result.
   */
  lemma {:induction false} LastShownSpec(previous: Option<Results>, updates: seq<Results>, nows: seq<Date>)
    requires ValidDates(updates, nows)
    ensures var last := LastShown(previous, updates, nows);
      last == previous || (last.Some? && last.value in updates && "error" !in last.value)
    decreases |updates|
  {
    if updates != [] {
      var n := |updates| - 1;
      var init := updates[..n];
      LastShownSpec(previous, init, nows[..n]);
      assert forall r :: r in init ==> r in updates;
    }
  }

  /**
   * Error results in between do not reset the detector: after only error
   * updates, the last results shown are unchanged, so fetching the same
   * results again stays silent.
   */
  lemma {:induction false} ErrorsKeepPrevious(previous: Option<Results>, updates: seq<Results>, nows: seq<Date>)
    requires ValidDates(updates, nows)
    requires forall i :: 0 <= i < |updates| ==> "error" in updates[i]
    ensures LastShown(previous, updates, nows) == previous
    decreases |updates|
  {
    if updates != [] {
      var n := |updates| - 1;
      ErrorsKeepPrevious(previous, updates[..n], nows[..n]);
    }
  }

  class TrebolApp {
    var lotoEntries: seq<string>
    var plusEntry: string
    var lotoMarks: seq<Mark>
    var plusMark: Mark
    var previous: Option<Results>
    /** The users file; None when it does not exist. */
    var stored: Option<Saved>

    /** `__init__`: six empty entry boxes and an empty plus box, then `load_user_data`. */
    constructor (file: Option<Saved>)
      ensures stored == file && previous == None
      ensures lotoEntries == if file.Some? then LoadedEntries(EmptyEntries, file.value.loto) else EmptyEntries
      ensures plusEntry == if file.Some? then LoadedPlus("", file.value.plus) else ""
      ensures lotoMarks == [Blank, Blank, Blank, Blank, Blank, Blank] && plusMark == Blank
    {
      lotoEntries := EmptyEntries;
      plusEntry := "";
      lotoMarks := [Blank, Blank, Blank, Blank, Blank, Blank];
      plusMark := Blank;
      stored := file;
      previous := None;
      new;
      LoadUserData();
    }

    /** `load_user_data`: the saved numbers are put in front of the box texts, pair by pair. */
    method LoadUserData()
      modifies this
      ensures stored == old(stored) && previous == old(previous)
      ensures lotoMarks == old(lotoMarks) && plusMark == old(plusMark)
      ensures lotoEntries == if stored.Some? then LoadedEntries(old(lotoEntries), stored.value.loto) else old(lotoEntries)
      ensures plusEntry == if stored.Some? then LoadedPlus(old(plusEntry), stored.value.plus) else old(plusEntry)
    {
      if stored.None? {
        return;
      }
      LoadLoto(stored.value.loto);
      if stored.value.plus.Some? {
        plusEntry := Strings.NatToString(stored.value.plus.value) + plusEntry;
      }
    }

    /** The `zip` loop of `load_user_data`: each saved number in front of the box at its position. */
    method LoadLoto(loto: seq<nat>)
      modifies this
      ensures lotoEntries == LoadedEntries(old(lotoEntries), loto)
      ensures stored == old(stored) && previous == old(previous) && plusEntry == old(plusEntry)
      ensures lotoMarks == old(lotoMarks) && plusMark == old(plusMark)
    {
      var i := 0;
      while i < |lotoEntries| && i < |loto|
        invariant 0 <= i <= |old(lotoEntries)| && i <= |loto|
        invariant |lotoEntries| == |old(lotoEntries)|
        invariant forall k :: 0 <= k < |lotoEntries| ==>
                    lotoEntries[k] == if k < i then PaddedPick(loto[k]) + old(lotoEntries)[k] else old(lotoEntries)[k]
        invariant stored == old(stored) && previous == old(previous)
        invariant lotoMarks == old(lotoMarks) && plusMark == old(plusMark) && plusEntry == old(plusEntry)
      {
        lotoEntries := lotoEntries[i := PaddedPick(loto[i]) + lotoEntries[i]];
        i := i + 1;
      }
      assert lotoEntries == LoadedEntries(old(lotoEntries), loto) by {
        forall k | 0 <= k < |lotoEntries|
          ensures lotoEntries[k] == LoadedEntries(old(lotoEntries), loto)[k]
        {
        }
      }
    }

    /** `save_user_data`: the numbers typed in the boxes are written to the users file. */
    method SaveUserData()
      modifies this
      ensures stored == Some(SavedData(lotoEntries, plusEntry))
      ensures lotoEntries == old(lotoEntries) && plusEntry == old(plusEntry)
      ensures lotoMarks == old(lotoMarks) && plusMark == old(plusMark) && previous == old(previous)
    {
      var entries := lotoEntries;
      var loto := [];
      for i := 0 to |entries|
        modifies {}
        invariant loto == Strings.DigitValues(entries[..i])
      {
        var value := Strings.StrippedNumber(entries[i]);
        Strings.DigitValuesExtend(entries, 0, i);
        assert entries[0..i] == entries[..i] && entries[0..i + 1] == entries[..i + 1];
        if value.Some? {
          loto := loto + [value.value];
        }
      }
      assert entries[..|entries|] == entries;
      var plus := None;
      if Strings.IsDigits(plusEntry) {
        plus := Some(Strings.DecimalValue(plusEntry));
      }
      stored := Some(Saved(loto, plus));
    }

    /**
     * `compare_and_display`: an error result is only shown; otherwise the
     * next draw is computed (which may overflow), the boxes are marked, and
     * the results are compared with the last ones shown, which they replace.
     */
    method CompareAndDisplay(results: Results, now: Date) returns (display: Display)
      requires Valid(now)
      modifies this
      ensures display == DisplayOf(old(previous), results, now)
      ensures previous == PreviousAfter(old(previous), results, now)
      ensures lotoMarks == if display.Shown? then MarksOf(lotoEntries, TradicionalNumbers(results)) else old(lotoMarks)
      ensures plusMark == if display.Shown? then PlusMarkOf(plusEntry, PlusNumber(results)) else old(plusMark)
      ensures lotoEntries == old(lotoEntries) && plusEntry == old(plusEntry) && stored == old(stored)
    {
      if "error" in results {
        return ErrorShown(results["error"]);
      }
      var nextDraw := CalculateNextDraw(FechaText(results), now);
      if nextDraw.None? {
        DisplayOverflow(previous, results, now);
        return DrawOverflow;
      }
      DisplayShown(previous, results, now, nextDraw.value);
      var marks := MarkPicks(lotoEntries, TradicionalNumbers(results));
      assert marks == MarksOf(lotoEntries, TradicionalNumbers(results));
      lotoMarks := marks;
      plusMark := PlusMarkOf(plusEntry, PlusNumber(results));
      var notify := previous != Some(results);
      previous := Some(results);
      display := Shown(nextDraw.value, notify);
    }

    /** `scrape_once`: fetch, compare and display, then save the picks unless the display raised. */
    method ScrapeOnce(response: Response, now: Date) returns (display: Display)
      requires Valid(now)
      modifies this
      ensures display == DisplayOf(old(previous), Fetched(response), now)
      ensures previous == PreviousAfter(old(previous), Fetched(response), now)
      ensures lotoMarks == if display.Shown? then MarksOf(lotoEntries, TradicionalNumbers(Fetched(response))) else old(lotoMarks)
      ensures plusMark == if display.Shown? then PlusMarkOf(plusEntry, PlusNumber(Fetched(response))) else old(plusMark)
      ensures stored == if display.DrawOverflow? then old(stored) else Some(SavedData(lotoEntries, plusEntry))
      ensures lotoEntries == old(lotoEntries) && plusEntry == old(plusEntry)
    {
      var results := FetchLoto(response);
      display := CompareAndDisplay(results, now);
      if !display.DrawOverflow? {
        SaveUserData();
      }
    }
  }
}
