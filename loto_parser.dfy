/**
 * The parsing half of `TrebolApp.fetch_loto`: the page text of the Loto
 * Plus results, as the text proxy renders it, becomes a results dictionary.
 *
 * Keys of a successful parse: "sorteo" and "fecha" (draw id and date, when
 * the header expression matches), one key per modality found ("Tradicional",
 * "Match", "Desquite", "Sale o sale"), and "Plus" (when the plus expression
 * matches). An index past the end of the token list raises IndexError, which
 * the outer handler turns into the one-key dictionary {"error": message}.
 */
module LotoParser {
  import opened Wrappers
  import opened Strings
  import Patterns

  datatype Prizes = Prizes(ganadores: string, pozo: string)

  /** A value of the results dictionary. */
  datatype Entry =
    | Text(text: string)                                // "sorteo", "fecha", "error"
    | Number(value: nat)                                // "Plus"
    | Draw(numeros: seq<nat>, prizes: Option<Prizes>)   // one modality

  type Results = map<string, Entry>

  /** The outcome of the HTTP request: the page text, or the exception's text. */
  datatype Response = Page(text: string) | RequestFailed(reason: string)

  const Modalities: seq<string> := ["TRADICIONAL", "MATCH", "DESQUITE", "SALE O SALE"]
  const ModalityKeys: seq<string> := ["Tradicional", "Match", "Desquite", "Sale o sale"]
  const MaxNumbers := 6
  const WinnersOffset := 10
  const JackpotOffset := 12
  const IndexErrorText := "list index out of range"

  function PrizeMarker(moda: string): string {
    "PREMIOS SORTEO " + moda
  }

  /** The dictionary the outer exception handler returns. */
  function ErrorResults(message: string): (r: Results)
    ensures r.Keys == {"error"} && r["error"] == Text(message)
  {
    map["error" := Text(message)]
  }

  // ---------------------------------------------------------------------
  // Specification of the parse.

  /** What the loop body does with one modality. */
  datatype Outcome =
    | Absent              // the name token is missing: ValueError, skipped
    | Found(entry: Entry) // an entry for the modality
    | OutOfRange          // the prize offsets run past the tokens: IndexError

  /**
   * Numbers: the first six digit tokens after the first token equal to the
   * name. Prizes: the stripped tokens 10 and 12 places after the first
   * `PREMIOS SORTEO <name>` token, when there is one.
   */
  function ModalityOutcome(tokens: seq<string>, moda: string): Outcome {
    match IndexOf(tokens, moda)
    case None => Absent
    case Some(idx) =>
      var numeros := Take(DigitValues(tokens[idx + 1..]), MaxNumbers);
      match IndexOf(tokens, PrizeMarker(moda))
      case None => Found(Draw(numeros, None))
      case Some(j) =>
        if j + JackpotOffset < |tokens| then
          Found(Draw(numeros, Some(Prizes(Strip(tokens[j + WinnersOffset]), Strip(tokens[j + JackpotOffset])))))
        else OutOfRange
  }

  /** Some modality's prize offsets run past the tokens. */
  predicate Crashes(tokens: seq<string>) {
    CrashesBefore(tokens, |Modalities|)
  }

  /** One of the first n modalities' prize offsets runs past the tokens. */
  predicate CrashesBefore(tokens: seq<string>, n: nat)
    requires n <= |Modalities|
  {
    n > 0 && (CrashesBefore(tokens, n - 1) || ModalityOutcome(tokens, Modalities[n - 1]).OutOfRange?)
  }

  /** The entries of the first n modalities, keyed by their capitalized names (see `ModalityKey`). */
  function ModalityEntries(tokens: seq<string>, n: nat): Results
    requires n <= |Modalities|
  {
    if n == 0 then map[]
    else
      var m := ModalityEntries(tokens, n - 1);
      match ModalityOutcome(tokens, Modalities[n - 1])
      case Found(e) => m[ModalityKeys[n - 1] := e]
      case _ => m
  }

  function HeaderEntries(text: string): Results {
    match Patterns.Search(Patterns.Header, text)
    case None => map[]
    case Some(groups) => map["sorteo" := Text(groups[0]), "fecha" := Text(groups[1])]
  }

  function PlusEntries(text: string): Results {
    match Patterns.Search(Patterns.PlusNumber, text)
    case None => map[]
    case Some(groups) => map["Plus" := Number(DecimalValue(groups[0]))]
  }

  /** The dictionary `fetch_loto` returns for the page text `text`. */
  function ParseLoto(text: string): Results {
    Assemble(HeaderEntries(text), Split(text), PlusEntries(text))
  }

  /**
   * The dictionary built from the header entries, the tokens and the plus
   * entry: the IndexError of a modality replaces everything by the error.
   */
  function Assemble(header: Results, tokens: seq<string>, plus: Results): Results {
    if Crashes(tokens) then ErrorResults(IndexErrorText)
    else header + ModalityEntries(tokens, |Modalities|) + plus
  }

  // ---------------------------------------------------------------------
  // The parser.

  /** The scan loop: digit tokens from `start` on, at most six of them. */
  method ScanNumbers(tokens: seq<string>, start: nat) returns (numbers: seq<nat>)
    requires start <= |tokens|
    ensures numbers == Take(DigitValues(tokens[start..]), MaxNumbers)
  {
    numbers := [];
    var i := start;
    while i < |tokens| && |numbers| < MaxNumbers
      invariant start <= i <= |tokens|
      invariant numbers == DigitValues(tokens[start..i])
      invariant |numbers| <= MaxNumbers
    {
      var n := StrippedNumber(tokens[i]);
      DigitValuesExtend(tokens, start, i);
      if n.Some? {
        numbers := numbers + [n.value];
      }
      i := i + 1;
    }
    ScanStops(tokens, start, i);
  }

  /** Stopping at the end of the tokens, or with six numbers, leaves the first six. */
  lemma ScanStops(tokens: seq<string>, start: nat, i: nat)
    requires start <= i <= |tokens|
    requires |DigitValues(tokens[start..i])| <= MaxNumbers
    requires i == |tokens| || |DigitValues(tokens[start..i])| == MaxNumbers
    ensures DigitValues(tokens[start..i]) == Take(DigitValues(tokens[start..]), MaxNumbers)
  {
    assert tokens[start..] == tokens[start..i] + tokens[i..];
    DigitValuesAppend(tokens[start..i], tokens[i..]);
    var front := DigitValues(tokens[start..i]);
    var all := DigitValues(tokens[start..]);
    if i < |tokens| {
      assert all[..MaxNumbers] == front;
    }
  }

  /**
   * The body of the loop for one modality: the name lookup (a missing name
   * is the ValueError that skips it), the scan, and the prize lookup, whose
   * out-of-range index is reported as `OutOfRange`.
   */
  method ParseModality(tokens: seq<string>, moda: string) returns (outcome: Outcome)
    ensures outcome == ModalityOutcome(tokens, moda)
  {
    var idx := IndexOf(tokens, moda);
    if idx.None? {
      return Absent;
    }
    var numbers := ScanNumbers(tokens, idx.value + 1);
    var info := Draw(numbers, None);
    var marker := IndexOf(tokens, PrizeMarker(moda));
    if marker.Some? {
      var j := marker.value;
      if j + WinnersOffset >= |tokens| || j + JackpotOffset >= |tokens| {
        return OutOfRange;
      }
      var status := Strip(tokens[j + WinnersOffset]);
      var pozo := Strip(tokens[j + JackpotOffset]);
      info := Draw(numbers, Some(Prizes(status, pozo)));
    }
    outcome := Found(info);
  }

  /**
   * The loop over the four modalities, adding each one's entry to `before`.
   * `crashed` reports the IndexError that leaves the loop at the first
   * modality whose prize offsets run past the tokens.
   */
  method ParseModalities(tokens: seq<string>, before: Results) returns (results: Results, crashed: bool)
    ensures crashed == Crashes(tokens)
    ensures !crashed ==> results == before + ModalityEntries(tokens, |Modalities|)
  {
    results := before;
    for k := 0 to |Modalities|
      invariant !CrashesBefore(tokens, k)
      invariant results == before + ModalityEntries(tokens, k)
    {
      var moda := Modalities[k];
      var outcome := ParseModality(tokens, moda);
      ModalityEntriesStep(tokens, k, outcome);
      match outcome
      case Absent =>
      case OutOfRange =>
        CrashesLater(tokens, k + 1, |Modalities|);
        return results, true;
      case Found(info) =>
        var key := Capitalize(moda);
        ModalityKey(k);
        UnionUpdate(before, ModalityEntries(tokens, k), key, info);
        results := results[key := info];
    }
    crashed := false;
  }

  /** The header match: "sorteo" and "fecha" are set when it is found. */
  method ParseHeader(text: string) returns (results: Results)
    ensures results == HeaderEntries(text)
  {
    results := map[];
    var header := Patterns.Search(Patterns.Header, text);
    if header.Some? {
      results := results["sorteo" := Text(header.value[0])];
      results := results["fecha" := Text(header.value[1])];
    }
  }

  /** The plus match: "Plus" is set when it is found. */
  method AddPlus(text: string, before: Results) returns (results: Results)
    ensures results == before + PlusEntries(text)
  {
    results := before;
    var plus := Patterns.Search(Patterns.PlusNumber, text);
    if plus.Some? {
      results := results["Plus" := Number(DecimalValue(plus.value[0]))];
    }
  }

  /** The parse of the page text: header, modalities, plus number. */
  method ParsePage(text: string) returns (results: Results)
    ensures results == ParseLoto(text)
  {
    results := ParseHeader(text);
    var tokens := Split(text);
    var crashed;
    results, crashed := ParseModalities(tokens, results);
    if crashed {
      // the IndexError escapes to the outer handler
      ParseLotoCrashes(text);
      return ErrorResults(IndexErrorText);
    }
    results := AddPlus(text, results);
    ParseLotoSucceeds(text);
  }

  lemma ModalityEntriesStep(tokens: seq<string>, k: nat, outcome: Outcome)
    requires k < |Modalities| && outcome == ModalityOutcome(tokens, Modalities[k])
    ensures outcome.Found? ==> ModalityEntries(tokens, k + 1) == ModalityEntries(tokens, k)[ModalityKeys[k] := outcome.entry]
    ensures !outcome.Found? ==> ModalityEntries(tokens, k + 1) == ModalityEntries(tokens, k)
  {
  }

  lemma CrashesLater(tokens: seq<string>, k: nat, n: nat)
    requires k <= n <= |Modalities| && CrashesBefore(tokens, k)
    ensures CrashesBefore(tokens, n)
    decreases n - k
  {
    if k < n { CrashesLater(tokens, k + 1, n); }
  }

  lemma ParseLotoSucceeds(text: string)
    requires !Crashes(Split(text))
    ensures ParseLoto(text) == HeaderEntries(text) + ModalityEntries(Split(text), |Modalities|) + PlusEntries(text)
  {
  }

  lemma ParseLotoCrashes(text: string)
    requires Crashes(Split(text))
    ensures ParseLoto(text) == ErrorResults(IndexErrorText)
  {
  }

  lemma UnionUpdate(h: Results, m: Results, key: string, v: Entry)
    ensures (h + m)[key := v] == h + m[key := v] == h + m + map[key := v]
  {
  }

  /** Python's `capitalize` turns each modality name into its key. */
  lemma ModalityKey(k: nat)
    requires k < |Modalities|
    ensures Capitalize(Modalities[k]) == ModalityKeys[k]
  {
    if k == 0 { CapitalizeIs("TRADICIONAL", "Tradicional"); }
    else if k == 1 { CapitalizeIs("MATCH", "Match"); }
    else if k == 2 { CapitalizeIs("DESQUITE", "Desquite"); }
    else { CapitalizeIs("SALE O SALE", "Sale o sale"); }
  }

  lemma CapitalizeIs(s: string, t: string)
    requires |s| == |t| > 0 && t[0] == Upper(s[0])
    requires forall i :: 1 <= i < |s| ==> t[i] == Lower(s[i])
    ensures Capitalize(s) == t
  {
  }

  // ---------------------------------------------------------------------
  // Properties of the parse.

  /**
   * The three outcomes for one modality: skipped exactly when its name is
   * not a token; an IndexError exactly when the prize marker is a token but
   * the jackpot offset runs past the end; an entry without prizes exactly
   * when the name is a token and the marker is not.
   */
  lemma ModalityOutcomeCases(tokens: seq<string>, moda: string)
    ensures ModalityOutcome(tokens, moda).Absent? <==> moda !in tokens
    ensures ModalityOutcome(tokens, moda).OutOfRange? <==>
              moda in tokens && IndexOf(tokens, PrizeMarker(moda)).Some?
              && IndexOf(tokens, PrizeMarker(moda)).value + JackpotOffset >= |tokens|
    ensures ModalityOutcome(tokens, moda).Found? && ModalityOutcome(tokens, moda).entry.prizes.None? <==>
              moda in tokens && PrizeMarker(moda) !in tokens
  {
    IndexOfSpec(tokens, moda);
    IndexOfSpec(tokens, PrizeMarker(moda));
  }

  /**
   * The prizes of an entry are the stripped tokens 10 and 12 places after the
   * first `PREMIOS SORTEO <name>` token.
   */
  lemma ModalityPrizes(tokens: seq<string>, moda: string)
    requires ModalityOutcome(tokens, moda).Found? && ModalityOutcome(tokens, moda).entry.prizes.Some?
    ensures IndexOf(tokens, PrizeMarker(moda)).Some?
    ensures var j := IndexOf(tokens, PrizeMarker(moda)).value;
            var prizes := ModalityOutcome(tokens, moda).entry.prizes.value;
      && j + JackpotOffset < |tokens|
      && tokens[j] == PrizeMarker(moda)
      && (forall i :: 0 <= i < j ==> tokens[i] != PrizeMarker(moda))
      && prizes == Prizes(Strip(tokens[j + WinnersOffset]), Strip(tokens[j + JackpotOffset]))
  {
    IndexOfSpec(tokens, PrizeMarker(moda));
  }

  /**
   * The numbers of an entry are the first six digit values (see `TakeDigits`)
   * of the tokens strictly after the first token equal to the name (see
   * `IndexOfSpec`).
   */
  lemma ModalityNumbers(tokens: seq<string>, moda: string)
    requires ModalityOutcome(tokens, moda).Found?
    ensures IndexOf(tokens, moda).Some?
    ensures ModalityOutcome(tokens, moda).entry.numeros ==
              Take(DigitValues(tokens[IndexOf(tokens, moda).value + 1..]), MaxNumbers)
  {
  }

  /** The modality keys are distinct, and none is a header, plus or error key. */
  lemma ReservedKeys()
    ensures forall i, j :: 0 <= i < j < |ModalityKeys| ==> ModalityKeys[i] != ModalityKeys[j]
    ensures "sorteo" !in ModalityKeys && "fecha" !in ModalityKeys && "Plus" !in ModalityKeys && "error" !in ModalityKeys
  {
    assert ModalityKeys[0][0] == 'T' && ModalityKeys[1][0] == 'M' && ModalityKeys[2][0] == 'D' && ModalityKeys[3][0] == 'S';
  }

  /** Modality k has an entry among the first n exactly when k < n and it was found. */
  lemma {:induction false} ModalityEntriesLookup(tokens: seq<string>, n: nat, k: nat)
    requires n <= |Modalities| && k < |Modalities|
    ensures ModalityKeys[k] in ModalityEntries(tokens, n) <==> k < n && ModalityOutcome(tokens, Modalities[k]).Found?
    ensures ModalityKeys[k] in ModalityEntries(tokens, n) ==>
              ModalityOutcome(tokens, Modalities[k]) == Found(ModalityEntries(tokens, n)[ModalityKeys[k]])
    decreases n
  {
    if n > 0 {
      ModalityEntriesLookup(tokens, n - 1, k);
      if k != n - 1 {
        ReservedKeys();
        assert ModalityKeys[k] != ModalityKeys[n - 1];
      }
    }
  }

  /** A key that is not a modality key is in none of the modality entries. */
  lemma {:induction false} ModalityEntriesOther(tokens: seq<string>, n: nat, key: string)
    requires n <= |Modalities| && key !in ModalityKeys
    ensures key !in ModalityEntries(tokens, n)
    decreases n
  {
    if n > 0 {
      ModalityEntriesOther(tokens, n - 1, key);
    }
  }

  /** The first n entries use only the keys of the first n modalities. */
  lemma {:induction false} ModalityEntriesKeys(tokens: seq<string>, n: nat)
    requires n <= |Modalities|
    ensures forall key :: key in ModalityEntries(tokens, n) ==> key in ModalityKeys[..n]
    decreases n
  {
    if n > 0 {
      ModalityEntriesKeys(tokens, n - 1);
      assert ModalityKeys[..n] == ModalityKeys[..n - 1] + [ModalityKeys[n - 1]];
    }
  }

  /** The parse fails as a whole exactly when one modality's prize offsets run past the tokens. */
  lemma {:induction false} CrashesSome(tokens: seq<string>, n: nat)
    requires n <= |Modalities|
    ensures CrashesBefore(tokens, n) <==> exists k :: 0 <= k < n && ModalityOutcome(tokens, Modalities[k]).OutOfRange?
    decreases n
  {
    if n > 0 {
      CrashesSome(tokens, n - 1);
      if ModalityOutcome(tokens, Modalities[n - 1]).OutOfRange? {
        assert exists k :: 0 <= k < n && ModalityOutcome(tokens, Modalities[k]).OutOfRange?;
      }
    }
  }

  /** The header entries use only the keys "sorteo" and "fecha". */
  lemma HeaderEntriesKeys(text: string)
    ensures forall key :: key in HeaderEntries(text) ==> key == "sorteo" || key == "fecha"
  {
  }

  /** The plus entry uses only the key "Plus". */
  lemma PlusEntriesKeys(text: string)
    ensures forall key :: key in PlusEntries(text) ==> key == "Plus"
  {
  }

  /** A successful result is the union of the header entries, the modality entries and the plus entry. */
  lemma AssembleUnion(header: Results, tokens: seq<string>, plus: Results, key: string)
    requires !Crashes(tokens)
    ensures key in Assemble(header, tokens, plus) <==>
              key in header || key in ModalityEntries(tokens, |Modalities|) || key in plus
    ensures key in plus ==> Assemble(header, tokens, plus)[key] == plus[key]
    ensures key !in plus && key in ModalityEntries(tokens, |Modalities|) ==>
              Assemble(header, tokens, plus)[key] == ModalityEntries(tokens, |Modalities|)[key]
    ensures key !in plus && key !in ModalityEntries(tokens, |Modalities|) && key in header ==>
              Assemble(header, tokens, plus)[key] == header[key]
  {
  }

  /** Away from the header and plus keys, a successful parse holds the modality entries. */
  lemma SuccessLookup(text: string, key: string)
    requires !Crashes(Split(text)) && key != "sorteo" && key != "fecha" && key != "Plus"
    ensures key in ParseLoto(text) <==> key in ModalityEntries(Split(text), |Modalities|)
    ensures key in ParseLoto(text) ==> ParseLoto(text)[key] == ModalityEntries(Split(text), |Modalities|)[key]
  {
    HeaderEntriesKeys(text);
    PlusEntriesKeys(text);
    AssembleUnion(HeaderEntries(text), Split(text), PlusEntries(text), key);
  }

  /**
   * The error result: "error" is a key exactly when some modality's prize
   * offsets run past the tokens, and then it is the only key: no partial
   * result survives the IndexError.
   */
  lemma ParseError(text: string)
    ensures "error" in ParseLoto(text) <==>
              exists k :: 0 <= k < |Modalities| && ModalityOutcome(Split(text), Modalities[k]).OutOfRange?
    ensures "error" in ParseLoto(text) ==> ParseLoto(text) == map["error" := Text(IndexErrorText)]
  {
    var tokens := Split(text);
    CrashesSome(tokens, |Modalities|);
    if Crashes(tokens) {
      ParseLotoCrashes(text);
    } else {
      ReservedKeys();
      ModalityEntriesOther(tokens, |Modalities|, "error");
      SuccessLookup(text, "error");
    }
  }

  /** The keys of a successful parse: "sorteo", "fecha", "Plus" and the modality keys. */
  lemma SuccessKeys(text: string)
    requires !Crashes(Split(text))
    ensures forall key :: key in ParseLoto(text) ==> key in ["sorteo", "fecha", "Plus"] + ModalityKeys
  {
    ParseLotoSucceeds(text);
    HeaderEntriesKeys(text);
    PlusEntriesKeys(text);
    ModalityEntriesKeys(Split(text), |Modalities|);
  }

  /**
   * In a successful parse, modality k has an entry exactly when its name is
   * a token, and the entry is the one built for it.
   */
  lemma ParseModalityEntry(text: string, k: nat)
    requires k < |Modalities| && !Crashes(Split(text))
    ensures ModalityKeys[k] in ParseLoto(text) <==> Modalities[k] in Split(text)
    ensures ModalityKeys[k] in ParseLoto(text) ==>
              ModalityOutcome(Split(text), Modalities[k]) == Found(ParseLoto(text)[ModalityKeys[k]])
  {
    var tokens := Split(text);
    SuccessLookup(text, ModalityKeys[k]);
    ModalityEntriesLookup(tokens, |Modalities|, k);
    ModalityOutcomeCases(tokens, Modalities[k]);
    CrashesSome(tokens, |Modalities|);
  }

  /**
   * The header entries: present exactly when the header expression matches
   * somewhere, and then the id and date of its leftmost match.
   */
  lemma HeaderEntriesMatch(text: string)
    ensures "sorteo" in HeaderEntries(text) <==> exists q :: 0 <= q <= |text| && Patterns.HeaderAt(text, q).Some?
    ensures "fecha" in HeaderEntries(text) <==> "sorteo" in HeaderEntries(text)
    ensures "sorteo" in HeaderEntries(text) ==>
              exists q, id, date :: 0 <= q <= |text| && Patterns.HeaderMatch(text, q, id, date)
                && (forall q' :: 0 <= q' < q ==> Patterns.HeaderAt(text, q').None?)
                && HeaderEntries(text)["sorteo"] == Text(id) && HeaderEntries(text)["fecha"] == Text(date)
  {
    Patterns.HeaderSearch(text);
  }

  /** The plus entry: present exactly when the plus expression matches somewhere, with the value of its leftmost match's digits. */
  lemma PlusEntriesMatch(text: string)
    ensures "Plus" in PlusEntries(text) <==> exists q :: 0 <= q <= |text| && Patterns.PlusAt(text, q).Some?
    ensures "Plus" in PlusEntries(text) ==>
              exists q, ws, num :: 0 <= q <= |text| && Patterns.PlusMatch(text, q, ws, num)
                && (forall q' :: 0 <= q' < q ==> Patterns.PlusAt(text, q').None?)
                && PlusEntries(text)["Plus"] == Number(DecimalValue(num))
  {
    Patterns.PlusSearch(text);
  }

  /** In a successful parse, "sorteo" and "fecha" are exactly the header entries. */
  lemma HeaderLookup(text: string, key: string)
    requires !Crashes(Split(text)) && (key == "sorteo" || key == "fecha")
    ensures key in ParseLoto(text) <==> key in HeaderEntries(text)
    ensures key in ParseLoto(text) ==> ParseLoto(text)[key] == HeaderEntries(text)[key]
  {
    var tokens := Split(text);
    PlusEntriesKeys(text);
    ReservedKeys();
    ModalityEntriesOther(tokens, |Modalities|, key);
    AssembleUnion(HeaderEntries(text), tokens, PlusEntries(text), key);
  }

  /** In a successful parse, "Plus" is exactly the plus entry. */
  lemma PlusLookup(text: string)
    requires !Crashes(Split(text))
    ensures "Plus" in ParseLoto(text) <==> "Plus" in PlusEntries(text)
    ensures "Plus" in ParseLoto(text) ==> ParseLoto(text)["Plus"] == PlusEntries(text)["Plus"]
  {
    HeaderEntriesKeys(text);
    ReservedKeys();
    ModalityEntriesOther(Split(text), |Modalities|, "Plus");
    AssembleUnion(HeaderEntries(text), Split(text), PlusEntries(text), "Plus");
  }

  /** `fetch_loto`, after the request: a failed request yields {"error": reason}. */
  method FetchLoto(response: Response) returns (results: Results)
    ensures response.Page? ==> results == ParseLoto(response.text)
    ensures response.RequestFailed? ==> results == ErrorResults(response.reason)
  {
    match response
    case RequestFailed(reason) =>
      results := ErrorResults(reason);
    case Page(text) =>
      results := ParsePage(text);
  }
}
