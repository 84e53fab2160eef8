# Trebol: a verified model of the Loto Plus results checker

Trebol is a small desktop application (`trebol.py`) for the Argentine
Loto Plus lottery. The user types six loto numbers and a plus number. On
each update, the application does five things:

1. It reads the results page, as a text proxy renders it.
2. It turns the page into a results dictionary: draw id and date, the
   numbers and prizes of the four modalities, and the plus number.
3. It colours every number the user typed green (drawn) or red (not
   drawn).
4. It beeps when the results differ from the last ones shown.
5. It works out the date of the next draw, on a Wednesday or a Saturday
   at 22:00.

It also saves the user's numbers to a file and loads them back at start.

This project models that logic in Dafny and proves what it does.

| file | module | what it models |
|---|---|---|
| `wrappers.dfy` | `Wrappers` | `Option` |
| `strings.dfy` | `Strings` | The Python string and list operations the application uses, over ASCII: `strip`, `isdigit`, `int`, `str`, `zfill`, `capitalize`, `split('**')`, `list.index` |
| `patterns.dfy` | `Patterns` | The two regular expressions `fetch_loto` searches for, as hand-written scanners, with `re.search`'s leftmost-match rule |
| `loto_parser.dfy` | `LotoParser` | The parsing half of `fetch_loto`: a specification (`ParseLoto`) and the imperative parser (`ParsePage`, loops included) proved equal to it |
| `calendar.dfy` | `Calendar` | The part of Python's `datetime` that `calculate_next_draw` uses: proleptic Gregorian dates in years 1 to 9999, ordinals, weekdays, adding days (with the overflow past 9999-12-31), and the `%d/%m/%Y` text form |
| `draw_scheduler.dfy` | `DrawScheduler` | `calculate_next_draw`: the day-by-day loop, proved against the closed form `NextDraw` |
| `pick_match.dfy` | `PickMatch` | The matching loop of `compare_and_display` |
| `user_picks.dfy` | `UserPicks` | The value transforms of `save_user_data` and `load_user_data` |
| `trebol_app.dfy` | `Trebol` | The `TrebolApp` object as a class: entry texts, marks, `previous_results` and the users file, plus the change detector |

The results dictionary is a `map<string, Entry>`. An `Entry` is one of:

- a text (`sorteo`, `fecha`, `error`);
- a number (`Plus`);
- a draw (`numeros` and optional `ganadores`/`pozo`).

An `IndexError` from a prize offset past the end of the tokens reaches the
outer handler. The handler turns the whole result into
`{"error": "list index out of range"}`. A failed request gives
`{"error": <reason>}`.

The overflow of `timedelta` arithmetic past year 9999 is modelled as
`None`. This `OverflowError` escapes `compare_and_display` and
`scrape_once`. The model follows that: nothing is marked, nothing is
recorded, and nothing is saved.

The entry box colours are a `Mark`: `Blank` (white), `Hit` (green) or
`Miss` (red).

An error result returns early from `compare_and_display`
(`trebol.py:229-231`), before `previous_results` is assigned at
`trebol.py:287`. So an error result keeps the previous results: it is
shown but is never compared, never notifies and is never recorded.
`Trebol.ChangeDetector` and `Trebol.ErrorsKeepPrevious` state this.

## Model

| member | source | states |
|---|---|---|
| Strings.Strip | trebol.py:135 | `strip` never makes a text longer (its shape is stated by `StripEnds`, `StripKeeps` and `StripPadded`) |
| Strings.StripOutside | trebol.py:135 | every character before or after the slice `strip` keeps is whitespace |
| Strings.StripPadded | trebol.py:253 | `strip` removes any whitespace on both sides of a text that starts and ends with something else, and nothing more |
| Strings.DecimalValueZero | trebol.py:137 | `int` of a digit string is zero exactly when every digit is '0' |
| Strings.ZFill | trebol.py:128 | `zfill(w)` keeps a text of w or more characters, and otherwise pads it with '0' to exactly w characters, after a leading sign |
| Strings.Capitalize | trebol.py:202 | `capitalize` upper-cases the first character, lower-cases every other one, and keeps the length |
| Strings.NatToString | trebol.py:128 | `str(n)` is a digit string with no leading zero that reads back as `n` |
| Strings.Split | trebol.py:179 | `split('**')` gives at least one piece, no piece contains `**`, joining the pieces with `**` gives back the text, and no piece but the last ends with `*` (each cut is at the leftmost `**`), which fixes the pieces |
| Strings.IndexOf | trebol.py:183 | a found index is in range and holds the token looked for |
| Strings.IndexOfSpec | trebol.py:182-185 | `index` fails (ValueError) exactly when the token is absent, and otherwise returns its first occurrence |
| Strings.StripEnds | trebol.py:189 | `strip` returns a slice of the text that neither starts nor ends with whitespace |
| Strings.StripKeeps | trebol.py:189 | `strip` keeps every non-whitespace character, so it is empty exactly when the text is all whitespace |
| Strings.DigitValuesMembership | trebol.py:134-137 | a value is among the collected ints exactly when some entry strips to its digits |
| Strings.TakeDigits | trebol.py:186-192 | the first n digit values come from digit tokens at strictly increasing positions, and there are fewer than n only when the tokens run out |
| Strings.PaddedValue | trebol.py:128 | `str(n).zfill(w)` is a digit string that reads back as `n` |
| Strings.CanonicalPadded | trebol.py:128 | a digit string of length w is exactly `str(int(s)).zfill(w)` |
| Patterns.HeaderAtIsMatch | trebol.py:175 | the header scanner matches at a position exactly when `LOTO PLUS Nro: (\d+) - ([0-9/]+)` matches there with those groups |
| Patterns.PlusAtIsMatch | trebol.py:203 | the plus scanner matches at a position exactly when `Número plus:\*\*\s*\*\*(\d+)\*\*` matches there with that group |
| Patterns.Find | trebol.py:175 | `re.search` finds the leftmost position where the expression matches: a match there and none before it, or none anywhere |
| Patterns.HeaderSearch | trebol.py:175-176 | the header search succeeds exactly when the expression matches somewhere, and then yields the two groups of the leftmost match |
| Patterns.PlusSearch | trebol.py:203-204 | the plus search succeeds exactly when the expression matches somewhere, and then yields the group of the leftmost match |
| LotoParser.ErrorResults | trebol.py:208-210 | the error result has the single key "error", holding the message |
| LotoParser.ScanNumbers | trebol.py:186-192 | the scan loop collects the first six values of digit tokens after the name token |
| LotoParser.ScanStops | trebol.py:188 | stopping at the end of the tokens or at six numbers leaves exactly the first six |
| LotoParser.ParseModality | trebol.py:182-201 | one pass of the loop body gives the modality's outcome: skipped, an entry, or the IndexError |
| LotoParser.ParseModalities | trebol.py:180-202 | the loop reports the IndexError exactly when some modality's offsets run past the tokens, and otherwise adds every found modality's entry |
| LotoParser.ParseHeader | trebol.py:175-178 | "sorteo" and "fecha" are set from the header match |
| LotoParser.AddPlus | trebol.py:203-205 | "Plus" is set from the plus match |
| LotoParser.ParsePage | trebol.py:174-207 | the parser returns exactly the specified result, including the error result |
| LotoParser.FetchLoto | trebol.py:168-210 | a page gives its parse, and a failed request gives {"error": reason} |
| LotoParser.ModalityKey | trebol.py:202 | `capitalize` of the four names gives "Tradicional", "Match", "Desquite", "Sale o sale" |
| LotoParser.ModalityOutcomeCases | trebol.py:182-201 | a modality is skipped exactly when its name is not a token; it raises exactly when its prize marker is a token but the offset +12 is past the end; it has no prizes exactly when the marker is absent |
| LotoParser.ModalityPrizes | trebol.py:195-199 | the prizes are the stripped tokens 10 and 12 places after the first prize marker token |
| LotoParser.ModalityNumbers | trebol.py:183-192 | the numbers are the first six digit values of the tokens strictly after the first name token |
| LotoParser.ReservedKeys | trebol.py:177-178 | the modality keys are distinct and differ from "sorteo", "fecha", "Plus" and "error" |
| LotoParser.ModalityEntriesLookup | trebol.py:181-202 | a modality has an entry exactly when it was found, and the entry is the one built for it |
| LotoParser.ModalityEntriesOther | trebol.py:202 | no key outside the four modality keys is set by the loop |
| LotoParser.ModalityEntriesKeys | trebol.py:202 | the first n modalities set only their own keys |
| LotoParser.CrashesSome | trebol.py:196-197 | the loop raises exactly when one of the modalities raises |
| LotoParser.HeaderEntriesKeys | trebol.py:177-178 | the header sets only "sorteo" and "fecha" |
| LotoParser.PlusEntriesKeys | trebol.py:205 | the plus match sets only "Plus" |
| LotoParser.AssembleUnion | trebol.py:174-207 | a successful result has exactly the keys of its three parts, and later writes win |
| LotoParser.SuccessLookup | trebol.py:181-202 | away from "sorteo", "fecha" and "Plus", a successful result holds exactly the modality entries |
| LotoParser.ParseError | trebol.py:196-197 | "error" is a key exactly when some modality's offsets run past the tokens, and then it is the only key: no partial result |
| LotoParser.SuccessKeys | trebol.py:174-207 | a successful result has no key other than "sorteo", "fecha", "Plus" and the modality keys |
| LotoParser.ParseModalityEntry | trebol.py:180-202 | in a successful parse, a modality has an entry exactly when its name is a token, and the entry is the one built for it |
| LotoParser.HeaderEntriesMatch | trebol.py:175-178 | "sorteo" and "fecha" are set exactly when the header expression matches, and hold the groups of its leftmost match |
| LotoParser.PlusEntriesMatch | trebol.py:203-205 | "Plus" is set exactly when the plus expression matches, and holds the value of the digits of its leftmost match |
| LotoParser.HeaderLookup | trebol.py:175-178 | in a successful result, "sorteo" and "fecha" are exactly the header entries |
| LotoParser.PlusLookup | trebol.py:203-205 | in a successful result, "Plus" is exactly the plus entry |
| Calendar.DaysInMonth | trebol.py:217 | a month has 28 to 31 days, and February has 29 exactly in leap years |
| Calendar.NextDay | trebol.py:217 | one day later is a valid date or the overflow |
| Calendar.AddDays | trebol.py:217-219 | adding days gives a valid date or the overflow |
| Calendar.DaysBeforeYearFormula | trebol.py:218 | the days before a year are the closed form `365p + p/4 - p/100 + p/400` that `datetime` uses |
| Calendar.NextDayOrdinal | trebol.py:217 | there is no day after 9999-12-31, and otherwise the next day is one ordinal later |
| Calendar.OrdinalRange | trebol.py:217 | every valid date's ordinal lies between 1 and that of 9999-12-31, which only that date has |
| Calendar.AddDaysOrdinal | trebol.py:217-219 | adding n days succeeds exactly when the ordinal stays in range, and lands n ordinals later |
| Calendar.AddDaysWeekday | trebol.py:218 | n days later is n weekdays later, modulo the week |
| Calendar.AddDaysStep | trebol.py:219 | adding one more day is one more single-day step |
| Calendar.Weekday | trebol.py:218 | a weekday is 0 (Monday) to 6 (Sunday); `Calendar.AddDaysWeekday` and `DrawScheduler.ExampleWeekday` tie it to the calendar |
| Calendar.FormatDate | trebol.py:221 | `%d/%m/%Y` gives ten characters: two digits, '/', two digits, '/', four digits |
| Calendar.ParseDate | trebol.py:214 | a date that parses is valid |
| Calendar.FormatThenParse | trebol.py:214-221 | formatting a date as DD/MM/YYYY and parsing it gives the date back |
| Calendar.ParseThenFormat | trebol.py:214-221 | a text that parses is the formatted form of its date |
| DrawScheduler.DrawGapSpec | trebol.py:217-219 | from every weekday the first draw day is one to four days on, and no draw day comes before it |
| DrawScheduler.NextDraw | trebol.py:217-219 | the next draw, when it exists, is a valid date on a Wednesday or a Saturday |
| DrawScheduler.FindNextDraw | trebol.py:217-219 | the day-by-day loop ends on the first Wednesday or Saturday after the base date, or overflows |
| DrawScheduler.NextDrawSpec | trebol.py:217-219 | the next draw is 1 to 4 days after the base date (never the base date), falls on a Wednesday or Saturday with no draw day between, and is missing only at the end of the calendar |
| DrawScheduler.BaseDate | trebol.py:213-216 | the base date is the parsed text or, when it does not parse, now |
| DrawScheduler.CalculateNextDraw | trebol.py:212-221 | the method returns the text of the next draw after the base date |
| DrawScheduler.NextDrawTextSpec | trebol.py:220-221 | the text is 16 characters, ends with " 22:00", and its date part parses back to the next draw date |
| DrawScheduler.SaturdayExample | trebol.py:212-221 | "14/06/2025" (a Saturday) gives "18/06/2025 22:00" |
| PickMatch.MarkOf | trebol.py:252-259 | a loto entry is a hit exactly when its stripped text is digits and its int is drawn, a miss exactly when it is digits and not drawn, and blank otherwise |
| PickMatch.PlusMarkOf | trebol.py:261-266 | the plus entry is a hit exactly when its stripped text is digits equal to the drawn plus number, a miss exactly when it is digits and a different plus number was drawn, and blank exactly when either is missing |
| PickMatch.MarkPicks | trebol.py:248-259 | the loop marks every loto entry as `MarkOf` says, in order |
| PickMatch.MarkIgnoresPadding | trebol.py:253-255 | any whitespace on either side and any number of leading zeros do not change a mark |
| UserPicks.SavedData | trebol.py:132-138 | the file holds one int per loto entry that strips to digits, read from that entry, in box order, and none for the other entries; and the plus text's int exactly when that text, unstripped, is all digits |
| UserPicks.LoadedEntries | trebol.py:127-128 | loading keeps the number of boxes; each of the first boxes gets the digits of its saved number in front of its old text, two of them below 100 and no leading zero when there are more; the boxes past the saved numbers stay as they were |
| UserPicks.PaddedPick | trebol.py:128 | `str(val).zfill(2)` is digits that read as the number: exactly two below 100, and no leading zero when there are more |
| UserPicks.LoadedPlus | trebol.py:129-130 | with no saved plus number the plus box is unchanged; otherwise its old text is preceded by digits with no leading zero that read as the saved number |
| UserPicks.PaddedPickReads | trebol.py:128 | a loaded number's text strips to digits that read back as the number |
| UserPicks.ReloadKeepsNumbers | trebol.py:126-137 | saving six freshly loaded boxes gives back the first six loaded numbers, in order (`zip` drops the rest) |
| UserPicks.SaveThenLoad | trebol.py:127-137 | loading what was saved fills the first boxes with the saved numbers, leaves the rest empty, and saves back the same |
| UserPicks.CanonicalReload | trebol.py:127-137 | six two-digit entries come back exactly as typed |
| UserPicks.TwoDigitValues | trebol.py:134-137 | two-digit entries each save one value, in order |
| UserPicks.PlusRoundTrip | trebol.py:129-138 | a saved plus number is loaded as text that saves back as the same number |
| UserPicks.PlusSavedUnstripped | trebol.py:138 | the plus entry is not stripped before saving: " 7" matches as 7 but saves as null |
| Trebol.DisplayOf | trebol.py:229-287 | an error result, and only an error result, is shown as its message; the next draw overflows exactly for other results whose next draw does not exist; other results are shown exactly when their next draw exists, with that draw's text, and notify exactly when they differ from the last results shown |
| Trebol.PreviousAfter | trebol.py:229-287 | the last results shown are replaced by the results or kept, and an error result never replaces them |
| Trebol.ChangeDetector | trebol.py:229-287 | an error result changes nothing; results are shown exactly when they are not an error and the next draw exists; shown results notify exactly when they differ from the previous ones (always the first time) and replace them |
| Trebol.RepeatIsSilent | trebol.py:285-287 | showing the same results again does not notify |
| Trebol.LastShownSpec | trebol.py:285-287 | after any run of updates, each at its own current date, the last results shown are the initial ones or one of the updates, never an error result |
| Trebol.ErrorsKeepPrevious | trebol.py:229-231 | error results in between leave the last results shown unchanged |
| Trebol.TrebolApp.constructor | trebol.py:43-53 | six empty boxes and an empty plus box, then the users file loaded, no previous results, all boxes white |
| Trebol.TrebolApp.LoadUserData | trebol.py:121-130 | a saved number is put in front of each box for the zipped pairs, and the plus number in front of the plus box; nothing else changes |
| Trebol.TrebolApp.SaveUserData | trebol.py:132-142 | the file holds the ints of the digit loto entries and the plus entry's int or null; nothing else changes |
| Trebol.TrebolApp.CompareAndDisplay | trebol.py:223-287 | the display, the new previous results and the marks are those of the change detector and the matching; an error or an overflow leaves every field unchanged |
| Trebol.TrebolApp.ScrapeOnce | trebol.py:157-166 | fetch, compare and display (the display, the previous results and the marks of the fetched results), then save unless the next-draw computation overflowed |

## Left out

- The HTTP request (`trebol.py:170-173`) is a `Response` parameter: the page text or the exception's text.
- `datetime.now()` (`trebol.py:216`, `225`) is a `now` parameter. The display timestamp at 225 is not modelled.
- The Tk window, the widgets, their colours and the text written to the results pane are left out. Colours are modelled as marks, and the beep is the `notified` flag.
- The spinner thread, the tray icon, `winsound` and logging are left out: they are concurrency, foreign libraries and output.
- Reading and writing the JSON users file is left out. The file's contents are the `stored` field; a file that does not exist is `None`.
- Hand-edited users files with values that are not ints are left out. So is `load_from_file` (`trebol.py:298-303`), which nothing calls.
- Since Python 3.11, `int()` refuses a digit string longer than 4300 characters with a `ValueError`. At `trebol.py:191` and `trebol.py:205` that turns the whole result into `{"error": ...}`. At `trebol.py:137-138`, `trebol.py:255` and `trebol.py:263` it escapes `save_user_data` and `compare_and_display`. The model reads digit strings of any length as unbounded ints, so none of these paths is modelled.
- `isdigit`, `\d`, `\s` and `strip` cover ASCII only. Python also accepts other Unicode digits and whitespace.
- Calendar.ParseDate: only the canonical `DD/MM/YYYY` form is accepted. `strptime` also takes unpadded fields such as `1/6/2025`; those fall back to `now` here.
- Calendar.FormatDate: the year is always printed with four digits. `%Y` below year 1000 depends on the platform.
- The order of the results dictionary (insertion order) is not modelled; a `map` has no order. Only the display loop at `trebol.py:269-281` depends on it, and that loop is not modelled.
- The regular expressions are modelled only as the two fixed patterns, not as a general engine.
- LotoParser.ModalityEntries keys each modality by a constant of the four capitalized names. `ModalityKey` proves each constant equal to `capitalize` of the name.
- LotoParser.ModalityNumbers states the numbers as `Take(DigitValues(...), 6)`. The facts about positions and order are in `Strings.TakeDigits`.
