# Dream Interpreter: a Dafny model of the session core

Dream Interpreter is a single-page Streamlit app. The user types a dream.
The page then does two things:

- It lists the "quick symbols" found in the text, taken from a catalog of
  dream symbols loaded from a CSV file.
- On request, it asks the Gemini generative-text service for an
  interpretation.

All state lives in the browser session: a current result, two counters, a
dream journal and the time of the last service call. This project models that
core in six modules, one file each (plus `wrappers.dfy` for `Option`):

- `text.dfy` (`Text`): the string operations the page relies on.
  - `str.lower()` on ASCII letters.
  - The substring test `needle in hay`, with its characterisation by
    positions.
  - `str.strip()` with Python's whitespace set, and `startswith`.
- `catalog.dfy` (`Catalog`): `load_dream_symbols`.
  - It loops over the already-parsed rows into an insertion-ordered
    dictionary.
  - A later row for a known symbol replaces that symbol's value but keeps its
    position.
  - A missing file gives the empty catalog.
- `matcher.dfy` (`Matcher`): `find_dream_symbols`.
  - The method keeps the nested loops of the source.
  - It is proved equal to the function `Matches`.
  - The properties of the results are proved about `Matches`: what is found,
    in which order, and how many results there can be.
- `gate.dfy` (`Gate`): the decision logic of `safe_gemini_call`.
  - A missing key is checked first, then the 12-second limiter.
  - Then the service is called. The timestamp is written after the client is
    set up and before the request is sent.
  - A failure becomes an advisory string.
  - The module also has the display rule: a reply that starts with one of
    the three reserved markers (⚠️, ⏳, ❌) is shown as an error.
- `journal.dfy` (`Journal`): the journal entry and the journal views. These
  are the last-five listing (newest first, numbered downwards), the
  200-character excerpt, and the most frequent emotion and mode.
- `session.dfy` (`Session`): the session store.
  - The submit, save and "new interpretation" handlers are pure transitions on
    a `State` value.
  - `Run` chains those transitions over any sequence of user actions. The
    invariants that every sequence keeps are proved about it.
  - The class `SessionStore` holds the same fields. Its methods update them in
    place and are proved to make exactly those transitions.

The service's behaviour is an input, the datatype `Gate.Upstream`:

- `SetupFailed`: configuring the client or creating the model raised.
- `RequestFailed`: the request, or reading its text, raised.
- `Answered`: the service answered with a text.

The clock is an input too: one `now: real` per submission.

One might expect a submission that only produced the missing-key or
rate-limit advisory not to count as an interpretation. The code increments
both counters on every non-blank submission, whatever the gate returned
(dream-interpreter.py:267-281), and the model does the same; see
`Session.AdvisoryStillCounted`.

## Model

| member | source | states |
|---|---|---|
| Text.LowerSpec | dream-interpreter.py:86 | `Lower` leaves no upper-case letter, changes nothing in text without capitals, and is idempotent |
| Text.ContainsSpec | dream-interpreter.py:89 | the substring test holds exactly when the needle occurs at some position of the text |
| Text.StripEmptyIffBlank | dream-interpreter.py:226 | `strip()` gives the empty string exactly when every character is whitespace |
| Text.StripIsEmpty | dream-interpreter.py:226 | evaluating `not s.strip()` answers whether the text is blank (whitespace only or empty) |
| Text.StripEndsNotSpace | dream-interpreter.py:226 | a non-empty stripped text begins and ends with a non-whitespace character |
| Text.StripIsSlice | dream-interpreter.py:226 | the stripped text is a contiguous slice of the original |
| Catalog.Assign | dream-interpreter.py:73-76 | assigning a row: the row is in the catalog afterwards; a new symbol goes at the end; a known symbol keeps its position and the length is unchanged; other entries are kept; symbol names stay distinct |
| Catalog.BuildSymbols | dream-interpreter.py:71-77 | the built catalog has each symbol of the file exactly once and no other |
| Catalog.BuildLastWins | dream-interpreter.py:72-76 | the last row of the file naming a symbol is the one the catalog holds |
| Catalog.BuildKeepsOrder | dream-interpreter.py:72-76 | the symbols of any prefix of the file come first in the catalog, in the same order (first-appearance order) |
| Catalog.LoadDreamSymbols | dream-interpreter.py:67-80 | the row loop produces the catalog built from all rows; a missing file gives the empty catalog |
| Matcher.AppendContextHits | dream-interpreter.py:97-103 | the inner loop appends exactly one labelled result per context phrase found, in context order |
| Matcher.FindDreamSymbols | dream-interpreter.py:83-105 | the nested loops over the catalog return exactly `Matches` of the catalog against the lower-cased text |
| Matcher.ContextHitsMembership | dream-interpreter.py:97-103 | a context result appears iff that phrase occurs, independently of whether the symbol occurs |
| Matcher.MatchesMembership | dream-interpreter.py:88-103 | a result appears iff some catalog entry explains it (its symbol occurs, or one of its phrases occurs) |
| Matcher.MatchesInCatalogOrder | dream-interpreter.py:88-105 | the results of any leading part of the catalog are a prefix of all results: results come in catalog order |
| Matcher.EmptyIffNothingOccurs | dream-interpreter.py:83-105 | the result list is empty iff no symbol and no context phrase occurs in the text |
| Matcher.ContextHitsBound | dream-interpreter.py:97-103 | one symbol's context results number at most its context count |
| Matcher.MatchesBound | dream-interpreter.py:88-103 | the number of results is at most the sum over entries of 1 + number of contexts (no de-duplication, nothing more) |
| Matcher.CapitalNeverMatches | dream-interpreter.py:86-98 | only the dream is lower-cased: a symbol or phrase holding a capital letter is never found |
| Matcher.SymbolAndContextBothFound | dream-interpreter.py:89-103 | when a symbol and one of its phrases both occur, the entry gives the general result first and the context result too |
| Matcher.OneSymbolOneContext | dream-interpreter.py:88-103 | a one-entry catalog with one context whose symbol and phrase both occur yields exactly [general result, context result] |
| Matcher.SampleDreamLowered | dream-interpreter.py:86 | a dream with capitals is lower-cased to the expected text |
| Matcher.SampleDreamMentionsTerbang | dream-interpreter.py:89 | "terbang" is found in the sample dream |
| Matcher.SampleDreamMentionsJatuh | dream-interpreter.py:98 | "jatuh" is found in the sample dream |
| Matcher.FlyingThenFalling | dream-interpreter.py:83-105 | symbol "terbang" with context "jatuh" against the sample dream gives exactly the general result and the result labelled "terbang (jatuh)", in that order |
| Gate.Call | dream-interpreter.py:107-127 | missing key first: the ⚠️ advisory with the timestamp unchanged; then, within 12 seconds of the last call: the ⏳ advisory with the remaining time and no change; otherwise the timestamp becomes `now` unless client set-up failed, and the reply is the service text or the ❌ advisory |
| Gate.CallSpacing | dream-interpreter.py:113-122 | the timestamp is either unchanged or moves to `now`, at least 12 seconds after the previous one |
| Gate.FailedRequestStillCounts | dream-interpreter.py:118-127 | a request that fails after the timestamp write still records the call |
| Gate.MarkedShownAsError | dream-interpreter.py:296-299 | any text starting with one of the three markers is shown as an error |
| Gate.ReplyShownAsError | dream-interpreter.py:296-301 | a gate reply is shown as an error iff it is an advisory, or a service answer that itself starts with a marker |
| Journal.Excerpt | dream-interpreter.py:356 | the dream itself when at most 200 characters; otherwise its first 200 characters followed by "..." |
| Journal.ExcerptSpec | dream-interpreter.py:356 | the excerpt starts with the dream's first 200 characters (all of a shorter dream), has an appended "..." exactly when the dream is longer than 200 characters, and is at most 203 characters |
| Journal.ReversedAt | dream-interpreter.py:354 | `reversed` puts element `|xs|-1-i` at position `i` |
| Journal.Recent | dream-interpreter.py:354-355 | the listing has min(5, n) lines, line `i` is numbered `n - i`, and it shows journal entry number `n - i` (newest first) |
| Journal.RatedEmotionsCount | dream-interpreter.py:342 | dropping "Tidak yakin" keeps the count of every other emotion and leaves none of it |
| Journal.Heaviest | dream-interpreter.py:344 | the chosen candidate has a count no other candidate exceeds |
| Journal.MostCommon | dream-interpreter.py:344 | absent iff the list is empty; otherwise an element of the list with maximal count |
| Journal.NothingRatedIffAllUnsure | dream-interpreter.py:342-343 | the filtered emotion list is empty iff every entry is "Tidak yakin" |
| Journal.MostCommonEmotion | dream-interpreter.py:342-345 | absent iff every entry is "Tidak yakin"; otherwise an emotion other than "Tidak yakin", present in the journal, that no other such emotion outnumbers |
| Journal.MostCommonMode | dream-interpreter.py:348-351 | absent iff the journal is empty; otherwise a mode of the journal that no other mode outnumbers |
| Session.Submit | dream-interpreter.py:225-285 | blank text changes nothing; otherwise the current result holds the gate's reply, both counters rise by exactly one, the timestamp is the gate's, and the journal grows by exactly the new entry iff saving is on |
| Session.Save | dream-interpreter.py:309-311 | without a current result nothing changes; otherwise the journal holds it afterwards and grows by one iff it did not already; counters and timestamp untouched |
| Session.NewInterpretation | dream-interpreter.py:325-326 | the current result is cleared and journal, counters and timestamp are untouched |
| Session.SaveIsIdempotent | dream-interpreter.py:309-311 | saving twice is the same as saving once |
| Session.AdvisoryStillCounted | dream-interpreter.py:267-281 | with a missing key or while rate-limited, both counters still rise by one, the timestamp stays, and the stored result is shown as an error |
| Session.StepSpec | dream-interpreter.py:225-326 | every action keeps the invariant (counters equal, journal plus unsaved result within the count), only appends to the journal, and moves the timestamp only forward by at least 12 seconds |
| Session.RunSpec | dream-interpreter.py:225-326 | over any sequence of actions: invariant kept, journal only extended, counters equal their start plus the accepted submissions, timestamp never moves back |
| Session.SessionStore.constructor | dream-interpreter.py:150-166 | a new session: empty journal, no current result, zero counters, no last call |
| Session.SessionStore.SafeGeminiCall | dream-interpreter.py:107-127 | the reply and the new `last_api_call` are those of `Gate.Call` on the stored timestamp; nothing else changes |
| Session.SessionStore.SubmitDream | dream-interpreter.py:225-285 | the accepted flag is false exactly for blank text, the new state is `Submit` of the old one, and the invariant is kept |
| Session.SessionStore.SaveCurrent | dream-interpreter.py:309-311 | appends iff a current result is not yet in the journal, the new state is `Save` of the old one, invariant kept |
| Session.SessionStore.StartNewInterpretation | dream-interpreter.py:325-326 | the new state is `NewInterpretation` of the old one, invariant kept |

## Left out

- Rendering is not modelled: widgets, CSS and HTML, spinners, expanders, metrics, `st.rerun` and the messages shown by `st.error` and `st.success`. Each handler is modelled by its effect on the session state.
- `pd.read_csv`, `json.loads` and `@st.cache_data` are not modelled; they are library parsing and caching. The catalog loop takes already-parsed rows. A missing file is the `SymbolFile.Missing` case, and no other read error is modelled.
- A symbol's `contexts` is a JSON object, so its phrases are distinct keys. The model takes a sequence of (phrase, meaning) pairs and does not require the phrases to be distinct. This covers every dictionary and some inputs besides.
- The quick-symbols panel calls the matcher only when there is text, symbol detection is on and the catalog is not empty (line 209). It shows only the first three results (line 214). Both are display gating and are not modelled.
- The Gemini client (`genai.configure`, `GenerativeModel`, `generate_content`) is abstracted as the `Gate.Upstream` input. The prompt text (lines 231-264) is not modelled, including the "Tidak disebutkan" substitution for an empty life situation.
- `time.time()` and `datetime.now()` become one `now: real` per submission. The real code reads the clock up to three times, microseconds apart. Timestamps are stored as numbers, not datetimes.
- Gate.Call: the remaining wait is rendered by rounding the exact real value half up to one decimal. Python's `{:.1f}` rounds the binary double, so the last digit can differ on ties.
- Text.LowerSpec: `Lower` folds only the ASCII letters A-Z. Python's `str.lower()` also lower-cases other Unicode letters.
- Journal.MostCommon: which of several equally frequent values `max(set(...), key=...)` picks depends on set iteration order. The model states only that the pick has maximal count.
- The progress bar ratio `min(api_calls_today / 250, 1.0)` (line 159) is not modelled.
- The download text and its `strftime` filename (lines 315-322) are not modelled.
- The journal's display of a timestamp as `%d/%m/%Y %H:%M` is not modelled.
- The save and new-interpretation buttons exist only while there is a current result (line 288). `Session.Save` also defines the no-result case, as no change.
- Dictionary equality of entries (`not in` on line 310) is modelled as datatype equality.
