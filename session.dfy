/**
  The per-session state of the page (`st.session_state`) and the three
  handlers that change it: the "Interpretasikan Mimpi Saya" button, the
  "Simpan ke Jurnal" button and the "Interpretasi Baru" button.  The
  transitions are first stated as functions on a `State` value; the class
  `SessionStore` holds the same fields and its methods are proved to make
  exactly those transitions.
 */
module Session {
  import opened Wrappers
  import opened Text
  import Gate
  import opened Journal

  /** The form fields the submit handler reads. */
  datatype Form = Form(dream: string, emotion: Emotion, lifeSituation: string, mode: Mode)

  /** `dream_journal`, `current_interpretation`, `total_interpretations`,
      `api_calls_today` and `last_api_call`. */
  datatype State = State(
    journal: seq<Entry>,
    current: Option<Entry>,
    totalInterpretations: nat,
    apiCallsToday: nat,
    lastApiCall: Option<real>)

  /** A fresh session: empty journal, no result, zero counters, no call yet. */
  const Initial: State := State([], None, 0, 0, None)

  /** The current result, when there is one that the journal does not hold yet. */
  function Unsaved(s: State): nat {
    if s.current.Some? && s.current.value !in s.journal then 1 else 0
  }

  /** Both counters move together, and the journal (with an unsaved current
      result) never holds more entries than interpretations were made. */
  ghost predicate Invariant(s: State) {
    s.totalInterpretations == s.apiCallsToday
    && |s.journal| + Unsaved(s) <= s.totalInterpretations
  }

  /** The submit handler.  Whitespace-only text is rejected and nothing
      changes.  Otherwise the gate runs, its reply becomes the current result
      (advisories included), both counters go up by one, and the result is
      appended to the journal when "Simpan ke jurnal mimpi" is on. */
  function Submit(s: State, form: Form, apiKey: string, saveToJournal: bool, now: real, upstream: Gate.Upstream): (t: State)
    ensures IsBlank(form.dream) ==> t == s
    ensures !IsBlank(form.dream) ==>
      var o := Gate.Call(apiKey, s.lastApiCall, now, upstream);
      && t.current == Some(Entry(form.dream, o.reply, form.emotion, form.lifeSituation, now, form.mode))
      && t.totalInterpretations == s.totalInterpretations + 1
      && t.apiCallsToday == s.apiCallsToday + 1
      && t.lastApiCall == o.lastApiCall
      && |t.journal| == |s.journal| + (if saveToJournal then 1 else 0)
      && s.journal <= t.journal
      && (saveToJournal ==> t.journal[|s.journal|] == t.current.value)
  {
    if IsBlank(form.dream) then s
    else
      var o := Gate.Call(apiKey, s.lastApiCall, now, upstream);
      var entry := Entry(form.dream, o.reply, form.emotion, form.lifeSituation, now, form.mode);
      State(
        if saveToJournal then s.journal + [entry] else s.journal,
        Some(entry),
        s.totalInterpretations + 1,
        s.apiCallsToday + 1,
        o.lastApiCall)
  }

  /** The manual save: the current result is appended only if the journal
      does not already hold it.  (The button exists only while there is a
      current result; without one nothing changes.) */
  function Save(s: State): (t: State)
    ensures s.current.None? ==> t == s
    ensures s.current.Some? ==>
      && t.current == s.current
      && t.current.value in t.journal
      && s.journal <= t.journal
      && |t.journal| == |s.journal| + Unsaved(s)
    ensures t.totalInterpretations == s.totalInterpretations && t.apiCallsToday == s.apiCallsToday
    ensures t.lastApiCall == s.lastApiCall
  {
    match s.current
    case None => s
    case Some(entry) =>
      if entry in s.journal then s else s.(journal := s.journal + [entry])
  }

  /** "Interpretasi Baru": the current result is dropped, nothing else changes. */
  function NewInterpretation(s: State): (t: State)
    ensures t.current.None?
    ensures t.journal == s.journal && t.lastApiCall == s.lastApiCall
    ensures t.totalInterpretations == s.totalInterpretations && t.apiCallsToday == s.apiCallsToday
  {
    s.(current := None)
  }

  /** Saving twice in a row is the same as saving once. */
  lemma SaveIsIdempotent(s: State)
    ensures Save(Save(s)) == Save(s)
  {
  }

  /** Counters are incremented even when the gate answered with the missing-key
      or rate-limit advisory: the result is then shown as an error, the
      limiter's timestamp is untouched, and both counters still go up. */
  lemma AdvisoryStillCounted(s: State, form: Form, apiKey: string, saveToJournal: bool, now: real, upstream: Gate.Upstream)
    requires !IsBlank(form.dream)
    requires apiKey == [] || Gate.Throttled(s.lastApiCall, now)
    ensures var t := Submit(s, form, apiKey, saveToJournal, now, upstream);
      && t.totalInterpretations == s.totalInterpretations + 1
      && t.apiCallsToday == s.apiCallsToday + 1
      && t.lastApiCall == s.lastApiCall
      && Gate.ShownAsError(t.current.value.interpretation)
  {
    Gate.ReplyShownAsError(apiKey, s.lastApiCall, now, upstream);
  }

  /** A submission whose text is not blank, given what the gate returned. */
  lemma SubmitAccepted(s: State, form: Form, apiKey: string, saveToJournal: bool, now: real, upstream: Gate.Upstream,
                       reply: string, last: Option<real>)
    requires !IsBlank(form.dream)
    requires Gate.Call(apiKey, s.lastApiCall, now, upstream) == Gate.Outcome(reply, last)
    ensures var entry := Entry(form.dream, reply, form.emotion, form.lifeSituation, now, form.mode);
      Submit(s, form, apiKey, saveToJournal, now, upstream)
        == State(if saveToJournal then s.journal + [entry] else s.journal, Some(entry),
                 s.totalInterpretations + 1, s.apiCallsToday + 1, last)
  {
  }

  /** One user action on the page. */
  datatype Action =
    | SubmitClicked(form: Form, apiKey: string, saveToJournal: bool, now: real, upstream: Gate.Upstream)
    | SaveClicked
    | NewClicked

  function Step(s: State, a: Action): State {
    match a
    case SubmitClicked(form, apiKey, saveToJournal, now, upstream) =>
      Submit(s, form, apiKey, saveToJournal, now, upstream)
    case SaveClicked => Save(s)
    case NewClicked => NewInterpretation(s)
  }

  /** The session after a sequence of actions. */
  function Run(s: State, actions: seq<Action>): State
    decreases |actions|
  {
    if actions == [] then s else Run(Step(s, actions[0]), actions[1..])
  }

  /** Submissions whose dream text is not blank. */
  function Accepted(actions: seq<Action>): nat
    decreases |actions|
  {
    if actions == [] then 0
    else
      (if actions[0].SubmitClicked? && !IsBlank(actions[0].form.dream) then 1 else 0)
      + Accepted(actions[1..])
  }

  /** Every action keeps the invariant, never removes or edits a journal
      entry, never lowers a counter, and moves the limiter's timestamp only
      forward, by at least the 12-second interval. */
  lemma StepSpec(s: State, a: Action)
    requires Invariant(s)
    ensures var t := Step(s, a);
      && Invariant(t)
      && s.journal <= t.journal
      && t.totalInterpretations == s.totalInterpretations + (if a.SubmitClicked? && !IsBlank(a.form.dream) then 1 else 0)
      && (t.lastApiCall == s.lastApiCall
          || (t.lastApiCall.Some? && (s.lastApiCall.Some? ==> t.lastApiCall.value >= s.lastApiCall.value + Gate.MinInterval)))
  {
    if a.SubmitClicked? && !IsBlank(a.form.dream) {
      Gate.CallSpacing(a.apiKey, s.lastApiCall, a.now, a.upstream);
    }
  }

  /** Over any sequence of actions: the invariant holds, the journal only
      grows at its end, the counters equal their start plus the number of
      accepted submissions (advisories included), and the limiter's
      timestamp never moves backwards. */
  lemma {:induction false} RunSpec(s: State, actions: seq<Action>)
    requires Invariant(s)
    ensures var t := Run(s, actions);
      && Invariant(t)
      && s.journal <= t.journal
      && t.totalInterpretations == s.totalInterpretations + Accepted(actions)
      && (s.lastApiCall.Some? ==> t.lastApiCall.Some? && t.lastApiCall.value >= s.lastApiCall.value)
    decreases |actions|
  {
    if actions != [] {
      StepSpec(s, actions[0]);
      RunSpec(Step(s, actions[0]), actions[1..]);
    }
  }

  /** The session state of one browser session, updated in place by the handlers. */
  class SessionStore {
    var journal: seq<Entry>
    var current: Option<Entry>
    var totalInterpretations: nat
    var apiCallsToday: nat
    var lastApiCall: Option<real>

    function Snapshot(): State
      reads this
    {
      State(journal, current, totalInterpretations, apiCallsToday, lastApiCall)
    }

    ghost predicate Valid()
      reads this
    {
      Invariant(Snapshot())
    }

    /** The `if '...' not in st.session_state` initialisations. */
    constructor ()
      ensures Snapshot() == Initial && Valid()
    {
      journal := [];
      current := None;
      totalInterpretations := 0;
      apiCallsToday := 0;
      lastApiCall := None;
    }

    /** `safe_gemini_call`: reads and writes `last_api_call`. */
    method SafeGeminiCall(apiKey: string, now: real, upstream: Gate.Upstream) returns (reply: string)
      modifies this`lastApiCall
      ensures Gate.Outcome(reply, lastApiCall) == Gate.Call(apiKey, old(lastApiCall), now, upstream)
    {
      ghost var last := lastApiCall;
      if apiKey == [] {
        return Gate.MissingKeyMessage;
      }
      if lastApiCall.Some? {
        var timeDiff := now - lastApiCall.value;
        if timeDiff < Gate.MinInterval {
          assert Gate.Throttled(last, now);
          return Gate.WaitMessage(Gate.MinInterval - timeDiff);
        }
      }
      assert !Gate.Throttled(last, now);
      if !upstream.SetupFailed? {
        lastApiCall := Some(now);
      }
      match upstream
      case Answered(text) => reply := text;
      case SetupFailed(reason) => reply := Gate.ApiErrorMessage(reason);
      case RequestFailed(reason) => reply := Gate.ApiErrorMessage(reason);
    }

    /** The submit handler; `accepted` is false when the dream text was blank. */
    method SubmitDream(form: Form, apiKey: string, saveToJournal: bool, now: real, upstream: Gate.Upstream)
      returns (accepted: bool)
      requires Valid()
      modifies this
      ensures Valid()
      ensures accepted == !IsBlank(form.dream)
      ensures Snapshot() == Submit(old(Snapshot()), form, apiKey, saveToJournal, now, upstream)
    {
      ghost var before := Snapshot();
      var blank := StripIsEmpty(form.dream);
      if blank {
        assert Snapshot() == before;
        return false;
      }
      var interpretation := SafeGeminiCall(apiKey, now, upstream);
      ghost var last := lastApiCall;
      var entry := Entry(form.dream, interpretation, form.emotion, form.lifeSituation, now, form.mode);
      current := Some(entry);
      totalInterpretations := totalInterpretations + 1;
      apiCallsToday := apiCallsToday + 1;
      if saveToJournal {
        journal := journal + [entry];
      }
      accepted := true;
      ghost var t := Submit(before, form, apiKey, saveToJournal, now, upstream);
      SubmitAccepted(before, form, apiKey, saveToJournal, now, upstream, interpretation, last);
      assert t.journal == journal && t.current == current && t.lastApiCall == lastApiCall;
      assert t.totalInterpretations == totalInterpretations && t.apiCallsToday == apiCallsToday;
      assert Snapshot() == t;
      ghost var a := SubmitClicked(form, apiKey, saveToJournal, now, upstream);
      StepSpec(before, a);
      assert Step(before, a) == t;
    }

    /** The "Simpan ke Jurnal" button; `saved` tells whether an entry was appended. */
    method SaveCurrent() returns (saved: bool)
      requires Valid()
      modifies this`journal
      ensures Valid()
      ensures saved <==> old(current).Some? && old(current).value !in old(journal)
      ensures Snapshot() == Save(old(Snapshot()))
    {
      saved := false;
      if current.Some? && current.value !in journal {
        journal := journal + [current.value];
        saved := true;
      }
      StepSpec(old(Snapshot()), SaveClicked);
    }

    /** The "Interpretasi Baru" button. */
    method StartNewInterpretation()
      requires Valid()
      modifies this`current
      ensures Valid()
      ensures Snapshot() == NewInterpretation(old(Snapshot()))
    {
      current := None;
      StepSpec(old(Snapshot()), NewClicked);
    }
  }
}
