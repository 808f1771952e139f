/**
  The decision part of `safe_gemini_call`: a missing API key is reported
  first, then the single-timestamp rate limiter (12 seconds between calls),
  and only then is the generative-text service called.  The timestamp is
  written after the client is configured and before the request is sent,
  so a request that fails still counts against the limiter.  Every outcome
  is a string; advisories are recognised by their leading marker.
 */
module Gate {
  import opened Wrappers
  import opened Text

  /** Seconds that must pass between two recorded calls (5 requests a minute). */
  const MinInterval: real := 12.0

  /** The reserved leading markers: warning sign, hourglass and cross. */
  const WarningMarker: string := "\U{26A0}\U{FE0F}"
  const HourglassMarker: string := "\U{23F3}"
  const CrossMarker: string := "\U{274C}"

  const MissingKeyMessage: string :=
    WarningMarker + " API Key Gemini belum dimasukkan. Silakan masukkan di sidebar."

  /** The decimal digits of `n`. */
  function Digits(n: nat): (r: string)
    ensures r != []
  {
    if n < 10 then ["0123456789"[n]] else Digits(n / 10) + ["0123456789"[n % 10]]
  }

  /** `{:.1f}` for a positive number of seconds, rounding the exact value to
      the nearest tenth (half up). */
  function OneDecimal(seconds: real): string
    requires seconds > 0.0
  {
    var tenths := (seconds * 10.0 + 0.5).Floor;
    Digits(tenths / 10) + "." + Digits(tenths % 10)
  }

  function WaitMessage(remaining: real): string
    requires remaining > 0.0
  {
    HourglassMarker + " Tunggu " + OneDecimal(remaining) + " detik lagi untuk menghindari batas API..."
  }

  function ApiErrorMessage(reason: string): string {
    CrossMarker + " Error calling Gemini API: " + reason
  }

  /** What the generative-text service does with the request: the client
      set-up (`configure`, `GenerativeModel`) raises, the request itself (or
      reading its text) raises, or it answers with a text. */
  datatype Upstream = SetupFailed(reason: string) | RequestFailed(reason: string) | Answered(text: string)

  /** The reply handed back and the limiter's timestamp afterwards. */
  datatype Outcome = Outcome(reply: string, lastApiCall: Option<real>)

  /** A call at time `now` is held back by the limiter. */
  predicate Throttled(lastApiCall: Option<real>, now: real) {
    lastApiCall.Some? && now - lastApiCall.value < MinInterval
  }

  /** `safe_gemini_call(prompt, api_key)` with the clock read as `now`, the
      stored `last_api_call` and the service's behaviour as inputs. */
  function Call(apiKey: string, lastApiCall: Option<real>, now: real, upstream: Upstream): (o: Outcome)
    // the missing key is checked first, whatever the limiter holds
    ensures apiKey == [] ==> o == Outcome(MissingKeyMessage, lastApiCall)
    // then the limiter: nothing changes and the remaining wait is reported
    ensures apiKey != [] && Throttled(lastApiCall, now) ==>
      o == Outcome(WaitMessage(MinInterval - (now - lastApiCall.value)), lastApiCall)
    // otherwise the timestamp is recorded unless the client could not be set up,
    // and a failure is turned into a cross-marked advisory
    ensures apiKey != [] && !Throttled(lastApiCall, now) ==>
      && o.lastApiCall == (if upstream.SetupFailed? then lastApiCall else Some(now))
      && o.reply == (if upstream.Answered? then upstream.text else ApiErrorMessage(upstream.reason))
  {
    if apiKey == [] then
      Outcome(MissingKeyMessage, lastApiCall)
    else if Throttled(lastApiCall, now) then
      Outcome(WaitMessage(MinInterval - (now - lastApiCall.value)), lastApiCall)
    else
      match upstream
      case SetupFailed(reason) => Outcome(ApiErrorMessage(reason), lastApiCall)
      case RequestFailed(reason) => Outcome(ApiErrorMessage(reason), Some(now))
      case Answered(text) => Outcome(text, Some(now))
  }

  /** The limiter only ever moves its timestamp forward, and by at least
      the interval: two recorded calls are never closer than 12 seconds,
      whatever the clock readings. */
  lemma CallSpacing(apiKey: string, lastApiCall: Option<real>, now: real, upstream: Upstream)
    ensures var o := Call(apiKey, lastApiCall, now, upstream);
      o.lastApiCall == lastApiCall
      || (o.lastApiCall == Some(now) && (lastApiCall.Some? ==> now >= lastApiCall.value + MinInterval))
  {
  }

  /** A call that reaches the service is recorded even when the request fails. */
  lemma FailedRequestStillCounts(apiKey: string, lastApiCall: Option<real>, now: real, reason: string)
    requires apiKey != [] && !Throttled(lastApiCall, now)
    ensures Call(apiKey, lastApiCall, now, RequestFailed(reason)).lastApiCall == Some(now)
  {
  }

  /** How the result panel shows an interpretation: as an error exactly when
      it starts with one of the three reserved markers. */
  predicate ShownAsError(interpretation: string) {
    StartsWith(interpretation, WarningMarker)
    || StartsWith(interpretation, HourglassMarker)
    || StartsWith(interpretation, CrossMarker)
  }

  lemma MarkedShownAsError(marker: string, rest: string)
    requires marker == WarningMarker || marker == HourglassMarker || marker == CrossMarker
    ensures ShownAsError(marker + rest)
  {
    assert (marker + rest)[..|marker|] == marker;
  }

  /** Every advisory of the gate is shown as an error; a text from the
      service is shown as an error only if it happens to start with a marker. */
  lemma ReplyShownAsError(apiKey: string, lastApiCall: Option<real>, now: real, upstream: Upstream)
    ensures ShownAsError(Call(apiKey, lastApiCall, now, upstream).reply)
            <==> !(apiKey != [] && !Throttled(lastApiCall, now) && upstream.Answered?)
                 || ShownAsError(upstream.text)
  {
    var o := Call(apiKey, lastApiCall, now, upstream);
    if apiKey == [] {
      MarkedShownAsError(WarningMarker, MissingKeyMessage[|WarningMarker|..]);
      assert MissingKeyMessage == WarningMarker + MissingKeyMessage[|WarningMarker|..];
    } else if Throttled(lastApiCall, now) {
      var m := WaitMessage(MinInterval - (now - lastApiCall.value));
      MarkedShownAsError(HourglassMarker, m[|HourglassMarker|..]);
      assert m == HourglassMarker + m[|HourglassMarker|..];
    } else if !upstream.Answered? {
      MarkedShownAsError(CrossMarker, o.reply[|CrossMarker|..]);
      assert o.reply == CrossMarker + o.reply[|CrossMarker|..];
    }
  }
}
