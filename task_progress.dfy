/**
 * The task progress panel: the progress ratio, when the bar is shown, and
 * the effect that polls the task and reports its end to the parent through
 * `onComplete` / `onError`.
 */
module TaskProgress {
  import opened Wrappers
  import opened ApiClient

  const PollInterval := 2000
  const FallbackErrorText := "Failed to process document"
  const ProcessingStatus := "processing"

  /** The progress percentage; 0 while the total is not yet known. */
  function Progress(s: TaskStatus): (p: real)
    ensures s.totalChunks <= 0 ==> p == 0.0
    ensures s.totalChunks > 0 ==> p * (s.totalChunks as real) == (s.chunksProcessed as real) * 100.0
  {
    if s.totalChunks > 0 then (s.chunksProcessed as real) / (s.totalChunks as real) * 100.0 else 0.0
  }

  /** With at most as many chunks processed as there are, progress lies between 0 and 100. */
  lemma ProgressWithinBounds(s: TaskStatus)
    requires 0 <= s.chunksProcessed <= s.totalChunks
    ensures 0.0 <= Progress(s) <= 100.0
  {
    if s.totalChunks > 0 {
      RatioAtMostOne(s.chunksProcessed as real, s.totalChunks as real);
    }
  }

  lemma RatioAtMostOne(c: real, t: real)
    requires 0.0 <= c <= t && t > 0.0
    ensures 0.0 <= c / t <= 1.0
  {
    assert c / t * t == c;
  }

  /**
   * The progress bar is shown only for a task that is still processing; such
   * a status never ends the polling.
   */
  predicate ShowsProgressBar(s: TaskStatus)
    ensures ShowsProgressBar(s) ==> s.status != CompletedStatus && s.status != FailedStatus
    ensures ShowsProgressBar(s) ==> !Ends(Success(s))
  {
    s.status == ProcessingStatus
  }

  /** `error.message || 'Failed to process document'`. */
  function ErrorText(reason: Thrown): (text: string)
    ensures reason.Api? ==> text == FallbackErrorText
    ensures reason.JsError? && reason.message != "" ==> text == reason.message
    ensures reason.JsError? && reason.message == "" ==> text == FallbackErrorText
  {
    Or(reason.Message(), FallbackErrorText)
  }

  /** A call the panel makes to its parent. */
  datatype Notice = Completed | Failed(text: string)

  /** The callbacks a poll outcome leads to: none while polling goes on. */
  function NoticesFor(outcome: PollOutcome): (ns: seq<Notice>)
    ensures outcome.Resolved? ==> ns == [Completed]
    ensures outcome.Rejected? ==> ns == [Failed(ErrorText(outcome.reason))]
    ensures outcome.StillPolling? ==> ns == []
  {
    match outcome
    case Resolved(_) => [Completed]
    case Rejected(reason) => [Failed(ErrorText(reason))]
    case StillPolling => []
  }

  function Last<T>(xs: seq<T>): T
    requires xs != []
  {
    xs[|xs| - 1]
  }

  /**
   * When polling resolves, the last status handed to the panel is the
   * completed one, so the panel ends without a progress bar.
   */
  lemma {:induction false} ResolvedTaskHidesProgressBar(script: seq<PollResult>, interval: int)
    requires PollSpec(script, true, interval).outcome.Resolved?
    ensures var t := PollSpec(script, true, interval);
      t.reported != [] && Last(t.reported) == t.outcome.final && !ShowsProgressBar(Last(t.reported))
    decreases |script|
  {
    var first := script[0];
    if !Ends(first) {
      ResolvedTaskHidesProgressBar(script[1..], interval);
      var rest := PollSpec(script[1..], true, interval);
      var shown := if first.Success? then [first.value] else [];
      assert Last(shown + rest.reported) == Last(rest.reported);
    }
  }

  /** The `TaskProgress` component of one task. */
  class TaskProgressView {
    const taskId: string
    var status: Option<TaskStatus>
    var notices: seq<Notice>

    constructor (taskId: string)
      ensures this.taskId == taskId && status == None && notices == []
    {
      this.taskId := taskId;
      status := None;
      notices := [];
    }

    /**
     * The effect: poll every 2000 time units, store every reported status,
     * then call `onComplete` on resolution or `onError` on rejection.
     */
    method RunEffect(script: seq<PollResult>) returns (requested: seq<string>, delays: seq<int>)
      modifies this
      ensures var t := PollSpec(script, true, PollInterval);
        |requested| == t.requests && delays == t.delays &&
        status == (if t.reported == [] then old(status) else Some(Last(t.reported))) &&
        notices == old(notices) + NoticesFor(t.outcome)
      ensures forall k :: 0 <= k < |requested| ==> requested[k] == PathOf(GetTaskStatus(taskId))
      ensures forall k :: 0 <= k < |delays| ==> delays[k] == PollInterval
    {
      var outcome, reported;
      outcome, requested, reported, delays := PollTaskStatus(taskId, script, true, Some(PollInterval));
      if reported != [] {
        status := Some(reported[|reported| - 1]);
      }
      match outcome {
        case Resolved(_) =>
          notices := notices + [Completed];
        case Rejected(reason) =>
          notices := notices + [Failed(ErrorText(reason))];
        case StillPolling =>
      }
    }
  }

  /** A failed status request surfaces as the fallback text, since an `ApiError` has no message. */
  lemma TransportFailureShowsFallback(e: ApiError, tail: seq<PollResult>)
    ensures NoticesFor(PollSpec([Failure(e)] + tail, true, PollInterval).outcome) == [Failed(FallbackErrorText)]
  {
  }

  /** A failed task surfaces with the server's message when it has one. */
  lemma FailedTaskShowsItsMessage(s: TaskStatus, tail: seq<PollResult>)
    requires s.status == FailedStatus && s.message != ""
    ensures NoticesFor(PollSpec([Success(s)] + tail, true, PollInterval).outcome) == [Failed(s.message)]
  {
  }
}
