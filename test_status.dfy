/**
 * The test-status provider's poll: it fetches the active test state, keeps
 * it, and announces a newly completed test with a toast, using a high-water
 * mark (the time of the last completion it has seen) so that a completion is
 * announced at most once.
 *
 * The network and the clock are inputs: a poll receives what the fetch
 * produced (or that it failed) and the current time in seconds. The toast's
 * rendering is reduced to its texts, its variant and the link it offers.
 */
module TestStatus {
  import opened Wrappers

  /** `last_completed`: which test finished, with what status, at what time (seconds). */
  datatype Completion = Completion(test: string, status: string, time: real)

  /** The part of the active test state the provider reads; the state's other fields are not modelled. */
  datatype ActiveTestState = ActiveTestState(lastCompleted: Option<Completion>)

  /** What a poll's fetch produced: the decoded state, or an error (network or JSON) caught by the handler. */
  datatype Response = Fetched(state: ActiveTestState) | FetchFailed

  datatype Variant = DefaultVariant | Destructive

  datatype Toast = Toast(title: string, description: string, variant: Variant, className: string, actionHref: string)

  /** A completion is new when it is later than the mark. */
  predicate IsNew(mark: real, c: Completion)
  {
    c.time > mark
  }

  /**
   * A new completion is announced when it is less than 60 s old, and, while
   * the mark is still its initial 0, only when it is less than 10 s old.
   */
  predicate ShouldAnnounce(mark: real, now: real, c: Completion)
  {
    IsNew(mark, c) && now - c.time < 60.0 && (mark > 0.0 || now - c.time < 10.0)
  }

  /** The toast for a completion: a pass reads "Test Passed" in the default style, anything else "Test Failed" in the destructive one. */
  function ToastFor(c: Completion): (t: Toast)
    ensures t.title == "Test Passed" <==> c.status == "PASS"
    ensures t.title == "Test Failed" <==> c.status != "PASS"
    ensures t.variant == DefaultVariant <==> c.status == "PASS"
    ensures t.className == "" <==> c.status != "PASS"
    ensures t.description == "Test \"" + c.test + "\" completed." && t.actionHref == "/reports"
  {
    var pass := c.status == "PASS";
    Toast(
      if pass then "Test Passed" else "Test Failed",
      "Test \"" + c.test + "\" completed.",
      if pass then DefaultVariant else Destructive,
      if pass then "border-success text-success" else "",
      "/reports")
  }

  /** The mark after a poll: the completion's time when it is new, announced or not; otherwise unchanged. */
  function NextMark(mark: real, response: Response): (m: real)
    ensures m >= mark
    ensures m != mark ==> (response.Fetched? && response.state.lastCompleted.Some?
      && m == response.state.lastCompleted.value.time)
  {
    if response.Fetched? && response.state.lastCompleted.Some? && IsNew(mark, response.state.lastCompleted.value)
    then response.state.lastCompleted.value.time
    else mark
  }

  /** The toast a poll shows, if any. */
  function Announcement(mark: real, now: real, response: Response): (t: Option<Toast>)
    ensures t.Some? <==> (response.Fetched? && response.state.lastCompleted.Some?
      && ShouldAnnounce(mark, now, response.state.lastCompleted.value))
    ensures t.Some? ==> t.value == ToastFor(response.state.lastCompleted.value)
  {
    if response.Fetched? && response.state.lastCompleted.Some?
      && ShouldAnnounce(mark, now, response.state.lastCompleted.value)
    then Some(ToastFor(response.state.lastCompleted.value))
    else None
  }

  class StatusProvider {
    var execution: Option<ActiveTestState>
    var lastCompletedMark: real

    /** The provider as mounted: no state yet and the mark at 0. */
    constructor ()
      ensures execution.None? && lastCompletedMark == 0.0
    {
      execution := None;
      lastCompletedMark := 0.0;
    }

    /** `poll`: keep the fetched state, decide on the toast, and advance the mark over a new completion. */
    method Poll(response: Response, now: real) returns (toast: Option<Toast>)
      modifies this
      ensures toast == Announcement(old(lastCompletedMark), now, response)
      ensures lastCompletedMark == NextMark(old(lastCompletedMark), response)
      ensures execution == if response.Fetched? then Some(response.state) else old(execution)
    {
      toast := None;
      if response.Fetched? {
        var data := response.state;
        execution := Some(data);
        if data.lastCompleted.Some? && data.lastCompleted.value.time > lastCompletedMark {
          var c := data.lastCompleted.value;
          if now - c.time < 60.0 {
            if lastCompletedMark > 0.0 || now - c.time < 10.0 {
              toast := Some(ToastFor(c));
            }
          }
          lastCompletedMark := c.time;
        }
      }
    }
  }

  /** A completion that is not later than the mark is never announced, and after any poll it is not later than the new mark. */
  lemma SeenNeverAnnounced(mark: real, now: real, later: real, response: Response)
    requires response.Fetched? && response.state.lastCompleted.Some?
    ensures var c := response.state.lastCompleted.value;
      !ShouldAnnounce(NextMark(mark, response), later, c)
      && Announcement(NextMark(mark, response), later, response).None?
  {
  }

  /** A completion at least 60 s old is never announced, whatever the mark. */
  lemma StaleNeverAnnounced(mark: real, now: real, c: Completion)
    requires now - c.time >= 60.0
    ensures !ShouldAnnounce(mark, now, c)
  {
  }

  /** One poll of a series: the response and the time it was handled. */
  datatype PollEvent = PollEvent(response: Response, now: real)

  /** The mark after a series of polls. */
  function FinalMark(mark: real, polls: seq<PollEvent>): real
    decreases |polls|
  {
    if |polls| == 0 then mark else FinalMark(NextMark(mark, polls[0].response), polls[1..])
  }

  /** The completion times announced by a series of polls, in order. */
  function AnnouncedTimes(mark: real, polls: seq<PollEvent>): seq<real>
    decreases |polls|
  {
    if |polls| == 0 then []
    else
      var rest := AnnouncedTimes(NextMark(mark, polls[0].response), polls[1..]);
      if Announcement(mark, polls[0].now, polls[0].response).Some?
      then [polls[0].response.state.lastCompleted.value.time] + rest
      else rest
  }

  /** The mark never goes down over a series of polls. */
  lemma {:induction false} MarkMonotone(mark: real, polls: seq<PollEvent>)
    ensures FinalMark(mark, polls) >= mark
    decreases |polls|
  {
    if |polls| > 0 {
      MarkMonotone(NextMark(mark, polls[0].response), polls[1..]);
    }
  }

  /** Every time in `ts` is later than `low` and not later than `high`. */
  predicate Within(ts: seq<real>, low: real, high: real)
  {
    forall i :: 0 <= i < |ts| ==> low < ts[i] <= high
  }

  predicate StrictlyIncreasing(ts: seq<real>)
  {
    forall i, j :: 0 <= i < j < |ts| ==> ts[i] < ts[j]
  }

  /** A time later than `low`, in front of later times up to `high`, keeps them within bounds and increasing. */
  lemma PrependEarlier(t: real, rest: seq<real>, low: real, high: real)
    requires low < t <= high && Within(rest, t, high) && StrictlyIncreasing(rest)
    ensures Within([t] + rest, low, high) && StrictlyIncreasing([t] + rest)
  {
    var ts := [t] + rest;
    assert forall i :: 0 < i < |ts| ==> ts[i] == rest[i - 1];
  }

  lemma WithinWider(ts: seq<real>, low: real, mid: real, high: real)
    requires low <= mid && Within(ts, mid, high)
    ensures Within(ts, low, high)
  {
  }

  /**
   * Over any series of polls, the announced completion times are all later
   * than the starting mark, not later than the final mark, and strictly
   * increasing: no completion is announced twice.
   */
  lemma {:induction false} AnnouncedOnce(mark: real, polls: seq<PollEvent>)
    ensures Within(AnnouncedTimes(mark, polls), mark, FinalMark(mark, polls))
    ensures StrictlyIncreasing(AnnouncedTimes(mark, polls))
    decreases |polls|
  {
    if |polls| > 0 {
      var next := NextMark(mark, polls[0].response);
      AnnouncedOnce(next, polls[1..]);
      MarkMonotone(next, polls[1..]);
      var rest := AnnouncedTimes(next, polls[1..]);
      var high := FinalMark(mark, polls);
      assert high == FinalMark(next, polls[1..]);
      if Announcement(mark, polls[0].now, polls[0].response).Some? {
        var t := polls[0].response.state.lastCompleted.value.time;
        assert next == t && mark < t;
        assert AnnouncedTimes(mark, polls) == [t] + rest;
        PrependEarlier(t, rest, mark, high);
      } else {
        assert AnnouncedTimes(mark, polls) == rest;
        WithinWider(rest, mark, next, high);
      }
    }
  }
}
