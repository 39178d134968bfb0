/**
 * The search debounce shared by App.jsx and hooks/index.js: each change of
 * the query text cancels the pending timer (`clearTimeout`) and schedules a
 * new one (`setTimeout`) that runs the search with the latest text once the
 * quiet period has passed. Time is an explicit parameter in milliseconds.
 */
module Debounce {
  import opened Nodes

  /** A scheduled search: the query text and the time at which the timer fires. */
  datatype Pending = Pending(query: string, due: int)

  /** One change of the query text at time `at`. */
  datatype Input = Input(at: int, text: string)

  /** A search run by an expired timer. */
  datatype Dispatch = Dispatch(at: int, query: string)

  /** The timer that fires when time `now` is reached, if any. */
  function Fired(pending: Option<Pending>, now: int): (d: Option<Dispatch>)
    ensures d.Some? <==> pending.Some? && pending.value.due <= now
    ensures d.Some? ==> d.value == Dispatch(pending.value.due, pending.value.query)
  {
    if pending.Some? && pending.value.due <= now then
      Some(Dispatch(pending.value.due, pending.value.query))
    else None
  }

  /** What is still pending once time `now` is reached: nothing if the timer fired. */
  function Remaining(pending: Option<Pending>, now: int): (p: Option<Pending>)
    ensures Fired(pending, now).Some? ==> p == None
    ensures Fired(pending, now).None? ==> p == pending
  {
    if Fired(pending, now).Some? then None else pending
  }

  /** The timer reference: at most one scheduled search. */
  class Timer {
    var pending: Option<Pending>

    constructor ()
      ensures pending == None
    {
      pending := None;
    }

    /** `clearTimeout` followed by `setTimeout(..., delay)` at time `now`. */
    method Reschedule(query: string, now: int, delay: int)
      modifies this
      ensures pending == Some(Pending(query, now + delay))
    {
      pending := Some(Pending(query, now + delay));
    }

    /** Time advances to `now`; an expired timer fires once and is gone. */
    method Elapse(now: int) returns (fired: Option<Dispatch>)
      modifies this
      ensures fired == Fired(old(pending), now)
      ensures pending == Remaining(old(pending), now)
    {
      fired := None;
      if pending.Some? && pending.value.due <= now {
        fired := Some(Dispatch(pending.value.due, pending.value.query));
        pending := None;
      }
    }
  }

  /**
   * Input k is followed by a quiet period: it is the last input, or the next
   * one comes no earlier than its timer's due time.
   */
  predicate Quiet(inputs: seq<Input>, delay: int, k: nat)
    requires k < |inputs|
  {
    k == |inputs| - 1 || inputs[k + 1].at >= inputs[k].at + delay
  }

  /** The searches a debounced input stream should run: one per quiet input, `delay` after it. */
  function Dispatches(inputs: seq<Input>, delay: int, n: nat): seq<Dispatch>
    requires n <= |inputs|
  {
    if n == 0 then []
    else
      Dispatches(inputs, delay, n - 1)
      + (if Quiet(inputs, delay, n - 1) then [Dispatch(inputs[n - 1].at + delay, inputs[n - 1].text)] else [])
  }

  /**
   * The first n inputs fed to a `Timer`, as the handler does: before the input
   * at time t is handled, a timer due at or before t has already fired.
   * Result: what is pending afterwards and the searches that ran.
   */
  function Run(inputs: seq<Input>, delay: int, n: nat): (Option<Pending>, seq<Dispatch>)
    requires n <= |inputs|
  {
    if n == 0 then (None, [])
    else
      var (pending, ran) := Run(inputs, delay, n - 1);
      var fired := Fired(pending, inputs[n - 1].at);
      (Some(Pending(inputs[n - 1].text, inputs[n - 1].at + delay)),
       ran + (if fired.Some? then [fired.value] else []))
  }

  /** Every input fed to the timer, after which time runs on until the last timer fires. */
  function Timeline(inputs: seq<Input>, delay: int): (ran: seq<Dispatch>)
  {
    var (pending, ran) := Run(inputs, delay, |inputs|);
    ran + (if pending.Some? then [Dispatch(pending.value.due, pending.value.query)] else [])
  }

  lemma {:induction false} RunInvariant(inputs: seq<Input>, delay: int, n: nat)
    requires 0 < n <= |inputs|
    ensures Run(inputs, delay, n).0 == Some(Pending(inputs[n - 1].text, inputs[n - 1].at + delay))
    ensures Run(inputs, delay, n).1 == Dispatches(inputs, delay, n - 1)
  {
    if n > 1 {
      RunInvariant(inputs, delay, n - 1);
    }
  }

  /**
   * Cancel-and-reschedule debouncing runs exactly one search per input that is
   * followed by a quiet period, with that input's text, `delay` after it.
   */
  lemma DebounceRunsQuietInputs(inputs: seq<Input>, delay: int)
    ensures Timeline(inputs, delay) == Dispatches(inputs, delay, |inputs|)
  {
    if |inputs| > 0 {
      RunInvariant(inputs, delay, |inputs|);
    }
  }

  /**
   * A `Timer` driven through the inputs as the handler drives it: time moves
   * to each input (an expired timer fires first) and the input reschedules
   * the search; then time runs on until the last timer fires. The searches
   * it runs are exactly one per quiet input.
   */
  method DebouncedSearches(inputs: seq<Input>, delay: int) returns (ran: seq<Dispatch>)
    ensures ran == Timeline(inputs, delay)
    ensures ran == Dispatches(inputs, delay, |inputs|)
  {
    var timer := new Timer();
    ran := [];
    var n := 0;
    while n < |inputs|
      invariant 0 <= n <= |inputs|
      invariant timer.pending == Run(inputs, delay, n).0 && ran == Run(inputs, delay, n).1
    {
      var fired := timer.Elapse(inputs[n].at);
      if fired.Some? {
        ran := ran + [fired.value];
      }
      timer.Reschedule(inputs[n].text, inputs[n].at, delay);
      n := n + 1;
    }
    if timer.pending.Some? {
      var last := timer.Elapse(timer.pending.value.due);
      ran := ran + [last.value];
    }
    DebounceRunsQuietInputs(inputs, delay);
  }

  /** Inputs at 0, 100 and 150 ms with a 300 ms delay run one search, with the last text, at 450 ms. */
  lemma ThreeQuickInputsRunOneSearch()
    ensures Timeline([Input(0, "f"), Input(100, "fo"), Input(150, "foo")], 300) == [Dispatch(450, "foo")]
  {
    var inputs := [Input(0, "f"), Input(100, "fo"), Input(150, "foo")];
    DebounceRunsQuietInputs(inputs, 300);
    assert !Quiet(inputs, 300, 0) && !Quiet(inputs, 300, 1) && Quiet(inputs, 300, 2);
  }
}
