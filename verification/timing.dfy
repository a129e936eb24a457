/** When frames are shown, whatever the network does and whoever else talks to the sink. */
module Timing {
  import opened Arithmetic
  import opened Clock
  import S = SinkSpec
  import R = SourceSpec
  import opened SinkSteps
  import opened System
  import opened FifoOrder
  import opened Handshake

  /** When the current frame began to be due: frame `p` since the borrow is due `p` durations after
      the first of them was shown. */
  function DueSince(y: Sys): int {
    y.past.firstShow + (y.past.shown - 1) * y.sink.frameMs
  }

  /** A frame is asked for within a revolution of the clock after the last one was due, and not
      while the virtual clock reads as "no time set". */
  predicate Clocked(y: Sys, ev: Event) {
    ev.SinkShow? && Ours(y) && y.past.shown > 0 ==> y.sink.origin != NULL_TIME && ev.at - DueSince(y) < TWO_32
  }

  predicate ClockedRun(y: Sys, evs: seq<Event>)
    decreases |evs|
  {
    evs == [] || (Clocked(y, evs[0]) && ClockedRun(Step(y, evs[0]), evs[1..]))
  }

  /** The virtual clock is right, and no frame was shown before its time. */
  ghost predicate OnTime(y: Sys) {
    Ours(y) ==>
      && y.sink.frameMs > 0
      && (y.past.shown == 0 ==> y.sink.origin == NULL_TIME)
      && (y.past.shown > 0 ==> y.sink.origin == Stamp(DueSince(y)) && DueSince(y) <= y.now)
  }

  lemma OnTimeAfterTurn(y: Sys, ev: Event)
    requires OnTime(y) && Legal(y, ev) && ev.SinkTurn?
    ensures OnTime(Step(y, ev))
  {
    TurnOnQueue(y.sink, Received(y, ev.pick), ev.sclk);
  }

  lemma OnTimeAfterShow(y: Sys, ev: Event)
    requires OnTime(y) && Legal(y, ev) && Clocked(y, ev) && ev.SinkShow? && Ours(y)
    ensures var z := Step(y, ev);
            && OnTime(z) && Ours(z)
            && (z.sink.queue != [] ==> z.past.shown > 0 && ev.at <= DueSince(z) + z.sink.frameMs)
  {
    if !S.NothingToShow(y.sink) && y.past.shown > 0 {
      PlaybackInTrueTime(y.sink, DueSince(y), ev.at);
      SplitMultiple(y.past.shown - 1, Taken(y.sink, Stamp(ev.at)), y.sink.frameMs);
    }
  }

  lemma OnTimeKept(y: Sys, ev: Event)
    requires OnTime(y) && Legal(y, ev) && Clocked(y, ev)
    ensures OnTime(Step(y, ev))
  {
    match ev
    case SinkTurn(_, _) => OnTimeAfterTurn(y, ev);
    case SinkStranger(sender, reqs, clk) => StrangersUpdate(y.sink, reqs, sender, clk, y.srcEp);
    case SinkShow(at) =>
      if Ours(y) {
        OnTimeAfterShow(y, ev);
      } else if !S.NothingToShow(y.sink) && y.sink.origin != NULL_TIME {
        CatchUpKeeps(y.sink, Stamp(at));
      }
    case _ =>
  }

  lemma {:induction false} OnTimeOverRun(y: Sys, evs: seq<Event>)
    requires OnTime(y) && LegalRun(y, evs) && ClockedRun(y, evs)
    ensures OnTime(RunSys(y, evs))
    decreases |evs|
  {
    if evs != [] {
      OnTimeKept(y, evs[0]);
      OnTimeOverRun(Step(y, evs[0]), evs[1..]);
    }
  }

  /** Over every run in which the virtual clock is never asked when it reads as "no time set": a
      call at the instant `at` shows no frame before it is due, and unless it empties the queue it
      shows the very frame that is due, frame `p` from `p` to `p + 1` durations after the first. */
  lemma ShownOnTime(y: Sys, spec: R.Spec, first: int, sent: int, evs: seq<Event>, at: int)
    requires Initial(y, spec, first, sent) && LegalRun(y, evs) && ClockedRun(y, evs)
    requires var z := RunSys(y, evs); Ours(z) && Legal(z, SinkShow(at)) && Clocked(z, SinkShow(at))
    ensures var z := Step(RunSys(y, evs), SinkShow(at));
            && (z.past.shown > 0 ==> DueSince(z) <= at)
            && (z.sink.queue != [] ==> z.past.shown > 0 && at <= DueSince(z) + z.sink.frameMs)
  {
    OnTimeOverRun(y, evs);
    OnTimeAfterShow(RunSys(y, evs), SinkShow(at));
  }
}
