/** The hook contract between a hiredis async context and an event-loop adapter: the six
    hooks an adapter registers, and what a trace of hook calls means. Every adapter module
    is proved against the functions on traces defined here. */
module Hooks {

  datatype Timeval = Timeval(sec: nat, usec: nat)

  datatype Hook =
    | AddRead | DelRead | AddWrite | DelWrite
    | ScheduleTimer(tv: Timeval)
    | Cleanup

  /** One entry of a trace. `Call` is a hook call together with what its environment answered:
      whether the event library accepted the request, and the clock reading. `Fired` marks the
      event library delivering a timeout. */
  datatype Event =
    | Call(hook: Hook, ok: bool, now: real)
    | Fired

  datatype Direction = Reading | Writing

  /** Interest in a descriptor, and the two-bit masks in which the event libraries express it. */
  datatype Interest = Interest(read: bool, write: bool) {
    function Or(m: Interest): Interest { Interest(read || m.read, write || m.write) }

    function And(m: Interest): Interest { Interest(read && m.read, write && m.write) }

    function AndNot(m: Interest): Interest { Interest(read && !m.read, write && !m.write) }
  }

  const NO_INTEREST := Interest(false, false)
  const READ := Interest(true, false)
  const WRITE := Interest(false, true)

  /** The two-flag machine that all adapters refine. */
  function Apply(i: Interest, e: Event): Interest {
    match e
    case Fired => i
    case Call(AddRead, _, _) => i.(read := true)
    case Call(DelRead, _, _) => i.(read := false)
    case Call(AddWrite, _, _) => i.(write := true)
    case Call(DelWrite, _, _) => i.(write := false)
    case Call(ScheduleTimer(_), _, _) => i
    case Call(Cleanup, _, _) => NO_INTEREST
  }

  function Fold(trace: seq<Event>): Interest {
    if trace == [] then NO_INTEREST
    else Apply(Fold(trace[..|trace| - 1]), trace[|trace| - 1])
  }

  lemma FoldAppend(trace: seq<Event>, e: Event)
    ensures Fold(trace + [e]) == Apply(Fold(trace), e)
  {
    assert (trace + [e])[..|trace|] == trace;
  }

  predicate Sets(e: Event, d: Direction) {
    e.Call? && e.hook == if d.Reading? then AddRead else AddWrite
  }

  predicate Clears(e: Event, d: Direction) {
    e.Call? && (e.hook.Cleanup? || e.hook == if d.Reading? then DelRead else DelWrite)
  }

  /** What a caller means by "interested": an add that nothing after it took back. */
  ghost predicate Outstanding(trace: seq<Event>, d: Direction) {
    exists i | 0 <= i < |trace| ::
      Sets(trace[i], d) && forall j | i < j < |trace| :: !Clears(trace[j], d)
  }

  lemma {:induction false} FoldMeaning(trace: seq<Event>)
    ensures Fold(trace).read <==> Outstanding(trace, Reading)
    ensures Fold(trace).write <==> Outstanding(trace, Writing)
  {
    if trace != [] {
      var init := trace[..|trace| - 1];
      FoldMeaning(init);
      OutstandingStep(init, trace[|trace| - 1], Reading);
      OutstandingStep(init, trace[|trace| - 1], Writing);
      assert init + [trace[|trace| - 1]] == trace;
    }
  }

  lemma OutstandingStep(trace: seq<Event>, e: Event, d: Direction)
    ensures Outstanding(trace + [e], d) <==>
            Sets(e, d) || (Outstanding(trace, d) && !Clears(e, d))
  {
    var all := trace + [e];
    if Sets(e, d) {
      assert Sets(all[|trace|], d);
    }
    if Outstanding(trace, d) && !Clears(e, d) {
      var i :| 0 <= i < |trace| && Sets(trace[i], d)
               && forall j | i < j < |trace| :: !Clears(trace[j], d);
      assert Sets(all[i], d) && forall j | i < j < |all| :: !Clears(all[j], d);
    }
    if Outstanding(all, d) && !Sets(e, d) {
      var i :| 0 <= i < |all| && Sets(all[i], d)
               && forall j | i < j < |all| :: !Clears(all[j], d);
      assert all[|trace|] == e;
      assert Sets(trace[i], d);
      forall j | i < j < |trace| ensures !Clears(trace[j], d) {
        assert all[j] == trace[j];
      }
    }
  }

  /** A script is the sequence of hook calls a callback into the context makes. The context's
      side of the contract: it only calls hooks, and calls cleanup last if at all. */
  ghost predicate Lawful(script: seq<Event>) {
    && (forall i | 0 <= i < |script| :: script[i].Call?)
    && (forall i | 0 <= i < |script| - 1 :: !script[i].hook.Cleanup?)
  }

  /** The trace ends with the context being torn down. */
  predicate Ends(trace: seq<Event>) {
    trace != [] && trace[|trace| - 1].Call? && trace[|trace| - 1].hook.Cleanup?
  }

  /** The history after a handler that may run: it runs only if its condition holds and nothing
      has torn the context down yet. */
  function Then(history: seq<Event>, enabled: bool, script: seq<Event>): seq<Event> {
    if enabled && !Ends(history) then history + script else history
  }

  lemma ThenAdds(history: seq<Event>, enabled: bool, script: seq<Event>)
    ensures Then(history, enabled, script) == history + if enabled && !Ends(history) then script else []
  {
  }

  /* ---------- timers ---------- */

  predicate Schedules(e: Event) {
    e.Call? && e.hook.ScheduleTimer?
  }

  function Seconds(tv: Timeval): real {
    tv.sec as real + tv.usec as real / 1000000.0
  }

  /** A timeout in seconds, counted in microseconds, is what the timeval says. */
  lemma SecondsExact(tv: Timeval)
    ensures Seconds(tv) * 1000000.0 == (tv.sec * 1000000 + tv.usec) as real
  {
  }

  /** A timeout in whole milliseconds: computed with a fraction, then truncated. */
  function Millis(tv: Timeval): nat {
    ((tv.sec * 1000) as real + tv.usec as real / 1000.0).Floor
  }

  /** Truncation loses less than one millisecond and never lengthens the timeout. */
  lemma MillisExact(tv: Timeval)
    ensures Millis(tv) == tv.sec * 1000 + tv.usec / 1000
    ensures 0 <= tv.sec * 1000000 + tv.usec - Millis(tv) * 1000 < 1000
  {
    var q, r := tv.usec / 1000, tv.usec % 1000;
    assert tv.usec as real / 1000.0 == q as real + r as real / 1000.0;
    assert 0.0 <= r as real / 1000.0 < 1.0;
    assert (tv.sec * 1000) as real + q as real == (tv.sec * 1000 + q) as real;
  }

  /** Some request for a timer has been accepted. */
  predicate TimerAccepted(trace: seq<Event>) {
    trace != [] &&
    (TimerAccepted(trace[..|trace| - 1]) || (Schedules(trace[|trace| - 1]) && trace[|trace| - 1].ok))
  }

  lemma TimerAcceptedAppend(trace: seq<Event>, e: Event)
    ensures TimerAccepted(trace + [e]) <==> TimerAccepted(trace) || (Schedules(e) && e.ok)
  {
    assert (trace + [e])[..|trace|] == trace;
  }

  lemma {:induction false} AcceptedIff(trace: seq<Event>)
    ensures TimerAccepted(trace) <==> exists e :: e in trace && Schedules(e) && e.ok
  {
    if trace != [] {
      var init, last := trace[..|trace| - 1], trace[|trace| - 1];
      AcceptedIff(init);
      assert trace == init + [last];
    }
  }

  const NO_TIMEOUT := Timeval(0, 0)

  /** The timeout set last, which every later registration carries. */
  function CurrentTimeout(trace: seq<Event>): Timeval {
    if trace == [] then NO_TIMEOUT
    else
      var last := trace[|trace| - 1];
      if Schedules(last) then last.hook.tv else CurrentTimeout(trace[..|trace| - 1])
  }

  lemma CurrentTimeoutAppend(trace: seq<Event>, e: Event)
    ensures CurrentTimeout(trace + [e]) == if Schedules(e) then e.hook.tv else CurrentTimeout(trace)
  {
    assert (trace + [e])[..|trace|] == trace;
  }

  /** It stays until another is set. */
  lemma {:induction false} TimeoutStays(trace: seq<Event>, e: Event, later: seq<Event>)
    requires Schedules(e) && forall f | f in later :: !Schedules(f)
    ensures CurrentTimeout(trace + [e] + later) == e.hook.tv
  {
    if later == [] {
      assert trace + [e] + later == trace + [e];
      CurrentTimeoutAppend(trace, e);
    } else {
      var init, last := later[..|later| - 1], later[|later| - 1];
      assert last in later && forall f | f in init :: f in later;
      TimeoutStays(trace, e, init);
      CurrentTimeoutAppend(trace + [e] + init, last);
      assert trace + [e] + later == trace + [e] + init + [last];
    }
  }

  /** The absolute deadline left by a trace; 0.0 stands for "no timer armed". */
  function Deadline(trace: seq<Event>): real {
    if trace == [] then 0.0
    else
      var last := trace[|trace| - 1];
      if last.Fired? then 0.0
      else if Schedules(last) then last.now + Seconds(last.hook.tv)
      else Deadline(trace[..|trace| - 1])
  }

  lemma DeadlineAppend(trace: seq<Event>, e: Event)
    ensures Deadline(trace + [e]) ==
            if e.Fired? then 0.0
            else if Schedules(e) then e.now + Seconds(e.hook.tv)
            else Deadline(trace)
  {
    assert (trace + [e])[..|trace|] == trace;
  }

  /** The deadline is that of the last schedule, as long as no timeout has been delivered since. */
  lemma {:induction false} DeadlineStays(trace: seq<Event>, e: Event, later: seq<Event>)
    requires Schedules(e) && forall f | f in later :: f.Call? && !Schedules(f)
    ensures Deadline(trace + [e] + later) == e.now + Seconds(e.hook.tv)
  {
    if later == [] {
      assert trace + [e] + later == trace + [e];
      DeadlineAppend(trace, e);
    } else {
      var init, last := later[..|later| - 1], later[|later| - 1];
      assert last in later && forall f | f in init :: f in later;
      DeadlineStays(trace, e, init);
      DeadlineAppend(trace + [e] + init, last);
      assert trace + [e] + later == trace + [e] + init + [last];
    }
  }

  /** Every delivered timeout found the timer armed. */
  ghost predicate FiresOnlyArmed(trace: seq<Event>) {
    forall i | 0 <= i < |trace| :: trace[i].Fired? ==> Deadline(trace[..i]) != 0.0
  }

  lemma FiresOnlyArmedAppend(trace: seq<Event>, e: Event)
    requires FiresOnlyArmed(trace)
    requires e.Fired? ==> Deadline(trace) != 0.0
    ensures FiresOnlyArmed(trace + [e])
  {
    forall i | 0 <= i < |trace + [e]| && (trace + [e])[i].Fired?
      ensures Deadline((trace + [e])[..i]) != 0.0
    {
      assert (trace + [e])[..i] == trace[..i];
      assert i == |trace| ==> trace[..i] == trace;
    }
  }

  function CountFired(trace: seq<Event>): nat {
    if trace == [] then 0
    else CountFired(trace[..|trace| - 1]) + if trace[|trace| - 1].Fired? then 1 else 0
  }

  function CountScheduled(trace: seq<Event>): nat {
    if trace == [] then 0
    else CountScheduled(trace[..|trace| - 1]) + if Schedules(trace[|trace| - 1]) then 1 else 0
  }

  lemma CountAppend(trace: seq<Event>, e: Event)
    ensures CountFired(trace + [e]) == CountFired(trace) + if e.Fired? then 1 else 0
    ensures CountScheduled(trace + [e]) == CountScheduled(trace) + if Schedules(e) then 1 else 0
  {
    assert (trace + [e])[..|trace|] == trace;
  }

  /** Timer conservation: timeouts delivered, plus one if a timer is still armed, never exceed
      the number of times a timer was scheduled. */
  lemma {:induction false} TimerConservation(trace: seq<Event>)
    requires FiresOnlyArmed(trace)
    ensures CountFired(trace) + (if Deadline(trace) != 0.0 then 1 else 0) <= CountScheduled(trace)
  {
    if trace != [] {
      var init := trace[..|trace| - 1];
      forall i | 0 <= i < |init| && init[i].Fired? ensures Deadline(init[..i]) != 0.0 {
        assert init[..i] == trace[..i];
      }
      TimerConservation(init);
      assert trace[|trace| - 1].Fired? ==> Deadline(trace[..|trace| - 1]) != 0.0;
    }
  }

  /** A schedule that no later timeout has consumed. */
  ghost predicate Pending(trace: seq<Event>) {
    exists i | 0 <= i < |trace| ::
      Schedules(trace[i]) && forall j | i < j < |trace| :: !trace[j].Fired?
  }

  /** The 0.0 sentinel is unambiguous as long as the clock reads positive. */
  lemma {:induction false} SentinelUnambiguous(trace: seq<Event>)
    requires forall i | 0 <= i < |trace| :: Schedules(trace[i]) ==> trace[i].now > 0.0
    ensures Deadline(trace) != 0.0 <==> Pending(trace)
  {
    if trace != [] {
      var n := |trace| - 1;
      var init := trace[..n];
      SentinelUnambiguous(init);
      if Schedules(trace[n]) {
        assert Pending(trace);
      } else if !trace[n].Fired? {
        if Pending(init) {
          var i :| 0 <= i < |init| && Schedules(init[i])
                   && forall j | i < j < |init| :: !init[j].Fired?;
          assert Schedules(trace[i]) && forall j | i < j < |trace| :: !trace[j].Fired?;
        }
        if Pending(trace) {
          var i :| 0 <= i < |trace| && Schedules(trace[i])
                   && forall j | i < j < |trace| :: !trace[j].Fired?;
          assert Schedules(init[i]);
          forall j | i < j < |init| ensures !init[j].Fired? {
            assert init[j] == trace[j];
          }
        }
      }
    }
  }
}
