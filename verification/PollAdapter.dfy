/** adapters/poll.h: manual polling, with deferred reclamation of the record while a tick is
    on the stack. */
module PollAdapter {
  import opened Hooks

  const HANDLED_READ := 1
  const HANDLED_WRITE := 2
  const HANDLED_TIMEOUT := 4

  /** What poll(2) and the clock answer during one tick. */
  datatype PollOutcome = PollOutcome(
    ns: int, interrupted: bool, pollin: bool, pollout: bool, pollerr: bool, now: real)
  {
    predicate Failed() { ns < 0 && !interrupted }

    predicate Readable() { ns > 0 && pollin }

    predicate Writable() { ns > 0 && (pollout || pollerr) }
  }

  /** What the context does when called back: the hooks it calls from its read, write and
      timeout handlers. */
  datatype Reactions = Reactions(onRead: seq<Event>, onWrite: seq<Event>, onTimeout: seq<Event>)
  {
    ghost predicate Lawful() {
      Hooks.Lawful(onRead) && Hooks.Lawful(onWrite) && Hooks.Lawful(onTimeout)
    }
  }

  /** The history after the I/O part of a tick that starts in history `h` with interest `i`:
      interest is sampled before the callbacks run, and the write handler is skipped once the
      read handler has torn the context down. */
  function AfterRead(h: seq<Event>, i: Interest, o: PollOutcome, r: Reactions): seq<Event> {
    Then(h, i.read && o.Readable(), r.onRead)
  }

  function AfterIo(h: seq<Event>, i: Interest, o: PollOutcome, r: Reactions): seq<Event> {
    Then(AfterRead(h, i, o, r), i.write && o.Writable(), r.onWrite)
  }

  predicate Expires(h: seq<Event>, now: real) {
    !Ends(h) && Deadline(h) != 0.0 && now >= Deadline(h)
  }

  function AfterTimeout(h: seq<Event>, now: real, script: seq<Event>): seq<Event> {
    Then(h, Expires(h, now), [Fired] + script)
  }

  /** The history after a whole tick. Without interest a tick does nothing, so a timer that has
      expired is not delivered either. */
  function AfterTick(h: seq<Event>, o: PollOutcome, r: Reactions): seq<Event> {
    if Fold(h) == NO_INTEREST || o.Failed() then h
    else AfterTimeout(AfterIo(h, Fold(h), o, r), o.now, r.onTimeout)
  }

  function IoResult(h: seq<Event>, i: Interest, o: PollOutcome, r: Reactions): int {
    (if i.read && o.Readable() then HANDLED_READ else 0)
    + (if i.write && o.Writable() && !Ends(AfterRead(h, i, o, r)) then HANDLED_WRITE else 0)
  }

  /** The value a tick returns. */
  function TickResult(h: seq<Event>, o: PollOutcome, r: Reactions): int {
    if Fold(h) == NO_INTEREST then 0
    else if o.Failed() then o.ns
    else
      IoResult(h, Fold(h), o, r)
      + if Expires(AfterIo(h, Fold(h), o, r), o.now) then HANDLED_TIMEOUT else 0
  }

  /** A corollary for a tick that finds no I/O: it delivers an expired timeout if and only if there is
      interest in the descriptor; with none, the tick returns before it looks at the deadline. */
  lemma IdleTickStarvesTimer(h: seq<Event>, o: PollOutcome, r: Reactions)
    requires !Ends(h) && o.ns == 0 && Deadline(h) != 0.0 && o.now >= Deadline(h)
    ensures AfterTick(h, o, r) == (if Fold(h) != NO_INTEREST then h + ([Fired] + r.onTimeout) else h)
    ensures TickResult(h, o, r) == if Fold(h) != NO_INTEREST then HANDLED_TIMEOUT else 0
  {
  }

  /** What a timer scheduled at some time means for a later tick that finds no I/O: with interest in the
      descriptor, the timeout is delivered exactly when at least its seconds and microseconds have
      passed. (A deadline that comes out as 0.0 would count as none.) */
  lemma DeliveredWhenDue(h: seq<Event>, e: Event, later: seq<Event>, o: PollOutcome, r: Reactions)
    requires Schedules(e) && forall f | f in later :: f.Call? && !Schedules(f) && !f.hook.Cleanup?
    requires o.ns == 0 || (o.ns < 0 && o.interrupted)
    ensures var now, micros := h + [e] + later, (e.hook.tv.sec * 1000000 + e.hook.tv.usec) as real;
            var due := (o.now - e.now) * 1000000.0 >= micros && e.now * 1000000.0 + micros != 0.0;
            var interest := Fold(now) != NO_INTEREST;
            && AfterTick(now, o, r) == now + (if interest && due then [Fired] + r.onTimeout else [])
            && TickResult(now, o, r) == if interest && due then 4 else 0
  {
    var now := h + [e] + later;
    DeadlineStays(h, e, later);
    SecondsExact(e.hook.tv);
    assert now[|now| - 1] == if later == [] then e else later[|later| - 1];
    assert !Ends(now) && now + [] == now;
    hide Fold, Deadline, Seconds;
    assert Expires(now, o.now) <==>
           o.now >= e.now + Seconds(e.hook.tv) && e.now + Seconds(e.hook.tv) != 0.0;
  }

  /** A tick with interest, in full: what poll reports is served if it was asked for when the tick began,
      the read callback first; the write callback only if there still is a context; and then the
      timeout, if there still is one and it is due. */
  lemma TickInFull(h: seq<Event>, o: PollOutcome, r: Reactions)
    requires !Ends(h) && Fold(h) != NO_INTEREST && (o.ns >= 0 || o.interrupted)
    ensures var read := Fold(h).read && o.ns > 0 && o.pollin;
            var write := Fold(h).write && o.ns > 0 && (o.pollout || o.pollerr);
            var a := h + if read then r.onRead else [];
            var b := a + if write && !Ends(a) then r.onWrite else [];
            var due := !Ends(b) && Deadline(b) != 0.0 && o.now >= Deadline(b);
            && AfterTick(h, o, r) == b + (if due then [Fired] + r.onTimeout else [])
            && TickResult(h, o, r) ==
               (if read then 1 else 0) + (if write && !Ends(a) then 2 else 0) + (if due then 4 else 0)
  {
    hide Fold, Deadline;
    NothingAdded(h);
    NothingAdded(h + r.onRead);
    NothingAdded(h + r.onWrite);
    NothingAdded(h + r.onRead + r.onWrite);
  }

  lemma NothingAdded(h: seq<Event>)
    ensures h + [] == h
  {
  }

  class PollEvents {
    var reading: bool
    var writing: bool
    var inTick: bool
    var deleted: bool
    var deadline: real
    var context: bool  // the context exists

    // the heap cell of this record
    ghost var live: bool
    ghost var frees: nat
    // every hook call and timeout so far
    ghost var history: seq<Event>

    /** The context exists and its hooks point here. */
    ghost predicate Attached()
      reads this
    {
      && live && context && frees == 0 && !deleted
      && !Ends(history)
      && Interest(reading, writing) == Fold(history)
      && deadline == Deadline(history)
      && FiresOnlyArmed(history)
    }

    /** The context is gone but a tick still holds the record. */
    ghost predicate Doomed()
      reads this
    {
      && live && !context && frees == 0 && inTick && deleted
      && Ends(history) && FiresOnlyArmed(history)
    }

    ghost predicate Gone()
      reads this
    {
      !live && !context && frees == 1 && Ends(history) && FiresOnlyArmed(history)
    }

    constructor Attach()
      ensures Attached() && !inTick && history == []
    {
      reading, writing, inTick, deleted := false, false, false, false;
      deadline := 0.0;
      live, frees, context, history := true, 0, true, [];
    }

    // Reads of the record that follow a callback go through these: the record must be live.

    function Deleted(): bool
      requires live
      reads this
    {
      deleted
    }

    function CurrentDeadline(): real
      requires live
      reads this
    {
      deadline
    }

    method Free()
      requires live && frees == 0
      modifies this`live, this`frees
      ensures !live && frees == 1
    {
      live, frees := false, 1;
    }

    method CleanupHook(ghost e: Event)
      requires Attached() && e.Call? && e.hook.Cleanup?
      modifies this
      ensures history == old(history) + [e] && inTick == old(inTick)
      ensures if old(inTick) then Doomed() else Gone()
    {
      if inTick {
        deleted := true;
      } else {
        Free();
      }
      context := false;
      FiresOnlyArmedAppend(history, e);
      history := history + [e];
    }

    method ScheduleTimerHook(tv: Timeval, now: real, ghost e: Event)
      requires Attached() && e.Call? && e.hook == ScheduleTimer(tv) && e.now == now
      modifies this
      ensures Attached() && history == old(history) + [e] && inTick == old(inTick)
      ensures (deadline - now) * 1000000.0 == (tv.sec * 1000000 + tv.usec) as real
    {
      SecondsExact(tv);
      deadline := now + Seconds(tv);
      FoldAppend(history, e);
      DeadlineAppend(history, e);
      FiresOnlyArmedAppend(history, e);
      history := history + [e];
    }

    /** One call through the context's function table. */
    method Dispatch(e: Event)
      requires Attached() && e.Call?
      modifies this
      ensures history == old(history) + [e] && inTick == old(inTick)
      ensures if !e.hook.Cleanup? then Attached() else if inTick then Doomed() else Gone()
    {
      FoldAppend(history, e);
      DeadlineAppend(history, e);
      FiresOnlyArmedAppend(history, e);
      match e.hook {
        case AddRead => reading := true; history := history + [e];
        case DelRead => reading := false; history := history + [e];
        case AddWrite => writing := true; history := history + [e];
        case DelWrite => writing := false; history := history + [e];
        case ScheduleTimer(tv) => ScheduleTimerHook(tv, e.now, e);
        case Cleanup => CleanupHook(e);
      }
    }

    /** A callback into the context, which may call any hook, cleanup included. */
    method Callback(script: seq<Event>)
      requires Attached() && Lawful(script)
      modifies this
      ensures history == old(history) + script && inTick == old(inTick)
      ensures if !Ends(history) then Attached() else if inTick then Doomed() else Gone()
    {
      for k := 0 to |script|
        invariant history == old(history) + script[..k] && inTick == old(inTick)
        invariant if !Ends(history) then Attached() else if inTick then Doomed() else Gone()
        invariant k < |script| ==> !Ends(history)
      {
        Dispatch(script[k]);
        assert script[..k + 1] == script[..k] + [script[k]];
      }
      assert script[..|script|] == script;
    }

    /** The part of a tick that serves I/O (lines 92-107). */
    method ServeIo(read: bool, write: bool, o: PollOutcome, r: Reactions) returns (handled: int)
      requires Attached() && inTick && r.Lawful() && !o.Failed()
      requires Interest(read, write) == Fold(history)
      modifies this
      ensures history == AfterIo(old(history), Interest(read, write), o, r)
      ensures inTick && if Ends(history) then Doomed() else Attached()
      ensures handled == IoResult(old(history), Interest(read, write), o, r)
    {
      handled := 0;
      var ns := if o.ns < 0 then 0 else o.ns;
      if ns != 0 {
        if read && o.pollin {
          Callback(r.onRead);
          handled := handled + HANDLED_READ;
        }
        if write && (o.pollout || o.pollerr) {
          if !Deleted() {
            Callback(r.onWrite);
            handled := handled + HANDLED_WRITE;
          }
        }
      }
    }

    /** The part of a tick that delivers an expired deadline (lines 110-118). */
    method ServeTimeout(now: real, script: seq<Event>) returns (handled: int)
      requires inTick && Lawful(script)
      requires if Ends(history) then Doomed() else Attached()
      modifies this
      ensures history == AfterTimeout(old(history), now, script)
      ensures inTick && if Ends(history) then Doomed() else Attached()
      ensures handled == if Expires(old(history), now) then HANDLED_TIMEOUT else 0
    {
      handled := 0;
      if !Deleted() && CurrentDeadline() != 0.0 {
        if now >= CurrentDeadline() {
          deadline := 0.0;
          FoldAppend(history, Fired);
          DeadlineAppend(history, Fired);
          FiresOnlyArmedAppend(history, Fired);
          history := history + [Fired];
          Callback(script);
          handled := HANDLED_TIMEOUT;
          assert history == old(history) + ([Fired] + script);
        }
      }
    }

    /** One tick, not nested in another one. */
    method Tick(o: PollOutcome, r: Reactions) returns (handled: int)
      requires Attached() && !inTick && r.Lawful()
      modifies this
      ensures history == AfterTick(old(history), o, r)
      ensures handled == TickResult(old(history), o, r)
      ensures if Ends(history) then Gone() else Attached() && !inTick
      // in full
      ensures !old(reading) && !old(writing) ==> history == old(history) && handled == 0
      ensures (old(reading) || old(writing)) && o.ns < 0 && !o.interrupted ==>
                history == old(history) && handled == o.ns
      ensures (old(reading) || old(writing)) && (o.ns >= 0 || o.interrupted) ==>
                var read := old(reading) && o.ns > 0 && o.pollin;
                var write := old(writing) && o.ns > 0 && (o.pollout || o.pollerr);
                var a := old(history) + if read then r.onRead else [];
                var b := a + if write && !Ends(a) then r.onWrite else [];
                var due := !Ends(b) && Deadline(b) != 0.0 && o.now >= Deadline(b);
                && history == b + (if due then [Fired] + r.onTimeout else [])
                && handled == (if read then 1 else 0) + (if write && !Ends(a) then 2 else 0) + (if due then 4 else 0)
    {
      ghost var h := history;
      if reading || writing {
        if o.ns >= 0 || o.interrupted {
          TickInFull(h, o, r);
        }
      }
      var read, write := reading, writing;
      if !read && !write {
        return 0;
      }
      if o.ns < 0 && !o.interrupted {
        return o.ns;
      }
      inTick := true;
      handled := ServeIo(read, write, o, r);
      var more := ServeTimeout(o.now, r.onTimeout);
      handled := handled + more;
      if Deleted() {
        Free();
      } else {
        inTick := false;
      }
    }
  }

  /** One thing the owner of the context does to it. */
  datatype Turn =
    | CallHook(e: Event)
    | RunTick(o: PollOutcome, r: Reactions)

  ghost predicate LawfulTurn(t: Turn) {
    match t
    case CallHook(e) => e.Call?
    case RunTick(_, r) => r.Lawful()
  }

  function AfterTurn(h: seq<Event>, t: Turn): seq<Event> {
    match t
    case CallHook(e) => h + [e]
    case RunTick(o, r) => AfterTick(h, o, r)
  }

  /** The history after a whole run; nothing happens any more once the context is gone. */
  function RunHistory(turns: seq<Turn>): seq<Event> {
    if turns == [] then []
    else
      var h := RunHistory(turns[..|turns| - 1]);
      if Ends(h) then h else AfterTurn(h, turns[|turns| - 1])
  }

  /** As long as the context lives, every hook call and every tick counts; afterwards, nothing does. */
  lemma NextTurn(turns: seq<Turn>, t: Turn)
    ensures var h := RunHistory(turns);
            RunHistory(turns + [t]) ==
            if Ends(h) then h else if t.CallHook? then h + [t.e] else AfterTick(h, t.o, t.r)
  {
    hide AfterTick;
    assert (turns + [t])[..|turns|] == turns;
  }

  /** Every run of hook calls and ticks, whatever the callbacks do: no read of a freed record
      (each is a precondition proved above), exactly one free once the context has been torn
      down, none before, and timeouts only when armed. */
  method Run(turns: seq<Turn>) returns (e: PollEvents)
    requires forall t | t in turns :: LawfulTurn(t)
    ensures fresh(e) && e.history == RunHistory(turns)
    ensures if Ends(RunHistory(turns)) then e.Gone() else e.Attached() && !e.inTick
    ensures CountFired(e.history) + (if Deadline(e.history) != 0.0 then 1 else 0)
            <= CountScheduled(e.history)
  {
    e := new PollEvents.Attach();
    var k := 0;
    while k < |turns|
      invariant 0 <= k <= |turns| && fresh(e) && e.history == RunHistory(turns[..k])
      invariant if Ends(e.history) then e.Gone() else e.Attached() && !e.inTick
    {
      assert turns[..k + 1][..k] == turns[..k];
      if e.context {
        assert LawfulTurn(turns[k]);
        match turns[k] {
          case CallHook(c) => e.Dispatch(c);
          case RunTick(o, r) => var _ := e.Tick(o, r);
        }
      }
      k := k + 1;
    }
    assert turns[..|turns|] == turns;
    TimerConservation(e.history);
  }
}
