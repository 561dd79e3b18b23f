/** adapters/libuv.h: the record embeds a poll handle and a timer handle, and is reclaimed by
    whichever of their two asynchronous close callbacks runs last. */
module LibuvAdapter {
  import opened Hooks

  /** libuv's side of a handle. Only an open handle may be started or closed, and a closing one
      gets nothing but its close callback, later. */
  datatype HandleState = Unused | Open | Closing | Closed

  /** The history after one readiness callback. */
  function AfterPoll(h: seq<Event>, ready: Interest, onRead: seq<Event>, onWrite: seq<Event>)
    : seq<Event>
  {
    Then(Then(h, ready.read, onRead), ready.write, onWrite)
  }

  /** A timer is running: scheduled since the last timeout, once libuv has initialised it. */
  predicate TimerRuns(trace: seq<Event>) {
    trace != [] &&
    var last := trace[|trace| - 1];
    if last.Fired? then false
    else if Schedules(last) then TimerAccepted(trace)
    else TimerRuns(trace[..|trace| - 1])
  }

  lemma TraceAppend(trace: seq<Event>, e: Event)
    ensures Fold(trace + [e]) == Apply(Fold(trace), e)
    ensures CountFired(trace + [e]) == CountFired(trace) + if e.Fired? then 1 else 0
    ensures CountScheduled(trace + [e]) == CountScheduled(trace) + if Schedules(e) then 1 else 0
    ensures TimerAccepted(trace + [e]) <==> TimerAccepted(trace) || (Schedules(e) && e.ok)
    ensures TimerRuns(trace + [e]) <==>
            !e.Fired? && if Schedules(e) then TimerAccepted(trace) || e.ok else TimerRuns(trace)
    ensures CurrentTimeout(trace + [e]) == if Schedules(e) then e.hook.tv else CurrentTimeout(trace)
  {
    FoldAppend(trace, e);
    CurrentTimeoutAppend(trace, e);
    CountAppend(trace, e);
    TimerAcceptedAppend(trace, e);
    assert (trace + [e])[..|trace|] == trace;
  }

  class LibuvEvents {
    // the record
    var context: bool     // p->context is not NULL
    var handleData: bool  // p->handle.data is not NULL
    var timerData: bool   // p->timer.data is not NULL
    var events: Interest

    // libuv's side
    var handle: HandleState
    var timer: HandleState
    var polling: bool
    var pollMask: Interest
    var timerActive: bool
    var timerMillis: nat

    ghost var live: bool
    ghost var frees: nat
    ghost var owner: bool  // the context exists
    ghost var history: seq<Event>

    /** What libuv is asked to watch. */
    function Presented(): Interest
      reads this
    {
      if polling then pollMask else NO_INTEREST
    }

    /** libuv watches exactly what the record says. */
    predicate Watching()
      reads this
    {
      && (polling <==> events != NO_INTEREST) &&
      (polling ==> pollMask == events)
    }

    ghost predicate TimersConserved()
      reads this
    {
      CountFired(history) + (if timerActive then 1 else 0) <= CountScheduled(history)
    }

    ghost predicate Attached()
      reads this
    {
      && live && frees == 0 && owner && context && !Ends(history)
      && handle.Open? && handleData
      && timer == (if TimerAccepted(history) then Open else Unused) && (timerData <==> timer.Open?)
      && (timerActive <==> TimerRuns(history))
      && (timerActive ==> timer.Open? && timerMillis == Millis(CurrentTimeout(history)))
      && Watching()
      && events == Fold(history)
      && TimersConserved()
    }

    /** The context is gone and at least one handle has not been reported closed yet. */
    ghost predicate Reclaiming()
      reads this
    {
      && live && frees == 0 && !owner && !context && Ends(history)
      && !polling && !timerActive
      && (handle.Closing? || handle.Closed?) && !timer.Open?
      && (timer.Unused? <==> !TimerAccepted(history))
      && (handleData <==> handle.Closing?) && (timerData <==> timer.Closing?)
      && (handle.Closing? || timer.Closing?)
      && TimersConserved()
    }

    /** Cleanup has just asked for the close callbacks. */
    ghost predicate Released()
      reads this
    {
      Reclaiming() && handle.Closing? && timer == if TimerAccepted(history) then Closing else Unused
    }

    /** The record has been freed once, and no handle in it is still known to libuv. */
    ghost predicate Gone()
      reads this
    {
      && !live && frees == 1 && !owner && Ends(history)
      && handle.Closed? && timer == (if TimerAccepted(history) then Closed else Unused)
      && !polling && !timerActive
      && TimersConserved()
    }

    constructor Attach()
      ensures Attached() && history == [] && timer.Unused?
    {
      context, handleData, timerData, events := true, true, false, NO_INTEREST;
      handle, timer, polling, timerActive := Open, Unused, false, false;
      live, frees, owner, history := true, 0, true, [];
    }

    // libuv

    method PollStart(mask: Interest)
      requires handle.Open?
      modifies this`polling, this`pollMask
      ensures polling && pollMask == mask
    {
      polling, pollMask := true, mask;
    }

    method PollStop()
      requires handle.Open?
      modifies this`polling
      ensures !polling
    {
      polling := false;
    }

    method CloseHandle()
      requires handle.Open?
      modifies this`handle, this`polling
      ensures handle.Closing? && !polling
    {
      handle, polling := Closing, false;
    }

    method CloseTimer()
      requires timer.Open?
      modifies this`timer, this`timerActive
      ensures timer.Closing? && !timerActive
    {
      timer, timerActive := Closing, false;
    }

    method Free()
      requires live && frees == 0
      // the memory libuv still refers to is not given back
      requires handle.Closed? && (timer.Unused? || timer.Closed?)
      modifies this`live, this`frees
      ensures !live && frees == 1
    {
      live, frees := false, 1;
    }

    // Reads of the record that follow a callback.

    function Context(): bool
      requires live
      reads this
    {
      context
    }

    // the hooks

    method Add(flag: Interest)
      requires live && handle.Open? && Watching() && (flag == READ || flag == WRITE)
      modifies this`events, this`polling, this`pollMask
      ensures Watching() && events == old(events).Or(flag)
    {
      if events.And(flag) != NO_INTEREST {
        return;
      }
      events := events.Or(flag);
      PollStart(events);
    }

    method Del(flag: Interest)
      requires live && handle.Open? && Watching() && (flag == READ || flag == WRITE)
      modifies this`events, this`polling, this`pollMask
      ensures Watching() && events == old(events).AndNot(flag)
    {
      events := events.AndNot(flag);
      if events != NO_INTEREST {
        PollStart(events);
      } else {
        PollStop();
      }
    }

    method SetTimeout(tv: Timeval, initOk: bool)
      requires Attached()
      modifies this`timer, this`timerData, this`timerActive, this`timerMillis
      ensures timerData <==> timer.Open?
      ensures timer.Open? <==> old(timer).Open? || initOk
      ensures timer.Open? || timer == old(timer)
      ensures timer.Open? ==> timerActive && timerMillis == Millis(tv)
      ensures !timer.Open? ==> !timerActive
    {
      var millis := Millis(tv);
      if !timerData {
        if !initOk {
          return;
        }
        timer := Open;
        timerData := true;
      }
      timerActive, timerMillis := true, millis;
    }

    method CleanupHook(e: Event)
      requires Attached() && e.Call? && e.hook.Cleanup?
      modifies this`context, this`handle, this`timer, this`polling, this`timerActive, this`owner, this`history
      ensures Released() && history == old(history) + [e]
    {
      hide Fold, TimerRuns, TimerAccepted, CurrentTimeout, CountFired, CountScheduled, Millis;
      TraceAppend(history, e);
      context := false;
      if timerData {
        CloseTimer();
      }
      CloseHandle();
      owner := false;
      history := history + [e];
    }

    method InterestHook(e: Event, flag: Interest, isRemove: bool)
      requires Attached() && e.Call? && (flag == READ || flag == WRITE)
      requires e.hook == if flag == READ then (if isRemove then DelRead else AddRead)
                         else (if isRemove then DelWrite else AddWrite)
      modifies this
      ensures history == old(history) + [e] && Attached()
    {
      TraceAppend(history, e);
      if isRemove {
        Del(flag);
      } else {
        Add(flag);
      }
      history := history + [e];
    }

    method TimerHook(e: Event)
      requires Attached() && Schedules(e)
      modifies this
      ensures history == old(history) + [e] && Attached()
      ensures timerActive <==> old(timer).Open? || e.ok
      ensures timerActive ==> timerMillis == Millis(e.hook.tv)
    {
      TraceAppend(history, e);
      SetTimeout(e.hook.tv, e.ok);
      history := history + [e];
    }

    /** One call through the context's function table. */
    method Dispatch(e: Event)
      requires Attached() && e.Call?
      modifies this
      ensures history == old(history) + [e]
      ensures if Ends(history) then Released() else Attached()
    {
      match e.hook {
        case AddRead => InterestHook(e, READ, false);
        case DelRead => InterestHook(e, READ, true);
        case AddWrite => InterestHook(e, WRITE, false);
        case DelWrite => InterestHook(e, WRITE, true);
        case ScheduleTimer(_) => TimerHook(e);
        case Cleanup => CleanupHook(e);
      }
    }

    method Callback(script: seq<Event>)
      requires Attached() && Lawful(script)
      modifies this
      ensures history == old(history) + script
      ensures if Ends(history) then Released() else Attached()
    {
      for k := 0 to |script|
        invariant history == old(history) + script[..k]
        invariant if Ends(history) then Released() else Attached()
        invariant k < |script| ==> !Ends(history)
      {
        Dispatch(script[k]);
        assert script[..k + 1] == script[..k] + [script[k]];
      }
      assert script[..|script|] == script;
    }

    // the callbacks libuv makes

    /** Readiness: an error status is reported as readiness for everything asked for. */
    method OnPoll(failed: bool, mask: Interest, onRead: seq<Event>, onWrite: seq<Event>)
      requires Attached() && polling && Lawful(onRead) && Lawful(onWrite)
      modifies this
      ensures history == AfterPoll(
                old(history), if failed then Fold(old(history)) else mask, onRead, onWrite)
      // in full: the read callback first, and the write callback if there still is a context
      ensures var a := old(history) + if (if failed then old(events.read) else mask.read) then onRead else [];
              history == a + if (if failed then old(events.write) else mask.write) && !Ends(a) then onWrite else []
      ensures if Ends(history) then Released() else Attached()
    {
      var ev := if failed then events else mask;
      ThenAdds(history, ev.read, onRead);
      ThenAdds(Then(history, ev.read, onRead), ev.write, onWrite);
      if Context() && ev.read {
        Callback(onRead);
      }
      if Context() && ev.write {
        Callback(onWrite);
      }
    }

    /** A timer that does not repeat stops before its callback runs. */
    method Expire()
      requires Attached() && timerActive
      modifies this`timerActive, this`history
      ensures Attached() && !timerActive && history == old(history) + [Fired]
    {
      timerActive := false;
      TraceAppend(history, Fired);
      history := history + [Fired];
    }

    method OnTimeout(script: seq<Event>)
      requires Attached() && timerActive && Lawful(script)
      modifies this
      ensures history == old(history) + [Fired] + script
      ensures if Ends(history) then Released() else Attached()
    {
      Expire();
      assert Context();
      Callback(script);
    }

    method OnTimerClose()
      requires Reclaiming() && timer.Closing?
      modifies this
      ensures history == old(history) && handle == old(handle) && timer.Closed?
      ensures if handle.Closing? then Reclaiming() else Gone()
    {
      timer := Closed;
      timerData := false;
      if !handleData {
        Free();
      }
    }

    method OnHandleClose()
      requires Reclaiming() && handle.Closing?
      modifies this
      ensures history == old(history) && timer == old(timer) && handle.Closed?
      ensures if timer.Closing? then Reclaiming() else Gone()
    {
      handle := Closed;
      handleData := false;
      if !timerData {
        Free();
      }
    }
  }

  /** Whatever is owed a close callback after cleanup, delivering the callbacks in either order
      gives the record back. */
  method Drain(p: LibuvEvents, timerFirst: bool)
    requires p.Reclaiming()
    modifies p
    ensures p.Gone() && p.history == old(p.history)
  {
    if timerFirst && p.timer.Closing? { p.OnTimerClose(); }
    if p.handle.Closing? { p.OnHandleClose(); }
    if p.timer.Closing? { p.OnTimerClose(); }
  }

  /** One step of the event loop or of the program that owns the context. */
  datatype Turn =
    | CallHook(e: Event)
    | Ready(failed: bool, mask: Interest, onRead: seq<Event>, onWrite: seq<Event>)
    | TimeoutDue(script: seq<Event>)
    | TimerClosed
    | HandleClosed

  ghost predicate LawfulTurn(t: Turn) {
    match t
    case CallHook(e) => e.Call?
    case Ready(_, _, onRead, onWrite) => Lawful(onRead) && Lawful(onWrite)
    case TimeoutDue(script) => Lawful(script)
    case TimerClosed => true
    case HandleClosed => true
  }

  /** The reference for whole runs: the history, and how far libuv is with the two handles. */
  datatype Stage = Stage(history: seq<Event>, handle: HandleState, timer: HandleState)

  /** Cleanup asks libuv to close whatever it has open. */
  function Settle(h: seq<Event>): Stage {
    if Ends(h) then Stage(h, Closing, if TimerAccepted(h) then Closing else Unused)
    else Stage(h, Open, if TimerAccepted(h) then Open else Unused)
  }

  /** One turn. What libuv would not do (readiness on a stopped handle, a timeout nobody is waiting
      for, a close callback nobody asked for) does not happen. */
  function AfterTurn(st: Stage, t: Turn): Stage {
    match t
    case CallHook(e) => if st.handle.Open? then Settle(st.history + [e]) else st
    case Ready(failed, mask, onRead, onWrite) =>
      if st.handle.Open? && Fold(st.history) != NO_INTEREST
      then Settle(AfterPoll(st.history, if failed then Fold(st.history) else mask, onRead, onWrite)) else st
    case TimeoutDue(script) =>
      if st.handle.Open? && TimerRuns(st.history) then Settle(st.history + [Fired] + script) else st
    case TimerClosed => if st.timer.Closing? then st.(timer := Closed) else st
    case HandleClosed => if st.handle.Closing? then st.(handle := Closed) else st
  }

  function RunStage(turns: seq<Turn>): Stage {
    if turns == [] then Settle([]) else AfterTurn(RunStage(turns[..|turns| - 1]), turns[|turns| - 1])
  }

  predicate Owed(st: Stage) {
    st.handle.Closing? || st.timer.Closing?
  }

  lemma RunAppend(turns: seq<Turn>, t: Turn)
    ensures RunStage(turns + [t]) == AfterTurn(RunStage(turns), t)
  {
    assert (turns + [t])[..|turns|] == turns;
  }

  /** As long as the context lives, a hook call counts, and so does readiness that was asked for. */
  lemma NextTurn(turns: seq<Turn>, t: Turn)
    requires RunStage(turns).handle.Open?
    ensures t.CallHook? ==> RunStage(turns + [t]).history == RunStage(turns).history + [t.e]
    ensures t.Ready? ==>
              var h := RunStage(turns).history;
              RunStage(turns + [t]).history ==
              if Fold(h) == NO_INTEREST then h
              else AfterPoll(h, if t.failed then Fold(h) else t.mask, t.onRead, t.onWrite)
  {
    hide RunStage, AfterPoll, Fold;
    RunAppend(turns, t);
  }

  /** So does the timeout of the timer set last, if libuv took it and it has not been delivered; a
      timeout that has been delivered is not delivered again. */
  lemma NextTimeout(turns: seq<Turn>, script: seq<Event>, earlier: seq<Event>, e: Event, later: seq<Event>)
    requires RunStage(turns).handle.Open? && RunStage(turns).history == earlier + [e] + later
    requires (Schedules(e) && e.ok) || e.Fired?
    requires forall f | f in later :: !f.Fired? && !Schedules(f)
    ensures RunStage(turns + [TimeoutDue(script)]).history ==
            RunStage(turns).history + if e.Fired? then [] else [Fired] + script
  {
    hide RunStage, TimerRuns;
    RunAppend(turns, TimeoutDue(script));
    RunsSince(earlier, e, later);
    var h := RunStage(turns).history;
    assert h + [Fired] + script == h + ([Fired] + script) && h + [] == h;
  }

  lemma {:induction false} RunsSince(earlier: seq<Event>, e: Event, later: seq<Event>)
    requires (Schedules(e) && e.ok) || e.Fired?
    requires forall f | f in later :: !f.Fired? && !Schedules(f)
    ensures TimerRuns(earlier + [e] + later) <==> Schedules(e)
  {
    hide Fold, CurrentTimeout, CountFired, CountScheduled, TimerRuns, TimerAccepted;
    if later == [] {
      assert earlier + [e] + later == earlier + [e];
      TraceAppend(earlier, e);
    } else {
      var init, last := later[..|later| - 1], later[|later| - 1];
      assert last in later && forall f | f in init :: f in later;
      RunsSince(earlier, e, init);
      TraceAppend(earlier + [e] + init, last);
      assert earlier + [e] + later == earlier + [e] + init + [last];
    }
  }

  /** And once the context is gone, the two close callbacks, in either order, leave nothing owed. */
  lemma BothClosed(turns: seq<Turn>, timerFirst: bool)
    requires !RunStage(turns).handle.Open?
    ensures var both := if timerFirst then [TimerClosed, HandleClosed] else [HandleClosed, TimerClosed];
            var end := RunStage(turns + both);
            end.history == RunStage(turns).history && end.handle.Closed? && !end.timer.Closing?
  {
    var a, b := if timerFirst then TimerClosed else HandleClosed, if timerFirst then HandleClosed else TimerClosed;
    KnownStages(turns);
    hide RunStage;
    RunAppend(turns, a);
    RunAppend(turns + [a], b);
    assert turns + [a, b] == turns + [a] + [b];
  }

  lemma {:induction false} KnownStages(turns: seq<Turn>)
    ensures !RunStage(turns).handle.Unused?
  {
    hide AfterPoll, Fold, TimerRuns, TimerAccepted;
    if turns != [] {
      KnownStages(turns[..|turns| - 1]);
    }
  }

  /** Every interleaving, the two close callbacks in either order: the record follows the reference.
      It is freed once, by the last close callback it is owed, and never before. */
  method Run(turns: seq<Turn>) returns (p: LibuvEvents)
    requires forall t | t in turns :: LawfulTurn(t)
    ensures fresh(p)
    ensures Stage(p.history, p.handle, p.timer) == RunStage(turns)
    ensures if RunStage(turns).handle.Open? then p.Attached()
            else if Owed(RunStage(turns)) then p.Reclaiming() else p.Gone()
    ensures p.frees == if p.live then 0 else 1
    ensures p.Attached() ==> p.Presented() == Fold(p.history)
  {
    hide AfterPoll, Fold, TimerRuns, TimerAccepted;
    p := new LibuvEvents.Attach();
    NothingYet();
    var k := 0;
    while k < |turns|
      invariant 0 <= k <= |turns| && fresh(p)
      invariant Stage(p.history, p.handle, p.timer) == RunStage(turns[..k])
      invariant if p.handle.Open? then p.Attached()
                else if p.handle.Closing? || p.timer.Closing? then p.Reclaiming() else p.Gone()
    {
      assert turns[..k + 1][..k] == turns[..k];
      assert LawfulTurn(turns[k]);
      TakeTurn(p, turns[k]);
      k := k + 1;
    }
    assert turns[..|turns|] == turns;
  }

  lemma NothingYet()
    ensures RunStage([]) == Stage([], Open, Unused)
  {
  }

  method TakeTurn(p: LibuvEvents, t: Turn)
    requires LawfulTurn(t)
    requires if p.handle.Open? then p.Attached()
             else if p.handle.Closing? || p.timer.Closing? then p.Reclaiming() else p.Gone()
    modifies p
    ensures Stage(p.history, p.handle, p.timer) == AfterTurn(Stage(old(p.history), old(p.handle), old(p.timer)), t)
    ensures if p.handle.Open? then p.Attached()
            else if p.handle.Closing? || p.timer.Closing? then p.Reclaiming() else p.Gone()
  {
    hide AfterPoll, Fold, TimerRuns, TimerAccepted;
    match t {
      case CallHook(e) =>
        if p.handle.Open? { p.Dispatch(e); }
      case Ready(failed, mask, onRead, onWrite) =>
        if p.polling { p.OnPoll(failed, mask, onRead, onWrite); }
      case TimeoutDue(script) =>
        if p.timerActive { p.OnTimeout(script); }
      case TimerClosed =>
        if p.timer.Closing? { p.OnTimerClose(); }
      case HandleClosed =>
        if p.handle.Closing? { p.OnHandleClose(); }
    }
  }
}
