/** adapters/redismoduleapi.h: timers are one-shot objects of the server, so the adapter must
    stop a running one before it creates the next and before it frees the record. */
module ModuleAdapter {
  import opened Hooks

  /** A timer is running: scheduled since the last timeout. */
  predicate TimerRuns(trace: seq<Event>) {
    trace != [] &&
    var last := trace[|trace| - 1];
    !last.Fired? && (Schedules(last) || TimerRuns(trace[..|trace| - 1]))
  }

  lemma TraceAppend(trace: seq<Event>, e: Event)
    ensures Fold(trace + [e]) == Apply(Fold(trace), e)
    ensures CountFired(trace + [e]) == CountFired(trace) + if e.Fired? then 1 else 0
    ensures CountScheduled(trace + [e]) == CountScheduled(trace) + if Schedules(e) then 1 else 0
    ensures CurrentTimeout(trace + [e]) == if Schedules(e) then e.hook.tv else CurrentTimeout(trace)
    ensures TimerRuns(trace + [e]) <==> !e.Fired? && (Schedules(e) || TimerRuns(trace))
  {
    FoldAppend(trace, e);
    CountAppend(trace, e);
    CurrentTimeoutAppend(trace, e);
    assert (trace + [e])[..|trace|] == trace;
  }

  class ModuleEvents {
    // the record
    var reading: bool
    var writing: bool
    var timerActive: bool
    var timerId: nat

    // the server's side
    var registered: Interest
    var timers: map<nat, nat>  // running timers and their periods
    var created: nat
    var fired: nat
    var stopped: nat

    var owner: bool  // the context exists

    ghost var live: bool
    ghost var frees: nat
    ghost var history: seq<Event>

    function Presented(): Interest
      reads this
    {
      registered
    }

    /** The server runs at most the timer the record knows, and none has been lost. */
    ghost predicate TimersOwned()
      reads this
    {
      && (timerActive ==> timerId in timers)
      && timers == (if timerActive then map[timerId := timers[timerId]] else map[])
      && created == fired + stopped + if timerActive then 1 else 0
    }

    ghost predicate Attached()
      reads this
    {
      && live && frees == 0 && owner && !Ends(history)
      && Interest(reading, writing) == Fold(history) && registered == Fold(history)
      && TimersOwned() && (timerActive <==> TimerRuns(history))
      && (timerActive ==> timers[timerId] == Millis(CurrentTimeout(history)))
      && created == CountScheduled(history) && fired == CountFired(history)
    }

    ghost predicate Gone()
      reads this
    {
      && !live && frees == 1 && !owner && registered == NO_INTEREST && Ends(history)
      && timers == map[] && created == fired + stopped
      && created == CountScheduled(history) && fired == CountFired(history)
    }

    constructor Attach()
      ensures Attached() && history == []
    {
      reading, writing, timerActive := false, false, false;
      registered, timers, created, fired, stopped := NO_INTEREST, map[], 0, 0, 0;
      owner, live, frees, history := true, true, 0, [];
    }

    // the server

    method EventLoopAdd(mask: Interest)
      modifies this`registered
      ensures registered == old(registered).Or(mask)
    {
      registered := registered.Or(mask);
    }

    method EventLoopDel(mask: Interest)
      modifies this`registered
      ensures registered == old(registered).AndNot(mask)
    {
      registered := registered.AndNot(mask);
    }

    method CreateTimer(millis: nat) returns (id: nat)
      modifies this`timers, this`created
      ensures id == old(created) && created == old(created) + 1
      ensures timers == old(timers)[id := millis]
    {
      id := created;
      timers, created := timers[id := millis], created + 1;
    }

    /** Only a timer that is still running can be stopped. */
    method StopServerTimer(id: nat)
      requires id in timers
      modifies this`timers, this`stopped
      ensures timers == old(timers) - {id} && stopped == old(stopped) + 1
    {
      timers, stopped := timers - {id}, stopped + 1;
    }

    // the hooks

    method AddReadHook()
      requires live && registered == Interest(reading, writing)
      modifies this`reading, this`registered
      ensures reading && registered == Interest(reading, writing)
    {
      if !reading {
        reading := true;
        EventLoopAdd(READ);
      }
    }

    method AddWriteHook()
      requires live && registered == Interest(reading, writing)
      modifies this`writing, this`registered
      ensures writing && registered == Interest(reading, writing)
    {
      if !writing {
        writing := true;
        EventLoopAdd(WRITE);
      }
    }

    method DelReadHook()
      requires live && registered == Interest(reading, writing)
      modifies this`reading, this`registered
      ensures !reading && registered == Interest(reading, writing)
    {
      if reading {
        reading := false;
        EventLoopDel(READ);
      }
    }

    method DelWriteHook()
      requires live && registered == Interest(reading, writing)
      modifies this`writing, this`registered
      ensures !writing && registered == Interest(reading, writing)
    {
      if writing {
        writing := false;
        EventLoopDel(WRITE);
      }
    }

    method StopTimer()
      requires live && TimersOwned()
      modifies this`timerActive, this`timers, this`stopped
      ensures TimersOwned() && !timerActive && timers == map[]
    {
      if timerActive {
        StopServerTimer(timerId);
      }
      timerActive := false;
    }

    method SetTimeout(tv: Timeval)
      requires live && TimersOwned()
      modifies this`timerActive, this`timerId, this`timers, this`stopped, this`created
      ensures TimersOwned() && timerActive && created == old(created) + 1
      ensures timers[timerId] == Millis(tv)
    {
      StopTimer();
      var millis := Millis(tv);
      timerId := CreateTimer(millis);
      timerActive := true;
    }

    method Release()
      requires live && frees == 0 && registered == Interest(reading, writing) && TimersOwned()
      modifies this`reading, this`writing, this`registered, this`timerActive, this`timers, this`stopped, this`live,
          this`frees
      ensures !live && frees == 1 && registered == NO_INTEREST
      ensures timers == map[] && created == fired + stopped
    {
      DelReadHook();
      DelWriteHook();
      StopTimer();
      live, frees := false, 1;
    }

    method CleanupHook(e: Event)
      requires Attached() && e.Call? && e.hook.Cleanup?
      modifies this
      ensures Gone() && history == old(history) + [e]
    {
      TraceAppend(history, e);
      Release();
      owner := false;
      history := history + [e];
    }

    method AddHook(e: Event, flag: Interest)
      requires Attached() && Sets(e, if flag == READ then Reading else Writing)
      requires flag == READ || flag == WRITE
      modifies this`reading, this`writing, this`registered, this`history
      ensures history == old(history) + [e] && Attached()
    {
      hide Fold, CountFired, CountScheduled, CurrentTimeout, TimerRuns, Millis;
      Record(e);
      if flag == READ {
        AddReadHook();
      } else {
        AddWriteHook();
      }
    }

    method DelHook(e: Event, flag: Interest)
      requires Attached() && e.Call? && e.hook == if flag == READ then DelRead else DelWrite
      requires flag == READ || flag == WRITE
      modifies this`reading, this`writing, this`registered, this`history
      ensures history == old(history) + [e] && Attached()
    {
      hide Fold, CountFired, CountScheduled, CurrentTimeout, TimerRuns, Millis;
      Record(e);
      if flag == READ {
        DelReadHook();
      } else {
        DelWriteHook();
      }
    }

    /** Notes a hook that has nothing to do with timers. */
    ghost method Record(e: Event)
      requires Attached() && e.Call? && !e.hook.ScheduleTimer? && !e.hook.Cleanup?
      modifies this`history
      ensures history == old(history) + [e] && !Ends(history)
      ensures Fold(history) == Apply(Fold(old(history)), e)
      ensures CurrentTimeout(history) == CurrentTimeout(old(history))
      ensures TimerRuns(history) == TimerRuns(old(history))
      ensures created == CountScheduled(history) && fired == CountFired(history)
    {
      TraceAppend(history, e);
      history := history + [e];
    }

    method TimerHook(e: Event)
      requires Attached() && Schedules(e)
      modifies this
      ensures history == old(history) + [e] && Attached()
    {
      TraceAppend(history, e);
      SetTimeout(e.hook.tv);
      history := history + [e];
    }

    /** One call through the context's function table. */
    method Dispatch(e: Event)
      requires Attached() && e.Call?
      modifies this
      ensures history == old(history) + [e]
      ensures if Ends(history) then Gone() else Attached()
    {
      match e.hook {
        case AddRead => AddHook(e, READ);
        case DelRead => DelHook(e, READ);
        case AddWrite => AddHook(e, WRITE);
        case DelWrite => DelHook(e, WRITE);
        case ScheduleTimer(_) => TimerHook(e);
        case Cleanup => CleanupHook(e);
      }
    }

    method Callback(script: seq<Event>)
      requires Attached() && Lawful(script)
      modifies this
      ensures history == old(history) + script
      ensures if Ends(history) then Gone() else Attached()
    {
      for k := 0 to |script|
        invariant history == old(history) + script[..k]
        invariant if Ends(history) then Gone() else Attached()
        invariant k < |script| ==> !Ends(history)
      {
        Dispatch(script[k]);
        assert script[..k + 1] == script[..k] + [script[k]];
      }
      assert script[..|script|] == script;
    }

    /** The running timer is spent. */
    method Consume()
      requires live && TimersOwned() && timerActive
      modifies this`timers, this`fired, this`timerActive
      ensures TimersOwned() && !timerActive && fired == old(fired) + 1
    {
      timers, fired := timers - {timerId}, fired + 1;
      timerActive := false;
    }

    method Expire()
      requires Attached() && timerActive
      modifies this`timers, this`fired, this`timerActive, this`history
      ensures Attached() && !timerActive && history == old(history) + [Fired]
    {
      TraceAppend(history, Fired);
      Consume();
      history := history + [Fired];
    }

    /** The timer callback: the timer is spent before the context is called back, so a callback
        that schedules again does not try to stop it. */
    method Timeout(script: seq<Event>)
      requires Attached() && timerActive && Lawful(script)
      modifies this
      ensures history == old(history) + [Fired] + script
      ensures if Ends(history) then Gone() else Attached()
    {
      Expire();
      Callback(script);
    }
  }

  datatype Turn =
    | CallHook(e: Event)
    | Ready(script: seq<Event>)
    | TimerDue(script: seq<Event>)

  ghost predicate LawfulTurn(t: Turn) {
    match t
    case CallHook(e) => e.Call?
    case Ready(script) => Lawful(script)
    case TimerDue(script) => Lawful(script)
  }

  /** The server calls the timer callback only while a timer runs. */
  function AfterTurn(h: seq<Event>, t: Turn): seq<Event> {
    match t
    case CallHook(e) => h + [e]
    case Ready(script) => h + script
    case TimerDue(script) => if TimerRuns(h) then h + [Fired] + script else h
  }

  /** The history after a whole run; nothing happens any more once the context is gone. */
  function RunHistory(turns: seq<Turn>): seq<Event> {
    if turns == [] then []
    else
      var h := RunHistory(turns[..|turns| - 1]);
      if Ends(h) then h else AfterTurn(h, turns[|turns| - 1])
  }

  /** As long as the context lives, every hook call and every readiness counts, and the timeout of a
      timer set after the timeout delivered last; afterwards, nothing does. */
  lemma NextTurn(turns: seq<Turn>, t: Turn)
    ensures var h := RunHistory(turns);
            RunHistory(turns + [t]) ==
            if Ends(h) then h
            else h + match t
                     case CallHook(e) => [e]
                     case Ready(script) => script
                     case TimerDue(script) => if Unserved(h) then [Fired] + script else []
  {
    var h := RunHistory(turns);
    RunsIff(h);
    hide TimerRuns, Unserved;
    assert (turns + [t])[..|turns|] == turns;
    if t.TimerDue? {
      assert h + [Fired] + t.script == h + ([Fired] + t.script) && h + [] == h;
    }
  }

  /** A timer was set that no timeout has followed. */
  ghost predicate Unserved(trace: seq<Event>) {
    exists i :: 0 <= i < |trace| && Schedules(trace[i]) && Fired !in trace[i..]
  }

  lemma {:induction false} RunsIff(trace: seq<Event>)
    ensures TimerRuns(trace) <==> Unserved(trace)
  {
    if trace != [] {
      var init, last := trace[..|trace| - 1], trace[|trace| - 1];
      RunsIff(init);
      forall i | 0 <= i < |init| ensures trace[i] == init[i] && trace[i..] == init[i..] + [last] {}
      assert trace[|trace| - 1..] == [last];
      if TimerRuns(trace) && !Schedules(last) {
        var i :| 0 <= i < |init| && Schedules(init[i]) && Fired !in init[i..];
        assert Schedules(trace[i]) && Fired !in trace[i..];
      }
      if Unserved(trace) && !Schedules(last) {
        var i :| 0 <= i < |trace| && Schedules(trace[i]) && Fired !in trace[i..];
        assert i < |init| && Schedules(init[i]) && Fired !in init[i..];
        assert last in trace[i..];
      }
    }
  }

  /** Every run: timers created are exactly those fired, stopped or still running, at most one
      runs, and none survives the record. */
  method Run(turns: seq<Turn>) returns (e: ModuleEvents)
    requires forall t | t in turns :: LawfulTurn(t)
    ensures fresh(e) && e.history == RunHistory(turns)
    ensures if Ends(e.history) then e.Gone() else e.Attached()
    ensures e.created == e.fired + e.stopped + |e.timers| && |e.timers| <= 1
    ensures Ends(e.history) ==> |e.timers| == 0
    ensures e.created == CountScheduled(e.history) && e.fired == CountFired(e.history)
  {
    e := new ModuleEvents.Attach();
    var k := 0;
    while k < |turns|
      invariant 0 <= k <= |turns| && fresh(e) && e.history == RunHistory(turns[..k])
      invariant if Ends(e.history) then e.Gone() else e.Attached()
    {
      assert turns[..k + 1][..k] == turns[..k];
      assert LawfulTurn(turns[k]);
      if e.owner {
        match turns[k] {
          case CallHook(c) => e.Dispatch(c);
          case Ready(script) => e.Callback(script);
          case TimerDue(script) => if e.timerActive { e.Timeout(script); }
        }
      }
      k := k + 1;
    }
    assert turns[..|turns|] == turns;
  }
}
