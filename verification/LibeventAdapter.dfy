/** adapters/libevent.h: one persistent event carries I/O and timeout, re-registered on every
    change; ENTERED and DELETED bits defer reclamation while the handler is on the stack. */
module LibeventAdapter {
  import opened Hooks

  /** How often the adapter registers: once for every timeout set and once for every hook that
      changes the interest, never for a repeated one. */
  function Registrations(trace: seq<Event>): nat {
    if trace == [] then 0
    else
      var init, last := trace[..|trace| - 1], trace[|trace| - 1];
      Registrations(init) +
      if Schedules(last) || (!Ends(trace) && Apply(Fold(init), last) != Fold(init)) then 1 else 0
  }

  lemma TraceAppend(trace: seq<Event>, e: Event)
    ensures Fold(trace + [e]) == Apply(Fold(trace), e)
    ensures CurrentTimeout(trace + [e]) == if Schedules(e) then e.hook.tv else CurrentTimeout(trace)
    ensures Registrations(trace + [e]) == Registrations(trace) +
              if Schedules(e) || (!Ends([e]) && Apply(Fold(trace), e) != Fold(trace)) then 1 else 0
  {
    assert (trace + [e])[..|trace|] == trace;
  }

  /** A timeval of zero means "no timeout" and becomes a NULL argument. */
  datatype Timeout = Never | After(tv: Timeval)

  function AsTimeout(tv: Timeval): Timeout {
    if tv.sec != 0 || tv.usec != 0 then After(tv) else Never
  }

  /** What made libevent call the handler. */
  datatype Fire = Fire(timeout: bool, ready: Interest)

  datatype Reactions = Reactions(onTimeout: seq<Event>, onRead: seq<Event>, onWrite: seq<Event>)
  {
    ghost predicate Lawful() {
      Hooks.Lawful(onTimeout) && Hooks.Lawful(onRead) && Hooks.Lawful(onWrite)
    }
  }

  /** The history after one run of the handler. */
  function AfterHandler(h: seq<Event>, f: Fire, r: Reactions): seq<Event> {
    var timed := Then(h, f.timeout, [Fired] + r.onTimeout);
    Then(Then(timed, f.ready.read, r.onRead), f.ready.write, r.onWrite)
  }

  lemma HandlerInFull(h: seq<Event>, f: Fire, r: Reactions)
    requires !Ends(h)
    ensures var a := h + if f.timeout then [Fired] + r.onTimeout else [];
            var b := a + if f.ready.read && !Ends(a) then r.onRead else [];
            AfterHandler(h, f, r) == b + if f.ready.write && !Ends(b) then r.onWrite else []
  {
    var timed := Then(h, f.timeout, [Fired] + r.onTimeout);
    ThenAdds(h, f.timeout, [Fired] + r.onTimeout);
    ThenAdds(timed, f.ready.read, r.onRead);
    ThenAdds(Then(timed, f.ready.read, r.onRead), f.ready.write, r.onWrite);
  }

  class LibeventEvents {
    // the record
    var context: bool  // e->context is not NULL
    var evSet: bool    // e->ev is not NULL
    var tv: Timeval
    var flags: Interest
    var entered: bool  // state & REDIS_LIBEVENT_ENTERED
    var deleted: bool  // state & REDIS_LIBEVENT_DELETED

    // libevent's side: the struct event
    var evMask: Interest
    var evPersist: bool
    var evPending: bool
    var evTimeout: Timeout

    var owner: bool  // the context exists

    ghost var live: bool
    ghost var frees: nat
    ghost var evLive: bool
    ghost var evFrees: nat
    ghost var adds: nat
    ghost var running: bool  // the handler is on the stack
    ghost var history: seq<Event>

    function Presented(): Interest
      reads this
    {
      if evPending then evMask else NO_INTEREST
    }

    /** What libevent holds is what the record says. */
    ghost predicate Coherent()
      reads this
    {
      evPending && evPersist && evMask == flags && evTimeout == AsTimeout(tv)
    }

    ghost predicate Attached()
      reads this
    {
      && live && frees == 0 && evSet && evLive && evFrees == 0
      && owner && context && !deleted && !Ends(history)
      && (entered <==> running)
      && flags == Fold(history) && tv == CurrentTimeout(history)
      && adds == Registrations(history)
      && (if adds > 0 then Coherent() else !evPending && flags == NO_INTEREST && tv == NO_TIMEOUT)
    }

    /** The context is gone, its event is freed, and the handler still holds the record. */
    ghost predicate Doomed()
      reads this
    {
      && live && frees == 0 && !evSet && !evLive && evFrees == 1
      && !owner && entered && running && deleted && Ends(history)
    }

    ghost predicate Gone()
      reads this
    {
      && !live && frees == 1 && !evLive && evFrees == 1
      && !owner && !running && Ends(history)
    }

    constructor Attach()
      ensures Attached() && !running && history == []
    {
      context, evSet, tv, flags, entered, deleted := true, true, NO_TIMEOUT, NO_INTEREST, false, false;
      evMask, evPersist, evPending, evTimeout := READ.Or(WRITE), false, false, Never;
      live, frees, evLive, evFrees, adds := true, 0, true, 0, 0;
      owner, running, history := true, false, [];
    }

    // libevent

    method EventDel()
      requires evSet && evLive
      modifies this`evPending
      ensures !evPending
    {
      evPending := false;
    }

    /** An event must not be pending when it is assigned. */
    method EventAssign(mask: Interest)
      requires evSet && evLive && !evPending
      modifies this`evMask, this`evPersist
      ensures evMask == mask && evPersist
    {
      evMask, evPersist := mask, true;
    }

    method EventAdd(timeout: Timeout)
      requires evSet && evLive
      modifies this`evPending, this`evTimeout, this`adds
      ensures evPending && evTimeout == timeout && adds == old(adds) + 1
    {
      evPending, evTimeout := true, timeout;
      adds := adds + 1;
    }

    method EventFree()
      requires evSet && evLive && evFrees == 0 && !evPending
      modifies this`evLive, this`evFrees
      ensures !evLive && evFrees == 1
    {
      evLive, evFrees := false, 1;
    }

    method Destroy()
      requires live && frees == 0
      modifies this`live, this`frees, this`running
      ensures !live && frees == 1 && !running
    {
      live, frees := false, 1;
      running := false;
    }

    // Reads of the record that follow a callback.

    function Deleted(): bool
      requires live
      reads this
    {
      deleted
    }

    function Context(): bool
      requires live
      reads this
    {
      context
    }

    // the hooks

    method Update(flag: Interest, isRemove: bool)
      requires live && evSet && evLive
      modifies this`flags, this`evPending, this`evMask, this`evPersist, this`evTimeout, this`adds
      ensures flags == if isRemove then
                         (if old(flags).And(flag) == NO_INTEREST then old(flags) else old(flags).AndNot(flag))
                       else
                         (if old(flags).And(flag) != NO_INTEREST then old(flags) else old(flags).Or(flag))
      ensures if (old(flags).And(flag) != NO_INTEREST) == isRemove
              then Coherent() && adds == old(adds) + 1
              else evPending == old(evPending) && evMask == old(evMask) && evPersist == old(evPersist)
                   && evTimeout == old(evTimeout) && adds == old(adds)
    {
      var timeout := if tv.sec != 0 || tv.usec != 0 then After(tv) else Never;
      if isRemove {
        if flags.And(flag) == NO_INTEREST {
          return;
        } else {
          flags := flags.AndNot(flag);
        }
      } else {
        if flags.And(flag) != NO_INTEREST {
          return;
        } else {
          flags := flags.Or(flag);
        }
      }
      EventDel();
      EventAssign(flags);
      EventAdd(timeout);
    }

    /** Re-registers whatever the flags were: clearing them first disarms the idempotence test. */
    method SetTimeout(newTv: Timeval)
      requires live && evSet && evLive
      modifies this`tv, this`flags, this`evPending, this`evMask, this`evPersist, this`evTimeout, this`adds
      ensures flags == old(flags) && tv == newTv
      ensures Coherent() && adds == old(adds) + 1
      ensures evTimeout == if newTv == Timeval(0, 0) then Never else After(newTv)
    {
      var saved := flags;
      flags := NO_INTEREST;
      tv := newTv;
      Update(saved, false);
    }

    method CleanupHook()
      requires Attached()
      modifies this`evPending, this`evLive, this`evFrees, this`evSet, this`deleted, this`live, this`frees, this`running
      ensures !evPending && !evLive && evFrees == 1 && !evSet
      ensures deleted == entered
      ensures if entered then live && frees == 0 && running == old(running)
              else !live && frees == 1 && !running
    {
      EventDel();
      EventFree();
      evSet := false;
      if entered {
        deleted := true;
      } else {
        Destroy();
      }
    }

    method InterestHook(e: Event, flag: Interest, isRemove: bool)
      requires Attached() && e.Call? && (flag == READ || flag == WRITE)
      requires e.hook == if flag == READ then (if isRemove then DelRead else AddRead)
                         else (if isRemove then DelWrite else AddWrite)
      modifies this
      ensures history == old(history) + [e] && Attached() && running == old(running)
    {
      TraceAppend(history, e);
      Update(flag, isRemove);
      history := history + [e];
    }

    method TimerHook(e: Event)
      requires Attached() && Schedules(e)
      modifies this
      ensures history == old(history) + [e] && Attached() && running == old(running)
    {
      TraceAppend(history, e);
      SetTimeout(e.hook.tv);
      history := history + [e];
    }

    /** One call through the context's function table. */
    method Dispatch(e: Event)
      requires Attached() && e.Call?
      modifies this
      ensures history == old(history) + [e]
      ensures if !e.hook.Cleanup? then Attached() && running == old(running)
              else if old(running) then Doomed() else Gone()
    {
      match e.hook {
        case AddRead => InterestHook(e, READ, false);
        case DelRead => InterestHook(e, READ, true);
        case AddWrite => InterestHook(e, WRITE, false);
        case DelWrite => InterestHook(e, WRITE, true);
        case ScheduleTimer(_) => TimerHook(e);
        case Cleanup => CleanupHook(); owner := false; history := history + [e];
      }
    }

    method Callback(script: seq<Event>)
      requires Attached() && running && Lawful(script)
      modifies this
      ensures history == old(history) + script
      ensures if Ends(history) then Doomed() else Attached() && running
    {
      for k := 0 to |script|
        invariant history == old(history) + script[..k]
        invariant if Ends(history) then Doomed() else Attached() && running
        invariant k < |script| ==> !Ends(history)
      {
        Dispatch(script[k]);
        assert script[..k + 1] == script[..k] + [script[k]];
      }
      assert script[..|script|] == script;
    }

    /** A callback followed by CHECK_DELETED. */
    method CallbackChecked(script: seq<Event>) returns (destroyed: bool)
      requires Attached() && running && Lawful(script)
      modifies this
      ensures history == old(history) + script
      ensures destroyed <==> Ends(history)
      ensures if destroyed then Gone() else Attached() && running
    {
      Callback(script);
      destroyed := Deleted();
      if destroyed {
        Destroy();
      }
    }

    method Enter()
      requires Attached() && !running
      modifies this`entered, this`running
      ensures Attached() && running
    {
      entered, running := true, true;
    }

    method Leave()
      requires Attached() && running
      modifies this`entered, this`running
      ensures Attached() && !running
    {
      entered, running := false, false;
    }

    method ServeTimeout(script: seq<Event>) returns (destroyed: bool)
      requires Attached() && running && Lawful(script)
      modifies this
      ensures history == old(history) + ([Fired] + script)
      ensures destroyed <==> Ends(history)
      ensures if destroyed then Gone() else Attached() && running
    {
      TraceAppend(history, Fired);
      history := history + [Fired];
      destroyed := CallbackChecked(script);
      assert history == old(history) + ([Fired] + script);
    }

    /** The handler, for any event mask and anything the callbacks do. */
    method Handler(f: Fire, r: Reactions)
      requires Attached() && !running && r.Lawful()
      modifies this
      ensures history == AfterHandler(old(history), f, r)
      // in full: timeout, read and write, each if there still is a context
      ensures var a := old(history) + if f.timeout then [Fired] + r.onTimeout else [];
              var b := a + if f.ready.read && !Ends(a) then r.onRead else [];
              history == b + if f.ready.write && !Ends(b) then r.onWrite else []
      ensures if Ends(history) then Gone() else Attached() && !running
    {
      HandlerInFull(history, f, r);
      Enter();
      if f.timeout && !Deleted() {
        var destroyed := ServeTimeout(r.onTimeout);
        if destroyed { return; }
      }
      if f.ready.read && Context() && !Deleted() {
        var destroyed := CallbackChecked(r.onRead);
        if destroyed { return; }
      }
      if f.ready.write && Context() && !Deleted() {
        var destroyed := CallbackChecked(r.onWrite);
        if destroyed { return; }
      }
      Leave();
    }
  }

  datatype Turn =
    | CallHook(e: Event)
    | RunHandler(f: Fire, r: Reactions)

  ghost predicate LawfulTurn(t: Turn) {
    match t
    case CallHook(e) => e.Call?
    case RunHandler(_, r) => r.Lawful()
  }

  function AfterTurn(h: seq<Event>, t: Turn): seq<Event> {
    match t
    case CallHook(e) => h + [e]
    case RunHandler(f, r) => AfterHandler(h, f, r)
  }

  /** The history after a whole run; nothing happens any more once the context is gone. */
  function RunHistory(turns: seq<Turn>): seq<Event> {
    if turns == [] then []
    else
      var h := RunHistory(turns[..|turns| - 1]);
      if Ends(h) then h else AfterTurn(h, turns[|turns| - 1])
  }

  /** As long as the context lives, every hook call and every run of the handler counts; afterwards,
      nothing does. */
  lemma NextTurn(turns: seq<Turn>, t: Turn)
    ensures var h := RunHistory(turns);
            RunHistory(turns + [t]) ==
            if Ends(h) then h
            else if t.CallHook? then h + [t.e]
            else
              var a := h + if t.f.timeout then [Fired] + t.r.onTimeout else [];
              var b := a + if t.f.ready.read && !Ends(a) then t.r.onRead else [];
              b + if t.f.ready.write && !Ends(b) then t.r.onWrite else []
  {
    var h := RunHistory(turns);
    assert (turns + [t])[..|turns|] == turns;
    hide AfterHandler;
    if !Ends(h) && t.RunHandler? {
      HandlerInFull(h, t.f, t.r);
    }
  }

  /** Every run: the record and its event are each freed exactly once, after cleanup, and as long
      as the context lives libevent holds what the history asks for. */
  method Run(turns: seq<Turn>) returns (e: LibeventEvents)
    requires forall t | t in turns :: LawfulTurn(t)
    ensures fresh(e) && e.history == RunHistory(turns)
    ensures if Ends(e.history) then e.Gone() else e.Attached() && !e.running
    ensures !Ends(e.history) ==> e.Presented() == Fold(e.history)
    ensures !Ends(e.history) && e.adds > 0 ==>
              var tv := CurrentTimeout(e.history);
              e.evTimeout == if tv == Timeval(0, 0) then Never else After(tv)
  {
    hide AfterHandler, Registrations, Fold, CurrentTimeout;
    e := new LibeventEvents.Attach();
    var k := 0;
    while k < |turns|
      invariant 0 <= k <= |turns| && fresh(e) && e.history == RunHistory(turns[..k])
      invariant if Ends(e.history) then e.Gone() else e.Attached() && !e.running
    {
      assert turns[..k + 1][..k] == turns[..k];
      assert LawfulTurn(turns[k]);
      if e.owner {
        match turns[k] {
          case CallHook(c) => e.Dispatch(c);
          case RunHandler(f, r) => e.Handler(f, r);
        }
      }
      k := k + 1;
    }
    assert turns[..|turns|] == turns;
  }
}
