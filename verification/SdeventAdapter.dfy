/** adapters/libsdevent.h: one I/O source that exists only while there is interest, at most one
    timer source, and a counted reference to the event loop. */
module SdeventAdapter {
  import opened Hooks

  import opened Wrappers

  /** Timer sources are one-shot: sd-event disables one before it calls the handler, and setting a
      new time does not enable it again. */
  datatype Source = Io(mask: Interest) | Timer(usec: nat, enabled: bool)

  function Micros(tv: Timeval): nat {
    tv.sec * 1000000 + tv.usec
  }

  /** Whether sd-event accepted the I/O source the last time interest arose from nothing. */
  function IoAccepted(trace: seq<Event>): bool {
    if trace == [] then true
    else
      var init, last := trace[..|trace| - 1], trace[|trace| - 1];
      if Fold(init) == NO_INTEREST && Apply(Fold(init), last) != NO_INTEREST && last.Call?
      then last.ok else IoAccepted(init)
  }

  lemma TraceAppend(trace: seq<Event>, e: Event)
    ensures Fold(trace + [e]) == Apply(Fold(trace), e)
    ensures CurrentTimeout(trace + [e]) == if Schedules(e) then e.hook.tv else CurrentTimeout(trace)
    ensures IoAccepted(trace + [e]) ==
            if Fold(trace) == NO_INTEREST && Apply(Fold(trace), e) != NO_INTEREST && e.Call?
            then e.ok else IoAccepted(trace)
    ensures TimerAccepted(trace + [e]) <==> TimerAccepted(trace) || (Schedules(e) && e.ok)
    ensures CountFired(trace + [e]) == CountFired(trace) + if e.Fired? then 1 else 0
  {
    assert (trace + [e])[..|trace|] == trace;
    CountAppend(trace, e);
    TimerAcceptedAppend(trace, e);
  }

  datatype Reactions = Reactions(onRead: seq<Event>, onWrite: seq<Event>) {
    ghost predicate Lawful() { Hooks.Lawful(onRead) && Hooks.Lawful(onWrite) }
  }

  function AfterHandler(h: seq<Event>, ready: Interest, r: Reactions): seq<Event> {
    Then(Then(h, ready.read, r.onRead), ready.write, r.onWrite)
  }

  class SdeventEvents {
    // the record
    var context: bool  // e->context is not NULL
    var fdSource: Option<nat>
    var timerSource: Option<nat>
    var flags: Interest
    var entered: bool  // state & REDIS_LIBSDEVENT_ENTERED
    var deleted: bool  // state & REDIS_LIBSDEVENT_DELETED

    // sd-event's side: live sources by identity, and references held on the loop
    var sources: map<nat, Source>
    var nextId: nat
    var refs: nat

    var owner: bool  // the context exists

    ghost var live: bool
    ghost var frees: nat
    ghost var running: bool  // the I/O handler is on the stack
    ghost var history: seq<Event>

    function Presented(): Interest
      reads this
    {
      if fdSource.Some? && fdSource.value in sources && sources[fdSource.value].Io?
      then sources[fdSource.value].mask else NO_INTEREST
    }

    /** sd-event may still call the timeout handler. */
    predicate CanFire()
      reads this
    {
      timerSource.Some? && timerSource.value in sources && sources[timerSource.value].Timer?
      && sources[timerSource.value].enabled
    }

    /** The record owns exactly the sources that are live, and each says what it should. */
    ghost predicate Owns()
      reads this
    {
      && (fdSource.Some? ==> fdSource.value in sources && sources[fdSource.value] == Io(flags))
      && (timerSource.Some? ==> timerSource.value in sources && sources[timerSource.value].Timer?)
      && (forall id | id in sources ::
            id < nextId && (fdSource == Some(id) || timerSource == Some(id)))
    }

    ghost predicate Attached()
      reads this
    {
      && live && frees == 0 && refs == 1 && owner && context && !deleted && !Ends(history)
      && (entered <==> running)
      && Owns() && flags == Fold(history)
      && (fdSource.Some? <==> flags != NO_INTEREST && IoAccepted(history))
      && (timerSource.Some? <==> TimerAccepted(history)) && CountFired(history) <= 1
      && (timerSource.None? ==> CountFired(history) == 0)
      && (timerSource.Some? ==>
            sources[timerSource.value] == Timer(Micros(CurrentTimeout(history)), CountFired(history) == 0))
    }

    /** The context is gone; the handler on the stack will destroy the record. */
    ghost predicate Doomed()
      reads this
    {
      && live && frees == 0 && refs == 1 && !owner && entered && running && deleted
      && Ends(history) && Owns() && CountFired(history) <= 1
    }

    /** Nothing is left: no source, no reference, no record. */
    ghost predicate Gone()
      reads this
    {
      && !live && frees == 1 && refs == 0 && sources == map[] && !owner && !running && Ends(history)
      && CountFired(history) <= 1
    }

    constructor Attach()
      ensures Attached() && !running && history == []
    {
      context, fdSource, timerSource, flags := true, None, None, NO_INTEREST;
      entered, deleted := false, false;
      sources, nextId, refs := map[], 0, 1;
      owner, live, frees, running, history := true, true, 0, false, [];
    }

    // sd-event

    /** Stores a new I/O source in fdSource; whatever pointer was there would be lost. */
    method AddIo(mask: Interest, ok: bool)
      requires fdSource.None?
      modifies this`sources, this`nextId, this`fdSource
      ensures if ok then fdSource == Some(old(nextId)) && nextId == old(nextId) + 1
                         && sources == old(sources)[old(nextId) := Io(mask)]
              else sources == old(sources) && nextId == old(nextId) && fdSource == None
    {
      if ok {
        fdSource, sources, nextId := Some(nextId), sources[nextId := Io(mask)], nextId + 1;
      }
    }

    method AddTime(usec: nat, ok: bool)
      requires timerSource.None?
      modifies this`sources, this`nextId, this`timerSource
      ensures if ok then timerSource == Some(old(nextId)) && nextId == old(nextId) + 1
                         && sources == old(sources)[old(nextId) := Timer(usec, true)]
              else sources == old(sources) && nextId == old(nextId) && timerSource == None
    {
      if ok {
        timerSource, sources, nextId := Some(nextId), sources[nextId := Timer(usec, true)], nextId + 1;
      }
    }

    /** Changing a NULL source is an error sd-event reports and the adapter ignores. */
    method SetIoEvents(source: Option<nat>, mask: Interest)
      requires source.Some? ==> source.value in sources
      modifies this`sources
      ensures sources == if source.Some? then old(sources)[source.value := Io(mask)] else old(sources)
    {
      if source.Some? {
        sources := sources[source.value := Io(mask)];
      }
    }

    method SetTime(source: nat, usec: nat)
      requires source in sources && sources[source].Timer?
      modifies this`sources
      ensures sources == old(sources)[source := Timer(usec, old(sources)[source].enabled)]
    {
      sources := sources[source := sources[source].(usec := usec)];
    }

    /** The one shot of a timer source. */
    method Spend(source: nat)
      requires source in sources && sources[source].Timer? && sources[source].enabled
      modifies this`sources
      ensures sources == old(sources)[source := Timer(old(sources)[source].usec, false)]
    {
      sources := sources[source := sources[source].(enabled := false)];
    }

    /** Drops the last reference to a source; NULL is allowed and NULL is returned. */
    method DisableUnref(source: Option<nat>) returns (r: Option<nat>)
      requires source.Some? ==> source.value in sources
      modifies this`sources
      ensures r == None
      ensures sources == if source.Some? then old(sources) - {source.value} else old(sources)
    {
      if source.Some? {
        sources := sources - {source.value};
      }
      r := None;
    }

    method Destroy()
      requires live && frees == 0 && refs == 1 && Owns()
      modifies this`fdSource, this`timerSource, this`sources, this`refs, this`live, this`frees, this`running
      ensures !live && frees == 1 && refs == 0 && sources == map[] && !running
    {
      if fdSource.Some? {
        fdSource := DisableUnref(fdSource);
      }
      if timerSource.Some? {
        timerSource := DisableUnref(timerSource);
      }
      refs := refs - 1;
      live, frees, running := false, 1, false;
    }

    // Reads of the record that follow a callback.

    function Deleted(): bool
      requires live
      reads this
    {
      deleted
    }

    function Context(): bool
      requires live
      reads this
    {
      context
    }

    // the hooks

    method Add(flag: Interest, ok: bool)
      requires live && Owns() && (flag == READ || flag == WRITE)
      requires flags == NO_INTEREST ==> fdSource.None?
      modifies this`flags, this`fdSource, this`sources, this`nextId
      ensures Owns() && flags == old(flags).Or(flag)
      ensures fdSource.Some? <==> if old(flags) == NO_INTEREST then ok else old(fdSource).Some?
      ensures timerSource.Some? ==> sources[timerSource.value] == old(sources[timerSource.value])
    {
      if flags.And(flag) != NO_INTEREST {
        return;
      }
      flags := flags.Or(flag);
      var other := if flag == READ then WRITE else READ;
      if flags.And(other) != NO_INTEREST {
        SetIoEvents(fdSource, flags);
      } else {
        AddIo(flags, ok);
      }
    }

    method Del(flag: Interest)
      requires live && Owns() && (flag == READ || flag == WRITE)
      requires flags == NO_INTEREST ==> fdSource.None?
      modifies this`flags, this`fdSource, this`sources
      ensures Owns() && flags == old(flags).AndNot(flag)
      ensures fdSource.Some? <==> old(fdSource).Some? && flags != NO_INTEREST
      ensures timerSource.Some? ==> sources[timerSource.value] == old(sources[timerSource.value])
    {
      flags := flags.AndNot(flag);
      if flags != NO_INTEREST {
        SetIoEvents(fdSource, flags);
      } else {
        fdSource := DisableUnref(fdSource);
      }
    }

    method SetTimeout(tv: Timeval, ok: bool)
      requires live && Owns()
      modifies this`timerSource, this`sources, this`nextId
      ensures Owns()
      ensures timerSource.Some? <==> old(timerSource).Some? || ok
      ensures timerSource.Some? ==>
                sources[timerSource.value]
                == Timer(tv.sec * 1000000 + tv.usec,
                         old(timerSource.Some? ==> sources[timerSource.value].enabled))
    {
      var usec := tv.sec * 1000000 + tv.usec;
      if timerSource.None? {
        AddTime(usec, ok);
      } else {
        SetTime(timerSource.value, usec);
      }
    }

    method CleanupHook()
      requires live && frees == 0 && refs == 1 && Owns()
      modifies this`deleted, this`fdSource, this`timerSource, this`sources, this`refs, this`live, this`frees,
          this`running
      ensures if entered then deleted && Owns() && live && frees == 0 && refs == 1 && running == old(running)
              else !live && frees == 1 && refs == 0 && sources == map[] && !running
    {
      if entered {
        deleted := true;
      } else {
        Destroy();
      }
    }

    method InterestHook(e: Event, flag: Interest, isRemove: bool)
      requires Attached() && e.Call? && (flag == READ || flag == WRITE)
      requires e.hook == if flag == READ then (if isRemove then DelRead else AddRead)
                         else (if isRemove then DelWrite else AddWrite)
      modifies this
      ensures history == old(history) + [e] && Attached() && running == old(running)
    {
      hide Fold, IoAccepted, TimerAccepted, CurrentTimeout, CountFired;
      TraceAppend(history, e);
      if isRemove {
        Del(flag);
      } else {
        Add(flag, e.ok);
      }
      history := history + [e];
    }

    method TimerHook(e: Event)
      requires Attached() && Schedules(e)
      modifies this
      ensures history == old(history) + [e] && Attached() && running == old(running)
    {
      hide Fold, IoAccepted, TimerAccepted, CurrentTimeout, CountFired;
      TraceAppend(history, e);
      SetTimeout(e.hook.tv, e.ok);
      history := history + [e];
    }

    /** One call through the context's function table. */
    method Dispatch(e: Event)
      requires Attached() && e.Call?
      modifies this
      ensures history == old(history) + [e]
      ensures if !Ends(history) then Attached() && running == old(running)
              else if old(running) then Doomed() else Gone()
    {
      match e.hook {
        case AddRead => InterestHook(e, READ, false);
        case DelRead => InterestHook(e, READ, true);
        case AddWrite => InterestHook(e, WRITE, false);
        case DelWrite => InterestHook(e, WRITE, true);
        case ScheduleTimer(_) => TimerHook(e);
        case Cleanup => CleanupHook(); owner := false; history := history + [e];
      }
    }

    method Callback(script: seq<Event>)
      requires Attached() && Lawful(script)
      modifies this
      ensures history == old(history) + script
      ensures if !Ends(history) then Attached() && running == old(running)
              else if old(running) then Doomed() else Gone()
    {
      for k := 0 to |script|
        invariant history == old(history) + script[..k]
        invariant if !Ends(history) then Attached() && running == old(running)
                  else if old(running) then Doomed() else Gone()
        invariant k < |script| ==> !Ends(history)
      {
        Dispatch(script[k]);
        assert script[..k + 1] == script[..k] + [script[k]];
      }
      assert script[..|script|] == script;
    }

    /** A callback followed by CHECK_DELETED. */
    method CallbackChecked(script: seq<Event>) returns (destroyed: bool)
      requires Attached() && running && Lawful(script)
      modifies this
      ensures history == old(history) + script
      ensures destroyed <==> Ends(history)
      ensures if destroyed then Gone() else Attached() && running
    {
      Callback(script);
      destroyed := Deleted();
      if destroyed {
        Destroy();
      }
    }

    method Enter()
      requires Attached() && !running
      modifies this`entered, this`running
      ensures Attached() && running
    {
      entered, running := true, true;
    }

    method Leave()
      requires Attached() && running
      modifies this`entered, this`running
      ensures Attached() && !running
    {
      entered, running := false, false;
    }

    /** The I/O handler, for any readiness and anything the callbacks do. */
    method Handler(ready: Interest, r: Reactions)
      requires Attached() && !running && r.Lawful()
      modifies this
      ensures history == AfterHandler(old(history), ready, r)
      // in full: the read callback first, and the write callback if there still is a context
      ensures var a := old(history) + if ready.read then r.onRead else [];
              history == a + if ready.write && !Ends(a) then r.onWrite else []
      ensures if Ends(history) then Gone() else Attached() && !running
    {
      ThenAdds(history, ready.read, r.onRead);
      ThenAdds(Then(history, ready.read, r.onRead), ready.write, r.onWrite);
      Enter();
      if ready.read && Context() && !Deleted() {
        var destroyed := CallbackChecked(r.onRead);
        if destroyed { return; }
      }
      if ready.write && Context() && !Deleted() {
        var destroyed := CallbackChecked(r.onWrite);
        if destroyed { return; }
      }
      Leave();
    }

    /** sd-event spends the source and calls the handler, which leaves ENTERED alone and does not touch
        the record after calling back: cleanup from inside it destroys the record at once. */
    method TimeoutHandler(script: seq<Event>)
      requires Attached() && !running && CanFire() && Lawful(script)
      modifies this
      ensures history == old(history) + [Fired] + script
      ensures if Ends(history) then Gone() else Attached() && !running
    {
      Expire();
      Callback(script);
    }

    method Expire()
      requires Attached() && !running && CanFire()
      modifies this`sources, this`history
      ensures Attached() && !CanFire() && history == old(history) + [Fired]
    {
      TraceAppend(history, Fired);
      Spend(timerSource.value);
      history := history + [Fired];
    }
  }

  /** A corollary of what every hook keeps: interest really reaches sd-event exactly when there
      is none, or when the I/O source was accepted at the moment interest arose; a refusal is not made
      good until interest drops. */
  lemma PresentedExactly(e: SdeventEvents)
    requires e.Attached()
    ensures e.Presented() == Fold(e.history) <==>
            Fold(e.history) == NO_INTEREST || IoAccepted(e.history)
  {
  }

  /** Likewise: a schedule can still be delivered if and only if sd-event has accepted the timer source
      and no timeout has been delivered before. */
  lemma FiresOnce(e: SdeventEvents)
    requires e.Attached()
    ensures e.CanFire() <==> TimerAccepted(e.history) && CountFired(e.history) == 0
  {
  }

  datatype Turn =
    | CallHook(e: Event)
    | RunHandler(ready: Interest, r: Reactions)
    | RunTimeout(script: seq<Event>)

  ghost predicate LawfulTurn(t: Turn) {
    match t
    case CallHook(e) => e.Call?
    case RunHandler(_, r) => r.Lawful()
    case RunTimeout(script) => Lawful(script)
  }

  /** sd-event calls a handler only through a source it has accepted. */
  function AfterTurn(h: seq<Event>, t: Turn): seq<Event> {
    match t
    case CallHook(e) => h + [e]
    case RunHandler(ready, r) =>
      if Fold(h) != NO_INTEREST && IoAccepted(h) then AfterHandler(h, ready, r) else h
    case RunTimeout(script) =>
      if TimerAccepted(h) && CountFired(h) == 0 then h + [Fired] + script else h
  }

  /** The history after a whole run; nothing happens any more once the context is gone. */
  function RunHistory(turns: seq<Turn>): seq<Event> {
    if turns == [] then []
    else
      var h := RunHistory(turns[..|turns| - 1]);
      if Ends(h) then h else AfterTurn(h, turns[|turns| - 1])
  }

  /** As long as the context lives, every hook call counts, and readiness as far as it was asked for and
      sd-event took the source; the read callback comes first. */
  lemma NextTurn(turns: seq<Turn>, t: Turn)
    requires !t.RunTimeout?
    ensures var h := RunHistory(turns);
            RunHistory(turns + [t]) ==
            if Ends(h) then h
            else if t.CallHook? then h + [t.e]
            else if Fold(h) == NO_INTEREST || !IoAccepted(h) then h
            else
              var a := h + if t.ready.read then t.r.onRead else [];
              a + if t.ready.write && !Ends(a) then t.r.onWrite else []
  {
    RunAppend(turns, t);
    hide RunHistory, Fold, IoAccepted;
    var h := RunHistory(turns);
    if !Ends(h) && t.RunHandler? {
      ThenAdds(h, t.ready.read, t.r.onRead);
      ThenAdds(Then(h, t.ready.read, t.r.onRead), t.ready.write, t.r.onWrite);
    }
  }

  /** A timeout counts once, and only if sd-event took some timer. */
  lemma NextTimeout(turns: seq<Turn>, script: seq<Event>)
    requires !Ends(RunHistory(turns))
    ensures var h := RunHistory(turns);
            var taken, spent := exists e :: e in h && Schedules(e) && e.ok, Fired in h;
            RunHistory(turns + [RunTimeout(script)]) == h + if taken && !spent then [Fired] + script else []
  {
    var h := RunHistory(turns);
    RunAppend(turns, RunTimeout(script));
    hide RunHistory, TimerAccepted, CountFired;
    AcceptedIff(h);
    NoneFired(h);
    assert h + [Fired] + script == h + ([Fired] + script) && h + [] == h;
  }

  lemma {:induction false} NoneFired(trace: seq<Event>)
    ensures CountFired(trace) == 0 <==> Fired !in trace
  {
    if trace != [] {
      var init, last := trace[..|trace| - 1], trace[|trace| - 1];
      NoneFired(init);
      assert trace == init + [last];
    }
  }

  /** What sd-event said when interest arose from nothing holds until it arises again. */
  lemma {:induction false} AcceptedSince(trace: seq<Event>, e: Event, later: seq<Event>)
    requires e.Call? && Fold(trace) == NO_INTEREST && Fold(trace + [e]) != NO_INTEREST
    requires forall n | 0 <= n < |later| :: Fold(trace + [e] + later[..n]) != NO_INTEREST
    ensures IoAccepted(trace + [e] + later) == e.ok
  {
    hide Fold, IoAccepted, CurrentTimeout, CountFired, TimerAccepted;
    TraceAppend(trace, e);
    if later == [] {
      assert trace + [e] + later == trace + [e];
    } else {
      var init, last := later[..|later| - 1], later[|later| - 1];
      forall n | 0 <= n < |init| ensures Fold(trace + [e] + init[..n]) != NO_INTEREST {
        assert init[..n] == later[..n];
      }
      AcceptedSince(trace, e, init);
      TraceAppend(trace + [e] + init, last);
      assert trace + [e] + later == trace + [e] + init + [last];
    }
  }

  function Schedule(tv: Timeval): Turn { CallHook(Call(ScheduleTimer(tv), true, 0.0)) }

  /** A concrete run: a timeout is scheduled, delivered, and scheduled again; the second is set and
      never delivered, however often the loop could call the handler. */
  lemma SecondTimeoutLost(first: Timeval, second: Timeval)
    ensures RunHistory([Schedule(first), RunTimeout([]), Schedule(second), RunTimeout([])])
            == [Schedule(first).e, Fired, Schedule(second).e]
    ensures var h := RunHistory([Schedule(first), RunTimeout([]), Schedule(second)]);
            AfterTurn(h, RunTimeout([])) == h && CurrentTimeout(h) == second
  {
    var a, b := Schedule(first), Schedule(second);
    FourTurns(a, RunTimeout([]), b, RunTimeout([]));
    TraceAppend([], a.e);
    TraceAppend([a.e], Fired);
    TraceAppend([a.e, Fired], b.e);
    assert [] + [a.e] == [a.e] && [a.e] + [Fired] + [] == [a.e, Fired] && [a.e, Fired] + [b.e] == [a.e, Fired, b.e];
    assert [a.e] + [Fired] == [a.e, Fired];
    hide RunHistory, Fold, IoAccepted, TimerAccepted, CountFired;
  }

  lemma FourTurns(a: Turn, b: Turn, c: Turn, d: Turn)
    ensures RunHistory([a]) == AfterTurn([], a)
    ensures !Ends(RunHistory([a])) ==> RunHistory([a, b]) == AfterTurn(RunHistory([a]), b)
    ensures !Ends(RunHistory([a, b])) ==> RunHistory([a, b, c]) == AfterTurn(RunHistory([a, b]), c)
    ensures !Ends(RunHistory([a, b, c])) ==> RunHistory([a, b, c, d]) == AfterTurn(RunHistory([a, b, c]), d)
  {
    hide AfterTurn;
    RunAppend([], a);
    RunAppend([a], b);
    RunAppend([a, b], c);
    RunAppend([a, b, c], d);
    assert [] + [a] == [a] && [a] + [b] == [a, b] && [a, b] + [c] == [a, b, c] && [a, b, c] + [d] == [a, b, c, d];
  }

  lemma RunAppend(turns: seq<Turn>, t: Turn)
    ensures RunHistory(turns + [t]) ==
            if Ends(RunHistory(turns)) then RunHistory(turns) else AfterTurn(RunHistory(turns), t)
  {
    assert (turns + [t])[..|turns|] == turns;
  }

  /** Every run, with sd-event refusing any source it likes: no live source pointer is ever
      overwritten, and once the context is gone every source, the loop reference and the record
      have been released exactly once. However often a timer is scheduled, at most one timeout is ever
      delivered. */
  method Run(turns: seq<Turn>) returns (e: SdeventEvents)
    requires forall t | t in turns :: LawfulTurn(t)
    ensures fresh(e) && e.history == RunHistory(turns)
    ensures if Ends(e.history) then e.Gone() else e.Attached() && !e.running
    ensures CountFired(RunHistory(turns)) <= 1
    ensures e.Attached() && e.timerSource.Some? ==>
              var tv := CurrentTimeout(e.history);
              e.sources[e.timerSource.value] == Timer(tv.sec * 1000000 + tv.usec, CountFired(e.history) == 0)
  {
    hide AfterHandler, Fold, IoAccepted, TimerAccepted, CurrentTimeout, CountFired;
    e := new SdeventEvents.Attach();
    var k := 0;
    while k < |turns|
      invariant 0 <= k <= |turns| && fresh(e) && e.history == RunHistory(turns[..k])
      invariant if Ends(e.history) then e.Gone() else e.Attached() && !e.running
    {
      assert turns[..k + 1][..k] == turns[..k];
      assert LawfulTurn(turns[k]);
      if e.owner {
        match turns[k] {
          case CallHook(c) => e.Dispatch(c);
          case RunHandler(ready, r) =>
            if e.fdSource.Some? { e.Handler(ready, r); }
          case RunTimeout(script) =>
            if e.CanFire() { e.TimeoutHandler(script); }
        }
      }
      k := k + 1;
    }
    assert turns[..|turns|] == turns;
  }
}
