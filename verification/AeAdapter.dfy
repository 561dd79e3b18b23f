/** adapters/ae.h: the plainest adapter, and the reference for the others. Its handlers never
    touch the record after calling back, so the record can be freed at once. */
module AeAdapter {
  import opened Hooks

  class AeEvents {
    // the record
    var reading: bool
    var writing: bool

    // ae's side: the file events registered for the descriptor
    var registered: Interest

    var owner: bool  // the context exists

    ghost var live: bool
    ghost var frees: nat
    ghost var history: seq<Event>

    function Presented(): Interest
      reads this
    {
      registered
    }

    ghost predicate Attached()
      reads this
    {
      && live && frees == 0 && owner && !Ends(history)
      && Interest(reading, writing) == Fold(history) && registered == Fold(history)
    }

    ghost predicate Gone()
      reads this
    {
      !live && frees == 1 && !owner && registered == NO_INTEREST && Ends(history)
    }

    constructor Attach()
      ensures Attached() && history == []
    {
      reading, writing, registered, owner := false, false, NO_INTEREST, true;
      live, frees, history := true, 0, [];
    }

    // ae

    method CreateFileEvent(mask: Interest)
      modifies this`registered
      ensures registered == old(registered).Or(mask)
    {
      registered := registered.Or(mask);
    }

    method DeleteFileEvent(mask: Interest)
      modifies this`registered
      ensures registered == old(registered).AndNot(mask)
    {
      registered := registered.AndNot(mask);
    }

    // the hooks

    method AddReadHook()
      requires live && registered == Interest(reading, writing)
      modifies this`reading, this`registered
      ensures reading && registered == Interest(reading, writing)
    {
      if !reading {
        reading := true;
        CreateFileEvent(READ);
      }
    }

    method AddWriteHook()
      requires live && registered == Interest(reading, writing)
      modifies this`writing, this`registered
      ensures writing && registered == Interest(reading, writing)
    {
      if !writing {
        writing := true;
        CreateFileEvent(WRITE);
      }
    }

    method DelReadHook()
      requires live && registered == Interest(reading, writing)
      modifies this`reading, this`registered
      ensures !reading && registered == Interest(reading, writing)
    {
      if reading {
        reading := false;
        DeleteFileEvent(READ);
      }
    }

    method DelWriteHook()
      requires live && registered == Interest(reading, writing)
      modifies this`writing, this`registered
      ensures !writing && registered == Interest(reading, writing)
    {
      if writing {
        writing := false;
        DeleteFileEvent(WRITE);
      }
    }

    method CleanupHook()
      requires live && frees == 0 && registered == Interest(reading, writing)
      modifies this`reading, this`writing, this`registered, this`live, this`frees
      ensures !live && frees == 1 && registered == NO_INTEREST
    {
      DelReadHook();
      DelWriteHook();
      live, frees := false, 1;
    }

    /** One call through the context's function table, which has no timer hook. */
    method Dispatch(e: Event)
      requires Attached() && e.Call?
      modifies this
      ensures history == old(history) + [e]
      ensures if Ends(history) then Gone() else Attached()
    {
      FoldAppend(history, e);
      match e.hook {
        case AddRead => AddReadHook();
        case DelRead => DelReadHook();
        case AddWrite => AddWriteHook();
        case DelWrite => DelWriteHook();
        case ScheduleTimer(_) =>
        case Cleanup => CleanupHook(); owner := false;
      }
      history := history + [e];
    }

    /** A file event calls the context back once and does not touch the record afterwards. */
    method Callback(script: seq<Event>)
      requires Attached() && Lawful(script)
      modifies this
      ensures history == old(history) + script
      ensures if Ends(history) then Gone() else Attached()
    {
      for k := 0 to |script|
        invariant history == old(history) + script[..k]
        invariant if Ends(history) then Gone() else Attached()
        invariant k < |script| ==> !Ends(history)
      {
        Dispatch(script[k]);
        assert script[..k + 1] == script[..k] + [script[k]];
      }
      assert script[..|script|] == script;
    }
  }

  datatype Turn =
    | CallHook(e: Event)
    | Ready(mask: Interest, script: seq<Event>)

  ghost predicate LawfulTurn(t: Turn) {
    match t
    case CallHook(e) => e.Call?
    case Ready(_, script) => Lawful(script)
  }

  /** ae delivers only events that are registered. */
  function AfterTurn(h: seq<Event>, t: Turn): seq<Event> {
    match t
    case CallHook(e) => h + [e]
    case Ready(mask, script) => if Fold(h).And(mask) != NO_INTEREST then h + script else h
  }

  /** The history after a whole run; nothing happens any more once the context is gone. */
  function RunHistory(turns: seq<Turn>): seq<Event> {
    if turns == [] then []
    else
      var h := RunHistory(turns[..|turns| - 1]);
      if Ends(h) then h else AfterTurn(h, turns[|turns| - 1])
  }

  /** As long as the context lives, every hook call counts, and readiness for something asked for. */
  lemma NextTurn(turns: seq<Turn>, t: Turn)
    ensures var h := RunHistory(turns);
            RunHistory(turns + [t]) ==
            if Ends(h) then h
            else if t.CallHook? then h + [t.e]
            else if (Fold(h).read && t.mask.read) || (Fold(h).write && t.mask.write) then h + t.script else h
  {
    hide Fold;
    assert (turns + [t])[..|turns|] == turns;
  }

  /** Every run: the record is freed exactly once, by cleanup, and nothing stays registered. */
  method Run(turns: seq<Turn>) returns (e: AeEvents)
    requires forall t | t in turns :: LawfulTurn(t)
    ensures fresh(e) && e.history == RunHistory(turns)
    ensures if Ends(e.history) then e.Gone() else e.Attached()
    ensures e.Presented() == Fold(e.history)
  {
    e := new AeEvents.Attach();
    var k := 0;
    while k < |turns|
      invariant 0 <= k <= |turns| && fresh(e) && e.history == RunHistory(turns[..k])
      invariant if Ends(e.history) then e.Gone() else e.Attached()
    {
      assert turns[..k + 1][..k] == turns[..k];
      assert LawfulTurn(turns[k]);
      if e.owner {
        match turns[k] {
          case CallHook(c) => e.Dispatch(c);
          case Ready(mask, script) =>
            if e.registered.And(mask) != NO_INTEREST { e.Callback(script); }
        }
      }
      k := k + 1;
    }
    assert turns[..|turns|] == turns;
  }
}
