/** All adapters side by side: the same hook trace leaves every event library watching the same
    thing, namely what the two-flag machine says. */
module Replay {
  import opened Hooks
  import AeAdapter
  import LibeventAdapter
  import LibuvAdapter
  import ModuleAdapter
  import PollAdapter
  import SdeventAdapter

  /** The interest each library is left with. */
  datatype Views = Views(
    ae: Interest, uv: Interest, event: Interest, sd: Interest, poll: Interest, server: Interest)

  /** Hooks other than cleanup, timers included, each accepted by its library. */
  predicate Taken(trace: seq<Event>) {
    forall e | e in trace :: e.Call? && e.ok && !e.hook.Cleanup?
  }

  lemma {:induction false} AllAccepted(trace: seq<Event>)
    requires Taken(trace)
    ensures SdeventAdapter.IoAccepted(trace)
  {
    if trace != [] {
      assert trace[|trace| - 1] in trace;
      AllAccepted(trace[..|trace| - 1]);
    }
  }

  method ReplayAe(trace: seq<Event>) returns (i: Interest)
    requires Taken(trace)
    ensures i == Fold(trace)
  {
    var a := new AeAdapter.AeEvents.Attach();
    for k := 0 to |trace|
      invariant fresh(a) && a.Attached() && a.history == trace[..k]
    {
      assert trace[k] in trace && trace[..k + 1] == trace[..k] + [trace[k]];
      a.Dispatch(trace[k]);
    }
    assert trace[..|trace|] == trace;
    i := a.Presented();
  }

  method ReplayLibuv(trace: seq<Event>) returns (i: Interest)
    requires Taken(trace)
    ensures i == Fold(trace)
  {
    var a := new LibuvAdapter.LibuvEvents.Attach();
    for k := 0 to |trace|
      invariant fresh(a) && a.Attached() && a.history == trace[..k]
    {
      assert trace[k] in trace && trace[..k + 1] == trace[..k] + [trace[k]];
      a.Dispatch(trace[k]);
    }
    assert trace[..|trace|] == trace;
    i := a.Presented();
  }

  method ReplayLibevent(trace: seq<Event>) returns (i: Interest)
    requires Taken(trace)
    ensures i == Fold(trace)
  {
    var a := new LibeventAdapter.LibeventEvents.Attach();
    for k := 0 to |trace|
      invariant fresh(a) && a.Attached() && a.history == trace[..k]
    {
      assert trace[k] in trace && trace[..k + 1] == trace[..k] + [trace[k]];
      a.Dispatch(trace[k]);
    }
    assert trace[..|trace|] == trace;
    i := a.Presented();
  }

  method ReplaySdevent(trace: seq<Event>) returns (i: Interest)
    requires Taken(trace)
    ensures i == Fold(trace)
  {
    var a := new SdeventAdapter.SdeventEvents.Attach();
    for k := 0 to |trace|
      invariant fresh(a) && a.Attached() && a.history == trace[..k]
    {
      assert trace[k] in trace && trace[..k + 1] == trace[..k] + [trace[k]];
      a.Dispatch(trace[k]);
    }
    assert trace[..|trace|] == trace;
    AllAccepted(trace);
    i := a.Presented();
  }

  method ReplayPoll(trace: seq<Event>) returns (i: Interest)
    requires Taken(trace)
    ensures i == Fold(trace)
  {
    var a := new PollAdapter.PollEvents.Attach();
    for k := 0 to |trace|
      invariant fresh(a) && a.Attached() && a.history == trace[..k]
    {
      assert trace[k] in trace && trace[..k + 1] == trace[..k] + [trace[k]];
      a.Dispatch(trace[k]);
    }
    assert trace[..|trace|] == trace;
    i := Interest(a.reading, a.writing);
  }

  method ReplayModule(trace: seq<Event>) returns (i: Interest)
    requires Taken(trace)
    ensures i == Fold(trace)
  {
    var a := new ModuleAdapter.ModuleEvents.Attach();
    for k := 0 to |trace|
      invariant fresh(a) && a.Attached() && a.history == trace[..k]
    {
      assert trace[k] in trace && trace[..k + 1] == trace[..k] + [trace[k]];
      a.Dispatch(trace[k]);
    }
    assert trace[..|trace|] == trace;
    i := a.Presented();
  }

  /** For every trace, any two adapters agree, and what they agree on is the interest the
      callers have outstanding. */
  method ReplayAll(trace: seq<Event>) returns (v: Views)
    requires Taken(trace)
    ensures v.ae == v.uv == v.event == v.sd == v.poll == v.server == Fold(trace)
    ensures v.ae.read <==> Outstanding(trace, Reading)
    ensures v.ae.write <==> Outstanding(trace, Writing)
  {
    var ae := ReplayAe(trace);
    var uv := ReplayLibuv(trace);
    var event := ReplayLibevent(trace);
    var sd := ReplaySdevent(trace);
    var poll := ReplayPoll(trace);
    var server := ReplayModule(trace);
    FoldMeaning(trace);
    v := Views(ae, uv, event, sd, poll, server);
  }

  lemma SameTwice(trace: seq<Event>, e: Event)
    requires e.Call?
    ensures Fold(trace + [e] + [e]) == Fold(trace + [e])
  {
    FoldAppend(trace, e);
    FoldAppend(trace + [e], e);
  }

  /** The hooks are idempotent: after any trace, asking twice in a row leaves all six libraries
      watching what they watch after asking once. */
  method AskTwice(trace: seq<Event>, e: Event) returns (once: Views, twice: Views)
    requires Taken(trace + [e])
    ensures once == twice && once.ae == Fold(trace + [e])
  {
    assert e in trace + [e];
    assert forall f | f in trace + [e] + [e] :: f in trace + [e];
    once := ReplayAll(trace + [e]);
    twice := ReplayAll(trace + [e] + [e]);
    SameTwice(trace, e);
  }

  /** libevent is not even registered again. */
  lemma NotRegisteredAgain(trace: seq<Event>, e: Event)
    requires e.Call? && !e.hook.ScheduleTimer? && !e.hook.Cleanup?
    ensures LibeventAdapter.Registrations(trace + [e] + [e]) == LibeventAdapter.Registrations(trace + [e])
  {
    SameTwice(trace, e);
    FoldAppend(trace + [e], e);
    LibeventAdapter.TraceAppend(trace + [e], e);
  }

  /** The hooks of one direction, in their order. */
  function Of(trace: seq<Event>, d: Direction): seq<Event> {
    if trace == [] then []
    else
      var last := trace[|trace| - 1];
      Of(trace[..|trace| - 1], d) + if Concerns(last, d) then [last] else []
  }

  predicate Concerns(e: Event, d: Direction) {
    Sets(e, d) || Clears(e, d)
  }

  function Part(i: Interest, d: Direction): bool {
    if d.Reading? then i.read else i.write
  }

  lemma OneMore(i: Interest, j: Interest, e: Event, d: Direction)
    requires Part(i, d) == Part(j, d)
    ensures Part(Apply(i, e), d) == if Concerns(e, d) then Part(Apply(j, e), d) else Part(j, d)
  {
  }

  /** The interest in a direction depends on the hooks of that direction alone. */
  lemma {:induction false} FoldOf(trace: seq<Event>, d: Direction)
    ensures Part(Fold(trace), d) == Part(Fold(Of(trace, d)), d)
  {
    if trace != [] {
      var init, last := trace[..|trace| - 1], trace[|trace| - 1];
      FoldOf(init, d);
      FoldAppend(Of(init, d), last);
      hide Apply, Concerns, Part;
      OneMore(Fold(init), Fold(Of(init, d)), last, d);
      assert Of(init, d) + [] == Of(init, d);
    }
  }

  /** For one, a read hook and a write hook that follow each other may change places. */
  lemma EitherFirst(a: seq<Event>, r: Event, w: Event, b: seq<Event>, d: Direction)
    requires r.Call? && (r.hook == AddRead || r.hook == DelRead)
    requires w.Call? && (w.hook == AddWrite || w.hook == DelWrite)
    ensures Of(a + [r, w] + b, d) == Of(a + [w, r] + b, d) == Of(a, d) + [if d.Reading? then r else w] + Of(b, d)
  {
    OfPair(a, r, w, b, d);
    OfPair(a, w, r, b, d);
    assert (Concerns(r, d) <==> d.Reading?) && (Concerns(w, d) <==> d.Writing?);
    hide *;
    var x := [if d.Reading? then r else w];
    assert Of(a, d) + [] == Of(a, d) && Of(a, d) + x + [] == Of(a, d) + x;
  }

  lemma OfPair(a: seq<Event>, e: Event, f: Event, b: seq<Event>, d: Direction)
    ensures Of(a + [e, f] + b, d) ==
            Of(a, d) + (if Concerns(e, d) then [e] else []) + (if Concerns(f, d) then [f] else []) + Of(b, d)
  {
    hide *;
    assert a + [e, f] == a + [e] + [f];
    OfAppend(a, e, d);
    OfAppend(a + [e], f, d);
    OfConcat(a + [e, f], b, d);
  }

  lemma OfAppend(trace: seq<Event>, e: Event, d: Direction)
    ensures Of(trace + [e], d) == Of(trace, d) + if Concerns(e, d) then [e] else []
  {
    assert (trace + [e])[..|trace|] == trace;
  }

  lemma {:induction false} OfConcat(a: seq<Event>, b: seq<Event>, d: Direction)
    ensures Of(a + b, d) == Of(a, d) + Of(b, d)
  {
    if b == [] {
      assert a + b == a;
    } else {
      var init, last := b[..|b| - 1], b[|b| - 1];
      assert a + b == a + init + [last] && b == init + [last];
      hide Of;
      OfConcat(a, init, d);
      OfAppend(a + init, last, d);
      OfAppend(init, last, d);
    }
  }

  /** Read hooks and write hooks do not disturb each other: however the same read hooks and the same
      write hooks are interleaved, with whatever timers between, all six libraries are left watching
      the same. */
  method EitherOrder(a: seq<Event>, b: seq<Event>) returns (v: Views, w: Views)
    requires Taken(a) && Taken(b)
    requires Of(a, Reading) == Of(b, Reading) && Of(a, Writing) == Of(b, Writing)
    ensures v == w && v.ae == Fold(a)
  {
    v := ReplayAll(a);
    w := ReplayAll(b);
    FoldOf(a, Reading);
    FoldOf(a, Writing);
    FoldOf(b, Reading);
    FoldOf(b, Writing);
  }
}
