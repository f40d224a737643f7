/** The call tracer of evm-ds: a stack of call contexts folded into a call tree. */
module Tracer {

  /** `CallContext`, without the fields that are only copied. */
  datatype Context = Context(from: string, to: string, output: string, calls: seq<Context>)

  /**
    What the listener is told: a fresh invocation pushes its context, every invocation ends by noting its output on
    the last context, and one that ran to its exit finishes it.
  */
  datatype Event = Push(to: string) | Note(output: string) | Finish

  function Last(stack: seq<Context>): Context
    requires stack != []
  {
    stack[|stack| - 1]
  }

  function SetLast(stack: seq<Context>, c: Context): seq<Context>
    requires stack != []
  {
    stack[..|stack| - 1] + [c]
  }

  function Step(origin: string, stack: seq<Context>, e: Event): seq<Context> {
    match e
    case Push(to) => stack + [Context(if stack == [] then origin else Last(stack).to, to, "", [])]
    case Note(output) => if stack == [] then stack else SetLast(stack, Last(stack).(output := output))
    case Finish =>
      if |stack| <= 1 then stack
      else
        var below := stack[..|stack| - 1];
        SetLast(below, Last(below).(calls := Last(below).calls + [Last(stack)]))
  }

  function Replay(origin: string, stack: seq<Context>, events: seq<Event>): seq<Context> {
    if events == [] then stack
    else Step(origin, Replay(origin, stack, events[..|events| - 1]), events[|events| - 1])
  }

  lemma {:induction false} ReplayConcat(origin: string, stack: seq<Context>, a: seq<Event>, b: seq<Event>)
    ensures Replay(origin, stack, a + b) == Replay(origin, Replay(origin, stack, a), b)
  {
    if b == [] {
      assert a + b == a;
    } else {
      var init := b[..|b| - 1];
      assert (a + b)[..|a + b| - 1] == a + init;
      ReplayConcat(origin, stack, a, init);
    }
  }

  lemma ReplayOne(origin: string, stack: seq<Context>, e: Event)
    ensures Replay(origin, stack, [e]) == Step(origin, stack, e)
  {
    assert [e][..0] == [];
    assert Replay(origin, stack, []) == stack;
  }

  /** Whatever the events, a stack that holds a context keeps holding one. */
  lemma {:induction false} NeverEmptied(origin: string, stack: seq<Context>, events: seq<Event>)
    requires stack != []
    ensures Replay(origin, stack, events) != []
  {
    if events != [] {
      NeverEmptied(origin, stack, events[..|events| - 1]);
    }
  }

  // ---------- call trees ----------

  /** A call that notes `first` when it first traps or exits, and makes inner calls, noting again after each of them. */
  datatype Call = Call(to: string, first: string, inner: seq<Inner>)

  datatype Inner = Inner(call: Call, after: string)

  function Events(c: Call): seq<Event> {
    [Push(c.to), Note(c.first)] + InnerEvents(c.inner) + [Finish]
  }

  function InnerEvents(inner: seq<Inner>): seq<Event> {
    if inner == [] then []
    else
      var x := inner[|inner| - 1];
      InnerEvents(inner[..|inner| - 1]) + Events(x.call) + [Note(x.after)]
  }

  /** The tree the calls form: each inner call comes from its caller, and a call's output is what it noted last. */
  function Tree(from: string, c: Call): Context
    decreases c
  {
    Context(from, c.to, if c.inner == [] then c.first else c.inner[|c.inner| - 1].after, Trees(c.to, c.inner))
  }

  function Trees(from: string, inner: seq<Inner>): seq<Context>
    decreases inner
  {
    if inner == [] then [] else Trees(from, inner[..|inner| - 1]) + [Tree(from, inner[|inner| - 1].call)]
  }

  /** Where a finished call's tree goes: into the context below, or, for the outermost call, onto the empty stack. */
  function Attached(origin: string, stack: seq<Context>, c: Call): seq<Context> {
    if stack == [] then [Tree(origin, c)]
    else SetLast(stack, Last(stack).(calls := Last(stack).calls + [Tree(Last(stack).to, c)]))
  }

  /** The events of a whole call, however deep it nests, put exactly its tree in place and touch nothing else. */
  lemma {:induction false} CallBuildsTree(origin: string, stack: seq<Context>, c: Call)
    ensures Replay(origin, stack, Events(c)) == Attached(origin, stack, c)
    decreases c
  {
    var from := if stack == [] then origin else Last(stack).to;
    var started := stack + [Context(from, c.to, c.first, [])];
    ReplayConcat(origin, stack, [Push(c.to)], [Note(c.first)]);
    ReplayOne(origin, stack, Push(c.to));
    ReplayOne(origin, Replay(origin, stack, [Push(c.to)]), Note(c.first));
    assert [Push(c.to)] + [Note(c.first)] == [Push(c.to), Note(c.first)];
    assert Replay(origin, stack, [Push(c.to), Note(c.first)]) == started;
    InnerBuildTrees(origin, stack, Context(from, c.to, c.first, []), c.inner);
    ReplayConcat(origin, stack, [Push(c.to), Note(c.first)], InnerEvents(c.inner));
    ReplayConcat(origin, stack, [Push(c.to), Note(c.first)] + InnerEvents(c.inner), [Finish]);
    ReplayOne(origin, stack + [Tree(from, c)], Finish);
    assert (stack + [Tree(from, c)])[..|stack|] == stack;
  }

  lemma {:induction false} InnerBuildTrees(origin: string, stack: seq<Context>, caller: Context, inner: seq<Inner>)
    requires caller.calls == []
    ensures Replay(origin, stack + [caller], InnerEvents(inner)) ==
      stack + [caller.(output := if inner == [] then caller.output else inner[|inner| - 1].after,
                       calls := Trees(caller.to, inner))]
    decreases inner
  {
    if inner != [] {
      var init, x := inner[..|inner| - 1], inner[|inner| - 1];
      InnerBuildTrees(origin, stack, caller, init);
      var top := caller.(output := if init == [] then caller.output else init[|init| - 1].after,
                         calls := Trees(caller.to, init));
      var mid := stack + [top];
      CallBuildsTree(origin, mid, x.call);
      assert mid[..|mid| - 1] == stack;
      var top' := top.(calls := top.calls + [Tree(caller.to, x.call)]);
      assert Attached(origin, mid, x.call) == stack + [top'];
      ReplayConcat(origin, stack + [caller], InnerEvents(init), Events(x.call));
      ReplayConcat(origin, stack + [caller], InnerEvents(init) + Events(x.call), [Note(x.after)]);
      ReplayOne(origin, stack + [top'], Note(x.after));
      assert (stack + [top'])[..|stack|] == stack;
    }
  }

  /** What a listener does with an event: without tracing it pushes nothing. */
  function Heard(enabled: bool, origin: string, stack: seq<Context>, e: Event): seq<Context> {
    if !enabled && e.Push? then stack else Step(origin, stack, e)
  }

  function HeardAll(enabled: bool, origin: string, stack: seq<Context>, events: seq<Event>): seq<Context> {
    if events == [] then stack
    else Heard(enabled, origin, HeardAll(enabled, origin, stack, events[..|events| - 1]), events[|events| - 1])
  }

  /** So a listener that starts empty stays empty without tracing, whatever it is told, and else replays everything. */
  lemma {:induction false} HeardIs(enabled: bool, origin: string, events: seq<Event>)
    ensures HeardAll(enabled, origin, [], events) == if enabled then Replay(origin, [], events) else []
  {
    if events != [] {
      HeardIs(enabled, origin, events[..|events| - 1]);
    }
  }

  class LoggingEventListener {
    const enabled: bool
    var callTracer: seq<Context>

    constructor (enabled: bool)
      ensures this.enabled == enabled && callTracer == []
    {
      this.enabled, callTracer := enabled, [];
    }

    /** The context a fresh invocation pushes; nothing is pushed unless tracing is on. */
    method PushCall(origin: string, to: string)
      modifies this
      ensures callTracer == Heard(enabled, origin, old(callTracer), Push(to))
    {
      var from := if callTracer == [] then origin else callTracer[|callTracer| - 1].to;
      if enabled {
        callTracer := callTracer + [Context(from, to, "", [])];
      }
    }

    method NoteOutput(ghost origin: string, output: string)
      modifies this
      ensures callTracer == Heard(enabled, origin, old(callTracer), Note(output))
    {
      if callTracer != [] {
        var end := callTracer[|callTracer| - 1];
        callTracer := callTracer[..|callTracer| - 1] + [end.(output := output)];
      }
    }

    method FinishedCall(ghost origin: string)
      modifies this
      ensures callTracer == Heard(enabled, origin, old(callTracer), Finish)
    {
      if |callTracer| > 1 {
        var end := callTracer[|callTracer| - 1];
        callTracer := callTracer[..|callTracer| - 1];
        var newEnd := callTracer[|callTracer| - 1];
        callTracer := callTracer[..|callTracer| - 1] + [newEnd.(calls := newEnd.calls + [end])];
      }
    }
  }
}
