/**
 The calendar colour that the backend pushes to the server.

 Each change of the source runs a handler. A handler reads the colour of the source, then takes the
 lock of the baseline, compares, pushes a colour that differs, and records it if the push succeeds.
 The colour is read before the lock is taken, so handlers can overtake one another.
 */
module ColorBaseline {
  import opened Options

  type Color = Option<string>

  datatype Handler = Idle | HasRead(color: Color) | Holding(color: Color)

  /** `pushes` lists the colours that the server accepted, the latest last. */
  datatype State = State(source: Color, server: Color, baseline: Color, lock: Option<nat>, handlers: seq<Handler>, pushes: seq<Color>)

  datatype Step =
    | SetSource(color: Color)
    | Read(handler: nat)
    | Lock(handler: nat)
    | Finish(handler: nat, accepted: bool)

  predicate Start(s: State) {
    s.baseline == None && s.lock == None && s.pushes == [] && forall t :: 0 <= t < |s.handlers| ==> s.handlers[t] == Idle
  }

  predicate Enabled(s: State, step: Step) {
    match step
    case SetSource(_) => true
    case Read(t) => t < |s.handlers| && s.handlers[t].Idle?
    case Lock(t) => t < |s.handlers| && s.handlers[t].HasRead? && s.lock.None?
    case Finish(t, _) => t < |s.handlers| && s.handlers[t].Holding?
  }

  /** The outcome of a handler that read `color`. */
  datatype Outcome = Unchanged | Pushed(color: Color) | Failed

  function OnSourceChanged(current: Color, baseline: Color, accepted: bool): (outcome: Outcome) {
    if current == baseline then Unchanged else if accepted then Pushed(current) else Failed
  }

  function After(s: State, step: Step): (r: State)
    requires Enabled(s, step)
  {
    match step
    case SetSource(color) => s.(source := color)
    case Read(t) => s.(handlers := s.handlers[t := HasRead(s.source)])
    case Lock(t) => s.(handlers := s.handlers[t := Holding(s.handlers[t].color)], lock := Some(t))
    case Finish(t, accepted) =>
      var free := s.(handlers := s.handlers[t := Idle], lock := None);
      match OnSourceChanged(s.handlers[t].color, s.baseline, accepted)
      case Pushed(color) => free.(server := color, baseline := color, pushes := s.pushes + [color])
      case _ => free
  }

  predicate Legal(init: State, steps: seq<Step>)
    decreases |steps|, 0
  {
    steps == [] || (Legal(init, steps[..|steps| - 1]) && Enabled(Run(init, steps[..|steps| - 1]), steps[|steps| - 1]))
  }

  function Run(init: State, steps: seq<Step>): (s: State)
    requires Legal(init, steps)
    decreases |steps|, 1
  {
    if steps == [] then init else After(Run(init, steps[..|steps| - 1]), steps[|steps| - 1])
  }

  // ---------------------------------------------------------------------------
  // The handler as the backend runs it

  /** The baseline of the backend and the colour on the server. */
  class Backend {
    var server: Color
    var baseline: Color

    constructor (server: Color)
      ensures this.server == server && baseline == None
    {
      this.server, baseline := server, None;
    }

    /** What a handler does under the lock. */
    method SourceChanged(current: Color, accepted: bool) returns (outcome: Outcome)
      modifies this
      ensures outcome == OnSourceChanged(current, old(baseline), accepted)
      ensures outcome.Pushed? ==> baseline == server == current
      ensures !outcome.Pushed? ==> baseline == old(baseline) && server == old(server)
    {
      if current == baseline {
        return Unchanged;
      }
      if !accepted {
        return Failed;
      }
      server := current;
      baseline := current;
      return Pushed(current);
    }
  }

  // ---------------------------------------------------------------------------
  // What every run keeps

  function LastPush(pushes: seq<Color>): (color: Color) {
    if pushes == [] then None else pushes[|pushes| - 1]
  }

  /** No accepted colour repeats the one before it, and the first is a colour. */
  predicate NoRepeat(pushes: seq<Color>) {
    && (forall i :: 0 <= i < |pushes| - 1 ==> pushes[i] != pushes[i + 1])
    && (pushes != [] ==> pushes[0] != None)
  }

  /** At most one handler holds the lock. */
  predicate OneHolder(s: State) {
    forall t :: 0 <= t < |s.handlers| ==> (s.handlers[t].Holding? <==> s.lock == Some(t))
  }

  predicate Inv(init: State, s: State) {
    && s.baseline == LastPush(s.pushes)
    && NoRepeat(s.pushes)
    && OneHolder(s)
    && s.server == (if s.pushes == [] then init.server else s.baseline)
    && |s.handlers| == |init.handlers|
  }

  lemma {:induction false} InvStep(init: State, s: State, step: Step)
    requires Inv(init, s) && Enabled(s, step)
    ensures Inv(init, After(s, step))
  {
  }

  /** In every interleaving the baseline is the last colour that the server accepted, no accepted
      colour repeats, and after the first one the server has the baseline. */
  lemma {:induction false} BaselineIsLastPush(init: State, steps: seq<Step>)
    requires Start(init) && Legal(init, steps)
    ensures Inv(init, Run(init, steps))
  {
    if steps != [] {
      BaselineIsLastPush(init, steps[..|steps| - 1]);
      InvStep(init, Run(init, steps[..|steps| - 1]), steps[|steps| - 1]);
    }
  }

  /** A colour that the source had at some time of the run. */
  predicate WasSource(init: State, steps: seq<Step>, color: Color) {
    color == init.source || exists k :: 0 <= k < |steps| && steps[k] == SetSource(color)
  }

  predicate FromSource(init: State, steps: seq<Step>, s: State) {
    && WasSource(init, steps, s.source)
    && (forall t :: 0 <= t < |s.handlers| && !s.handlers[t].Idle? ==> WasSource(init, steps, s.handlers[t].color))
    && (forall i :: 0 <= i < |s.pushes| ==> WasSource(init, steps, s.pushes[i]))
  }

  /** Only colours that the source had reach the server. */
  lemma {:induction false} PushesComeFromSource(init: State, steps: seq<Step>)
    requires Start(init) && Legal(init, steps)
    ensures FromSource(init, steps, Run(init, steps))
  {
    if steps != [] {
      var before, last := steps[..|steps| - 1], steps[|steps| - 1];
      PushesComeFromSource(init, before);
      assert forall color :: WasSource(init, before, color) ==> WasSource(init, steps, color) by {
        assert forall k :: 0 <= k < |before| ==> steps[k] == before[k];
      }
      if last.SetSource? {
        assert steps[|steps| - 1] == SetSource(last.color);
      }
    }
  }

  lemma {:induction false} PrefixLegal(init: State, steps: seq<Step>, n: nat)
    requires Legal(init, steps) && n <= |steps|
    ensures Legal(init, steps[..n])
    decreases |steps|
  {
    if n < |steps| {
      assert steps[..|steps| - 1][..n] == steps[..n];
      PrefixLegal(init, steps[..|steps| - 1], n);
    } else {
      assert steps[..n] == steps;
    }
  }

  /** The state after the first `n` steps of a run. */
  function StateAt(init: State, steps: seq<Step>, n: nat): (s: State)
    requires Legal(init, steps) && n <= |steps|
  {
    PrefixLegal(init, steps, n);
    Run(init, steps[..n])
  }

  /** The accepted colours only grow, and the baseline changes only with them. */
  lemma {:induction false} PushesGrow(init: State, steps: seq<Step>, n: nat)
    requires Legal(init, steps) && n <= |steps|
    ensures StateAt(init, steps, n).pushes <= Run(init, steps).pushes
    ensures StateAt(init, steps, n).pushes == Run(init, steps).pushes ==> StateAt(init, steps, n).baseline == Run(init, steps).baseline
    decreases |steps|
  {
    if n < |steps| {
      assert steps[..|steps| - 1][..n] == steps[..n];
      PushesGrow(init, steps[..|steps| - 1], n);
    } else {
      assert steps[..n] == steps;
    }
  }

  /** The push of a handler that read `color` fails at step `n`. */
  predicate FailsAt(init: State, steps: seq<Step>, n: nat, color: Color)
    requires Legal(init, steps)
  {
    && n < |steps| && steps[n].Finish?
    && var s := StateAt(init, steps, n);
      && Enabled(s, steps[n])
      && s.handlers[steps[n].handler].color == color
      && OnSourceChanged(color, s.baseline, steps[n].accepted).Failed?
  }

  /** In every run, after a push of a colour failed and as long as none was accepted since, every
      handler that comes to hold the lock with that colour pushes it, and it reaches the server if it
      is accepted. */
  lemma {:induction false} FailureIsRetried(init: State, steps: seq<Step>, n: nat, color: Color, u: nat, accepted: bool)
    requires Legal(init, steps) && FailsAt(init, steps, n, color)
    requires Run(init, steps).pushes == StateAt(init, steps, n + 1).pushes
    requires Enabled(Run(init, steps), Finish(u, accepted)) && Run(init, steps).handlers[u].color == color
    ensures var s := Run(init, steps);
            var next := After(s, Finish(u, accepted));
            && OnSourceChanged(color, s.baseline, accepted) == (if accepted then Pushed(color) else Failed)
            && (accepted ==> next.server == color && next.baseline == color && next.pushes == s.pushes + [color])
  {
    PrefixLegal(init, steps, n + 1);
    assert steps[..n + 1][..n] == steps[..n];
    PushesGrow(init, steps, n + 1);
  }

  lemma {:induction false} Extend(init: State, steps: seq<Step>, step: Step)
    requires Legal(init, steps) && Enabled(Run(init, steps), step)
    ensures Legal(init, steps + [step]) && Run(init, steps + [step]) == After(Run(init, steps), step)
  {
  }

  // ---------------------------------------------------------------------------
  // When the server ends with the colour of the source

  /** The last handler to finish: what it had read, and what came of it. */
  function LastFinish(init: State, steps: seq<Step>): (r: Option<(Color, Outcome)>)
    requires Legal(init, steps)
  {
    if steps == [] then None
    else
      var before, last := steps[..|steps| - 1], steps[|steps| - 1];
      if last.Finish? then
        var s := Run(init, before);
        var color := s.handlers[last.handler].color;
        Some((color, OnSourceChanged(color, s.baseline, last.accepted)))
      else LastFinish(init, before)
  }

  lemma {:induction false} BaselineIsLastRead(init: State, steps: seq<Step>)
    requires Start(init) && Legal(init, steps)
    ensures LastFinish(init, steps).None? ==> Run(init, steps).pushes == []
    ensures LastFinish(init, steps).Some? && !LastFinish(init, steps).value.1.Failed? ==>
              Run(init, steps).baseline == LastFinish(init, steps).value.0
  {
    if steps != [] {
      BaselineIsLastRead(init, steps[..|steps| - 1]);
    }
  }

  /** After a first push, if the last handler pushed or had nothing to push, the server has the colour of the
      source exactly if that handler had read the colour that the source has now. */
  lemma {:induction false} ConvergesExactly(init: State, steps: seq<Step>)
    requires Start(init) && Legal(init, steps)
    requires LastFinish(init, steps).Some? && !LastFinish(init, steps).value.1.Failed? && Run(init, steps).pushes != []
    ensures Run(init, steps).server == Run(init, steps).source <==> LastFinish(init, steps).value.0 == Run(init, steps).source
  {
    BaselineIsLastRead(init, steps);
    BaselineIsLastPush(init, steps);
  }

  const RED: Color := Some("#ff0000")
  const BLUE: Color := Some("#0000ff")

  /** Two handlers that overtake one another leave the server with the older colour, although no push
      failed and no handler is left. */
  lemma {:induction false} OvertakenHandlerWins()
    ensures exists steps ::
              var init := State(RED, None, None, None, [Idle, Idle], []);
              && Legal(init, steps) && Run(init, steps).handlers == [Idle, Idle]
              && Run(init, steps).source == BLUE && Run(init, steps).server == RED
  {
    var init := State(RED, None, None, None, [Idle, Idle], []);
    var a := [Read(0)];
    var b := a + [SetSource(BLUE)];
    var c := b + [Read(1)];
    var d := c + [Lock(1)];
    var e := d + [Finish(1, true)];
    var f := e + [Lock(0)];
    var g := f + [Finish(0, true)];
    assert a == [] + [Read(0)];
    Extend(init, [], Read(0));
    Extend(init, a, SetSource(BLUE));
    Extend(init, b, Read(1));
    Extend(init, c, Lock(1));
    Extend(init, d, Finish(1, true));
    Extend(init, e, Lock(0));
    Extend(init, f, Finish(0, true));
    assert RED != BLUE by {
      assert RED.value[1] != BLUE.value[1];
    }
    assert Run(init, g).server == RED;
  }
}
