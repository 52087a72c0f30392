/**
 The listener that outlives an Active turn: handlers are swapped behind it, requests are
 counted before they look up their handler, and stepping down waits for a moment with
 no request in flight.
 */
module Quiescence {

  /** What answers requests: the Passive surface, or the full API of one Active turn. */
  datatype Surface = Passive | Active(turn: nat)

  datatype Server = Server(handler: Surface, inflight: int)

  function Begun(s: Server): Server {
    s.(inflight := s.inflight + 1)
  }

  function Ended(s: Server): Server {
    s.(inflight := s.inflight - 1)
  }

  function Swapped(s: Server, h: Surface): Server {
    s.(handler := h)
  }

  // ----- the server's own steps

  class InstanceServer {
    var handler: Surface
    var inflight: int

    function Now(): Server
      reads this
    {
      Server(handler, inflight)
    }

    constructor (initial: Surface)
      ensures Now() == Server(initial, 0)
    {
      handler, inflight := initial, 0;
    }

    method Begin()
      modifies this
      ensures Now() == Begun(old(Now()))
    {
      inflight := inflight + 1;
    }

    method Load() returns (h: Surface)
      ensures h == handler
    {
      h := handler;
    }

    method End()
      modifies this
      ensures Now() == Ended(old(Now()))
    {
      inflight := inflight - 1;
    }

    /** One request with no other in between: counted, answered by the current handler, uncounted. */
    method ServeHTTP() returns (h: Surface)
      modifies this
      ensures h == old(handler) && Now() == old(Now())
    {
      Begin();
      h := Load();
      End();
    }

    method ServeWith(h: Surface)
      modifies this
      ensures Now() == Swapped(old(Now()), h)
    {
      handler := h;
    }
  }

  /**
   Drain polls until it reads zero or time is up. The readings are what the polls see; the
   deadline falls after some number of them.
   */
  method Drain(readings: seq<int>, polls: nat) returns (quiet: bool, last: nat)
    requires polls < |readings|
    ensures last <= polls && quiet == (readings[last] == 0)
    ensures quiet || last == polls
    ensures forall i :: 0 <= i < last ==> readings[i] != 0
  {
    last := 0;
    while readings[last] != 0
      invariant last <= polls && forall i :: 0 <= i < last ==> readings[i] != 0
      decreases polls - last
    {
      if last == polls {
        return false, last;
      }
      last := last + 1;
    }
    quiet := true;
  }

  // ----- requests and turns, interleaved

  /** A request between its increment and its decrement. */
  datatype Request = Counted | On(surface: Surface) | Answered

  datatype Control =
    | Idle(turns: nat)
    | Serving(turn: nat)
    | Draining(turn: nat)
    | Drained(turn: nat)
    | GaveUp(turn: nat)

  datatype World = World(server: Server, requests: map<nat, Request>, control: Control)

  datatype Step =
    | Count(id: nat)
    | LookUp(id: nat)
    | Answer(id: nat)
    | Uncount(id: nat)
    | Activate
    | SwapBack
    | ReadZero
    | TimeOut
    | EndTurn

  predicate Enabled(w: World, s: Step) {
    match s
    case Count(id) => id !in w.requests
    case LookUp(id) => id in w.requests && w.requests[id].Counted?
    case Answer(id) => id in w.requests && w.requests[id].On?
    case Uncount(id) => id in w.requests && w.requests[id].Answered?
    case Activate => w.control.Idle?
    case SwapBack => w.control.Serving?
    case ReadZero => w.control.Draining? && w.server.inflight == 0
    case TimeOut => w.control.Draining? && w.server.inflight != 0
    case EndTurn => w.control.Drained?
  }

  function After(w: World, s: Step): World
    requires Enabled(w, s)
  {
    match s
    case Count(id) => w.(server := Begun(w.server), requests := w.requests[id := Counted])
    case LookUp(id) => w.(requests := w.requests[id := On(w.server.handler)])
    case Answer(id) => w.(requests := w.requests[id := Answered])
    case Uncount(id) => w.(server := Ended(w.server), requests := w.requests - {id})
    case Activate => w.(server := Swapped(w.server, Active(w.control.turns)), control := Serving(w.control.turns))
    case SwapBack => w.(server := Swapped(w.server, Passive), control := Draining(w.control.turn))
    case ReadZero => w.(control := Drained(w.control.turn))
    case TimeOut => w.(control := GaveUp(w.control.turn))
    case EndTurn => w.(control := Idle(w.control.turn + 1))
  }

  ghost predicate IsRun(run: seq<World>, steps: seq<Step>) {
    && |run| == |steps| + 1 && run[0] == World(Server(Passive, 0), map[], Idle(0))
    && forall i {:trigger steps[i]} :: 0 <= i < |steps| ==>
       Enabled(run[i], steps[i]) && run[i + 1] == After(run[i], steps[i])
  }

  ghost predicate RunningOn(w: World, turn: nat) {
    exists id :: id in w.requests && w.requests[id] == On(Active(turn))
  }

  /** The turns no request may still be running on. */
  function Over(c: Control): nat {
    match c
    case Idle(turns) => turns
    case Drained(turn) => turn + 1
    case Serving(turn) => turn
    case Draining(turn) => turn
    case GaveUp(turn) => turn
  }

  /** A request on an Active handler is on the handler of the turn not yet drained. */
  ghost predicate CurrentTurnOnly(r: Request, c: Control) {
    r.On? && r.surface.Active? ==> !c.Idle? && !c.Drained? && r.surface.turn == c.turn
  }

  ghost predicate Inv(w: World) {
    && w.server.inflight == |w.requests|
    && w.server.handler == (if w.control.Serving? then Active(w.control.turn) else Passive)
    && forall id :: id in w.requests ==> CurrentTurnOnly(w.requests[id], w.control)
  }

  lemma StepKeepsInv(w: World, s: Step)
    requires Inv(w) && Enabled(w, s)
    ensures Inv(After(w, s))
  {
  }

  lemma {:induction false} RunKeepsInv(run: seq<World>, steps: seq<Step>, i: nat)
    requires IsRun(run, steps) && i < |run|
    ensures Inv(run[i])
  {
    if i > 0 {
      RunKeepsInv(run, steps, i - 1);
      StepKeepsInv(run[i - 1], steps[i - 1]);
    }
  }

  lemma OverNeverShrinks(w: World, s: Step)
    requires Enabled(w, s)
    ensures Over(w.control) <= Over(After(w, s).control)
  {
  }

  lemma {:induction false} OverGrows(run: seq<World>, steps: seq<Step>, i: nat, j: nat)
    requires IsRun(run, steps) && i <= j < |run|
    ensures Over(run[i].control) <= Over(run[j].control)
  {
    if i < j {
      OverGrows(run, steps, i, j - 1);
      OverNeverShrinks(run[j - 1], steps[j - 1]);
    }
  }

  /**
   Once the Passive surface is back and a poll has read zero, no request is running on
   that turn's handler or on an earlier one's, and none ever will, through any later turn.
   */
  lemma DrainedIsForever(run: seq<World>, steps: seq<Step>, i: nat, j: nat, turn: nat)
    requires IsRun(run, steps) && i <= j < |run|
    requires run[i].control.Drained? && turn <= run[i].control.turn
    ensures !RunningOn(run[j], turn)
  {
    OverGrows(run, steps, i, j);
    RunKeepsInv(run, steps, j);
  }

  /** A drain that times out proves nothing: the turn's last request may still be running. */
  lemma TimeOutProvesNothing() returns (run: seq<World>, steps: seq<Step>)
    ensures IsRun(run, steps) && run[|steps|].control == GaveUp(0) && RunningOn(run[|steps|], 0)
  {
    steps := [Activate, Count(7), LookUp(7), SwapBack, TimeOut];
    var w0 := World(Server(Passive, 0), map[], Idle(0));
    var w1 := After(w0, Activate);
    var w2 := After(w1, Count(7));
    var w3 := After(w2, LookUp(7));
    var w4 := After(w3, SwapBack);
    var w5 := After(w4, TimeOut);
    run := [w0, w1, w2, w3, w4, w5];
    assert w5.requests[7] == On(Active(0));
  }

  // ----- what becomes of a request, and of a turn

  /** The steps of one request. */
  function StepsOf(steps: seq<Step>, id: nat): seq<Step> {
    if steps == [] then []
    else
      var s := steps[|steps| - 1];
      StepsOf(steps[..|steps| - 1], id) + (if s in {Count(id), LookUp(id), Answer(id), Uncount(id)} then [s] else [])
  }

  function Round(id: nat): seq<Step> {
    [Count(id), LookUp(id), Answer(id), Uncount(id)]
  }

  /** What is known of a request that took this many steps of its round. */
  ghost predicate AsFarAs(w: World, id: nat, phase: nat) {
    match phase
    case 0 => id !in w.requests
    case 1 => id in w.requests && w.requests[id].Counted?
    case 2 => id in w.requests && w.requests[id].On?
    case _ => id in w.requests && w.requests[id].Answered?
  }

  /** Every request is counted, looks up its handler, is answered and uncounted, in this order. */
  lemma {:induction false} RequestsGoRound(run: seq<World>, steps: seq<Step>, i: nat, id: nat)
    requires IsRun(run, steps) && i < |run|
    ensures var own := StepsOf(steps[..i], id);
            && (forall k :: 0 <= k < |own| ==> own[k] == Round(id)[k % 4])
            && AsFarAs(run[i], id, |own| % 4)
  {
    if i > 0 {
      RequestsGoRound(run, steps, i - 1, id);
      assert steps[..i][..i - 1] == steps[..i - 1];
      assert Enabled(run[i - 1], steps[i - 1]) && run[i] == After(run[i - 1], steps[i - 1]);
    }
  }

  /** Until it is answered a request is on the handler that was there when it looked. */
  lemma {:induction false} FoundHandler(run: seq<World>, steps: seq<Step>, i: nat, j: nat, id: nat)
    requires IsRun(run, steps) && i < j < |run| && steps[i] == LookUp(id)
    requires forall k :: i <= k < j ==> steps[k] != Answer(id)
    ensures id in run[j].requests && run[j].requests[id] == On(run[i].server.handler)
    decreases j
  {
    assert run[j] == After(run[j - 1], steps[j - 1]) && Enabled(run[j - 1], steps[j - 1]);
    if j > i + 1 {
      FoundHandler(run, steps, i, j - 1, id);
    }
  }

  function TurnSteps(steps: seq<Step>): seq<Step> {
    if steps == [] then []
    else
      var s := steps[|steps| - 1];
      TurnSteps(steps[..|steps| - 1]) + (if OfTurn(s) then [s] else [])
  }

  function TurnStep(k: nat): Step {
    match k % 4
    case 0 => Activate
    case 1 => SwapBack
    case 2 => ReadZero
    case _ => EndTurn
  }

  /** Where a turn stands after so many steps of all turns. */
  function ControlAt(k: nat): Control {
    match k % 4
    case 0 => Idle(k / 4)
    case 1 => Serving(k / 4)
    case 2 => Draining(k / 4)
    case _ => Drained(k / 4)
  }

  /** own are the turns' steps so far, in their round, and the control is where they lead. */
  ghost predicate InRound(own: seq<Step>, control: Control) {
    && (forall k :: 0 <= k < |own| ==> own[k] == TurnStep(k) || (own[k] == TimeOut && k == |own| - 1 && k % 4 == 2))
    && control == (if own != [] && own[|own| - 1] == TimeOut then GaveUp(|own| / 4) else ControlAt(|own|))
  }

  predicate OfTurn(s: Step) {
    s.Activate? || s.SwapBack? || s.ReadZero? || s.TimeOut? || s.EndTurn?
  }

  lemma RoundGoesOn(own: seq<Step>, w: World, s: Step)
    requires InRound(own, w.control) && Enabled(w, s)
    ensures InRound(own + (if OfTurn(s) then [s] else []), After(w, s).control)
  {
    if OfTurn(s) {
      assert !w.control.GaveUp? && w.control == ControlAt(|own|);
      assert s == TurnStep(|own|) || (s == TimeOut && |own| % 4 == 2);
    } else {
      assert own + [] == own;
    }
  }

  /**
   Turns follow one another, counted from none, each swapped in, swapped back and drained
   before it ends; a drain that times out is the last step.
   */
  lemma {:induction false} TurnsGoRound(run: seq<World>, steps: seq<Step>, i: nat)
    requires IsRun(run, steps) && i < |run|
    ensures InRound(TurnSteps(steps[..i]), run[i].control)
  {
    if i > 0 {
      TurnsGoRound(run, steps, i - 1);
      assert steps[..i][..i - 1] == steps[..i - 1];
      assert Enabled(run[i - 1], steps[i - 1]) && run[i] == After(run[i - 1], steps[i - 1]);
      RoundGoesOn(TurnSteps(steps[..i - 1]), run[i - 1], steps[i - 1]);
    }
  }

  /** A drain that times out does so with a request in flight. */
  lemma TimeOutIsBusy(run: seq<World>, steps: seq<Step>, i: nat)
    requires IsRun(run, steps) && i < |steps| && steps[i].TimeOut?
    ensures run[i].requests != map[]
  {
    RunKeepsInv(run, steps, i);
    assert Enabled(run[i], steps[i]);
  }

  /** A request can finish, on the surface the next turn's handler replaced. */
  lemma RequestsCanFinish() returns (run: seq<World>, steps: seq<Step>)
    ensures IsRun(run, steps) && steps == [Count(7), LookUp(7), Activate, Answer(7), Uncount(7)]
    ensures run[2].requests == map[7 := On(Passive)] && run[5].requests == map[]
  {
    steps := [Count(7), LookUp(7), Activate, Answer(7), Uncount(7)];
    var w0 := World(Server(Passive, 0), map[], Idle(0));
    var w1 := After(w0, Count(7));
    var w2 := After(w1, LookUp(7));
    var w3 := After(w2, Activate);
    var w4 := After(w3, Answer(7));
    var w5 := After(w4, Uncount(7));
    run := [w0, w1, w2, w3, w4, w5];
  }

  /** A turn can be drained, and the next one activated. */
  lemma TurnsCanFollow() returns (run: seq<World>, steps: seq<Step>)
    ensures IsRun(run, steps) && run[|steps|].control == Serving(1)
  {
    steps := [Activate, SwapBack, ReadZero, EndTurn, Activate];
    var w0 := World(Server(Passive, 0), map[], Idle(0));
    var w1 := After(w0, Activate);
    var w2 := After(w1, SwapBack);
    var w3 := After(w2, ReadZero);
    var w4 := After(w3, EndTurn);
    var w5 := After(w4, Activate);
    run := [w0, w1, w2, w3, w4, w5];
  }
}
