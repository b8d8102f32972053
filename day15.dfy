/**
 * Day 15: the repair droid.  The droid tries a movement command and the
 * Intcode program (the Day 9 machine, its memory padded as
 * `Day09.PadProgram` does) reports a status: 0 hit a wall, 1 moved, 2 moved
 * onto the oxygen system.  The route back to the start is a stack of
 * `Action`s, one per panel on the current path; each action remembers the
 * commands not yet tried from its panel.  The answer is the number of actions
 * on the stack.
 */
module Day15 {
  import opened Basics

  // StatusCodes.
  const HIT_WALL := 0
  const MOVED_SUCCESSFULLY := 1
  const AT_OXYGEN_SYSTEM := 2

  /** The input sent when the oxygen system is found. */
  const STOP_SIGNAL := -1

  /** MovementCommand: four singletons with the values 1 to 4. */
  datatype Command = North | South | West | East
  {
    /** The implicit conversion to `int`. */
    function Value(): (v: int)
      ensures 1 <= v <= 4
    {
      match this
      case North => 1
      case South => 2
      case West => 3
      case East => 4
    }
  }

  /** `MovementCommand.All`, in declaration order. */
  const ALL_COMMANDS: seq<Command> := [North, South, West, East]

  /** The commands have four different values. */
  lemma ValueInjective(a: Command, b: Command)
    requires a.Value() == b.Value()
    ensures a == b
  {
  }

  /** GetOpposite. */
  function Opposite(c: Command): (r: Command)
    ensures r != c
    ensures (c == North || c == South) <==> (r == North || r == South)
  {
    if c == North then South
    else if c == South then North
    else if c == West then East
    else West
  }

  /** GetOpposite is an involution. */
  lemma OppositeInvolution(c: Command)
    ensures Opposite(Opposite(c)) == c
  {
  }

  /** GetNewPosition: North is +Y, South -Y, West -X and anything else +X. */
  function NewPosition(p: Point, c: Command): (r: Point)
    ensures Abs(r.x - p.x) + Abs(r.y - p.y) == 1
    ensures c == North ==> r == Point(p.x, p.y + 1)
    ensures c == South ==> r == Point(p.x, p.y - 1)
    ensures c == West ==> r == Point(p.x - 1, p.y)
    ensures c == East ==> r == Point(p.x + 1, p.y)
  {
    if c == North then Point(p.x, p.y + 1)
    else if c == South then Point(p.x, p.y - 1)
    else if c == West then Point(p.x - 1, p.y)
    else Point(p.x + 1, p.y)
  }

  /** Moving in the opposite direction comes straight back. */
  lemma OppositeReturns(p: Point, c: Command)
    ensures NewPosition(NewPosition(p, c), Opposite(c)) == p
  {
  }

  // ----- Action as a value ----------------------------------------------------------

  /** The state of one Action: its panel, the command being tried, the command
      it was created with and the commands not yet tried. */
  datatype ActionState = ActionState(position: Point, command: Command, original: Command, available: seq<Command>)

  /** `All.Except(new[] { c })`: removes `c` and keeps the order. */
  function Except(s: seq<Command>, c: Command): (r: seq<Command>)
    ensures forall d :: d in r <==> d in s && d != c
    ensures |r| <= |s|
  {
    if s == [] then [] else (if s[0] == c then [] else [s[0]]) + Except(s[1..], c)
  }

  /** A new Action: the three commands other than its initial one are available. */
  function NewAction(p: Point, c: Command): (a: ActionState)
    ensures a.position == p && a.command == c && a.original == c
    ensures |a.available| == 3 && c !in a.available
    ensures forall d :: d != c ==> d in a.available
  {
    ActionState(p, c, c, Except(ALL_COMMANDS, c))
  }

  /** IsMovingBackwards. */
  predicate IsMovingBackwards(a: ActionState)
  {
    a.original == Opposite(a.command)
  }

  /** An action moves backwards exactly when it tries the way it came. */
  lemma MovingBackwardsIsReturning(a: ActionState)
    ensures IsMovingBackwards(a) <==> a.command == Opposite(a.original)
  {
    OppositeInvolution(a.command);
    OppositeInvolution(a.original);
  }

  /** A new action is never moving backwards. */
  lemma NewActionForwards(p: Point, c: Command)
    ensures !IsMovingBackwards(NewAction(p, c))
  {
  }

  /** `List.Find`: the first element other than `c`. */
  function FindOther(s: seq<Command>, c: Command): (r: Option<Command>)
    ensures r.Some? ==> r.value in s && r.value != c
    ensures r.Some? ==> exists i :: 0 <= i < |s| && s[i] == r.value && forall j :: 0 <= j < i ==> s[j] == c
    ensures r.None? <==> forall d :: d in s ==> d == c
  {
    if s == [] then None
    else if s[0] != c then Some(s[0])
    else
      assert s == [s[0]] + s[1..];
      var r := FindOther(s[1..], c);
      if r.Some? then
        ghost var i :| 0 <= i < |s[1..]| && s[1..][i] == r.value && forall j :: 0 <= j < i ==> s[1..][j] == c;
        assert s[i + 1] == r.value && forall j :: 0 <= j < i + 1 ==> s[j] == c;
        r
      else
        r
  }

  /** `List.Remove`: drops the first occurrence. */
  function RemoveFirst(s: seq<Command>, c: Command): (r: seq<Command>)
    ensures c in s ==> |r| == |s| - 1 && multiset(r) + multiset{c} == multiset(s)
    ensures c !in s ==> r == s
  {
    if s == [] then []
    else if s[0] == c then
      assert s == [s[0]] + s[1..];
      s[1..]
    else
      assert s == [s[0]] + s[1..];
      [s[0]] + RemoveFirst(s[1..], c)
  }

  /** TryChangeDirection: false when nothing is left to try; otherwise the
      first available command that is not backwards, or backwards if that is
      all there is, becomes the command and is no longer available. */
  function ChangeDirection(a: ActionState): (r: (bool, ActionState))
    ensures r.0 <==> a.available != []
    ensures !r.0 ==> r.1 == a
    ensures r.1.position == a.position && r.1.original == a.original
  {
    if a.available == [] then (false, a)
    else
      var backwards := Opposite(a.original);
      var next := match FindOther(a.available, backwards)
                  case Some(d) => d
                  case None => backwards;
      (true, a.(command := next, available := RemoveFirst(a.available, next)))
  }

  /** What a successful change of direction chose: an untried command, the
      way back only when nothing else is left, and it is used up. */
  lemma ChangeDirectionChoice(a: ActionState)
    requires a.available != []
    ensures var next := ChangeDirection(a).1;
      next.command in a.available &&
      (next.command == Opposite(a.original) ==> forall d :: d in a.available ==> d == next.command) &&
      |next.available| == |a.available| - 1 &&
      multiset(next.available) + multiset{next.command} == multiset(a.available)
  {
    var backwards := Opposite(a.original);
    var found := FindOther(a.available, backwards);
    if found.None? {
      assert a.available[0] in a.available;
    }
  }

  /** An action has at most three changes of direction in it. */
  lemma {:induction false} ChangesRunOut(a: ActionState, n: nat)
    requires |a.available| <= n
    ensures !RepeatChange(a, n + 1).0
    decreases n
  {
    RepeatChangeStep(a, n + 1);
    if a.available != [] {
      ChangeDirectionChoice(a);
      ChangesRunOut(ChangeDirection(a).1, n - 1);
    } else if n > 0 {
      ChangesRunOut(a, n - 1);
    }
  }

  /** The first of `k` > 1 calls, then the other `k - 1`. */
  lemma RepeatChangeStep(a: ActionState, k: nat)
    requires k > 0
    ensures var (ok, next) := ChangeDirection(a);
      RepeatChange(a, k) == if k == 1 then (ok, next) else RepeatChange(next, k - 1)
  {
  }

  /** `k` successive TryChangeDirection calls; the flag of the last one. */
  function RepeatChange(a: ActionState, k: nat): (bool, ActionState)
    decreases k
  {
    if k == 0 then (true, a)
    else
      var (ok, next) := ChangeDirection(a);
      if k == 1 then (ok, next) else RepeatChange(next, k - 1)
  }

  // ----- the route ---------------------------------------------------------------

  datatype RouteError =
    | NowhereToGo   // the InvalidOperationException of a wall with nothing left to try
    | EmptyRoute    // `Stack.Peek` after the last action was popped

  /** The start: one action at the origin trying North, and North sent. */
  function StartRoute(): (route: seq<ActionState>)
    ensures |route| == 1
  {
    [NewAction(Point(0, 0), North)]
  }

  /** After status 1 with `rest` the route left once a dead end is popped:
      a panel not on the route gets a new action facing on; reaching the
      panel of the top action makes it try another command. */
  function ResumeRoute(rest: seq<ActionState>, newPosition: Point): (r: (seq<ActionState>, seq<int>))
    requires rest != []
    ensures r.0 != []
  {
    var top := Last(rest);
    if top.position != newPosition then
      (rest + [NewAction(newPosition, top.command)], [top.command.Value()])
    else
      var next := ChangeDirection(top).1;
      (rest[..|rest| - 1] + [next], [next.command.Value()])
  }

  /** One status code handled: the new route and the values added to the input. */
  function HandleStatus(route: seq<ActionState>, status: int): (r: Result<(seq<ActionState>, seq<int>), RouteError>)
    requires route != []
    ensures r.Ok? ==> r.value.0 != []
    ensures status != HIT_WALL && status != MOVED_SUCCESSFULLY && status != AT_OXYGEN_SYSTEM ==>
      r == Ok((route, []))
    ensures status == AT_OXYGEN_SYSTEM ==> r == Ok((route, [STOP_SIGNAL]))
  {
    var action := Last(route);
    if status == HIT_WALL then
      var (changed, next) := ChangeDirection(action);
      if changed then Ok((route[..|route| - 1] + [next], [next.command.Value()]))
      else Err(NowhereToGo)
    else if status == MOVED_SUCCESSFULLY then
      var rest := if IsMovingBackwards(action) then route[..|route| - 1] else route;
      var newPosition := NewPosition(action.position, action.command);
      if rest == [] then Err(EmptyRoute)
      else
        Ok(ResumeRoute(rest, newPosition))
    else if status == AT_OXYGEN_SYSTEM then Ok((route, [STOP_SIGNAL]))
    else Ok((route, []))
  }

  /** A wall: the top action tries its next command and nothing else moves;
      with nothing left to try the run fails. */
  lemma HitWallEffect(route: seq<ActionState>)
    requires route != []
    ensures var r := HandleStatus(route, HIT_WALL);
      (r.Err? <==> Last(route).available == []) &&
      (r.Ok? ==> r.value.0 == route[..|route| - 1] + [ChangeDirection(Last(route)).1] &&
                 r.value.1 == [ChangeDirection(Last(route)).1.command.Value()])
  {
  }

  /** A first visit pushes one action for the new panel, facing on, and sends
      its command. */
  lemma FirstVisitPushes(route: seq<ActionState>)
    requires route != [] && !IsMovingBackwards(Last(route))
    requires NewPosition(Last(route).position, Last(route).command) != Last(route).position
    ensures var p := NewPosition(Last(route).position, Last(route).command);
      HandleStatus(route, MOVED_SUCCESSFULLY) ==
        Ok((route + [NewAction(p, Last(route).command)], [Last(route).command.Value()]))
  {
  }

  /** Stepping back pops the dead end; the route never grows by it. */
  lemma BacktrackPops(route: seq<ActionState>)
    requires route != [] && IsMovingBackwards(Last(route))
    ensures var r := HandleStatus(route, MOVED_SUCCESSFULLY);
      (r.Err? <==> |route| == 1) &&
      (r.Ok? ==> |r.value.0| <= |route|)
  {
  }

  /** Every status changes the route length by at most one. */
  lemma RouteLengthChanges(route: seq<ActionState>, status: int)
    requires route != [] && HandleStatus(route, status).Ok?
    ensures |route| - 1 <= |HandleStatus(route, status).value.0| <= |route| + 1
  {
  }

  // ----- Action and the stack as objects ----------------------------------------------

  /** Action. */
  class Action {
    const position: Point
    var command: Command
    const original: Command
    var available: seq<Command>

    function State(): ActionState
      reads this
    {
      ActionState(position, command, original, available)
    }

    constructor(p: Point, c: Command)
      ensures State() == NewAction(p, c)
    {
      position := p;
      command := c;
      original := c;
      available := Except(ALL_COMMANDS, c);
    }

    method TryChangeDirection() returns (changed: bool)
      modifies this
      ensures (changed, State()) == ChangeDirection(old(State()))
    {
      if available == [] {
        return false;
      }
      var backwards := Opposite(original);
      var found := FindOther(available, backwards);
      var next := if found.Some? then found.value else backwards;
      available := RemoveFirst(available, next);
      command := next;
      return true;
    }
  }

  /** The states of a stack of actions, bottom first. */
  function States(actions: seq<Action>): (r: seq<ActionState>)
    reads set a | a in actions
    ensures |r| == |actions|
    ensures forall i :: 0 <= i < |actions| ==> r[i] == actions[i].State()
  {
    if actions == [] then [] else States(actions[..|actions| - 1]) + [Last(actions).State()]
  }

  /** The directions task: the route stack and the values it sends. */
  class Droid {
    var route: seq<Action>
    var sent: seq<int>

    ghost function Footprint(): set<object>
      reads this
    {
      set a | a in route
    }

    ghost predicate Valid()
      reads this, Footprint()
    {
      route != [] && forall i, j :: 0 <= i < j < |route| ==> route[i] != route[j]
    }

    ghost function Route(): seq<ActionState>
      reads this, Footprint()
    {
      States(route)
    }

    constructor()
      ensures Valid() && Route() == StartRoute() && sent == [North.Value()]
    {
      var action := new Action(Point(0, 0), North);
      route := [action];
      sent := [action.command.Value()];
    }

    /** One pass of the loop body with the status taken from the output channel. */
    method Handle(status: int) returns (r: Result<(), RouteError>)
      requires Valid()
      modifies this, Footprint()
      ensures r.Ok? <==> HandleStatus(old(Route()), status).Ok?
      ensures r.Ok? ==> Valid() && Route() == HandleStatus(old(Route()), status).value.0 &&
                        sent == old(sent) + HandleStatus(old(Route()), status).value.1
    {
      if status == HIT_WALL {
        r := HitWall();
      } else if status == MOVED_SUCCESSFULLY {
        r := Moved();
      } else {
        if status == AT_OXYGEN_SYSTEM {
          sent := sent + [STOP_SIGNAL];
        }
        r := Ok(());
      }
    }

    /** Status 0: the top action tries its next command. */
    method HitWall() returns (r: Result<(), RouteError>)
      requires Valid()
      modifies this, Footprint()
      ensures r.Ok? <==> HandleStatus(old(Route()), HIT_WALL).Ok?
      ensures r.Ok? ==> Valid() && Route() == HandleStatus(old(Route()), HIT_WALL).value.0 &&
                        sent == old(sent) + HandleStatus(old(Route()), HIT_WALL).value.1
    {
      ghost var before := Route();
      var action := Last(route);
      var changed := action.TryChangeDirection();
      if !changed {
        return Err(NowhereToGo);
      }
      sent := sent + [action.command.Value()];
      ghost var after := before[..|before| - 1] + [action.State()];
      forall i | 0 <= i < |route| ensures route[i].State() == after[i] {
        if i < |route| - 1 {
          assert route[i] != action;
        }
      }
      assert States(route) == after;
      return Ok(());
    }

    /** Status 1: the droid moved. */
    method Moved() returns (r: Result<(), RouteError>)
      requires Valid()
      modifies this, Footprint()
      ensures r.Ok? <==> HandleStatus(old(Route()), MOVED_SUCCESSFULLY).Ok?
      ensures r.Ok? ==> Valid() && Route() == HandleStatus(old(Route()), MOVED_SUCCESSFULLY).value.0 &&
                        sent == old(sent) + HandleStatus(old(Route()), MOVED_SUCCESSFULLY).value.1
    {
      ghost var before := Route();
      var action := Last(route);
      var backwards := action.original == Opposite(action.command);
      var rest := if backwards then route[..|route| - 1] else route;
      var newPosition := NewPosition(action.position, action.command);
      if rest == [] {
        return Err(EmptyRoute);
      }
      ghost var restStates := if backwards then before[..|before| - 1] else before;
      assert States(rest) == restStates;
      assert HandleStatus(before, MOVED_SUCCESSFULLY) == Ok(ResumeRoute(restStates, newPosition));
      Settle(rest, newPosition);
      return Ok(());
    }

    /** The second half of status 1: push a new action for a first visit, or
        let the action of the panel returned to try another command. */
    method Settle(rest: seq<Action>, newPosition: Point)
      requires rest != [] && forall i, j :: 0 <= i < j < |rest| ==> rest[i] != rest[j]
      modifies this, set a | a in rest
      ensures Valid()
      ensures Route() == ResumeRoute(old(States(rest)), newPosition).0
      ensures sent == old(sent) + ResumeRoute(old(States(rest)), newPosition).1
    {
      var top := Last(rest);
      if top.position != newPosition {
        Push(rest, newPosition);
      } else {
        Retry(rest);
      }
    }

    /** A first visit: a new action for the panel, trying the same command. */
    method Push(rest: seq<Action>, newPosition: Point)
      requires rest != [] && forall i, j :: 0 <= i < j < |rest| ==> rest[i] != rest[j]
      requires Last(rest).position != newPosition
      modifies this
      ensures Valid()
      ensures Route() == ResumeRoute(old(States(rest)), newPosition).0
      ensures sent == old(sent) + ResumeRoute(old(States(rest)), newPosition).1
    {
      ghost var restStates := States(rest);
      var top := Last(rest);
      assert ResumeRoute(restStates, newPosition) ==
        (restStates + [NewAction(newPosition, top.command)], [top.command.Value()]);
      var pushed := new Action(newPosition, top.command);
      assert States(rest) == restStates;
      route := rest + [pushed];
      assert route[..|rest|] == rest;
      sent := sent + [top.command.Value()];
      assert States(route) == restStates + [pushed.State()];
    }

    /** A panel returned to: its action tries another command. */
    method Retry(rest: seq<Action>)
      requires rest != [] && forall i, j :: 0 <= i < j < |rest| ==> rest[i] != rest[j]
      modifies this, Last(rest)
      ensures Valid()
      ensures Route() == old(States(rest))[..|rest| - 1] + [ChangeDirection(old(Last(rest).State())).1]
      ensures sent == old(sent) + [ChangeDirection(old(Last(rest).State())).1.command.Value()]
    {
      ghost var restStates := States(rest);
      var top := Last(rest);
      var _ := top.TryChangeDirection();
      route := rest;
      sent := sent + [top.command.Value()];
      ghost var after := restStates[..|rest| - 1] + [top.State()];
      forall i | 0 <= i < |route| ensures route[i].State() == after[i] {
        if i < |route| - 1 {
          assert route[i] != top;
        }
      }
      assert States(route) == after;
    }

    /** Solve's answer: the number of actions on the stack. */
    method Count() returns (n: nat)
      requires Valid()
      ensures n == |Route()|
    {
      n := |route|;
    }
  }
}
