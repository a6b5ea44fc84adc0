/** The hull-painting robot of day 11: a tile grid, and a robot whose camera
    and paint/move actions are the input and output hooks of a `VM2` machine. */
module Day11 {
  import opened Common
  import VM2

  datatype Tile = Blank | Black | White

  /** A grid as rows of tiles, indexed `g[y][x]`. */
  type Grid = seq<seq<Tile>>

  /** `h` rows of `w` tiles each. */
  ghost predicate Shaped(g: Grid, w: int, h: int)
  {
    |g| == h && forall y | 0 <= y < |g| :: |g[y]| == w
  }

  predicate InGrid(g: Grid, x: int, y: int)
  {
    0 <= y < |g| && 0 <= x < |g[y]|
  }

  /** `get(x, y)`; outside the grid there is no tile. */
  function TileAt(g: Grid, x: int, y: int): Option<Tile>
  {
    if InGrid(g, x, y) then Some(g[y][x]) else None
  }

  /** `set(x, y, v)` on the value of the grid. */
  function Painted(g: Grid, x: int, y: int, v: Tile): Grid
    requires InGrid(g, x, y)
  {
    g[y := g[y][x := v]]
  }

  /** After a set, `get` at that place gives the new tile, every other place
      its old tile, and the grid keeps its shape. */
  lemma GetAfterSet(g: Grid, x: int, y: int, v: Tile, x': int, y': int)
    requires InGrid(g, x, y)
    ensures TileAt(Painted(g, x, y, v), x, y) == Some(v)
    ensures (x', y') != (x, y) ==> TileAt(Painted(g, x, y, v), x', y') == TileAt(g, x', y')
    ensures forall w, h :: Shaped(g, w, h) ==> Shaped(Painted(g, x, y, v), w, h)
  {
  }

  /** The tiles of an array in rows. */
  function GridOf(a: array2<Tile>): (g: Grid)
    reads a
    ensures Shaped(g, a.Length1, a.Length0)
    ensures forall y, x | 0 <= y < a.Length0 && 0 <= x < a.Length1 :: g[y][x] == a[y, x]
  {
    seq(a.Length0, y requires 0 <= y < a.Length0 reads a =>
      seq(a.Length1, x requires 0 <= x < a.Length1 reads a => a[y, x]))
  }

  /** The test of `count_painted(color)`, with `nil` as `None`. */
  predicate Counted(t: Tile, color: Option<Tile>)
  {
    (color.Some? && t == color.value) || t != Blank
  }

  function CountRow(row: seq<Tile>, color: Option<Tile>): nat
  {
    if row == [] then 0
    else CountRow(row[..|row| - 1], color) + (if Counted(row[|row| - 1], color) then 1 else 0)
  }

  function CountRows(g: Grid, color: Option<Tile>): nat
  {
    if g == [] then 0 else CountRows(g[..|g| - 1], color) + CountRow(g[|g| - 1], color)
  }

  /** All tiles, row after row. */
  function Flatten(g: Grid): seq<Tile>
  {
    if g == [] then [] else Flatten(g[..|g| - 1]) + g[|g| - 1]
  }

  /** Number of tiles that are not blank. */
  function NonBlank(g: Grid): nat
  {
    multiset(Flatten(g))[Black] + multiset(Flatten(g))[White]
  }

  lemma {:induction false} CountRowMeaning(row: seq<Tile>, color: Option<Tile>)
    ensures CountRow(row, color) ==
      if color == Some(Blank) then |row| else multiset(row)[Black] + multiset(row)[White]
  {
    if row != [] {
      var init := row[..|row| - 1];
      CountRowMeaning(init, color);
      assert row == init + [row[|row| - 1]];
    }
  }

  /** `count_painted(color)` counts the tiles that are not blank, whatever the
      colour, except that with `:blank` it counts every tile. */
  lemma {:induction false} CountPaintedMeaning(g: Grid, color: Option<Tile>)
    ensures CountRows(g, color) == if color == Some(Blank) then |Flatten(g)| else NonBlank(g)
  {
    if g != [] {
      var init := g[..|g| - 1];
      CountPaintedMeaning(init, color);
      CountRowMeaning(g[|g| - 1], color);
    }
  }

  /** A grid of `w` by `h` blank tiles has no painted tile. */
  lemma {:induction false} BlankGridUnpainted(g: Grid, color: Option<Tile>)
    requires forall y | 0 <= y < |g| :: forall x | 0 <= x < |g[y]| :: g[y][x] == Blank
    requires color != Some(Blank)
    ensures CountRows(g, color) == 0
  {
    if g != [] {
      BlankGridUnpainted(g[..|g| - 1], color);
      BlankRowUnpainted(g[|g| - 1], color);
    }
  }

  lemma {:induction false} BlankRowUnpainted(row: seq<Tile>, color: Option<Tile>)
    requires forall x | 0 <= x < |row| :: row[x] == Blank
    requires color != Some(Blank)
    ensures CountRow(row, color) == 0
  {
    if row != [] {
      BlankRowUnpainted(row[..|row| - 1], color);
    }
  }

  class Map {
    var tiles: array2<Tile>

    /** `Map.new(width, height)`: `height` rows of `width` blank tiles. */
    constructor (width: nat, height: nat)
      ensures fresh(tiles)
      ensures Shaped(GridOf(tiles), width, height)
      ensures forall y, x | 0 <= y < height && 0 <= x < width :: GridOf(tiles)[y][x] == Blank
    {
      tiles := new Tile[height, width]((y, x) => Blank);
    }

    /** `get(x, y)` */
    method Get(x: int, y: int) returns (t: Option<Tile>)
      ensures t == TileAt(GridOf(tiles), x, y)
    {
      if 0 <= y < tiles.Length0 && 0 <= x < tiles.Length1 {
        t := Some(tiles[y, x]);
      } else {
        t := None;
      }
    }

    /** `set(x, y, v)`: false, with nothing written, outside the grid. */
    method Set(x: int, y: int, v: Tile) returns (ok: bool)
      modifies tiles
      ensures ok == InGrid(old(GridOf(tiles)), x, y)
      ensures GridOf(tiles) == if ok then Painted(old(GridOf(tiles)), x, y, v) else old(GridOf(tiles))
    {
      ghost var g := GridOf(tiles);
      if 0 <= y < tiles.Length0 && 0 <= x < tiles.Length1 {
        tiles[y, x] := v;
        ok := true;
        assert GridOf(tiles) == Painted(g, x, y, v) by {
          var g' := GridOf(tiles);
          var p := Painted(g, x, y, v);
          assert |g'| == |p|;
          forall y' | 0 <= y' < |p| ensures g'[y'] == p[y'] {
            assert |g'[y']| == |p[y']|;
          }
        }
      } else {
        ok := false;
      }
    }

    /** `count_painted(color)`, row by row. */
    method CountPainted(color: Option<Tile>) returns (count: nat)
      ensures count == CountRows(GridOf(tiles), color)
    {
      ghost var g := GridOf(tiles);
      count := 0;
      for y := 0 to tiles.Length0
        invariant count == CountRows(g[..y], color)
      {
        for x := 0 to tiles.Length1
          invariant count == CountRows(g[..y], color) + CountRow(g[y][..x], color)
        {
          assert g[y][..x + 1][..x] == g[y][..x];
          if (color.Some? && tiles[y, x] == color.value) || tiles[y, x] != Blank {
            count := count + 1;
          }
        }
        assert g[y][..tiles.Length1] == g[y];
        assert g[..y + 1][..y] == g[..y];
      }
      assert g[..tiles.Length0] == g;
    }
  }

  // ---------------------------------------------------------------------
  // The robot

  datatype Facing = Up | Right | Down | Left

  /** `rotate_left` */
  function LeftOf(f: Facing): Facing
  {
    match f
    case Up => Left
    case Left => Down
    case Down => Right
    case Right => Up
  }

  /** `rotate_right` */
  function RightOf(f: Facing): Facing
  {
    match f
    case Up => Right
    case Right => Down
    case Down => Left
    case Left => Up
  }

  /** Turning right undoes turning left and the other way round, and four
      turns either way face the same way again. */
  lemma Rotations(f: Facing)
    ensures RightOf(LeftOf(f)) == f && LeftOf(RightOf(f)) == f
    ensures LeftOf(LeftOf(LeftOf(LeftOf(f)))) == f
    ensures RightOf(RightOf(RightOf(RightOf(f)))) == f
    ensures LeftOf(f) != f && RightOf(f) != f && LeftOf(f) != RightOf(f)
  {
  }

  /** `move_forward`: one tile in the facing direction, with y growing
      downwards. */
  function Forward(x: int, y: int, f: Facing): (r: (int, int))
    ensures (r.0 == x) != (r.1 == y)
    ensures r.0 - x + r.1 - y == 1 || r.0 - x + r.1 - y == -1
    ensures f == Up ==> r.1 == y - 1
    ensures f == Down ==> r.1 == y + 1
    ensures f == Left ==> r.0 == x - 1
    ensures f == Right ==> r.0 == x + 1
  {
    match f
    case Up => (x, y - 1)
    case Right => (x + 1, y)
    case Down => (x, y + 1)
    case Left => (x - 1, y)
  }

  /** Moving forward after two turns the same way comes back. */
  lemma TurnAroundComesBack(x: int, y: int, f: Facing)
    ensures var p := Forward(x, y, f);
      Forward(p.0, p.1, RightOf(RightOf(f))) == (x, y)
      && Forward(p.0, p.1, LeftOf(LeftOf(f))) == (x, y)
  {
  }

  datatype Phase = WaitForPaint | WaitForMove

  datatype Bot = Bot(x: int, y: int, facing: Facing, phase: Phase, paintCount: int)

  /** What the robot raises. */
  datatype RobotFault =
    | CantSendInput(x: int, y: int)   // the camera sees no tile
    | BadMove(a: int)                 // a move output that is neither 0 nor 1
    | BadPaint(a: int)                // a paint output that is neither 0 nor 1
    | PaintOutside(x: int, y: int)    // painting where there is no tile

  /** `do_camera` */
  function Camera(b: Bot, g: Grid): (r: Result<int, RobotFault>)
    ensures r.Success? <==> InGrid(g, b.x, b.y)
    ensures r.Success? ==> (r.value == 1 <==> g[b.y][b.x] == White) && (r.value == 0 || r.value == 1)
    ensures r.Failure? ==> r.error == CantSendInput(b.x, b.y)
  {
    match TileAt(g, b.x, b.y)
    case Some(White) => Success(1)
    case Some(_) => Success(0)
    case None => Failure(CantSendInput(b.x, b.y))
  }

  function PaintColour(a: int): Tile { if a == 0 then Black else White }

  /** `do_action(a)` */
  function Action(b: Bot, g: Grid, a: int): Result<(Bot, Grid), RobotFault>
  {
    match b.phase
    case WaitForMove =>
      if a != 0 && a != 1 then Failure(BadMove(a))
      else
        var f := if a == 0 then LeftOf(b.facing) else RightOf(b.facing);
        var p := Forward(b.x, b.y, f);
        Success((b.(x := p.0, y := p.1, facing := f, phase := WaitForPaint), g))
    case WaitForPaint =>
      if a != 0 && a != 1 then Failure(BadPaint(a))
      else if !InGrid(g, b.x, b.y) then Failure(PaintOutside(b.x, b.y))
      else Success((b.(paintCount := b.paintCount + 1, phase := WaitForMove), Painted(g, b.x, b.y, PaintColour(a))))
  }

  /** An action fails exactly on an output other than 0 and 1, or on painting
      where there is no tile; a successful one switches between painting and
      moving, and keeps the grid's shape. */
  lemma ActionAlternates(b: Bot, g: Grid, a: int)
    ensures Action(b, g, a).Failure? <==>
      (a != 0 && a != 1) || (b.phase == WaitForPaint && !InGrid(g, b.x, b.y))
    ensures a != 0 && a != 1 ==>
      Action(b, g, a).error == if b.phase == WaitForMove then BadMove(a) else BadPaint(a)
    ensures Action(b, g, a).Success? ==>
      var (b', g') := Action(b, g, a).value;
      && b'.phase != b.phase
      && forall w, h :: Shaped(g, w, h) ==> Shaped(g', w, h)
  {
  }

  /** A paint step paints the tile under the robot black on 0 and white on 1,
      leaves every other tile, and counts one more paint; the robot stays. */
  lemma PaintStep(b: Bot, g: Grid, a: int)
    requires b.phase == WaitForPaint && (a == 0 || a == 1) && InGrid(g, b.x, b.y)
    ensures Action(b, g, a).Success?
    ensures var (b', g') := Action(b, g, a).value;
      && TileAt(g', b.x, b.y) == Some(if a == 1 then White else Black)
      && (forall x, y | (x, y) != (b.x, b.y) :: TileAt(g', x, y) == TileAt(g, x, y))
      && b' == b.(paintCount := b.paintCount + 1, phase := WaitForMove)
  {
    forall x, y | (x, y) != (b.x, b.y)
      ensures TileAt(Action(b, g, a).value.1, x, y) == TileAt(g, x, y)
    {
      GetAfterSet(g, b.x, b.y, PaintColour(a), x, y);
    }
  }

  /** A move step turns left on 0 and right on 1, then moves one tile the new
      way; no tile changes and the paint count stays. */
  lemma MoveStep(b: Bot, g: Grid, a: int)
    requires b.phase == WaitForMove && (a == 0 || a == 1)
    ensures Action(b, g, a).Success?
    ensures var (b', g') := Action(b, g, a).value;
      && g' == g && b'.paintCount == b.paintCount && b'.phase == WaitForPaint
      && b'.facing == (if a == 0 then LeftOf(b.facing) else RightOf(b.facing))
      && (b'.x, b'.y) == Forward(b.x, b.y, b'.facing)
  {
  }

  /** Paint, then move: two outputs move the robot one tile and paint the tile
      it left. */
  lemma PaintThenMove(b: Bot, g: Grid, colour: int, turn: int)
    requires b.phase == WaitForPaint && InGrid(g, b.x, b.y)
    requires (colour == 0 || colour == 1) && (turn == 0 || turn == 1)
    ensures Action(b, g, colour).Success?
    ensures var (b1, g1) := Action(b, g, colour).value;
      && Action(b1, g1, turn).Success?
      && var (b2, g2) := Action(b1, g1, turn).value;
      && b2.phase == WaitForPaint && b2.paintCount == b.paintCount + 1
      && g2[b.y][b.x] == PaintColour(colour)
      && (if b2.x == b.x then b2.y - b.y else b2.x - b.x) * (if b2.x == b.x then b2.y - b.y else b2.x - b.x) == 1
  {
    PaintStep(b, g, colour);
    var (b1, g1) := Action(b, g, colour).value;
    MoveStep(b1, g1, turn);
  }

  /** The value handed to the VM as the input hook's reply. */
  function CameraReply(b: Bot, g: Grid): VM2.HookReply
  {
    match Camera(b, g)
    case Success(v) => VM2.Returns(v)
    case Failure(_) => VM2.Raises
  }

  /** Which outputs the output hook takes without raising. */
  function Accepts(b: Bot, g: Grid): int -> bool
  {
    a => Action(b, g, a).Success?
  }

  /** The VM, the robot and the grid together. */
  datatype World = World(cpu: VM2.Machine, bot: Bot, grid: Grid)

  /** What one turn leaves: the new world, and the outcome if the run stops. */
  datatype Turned = Turned(world: World, stop: Option<VM2.RunOutcome>)

  /** What a run keeps: the grid's shape and the hooks; the paint count
      never goes down. */
  ghost predicate Keeps(w: World, w': World)
  {
    && (forall width, height :: Shaped(w.grid, width, height) ==> Shaped(w'.grid, width, height))
    && w'.bot.paintCount >= w.bot.paintCount
    && w'.cpu.inputFn == w.cpu.inputFn && w'.cpu.outputFn == w.cpu.outputFn
  }

  lemma KeepsTrans(a: World, b: World, c: World)
    requires Keeps(a, b) && Keeps(b, c)
    ensures Keeps(a, c)
  {
  }

  /** One turn of `robot.run`'s loop: the VM executes one instruction with
      the camera and the actions as its hooks, and an output it emits is acted
      on. An action raising stops the run with `HookRaised`, as the exception
      leaves `run`. A turn keeps the grid's shape and the hooks, and never
      lowers the paint count. */
  function Turn(w: World): (r: Turned)
    requires VM2.Running(w.cpu)
    ensures Keeps(w, r.world)
  {
    VM2.StepConserves(w.cpu, CameraReply(w.bot, w.grid), Accepts(w.bot, w.grid));
    match VM2.Step(w.cpu, CameraReply(w.bot, w.grid), Accepts(w.bot, w.grid))
    case Raised(m1, e) => Turned(w.(cpu := m1), Some(VM2.Crashed(e)))
    case Next(m1, out) =>
      if out.None? then Turned(w.(cpu := m1), None)
      else
        ActionAlternates(w.bot, w.grid, out.value);
        match Action(w.bot, w.grid, out.value)
        case Success(bg) => Turned(World(m1, bg.0, bg.1), None)
        // Not taken: `Step` emits only outputs that `Accepts` passes, and
        // those are exactly the ones on which `Action` succeeds.
        case Failure(_) => Turned(w.(cpu := m1), Some(VM2.Crashed(VM2.HookRaised)))
  }

  /** Where a run ends, and how. */
  datatype Ran = Ran(world: World, outcome: VM2.RunOutcome)

  /** `robot.run`, that is `cpu.run` with the hooks, for at most `fuel`
      instructions. A whole run keeps the grid's shape and the hooks, and
      never lowers the paint count. */
  function RobotRun(w: World, fuel: nat): (r: Ran)
    ensures Keeps(w, r.world)
    decreases fuel
  {
    if !VM2.Running(w.cpu) then Ran(w, VM2.Stopped(w.cpu.status))
    else if fuel == 0 then Ran(w, VM2.OutOfFuel)
    else
      var t := Turn(w);
      if t.stop.Some? then Ran(t.world, t.stop.value)
      else
        var rest := RobotRun(t.world, fuel - 1);
        KeepsTrans(w, t.world, rest.world);
        rest
  }

  /** A run with fuel left on a running VM is one turn, then the rest. */
  lemma RobotRunTurn(w: World, fuel: nat)
    requires VM2.Running(w.cpu) && fuel > 0
    ensures var t := Turn(w);
      RobotRun(w, fuel) == if t.stop.Some? then Ran(t.world, t.stop.value) else RobotRun(t.world, fuel - 1)
  {
  }

  lemma RunEnds(w: World, fuel: nat)
    ensures !VM2.Running(w.cpu) ==> RobotRun(w, fuel) == Ran(w, VM2.Stopped(w.cpu.status))
    ensures VM2.Running(w.cpu) && fuel == 0 ==> RobotRun(w, fuel) == Ran(w, VM2.OutOfFuel)
  {
  }

  lemma RunAfterTurn(before: World, fuel: nat, after: World, stop: Option<VM2.RunOutcome>)
    requires VM2.Running(before.cpu) && fuel > 0 && Turned(after, stop) == Turn(before)
    ensures stop.Some? ==> RobotRun(before, fuel) == Ran(after, stop.value)
    ensures stop.None? ==> RobotRun(before, fuel) == RobotRun(after, fuel - 1)
  {
  }

  class Robot {
    var cpu: VM2.VM
    var tileMap: Map
    var x: int
    var y: int
    var facing: Facing
    var phase: Phase
    var paintCount: int

    function BotState(): Bot
      reads this
    {
      Bot(x, y, facing, phase, paintCount)
    }

    function Snapshot(): World
      reads this, cpu, tileMap, tileMap.tiles
    {
      World(cpu.State(), BotState(), GridOf(tileMap.tiles))
    }

    /** `Robot.new(map, program)`: at (0, 0) facing up, waiting to paint, on a
        fresh VM whose hooks are the camera and the actions. */
    constructor (m: Map, program: string)
      ensures this.tileMap == m && fresh(cpu)
      ensures BotState() == Bot(0, 0, Up, WaitForPaint, 0)
      ensures cpu.State() == VM2.Init(VM2.ParseProgram(program)).(inputFn := true, outputFn := true)
    {
      x, y := 0, 0;
      facing := Up;
      phase := WaitForPaint;
      paintCount := 0;
      this.tileMap := m;
      var vm := VM2.VM.FromString(program);
      vm.inputFn := true;
      vm.outputFn := true;
      cpu := vm;
    }

    method RotateLeft()
      modifies this`facing
      ensures facing == LeftOf(old(facing))
    {
      match facing
      case Up => facing := Left;
      case Left => facing := Down;
      case Down => facing := Right;
      case Right => facing := Up;
    }

    method RotateRight()
      modifies this`facing
      ensures facing == RightOf(old(facing))
    {
      match facing
      case Up => facing := Right;
      case Right => facing := Down;
      case Down => facing := Left;
      case Left => facing := Up;
    }

    method MoveForward()
      modifies this`x, this`y
      ensures (x, y) == Forward(old(x), old(y), facing)
    {
      match facing
      case Up => y := y - 1;
      case Right => x := x + 1;
      case Down => y := y + 1;
      case Left => x := x - 1;
    }

    /** `do_camera` */
    method DoCamera() returns (r: Result<int, RobotFault>)
      ensures r == Camera(BotState(), GridOf(tileMap.tiles))
    {
      var input := tileMap.Get(x, y);
      match input
      case Some(White) => r := Success(1);
      case Some(Black) => r := Success(0);
      case Some(Blank) => r := Success(0);
      case None => r := Failure(CantSendInput(x, y));
    }

    /** `do_action(a)`; on a fault nothing has changed. */
    method DoAction(a: int) returns (r: Result<(), RobotFault>)
      modifies this`x, this`y, this`facing, this`phase, this`paintCount, tileMap.tiles
      ensures var s := Action(old(BotState()), old(GridOf(tileMap.tiles)), a);
        if s.Success? then r.Success? && (BotState(), GridOf(tileMap.tiles)) == s.value
        else r == Failure(s.error) && BotState() == old(BotState()) && GridOf(tileMap.tiles) == old(GridOf(tileMap.tiles))
    {
      match phase
      case WaitForMove =>
        if a == 0 {
          RotateLeft();
        } else if a == 1 {
          RotateRight();
        } else {
          return Failure(BadMove(a));
        }
        MoveForward();
        phase := WaitForPaint;
        r := Success(());
      case WaitForPaint =>
        var ok;
        if a == 0 {
          ok := tileMap.Set(x, y, Black);
        } else if a == 1 {
          ok := tileMap.Set(x, y, White);
        } else {
          return Failure(BadPaint(a));
        }
        if !ok {
          return Failure(PaintOutside(x, y));
        }
        paintCount := paintCount + 1;
        phase := WaitForMove;
        r := Success(());
    }

    /** `run`: `cpu.run` with the hooks, for at most `fuel` instructions. */
    method Run(fuel: nat) returns (r: VM2.RunOutcome)
      modifies this`x, this`y, this`facing, this`phase, this`paintCount, cpu, tileMap.tiles
      ensures Ran(Snapshot(), r) == RobotRun(old(Snapshot()), fuel)
    {
      var left := fuel;
      while cpu.status != VM2.Halted && cpu.status != VM2.NeedsInput && cpu.pc < |cpu.mem|
        invariant RobotRun(Snapshot(), left) == RobotRun(old(Snapshot()), fuel)
        decreases left
      {
        if left == 0 {
          RunEnds(Snapshot(), left);
          return VM2.OutOfFuel;
        }
        var stop;
        ghost var before, after;
        stop, left, before, after := Cycle(left);
        if stop.Some? {
          return stop.value;
        }
      }
      RunEnds(Snapshot(), left);
      r := VM2.Stopped(cpu.status);
    }

    /** One turn of `run`'s loop, and the fuel left for the rest; `before`
        and `after` are the world before and after the turn. */
    method Cycle(left: nat) returns (stop: Option<VM2.RunOutcome>, rest: nat, ghost before: World, ghost after: World)
      requires VM2.Running(cpu.State()) && left > 0
      modifies this`x, this`y, this`facing, this`phase, this`paintCount, cpu, tileMap.tiles
      ensures before == old(Snapshot()) && after == Snapshot() && rest == left - 1
      ensures stop.Some? ==> RobotRun(before, left) == Ran(after, stop.value)
      ensures stop.None? ==> RobotRun(before, left) == RobotRun(after, rest)
    {
      before := Snapshot();
      stop := Exec();
      after := Snapshot();
      RunAfterTurn(before, left, after, stop);
      rest := left - 1;
    }

    /** One instruction of the VM with the robot as its hooks. The camera only
        reads, so its reply is taken before the instruction. */
    method Exec() returns (stop: Option<VM2.RunOutcome>)
      requires VM2.Running(cpu.State())
      modifies this`x, this`y, this`facing, this`phase, this`paintCount, cpu, tileMap.tiles
      ensures Turned(Snapshot(), stop) == Turn(old(Snapshot()))
    {
      var seen := DoCamera();
      var reply := if seen.Success? then VM2.Returns(seen.value) else VM2.Raises;
      var accepts := Accepts(BotState(), GridOf(tileMap.tiles));
      var e := cpu.Exec(reply, accepts);
      if e.Failure? {
        return Some(VM2.Crashed(e.error));
      }
      if e.value.Some? {
        var done := DoAction(e.value.value);
        if done.Failure? {
          return Some(VM2.Crashed(VM2.HookRaised));
        }
      }
      stop := None;
    }
  }
}
