/** Day 3: two wires laid out on a grid from a central port, read from
    comma-separated moves such as `R8,U5,L5,D3`. */
module Day3 {
  import opened Common
  import Text

  /** `point(x, y)`; y grows downwards, so `U` lowers it. */
  datatype Point = Point(x: int, y: int)

  const Origin := Point(0, 0)

  function Abs(n: int): nat { if n < 0 then -n else n }

  /** `dist(a, b)`: the Manhattan distance. */
  function Dist(a: Point, b: Point): nat
  {
    Abs(a.x - b.x) + Abs(a.y - b.y)
  }

  /** The distance is a metric: zero exactly between equal points,
      symmetric, and never longer than a detour. */
  lemma DistMetric(a: Point, b: Point, c: Point)
    ensures Dist(a, b) == 0 <==> a == b
    ensures Dist(a, b) == Dist(b, a)
    ensures Dist(a, c) <= Dist(a, b) + Dist(b, c)
  {
  }

  // ---------------------------------------------------------------------
  // Moves

  datatype Dir = L | R | U | D

  datatype Move = Move(dir: Dir, length: nat)

  predicate IsDirChar(c: char) { c == 'L' || c == 'R' || c == 'U' || c == 'D' }

  function DirOf(c: char): Dir
    requires IsDirChar(c)
  {
    match c
    case 'L' => L
    case 'R' => R
    case 'U' => U
    case _ => D
  }

  function DirChar(d: Dir): (c: char)
    ensures IsDirChar(c) && DirOf(c) == d
  {
    match d
    case L => 'L'
    case R => 'R'
    case U => 'U'
    case D => 'D'
  }

  /** `/([LRUD])(\d+)/` matched at the start of `s`. */
  function MatchHere(s: string): Option<Move>
  {
    if |s| >= 2 && IsDirChar(s[0]) && Text.IsDigit(s[1])
    then Some(Move(DirOf(s[0]), Text.DigitsValue(Text.LeadingDigits(s[1..]))))
    else None
  }

  /** The leftmost match of `/([LRUD])(\d+)/` in a token, as a direction and
      a length. */
  function ParseMove(s: string): Option<Move>
  {
    if s == [] then None
    else if MatchHere(s).Some? then MatchHere(s)
    else ParseMove(s[1..])
  }

  /** A token without a digit holds no move. */
  lemma {:induction false} NoDigitNoMove(s: string)
    requires forall i :: 0 <= i < |s| ==> !Text.IsDigit(s[i])
    ensures ParseMove(s) == None
  {
    if s != [] {
      NoDigitNoMove(s[1..]);
    }
  }

  /** How a move is written: its letter, then its length. */
  function ShowMove(m: Move): string
  {
    [DirChar(m.dir)] + Text.NatToString(m.length)
  }

  /** A token yields its direction and its length. */
  lemma ParseShowMove(m: Move)
    ensures ParseMove(ShowMove(m)) == Some(m)
  {
    var s := ShowMove(m);
    var digits := Text.NatToString(m.length);
    assert s[1..] == digits;
    Text.LeadingDigitsOfDigits(digits);
    Text.DigitsValueOfNatToString(m.length);
    assert MatchHere(s) == Some(m);
  }

  datatype Fault = NoMove(token: string)   // `m` is nil and `m[1]` raises

  /** The `map` over the tokens: every token must hold a move. */
  function ParseMoves(tokens: seq<string>): (r: Result<seq<Move>, Fault>)
    ensures r.Success? ==> |r.value| == |tokens|
    ensures r.Success? ==> forall i :: 0 <= i < |tokens| ==> Some(r.value[i]) == ParseMove(tokens[i])
    ensures r.Failure? ==> exists i :: 0 <= i < |tokens| && ParseMove(tokens[i]).None?
  {
    if tokens == [] then Success([])
    else
      match ParseMove(tokens[0])
      case None => Failure(NoMove(tokens[0]))
      case Some(m) =>
        var rest :- ParseMoves(tokens[1..]);
        Success([m] + rest)
  }

  function ShowMoves(ms: seq<Move>): (r: seq<string>)
    ensures |r| == |ms| && forall i :: 0 <= i < |ms| ==> r[i] == ShowMove(ms[i])
  {
    if ms == [] then [] else [ShowMove(ms[0])] + ShowMoves(ms[1..])
  }

  /** A wire written as comma-separated moves splits and reads back to those moves. */
  lemma ParseShowMoves(ms: seq<Move>)
    ensures ParseMoves(Text.Split(Text.Join(ShowMoves(ms), ","), ",")) == Success(ms)
  {
    var shown := ShowMoves(ms);
    forall i | 0 <= i < |shown| ensures Text.Avoids(shown[i], ',') {
      var d := Text.NatToString(ms[i].length);
      assert shown[i] == [DirChar(ms[i].dir)] + d;
      forall j | 0 <= j < |shown[i]| ensures shown[i][j] != ',' {
        if j > 0 {
          assert shown[i][j] == d[j - 1];
        }
      }
    }
    assert Text.UniqueAt(",", 0);
    Text.SplitJoin(shown, ",", 0);
    forall i | 0 <= i < |ms| ensures ParseMove(shown[i]) == Some(ms[i]) {
      ParseShowMove(ms[i]);
    }
    ParseMovesAll(shown, ms);
  }

  lemma {:induction false} ParseMovesAll(tokens: seq<string>, ms: seq<Move>)
    requires |tokens| == |ms| && forall i :: 0 <= i < |ms| ==> ParseMove(tokens[i]) == Some(ms[i])
    ensures ParseMoves(tokens) == Success(ms)
    decreases |ms|
  {
    if ms != [] {
      assert ParseMove(tokens[0]) == Some(ms[0]);
      ParseMovesAll(tokens[1..], ms[1..]);
      assert [ms[0]] + ms[1..] == ms;
    }
  }

  // ---------------------------------------------------------------------
  // The path of a wire

  /** One step of the `case`. */
  function Step(p: Point, d: Dir): Point
  {
    match d
    case L => Point(p.x - 1, p.y)
    case R => Point(p.x + 1, p.y)
    case U => Point(p.x, p.y - 1)
    case D => Point(p.x, p.y + 1)
  }

  /** `k` steps from `p` in direction `d`. */
  function Shift(p: Point, d: Dir, k: nat): Point
  {
    match d
    case L => Point(p.x - k, p.y)
    case R => Point(p.x + k, p.y)
    case U => Point(p.x, p.y - k)
    case D => Point(p.x, p.y + k)
  }

  /** The points one segment visits, after its start. */
  function Run(p: Point, d: Dir, n: nat): (r: seq<Point>)
    ensures |r| == n && forall k :: 0 <= k < n ==> r[k] == Shift(p, d, k + 1)
  {
    seq(n, k requires 0 <= k < n => Shift(p, d, k + 1))
  }

  /** Where a wire that has visited `points` stands. */
  function Last(points: seq<Point>): Point
  {
    if points == [] then Origin else points[|points| - 1]
  }

  /** Every point the wire visits, in order. */
  function Path(moves: seq<Move>): seq<Point>
  {
    if moves == [] then []
    else
      var before := Path(moves[..|moves| - 1]);
      var m := moves[|moves| - 1];
      before + Run(Last(before), m.dir, m.length)
  }

  /** The direction of each single step. */
  function Dirs(moves: seq<Move>): seq<Dir>
  {
    if moves == [] then []
    else
      var m := moves[|moves| - 1];
      Dirs(moves[..|moves| - 1]) + seq(m.length, _ => m.dir)
  }

  function TotalLength(moves: seq<Move>): nat
  {
    if moves == [] then 0 else TotalLength(moves[..|moves| - 1]) + moves[|moves| - 1].length
  }

  /** `point_dists` as the loop writes it: later visits overwrite, so each
      point maps to the step count of its last visit. */
  function Dists(points: seq<Point>): map<Point, nat>
  {
    if points == [] then map[]
    else Dists(points[..|points| - 1])[points[|points| - 1] := |points|]
  }

  /** Where step `k` of a path starts: the origin, or the point before. */
  function From(p: seq<Point>, k: nat): Point
    requires k <= |p|
  {
    if k == 0 then Origin else p[k - 1]
  }

  /** Each point is one step from the one before, in the given directions. */
  ghost predicate Stepwise(p: seq<Point>, ds: seq<Dir>)
  {
    |p| == |ds| && forall k :: 0 <= k < |p| ==> p[k] == Step(From(p, k), ds[k])
  }

  /** The wire has one point per unit of length; the first point is one step
      from the origin, and every point is one step in its segment's
      direction from the point before. */
  lemma {:induction false} PathSteps(moves: seq<Move>)
    ensures |Path(moves)| == TotalLength(moves)
    ensures Stepwise(Path(moves), Dirs(moves))
    decreases |moves|
  {
    if moves != [] {
      var init, m := moves[..|moves| - 1], moves[|moves| - 1];
      PathSteps(init);
      StepwiseRun(Path(init), Dirs(init), m.dir, m.length);
    }
  }

  /** A straight segment from where a path stands continues it step by step. */
  lemma StepwiseRun(before: seq<Point>, ds: seq<Dir>, d: Dir, n: nat)
    requires Stepwise(before, ds)
    ensures Stepwise(before + Run(Last(before), d, n), ds + seq(n, _ => d))
  {
    var run := Run(Last(before), d, n);
    var p := before + run;
    var es := ds + seq(n, _ => d);
    forall k | 0 <= k < |p| ensures p[k] == Step(From(p, k), es[k]) {
      if k >= |before| {
        var j := k - |before|;
        assert p[k] == Shift(Last(before), d, j + 1) && es[k] == d;
        if j > 0 {
          assert p[k - 1] == Shift(Last(before), d, j);
        } else {
          assert From(p, k) == Last(before);
        }
      } else {
        assert p[k] == before[k] && es[k] == ds[k] && From(p, k) == From(before, k);
      }
    }
  }

  /** `point_dists` holds exactly the visited points, each with the 1-based
      step count of its last visit. */
  lemma {:induction false} DistsLastVisit(points: seq<Point>)
    ensures forall p :: p in Dists(points) <==> p in points
    ensures forall k :: 0 <= k < |points| && (forall j :: k < j < |points| ==> points[j] != points[k]) ==>
      Dists(points)[points[k]] == k + 1
    decreases |points|
  {
    if points != [] {
      var init := points[..|points| - 1];
      DistsLastVisit(init);
      assert points == init + [points[|points| - 1]];
      forall k | 0 <= k < |points| && (forall j :: k < j < |points| ==> points[j] != points[k])
        ensures Dists(points)[points[k]] == k + 1
      {
        if k < |init| {
          assert points[|points| - 1] != points[k];
          assert init[k] == points[k];
        }
      }
    }
  }

  // ---------------------------------------------------------------------
  // read_wire_points

  /** `Wire`: the points in order, and the step count of each point. */
  datatype Wire = Wire(points: seq<Point>, pointDists: map<Point, nat>)

  /** `read_wire_points(str)`: split on commas, read every move, then walk. */
  method ReadWirePoints(str: string) returns (r: Result<Wire, Fault>)
    ensures var moves := ParseMoves(Text.Split(str, ","));
      r == if moves.Success? then Success(Wire(Path(moves.value), Dists(Path(moves.value))))
           else Failure(moves.error)
  {
    var moves := ParseMoves(Text.Split(str, ","));
    if moves.Failure? {
      return Failure(moves.error);
    }
    var points, pointDists := Walk(moves.value);
    r := Success(Wire(points, pointDists));
  }

  /** The `each` over the moves. */
  method Walk(moves: seq<Move>) returns (points: seq<Point>, pointDists: map<Point, nat>)
    ensures points == Path(moves) && pointDists == Dists(points)
  {
    var x, y, len := 0, 0, 0;
    points, pointDists := [], map[];
    for i := 0 to |moves|
      invariant points == Path(moves[..i]) && pointDists == Dists(points)
      invariant Point(x, y) == Last(points) && len == |points|
    {
      assert moves[..i + 1][..i] == moves[..i];
      x, y, len, points, pointDists := WalkSegment(x, y, len, points, pointDists, moves[i]);
    }
    assert moves[..|moves|] == moves;
  }

  /** The `while dist > 0` loop of one move. */
  method WalkSegment(x0: int, y0: int, len0: nat, points0: seq<Point>, dists0: map<Point, nat>, m: Move)
    returns (x: int, y: int, len: nat, points: seq<Point>, pointDists: map<Point, nat>)
    requires Point(x0, y0) == Last(points0) && len0 == |points0| && dists0 == Dists(points0)
    ensures points == points0 + Run(Point(x0, y0), m.dir, m.length)
    ensures Point(x, y) == Last(points) && len == |points| && pointDists == Dists(points)
  {
    ghost var start := Point(x0, y0);
    x, y, len, points, pointDists := x0, y0, len0, points0, dists0;
    var dist := m.length;
    while dist > 0
      invariant 0 <= dist <= m.length
      invariant points == points0 + Run(start, m.dir, m.length - dist)
      invariant Point(x, y) == Shift(start, m.dir, m.length - dist)
      invariant len == |points| && pointDists == Dists(points)
      decreases dist
    {
      match m.dir {
        case L => x := x - 1;
        case R => x := x + 1;
        case U => y := y - 1;
        case D => y := y + 1;
      }
      dist := dist - 1;
      len := len + 1;
      var p := Point(x, y);
      assert Run(start, m.dir, m.length - dist) == Run(start, m.dir, m.length - dist - 1) + [p];
      points := points + [p];
      assert points[..|points| - 1] == points0 + Run(start, m.dir, m.length - dist - 1);
      pointDists := pointDists[p := len];
    }
    if m.length == 0 {
      assert points == points0;
    }
  }

  // ---------------------------------------------------------------------
  // closest_to_center (`intersections` is `Common.Intersect`)

  /** `closest_to_center(list)`: a point at the least distance from the
      origin, or nil for an empty list. Ruby's `sort_by` does not say which
      of several closest points comes first; this takes the earliest. */
  function ClosestToCenter(list: seq<Point>): (r: Option<Point>)
    ensures r.None? <==> list == []
    ensures r.Some? ==> r.value in list && forall q :: q in list ==> Dist(r.value, Origin) <= Dist(q, Origin)
  {
    if list == [] then None
    else
      match ClosestToCenter(list[1..])
      case None => Some(list[0])
      case Some(best) =>
        assert forall q :: q in list ==> q == list[0] || q in list[1..];
        if Dist(best, Origin) < Dist(list[0], Origin) then Some(best) else Some(list[0])
  }
}
