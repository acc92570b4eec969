/** The scene container (`ShapeContainer`): the circles and rectangles on screen, the
    shape the user is dragging with the mouse, and the random scene generator. */
module Container {
  import opened Vectors
  import opened Scene
  import opened Wrappers

  /** The C library's `rand()` as a stream: `rand(n)` is what the n-th call returns. It is
      never negative; its upper bound `RAND_MAX` is not modelled. */
  type RandStream = nat -> nat

  /** `randBetween(min, max)` given the value `x` its `rand()` call returned. */
  function RandBetween(x: nat, min: int, max: int): (r: int)
    requires min <= max
    ensures min <= r <= max
    ensures x <= max - min ==> r == min + x
  {
    x % (max - min + 1) + min
  }

  /** `randPos()` given its two `rand()` values: a whole-pixel point of the window, the right
      and bottom edges excluded. */
  function RandPos(a: nat, b: nat): (p: Vec)
    ensures 0.0 <= p.x < WIDTH as real && 0.0 <= p.y < HEIGHT as real
    ensures p.x == p.x.Floor as real && p.y == p.y.Floor as real
  {
    Vec((a % WIDTH) as real, (b % HEIGHT) as real)
  }

  /** Every whole-pixel point of the window is a possible `randPos()`. */
  lemma RandPosCovers(x: nat, y: nat)
    requires x < WIDTH && y < HEIGHT
    ensures RandPos(x, y) == Vec(x as real, y as real)
  {
  }

  /** `randColor()` given its three `rand()` values, one per channel in the order red,
      green, blue; a channel is the value modulo 256. */
  function RandColor(a: nat, b: nat, c: nat): (k: Color)
    ensures k.r as int == a % 256 && k.g as int == b % 256 && k.b as int == c % 256
  {
    Color((a % 256) as Byte, (b % 256) as Byte, (c % 256) as Byte)
  }

  /** Every colour is a possible `randColor()`. */
  lemma RandColorCovers(k: Color)
    ensures RandColor(k.r as nat, k.g as nat, k.b as nat) == k
  {
  }

  /** The number of `rand()` calls `generate` makes per circle, rectangle and wall. */
  const CircleCalls := 6
  const RectCalls := 7
  const WallCalls := 5

  /** The circle `generate` makes from the calls `at` to `at + 5`: radius, position, colour. */
  function CircleAt(rand: RandStream, at: nat): (s: Shape)
    ensures s.Circle? && s.origin == Zero
    ensures 10.0 <= s.radius <= 80.0
    ensures 0.0 <= s.position.x < WIDTH as real && 0.0 <= s.position.y < HEIGHT as real
  {
    Circle(RandPos(rand(at + 1), rand(at + 2)), Zero, RandBetween(rand(at), 10, 80) as real,
           RandColor(rand(at + 3), rand(at + 4), rand(at + 5)))
  }

  /** The rectangle `generate` makes from the calls `at` to `at + 6`: width, height,
      position, colour. */
  function RectAt(rand: RandStream, at: nat): (s: Shape)
    ensures s.Rect? && s.origin == Zero
    ensures 50.0 <= s.size.x <= 100.0 && 50.0 <= s.size.y <= 100.0
    ensures 0.0 <= s.position.x < WIDTH as real && 0.0 <= s.position.y < HEIGHT as real
  {
    Rect(RandPos(rand(at + 2), rand(at + 3)), Zero,
         Vec(RandBetween(rand(at), 50, 100) as real, RandBetween(rand(at + 1), 50, 100) as real),
         RandColor(rand(at + 4), rand(at + 5), rand(at + 6)))
  }

  /** The black wall `generate` makes from the calls `at` to `at + 4`: a thickness in
      `[10, 30]` and a length in `[500, 700]`, upright unless the last draw exceeds 50. */
  function WallAt(rand: RandStream, at: nat): (s: Shape)
    ensures s.Rect? && s.origin == Zero && s.fill == Black
    ensures 0.0 <= s.position.x < WIDTH as real && 0.0 <= s.position.y < HEIGHT as real
    ensures RandBetween(rand(at + 4), 0, 100) <= 50 ==> 10.0 <= s.size.x <= 30.0 && 500.0 <= s.size.y <= 700.0
    ensures RandBetween(rand(at + 4), 0, 100) > 50 ==> 500.0 <= s.size.x <= 700.0 && 10.0 <= s.size.y <= 30.0
  {
    var thickness := RandBetween(rand(at), 10, 30) as real;
    var length := RandBetween(rand(at + 1), 500, 700) as real;
    var size := if RandBetween(rand(at + 4), 0, 100) > 50 then Vec(length, thickness) else Vec(thickness, length);
    Rect(RandPos(rand(at + 2), rand(at + 3)), Zero, size, Black)
  }

  /** A loop bound given as a C++ `int`: a negative count runs no iteration. */
  function Count(n: int): nat
  {
    if n < 0 then 0 else n
  }

  /** The scene `generate(numCircles, numRects, numWalls)` builds from the calls starting
      at `at`: the circles, then the rectangles followed by the walls. */
  function Circles(rand: RandStream, at: nat, n: nat): (r: seq<Shape>)
    ensures |r| == n
  {
    if n == 0 then [] else Circles(rand, at, n - 1) + [CircleAt(rand, at + CircleCalls * (n - 1))]
  }

  function Rects(rand: RandStream, at: nat, n: nat): (r: seq<Shape>)
    ensures |r| == n
  {
    if n == 0 then [] else Rects(rand, at, n - 1) + [RectAt(rand, at + RectCalls * (n - 1))]
  }

  function Walls(rand: RandStream, at: nat, n: nat): (r: seq<Shape>)
    ensures |r| == n
  {
    if n == 0 then [] else Walls(rand, at, n - 1) + [WallAt(rand, at + WallCalls * (n - 1))]
  }

  /** Element `i` of each generated run is the shape made from the calls of its turn. */
  lemma {:induction false} GeneratedAt(rand: RandStream, at: nat, n: nat, i: nat)
    requires i < n
    ensures Circles(rand, at, n)[i] == CircleAt(rand, at + CircleCalls * i)
    ensures Rects(rand, at, n)[i] == RectAt(rand, at + RectCalls * i)
    ensures Walls(rand, at, n)[i] == WallAt(rand, at + WallCalls * i)
  {
    hide CircleAt, RectAt, WallAt;
    if i < n - 1 {
      GeneratedAt(rand, at, n - 1, i);
    }
  }

  /** What `generate` promises of the scene: every circle has a radius in `[10, 80]`,
      every rectangle sides in `[50, 100]`, every wall one side in `[10, 30]` and the other
      in `[500, 700]` and is black; all are placed inside the window with origin `(0, 0)`. */
  lemma GeneratedBounds(rand: RandStream, at: nat, n: nat)
    ensures forall i :: 0 <= i < n ==>
      var c := Circles(rand, at, n)[i];
      c.Circle? && c.origin == Zero && 10.0 <= c.radius <= 80.0 && OnScreen(c.position)
    ensures forall i :: 0 <= i < n ==>
      var r := Rects(rand, at, n)[i];
      r.Rect? && r.origin == Zero && 50.0 <= r.size.x <= 100.0 && 50.0 <= r.size.y <= 100.0 && OnScreen(r.position)
    ensures forall i :: 0 <= i < n ==>
      var w := Walls(rand, at, n)[i];
      w.Rect? && w.origin == Zero && w.fill == Black && OnScreen(w.position) &&
      ((10.0 <= w.size.x <= 30.0 && 500.0 <= w.size.y <= 700.0) ||
       (500.0 <= w.size.x <= 700.0 && 10.0 <= w.size.y <= 30.0))
  {
    hide CircleAt, RectAt, WallAt, Circles, Rects, Walls;
    forall i | 0 <= i < n {
      GeneratedAt(rand, at, n, i);
    }
  }

  /** The generated runs hold circles and rectangles respectively. */
  lemma GeneratedKinds(rand: RandStream, circlesAt: nat, nc: nat, rectsAt: nat, nr: nat, wallsAt: nat, nw: nat)
    ensures AllCircles(Circles(rand, circlesAt, nc))
    ensures AllRects(Rects(rand, rectsAt, nr) + Walls(rand, wallsAt, nw))
  {
    GeneratedBounds(rand, circlesAt, nc);
    GeneratedBounds(rand, rectsAt, nr);
    GeneratedBounds(rand, wallsAt, nw);
  }

  /** The circle loop of `generate`: `n` circles pushed onto `shapes`, drawn from call
      `at` on; `next` is the first call left. */
  method PushCircles(shapes: seq<Shape>, rand: RandStream, at: nat, n: int) returns (r: seq<Shape>, next: nat)
    ensures r == shapes + Circles(rand, at, Count(n)) && next == at + CircleCalls * Count(n)
  {
    hide CircleAt;
    r, next := shapes, at;
    var i := 0;
    while i < n
      invariant 0 <= i <= Count(n) && next == at + CircleCalls * i
      invariant r == shapes + Circles(rand, at, i)
    {
      r := r + [CircleAt(rand, next)];
      next := next + CircleCalls;
      i := i + 1;
    }
  }

  /** The rectangle loop of `generate`. */
  method PushRects(shapes: seq<Shape>, rand: RandStream, at: nat, n: int) returns (r: seq<Shape>, next: nat)
    ensures r == shapes + Rects(rand, at, Count(n)) && next == at + RectCalls * Count(n)
  {
    hide RectAt;
    r, next := shapes, at;
    var i := 0;
    while i < n
      invariant 0 <= i <= Count(n) && next == at + RectCalls * i
      invariant r == shapes + Rects(rand, at, i)
    {
      r := r + [RectAt(rand, next)];
      next := next + RectCalls;
      i := i + 1;
    }
  }

  /** The wall loop of `generate`. */
  method PushWalls(shapes: seq<Shape>, rand: RandStream, at: nat, n: int) returns (r: seq<Shape>, next: nat)
    ensures r == shapes + Walls(rand, at, Count(n)) && next == at + WallCalls * Count(n)
  {
    hide WallAt;
    r, next := shapes, at;
    var i := 0;
    while i < n
      invariant 0 <= i <= Count(n) && next == at + WallCalls * i
      invariant r == shapes + Walls(rand, at, i)
    {
      r := r + [WallAt(rand, next)];
      next := next + WallCalls;
      i := i + 1;
    }
  }

  /** Which shape `holdingShape` points to: none, the `i`-th circle or the `i`-th rectangle. */
  datatype Holding = Idle | OnCircle(i: nat) | OnRect(i: nat)

  /** The container's state: the `circles` and `rects` vectors and `holdingShape`. */
  datatype Shapes = Shapes(circles: seq<Shape>, rects: seq<Shape>, holding: Holding)

  /** The vectors hold circles and rectangles respectively, and `holdingShape` points into
      one of them. */
  predicate Coherent(st: Shapes)
  {
    AllCircles(st.circles) && AllRects(st.rects) &&
    (st.holding.OnCircle? ==> st.holding.i < |st.circles|) &&
    (st.holding.OnRect? ==> st.holding.i < |st.rects|)
  }

  /** The shape's global bounds contain the point. */
  predicate Under(s: Shape, m: Vec)
  {
    Contains(GlobalBounds(s), m)
  }

  /** The index the search loop of `update` stops at: the first shape under the point. */
  function FirstUnder(shapes: seq<Shape>, m: Vec): (r: Option<nat>)
    ensures r.Some? ==> r.value < |shapes| && Under(shapes[r.value], m)
    ensures r.Some? ==> forall k :: 0 <= k < r.value ==> !Under(shapes[k], m)
    ensures r.None? <==> forall k :: 0 <= k < |shapes| ==> !Under(shapes[k], m)
  {
    if |shapes| == 0 then None
    else if Under(shapes[0], m) then Some(0)
    else match FirstUnder(shapes[1..], m)
      case None => None
      case Some(k) => Some(k + 1)
  }

  /** The grab: the origin moves to the point under the mouse and the position to the
      mouse, so the shape is drawn at its old position. */
  function Grabbed(s: Shape, m: Vec): (r: Shape)
    ensures r.position == m && Drawn(r) == s.position
    ensures r.Circle? == s.Circle? && GlobalBounds(r).width == GlobalBounds(s).width
  {
    s.(origin := Sub(m, s.position), position := m)
  }

  /** The release: the origin goes back to `(0, 0)` and the position takes up the
      difference, so the drawn location does not change. */
  function Released(s: Shape): (r: Shape)
    ensures r.origin == Zero && Drawn(r) == Drawn(s)
    ensures r.Circle? == s.Circle? && GlobalBounds(r) == GlobalBounds(s)
  {
    s.(origin := Zero, position := Sub(s.position, s.origin))
  }

  /** The circle search of a grab: the first circle under the mouse, if any, is grabbed
      and becomes the held shape. */
  function CircleGrab(st: Shapes, m: Vec): Shapes
    requires Coherent(st)
  {
    match FirstUnder(st.circles, m)
    case None => st
    case Some(i) => st.(circles := st.circles[i := Grabbed(st.circles[i], m)], holding := OnCircle(i))
  }

  /** Mouse pressed with nothing held: the circle search, then the rectangle search, which
      runs regardless, so the first rectangle under the mouse, if any, is grabbed too and
      becomes the held shape. */
  function GrabStep(st: Shapes, m: Vec): Shapes
    requires Coherent(st)
  {
    var afterCircles := CircleGrab(st, m);
    match FirstUnder(st.rects, m)
    case None => afterCircles
    case Some(j) => afterCircles.(rects := st.rects[j := Grabbed(st.rects[j], m)], holding := OnRect(j))
  }

  /** A held shape following the mouse: only its position changes. */
  function MovedTo(s: Shape, m: Vec): (r: Shape)
    ensures r.position == m && r.origin == s.origin && r.Circle? == s.Circle?
    ensures GlobalBounds(r).width == GlobalBounds(s).width && GlobalBounds(r).height == GlobalBounds(s).height
  {
    s.(position := m)
  }

  /** Mouse pressed while a shape is held: the held shape is moved to the mouse. */
  function MoveStep(st: Shapes, m: Vec): Shapes
    requires Coherent(st)
  {
    match st.holding
    case Idle => st
    case OnCircle(i) => st.(circles := st.circles[i := MovedTo(st.circles[i], m)])
    case OnRect(i) => st.(rects := st.rects[i := MovedTo(st.rects[i], m)])
  }

  /** Mouse released: the held shape, if any, is released and nothing is held. */
  function ReleaseStep(st: Shapes): Shapes
    requires Coherent(st)
  {
    match st.holding
    case Idle => st
    case OnCircle(i) => st.(circles := st.circles[i := Released(st.circles[i])], holding := Idle)
    case OnRect(i) => st.(rects := st.rects[i := Released(st.rects[i])], holding := Idle)
  }

  /** `update(mousePos, hold)` with the mouse already clamped to `m`. */
  function Step(st: Shapes, m: Vec, hold: bool): (r: Shapes)
    requires Coherent(st)
    ensures Coherent(r) && |r.circles| == |st.circles| && |r.rects| == |st.rects|
    ensures !hold ==> r.holding.Idle?
  {
    if st.holding.Idle? && hold then GrabStep(st, m)
    else if hold then MoveStep(st, m)
    else ReleaseStep(st)
  }

  /** A grab takes the first rectangle under the mouse if there is one, else the first
      circle under it, else nothing; the grabbed shapes are drawn where they were
      before when their origin was `(0, 0)`, and every other shape is unchanged. */
  lemma GrabSelects(st: Shapes, m: Vec)
    requires Coherent(st) && st.holding.Idle?
    ensures var r := Step(st, m, true);
      && (FirstUnder(st.rects, m).Some? ==> r.holding == OnRect(FirstUnder(st.rects, m).value))
      && (FirstUnder(st.rects, m).None? && FirstUnder(st.circles, m).Some? ==>
            r.holding == OnCircle(FirstUnder(st.circles, m).value))
      && (FirstUnder(st.rects, m).None? && FirstUnder(st.circles, m).None? ==> r == st)
      && (forall k :: 0 <= k < |st.circles| && st.circles[k].origin == Zero ==> Drawn(r.circles[k]) == Drawn(st.circles[k]))
      && (forall k :: 0 <= k < |st.rects| && st.rects[k].origin == Zero ==> Drawn(r.rects[k]) == Drawn(st.rects[k]))
      && (forall k :: 0 <= k < |st.circles| && Some(k) != FirstUnder(st.circles, m) ==> r.circles[k] == st.circles[k])
      && (forall k :: 0 <= k < |st.rects| && Some(k) != FirstUnder(st.rects, m) ==> r.rects[k] == st.rects[k])
  {
  }

  /** When a circle and a rectangle are both under the mouse, the rectangle becomes the
      held shape while the circle keeps the origin and position of its grab, so that a
      later release, which only touches the held shape, leaves the circle's origin away
      from `(0, 0)` whenever the mouse was not at its position. */
  lemma CircleKeepsGrabOrigin(st: Shapes, m: Vec, later: Vec)
    requires Coherent(st) && st.holding.Idle?
    requires FirstUnder(st.circles, m).Some? && FirstUnder(st.rects, m).Some?
    requires m != st.circles[FirstUnder(st.circles, m).value].position
    ensures var i := FirstUnder(st.circles, m).value;
      var grabbed := Step(st, m, true);
      var released := Step(Step(grabbed, later, true), later, false);
      && grabbed.holding.OnRect?
      && grabbed.circles[i] == Grabbed(st.circles[i], m)
      && released.holding.Idle?
      && released.circles[i].origin == Sub(m, st.circles[i].position) != Zero
  {
    var i := FirstUnder(st.circles, m).value;
    var grabbed := Step(st, m, true);
    assert grabbed.circles[i] == Grabbed(st.circles[i], m);
    assert Step(grabbed, later, true).circles == grabbed.circles;
    var p := st.circles[i].position;
    assert m.x != p.x || m.y != p.y;
    assert Sub(m, p).x != 0.0 || Sub(m, p).y != 0.0;
  }

  /** Grabbing a shape whose origin is not `(0, 0)` moves where it is drawn by that
      origin: a circle left over by `CircleKeepsGrabOrigin` jumps when grabbed again. */
  lemma RegrabShifts(s: Shape, m: Vec)
    ensures Drawn(Grabbed(s, m)) == Add(Drawn(s), s.origin)
    ensures s.origin != Zero ==> Drawn(Grabbed(s, m)) != Drawn(s)
  {
    if s.origin != Zero {
      assert s.origin.x != 0.0 || s.origin.y != 0.0;
    }
  }

  /** While a shape is held and the mouse stays pressed, only the held shape moves, to the
      mouse, with its origin kept. */
  lemma MoveOnlyHeld(st: Shapes, m: Vec)
    requires Coherent(st) && !st.holding.Idle?
    ensures var r := Step(st, m, true);
      && r.holding == st.holding
      && (st.holding.OnCircle? ==>
            r.circles[st.holding.i] == MovedTo(st.circles[st.holding.i], m) && r.rects == st.rects &&
            forall k :: 0 <= k < |st.circles| && k != st.holding.i ==> r.circles[k] == st.circles[k])
      && (st.holding.OnRect? ==>
            r.rects[st.holding.i] == MovedTo(st.rects[st.holding.i], m) && r.circles == st.circles &&
            forall k :: 0 <= k < |st.rects| && k != st.holding.i ==> r.rects[k] == st.rects[k])
  {
  }

  /** A release leaves every shape drawn where it was, the released one with origin
      `(0, 0)`, and nothing held. */
  lemma ReleaseKeepsScene(st: Shapes, m: Vec)
    requires Coherent(st)
    ensures var r := Step(st, m, false);
      && r.holding == Idle
      && (forall k :: 0 <= k < |st.circles| ==> Drawn(r.circles[k]) == Drawn(st.circles[k]))
      && (forall k :: 0 <= k < |st.rects| ==> Drawn(r.rects[k]) == Drawn(st.rects[k]))
      && (st.holding.OnCircle? ==> r.circles[st.holding.i].origin == Zero)
      && (st.holding.OnRect? ==> r.rects[st.holding.i].origin == Zero)
  {
  }

  /** The container. `holdingShape` is `holding`; `draw` is not part of this model. */
  class ShapeContainer {
    var circles: seq<Shape>
    var rects: seq<Shape>
    var showShapes: bool
    var holding: Holding

    function State(): Shapes
      reads this
    {
      Shapes(circles, rects, holding)
    }

    ghost predicate Valid()
      reads this
    {
      Coherent(State())
    }

    constructor Init()
      ensures Valid() && circles == [] && rects == [] && showShapes && holding == Idle
    {
      circles, rects := [], [];
      showShapes := true;
      holding := Idle;
    }

    /** `generate(numCircles, numRects, numWalls)` drawing from `rand` from call `start`
        on; `next` is the first call left for later draws. */
    method Generate(numCircles: int, numRects: int, numWalls: int, rand: RandStream, start: nat)
      returns (next: nat)
      requires Valid() && holding == Idle
      modifies this`circles, this`rects
      ensures Valid()
      ensures circles == Circles(rand, start, Count(numCircles))
      ensures rects == Rects(rand, start + CircleCalls * Count(numCircles), Count(numRects)) +
                       Walls(rand, start + CircleCalls * Count(numCircles) + RectCalls * Count(numRects), Count(numWalls))
      ensures next == start + CircleCalls * Count(numCircles) + RectCalls * Count(numRects) + WallCalls * Count(numWalls)
    {
      hide CircleAt, RectAt, WallAt;
      var cs, rs;
      cs, next := PushCircles([], rand, start, numCircles);
      var rectsAt := next;
      rs, next := PushRects([], rand, rectsAt, numRects);
      var wallsAt := next;
      rs, next := PushWalls(rs, rand, wallsAt, numWalls);
      assert cs == Circles(rand, start, Count(numCircles));
      assert rs == Rects(rand, rectsAt, Count(numRects)) + Walls(rand, wallsAt, Count(numWalls));
      GeneratedKinds(rand, start, Count(numCircles), rectsAt, Count(numRects), wallsAt, Count(numWalls));
      circles, rects := cs, rs;
    }

    /** The two search loops of `update` on a press with nothing held. */
    method GrabAt(m: Vec)
      requires Valid() && holding == Idle
      modifies this`circles, this`rects, this`holding
      ensures Valid() && State() == GrabStep(old(State()), m)
    {
      var i := 0;
      while i < |circles|
        invariant i <= |circles| && circles == old(circles) && holding == Idle
        invariant forall k :: 0 <= k < i ==> !Under(circles[k], m)
      {
        if Under(circles[i], m) {
          holding := OnCircle(i);
          circles := circles[i := Grabbed(circles[i], m)];
          break;
        }
        i := i + 1;
      }
      var j := 0;
      while j < |rects|
        invariant j <= |rects| && rects == old(rects)
        invariant State() == CircleGrab(old(State()), m)
        invariant forall k :: 0 <= k < j ==> !Under(rects[k], m)
      {
        if Under(rects[j], m) {
          holding := OnRect(j);
          rects := rects[j := Grabbed(rects[j], m)];
          break;
        }
        j := j + 1;
      }
    }

    /** `update(mousePos, hold)`: the step of the drag state machine at the clamped mouse. */
    method Update(mx: int, my: int, hold: bool)
      requires Valid()
      modifies this`circles, this`rects, this`holding
      ensures Valid()
      ensures State() == Step(old(State()), ClampToWindow(mx, my), hold)
    {
      var m := ClampToWindow(mx, my);
      if holding.Idle? && hold {
        GrabAt(m);
      } else if hold {
        match holding {
          case OnCircle(i) =>
            circles := circles[i := MovedTo(circles[i], m)];
          case OnRect(i) =>
            rects := rects[i := MovedTo(rects[i], m)];
        }
      } else {
        match holding {
          case Idle =>
          case OnCircle(i) =>
            circles := circles[i := Released(circles[i])];
          case OnRect(i) =>
            rects := rects[i := Released(rects[i])];
        }
        holding := Idle;
      }
    }
  }
}
