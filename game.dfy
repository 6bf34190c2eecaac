/** The simulation core: actors with axis-aligned boxes, the fireball movement
    rule, and the level that holds the obstacle grid, the actor list and the
    win/lose status. */
module Game {
  import opened Geometry

  datatype Option<T> = None | Some(value: T)

  /** An obstacle label of the grid. */
  datatype Obstacle = Wall | Lava

  /** A grid cell: an obstacle, or empty (`undefined` in the source). */
  type Cell = Option<Obstacle>

  /** A terminal status of a level; a level still in play has status `None`. */
  datatype Outcome = Won | Lost

  /** What a fireball does when its next position is blocked: reverse its
      velocity (Fireball, HorizontalFireball, VerticalFireball), or jump back to
      the position it was created at (FireRain). */
  datatype Response = Bounce | ResetTo(spawn: Vector)

  /** The closed family of actor classes. */
  datatype Kind = ActorKind | PlayerKind | CoinKind | FireballKind(onObstacle: Response)

  /** The `type` getter of each class. The three bouncing fireballs and
      FireRain all answer "fireball"; every other class has a name of its own. */
  function TypeName(k: Kind): (r: string)
    ensures r == "actor" <==> k == ActorKind
    ensures r == "player" <==> k == PlayerKind
    ensures r == "coin" <==> k == CoinKind
    ensures r == "fireball" <==> k.FireballKind?
  {
    match k
    case ActorKind => "actor"
    case PlayerKind => "player"
    case CoinKind => "coin"
    case FireballKind(_) => "fireball"
  }

  /** The fields of an actor at one moment. */
  datatype ActorState = ActorState(pos: Vector, size: Vector, speed: Vector, kind: Kind)
  {
    /** The edge getters: the box starts at `pos` and spans `size`. */
    function Left(): (r: real)
      ensures r == pos.x
    { pos.x }

    function Right(): (r: real)
      ensures r - Left() == size.x
    { pos.x + size.x }

    function Top(): (r: real)
      ensures r == pos.y
    { pos.y }

    function Bottom(): (r: real)
      ensures r - Top() == size.y
    { pos.y + size.y }

    /** The point lies in the half-open box [left, right) x [top, bottom). */
    predicate Contains(p: Vector)
    {
      Left() <= p.x < Right() && Top() <= p.y < Bottom()
    }

    predicate HasPositiveSize()
    {
      size.x > 0.0 && size.y > 0.0
    }
  }

  /** A box of positive size holds its own position and none of the points on
      its right or bottom edge. */
  lemma PositiveBoxEdges(s: ActorState)
    requires s.HasPositiveSize()
    ensures s.Left() < s.Right() && s.Top() < s.Bottom()
    ensures s.Contains(s.pos)
    ensures !s.Contains(Vector(s.Right(), s.Top())) && !s.Contains(Vector(s.Left(), s.Bottom()))
  {
  }

  /** Strict overlap of two boxes on both axes: boxes that only touch along an
      edge, or that are apart, do not overlap. */
  predicate Overlap(a: ActorState, b: ActorState)
  {
    b.Left() < a.Right() && a.Left() < b.Right() && b.Top() < a.Bottom() && a.Top() < b.Bottom()
  }

  /** For boxes of positive size, overlapping is the same as sharing a point. */
  lemma OverlapIffSharedPoint(a: ActorState, b: ActorState)
    requires a.HasPositiveSize() && b.HasPositiveSize()
    ensures Overlap(a, b) <==> exists p :: a.Contains(p) && b.Contains(p)
  {
    if Overlap(a, b) {
      var px := if a.Left() < b.Left() then b.Left() else a.Left();
      var py := if a.Top() < b.Top() then b.Top() else a.Top();
      assert a.Contains(Vector(px, py)) && b.Contains(Vector(px, py));
    }
  }

  // ---------------------------------------------------------------------------
  // The constructors of the actor classes, as the state they produce.

  /** `new Actor(position, size, speed)`, with the source's default arguments. */
  function NewActor(pos: Vector := Vector(0.0, 0.0), size: Vector := Vector(1.0, 1.0),
                    speed: Vector := Vector(0.0, 0.0)): (s: ActorState)
    ensures s.pos == pos && s.size == size && s.speed == speed && s.kind == ActorKind
  {
    ActorState(pos, size, speed, ActorKind)
  }

  /** `new Player(cell)`: size (0.8, 1.5), raised half a cell so that its feet
      stand on the floor of the cell. */
  function NewPlayer(cell: Vector := Vector(0.0, 0.0)): (s: ActorState)
    ensures s.kind == PlayerKind && s.speed == Vector(0.0, 0.0) && s.size == Vector(0.8, 1.5)
    ensures s.Left() == cell.x && cell.x < s.Right() < cell.x + 1.0
    ensures s.Bottom() == cell.y + 1.0 && s.Top() == cell.y - 0.5
  {
    var base := NewActor(cell, Vector(0.8, 1.5));
    base.(pos := Plus(base.pos, Vector(0.0, -0.5)), kind := PlayerKind)
  }

  /** `new Coin(cell)`: size (0.6, 0.6), moved by (0.2, 0.1) into the cell. */
  function NewCoin(cell: Vector := Vector(0.0, 0.0)): (s: ActorState)
    ensures s.kind == CoinKind && s.speed == Vector(0.0, 0.0) && s.size == Vector(0.6, 0.6)
    ensures s.pos == Vector(cell.x + 0.2, cell.y + 0.1)
    ensures cell.x < s.Left() && s.Right() < cell.x + 1.0
    ensures cell.y < s.Top() && s.Bottom() < cell.y + 1.0
  {
    var base := NewActor(cell);
    base.(pos := Plus(base.pos, Vector(0.2, 0.1)), size := Vector(0.6, 0.6), kind := CoinKind)
  }

  /** `new Fireball(pos, speed, size)`. The source hands its arguments to the
      Actor constructor as (pos, speed, size), that is with size and speed
      swapped, and then assigns speed and size again; the net effect is the
      arguments in their declared roles. */
  function NewFireball(pos: Vector := Vector(0.0, 0.0), speed: Vector := Vector(0.0, 0.0),
                       size: Vector := Vector(1.0, 1.0)): (s: ActorState)
    ensures s.pos == pos && s.speed == speed && s.size == size
    ensures s.kind == FireballKind(Bounce)
  {
    var base := NewActor(pos, speed, size);
    base.(speed := speed, size := size, kind := FireballKind(Bounce))
  }

  /** `new HorizontalFireball(pos)`: speed (2, 0), one cell in size. */
  function NewHorizontalFireball(pos: Vector := Vector(0.0, 0.0)): (s: ActorState)
    ensures s.pos == pos && s.speed == Vector(2.0, 0.0) && s.size == Vector(1.0, 1.0)
    ensures s.kind == FireballKind(Bounce)
  {
    NewFireball(pos, Vector(2.0, 0.0))
  }

  /** `new VerticalFireball(pos)`: speed (0, 2), one cell in size. */
  function NewVerticalFireball(pos: Vector := Vector(0.0, 0.0)): (s: ActorState)
    ensures s.pos == pos && s.speed == Vector(0.0, 2.0) && s.size == Vector(1.0, 1.0)
    ensures s.kind == FireballKind(Bounce)
  {
    NewFireball(pos, Vector(0.0, 2.0))
  }

  /** `new FireRain(position, speed)`: speed (0, 3) by default, one cell in
      size, and it remembers `position` to return to. */
  function NewFireRain(position: Vector := Vector(0.0, 0.0), speed: Vector := Vector(0.0, 3.0)): (s: ActorState)
    ensures s.pos == position && s.speed == speed && s.size == Vector(1.0, 1.0)
    ensures s.kind == FireballKind(ResetTo(position))
  {
    NewFireball(position, speed).(kind := FireballKind(ResetTo(position)))
  }

  // ---------------------------------------------------------------------------
  // Actors as objects: identity matters for isIntersect and removeActor.

  class Actor {
    var pos: Vector
    var size: Vector
    var speed: Vector
    const kind: Kind

    /** Allocates an actor with the given state (one of the New* functions). */
    constructor (s: ActorState)
      ensures State() == s
    {
      pos := s.pos;
      size := s.size;
      speed := s.speed;
      kind := s.kind;
    }

    function State(): ActorState
      reads this
    {
      ActorState(pos, size, speed, kind)
    }

    /** The `type` getter, as the actor's class answers it (see TypeName). */
    function Type(): string
    {
      TypeName(kind)
    }

    /** Actor.isIntersect: never true of the actor itself; otherwise true
        exactly when the two boxes overlap strictly. */
    function IsIntersect(other: Actor): (r: bool)
      reads this, other
      ensures other == this ==> !r
      ensures other != this ==> (r <==> Overlap(State(), other.State()))
    {
      var me := State();
      var them := other.State();
      if other == this then false
      else if them.Left() >= me.Right() then false
      else if them.Top() >= me.Bottom() then false
      else if them.Right() <= me.Left() then false
      else if them.Bottom() <= me.Top() then false
      else true
    }

    /** Fireball.getNextPosition: where the actor is after `time` at its
        current speed; it does not move the actor. */
    function NextPosition(time: real := 1.0): (r: Vector)
      reads this
      ensures r.x == pos.x + speed.x * time && r.y == pos.y + speed.y * time
      ensures time == 0.0 || speed == Vector(0.0, 0.0) ==> r == pos
    {
      Plus(pos, Times(speed, time))
    }

    /** Fireball.handleObstacle, and FireRain's override of it. */
    method HandleObstacle()
      requires kind.FireballKind?
      modifies this`pos, this`speed
      ensures kind.onObstacle.Bounce? ==> pos == old(pos) && speed == Times(old(speed), -1.0)
      ensures kind.onObstacle.ResetTo? ==> pos == kind.onObstacle.spawn && speed == old(speed)
    {
      match kind.onObstacle
      case Bounce =>
        speed := Times(speed, -1.0);
      case ResetTo(spawn) =>
        pos := spawn;
    }

    /** Fireball.act: move to the next position when nothing is there,
        otherwise react to the obstacle without moving. */
    method Act(time: real := 1.0, level: Level)
      requires kind.FireballKind?
      requires level.Valid()
      modifies this`pos, this`speed
      ensures level.Free(old(NextPosition(time)), size) ==>
        pos == old(NextPosition(time)) && speed == old(speed)
      ensures !level.Free(old(NextPosition(time)), size) && kind.onObstacle.Bounce? ==>
        pos == old(pos) && speed == Times(old(speed), -1.0)
      ensures !level.Free(old(NextPosition(time)), size) && kind.onObstacle.ResetTo? ==>
        pos == kind.onObstacle.spawn && speed == old(speed)
    {
      var newPos := NextPosition(time);
      var obstacle := level.ObstacleAt(newPos, size);
      if obstacle.None? {
        pos := newPos;
      } else {
        HandleObstacle();
      }
    }
  }

  /** Moving for `t1` and then for `t2` at the same speed is moving for
      `t1 + t2`. */
  lemma NextPositionAdditive(p: Vector, v: Vector, t1: real, t2: real)
    ensures Plus(Plus(p, Times(v, t1)), Times(v, t2)) == Plus(p, Times(v, t1 + t2))
  {
  }

  /** The states of a list of actors, in list order. */
  function States(s: seq<Actor>): (r: seq<ActorState>)
    reads s
    ensures |r| == |s|
  {
    if |s| == 0 then [] else States(s[..|s| - 1]) + [s[|s| - 1].State()]
  }

  /** Entry `k` of the states is the state of actor `k`. */
  lemma {:induction false} StatesAt(s: seq<Actor>, k: int)
    requires 0 <= k < |s|
    ensures States(s)[k] == s[k].State()
  {
    if k < |s| - 1 {
      StatesAt(s[..|s| - 1], k);
    }
  }

  lemma {:induction false} StatesConcat(s: seq<Actor>, t: seq<Actor>)
    ensures States(s + t) == States(s) + States(t)
  {
    if |t| > 0 {
      var n := |t|;
      StatesConcat(s, t[..n - 1]);
      assert (s + t)[..|s + t| - 1] == s + t[..n - 1];
    }
    else { assert s + t == s; }
  }

  lemma StatesAppend(s: seq<Actor>, a: Actor)
    ensures States(s + [a]) == States(s) + [a.State()]
  {
    assert (s + [a])[..|s|] == s;
  }

  /** No actor appears twice in `s`. */
  predicate Distinct(s: seq<Actor>)
  {
    |s| == 0 || (Distinct(s[..|s| - 1]) && s[|s| - 1] !in s[..|s| - 1])
  }

  lemma DistinctAppend(s: seq<Actor>, a: Actor)
    requires Distinct(s) && a !in s
    ensures Distinct(s + [a])
  {
    assert (s + [a])[..|s|] == s;
  }

  lemma {:induction false} DistinctConcat(s: seq<Actor>, t: seq<Actor>)
    requires Distinct(s) && Distinct(t)
    requires forall k :: 0 <= k < |t| ==> t[k] !in s
    ensures Distinct(s + t)
  {
    if |t| > 0 {
      var n := |t|;
      DistinctConcat(s, t[..n - 1]);
      assert (s + t)[..|s + t| - 1] == s + t[..n - 1];
      assert (s + t)[|s + t| - 1] == t[n - 1];
      assert t[n - 1] !in s + t[..n - 1];
    } else {
      assert s + t == s;
    }
  }

  /** Distinct means what it says: no two positions hold the same actor. */
  lemma {:induction false} DistinctNoRepeats(s: seq<Actor>, j: int, k: int)
    requires Distinct(s) && 0 <= j < k < |s|
    ensures s[j] != s[k]
  {
    var n := |s|;
    if k < n - 1 {
      DistinctNoRepeats(s[..n - 1], j, k);
    } else {
      assert s[j] in s[..n - 1];
    }
  }

  /** Two distinct actors intersect each other symmetrically. */
  lemma IntersectSymmetric(a: Actor, b: Actor)
    requires a != b
    ensures a.IsIntersect(b) == b.IsIntersect(a)
  {
  }

  // ---------------------------------------------------------------------------
  // Searching and filtering the actor list.

  /** The first actor of `s` whose type is `t` (Array.prototype.find). */
  function FirstOfType(s: seq<Actor>, t: string): (r: Option<Actor>)
    ensures r.None? <==> forall k :: 0 <= k < |s| ==> s[k].Type() != t
    ensures r.Some? ==> exists k :: 0 <= k < |s| && s[k] == r.value && r.value.Type() == t &&
                                    forall j :: 0 <= j < k ==> s[j].Type() != t
  {
    if |s| == 0 then None
    else if s[0].Type() == t then Some(s[0])
    else
      var r := FirstOfType(s[1..], t);
      assert r.Some? ==> exists k :: 1 <= k < |s| && s[k] == r.value && r.value.Type() == t &&
                                     forall j :: 0 <= j < k ==> s[j].Type() != t by {
        if r.Some? {
          var k :| 0 <= k < |s| - 1 && s[1..][k] == r.value && r.value.Type() == t &&
                   forall j :: 0 <= j < k ==> s[1..][j].Type() != t;
          assert s[k + 1] == r.value;
        }
      }
      r
  }

  /** The first actor of `s` that `a` intersects (Array.prototype.find). */
  function FirstIntersecting(a: Actor, s: seq<Actor>): (r: Option<Actor>)
    reads a, s
    ensures r.None? <==> forall k :: 0 <= k < |s| ==> !a.IsIntersect(s[k])
    ensures r.Some? ==> exists k :: 0 <= k < |s| && s[k] == r.value && a.IsIntersect(r.value) &&
                                    forall j :: 0 <= j < k ==> !a.IsIntersect(s[j])
  {
    if |s| == 0 then None
    else if a.IsIntersect(s[0]) then Some(s[0])
    else
      var r := FirstIntersecting(a, s[1..]);
      assert r.Some? ==> exists k :: 1 <= k < |s| && s[k] == r.value && a.IsIntersect(r.value) &&
                                     forall j :: 0 <= j < k ==> !a.IsIntersect(s[j]) by {
        if r.Some? {
          var k :| 0 <= k < |s| - 1 && s[1..][k] == r.value && a.IsIntersect(r.value) &&
                   forall j :: 0 <= j < k ==> !a.IsIntersect(s[1..][j]);
          assert s[k + 1] == r.value;
        }
      }
      r
  }

  /** `s` without any entry identical to `a` (Array.prototype.filter with !==). */
  function Without(s: seq<Actor>, a: Actor): (r: seq<Actor>)
    ensures multiset(r) == multiset(s)[a := 0]
  {
    if |s| == 0 then []
    else
      assert s == [s[0]] + s[1..];
      if s[0] == a then Without(s[1..], a)
      else [s[0]] + Without(s[1..], a)
  }

  /** Removal keeps the relative order of what stays: it distributes over
      concatenation ... */
  lemma {:induction false} WithoutAppend(s: seq<Actor>, t: seq<Actor>, a: Actor)
    ensures Without(s + t, a) == Without(s, a) + Without(t, a)
  {
    if |s| == 0 {
      assert s + t == t;
    } else {
      assert (s + t)[1..] == s[1..] + t;
      WithoutAppend(s[1..], t, a);
    }
  }

  /** ... and leaves a list without `a` exactly as it was. */
  lemma {:induction false} WithoutAbsent(s: seq<Actor>, a: Actor)
    requires a !in s
    ensures Without(s, a) == s
  {
    if |s| > 0 {
      WithoutAbsent(s[1..], a);
    }
  }

  /** Removing the same actor twice changes nothing more. */
  lemma WithoutIdempotent(s: seq<Actor>, a: Actor)
    ensures Without(Without(s, a), a) == Without(s, a)
  {
  }

  // ---------------------------------------------------------------------------
  // The level.

  /** `w` is the length of the longest row, or 0 when there is no row. */
  predicate IsWidth(grid: seq<seq<Cell>>, w: int)
  {
    (forall k :: 0 <= k < |grid| ==> |grid[k]| <= w) &&
    (w == 0 || exists k :: 0 <= k < |grid| && |grid[k]| == w)
  }

  /** IsWidth determines the width. */
  lemma WidthUnique(grid: seq<seq<Cell>>, w1: int, w2: int)
    requires IsWidth(grid, w1) && IsWidth(grid, w2)
    ensures w1 == w2
  {
  }

  /** The width loop of the Level constructor: the maximum row length. */
  method RowsWidth(grid: seq<seq<Cell>>) returns (goodLength: int)
    ensures IsWidth(grid, goodLength)
  {
    goodLength := 0;
    var i := 0;
    while i < |grid|
      invariant 0 <= i <= |grid|
      invariant forall k :: 0 <= k < i ==> |grid[k]| <= goodLength
      invariant goodLength == 0 || exists k :: 0 <= k < i && |grid[k]| == goodLength
    {
      if |grid[i]| > goodLength {
        goodLength := |grid[i]|;
      }
      i := i + 1;
    }
  }

  class Level {
    const grid: seq<seq<Cell>>
    const width: int
    const height: int
    var actors: seq<Actor>
    var status: Option<Outcome>
    var finishDelay: real

    ghost predicate Valid()
    {
      height == |grid| && IsWidth(grid, width)
    }

    /** `new Level(grid, actors)`. */
    constructor (grid: seq<seq<Cell>> := [], actors: seq<Actor> := [])
      ensures Valid()
      ensures this.grid == grid && this.actors == actors
      ensures status == None && finishDelay == 1.0
    {
      this.grid := grid;
      this.actors := actors;
      status := None;
      finishDelay := 1.0;
      var goodLength := RowsWidth(grid);
      width := goodLength;
      height := |grid|;
    }

    /** The `player` getter: the first actor of type "player". */
    function Player(): (r: Option<Actor>)
      reads this
      ensures r.None? <==> forall k :: 0 <= k < |actors| ==> actors[k].kind != PlayerKind
      ensures r.Some? ==> exists k :: 0 <= k < |actors| && actors[k] == r.value &&
                                      r.value.kind == PlayerKind &&
                                      forall j :: 0 <= j < k ==> actors[j].kind != PlayerKind
    {
      FirstOfType(actors, "player")
    }

    /** Level.isFinished. */
    function IsFinished(): (r: bool)
      reads this
      ensures status == None ==> !r
      ensures finishDelay >= 0.0 ==> !r
      ensures status != None && finishDelay < 0.0 ==> r
    {
      status != None && finishDelay < 0.0
    }

    /** Level.actorAt: the first actor in list order that `a` intersects;
        never `a` itself. */
    function ActorAt(a: Actor): (r: Option<Actor>)
      reads this, a, actors
      ensures r.Some? ==> r.value != a
      ensures r.None? <==> forall k :: 0 <= k < |actors| ==> !a.IsIntersect(actors[k])
      ensures r.Some? ==> exists k :: 0 <= k < |actors| && actors[k] == r.value &&
                                      Overlap(a.State(), r.value.State()) &&
                                      forall j :: 0 <= j < k ==> !a.IsIntersect(actors[j])
    {
      FirstIntersecting(a, actors)
    }

    /** The cell at row `y`, column `x`; positions past the end of a short row
        read as empty. */
    function CellAt(y: int, x: int): Cell
    {
      if 0 <= y < |grid| && 0 <= x < |grid[y]| then grid[y][x] else None
    }

    /** The box leaves the grid on the left, the right or the top. */
    predicate OutOfBounds(pos: Vector, size: Vector)
    {
      Floor(pos.x) < 0 || Ceil(pos.x + size.x) > width || Floor(pos.y) < 0
    }

    /** The box reaches below the last row. */
    predicate BelowBottom(pos: Vector, size: Vector)
    {
      Ceil(pos.y + size.y) > height
    }

    /** Cell (y, x) is in the range the box covers after rounding outwards. */
    predicate Covers(pos: Vector, size: Vector, y: int, x: int)
    {
      Floor(pos.y) <= y < Ceil(pos.y + size.y) && Floor(pos.x) <= x < Ceil(pos.x + size.x)
    }

    /** Every covered cell that a row-by-row scan visits before (y, x) is empty. */
    ghost predicate EmptyBefore(pos: Vector, size: Vector, y: int, x: int)
    {
      (forall y', x' :: Covers(pos, size, y', x') && y' < y ==> CellAt(y', x').None?) &&
      (forall x' :: Covers(pos, size, y, x') && x' < x ==> CellAt(y, x').None?)
    }

    /** Nothing is in the way of a box at `pos` of extent `size`. */
    ghost predicate Free(pos: Vector, size: Vector)
    {
      !OutOfBounds(pos, size) && !BelowBottom(pos, size) &&
      forall y, x :: Covers(pos, size, y, x) ==> CellAt(y, x).None?
    }

    /** A box with nothing in its way lies within the grid's borders. */
    lemma FreeInsideGrid(pos: Vector, size: Vector)
      requires Free(pos, size)
      ensures 0.0 <= pos.x && pos.x + size.x <= width as real
      ensures 0.0 <= pos.y && pos.y + size.y <= height as real
    {
    }

    /** Level.obstacleAt: a wall outside the left, right and top borders,
        lava below the bottom, otherwise the first obstacle of the covered
        cells in row-by-row order, or none. */
    method ObstacleAt(pos: Vector, size: Vector) returns (r: Option<Obstacle>)
      requires Valid()
      ensures OutOfBounds(pos, size) ==> r == Some(Wall)
      ensures !OutOfBounds(pos, size) && BelowBottom(pos, size) ==> r == Some(Lava)
      ensures r.None? <==> Free(pos, size)
      ensures !OutOfBounds(pos, size) && !BelowBottom(pos, size) && r.Some? ==>
        exists y, x :: Covers(pos, size, y, x) && CellAt(y, x) == r && EmptyBefore(pos, size, y, x)
    {
      var xStart := Floor(pos.x);
      var xEnd := Ceil(pos.x + size.x);
      var yStart := Floor(pos.y);
      var yEnd := Ceil(pos.y + size.y);
      if xStart < 0 || xEnd > width || yStart < 0 {
        return Some(Wall);
      }
      if yEnd > height {
        return Some(Lava);
      }
      var y := yStart;
      while y < yEnd
        invariant yStart <= y
        invariant forall y', x' :: Covers(pos, size, y', x') && y' < y ==> CellAt(y', x').None?
      {
        var x := xStart;
        while x < xEnd
          invariant xStart <= x
          invariant forall x' :: Covers(pos, size, y, x') && x' < x ==> CellAt(y, x').None?
        {
          var fieldType := if x < |grid[y]| then grid[y][x] else None;
          if fieldType.Some? {
            assert Covers(pos, size, y, x) && CellAt(y, x) == fieldType;
            assert EmptyBefore(pos, size, y, x);
            return fieldType;
          }
          x := x + 1;
        }
        y := y + 1;
      }
      return None;
    }

    /** Level.removeActor: drops every entry identical to `a`. */
    method RemoveActor(a: Actor)
      modifies this`actors
      ensures actors == Without(old(actors), a)
    {
      actors := Without(actors, a);
    }

    /** Level.noMoreActors: no actor has type `t`. */
    function NoMoreActors(t: string := ""): (r: bool)
      reads this
      ensures r <==> forall k :: 0 <= k < |actors| ==> actors[k].Type() != t
    {
      FirstOfType(actors, t).None?
    }

    /** Level.playerTouched. Lava and fireballs lose the level and coins win it
        once the last one is taken, whatever the status was before. */
    method PlayerTouched(t: string, a: Actor) returns (r: Option<Outcome>)
      modifies this`actors, this`status
      ensures (t == "lava" || t == "fireball") ==>
        status == Some(Lost) && r == Some(Lost) && actors == old(actors)
      ensures t == "coin" ==> actors == Without(old(actors), a)
      ensures t == "coin" && NoMoreActors("coin") ==> status == Some(Won) && r == Some(Won)
      ensures t == "coin" && !NoMoreActors("coin") ==> status == old(status) && r == None
      ensures t != "lava" && t != "fireball" && t != "coin" ==>
        actors == old(actors) && status == old(status) && r == None
    {
      if t == "lava" || t == "fireball" {
        status := Some(Lost);
        return Some(Lost);
      }
      if t == "coin" {
        RemoveActor(a);
        if NoMoreActors("coin") {
          status := Some(Won);
          return Some(Won);
        }
      }
      return None;
    }
  }
}
