/** LevelParser: turns a plan (a list of row strings) into an obstacle grid
    and a list of freshly created actors, and from those into a Level. */
module Parser {
  import opened Geometry
  import opened Game

  /** The actor classes a symbol can be mapped to. */
  datatype ActorClass =
    | BaseActor | PlayerClass | CoinClass | FireballClass
    | HorizontalFireballClass | VerticalFireballClass | FireRainClass

  /** A value of the symbol table: an actor class, or something createActors
      skips (a value that is not a constructor, or a constructor whose
      instances are not actors). */
  datatype Entry = Class(cls: ActorClass) | NotAnActorClass

  /** `new cls(cell)`: the state of a freshly created instance. */
  function Instantiate(cls: ActorClass, cell: Vector): (r: ActorState)
    ensures r.HasPositiveSize()
    ensures r.kind == ActorKind <==> cls == BaseActor
    ensures r.kind == PlayerKind <==> cls == PlayerClass
    ensures r.kind == CoinKind <==> cls == CoinClass
    ensures r.kind == FireballKind(Bounce) <==>
      cls == FireballClass || cls == HorizontalFireballClass || cls == VerticalFireballClass
    ensures r.kind == FireballKind(ResetTo(cell)) <==> cls == FireRainClass
    ensures cls == PlayerClass ==> r.pos == Vector(cell.x, cell.y - 0.5)
    ensures cls == CoinClass ==> r.pos == Vector(cell.x + 0.2, cell.y + 0.1)
    ensures cls != PlayerClass && cls != CoinClass ==> r.pos == cell
  {
    match cls
    case BaseActor => NewActor(cell)
    case PlayerClass => NewPlayer(cell)
    case CoinClass => NewCoin(cell)
    case FireballClass => NewFireball(cell)
    case HorizontalFireballClass => NewHorizontalFireball(cell)
    case VerticalFireballClass => NewVerticalFireball(cell)
    case FireRainClass => NewFireRain(cell)
  }

  /** The symbol table the game starts the parser with. */
  const ActorDict: map<char, Entry> := map[
    '@' := Class(PlayerClass),
    'o' := Class(CoinClass),
    '=' := Class(HorizontalFireballClass),
    '|' := Class(VerticalFireballClass),
    'v' := Class(FireRainClass)
  ]

  /** The game's table maps five symbols, none of them an obstacle symbol, to
      a player, a coin and three kinds of fireball. */
  lemma ActorDictSymbols(cell: Vector)
    ensures ActorDict.Keys == {'@', 'o', '=', '|', 'v'}
    ensures forall c :: c in ActorDict ==> ActorDict[c].Class? && ObstacleFromSymbol(c).None?
    ensures TypeName(Instantiate(ActorDict['@'].cls, cell).kind) == "player"
    ensures TypeName(Instantiate(ActorDict['o'].cls, cell).kind) == "coin"
    ensures TypeName(Instantiate(ActorDict['='].cls, cell).kind) == "fireball"
    ensures TypeName(Instantiate(ActorDict['|'].cls, cell).kind) == "fireball"
    ensures TypeName(Instantiate(ActorDict['v'].cls, cell).kind) == "fireball"
  {
  }

  /** LevelParser.obstacleFromSymbol: 'x' is a wall, '!' is lava, every other
      symbol is an empty cell. */
  function ObstacleFromSymbol(symbol: char): (r: Cell)
    ensures r == Some(Wall) <==> symbol == 'x'
    ensures r == Some(Lava) <==> symbol == '!'
    ensures r == None <==> symbol != 'x' && symbol != '!'
  {
    match symbol
    case 'x' => Some(Wall)
    case '!' => Some(Lava)
    case _ => None
  }

  /** Row `y` of `grid` is row `y` of `plan`, symbol by symbol. */
  ghost predicate IsGridOf(plan: seq<string>, grid: seq<seq<Cell>>)
  {
    |grid| == |plan| &&
    forall y :: 0 <= y < |plan| ==>
      |grid[y]| == |plan[y]| &&
      forall x :: 0 <= x < |plan[y]| ==> grid[y][x] == ObstacleFromSymbol(plan[y][x])
  }

  datatype LevelParser = LevelParser(symbols: map<char, Entry> := map[])
  {
    /** LevelParser.actorFromSymbol: the table's entry, if any. */
    function ActorFromSymbol(symbol: char): (r: Option<Entry>)
      ensures r.None? <==> symbol !in symbols
      ensures r.Some? ==> r.value == symbols[symbol]
    {
      if symbol in symbols then Some(symbols[symbol]) else None
    }

    /** The actors the symbol at column `col` of row `row` gives rise to: one
        instance of its class placed at (col, row), or none. */
    function SpawnAt(symbol: char, col: int, row: int): seq<ActorState>
    {
      match ActorFromSymbol(symbol)
      case Some(Class(cls)) => [Instantiate(cls, Vector(col as real, row as real))]
      case _ => []
    }

    /** The actors of one row, left to right. */
    function RowSpawns(line: string, row: int): seq<ActorState>
    {
      if |line| == 0 then []
      else RowSpawns(line[..|line| - 1], row) + SpawnAt(line[|line| - 1], |line| - 1, row)
    }

    /** The actors of a whole plan, row after row. */
    function PlanSpawns(plan: seq<string>): seq<ActorState>
    {
      if |plan| == 0 then []
      else PlanSpawns(plan[..|plan| - 1]) + RowSpawns(plan[|plan| - 1], |plan| - 1)
    }

    /** The actor `s` is what the symbol at some cell of `plan` spawns. */
    ghost predicate FromCell(plan: seq<string>, s: ActorState)
    {
      exists row, col :: 0 <= row < |plan| && 0 <= col < |plan[row]| &&
        SpawnAt(plan[row][col], col, row) == [s]
    }

    /** Every actor of a row comes from a mapped symbol of that row. */
    lemma {:induction false} RowSpawnsSound(line: string, row: int, i: int)
      requires 0 <= i < |RowSpawns(line, row)|
      ensures exists col :: 0 <= col < |line| && SpawnAt(line[col], col, row) == [RowSpawns(line, row)[i]]
    {
      var n := |line|;
      var front := RowSpawns(line[..n - 1], row);
      if i < |front| {
        RowSpawnsSound(line[..n - 1], row, i);
        var col :| 0 <= col < n - 1 && SpawnAt(line[..n - 1][col], col, row) == [front[i]];
        assert line[..n - 1][col] == line[col];
      } else {
        assert SpawnAt(line[n - 1], n - 1, row) == [RowSpawns(line, row)[i]];
      }
    }

    /** Every actor of a plan comes from a mapped symbol of the plan. */
    lemma {:induction false} PlanSpawnsSound(plan: seq<string>, i: int)
      requires 0 <= i < |PlanSpawns(plan)|
      ensures FromCell(plan, PlanSpawns(plan)[i])
    {
      var n := |plan|;
      var front := PlanSpawns(plan[..n - 1]);
      if i < |front| {
        PlanSpawnsSound(plan[..n - 1], i);
        var row, col :| 0 <= row < n - 1 && 0 <= col < |plan[..n - 1][row]| &&
          SpawnAt(plan[..n - 1][row][col], col, row) == [front[i]];
        assert plan[..n - 1][row] == plan[row];
      } else {
        RowSpawnsSound(plan[n - 1], n - 1, i - |front|);
      }
    }

    /** Every mapped symbol of a row gives an actor of that row. */
    lemma {:induction false} RowSpawnsComplete(line: string, row: int, col: int, cls: ActorClass)
      requires 0 <= col < |line| && ActorFromSymbol(line[col]) == Some(Class(cls))
      ensures Instantiate(cls, Vector(col as real, row as real)) in RowSpawns(line, row)
    {
      var n := |line|;
      if col < n - 1 {
        assert line[..n - 1][col] == line[col];
        RowSpawnsComplete(line[..n - 1], row, col, cls);
      }
    }

    /** Every mapped symbol of a plan gives an actor placed at its cell. */
    lemma {:induction false} PlanSpawnsComplete(plan: seq<string>, row: int, col: int, cls: ActorClass)
      requires 0 <= row < |plan| && 0 <= col < |plan[row]|
      requires ActorFromSymbol(plan[row][col]) == Some(Class(cls))
      ensures Instantiate(cls, Vector(col as real, row as real)) in PlanSpawns(plan)
    {
      var n := |plan|;
      if row < n - 1 {
        assert plan[..n - 1][row] == plan[row];
        PlanSpawnsComplete(plan[..n - 1], row, col, cls);
      } else {
        RowSpawnsComplete(plan[row], row, col, cls);
      }
    }

    /** LevelParser.createGrid. */
    method CreateGrid(plan: seq<string> := []) returns (grid: seq<seq<Cell>>)
      ensures IsGridOf(plan, grid)
    {
      grid := [];
      var y := 0;
      while y < |plan|
        invariant 0 <= y <= |plan|
        invariant |grid| == y
        invariant forall k :: 0 <= k < y ==>
          |grid[k]| == |plan[k]| &&
          forall x :: 0 <= x < |plan[k]| ==> grid[k][x] == ObstacleFromSymbol(plan[k][x])
      {
        var line := new Cell[|plan[y]|];
        var x := 0;
        while x < line.Length
          invariant 0 <= x <= line.Length
          invariant forall j :: 0 <= j < x ==> line[j] == ObstacleFromSymbol(plan[y][j])
        {
          line[x] := ObstacleFromSymbol(plan[y][x]);
          x := x + 1;
        }
        grid := grid + [line[..]];
        y := y + 1;
      }
    }

    /** One more symbol of a row adds what that symbol spawns. */
    lemma RowSpawnsStep(line: string, row: int, y: int)
      requires 0 <= y < |line|
      ensures RowSpawns(line[..y + 1], row) == RowSpawns(line[..y], row) + SpawnAt(line[y], y, row)
    {
      assert line[..y + 1][..y] == line[..y];
    }

    /** One more row of a plan adds that row's actors. */
    lemma PlanSpawnsStep(plan: seq<string>, x: int)
      requires 0 <= x < |plan|
      ensures PlanSpawns(plan[..x + 1]) == PlanSpawns(plan[..x]) + RowSpawns(plan[x], x)
    {
      assert plan[..x + 1][..x] == plan[..x];
    }

    /** The inner loop of LevelParser.createActors: the actors of row `x`,
        left to right. */
    method CreateRowActors(line: string, x: int) returns (actors: seq<Actor>)
      ensures States(actors) == RowSpawns(line, x)
      ensures forall k :: 0 <= k < |actors| ==> fresh(actors[k])
      ensures Distinct(actors)
    {
      actors := [];
      var y := 0;
      while y < |line|
        invariant 0 <= y <= |line|
        invariant States(actors) == RowSpawns(line[..y], x)
        invariant forall k :: 0 <= k < |actors| ==> fresh(actors[k])
        invariant Distinct(actors)
      {
        RowSpawnsStep(line, x, y);
        var entry := ActorFromSymbol(line[y]);
        if entry.Some? && entry.value.Class? {
          var actor := new Actor(Instantiate(entry.value.cls, Vector(y as real, x as real)));
          StatesAppend(actors, actor);
          DistinctAppend(actors, actor);
          actors := actors + [actor];
        }
        y := y + 1;
      }
      assert line[..y] == line;
    }

    /** LevelParser.createActors: one new actor per mapped symbol, row after
        row and left to right, placed at (column, row). */
    method CreateActors(plan: seq<string> := []) returns (actors: seq<Actor>)
      ensures States(actors) == PlanSpawns(plan)
      ensures forall k :: 0 <= k < |actors| ==> fresh(actors[k])
      ensures Distinct(actors)
    {
      actors := [];
      var x := 0;
      while x < |plan|
        invariant 0 <= x <= |plan|
        invariant States(actors) == PlanSpawns(plan[..x])
        invariant forall k :: 0 <= k < |actors| ==> fresh(actors[k])
        invariant Distinct(actors)
      {
        var row := CreateRowActors(plan[x], x);
        StatesConcat(actors, row);
        DistinctConcat(actors, row);
        PlanSpawnsStep(plan, x);
        actors := actors + row;
        x := x + 1;
      }
      assert plan[..x] == plan;
    }

    /** LevelParser.parse: a new level over the plan's grid and actors. */
    method Parse(plan: seq<string> := []) returns (level: Level)
      ensures fresh(level) && level.Valid()
      ensures IsGridOf(plan, level.grid)
      ensures States(level.actors) == PlanSpawns(plan)
      ensures forall k :: 0 <= k < |level.actors| ==> fresh(level.actors[k])
      ensures Distinct(level.actors)
      ensures level.status == None && level.finishDelay == 1.0
    {
      var grid := CreateGrid(plan);
      var actors := CreateActors(plan);
      level := new Level(grid, actors);
    }
  }

  /** Under the game's table, '@' spawns a player and 'x' spawns nothing.
      The cells come in as parameters pinned by `requires`: with literal
      arguments the verifier unfolds the recursive definitions without bound. */
  lemma GameSymbols(c0: int, c1: int, row: int)
    requires c0 == 0 && c1 == 1 && row == 0
    ensures LevelParser(ActorDict).SpawnAt('@', c0, row) == [NewPlayer(Vector(0.0, 0.0))]
    ensures LevelParser(ActorDict).SpawnAt('x', c1, row) == []
  {
    var p := LevelParser(ActorDict);
    assert p.ActorFromSymbol('@') == Some(Class(PlayerClass));
    assert Vector(c0 as real, row as real) == Vector(0.0, 0.0);
    assert 'x' !in ActorDict;
  }

  /** The plan ["@x"] under the game's table yields one player, at cell (0, 0) ...
      (the plan is a parameter pinned by `requires` for the same reason). */
  lemma ParseExampleActors(plan: seq<string>)
    requires plan == ["@x"]
    ensures LevelParser(ActorDict).PlanSpawns(plan) == [NewPlayer(Vector(0.0, 0.0))]
  {
    var p := LevelParser(ActorDict);
    var line := plan[0];
    assert plan[..0] == [] && line[..1][..0] == [];
    assert line[0] == '@' && line[1] == 'x';
    GameSymbols(0, 1, 0);
    assert p.RowSpawns(line[..1], 0) == p.SpawnAt(line[0], 0, 0);
  }

  /** ... and a grid whose second cell is a wall. */
  lemma ParseExampleGrid(grid: seq<seq<Cell>>)
    requires IsGridOf(["@x"], grid)
    ensures grid == [[None, Some(Wall)]]
  {
    assert |grid[0]| == 2;
    assert grid[0][0] == ObstacleFromSymbol('@');
    assert grid[0][1] == ObstacleFromSymbol('x');
    assert grid[0] == [None, Some(Wall)];
  }
}
