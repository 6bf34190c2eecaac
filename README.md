# Platformer simulation core in Dafny

A model of the simulation engine of a small tile-based platformer
(`game.js`). It covers:

- the vector arithmetic;
- the actors' axis-aligned boxes and their intersection test;
- the level: an obstacle grid, an ordered actor list, a win/lose status and
  a finish delay, with its spatial queries and the player-contact rule;
- the fireball movement rule with its bouncing and falling variants;
- the spawn geometry of players and coins;
- the parser that turns a plan (a list of row strings) into a grid and a
  list of new actors.

Files:

- `geometry.dfy` (module `Geometry`): `Vector`, `Plus`, `Times`, and `Floor`/`Ceil` on exact reals.
- `game.dfy` (module `Game`):
  - the closed family of actor kinds;
  - the state each actor class's constructor produces (`NewPlayer`, `NewCoin`, `NewFireball`, …);
  - the `Actor` class, which gives actors identity and holds the fireball step;
  - the `Level` class.
- `parser.dfy` (module `Parser`): the symbol table as a closed datatype, and
  `LevelParser` with `CreateGrid`, `CreateActors` and `Parse`.

Modelling choices:

- Coordinates are exact `real`s. `Math.floor` is `.Floor` and `Math.ceil` is `-((-r).Floor)`.
- Actors are objects of one class `Actor`, because `isIntersect` and
  `removeActor` compare with `===`. Their `kind` is a closed datatype.
  Fireball variants differ only in their initial speed and in `Response`:
  `Bounce` reverses the velocity, `ResetTo(spawn)` is FireRain's jump back
  to where it was created.
- Apart from Coin's `spring`, which is left out, the JavaScript constructors
  are pure arithmetic on their arguments. Each one becomes a function
  returning the new `ActorState`, with the source's default arguments.
  `new Actor(state)` then allocates it.
- Grid cells are `Option<Obstacle>` with `Obstacle = Wall | Lava`. This is
  what the parser produces.
- `Level.grid`, `width` and `height` are never reassigned after
  construction, so they are `const`. `actors`, `status` and `finishDelay`
  are mutable fields.
- The width loop of the Level constructor is the method `RowsWidth`, which
  the constructor calls.
- The row loop of `createActors` is the method `CreateRowActors`, which
  `CreateActors` calls once per row.

Source quirks the model keeps:

- `playerTouched` never looks at the current status (game.js:133-145). A
  won level can become lost, and a lost level can become won.
- A Coin's `spring` lies in (0, 2π] (game.js:267-269). It is left out in any case.

## Model

| member | source | states |
|---|---|---|
| Geometry.Plus | game.js:8-15 | the sum has components a.x+b.x and a.y+b.y; vectors are values, so the operands are unchanged |
| Geometry.Times | game.js:16-18 | the scaled vector has components a.x*n and a.y*n |
| Geometry.ReverseTwice | game.js:215-217 | reversing a velocity (times -1) twice gives it back |
| Geometry.Floor | game.js:107-109 | Math.floor: the integer f with f <= r < f+1 |
| Geometry.Ceil | game.js:108-110 | Math.ceil: the integer c with r <= c < r+1 |
| Game.TypeName | game.js:36-38 | the `type` getters (also game.js:209-211, 250-252, 271-273, 297-299): "actor", "player" and "coin" each name exactly one class, and "fireball" names exactly the four fireball classes |
| Game.ActorState.Left | game.js:39-41 | the left edge is the position's x |
| Game.ActorState.Right | game.js:42-44 | the right edge lies one width (size.x) past the left edge |
| Game.ActorState.Top | game.js:45-47 | the top edge is the position's y |
| Game.ActorState.Bottom | game.js:48-50 | the bottom edge lies one height (size.y) below the top edge |
| Game.PositiveBoxEdges | game.js:39-50 | a box of positive size has left < right and top < bottom, holds its position and none of the points of its right or bottom edge |
| Game.OverlapIffSharedPoint | game.js:53-71 | for boxes of positive size, the strict overlap test holds exactly when the half-open boxes share a point |
| Game.NewActor | game.js:22-35 | Actor constructor: the given position, size and speed (defaults (0,0), (1,1), (0,0)) and type "actor" |
| Game.NewPlayer | game.js:290-296 | Player (cell (0,0) by default): size (0.8,1.5), zero speed, left edge on the cell's left edge, bottom edge on the cell's floor (top at cell.y-0.5) |
| Game.NewCoin | game.js:258-263 | Coin (cell (0,0) by default): size (0.6,0.6), position cell+(0.2,0.1), box strictly inside its cell |
| Game.NewFireball | game.js:203-208 | despite the swapped arguments handed to the Actor constructor, the result has position, speed and size in their declared roles, size (1,1) by default, and bounces |
| Game.NewHorizontalFireball | game.js:230-234 | position (0,0) by default, speed (2,0), size (1,1), bounces |
| Game.NewVerticalFireball | game.js:236-240 | position (0,0) by default, speed (0,2), size (1,1), bounces |
| Game.NewFireRain | game.js:242-249 | speed (0,3) by default, size (1,1), and returns to its creation position on an obstacle |
| Game.Actor.constructor | game.js:21-35 | a new actor object whose fields are the given state |
| Game.Actor.IsIntersect | game.js:53-71 | false for the actor itself; for another actor, true exactly when the boxes overlap strictly on both axes (touching edges do not count) |
| Game.IntersectSymmetric | game.js:53-71 | for two distinct actors, a intersects b exactly when b intersects a |
| Game.Actor.NextPosition | game.js:212-214 | the position after `time` (1 by default) at the current speed, component by component; with no time or no speed it is the current position |
| Game.NextPositionAdditive | game.js:212-214 | moving for t1 and then for t2 at the same speed is moving for t1+t2 |
| Game.Actor.HandleObstacle | game.js:215-255 | bouncing fireballs keep their position and reverse their speed; FireRain goes back to its creation position and keeps its speed |
| Game.Actor.Act | game.js:212-227 | with nothing at pos+speed*time (time 1 by default) the fireball moves there and keeps its speed; otherwise it does not move to pos+speed*time but reacts as HandleObstacle says: a bounce keeps the position, FireRain returns to its creation position |
| Game.Without | game.js:127-129 | the filtered list holds every actor other than `a` as often as before and `a` not at all |
| Game.WithoutAppend | game.js:127-129 | removal distributes over concatenation, so the remaining actors keep their order |
| Game.WithoutAbsent | game.js:127-129 | removing an actor that is not in the list leaves the list unchanged |
| Game.WithoutIdempotent | game.js:127-129 | removing the same actor twice is the same as removing it once |
| Game.WidthUnique | game.js:83-93 | the width condition (every row fits, and the width is 0 or some row's length) determines one width |
| Game.RowsWidth | game.js:83-92 | the loop yields the maximum row length, 0 when there are no rows |
| Game.StatesAt | game.js:177-192 | the state list used to describe created actors holds, at each index, the state of the actor at that index |
| Game.Level.constructor | game.js:76-94 | keeps grid and actors (both empty by default), sets width to the maximum row length and height to the row count, status null, finishDelay 1 |
| Game.Level.Player | game.js:95-97 | the first actor of type "player" in list order, or none when there is none |
| Game.Level.IsFinished | game.js:98-100 | false while the status is null, false while finishDelay >= 0, true once both a status is set and finishDelay < 0 |
| Game.Level.ActorAt | game.js:101-105 | the first actor in list order that the given actor intersects, never the actor itself; none exactly when it intersects none |
| Game.Level.FreeInsideGrid | game.js:106-117 | a box with nothing in its way lies within the grid's borders |
| Game.Level.ObstacleAt | game.js:106-126 | "wall" past the left, right or top border; otherwise "lava" below the bottom; otherwise the first non-empty covered cell in row-by-row, left-to-right order; none exactly when the box is free |
| Game.Level.RemoveActor | game.js:127-129 | the list afterwards is the old list without any entry identical to the actor |
| Game.Level.NoMoreActors | game.js:130-132 | true exactly when no actor in the list has the given type |
| Game.Level.PlayerTouched | game.js:133-145 | "lava"/"fireball": status and result become lost whatever the status was; "coin": that actor is removed, and status and result become won exactly when no coin is left; any other type changes nothing |
| Parser.Instantiate | game.js:182-186 | `new classA(new Vector(y, x))`: every instance has positive size; its kind is exactly the one of its class; a player sits half a cell up, a coin at cell+(0.2,0.1), every other actor at the cell; FireRain remembers the cell |
| Parser.ActorDictSymbols | game.js:305-311 | the game's table `ActorDict` maps exactly '@', 'o', '=', '\|', 'v', none of them an obstacle symbol, to classes of type "player", "coin" and "fireball" |
| Parser.ObstacleFromSymbol | game.js:155-164 | 'x' is exactly a wall, '!' is exactly lava, every other symbol is empty |
| Parser.LevelParser.ActorFromSymbol | game.js:152-154 | the table's entry for the symbol, none exactly when the symbol is not in the table |
| Parser.LevelParser.CreateGrid | game.js:165-176 | for the plan (empty by default): as many rows as the plan, each as long as its plan row, each cell the obstacle of its symbol |
| Parser.LevelParser.RowSpawnsSound | game.js:180-189 | every actor a row produces is the instance of a mapped symbol of that row |
| Parser.LevelParser.PlanSpawnsSound | game.js:177-192 | every actor a plan produces is the instance of a mapped symbol at some cell, placed at (column, row) |
| Parser.LevelParser.RowSpawnsComplete | game.js:180-189 | every symbol of a row mapped to an actor class yields its instance |
| Parser.LevelParser.PlanSpawnsComplete | game.js:177-192 | every symbol of the plan mapped to an actor class yields its instance at (column, row) |
| Parser.LevelParser.CreateRowActors | game.js:181-189 | the new actors of one row are the row's spawns, left to right; all are fresh and distinct |
| Parser.LevelParser.CreateActors | game.js:177-192 | for the plan (empty by default): the new actors are the plan's spawns, row after row and left to right; all are fresh and distinct |
| Parser.LevelParser.Parse | game.js:193-197 | for the plan (empty by default): a new valid level over the plan's grid and actors, status null, finishDelay 1 |
| Parser.GameSymbols | game.js:305-311 | under the game's table '@' at cell (0,0) spawns a player and 'x' spawns no actor |
| Parser.ParseExampleActors | game.js:193-197 | the plan ["@x"] yields exactly one actor, a player at cell (0,0) |
| Parser.ParseExampleGrid | game.js:165-176 | the plan ["@x"] yields the grid [[empty, wall]] |

## Left out

- The bootstrap at game.js:305-318 (loading levels, `JSON.parse`, `runGame`, the DOM display, `alert`) is I/O and game-loop orchestration over code that is not part of this model. Only its symbol table is kept, as `ActorDict`.
- Coin animation (`spring`, `springSpeed`, `springDist`, `updateSpring`, `getSpringVector`, `getNextPosition`, `act`, game.js:264-287) is left out. It starts from `Math.random()` and moves with `Math.sin`. Only the Coin constructor's offset and size are modelled.
- The base `Actor.act` (game.js:51-52) does nothing and is not modelled. Players have no movement of their own in this core.
- Runtime type guards (`instanceof` and `typeof` checks and the `Error`s they throw, game.js:11-14, 28-30, 54-57) are discharged by Dafny's static types. The one behaviour kept is that a table entry which is not an actor class is skipped (`Entry.NotAnActorClass`). The stored `err` field (game.js:24) is not modelled.
- JavaScript-only failure modes, such as `actorAt()` called without an argument, are not modelled. Neither is IEEE-754 rounding of values like 0.2 and 0.8: coordinates are exact reals.
- Plan rows are Dafny strings, indexed by Unicode scalar value. The source splits and indexes them by UTF-16 code unit (game.js:169, 181-182), so a row holding a character outside the Basic Multilingual Plane is one column shorter in the model than in the source, and the actors after that character sit one column further left.
- `LevelParser.actorFromSymbol` and `obstacleFromSymbol` called with no argument (symbol `undefined`) are not modelled: symbols are characters.
- Grid labels other than "wall" and "lava" (a hand-built grid of arbitrary strings) are not modelled. Cells are `Option<Obstacle>`.
