/** The level export behind the build button (script.js:219-317): the grid is
    scanned cell by cell and each marker class becomes an entry of the level
    description, at the cell's pixel position. */
module Export {
  import opened Wrappers
  import opened Cells

  datatype Point = Point(x: int, y: int)
  datatype Size = Size(width: int, height: int)
  datatype Platform = Platform(x: int, y: int, width: int, height: int)
  datatype OneWay = OneWay(x: int, y: int, width: int)
  /** A spike; `dir` is the rotation divided by 90, a JavaScript number. */
  datatype Spike = Spike(x: int, y: int, dir: real)
  datatype Range = Range(min: int, max: int)
  datatype Clouds = Clouds(y: Range, x: seq<int>)

  /** `levelData.level1`. */
  datatype Level = Level(
    world: Size, player: Point, target: Point,
    hills: seq<Point>, hillsFront: seq<Point>, clouds: Clouds,
    platforms: seq<Platform>, oneWayPlatforms: seq<OneWay>, enemies: seq<Point>,
    spikes: seq<Spike>, coins: seq<Point>, fallingBlocks: seq<Point>, spikyBalls: seq<Point>)

  /** Each cell is a 40-pixel square. */
  const CellSize: int := 40

  /** Where the player starts and the target sits when no cell says otherwise. */
  const DefaultPlayer: Point := Point(80, 320)
  const DefaultTarget: Point := Point(2860, 240)

  /** The fixed cloud layer of every exported level. */
  const CloudLayer: Clouds := Clouds(Range(60, 180), [-100, 400, 900, 1440, 1600, 2000])

  /** The top-left pixel of cell `i`: column `i % 30`, row `Math.floor(i / 30)`. */
  function Pos(i: nat): Point {
    Point((i % Columns) * CellSize, (i / Columns) * CellSize)
  }

  /** Inside the grid, positions are on the 40-pixel lattice within 0..1160. */
  lemma PosInGrid(i: nat)
    requires i < GridSize
    ensures 0 <= Pos(i).x <= 1160 && 0 <= Pos(i).y <= 1160
    ensures Pos(i).x % CellSize == 0 && Pos(i).y % CellSize == 0
  {
  }

  /** Different cells have different positions. */
  lemma PosInjective(i: nat, j: nat)
    requires Pos(i) == Pos(j)
    ensures i == j
  {
    assert i % Columns == j % Columns && i / Columns == j / Columns;
    assert i == Columns * (i / Columns) + i % Columns;
    assert j == Columns * (j / Columns) + j % Columns;
  }

  /** The classes that count towards the world size. */
  predicate Obstacle(c: Cell) {
    "solButton" in c.classes || "enemy" in c.classes || "spike" in c.classes || "playerSpawn" in c.classes
  }

  /** A spike entry is made for a spike cell that is not also a platform. */
  predicate SpikeCell(c: Cell) {
    "spike" in c.classes && "solButton" !in c.classes
  }

  /** A spawn cell moves the player only when it is neither a platform nor a spike. */
  predicate SpawnCell(c: Cell) {
    "playerSpawn" in c.classes && "solButton" !in c.classes && "spike" !in c.classes
  }

  predicate EndCell(c: Cell) {
    "end" in c.classes
  }

  /** `rotationState / 90`. */
  function Dir(c: Cell): real {
    (CurrentRotation(c) as real) / 90.0
  }

  function Max(a: int, b: int): int {
    if a >= b then a else b
  }

  /** The variables of the scan: `maxX`, `maxY`, `endX`, `endY` and the parts
      of `levelData.level1` that the `forEach` callback changes. */
  datatype Scan = Scan(
    maxX: int, maxY: int, endX: int, endY: int, player: Point,
    platforms: seq<Platform>, oneWays: seq<OneWay>, enemies: seq<Point>,
    spikes: seq<Spike>, coins: seq<Point>, falls: seq<Point>, balls: seq<Point>)

  const Start: Scan := Scan(0, 0, DefaultTarget.x, DefaultTarget.y, DefaultPlayer, [], [], [], [], [], [], [])

  /** The first part of the `forEach` callback for cell `c` at index `i`: the
      obstacle classes raise the maxima; then a platform, else a spike, else a
      spawn; then the end. */
  function Locate(a: Scan, i: nat, c: Cell): Scan {
    var p := Pos(i);
    a.(maxX := if Obstacle(c) then Max(a.maxX, p.x) else a.maxX,
       maxY := if Obstacle(c) then Max(a.maxY, p.y) else a.maxY,
       endX := if "end" in c.classes then p.x else a.endX,
       endY := if "end" in c.classes then p.y else a.endY,
       player := if SpawnCell(c) then p else a.player,
       platforms := a.platforms + (if "solButton" in c.classes then [Platform(p.x, p.y, CellSize, CellSize)] else []),
       spikes := a.spikes + (if SpikeCell(c) then [Spike(p.x, p.y, Dir(c))] else []))
  }

  /** The rest of the callback: each of the other markers pushes its own entry. */
  function Mark(a: Scan, i: nat, c: Cell): Scan {
    var p := Pos(i);
    a.(enemies := a.enemies + (if "enemy" in c.classes then [p] else []),
       falls := a.falls + (if "fall" in c.classes then [p] else []),
       balls := a.balls + (if "spikyBall" in c.classes then [p] else []),
       coins := a.coins + (if "coin" in c.classes then [p] else []),
       oneWays := a.oneWays + (if "oneway" in c.classes then [OneWay(p.x, p.y, CellSize)] else []))
  }

  /** The `forEach` callback for cell `c` at index `i`. */
  function Visit(a: Scan, i: nat, c: Cell): Scan {
    Mark(Locate(a, i, c), i, c)
  }

  /** The scan over the cells in grid order. */
  function ScanCells(cs: seq<Cell>): Scan {
    if cs == [] then Start else Visit(ScanCells(cs[..|cs| - 1]), |cs| - 1, cs[|cs| - 1])
  }

  predicate HasToken(cs: seq<Cell>, t: string) {
    exists j :: 0 <= j < |cs| && t in cs[j].classes
  }

  /** The level built from a finished scan. */
  function Finish(a: Scan): Level {
    Level(Size(a.maxX + CellSize, a.maxY + CellSize), a.player, Point(a.endX, a.endY), [], [], CloudLayer,
          a.platforms, a.oneWays, a.enemies, a.spikes, a.coins, a.falls, a.balls)
  }

  /** The build button: no level unless some cell is a player spawn and some
      cell an end; otherwise the level of the scan. */
  function ExportLevel(cs: seq<Cell>): (r: Option<Level>)
    ensures r.Some? <==> HasToken(cs, "playerSpawn") && HasToken(cs, "end")
  {
    if !HasToken(cs, "playerSpawn") || !HasToken(cs, "end") then None else Some(Finish(ScanCells(cs)))
  }

  /** The list of a scan that a point marker is pushed onto. */
  function PointList(a: Scan, t: string): seq<Point> {
    if t == "enemy" then a.enemies
    else if t == "fall" then a.falls
    else if t == "spikyBall" then a.balls
    else a.coins
  }

  predicate PointMarker(t: string) {
    t == "enemy" || t == "fall" || t == "spikyBall" || t == "coin"
  }

  /** Some cell among `cs` with the class `t` sits at `p`. */
  predicate MarkedAt(cs: seq<Cell>, t: string, p: Point) {
    exists j :: 0 <= j < |cs| && t in cs[j].classes && Pos(j) == p
  }

  /** A point is marked in `cs` when it is marked before the last cell or the
      last cell has the class and sits there. */
  lemma MarkedAtStep(cs: seq<Cell>, t: string, p: Point)
    requires cs != []
    ensures var n := |cs| - 1;
      MarkedAt(cs, t, p) <==> MarkedAt(cs[..n], t, p) || (t in cs[n].classes && Pos(n) == p)
  {
    var n := |cs| - 1;
    var init := cs[..n];
    if MarkedAt(init, t, p) {
      var j :| 0 <= j < |init| && t in init[j].classes && Pos(j) == p;
      assert init[j] == cs[j];
    }
    if MarkedAt(cs, t, p) {
      var j :| 0 <= j < |cs| && t in cs[j].classes && Pos(j) == p;
      if j < n {
        assert init[j] == cs[j];
      }
    }
  }

  /** Enemies, falling blocks, spiky balls and coins: the list holds the position
      of exactly the cells with that class, each pushed independently of the
      cell's other classes. */
  lemma {:induction false} PointListMembers(cs: seq<Cell>, t: string)
    requires PointMarker(t)
    ensures forall p :: p in PointList(ScanCells(cs), t) <==> MarkedAt(cs, t, p)
    decreases |cs|
  {
    if cs != [] {
      var n := |cs| - 1;
      PointListMembers(cs[..n], t);
      PointListStep(cs, t);
      forall p ensures p in PointList(ScanCells(cs), t) <==> MarkedAt(cs, t, p) {
        MarkedAtStep(cs, t, p);
      }
    }
  }

  /** The last cell pushes its position when it has the marker class. */
  lemma PointListStep(cs: seq<Cell>, t: string)
    requires PointMarker(t) && cs != []
    ensures PointList(ScanCells(cs), t) ==
      PointList(ScanCells(cs[..|cs| - 1]), t) + (if t in cs[|cs| - 1].classes then [Pos(|cs| - 1)] else [])
  {
  }

  /** Platforms: one 40 by 40 platform at each `solButton` cell. */
  lemma {:induction false} PlatformMembers(cs: seq<Cell>)
    ensures forall e :: e in ScanCells(cs).platforms <==>
      exists j :: 0 <= j < |cs| && "solButton" in cs[j].classes && e == Platform(Pos(j).x, Pos(j).y, CellSize, CellSize)
    decreases |cs|
  {
    if cs != [] {
      var n := |cs| - 1;
      var init := cs[..n];
      PlatformMembers(init);
      var q := Pos(n);
      assert ScanCells(cs).platforms == ScanCells(init).platforms +
        (if "solButton" in cs[n].classes then [Platform(q.x, q.y, CellSize, CellSize)] else []);
      forall e ensures e in ScanCells(cs).platforms <==>
        exists j :: 0 <= j < |cs| && "solButton" in cs[j].classes && e == Platform(Pos(j).x, Pos(j).y, CellSize, CellSize)
      {
        if e in ScanCells(init).platforms {
          var j :| 0 <= j < |init| && "solButton" in init[j].classes && e == Platform(Pos(j).x, Pos(j).y, CellSize, CellSize);
          assert init[j] == cs[j];
        }
        if exists j :: 0 <= j < |cs| && "solButton" in cs[j].classes && e == Platform(Pos(j).x, Pos(j).y, CellSize, CellSize) {
          var j :| 0 <= j < |cs| && "solButton" in cs[j].classes && e == Platform(Pos(j).x, Pos(j).y, CellSize, CellSize);
          if j < n {
            assert init[j] == cs[j];
          }
        }
      }
    }
  }

  /** One-way platforms: one of width 40 at each `oneway` cell. */
  lemma {:induction false} OneWayMembers(cs: seq<Cell>)
    ensures forall e :: e in ScanCells(cs).oneWays <==>
      exists j :: 0 <= j < |cs| && "oneway" in cs[j].classes && e == OneWay(Pos(j).x, Pos(j).y, CellSize)
    decreases |cs|
  {
    if cs != [] {
      var n := |cs| - 1;
      var init := cs[..n];
      OneWayMembers(init);
      var q := Pos(n);
      assert ScanCells(cs).oneWays == ScanCells(init).oneWays +
        (if "oneway" in cs[n].classes then [OneWay(q.x, q.y, CellSize)] else []);
      forall e ensures e in ScanCells(cs).oneWays <==>
        exists j :: 0 <= j < |cs| && "oneway" in cs[j].classes && e == OneWay(Pos(j).x, Pos(j).y, CellSize)
      {
        if e in ScanCells(init).oneWays {
          var j :| 0 <= j < |init| && "oneway" in init[j].classes && e == OneWay(Pos(j).x, Pos(j).y, CellSize);
          assert init[j] == cs[j];
        }
        if exists j :: 0 <= j < |cs| && "oneway" in cs[j].classes && e == OneWay(Pos(j).x, Pos(j).y, CellSize) {
          var j :| 0 <= j < |cs| && "oneway" in cs[j].classes && e == OneWay(Pos(j).x, Pos(j).y, CellSize);
          if j < n {
            assert init[j] == cs[j];
          }
        }
      }
    }
  }

  /** Spikes: one at each spike cell that is not a platform, facing its quarter turns. */
  lemma {:induction false} SpikeMembers(cs: seq<Cell>)
    ensures forall e :: e in ScanCells(cs).spikes <==>
      exists j :: 0 <= j < |cs| && SpikeCell(cs[j]) && e == Spike(Pos(j).x, Pos(j).y, Dir(cs[j]))
    decreases |cs|
  {
    if cs != [] {
      var n := |cs| - 1;
      var init := cs[..n];
      SpikeMembers(init);
      var q := Pos(n);
      assert ScanCells(cs).spikes == ScanCells(init).spikes +
        (if SpikeCell(cs[n]) then [Spike(q.x, q.y, Dir(cs[n]))] else []);
      forall e ensures e in ScanCells(cs).spikes <==>
        exists j :: 0 <= j < |cs| && SpikeCell(cs[j]) && e == Spike(Pos(j).x, Pos(j).y, Dir(cs[j]))
      {
        if e in ScanCells(init).spikes {
          var j :| 0 <= j < |init| && SpikeCell(init[j]) && e == Spike(Pos(j).x, Pos(j).y, Dir(init[j]));
          assert init[j] == cs[j];
        }
        if exists j :: 0 <= j < |cs| && SpikeCell(cs[j]) && e == Spike(Pos(j).x, Pos(j).y, Dir(cs[j])) {
          var j :| 0 <= j < |cs| && SpikeCell(cs[j]) && e == Spike(Pos(j).x, Pos(j).y, Dir(cs[j]));
          if j < n {
            assert init[j] == cs[j];
          }
        }
      }
    }
  }

  /** The index of the last cell that satisfies `f`, if any. */
  function LastWhere(cs: seq<Cell>, f: Cell -> bool): (r: Option<nat>)
    ensures r.Some? ==> r.value < |cs| && f(cs[r.value]) && forall k :: r.value < k < |cs| ==> !f(cs[k])
    ensures r.None? ==> forall k :: 0 <= k < |cs| ==> !f(cs[k])
  {
    if cs == [] then None
    else if f(cs[|cs| - 1]) then Some(|cs| - 1)
    else
      var r := LastWhere(cs[..|cs| - 1], f);
      assert forall k :: 0 <= k < |cs| - 1 ==> cs[..|cs| - 1][k] == cs[k];
      r
  }

  function PositionOr(i: Option<nat>, default: Point): Point {
    match i
    case None => default
    case Some(j) => Pos(j)
  }

  /** The player starts at the last spawn cell that is neither a platform nor a
      spike, or at the default position when there is none. */
  lemma {:induction false} PlayerIsLastSpawn(cs: seq<Cell>)
    ensures ScanCells(cs).player == PositionOr(LastWhere(cs, SpawnCell), DefaultPlayer)
    decreases |cs|
  {
    if cs != [] {
      PlayerIsLastSpawn(cs[..|cs| - 1]);
    }
  }

  /** The target is the last `end` cell, or the default when there is none. */
  lemma {:induction false} TargetIsLastEnd(cs: seq<Cell>)
    ensures Point(ScanCells(cs).endX, ScanCells(cs).endY) == PositionOr(LastWhere(cs, EndCell), DefaultTarget)
    decreases |cs|
  {
    if cs != [] {
      TargetIsLastEnd(cs[..|cs| - 1]);
    }
  }

  /** `maxX` and `maxY` are the largest coordinates of the obstacle cells (0 when
      there are none), so the world reaches 40 pixels past each of them. */
  lemma {:induction false} WorldCoversObstacles(cs: seq<Cell>)
    ensures var a := ScanCells(cs);
      a.maxX >= 0 && a.maxY >= 0
      && (forall j :: 0 <= j < |cs| && Obstacle(cs[j]) ==> Pos(j).x <= a.maxX && Pos(j).y <= a.maxY)
      && (a.maxX == 0 || exists j :: 0 <= j < |cs| && Obstacle(cs[j]) && Pos(j).x == a.maxX)
      && (a.maxY == 0 || exists j :: 0 <= j < |cs| && Obstacle(cs[j]) && Pos(j).y == a.maxY)
    decreases |cs|
  {
    if cs != [] {
      var n := |cs| - 1;
      var init := cs[..n];
      WorldCoversObstacles(init);
      var a := ScanCells(cs);
      var b := ScanCells(init);
      MaxStep(cs);
      forall j | 0 <= j < n ensures init[j] == cs[j] {
      }
      if a.maxX != 0 && a.maxX != Pos(n).x {
        var j :| 0 <= j < |init| && Obstacle(init[j]) && Pos(j).x == b.maxX;
        assert Obstacle(cs[j]) && Pos(j).x == a.maxX;
      }
      if a.maxY != 0 && a.maxY != Pos(n).y {
        var j :| 0 <= j < |init| && Obstacle(init[j]) && Pos(j).y == b.maxY;
        assert Obstacle(cs[j]) && Pos(j).y == a.maxY;
      }
    }
  }

  /** The last cell raises `maxX` and `maxY` when it is an obstacle. */
  lemma MaxStep(cs: seq<Cell>)
    requires cs != []
    ensures var n := |cs| - 1;
      var a := ScanCells(cs);
      var b := ScanCells(cs[..n]);
      a.maxX == (if Obstacle(cs[n]) then Max(b.maxX, Pos(n).x) else b.maxX)
      && a.maxY == (if Obstacle(cs[n]) then Max(b.maxY, Pos(n).y) else b.maxY)
  {
  }

  /** The build button's handler, step by step: the gate, then the `forEach`
      over the cells, then the world size and the target. */
  method Build(cells: array<Cell>) returns (level: Option<Level>)
    ensures level == ExportLevel(cells[..])
  {
    var hasPlayerSpawn := exists j :: 0 <= j < cells.Length && "playerSpawn" in cells[j].classes;
    var hasEnd := exists j :: 0 <= j < cells.Length && "end" in cells[j].classes;
    assert hasPlayerSpawn == HasToken(cells[..], "playerSpawn") by {
      if hasPlayerSpawn {
        var j :| 0 <= j < cells.Length && "playerSpawn" in cells[j].classes;
        assert cells[..][j] == cells[j];
      }
    }
    assert hasEnd == HasToken(cells[..], "end") by {
      if hasEnd {
        var j :| 0 <= j < cells.Length && "end" in cells[j].classes;
        assert cells[..][j] == cells[j];
      }
    }
    if !hasPlayerSpawn || !hasEnd {
      return None;
    }
    var a := Start;
    for index := 0 to cells.Length
      invariant a == ScanCells(cells[..index])
    {
      assert cells[..index + 1][..index] == cells[..index];
      a := VisitCell(a, index, cells[index]);
    }
    assert cells[..cells.Length] == cells[..];
    level := Some(Level(Size(a.maxX + CellSize, a.maxY + CellSize), a.player, Point(a.endX, a.endY), [], [],
                        CloudLayer, a.platforms, a.oneWays, a.enemies, a.spikes, a.coins, a.falls, a.balls));
  }

  /** The `forEach` callback, one `if` at a time. */
  method VisitCell(a: Scan, index: nat, cell: Cell) returns (r: Scan)
    ensures r == Visit(a, index, cell)
  {
    r := LocateCell(a, index, cell);
    r := MarkCell(r, index, cell);
  }

  method LocateCell(a: Scan, index: nat, cell: Cell) returns (r: Scan)
    ensures r == Locate(a, index, cell)
  {
    var x := (index % Columns) * CellSize;
    var y := (index / Columns) * CellSize;
    r := a;
    if "solButton" in cell.classes || "enemy" in cell.classes || "spike" in cell.classes || "playerSpawn" in cell.classes {
      r := r.(maxX := Max(r.maxX, x), maxY := Max(r.maxY, y));
    }
    if "solButton" in cell.classes {
      r := r.(platforms := r.platforms + [Platform(x, y, CellSize, CellSize)]);
    } else if "spike" in cell.classes {
      var rotationState := CurrentRotation(cell);
      r := r.(spikes := r.spikes + [Spike(x, y, (rotationState as real) / 90.0)]);
    } else if "playerSpawn" in cell.classes {
      r := r.(player := Point(x, y));
    }
    if "end" in cell.classes {
      r := r.(endX := x, endY := y);
    }
  }

  method MarkCell(a: Scan, index: nat, cell: Cell) returns (r: Scan)
    ensures r == Mark(a, index, cell)
  {
    var x := (index % Columns) * CellSize;
    var y := (index / Columns) * CellSize;
    r := a;
    if "enemy" in cell.classes {
      r := r.(enemies := r.enemies + [Point(x, y)]);
    }
    if "fall" in cell.classes {
      r := r.(falls := r.falls + [Point(x, y)]);
    }
    if "spikyBall" in cell.classes {
      r := r.(balls := r.balls + [Point(x, y)]);
    }
    if "coin" in cell.classes {
      r := r.(coins := r.coins + [Point(x, y)]);
    }
    if "oneway" in cell.classes {
      r := r.(oneWays := r.oneWays + [OneWay(x, y, CellSize)]);
    }
  }
}
