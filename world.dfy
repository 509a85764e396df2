/**
 * The world (`world.rs`): its animals and foods, and the generator of well-spread random
 * points that places them. The generator keeps a queue that hands out its items in random
 * order and a grid that buckets the accepted points by cell.
 */
module Worlds {
  import opened Wrappers
  import opened RandomSource
  import opened Numbers
  import opened Geometry
  import NN = NeuralNetworks
  import Eyes
  import Foods
  import Animals

  /** `std::f32::consts::SQRT_2`, as the f32 constant rounds it. */
  const Sqrt2: real := 1.4142135

  // ---------------------------------------------------------------------------
  // Random queue

  /** `Vec::insert`: the item lands at the index, everything from there moves up one. */
  function Insert<T>(items: seq<T>, index: nat, item: T): (r: seq<T>)
    requires index <= |items|
    ensures |r| == |items| + 1
    ensures multiset(r) == multiset(items) + multiset{item}
  {
    assert items == items[..index] + items[index..];
    items[..index] + [item] + items[index..]
  }

  /** `Vec::remove`: the item at the index goes, everything after it moves down one. */
  function Remove<T>(items: seq<T>, index: nat): (r: seq<T>)
    requires index < |items|
    ensures |r| == |items| - 1
    ensures multiset(r) + multiset{items[index]} == multiset(items)
  {
    assert items == items[..index] + [items[index]] + items[index + 1..];
    items[..index] + items[index + 1..]
  }

  /** Removing what was just inserted gives the sequence back, and the other way round. */
  lemma InsertRemoveInverse<T>(items: seq<T>, index: nat, item: T)
    requires index <= |items|
    ensures Remove(Insert(items, index, item), index) == items
    ensures index < |items| ==> Insert(Remove(items, index), index, items[index]) == items
  {
    var inserted := Insert(items, index, item);
    assert inserted[..index] == items[..index];
    assert inserted[index + 1..] == items[index..];
    if index < |items| {
      assert items == items[..index] + [items[index]] + items[index + 1..];
    }
  }

  /** `RandomQueue`: a vector into which `push` inserts and from which `pop` removes at a random index. */
  class RandomQueue<T> {
    var items: seq<T>

    /** `RandomQueue::new`. */
    constructor ()
      ensures items == []
    {
      items := [];
    }

    /** `RandomQueue::push`: inserts at an index drawn from [0, len]. */
    method Push(item: T, rng: Rng) returns (next: Rng)
      modifies this
      ensures var (index, after) := GenIndex(rng, |old(items)| + 1);
        items == Insert(old(items), index, item) && next == after
    {
      var (index, after) := GenIndex(rng, |items| + 1);
      items := Insert(items, index, item);
      next := after;
    }

    /**
     * `RandomQueue::pop`: `None`, with no draw and no change, on an empty queue; otherwise
     * the item at an index drawn from [0, len), which leaves the queue.
     */
    method Pop(rng: Rng) returns (r: Option<T>, next: Rng)
      modifies this
      ensures old(items) == [] ==> r == None && items == old(items) && next == rng
      ensures old(items) != [] ==> var (index, after) := GenIndex(rng, |old(items)|);
        r == Some(old(items)[index]) && items == Remove(old(items), index) && next == after
    {
      if items == [] {
        r, next := None, rng;
      } else {
        var (index, after) := GenIndex(rng, |items|);
        r := Some(items[index]);
        items := Remove(items, index);
        next := after;
      }
    }
  }

  // ---------------------------------------------------------------------------
  // Grid

  /** The number of cells of a grid: `ceil(width / cell_size) * ceil(height / cell_size)`. */
  function CellCount(width: real, height: real, cellSize: real): (r: nat)
    requires cellSize > 0.0
    ensures r == 0 <==> width <= 0.0 || height <= 0.0
  {
    var columns, rows := CeilNat(width / cellSize), CeilNat(height / cellSize);
    assert columns == 0 <==> width <= 0.0 by {
      assert width <= 0.0 <==> width / cellSize <= 0.0;
    }
    assert rows == 0 <==> height <= 0.0 by {
      assert height <= 0.0 <==> height / cellSize <= 0.0;
    }
    columns * rows
  }

  /** The cell of a point, row-major with `ceil(width / cell_size)` columns. */
  function CellIndex(p: Point, width: real, cellSize: real): (r: nat)
    requires cellSize > 0.0
    ensures 0.0 <= p.x < width ==>
      var columns := CeilNat(width / cellSize);
      columns > 0 && r % columns == FloorNat(p.x / cellSize) && r / columns == FloorNat(p.y / cellSize)
  {
    var columns := CeilNat(width / cellSize);
    var gx, gy := FloorNat(p.x / cellSize), FloorNat(p.y / cellSize);
    if 0.0 <= p.x < width then
      QuotientBelow(p.x, width, cellSize);
      RowMajor(gx, gy, columns);
      gx + gy * columns
    else gx + gy * columns
  }

  /** Row-major numbering: the column and the row come back as remainder and quotient. */
  lemma RowMajor(x: nat, y: nat, columns: nat)
    requires x < columns
    ensures (x + y * columns) % columns == x && (x + y * columns) / columns == y
  {
    var n := x + y * columns;
    var q, m := n / columns, n % columns;
    assert n == q * columns + m && 0 <= m < columns;
    assert (y + 1) * columns == y * columns + columns;
    assert (q + 1) * columns == q * columns + columns;
    FactorBelow(q, y + 1, columns);
    FactorBelow(y, q + 1, columns);
  }

  lemma FactorBelow(a: int, b: int, c: nat)
    requires a * c < b * c
    ensures a < b
  {
  }

  /** A point inside the grid's area has its cell inside the grid, so `add` never panics for it. */
  lemma CellIndexInRange(p: Point, width: real, height: real, cellSize: real)
    requires cellSize > 0.0 && InBox(p, width, height)
    ensures CellIndex(p, width, cellSize) < CellCount(width, height, cellSize)
  {
    var columns, rows := CeilNat(width / cellSize), CeilNat(height / cellSize);
    var gx, gy := FloorNat(p.x / cellSize), FloorNat(p.y / cellSize);
    QuotientBelow(p.x, width, cellSize);
    QuotientBelow(p.y, height, cellSize);
    assert gx < columns && gy < rows;
    MulBelow(gx, gy, columns, rows);
  }

  lemma QuotientBelow(v: real, bound: real, d: real)
    requires d > 0.0 && 0.0 <= v < bound
    ensures FloorNat(v / d) < CeilNat(bound / d)
  {
    assert v / d < bound / d;
  }

  lemma MulBelow(x: nat, y: nat, columns: nat, rows: nat)
    requires x < columns && y < rows
    ensures x + y * columns < columns * rows
  {
    assert (y + 1) * columns <= rows * columns;
  }

  /** `Grid`: point indices bucketed by the cell of their point. */
  class Grid {
    var cells: seq<seq<nat>>
    const cellSize: real
    const width: real
    const height: real

    /** `Grid::new`: `ceil(width / cell_size) * ceil(height / cell_size)` empty cells. */
    constructor (width: real, height: real, cellSize: real)
      requires cellSize > 0.0
      ensures this.width == width && this.height == height && this.cellSize == cellSize
      ensures |cells| == CellCount(width, height, cellSize)
      ensures forall k :: 0 <= k < |cells| ==> cells[k] == []
      ensures forall points :: Indexes(points)
    {
      this.width := width;
      this.height := height;
      this.cellSize := cellSize;
      cells := seq(CellCount(width, height, cellSize), _ => []);
    }

    /** Every index stored in a cell is the index of a point lying in that cell. */
    predicate Indexes(points: seq<Point>)
      reads this
    {
      && cellSize > 0.0
      && forall k, j :: 0 <= k < |cells| && 0 <= j < |cells[k]| ==>
        cells[k][j] < |points| && CellIndex(points[cells[k][j]], width, cellSize) == k
    }

    /**
     * `Grid::get`: a copy of the cell of the point; while the grid indexes a list of points,
     * those are indices of points in the same cell.
     */
    function Get(p: Point): (r: seq<nat>)
      reads this
      requires cellSize > 0.0 && CellIndex(p, width, cellSize) < |cells|
      ensures forall points :: Indexes(points) ==> forall j :: 0 <= j < |r| ==>
        r[j] < |points| && CellIndex(points[r[j]], width, cellSize) == CellIndex(p, width, cellSize)
    {
      cells[CellIndex(p, width, cellSize)]
    }

    /**
     * `Grid::add`: appends the index to the cell of the point, so that `get` at that point
     * now includes it; every other cell stays as it was.
     */
    method Add(p: Point, index: nat)
      requires cellSize > 0.0 && CellIndex(p, width, cellSize) < |cells|
      modifies this
      ensures |cells| == |old(cells)|
      ensures Get(p) == old(Get(p)) + [index]
      ensures forall k :: 0 <= k < |cells| && k != CellIndex(p, width, cellSize) ==> cells[k] == old(cells[k])
      ensures forall points :: old(Indexes(points)) && index < |points| && points[index] == p ==> Indexes(points)
    {
      var k := CellIndex(p, width, cellSize);
      cells := cells[k := cells[k] + [index]];
    }
  }

  // ---------------------------------------------------------------------------
  // Point generation

  /** Every two points are farther apart than `dist`. */
  predicate Separated(points: seq<Point>, dist: real)
  {
    forall i, j :: 0 <= i < j < |points| ==> SqDist(points[i], points[j]) > dist * dist
  }

  /** A candidate farther than `dist` from every point so far. */
  predicate FarFrom(points: seq<Point>, candidate: Point, dist: real)
  {
    forall k :: 0 <= k < |points| ==> SqDist(points[k], candidate) > dist * dist
  }

  predicate AllInBox(points: seq<Point>, width: real, height: real)
  {
    forall k :: 0 <= k < |points| ==> InBox(points[k], width, height)
  }

  /** Keeping a candidate that is far from every point keeps the points separated and in the area. */
  lemma AppendSeparated(points: seq<Point>, candidate: Point, dist: real, width: real, height: real)
    requires Separated(points, dist) && FarFrom(points, candidate, dist)
    requires AllInBox(points, width, height) && InBox(candidate, width, height)
    ensures Separated(points + [candidate], dist)
    ensures AllInBox(points + [candidate], width, height)
  {
    var extended := points + [candidate];
    forall i, j | 0 <= i < j < |extended|
      ensures SqDist(extended[i], extended[j]) > dist * dist
    {
      if j == |points| {
        assert extended[i] == points[i] && extended[j] == candidate;
      } else {
        assert extended[i] == points[i] && extended[j] == points[j];
      }
    }
  }

  /** `Point2::new(rng.gen_range(0.0..width), rng.gen_range(0.0..height))`: x is drawn first. */
  function RandomPointIn(rng: Rng, width: real, height: real): (r: (Point, Rng))
    requires width > 0.0 && height > 0.0
    ensures InBox(r.0, width, height)
  {
    var (x, mid) := GenRange(rng, 0.0, width);
    var (y, next) := GenRange(mid, 0.0, height);
    (Point(x, y), next)
  }

  /** The squared distance from a candidate to its nearest point, `None` (infinity) when there is none. */
  method NearestSqDist(points: seq<Point>, candidate: Point) returns (minSq: Option<real>)
    ensures minSq.None? <==> |points| == 0
    ensures minSq.Some? ==> forall k :: 0 <= k < |points| ==> SqDist(points[k], candidate) >= minSq.value
    ensures minSq.Some? ==> exists k :: 0 <= k < |points| && SqDist(points[k], candidate) == minSq.value
  {
    minSq := None;
    for j := 0 to |points|
      invariant minSq.None? <==> j == 0
      invariant minSq.Some? ==> forall k :: 0 <= k < j ==> SqDist(points[k], candidate) >= minSq.value
      invariant minSq.Some? ==> exists k :: 0 <= k < j && SqDist(points[k], candidate) == minSq.value
    {
      var d := SqDist(points[j], candidate);
      if minSq.None? || d < minSq.value {
        minSq := Some(d);
      }
    }
  }

  class World {
    var animals: seq<Animals.Animal>
    var foods: seq<Foods.Food>

    /** `World::new`: an empty world. */
    constructor ()
      ensures animals == [] && foods == []
    {
      animals := [];
      foods := [];
    }

    /**
     * `World::generate_poison`: the first random point is always taken, then random
     * candidates are drawn and kept when they are farther than `dist` from every point
     * kept so far, until there are `new_points_count`. A queue point is popped on every
     * round and never used. The source loops until it has enough points; `attempts`
     * bounds the rounds here, and `done` says the count was reached.
     */
    method GeneratePoison(rng: Rng, width: real, height: real, count: nat, dist: real, attempts: nat)
      returns (points: seq<Point>, next: Rng, done: bool)
      requires width > 0.0 && height > 0.0 && dist > 0.0
      ensures 1 <= |points| && (|points| <= count || |points| == 1)
      ensures done <==> |points| >= count
      ensures Separated(points, dist)
      ensures AllInBox(points, width, height)
    {
      var cellSize := dist / Sqrt2;
      var grid := new Grid(width, height, cellSize);
      var queue := new RandomQueue<Point>();

      var (first, afterFirst) := RandomPointIn(rng, width, height);
      next := queue.Push(first, afterFirst);
      points := [first];
      CellIndexInRange(first, width, height, cellSize);
      grid.Add(first, 0);

      var fuel := attempts;
      while |points| < count && fuel > 0
        invariant 1 <= |points| && (|points| <= count || |points| == 1)
        invariant Separated(points, dist) && AllInBox(points, width, height)
        invariant grid.cellSize == cellSize && grid.width == width && grid.height == height
        invariant |grid.cells| == CellCount(width, height, cellSize)
        decreases fuel
      {
        fuel := fuel - 1;
        var popped;
        popped, next := queue.Pop(next);
        if popped.None? {
          var (_, afterFallback) := RandomPointIn(next, width, height);
          next := afterFallback;
        }
        var (candidate, afterCandidate) := RandomPointIn(next, width, height);
        next := afterCandidate;
        var minSq := NearestSqDist(points, candidate);
        if minSq.None? || minSq.value > dist * dist {
          assert FarFrom(points, candidate, dist);
          AppendSeparated(points, candidate, dist, width, height);
          next := queue.Push(candidate, next);
          points := points + [candidate];
          CellIndexInRange(candidate, width, height, cellSize);
          grid.Add(candidate, |points| - 1);
        }
      }
      done := |points| >= count;
    }

    /**
     * `World::random`: 35 animals on points at least 0.1 apart, each with a random
     * heading, speed 0.002 and a random brain, then 50 foods on points at least 0.05
     * apart; fewer when the point generator runs out of attempts.
     */
    method Random(rng: Rng, topology: NN.Topology, attempts: nat) returns (next: Rng, done: bool)
      modifies this
      ensures done ==> |animals| == 35 && |foods| == 50
      ensures 1 <= |animals| <= 35 && 1 <= |foods| <= 50
      ensures forall k :: 0 <= k < |animals| ==>
        && animals[k].eye == Eyes.Default() && animals[k].satiation == 0 && animals[k].speed == 0.002
        && -Pi <= animals[k].rotation <= Pi && NN.Fits(animals[k].brain.nn, topology)
        && InBox(animals[k].position, 1.0, 1.0)
      ensures forall i, j :: 0 <= i < j < |animals| ==> SqDist(animals[i].position, animals[j].position) > 0.1 * 0.1
      ensures forall k :: 0 <= k < |foods| ==> InBox(foods[k].position, 1.0, 1.0)
      ensures forall i, j :: 0 <= i < j < |foods| ==> SqDist(foods[i].position, foods[j].position) > 0.05 * 0.05
    {
      var animalPoints, r1, animalsDone := GeneratePoison(rng, 1.0, 1.0, 35, 0.1, attempts);
      var (newAnimals, r2) := Populate(animalPoints, r1, topology);
      var foodPoints, r3, foodsDone := GeneratePoison(r2, 1.0, 1.0, 50, 0.05, attempts);
      animals := newAnimals;
      foods := seq(|foodPoints|, k requires 0 <= k < |foodPoints| => Foods.New(foodPoints[k]));
      next := r3;
      done := animalsDone && foodsDone;
    }
  }

  /**
   * The animals of `World::random`, one per position in order; for each, the heading is
   * drawn first and the brain after it.
   */
  function Populate(positions: seq<Point>, rng: Rng, topology: NN.Topology): (r: (seq<Animals.Animal>, Rng))
    ensures |r.0| == |positions|
    ensures forall k :: 0 <= k < |positions| ==>
      && r.0[k].position == positions[k] && r.0[k].eye == Eyes.Default() && r.0[k].satiation == 0
      && r.0[k].speed == 0.002 && -Pi <= r.0[k].rotation <= Pi && NN.Fits(r.0[k].brain.nn, topology)
    decreases |positions|
  {
    if |positions| == 0 then ([], rng)
    else
      var (init, mid) := Populate(positions[..|positions| - 1], rng, topology);
      var (rotation, mid2) := Animals.RandomRotation(mid);
      var (animal, next) := Animals.New(positions[|positions| - 1], rotation, 0.002, mid2, topology);
      (init + [animal], next)
  }
}
