/**
  Routing on the unified map: how crearMapaUnificado lays the corner grid
  (grillaMapa) and the block grid (grilla) into one map of twice the
  resolution, and the A* search (calcularSiguientePasoAStar) that picks a
  driver's next cell.
 */
module Routing {
  import opened Common
  import opened Geometry

  /** Side of the unified map buffer and of the A* tables. */
  const MAP_CAPACITY: int := MAX_GRID_SIZE * 2

  /** Capacity of the A* open list. */
  const OPEN_CAPACITY: int := MAX_GRID_SIZE * MAX_GRID_SIZE

  // ---------------------------------------------------------------------
  // Unified map (crearMapaUnificado)
  // ---------------------------------------------------------------------

  /** The grid sizes and the two MAX_GRID_SIZE-square grids. */
  predicate GridShapes(corners: array2<char>, blocks: array2<char>, avenidas: int, calles: int) {
    1 <= avenidas <= MAX_GRID_SIZE && 1 <= calles <= MAX_GRID_SIZE
    && corners.Length0 == MAX_GRID_SIZE && corners.Length1 == MAX_GRID_SIZE
    && blocks.Length0 == MAX_GRID_SIZE && blocks.Length1 == MAX_GRID_SIZE
  }

  /** The shapes crearMapaUnificado works on. */
  predicate MapShapes(m: array2<char>, corners: array2<char>, blocks: array2<char>, avenidas: int, calles: int) {
    GridShapes(corners, blocks, avenidas, calles) && m.Length0 == MAP_CAPACITY && m.Length1 == MAP_CAPACITY
  }

  /**
    What the unified map holds at (i, j): the corner cell at even/even
    positions, the block cell at odd/odd positions inside the grid, open
    street ('o') elsewhere inside the (2 * avenidas - 1)-square, and what
    was there before outside it.
   */
  function UnifiedCell(corners: array2<char>, blocks: array2<char>, avenidas: int, calles: int,
                       i: nat, j: nat, before: char): char
    reads corners, blocks
    requires corners.Length0 == MAX_GRID_SIZE && corners.Length1 == MAX_GRID_SIZE
    requires blocks.Length0 == MAX_GRID_SIZE && blocks.Length1 == MAX_GRID_SIZE
    requires avenidas <= MAX_GRID_SIZE && calles <= MAX_GRID_SIZE
  {
    if i % 2 == 0 && j % 2 == 0 && i / 2 < avenidas && j / 2 < calles then corners[i / 2, j / 2]
    else if i % 2 == 1 && j % 2 == 1 && i / 2 < avenidas - 1 && j / 2 < calles - 1 then blocks[i / 2, j / 2]
    else if i < UnifiedSize(avenidas) && j < UnifiedSize(avenidas) then 'o'
    else before
  }

  /** The first loop: the (size x size) square becomes open street. */
  method FillOpen(m: array2<char>, size: nat)
    requires size <= m.Length0 && size <= m.Length1
    modifies m
    ensures forall i, j :: 0 <= i < m.Length0 && 0 <= j < m.Length1 ==>
              m[i, j] == if i < size && j < size then 'o' else old(m[i, j])
  {
    for i := 0 to size
      invariant forall r, c :: 0 <= r < m.Length0 && 0 <= c < m.Length1 ==>
                  m[r, c] == if r < i && c < size then 'o' else old(m[r, c])
    {
      for j := 0 to size
        invariant forall r, c :: 0 <= r < m.Length0 && 0 <= c < m.Length1 ==>
                    m[r, c] == if (r < i && c < size) || (r == i && c < j) then 'o' else old(m[r, c])
      {
        m[i, j] := 'o';
      }
    }
  }

  /** The second loop: corner (i, j) of the grid goes to unified cell (2i, 2j). */
  method PlaceCorners(m: array2<char>, corners: array2<char>, avenidas: int, calles: int)
    requires MapShapes(m, corners, corners, avenidas, calles) && m != corners
    modifies m
    ensures forall i, j :: 0 <= i < m.Length0 && 0 <= j < m.Length1 ==>
              m[i, j] == if i % 2 == 0 && j % 2 == 0 && i / 2 < avenidas && j / 2 < calles
                         then corners[i / 2, j / 2] else old(m[i, j])
  {
    for a := 0 to avenidas
      invariant forall r, c :: 0 <= r < m.Length0 && 0 <= c < m.Length1 ==>
                  m[r, c] == if r % 2 == 0 && c % 2 == 0 && r / 2 < a && c / 2 < calles
                             then corners[r / 2, c / 2] else old(m[r, c])
    {
      for b := 0 to calles
        invariant forall r, c :: 0 <= r < m.Length0 && 0 <= c < m.Length1 ==>
                    m[r, c] == if r % 2 == 0 && c % 2 == 0
                                  && ((r / 2 < a && c / 2 < calles) || (r / 2 == a && c / 2 < b))
                               then corners[r / 2, c / 2] else old(m[r, c])
      {
        m[a * 2, b * 2] := corners[a, b];
      }
    }
  }

  /** The third loop: block (i, j) of the grid goes to unified cell (2i + 1, 2j + 1). */
  method PlaceBlocks(m: array2<char>, blocks: array2<char>, avenidas: int, calles: int)
    requires MapShapes(m, blocks, blocks, avenidas, calles) && m != blocks
    modifies m
    ensures forall i, j :: 0 <= i < m.Length0 && 0 <= j < m.Length1 ==>
              m[i, j] == if i % 2 == 1 && j % 2 == 1 && i / 2 < avenidas - 1 && j / 2 < calles - 1
                         then blocks[i / 2, j / 2] else old(m[i, j])
  {
    for a := 0 to avenidas - 1
      invariant forall r, c :: 0 <= r < m.Length0 && 0 <= c < m.Length1 ==>
                  m[r, c] == if r % 2 == 1 && c % 2 == 1 && r / 2 < a && c / 2 < calles - 1
                             then blocks[r / 2, c / 2] else old(m[r, c])
    {
      for b := 0 to calles - 1
        invariant forall r, c :: 0 <= r < m.Length0 && 0 <= c < m.Length1 ==>
                    m[r, c] == if r % 2 == 1 && c % 2 == 1
                                  && ((r / 2 < a && c / 2 < calles - 1) || (r / 2 == a && c / 2 < b))
                               then blocks[r / 2, c / 2] else old(m[r, c])
      {
        m[a * 2 + 1, b * 2 + 1] := blocks[a, b];
      }
    }
  }

  /**
    crearMapaUnificado: returns the side of the unified map and fills it
    cell by cell as UnifiedCell says.
   */
  method BuildUnifiedMap(m: array2<char>, corners: array2<char>, blocks: array2<char>, avenidas: int, calles: int)
    returns (size: int)
    requires MapShapes(m, corners, blocks, avenidas, calles) && m != corners && m != blocks
    modifies m
    ensures size == UnifiedSize(avenidas)
    ensures forall i, j :: 0 <= i < m.Length0 && 0 <= j < m.Length1 ==>
              m[i, j] == UnifiedCell(corners, blocks, avenidas, calles, i, j, old(m[i, j]))
  {
    size := UnifiedSize(avenidas);
    FillOpen(m, size);
    PlaceCorners(m, corners, avenidas, calles);
    PlaceBlocks(m, blocks, avenidas, calles);
  }

  /** Every corner of the grid sits at its scaled position of the unified map. */
  lemma CornerCellScaled(corners: array2<char>, blocks: array2<char>, avenidas: int, calles: int, p: Pos, before: char)
    requires GridShapes(corners, blocks, avenidas, calles)
    requires 0 <= p.x < avenidas && 0 <= p.y < calles
    ensures var q := ScaleCorner(p);
            UnifiedCell(corners, blocks, avenidas, calles, q.x, q.y, before) == corners[p.x, p.y]
  {
  }

  /** Every block of the grid sits at its scaled position of the unified map. */
  lemma BlockCellScaled(corners: array2<char>, blocks: array2<char>, avenidas: int, calles: int, p: Pos, before: char)
    requires GridShapes(corners, blocks, avenidas, calles)
    requires 0 <= p.x < avenidas - 1 && 0 <= p.y < calles - 1
    ensures var q := ScaleBuilding(p);
            UnifiedCell(corners, blocks, avenidas, calles, q.x, q.y, before) == blocks[p.x, p.y]
  {
  }

  /** A cell with exactly one odd coordinate inside the unified square is open street. */
  lemma StreetCellsOpen(corners: array2<char>, blocks: array2<char>, avenidas: int, calles: int, i: nat, j: nat, before: char)
    requires GridShapes(corners, blocks, avenidas, calles)
    requires i < UnifiedSize(avenidas) && j < UnifiedSize(avenidas) && (i % 2 == 0) != (j % 2 == 0)
    ensures UnifiedCell(corners, blocks, avenidas, calles, i, j, before) == 'o'
  {
  }

  // ---------------------------------------------------------------------
  // A* next step (calcularSiguientePasoAStar)
  // ---------------------------------------------------------------------

  /** Cells a driver moves through: open street 'o' or a cell a driver stands on 'p'. */
  predicate Passable(c: char) {
    c == 'o' || c == 'p'
  }

  /** A cell the search may enter: inside the map and passable, or the goal itself. */
  predicate CanEnter(grid: array2<char>, size: int, goal: Pos, q: Pos)
    reads grid
    requires size <= grid.Length0 && size <= grid.Length1
  {
    InGrid(q, size) && (Passable(grid[q.x, q.y]) || q == goal)
  }

  /** A single legal move of the search. */
  predicate MoveOk(grid: array2<char>, size: int, goal: Pos, from: Pos, to: Pos)
    reads grid
    requires size <= grid.Length0 && size <= grid.Length1
  {
    InGrid(from, size) && Adjacent(from, to) && CanEnter(grid, size, goal, to)
  }

  /** The `d`-th neighbour, in the order of the dx/dy tables: up, down, left, right. */
  function Neighbour(p: Pos, d: int): (q: Pos)
    requires 0 <= d < 4
    ensures Adjacent(p, q)
  {
    if d == 0 then Pos(p.x - 1, p.y)
    else if d == 1 then Pos(p.x + 1, p.y)
    else if d == 2 then Pos(p.x, p.y - 1)
    else Pos(p.x, p.y + 1)
  }

  /** NodoA: an open-list entry with its cost so far, heuristic and their sum. */
  datatype Node = Node(pos: Pos, g: int, h: int, f: int)

  /** The "no parent" mark of the padre table. */
  const NoParent: Pos := Pos(-1, -1)

  /** The A* tables (gscore, cerrado, padre) span the size x size map. */
  predicate Tables(grid: array2<char>, size: int, gscore: array2<int>, closed: array2<bool>, parent: array2<Pos>) {
    0 < size <= grid.Length0 && size <= grid.Length1
    && gscore.Length0 == size && gscore.Length1 == size
    && closed.Length0 == size && closed.Length1 == size
    && parent.Length0 == size && parent.Length1 == size
  }

  /**
    Every parent link is a legal move out of a closed cell whose cost is
    below the cost of the linked cell; costs are never negative.
   */
  ghost predicate ParentsValid(grid: array2<char>, size: int, goal: Pos,
                               gscore: array2<int>, closed: array2<bool>, parent: array2<Pos>)
    reads grid, gscore, closed, parent
    requires Tables(grid, size, gscore, closed, parent)
  {
    (forall i, j :: 0 <= i < size && 0 <= j < size ==> gscore[i, j] >= 0)
    && forall i, j :: 0 <= i < size && 0 <= j < size && parent[i, j] != NoParent ==>
         MoveOk(grid, size, goal, parent[i, j], Pos(i, j))
         && closed[parent[i, j].x, parent[i, j].y]
         && gscore[parent[i, j].x, parent[i, j].y] < gscore[i, j]
  }

  /** Open entries lie on the map and carry at least the best cost known for their cell. */
  ghost predicate OpenValid(open: array<Node>, count: int, size: int, gscore: array2<int>)
    reads open, gscore
    requires 0 <= count <= open.Length && gscore.Length0 == size && gscore.Length1 == size
  {
    forall e :: 0 <= e < count ==>
      InGrid(open[e].pos, size) && open[e].g >= gscore[open[e].pos.x, open[e].pos.y]
  }

  /** The index of the first open entry with the least f. */
  method SelectMin(open: array<Node>, count: int) returns (k: int)
    requires 0 < count <= open.Length
    ensures 0 <= k < count
    ensures forall e :: 0 <= e < count ==> open[k].f <= open[e].f
    ensures forall e :: 0 <= e < k ==> open[k].f < open[e].f
  {
    k := 0;
    for i := 1 to count
      invariant 0 <= k < i
      invariant forall e :: 0 <= e < i ==> open[k].f <= open[e].f
      invariant forall e :: 0 <= e < k ==> open[k].f < open[e].f
    {
      if open[i].f < open[k].f {
        k := i;
      }
    }
  }

  /** Takes entry `k` out of the open list, shifting the later entries left. */
  method PopAt(open: array<Node>, count: int, k: int, size: int, gscore: array2<int>)
    requires 0 <= k < count <= open.Length && gscore.Length0 == size && gscore.Length1 == size
    requires OpenValid(open, count, size, gscore)
    modifies open
    ensures OpenValid(open, count - 1, size, gscore)
    ensures open[..count - 1] == old(open[..k]) + old(open[k + 1..count])
  {
    RemoveAt(open, count, k);
    forall e | 0 <= e < count - 1
      ensures InGrid(open[e].pos, size) && open[e].g >= gscore[open[e].pos.x, open[e].pos.y]
    {
      if e < k {
        assert open[e] == open[..count - 1][e] == old(open[..k])[e];
      } else {
        assert open[e] == open[..count - 1][e] == old(open[k + 1..count])[e - k] == old(open[e + 1]);
      }
    }
  }

  /** Records `current` as the parent of `next` with cost g + 1, an improvement on its cost so far. */
  method Improve(grid: array2<char>, size: int, goal: Pos, current: Node, next: Pos,
                 gscore: array2<int>, closed: array2<bool>, parent: array2<Pos>,
                 open: array<Node>, count: int)
    requires Tables(grid, size, gscore, closed, parent)
    requires 0 <= count <= open.Length && OpenValid(open, count, size, gscore)
    requires ParentsValid(grid, size, goal, gscore, closed, parent)
    requires InGrid(current.pos, size) && closed[current.pos.x, current.pos.y]
    requires current.g >= gscore[current.pos.x, current.pos.y] && Adjacent(current.pos, next)
    requires CanEnter(grid, size, goal, next) && !closed[next.x, next.y]
    requires current.g + 1 < gscore[next.x, next.y]
    modifies gscore, parent
    ensures OpenValid(open, count, size, gscore)
    ensures ParentsValid(grid, size, goal, gscore, closed, parent)
    ensures gscore[next.x, next.y] == current.g + 1
    ensures current.g >= gscore[current.pos.x, current.pos.y]
  {
    gscore[next.x, next.y] := current.g + 1;
    parent[next.x, next.y] := current.pos;
  }

  /**
    One neighbour of an expansion: when it may be entered, is not closed
    and g + 1 improves its cost, it gets that cost and `current` as parent,
    and is pushed while the open list has room.
   */
  method Relax(grid: array2<char>, size: int, goal: Pos, current: Node, next: Pos,
               gscore: array2<int>, closed: array2<bool>, parent: array2<Pos>,
               open: array<Node>, count: int) returns (count': int)
    requires Tables(grid, size, gscore, closed, parent) && open.Length == OPEN_CAPACITY
    requires 0 <= count <= OPEN_CAPACITY && OpenValid(open, count, size, gscore)
    requires ParentsValid(grid, size, goal, gscore, closed, parent)
    requires InGrid(current.pos, size) && closed[current.pos.x, current.pos.y]
    requires current.g >= gscore[current.pos.x, current.pos.y] && Adjacent(current.pos, next)
    modifies gscore, parent, open
    ensures count <= count' <= OPEN_CAPACITY && OpenValid(open, count', size, gscore)
    ensures ParentsValid(grid, size, goal, gscore, closed, parent)
    ensures current.g >= gscore[current.pos.x, current.pos.y]
  {
    count' := count;
    var nx, ny := next.x, next.y;
    if 0 <= nx < size && 0 <= ny < size && (Passable(grid[nx, ny]) || next == goal) && !closed[nx, ny] {
      var tentative := current.g + 1;
      if tentative < gscore[nx, ny] {
        Improve(grid, size, goal, current, next, gscore, closed, parent, open, count');
        var h := Distance(next, goal);
        if count' < OPEN_CAPACITY {
          open[count'] := Node(next, tentative, h, tentative + h);
          count' := count' + 1;
        }
      }
    }
  }

  /** The cells of the map not closed yet. */
  ghost function UnclosedCells(closed: array2<bool>, size: int): set<Pos>
    reads closed
    requires closed.Length0 == size && closed.Length1 == size
  {
    set i, j | 0 <= i < size && 0 <= j < size && !closed[i, j] :: Pos(i, j)
  }

  /**
    Marks the open cell (x, y) closed: fewer cells are left unclosed, and
    parent links stay valid since closed cells only grow.
   */
  method Close(grid: array2<char>, size: int, goal: Pos,
               gscore: array2<int>, closed: array2<bool>, parent: array2<Pos>, x: int, y: int)
    requires Tables(grid, size, gscore, closed, parent) && 0 <= x < size && 0 <= y < size && !closed[x, y]
    requires ParentsValid(grid, size, goal, gscore, closed, parent)
    modifies closed
    ensures ParentsValid(grid, size, goal, gscore, closed, parent)
    ensures closed[x, y]
    ensures UnclosedCells(closed, size) < old(UnclosedCells(closed, size))
  {
    ghost var before := UnclosedCells(closed, size);
    closed[x, y] := true;
    assert Pos(x, y) in before && Pos(x, y) !in UnclosedCells(closed, size);
  }

  /** The neighbour loop of one expansion, over the four directions in table order. */
  method Expand(grid: array2<char>, size: int, goal: Pos, current: Node,
                gscore: array2<int>, closed: array2<bool>, parent: array2<Pos>,
                open: array<Node>, count: int) returns (count': int)
    requires Tables(grid, size, gscore, closed, parent) && open.Length == OPEN_CAPACITY
    requires 0 <= count <= OPEN_CAPACITY && OpenValid(open, count, size, gscore)
    requires ParentsValid(grid, size, goal, gscore, closed, parent)
    requires InGrid(current.pos, size) && closed[current.pos.x, current.pos.y]
    requires current.g >= gscore[current.pos.x, current.pos.y]
    modifies gscore, parent, open
    ensures 0 <= count' <= OPEN_CAPACITY && OpenValid(open, count', size, gscore)
    ensures ParentsValid(grid, size, goal, gscore, closed, parent)
  {
    count' := count;
    for d := 0 to 4
      invariant 0 <= count' <= OPEN_CAPACITY && OpenValid(open, count', size, gscore)
      invariant ParentsValid(grid, size, goal, gscore, closed, parent)
      invariant current.g >= gscore[current.pos.x, current.pos.y]
    {
      count' := Relax(grid, size, goal, current, Neighbour(current.pos, d), gscore, closed, parent, open, count');
    }
  }

  /**
    One turn of the search loop: the entry with the least f leaves the open
    list; unless its cell is closed already, the cell is closed and, when it
    is not the goal, expanded. `done` says the goal was closed.
   */
  method SearchStep(grid: array2<char>, size: int, goal: Pos,
                    gscore: array2<int>, closed: array2<bool>, parent: array2<Pos>,
                    open: array<Node>, count: int) returns (count': int, done: bool)
    requires Tables(grid, size, gscore, closed, parent) && open.Length == OPEN_CAPACITY
    requires 0 < count <= OPEN_CAPACITY && OpenValid(open, count, size, gscore)
    requires ParentsValid(grid, size, goal, gscore, closed, parent)
    modifies gscore, closed, parent, open
    ensures 0 <= count' <= OPEN_CAPACITY && OpenValid(open, count', size, gscore)
    ensures ParentsValid(grid, size, goal, gscore, closed, parent)
    ensures UnclosedCells(closed, size) < old(UnclosedCells(closed, size))
            || (UnclosedCells(closed, size) == old(UnclosedCells(closed, size)) && count' < count && !done)
  {
    var k := SelectMin(open, count);
    var current := open[k];
    PopAt(open, count, k, size, gscore);
    count' := count - 1;
    done := false;
    var x, y := current.pos.x, current.pos.y;
    if !closed[x, y] {
      Close(grid, size, goal, gscore, closed, parent, x, y);
      if current.pos == goal {
        done := true;
      } else {
        count' := Expand(grid, size, goal, current, gscore, closed, parent, open, count');
      }
    }
  }

  /**
    A* over the size x size map from `start` to `goal`: the search loop
    with its open list, returning the cost, closed and parent tables.
   */
  method Search(grid: array2<char>, size: int, start: Pos, goal: Pos)
    returns (gscore: array2<int>, closed: array2<bool>, parent: array2<Pos>)
    requires 0 < size <= grid.Length0 && size <= grid.Length1 && InGrid(start, size)
    ensures Tables(grid, size, gscore, closed, parent)
    ensures ParentsValid(grid, size, goal, gscore, closed, parent)
  {
    gscore := new int[size, size]((i, j) => INF);
    closed := new bool[size, size]((i, j) => false);
    parent := new Pos[size, size]((i, j) => NoParent);
    var open := new Node[OPEN_CAPACITY];
    gscore[start.x, start.y] := 0;
    open[0] := Node(start, 0, Distance(start, goal), Distance(start, goal));
    var count := 1;
    var done := false;
    while count > 0 && !done
      invariant 0 <= count <= OPEN_CAPACITY && OpenValid(open, count, size, gscore)
      invariant ParentsValid(grid, size, goal, gscore, closed, parent)
      decreases UnclosedCells(closed, size), count
    {
      count, done := SearchStep(grid, size, goal, gscore, closed, parent, open, count);
    }
  }

  /** Every move along `path` is a legal move of the search. */
  ghost predicate Walkable(grid: array2<char>, size: int, goal: Pos, path: seq<Pos>)
    reads grid
    requires size <= grid.Length0 && size <= grid.Length1
  {
    forall i :: 0 < i < |path| ==> MoveOk(grid, size, goal, path[i - 1], path[i])
  }

  /** A route from `start` to `goal` whose first move is to `step`. */
  ghost predicate RouteVia(grid: array2<char>, size: int, start: Pos, step: Pos, goal: Pos, path: seq<Pos>)
    reads grid
    requires size <= grid.Length0 && size <= grid.Length1
  {
    2 <= |path| && path[0] == start && path[1] == step && path[|path| - 1] == goal
    && Walkable(grid, size, goal, path)
  }

  /**
    The parent walk back from the goal: the cell whose parent is `start`,
    or `start` when the goal was not reached. When it moves, the walked
    parent links, read forwards, are a route from `start` through `step`
    to `goal`.
   */
  method Walk(grid: array2<char>, size: int, start: Pos, goal: Pos,
              gscore: array2<int>, closed: array2<bool>, parent: array2<Pos>)
    returns (step: Pos, ghost path: seq<Pos>)
    requires Tables(grid, size, gscore, closed, parent) && InGrid(start, size) && InGrid(goal, size)
    requires ParentsValid(grid, size, goal, gscore, closed, parent)
    ensures step != start ==> RouteVia(grid, size, start, step, goal, path)
  {
    path := [start];
    if parent[goal.x, goal.y].x == -1 {
      return start, path;
    }
    step := goal;
    path := [goal];
    while parent[step.x, step.y] != start
      invariant InGrid(step, size)
      invariant 1 <= |path| && path[0] == step && path[|path| - 1] == goal
      invariant Walkable(grid, size, goal, path)
      decreases gscore[step.x, step.y]
    {
      var back := parent[step.x, step.y];
      if back.x == -1 {
        return start, path;
      }
      assert MoveOk(grid, size, goal, back, step);
      path := [back] + path;
      step := back;
    }
    assert MoveOk(grid, size, goal, start, step);
    path := [start] + path;
  }

  /**
    calcularSiguientePasoAStar: the cell a driver at `start` moves to on
    its way to `goal`. It is `start` itself when the driver is there or no
    path was found, and otherwise a neighbouring cell of the map that is
    open street, holds a driver, or is the goal.
   */
  method NextStep(grid: array2<char>, size: int, start: Pos, goal: Pos) returns (step: Pos, ghost path: seq<Pos>)
    requires 0 < size <= grid.Length0 && size <= grid.Length1
    requires InGrid(start, size) && InGrid(goal, size)
    ensures step == start || MoveOk(grid, size, goal, start, step)
    ensures step != start ==> RouteVia(grid, size, start, step, goal, path)
    ensures start == goal ==> step == start
  {
    if start == goal {
      return start, [start];
    }
    var gscore, closed, parent := Search(grid, size, start, goal);
    step, path := Walk(grid, size, start, goal, gscore, closed, parent);
  }
}
