/**
  Grid geometry of the simulated city: the coarse grid (avenidas x calles) of
  blocks and corners, the unified map that interleaves both at twice the
  resolution, the Avenida/Calle coordinates reported to the dashboard,
  Manhattan distance and the access point of a building.
 */
module Geometry {

  /** A cell position: `x` is the row (posx), `y` the column (posy). */
  datatype Pos = Pos(x: int, y: int)

  /** Where a building sits: coarse-grid cell, unified-map cell and the side it faces. */
  datatype Site = Site(grid: Pos, unified: Pos, dir: char)

  function Abs(n: int): int {
    if n < 0 then -n else n
  }

  /** Manhattan distance (calcularDistancia, and heuristica for A*). */
  function Distance(a: Pos, b: Pos): (d: int)
    ensures d >= 0
    ensures d == 0 <==> a == b
  {
    Abs(a.x - b.x) + Abs(a.y - b.y)
  }

  lemma DistanceSymmetric(a: Pos, b: Pos)
    ensures Distance(a, b) == Distance(b, a)
  {
  }

  lemma TriangleInequality(a: Pos, b: Pos, c: Pos)
    ensures Distance(a, c) <= Distance(a, b) + Distance(b, c)
  {
  }

  predicate Adjacent(a: Pos, b: Pos) {
    Distance(a, b) == 1
  }

  predicate InGrid(p: Pos, size: int) {
    0 <= p.x < size && 0 <= p.y < size
  }

  // ---------------------------------------------------------------------
  // Avenida/Calle coordinates of the unified map
  // ---------------------------------------------------------------------

  /** convertirUnificadoAAvCa: avenue counts columns from 1, street counts rows from the bottom. */
  function ToAvCa(p: Pos, size: int): (r: (int, int))
    ensures InGrid(p, size) ==> 1 <= r.0 <= size && 1 <= r.1 <= size
  {
    (p.y + 1, size - p.x)
  }

  /** convertirAvCaAUnificado */
  function FromAvCa(av: int, ca: int, size: int): (p: Pos)
    ensures 1 <= av <= size && 1 <= ca <= size ==> InGrid(p, size)
  {
    Pos(size - ca, av - 1)
  }

  lemma AvCaRoundTrip(av: int, ca: int, size: int)
    ensures ToAvCa(FromAvCa(av, ca, size), size) == (av, ca)
  {
  }

  lemma UnifiedRoundTrip(p: Pos, size: int)
    ensures FromAvCa(ToAvCa(p, size).0, ToAvCa(p, size).1, size) == p
  {
  }

  // ---------------------------------------------------------------------
  // Access points
  // ---------------------------------------------------------------------

  /**
    The cell in front of a building: one step up, down, left or right of
    `site` as the orientation letter says; any other letter leaves the site
    itself. `letters` lists the letters for up, down, left and right.
   */
  function AccessPoint(site: Pos, dir: char, letters: string): (p: Pos)
    requires |letters| == 4
    ensures dir in letters ==> Adjacent(site, p)
    ensures dir !in letters ==> p == site
    ensures dir == letters[0] ==> p == Pos(site.x - 1, site.y)
  {
    if dir == letters[0] then Pos(site.x - 1, site.y)
    else if dir == letters[1] then Pos(site.x + 1, site.y)
    else if dir == letters[2] then Pos(site.x, site.y - 1)
    else if dir == letters[3] then Pos(site.x, site.y + 1)
    else site
  }

  /** getPuntoAccesoRestaurante: restaurants are oriented with upper-case letters. */
  function RestaurantAccess(s: Site): (p: Pos)
    ensures s.dir in "UDLR" ==> Adjacent(s.unified, p)
    ensures s.dir !in "UDLR" ==> p == s.unified
  {
    AccessPoint(s.unified, s.dir, "UDLR")
  }

  /** getPuntoAccesoCasa: houses are oriented with lower-case letters. */
  function HouseAccess(s: Site): (p: Pos)
    ensures s.dir in "udlr" ==> Adjacent(s.unified, p)
    ensures s.dir !in "udlr" ==> p == s.unified
  {
    AccessPoint(s.unified, s.dir, "udlr")
  }

  // ---------------------------------------------------------------------
  // Scaling from the coarse grid to the unified map
  // ---------------------------------------------------------------------

  /** Buildings occupy block cells, which land on odd/odd unified cells. */
  function ScaleBuilding(p: Pos): (q: Pos)
    ensures q.x % 2 == 1 && q.y % 2 == 1
    ensures q.x / 2 == p.x && q.y / 2 == p.y
  {
    Pos(p.x * 2 + 1, p.y * 2 + 1)
  }

  /** Drivers stand on corners, which land on even/even unified cells. */
  function ScaleCorner(p: Pos): (q: Pos)
    ensures q.x % 2 == 0 && q.y % 2 == 0
    ensures q.x / 2 == p.x && q.y / 2 == p.y
  {
    Pos(p.x * 2, p.y * 2)
  }

  /** Side of the unified map built from `avenidas` avenues. */
  function UnifiedSize(avenidas: int): int {
    avenidas * 2 - 1
  }

  /**
    A building placed on a block of an `avenidas` x `avenidas` grid has its
    access point inside the unified map, on a cell with exactly one odd
    coordinate: a street segment between two corners.
   */
  lemma {:induction false} AccessPointOnStreet(block: Pos, avenidas: int, dir: char, letters: string)
    requires |letters| == 4 && dir in letters
    requires 0 <= block.x < avenidas - 1 && 0 <= block.y < avenidas - 1
    ensures InGrid(AccessPoint(ScaleBuilding(block), dir, letters), UnifiedSize(avenidas))
    ensures var p := AccessPoint(ScaleBuilding(block), dir, letters);
            (p.x % 2 == 0) != (p.y % 2 == 0)
  {
    var r, c := block.x, block.y;
    var p := AccessPoint(ScaleBuilding(block), dir, letters);
    if dir == letters[0] {
      assert p == Pos(2 * r, 2 * c + 1);
    } else if dir == letters[1] {
      assert p == Pos(2 * r + 2, 2 * c + 1);
    } else if dir == letters[2] {
      assert p == Pos(2 * r + 1, 2 * c);
    } else {
      assert p == Pos(2 * r + 1, 2 * c + 2);
    }
  }
}
