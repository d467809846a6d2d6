/** The static board: the shared 52-cell loop, the start offsets, the home lanes and the safe cells. */
module Board {
  import opened Types

  const BOARD_SIZE: int := 15

  predicate InBoard(c: Coordinate) {
    0 <= c.x < BOARD_SIZE && 0 <= c.y < BOARD_SIZE
  }

  /**
   * The shared loop, clockwise from RED's first square (index 0 is (1, 6),
   * index 51 is (0, 6)). It is written as four quarters of 13 cells, each
   * starting at one colour's entry square.
   */
  const GlobalPath: seq<Coordinate> := RedQuarter + GreenQuarter + YellowQuarter + BlueQuarter

  /** Global cells 0..12, from RED's entry square on. */
  const RedQuarter: seq<Coordinate> := [
    Coordinate(1, 6), Coordinate(2, 6), Coordinate(3, 6), Coordinate(4, 6), Coordinate(5, 6),
    Coordinate(6, 5), Coordinate(6, 4), Coordinate(6, 3), Coordinate(6, 2), Coordinate(6, 1),
    Coordinate(6, 0), Coordinate(7, 0), Coordinate(8, 0)
  ]

  /** Global cells 13..25, from GREEN's entry square on. */
  const GreenQuarter: seq<Coordinate> := [
    Coordinate(8, 1), Coordinate(8, 2), Coordinate(8, 3), Coordinate(8, 4), Coordinate(8, 5),
    Coordinate(9, 6), Coordinate(10, 6), Coordinate(11, 6), Coordinate(12, 6), Coordinate(13, 6),
    Coordinate(14, 6), Coordinate(14, 7), Coordinate(14, 8)
  ]

  /** Global cells 26..38, from YELLOW's entry square on. */
  const YellowQuarter: seq<Coordinate> := [
    Coordinate(13, 8), Coordinate(12, 8), Coordinate(11, 8), Coordinate(10, 8), Coordinate(9, 8),
    Coordinate(8, 9), Coordinate(8, 10), Coordinate(8, 11), Coordinate(8, 12), Coordinate(8, 13),
    Coordinate(8, 14), Coordinate(7, 14), Coordinate(6, 14)
  ]

  /** Global cells 39..51, from BLUE's entry square on. */
  const BlueQuarter: seq<Coordinate> := [
    Coordinate(6, 13), Coordinate(6, 12), Coordinate(6, 11), Coordinate(6, 10), Coordinate(6, 9),
    Coordinate(5, 8), Coordinate(4, 8), Coordinate(3, 8), Coordinate(2, 8), Coordinate(1, 8),
    Coordinate(0, 8), Coordinate(0, 7), Coordinate(0, 6)
  ]

  /** Where each colour enters the shared loop. */
  function StartIndex(c: Color): (r: int)
    ensures 0 <= r < |GlobalPath| && r % 13 == 0 && TurnOrder[r / 13] == c
  {
    match c
    case RED => 0
    case GREEN => 13
    case YELLOW => 26
    case BLUE => 39
  }

  /** The number of rows and columns between a square and the centre (7, 7). */
  function ToCentre(q: Coordinate): int {
    (if q.x < 7 then 7 - q.x else q.x - 7) + (if q.y < 7 then 7 - q.y else q.y - 7)
  }

  /** The five private cells of each colour's home lane (local positions 51..55). */
  function HomePath(c: Color): (r: seq<Coordinate>)
    ensures |r| == 5 && forall k :: 0 <= k < 5 ==> ToCentre(r[k]) == 6 - k
  {
    match c
    case RED => [Coordinate(1, 7), Coordinate(2, 7), Coordinate(3, 7), Coordinate(4, 7), Coordinate(5, 7)]
    case GREEN => [Coordinate(7, 1), Coordinate(7, 2), Coordinate(7, 3), Coordinate(7, 4), Coordinate(7, 5)]
    case YELLOW => [Coordinate(13, 7), Coordinate(12, 7), Coordinate(11, 7), Coordinate(10, 7), Coordinate(9, 7)]
    case BLUE => [Coordinate(7, 13), Coordinate(7, 12), Coordinate(7, 11), Coordinate(7, 10), Coordinate(7, 9)]
  }

  /** Global indices on which no capture happens: each start cell and the star cell 8 beyond it. */
  const SafeZones: seq<int> := [0, 8, 13, 21, 26, 34, 39, 47]

  lemma GlobalPathShape()
    ensures |GlobalPath| == 52
    ensures GlobalPath[51] == Coordinate(0, 6)
  {
  }

  lemma GlobalPathInBoard()
    ensures forall c :: c in GlobalPath ==> InBoard(c)
  {
    assert forall c :: c in RedQuarter ==> InBoard(c);
    assert forall c :: c in GreenQuarter ==> InBoard(c);
    assert forall c :: c in YellowQuarter ==> InBoard(c);
    assert forall c :: c in BlueQuarter ==> InBoard(c);
  }

  lemma HomePathsInBoard(col: Color)
    ensures forall c :: c in HomePath(col) ==> InBoard(c)
  {
  }

  /** Each colour's start offset points at that colour's entry square. */
  lemma StartSquares()
    ensures GlobalPath[StartIndex(RED)] == Coordinate(1, 6)
    ensures GlobalPath[StartIndex(GREEN)] == Coordinate(8, 1)
    ensures GlobalPath[StartIndex(YELLOW)] == Coordinate(13, 8)
    ensures GlobalPath[StartIndex(BLUE)] == Coordinate(6, 13)
  {
  }

  /** The offsets are those of the turn order, 13 cells apart. */
  lemma StartIndicesSpaced()
    ensures forall i :: 0 <= i < 4 ==> StartIndex(TurnOrder[i]) == 13 * i
    ensures forall c: Color :: 0 <= StartIndex(c) < 52
    ensures forall c: Color, d: Color :: c != d ==> StartIndex(c) != StartIndex(d)
  {
  }

  /** Exactly eight safe cells: each start offset and the cell eight beyond it. */
  lemma SafeZonesAreStartsAndStars()
    ensures |SafeZones| == 8
    ensures forall g :: g in SafeZones <==> exists c: Color :: g == StartIndex(c) || g == StartIndex(c) + 8
  {
    assert forall c: Color :: StartIndex(c) in SafeZones && StartIndex(c) + 8 in SafeZones;
    forall g | g in SafeZones
      ensures exists c: Color :: g == StartIndex(c) || g == StartIndex(c) + 8
    {
      if g < 13 { assert g == StartIndex(RED) || g == StartIndex(RED) + 8; }
      else if g < 26 { assert g == StartIndex(GREEN) || g == StartIndex(GREEN) + 8; }
      else if g < 39 { assert g == StartIndex(YELLOW) || g == StartIndex(YELLOW) + 8; }
      else { assert g == StartIndex(BLUE) || g == StartIndex(BLUE) + 8; }
    }
  }

  /** Every lane has five cells; RED's and YELLOW's lie on row 7, GREEN's and BLUE's on column 7. */
  lemma HomePathLanes(col: Color)
    ensures |HomePath(col)| == 5
    ensures col == RED || col == YELLOW ==> forall c :: c in HomePath(col) ==> c.y == 7
    ensures col == GREEN || col == BLUE ==> forall c :: c in HomePath(col) ==> c.x == 7
  {
  }

  /** The quarters sit one after the other in the loop. */
  lemma GlobalPathQuarters()
    ensures |GlobalPath| == 52
    ensures forall i :: 0 <= i < 13 ==> GlobalPath[i] == RedQuarter[i]
    ensures forall i :: 0 <= i < 13 ==> GlobalPath[13 + i] == GreenQuarter[i]
    ensures forall i :: 0 <= i < 13 ==> GlobalPath[26 + i] == YellowQuarter[i]
    ensures forall i :: 0 <= i < 13 ==> GlobalPath[39 + i] == BlueQuarter[i]
  {
  }

  /**
   * Reads a square back as its global cell (-1 for a square off the loop).
   * It is the inverse of GlobalPath, which is how the loop is shown never to
   * repeat a square.
   */
  function PathIndexOf(c: Coordinate): int {
    if c.y == 6 && 1 <= c.x <= 5 then c.x - 1
    else if c.x == 6 && 0 <= c.y <= 5 then 10 - c.y
    else if c == Coordinate(7, 0) then 11
    else if c.x == 8 && 0 <= c.y <= 5 then 12 + c.y
    else if c.y == 6 && 9 <= c.x <= 14 then 9 + c.x
    else if c == Coordinate(14, 7) then 24
    else if c.y == 8 && 9 <= c.x <= 14 then 39 - c.x
    else if c.x == 8 && 9 <= c.y <= 14 then 22 + c.y
    else if c == Coordinate(7, 14) then 37
    else if c.x == 6 && 9 <= c.y <= 14 then 52 - c.y
    else if c.y == 8 && 0 <= c.x <= 5 then 49 - c.x
    else if c == Coordinate(0, 7) then 50
    else if c == Coordinate(0, 6) then 51
    else -1
  }

  lemma RedQuarterIndices()
    ensures forall i :: 0 <= i < 13 ==> PathIndexOf(RedQuarter[i]) == i
  {
  }

  lemma GreenQuarterIndices()
    ensures forall i :: 0 <= i < 13 ==> PathIndexOf(GreenQuarter[i]) == 13 + i
  {
  }

  lemma YellowQuarterIndices()
    ensures forall i :: 0 <= i < 13 ==> PathIndexOf(YellowQuarter[i]) == 26 + i
  {
  }

  lemma BlueQuarterIndices()
    ensures forall i :: 0 <= i < 13 ==> PathIndexOf(BlueQuarter[i]) == 39 + i
  {
  }

  lemma PathIndexOfInverts()
    ensures forall i :: 0 <= i < |GlobalPath| ==> PathIndexOf(GlobalPath[i]) == i
  {
    GlobalPathQuarters();
    RedQuarterIndices();
    GreenQuarterIndices();
    YellowQuarterIndices();
    BlueQuarterIndices();
    forall i | 0 <= i < |GlobalPath|
      ensures PathIndexOf(GlobalPath[i]) == i
    {
      if i < 13 { assert GlobalPath[i] == RedQuarter[i]; }
      else if i < 26 { assert GlobalPath[i] == GreenQuarter[i - 13]; }
      else if i < 39 { assert GlobalPath[i] == YellowQuarter[i - 26]; }
      else { assert GlobalPath[i] == BlueQuarter[i - 39]; }
    }
  }

  /** No square is visited twice by the loop. */
  lemma GlobalPathDistinct()
    ensures forall i, j :: 0 <= i < j < |GlobalPath| ==> GlobalPath[i] != GlobalPath[j]
  {
    PathIndexOfInverts();
  }
}
