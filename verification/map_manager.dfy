/**
 * The finish gates (MazeRumble/MapManager.swift, createGates): five gates along the top of the
 * world, spread evenly over the middle 80% of its width.
 */
module Maps {
  import opened Geometry
  import opened GameConfig

  /** The x position of gate i in a world `width` wide. */
  function GateX(width: real, i: int): real
  {
    var usableWidth := width * 0.8;
    var startX := (width - usableWidth) / 2.0;
    startX + (i as real) * (usableWidth / ((GateCount - 1) as real))
  }

  /** Every gate sits one gate height below the top of the world. */
  function GateY(height: real): real
  {
    height - GateHeight
  }

  /** The gate centres that createGates leaves, in creation order. */
  function GateLayout(width: real, height: real): seq<Vec>
  {
    seq(GateCount, i => Vec(GateX(width, i), GateY(height)))
  }

  /**
   * There are exactly five gates, all at height H - 80; gate i is at 0.1W + 0.2W·i, so gate 0
   * is at 0.1W and gate 4 at 0.9W.
   */
  lemma GateLayoutShape(width: real, height: real)
    ensures |GateLayout(width, height)| == 5
    ensures forall i :: 0 <= i < 5 ==> GateLayout(width, height)[i].y == height - 80.0
    ensures forall i :: 0 <= i < 5 ==> GateLayout(width, height)[i].x == 0.1 * width + (i as real) * (0.2 * width)
    ensures GateLayout(width, height)[0].x == 0.1 * width
    ensures GateLayout(width, height)[4].x == 0.9 * width
  {
  }

  /**
   * Neighbouring gates are 0.2W apart, so in a world of positive width the gates run strictly
   * left to right.
   */
  lemma {:induction false} GatesEvenlySpaced(width: real, height: real)
    ensures forall i :: 0 <= i < 4 ==> GateLayout(width, height)[i + 1].x - GateLayout(width, height)[i].x == 0.2 * width
    ensures width > 0.0 ==> forall i, j :: 0 <= i < j < 5 ==> GateLayout(width, height)[i].x < GateLayout(width, height)[j].x
  {
    GateLayoutShape(width, height);
    if width > 0.0 {
      forall i, j | 0 <= i < j < 5
        ensures GateLayout(width, height)[i].x < GateLayout(width, height)[j].x
      {
        PositiveProduct((j - i) as real, 0.2 * width);
        assert GateLayout(width, height)[j].x - GateLayout(width, height)[i].x == ((j - i) as real) * (0.2 * width);
      }
    }
  }

  class MapManager {
    const worldWidth: real
    const worldHeight: real
    var gates: seq<Vec>

    constructor(worldWidth: real, worldHeight: real)
      ensures this.worldWidth == worldWidth && this.worldHeight == worldHeight && gates == []
    {
      this.worldWidth := worldWidth;
      this.worldHeight := worldHeight;
      gates := [];
    }

    /**
     * Clears the old gates and builds the five new ones; calling it again rebuilds the same five
     * rather than adding more.
     */
    method CreateGates()
      modifies this`gates
      ensures gates == GateLayout(worldWidth, worldHeight)
      ensures |gates| == GateCount
    {
      gates := [];
      var usableWidth := worldWidth * 0.8;
      var startX := (worldWidth - usableWidth) / 2.0;
      var y := worldHeight - GateHeight;
      for i := 0 to GateCount
        invariant gates == GateLayout(worldWidth, worldHeight)[..i]
      {
        var x := startX + (i as real) * (usableWidth / ((GateCount - 1) as real));
        assert Vec(x, y) == GateLayout(worldWidth, worldHeight)[i];
        assert GateLayout(worldWidth, worldHeight)[..i + 1] == GateLayout(worldWidth, worldHeight)[..i] + [Vec(x, y)];
        gates := gates + [Vec(x, y)];
      }
    }
  }
}
