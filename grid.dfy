/** The row-major numbering of a width x depth grid that the vertex fill, the
    triangle fill and the noise scan all share: cell (x, z) is number z*width + x. */
module Grid {

  function Index(width: int, x: int, z: int): int
  {
    z * width + x
  }

  /** A cell inside the grid gets a number inside [0, width*depth), from which
      its coordinates are recovered by % and /. */
  lemma IndexOfCell(width: int, depth: int, x: int, z: int)
    requires 0 <= x < width && 0 <= z < depth
    ensures 0 <= Index(width, x, z) < width * depth
    ensures Index(width, x, z) % width == x && Index(width, x, z) / width == z
  {
    var k := Index(width, x, z);
    assert z * width <= (depth - 1) * width by {
      MulMonotone(z, depth - 1, width);
    }
    var q, r := k / width, k % width;
    assert k == q * width + r && 0 <= r < width;
    assert (q - z) * width == x - r;
    if q > z {
      MulMonotone(1, q - z, width);
      assert false;
    } else if q < z {
      MulMonotone(1, z - q, width);
      assert false;
    }
  }

  /** Every number in [0, width*depth) is the number of exactly the cell (k % width, k / width). */
  lemma CellOfIndex(width: int, depth: int, k: int)
    requires 0 <= width && 0 <= depth && 0 <= k < width * depth
    ensures 0 < width
    ensures 0 <= k % width < width && 0 <= k / width < depth
    ensures Index(width, k % width, k / width) == k
  {
    var q := k / width;
    if q >= depth {
      MulMonotone(depth, q, width);
      assert false;
    }
  }

  /** Distinct cells get distinct numbers. */
  lemma IndexInjective(width: int, depth: int)
    ensures forall x1, z1, x2, z2 ::
      (0 <= x1 < width && 0 <= z1 < depth && 0 <= x2 < width && 0 <= z2 < depth &&
       Index(width, x1, z1) == Index(width, x2, z2)) ==> x1 == x2 && z1 == z2
  {
    forall x1, z1, x2, z2 |
      0 <= x1 < width && 0 <= z1 < depth && 0 <= x2 < width && 0 <= z2 < depth &&
      Index(width, x1, z1) == Index(width, x2, z2)
      ensures x1 == x2 && z1 == z2
    {
      IndexOfCell(width, depth, x1, z1);
      IndexOfCell(width, depth, x2, z2);
    }
  }

  /** All cells of the grid are numbered inside [0, width*depth). */
  lemma IndexInRange(width: int, depth: int)
    ensures forall x, z :: 0 <= x < width && 0 <= z < depth ==> 0 <= Index(width, x, z) < width * depth
  {
    forall x, z | 0 <= x < width && 0 <= z < depth
      ensures 0 <= Index(width, x, z) < width * depth
    {
      IndexOfCell(width, depth, x, z);
    }
  }

  /** The cell after the end of row z is the start of row z + 1. */
  lemma RowEnd(width: int, z: int)
    ensures Index(width, width, z) == Index(width, 0, z + 1)
  {
  }

  lemma MulMonotone(a: int, b: int, c: int)
    requires a <= b && 0 <= c
    ensures a * c <= b * c
  {
    assert b * c - a * c == (b - a) * c;
  }
}
