/** Row-major grids guarded against out-of-range coordinates.

    Perlin::Noise (a grid of doubles) and PPM::Image (a grid of colours)
    store their cells the same way: a vector of width * height cells, cell
    (x, y) at index y * width + x, a getter that answers a default value
    outside the grid, a setter that ignores coordinates outside the grid,
    and a resize that is std::vector::resize on the flat vector. This module
    states that storage once, as functions over sequences, with the lemmas
    the two classes need. */
module Grid {

  /** `unsigned short`: the type of every width, height and coordinate. */
  type U16 = n: int | 0 <= n < 0x1_0000

  /** Position of cell (x, y) in the flat vector of a grid of width w. */
  function Index(w: nat, x: nat, y: nat): nat
  {
    y * w + x
  }

  /** a <= b implies a * c <= b * c for non-negative c. */
  lemma MulMonotone(a: nat, b: nat, c: nat)
    requires a <= b
    ensures a * c <= b * c
  {
    assert b * c == a * c + (b - a) * c;
  }

  /** A cell inside the grid has an index inside the vector. With w and h
      below 2^16 the index also fits the 32-bit `unsigned int` the source
      computes it in, so the source's index arithmetic never wraps. */
  lemma IndexInBounds(w: nat, h: nat, x: nat, y: nat)
    requires x < w && y < h
    ensures Index(w, x, y) < w * h
    ensures w < 0x1_0000 && h < 0x1_0000 ==> Index(w, x, y) < 0x1_0000_0000
  {
    MulMonotone(y + 1, h, w);
    if w < 0x1_0000 && h < 0x1_0000 {
      MulMonotone(h, 0xFFFF, w);
      MulMonotone(w, 0xFFFF, 0xFFFF);
    }
  }

  /** Distinct cells of a grid occupy distinct positions. */
  lemma IndexInjective(w: nat, x1: nat, y1: nat, x2: nat, y2: nat)
    requires x1 < w && x2 < w
    requires Index(w, x1, y1) == Index(w, x2, y2)
    ensures x1 == x2 && y1 == y2
  {
    if y1 < y2 {
      MulMonotone(y1 + 1, y2, w);
      assert false;
    } else if y2 < y1 {
      MulMonotone(y2 + 1, y1, w);
      assert false;
    }
  }

  /** Every position of the vector is the index of exactly the cell
      (k % w, k / w). */
  lemma IndexOf(w: nat, h: nat, k: nat)
    requires k < w * h
    ensures w > 0 && k % w < w && k / w < h
    ensures Index(w, k % w, k / w) == k
  {
    if k / w >= h {
      MulMonotone(h, k / w, w);
      assert false;
    }
  }

  /** The guarded getter: `outside` for a cell out of the grid, the stored
      cell otherwise. */
  function At<T>(cells: seq<T>, w: nat, h: nat, x: nat, y: nat, outside: T): (r: T)
    requires |cells| == w * h
    ensures x >= w || y >= h ==> r == outside
    ensures x < w && y < h ==> Index(w, x, y) < |cells| && r == cells[Index(w, x, y)]
  {
    if x >= w || y >= h then outside
    else
      IndexInBounds(w, h, x, y);
      cells[Index(w, x, y)]
  }

  /** The guarded setter: nothing changes for a cell out of the grid. */
  function Put<T>(cells: seq<T>, w: nat, h: nat, x: nat, y: nat, v: T): (r: seq<T>)
    requires |cells| == w * h
    ensures |r| == |cells|
    ensures x >= w || y >= h ==> r == cells
    ensures x < w && y < h ==> Index(w, x, y) < |r| && r[Index(w, x, y)] == v
  {
    if x >= w || y >= h then cells
    else
      IndexInBounds(w, h, x, y);
      cells[Index(w, x, y) := v]
  }

  /** Reading back after a write: the written cell holds the new value
      when it is inside the grid, and every other cell is unchanged. */
  lemma AtPut<T>(cells: seq<T>, w: nat, h: nat, x: nat, y: nat, v: T, x': nat, y': nat, outside: T)
    requires |cells| == w * h
    ensures At(Put(cells, w, h, x, y, v), w, h, x', y', outside)
         == if x < w && y < h && x' == x && y' == y then v else At(cells, w, h, x', y', outside)
  {
    if x < w && y < h && x' < w && y' < h && (x' != x || y' != y) {
      if Index(w, x, y) == Index(w, x', y') {
        IndexInjective(w, x, y, x', y');
      }
    }
  }

  /** A write outside the grid changes nothing; a write inside changes the
      one position Index(w, x, y) and no other. */
  lemma PutChangesOneCell<T>(cells: seq<T>, w: nat, h: nat, x: nat, y: nat, v: T)
    requires |cells| == w * h
    ensures x >= w || y >= h ==> Put(cells, w, h, x, y, v) == cells
    ensures x < w && y < h ==>
      Index(w, x, y) < |cells| &&
      Put(cells, w, h, x, y, v)[Index(w, x, y)] == v &&
      forall k :: 0 <= k < |cells| && k != Index(w, x, y) ==> Put(cells, w, h, x, y, v)[k] == cells[k]
  {
    if x < w && y < h {
      IndexInBounds(w, h, x, y);
    }
  }

  /** std::vector::resize(n) with value-initialised new elements. */
  function Resized<T>(cells: seq<T>, n: nat, fill: T): (r: seq<T>)
    ensures |r| == n
    ensures forall k :: 0 <= k < n && k < |cells| ==> r[k] == cells[k]
    ensures forall k :: |cells| <= k < n ==> r[k] == fill
  {
    if n <= |cells| then cells[..n] else cells + seq(n - |cells|, _ => fill)
  }

  /** Two grids of the same shape are equal when they agree on every cell. */
  lemma Extensional<T>(a: seq<T>, b: seq<T>, w: nat, h: nat)
    requires |a| == w * h && |b| == w * h
    requires forall x: nat, y: nat :: x < w && y < h && Index(w, x, y) < |a| ==> a[Index(w, x, y)] == b[Index(w, x, y)]
    ensures a == b
  {
    forall k | 0 <= k < |a|
      ensures a[k] == b[k]
    {
      CellOf(a, b, w, h, k);
    }
  }

  lemma CellOf<T>(a: seq<T>, b: seq<T>, w: nat, h: nat, k: nat)
    requires |a| == w * h && |b| == w * h && k < |a|
    requires forall x: nat, y: nat :: x < w && y < h && Index(w, x, y) < |a| ==> a[Index(w, x, y)] == b[Index(w, x, y)]
    ensures a[k] == b[k]
  {
    IndexOf(w, h, k);
    var x: nat, y: nat := k % w, k / w;
    assert a[Index(w, x, y)] == b[Index(w, x, y)];
  }

  /** Resizing to the same width keeps every cell of the rows both sizes
      share: the source's comment that resizing does not preserve cell
      locations holds only when the width changes. */
  lemma ResizedSameWidth<T>(cells: seq<T>, w: nat, h: nat, h': nat, x: nat, y: nat, fill: T, outside: T)
    requires |cells| == w * h
    requires x < w && y < h && y < h'
    ensures At(Resized(cells, w * h', fill), w, h', x, y, outside) == At(cells, w, h, x, y, outside)
  {
    IndexInBounds(w, h, x, y);
    IndexInBounds(w, h', x, y);
  }
}
