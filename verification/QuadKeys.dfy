/** Arithmetic of the quadtree: which leaf the bits of a coordinate lead to. */
module QuadKeys {
  import opened Basics

  const FLOOR_BITS := 3
  const FLOOR_SIZE := 8
  const MAP_MAX_LAYERS := 16
  const UINT32 := 0x1_0000_0000

  /** Number of branchings between the root and a leaf: one for each of the bits 15 to FLOOR_BITS. */
  const DEPTH: nat := 16 - FLOOR_BITS

  /** Number of leaves along one side of the map. */
  const SIDE := 8192

  /** A place in the tree: the depth and the high bits of x and y that lead there. */
  datatype Key = Key(level: nat, x: nat, y: nat)

  function Root(): Key { Key(0, 0, 0) }

  function U32(v: int): nat { v % UINT32 }

  function Bit15(v: nat): nat { (v / 0x8000) % 2 }

  function Shl(v: nat): nat { (2 * v) % UINT32 }

  /** Which of the four children the top bits of x and y select. */
  function ChildIndex(x: nat, y: nat): nat { Bit15(x) + 2 * Bit15(y) }

  function ChildKey(k: Key, i: nat): Key { Key(k.level + 1, 2 * k.x + i % 2, 2 * k.y + i / 2 % 2) }

  function ParentKey(k: Key): Key
    requires k.level > 0
  {
    Key(k.level - 1, k.x / 2, k.y / 2)
  }

  /** The leaf the walk down from node k with the coordinates x and y arrives at. */
  function LeafKey(k: Key, x: nat, y: nat): (r: Key)
    requires k.level <= DEPTH
    ensures r.level == DEPTH
    decreases DEPTH - k.level
  {
    if k.level == DEPTH then k else LeafKey(ChildKey(k, ChildIndex(x, y)), Shl(x), Shl(y))
  }

  /** The leaf that covers a coordinate. */
  function LeafOf(x: int, y: int): Key { Key(DEPTH, x % 0x1_0000 / FLOOR_SIZE, y % 0x1_0000 / FLOOR_SIZE) }

  lemma ChildParent(k: Key, i: nat)
    requires i < 4
    ensures ParentKey(ChildKey(k, i)) == k
  {
  }

  lemma SiblingsDiffer(k: Key, i: nat, j: nat)
    requires i < 4 && j < 4 && i != j
    ensures ChildKey(k, i) != ChildKey(k, j)
  {
  }

  function Scale(v: nat, n: nat): nat { if n == 0 then v else 2 * Scale(v, n - 1) }

  lemma {:induction false} ScaleShift(v: nat, n: nat)
    ensures Scale(2 * v, n) == Scale(v, n + 1)
  {
    if n > 0 {
      ScaleShift(v, n - 1);
    }
  }

  /** What one step does to the bits already looked at and to those left. */
  lemma ShlStep(v: nat, prefix: nat)
    requires v < UINT32
    ensures 0x1_0000 * (2 * prefix + Bit15(v)) + Shl(v) % 0x1_0000 == 2 * (0x1_0000 * prefix + v % 0x1_0000)
  {
    var q, r := v / 0x1_0000, v % 0x1_0000;
    TopBit(q, r);
    LowerBits(q, r);
  }

  lemma TopBit(q: nat, r: nat)
    requires r < 0x1_0000
    ensures Bit15(0x1_0000 * q + r) == if r < 0x8000 then 0 else 1
  {
    assert (0x1_0000 * q + r) / 0x8000 == 2 * q + if r < 0x8000 then 0 else 1;
  }

  lemma LowerBits(q: nat, r: nat)
    requires r < 0x1_0000 && q < 0x1_0000
    ensures Shl(0x1_0000 * q + r) % 0x1_0000 == if r < 0x8000 then 2 * r else 2 * r - 0x1_0000
  {
    var v := 0x1_0000 * q + r;
    assert Shl(v) == if 2 * v < UINT32 then 2 * v else 2 * v - UINT32;
    var q' := (if 2 * v < UINT32 then 2 * q else 2 * q - 0x1_0000) + (if r < 0x8000 then 0 else 1);
    var r' := if r < 0x8000 then 2 * r else 2 * r - 0x1_0000;
    LowHalf(Shl(v), q', r');
  }

  lemma LowHalf(x: nat, q: nat, r: nat)
    requires x == 0x1_0000 * q + r && r < 0x1_0000
    ensures x % 0x1_0000 == r
  {
  }

  /** The prefix of one coordinate after n steps. */
  function Bits(prefix: nat, v: nat, n: nat): nat
    decreases n
  {
    if n == 0 then prefix else Bits(2 * prefix + Bit15(v), Shl(v), n - 1)
  }

  /** n steps move n bits from the coordinate to the prefix. */
  lemma {:induction false} BitsMoved(prefix: nat, v: nat, n: nat)
    requires v < UINT32
    ensures 0x1_0000 * Bits(prefix, v, n) <= Scale(0x1_0000 * prefix + v % 0x1_0000, n)
                                          < 0x1_0000 * Bits(prefix, v, n) + 0x1_0000
    decreases n
  {
    if n > 0 {
      ShlStep(v, prefix);
      BitsMoved(2 * prefix + Bit15(v), Shl(v), n - 1);
      ScaleShift(0x1_0000 * prefix + v % 0x1_0000, n - 1);
    }
  }

  lemma ScaleThree(v: nat, n: nat)
    ensures Scale(v, n + 3) == 8 * Scale(v, n)
  {
    assert Scale(v, n + 3) == 2 * Scale(v, n + 2) == 4 * Scale(v, n + 1);
  }

  lemma {:induction false} ScaleDepth(v: nat)
    ensures Scale(v, 13) == SIDE * v
  {
    ScaleThree(v, 10);
    ScaleThree(v, 7);
    ScaleThree(v, 4);
    ScaleThree(v, 1);
  }

  lemma {:induction false} BitsOfCoordinate(v: nat)
    requires v < UINT32
    ensures Bits(0, v, 13) == v % 0x1_0000 / FLOOR_SIZE
  {
    BitsMoved(0, v, 13);
    ScaleDepth(v % 0x1_0000);
  }

  lemma ChildBits(k: Key, x: nat, y: nat)
    ensures ChildKey(k, ChildIndex(x, y)) == Key(k.level + 1, 2 * k.x + Bit15(x), 2 * k.y + Bit15(y))
  {
  }

  lemma {:induction false} LeafKeyBits(k: Key, x: nat, y: nat)
    requires k.level <= DEPTH
    ensures LeafKey(k, x, y) == Key(DEPTH, Bits(k.x, x, DEPTH - k.level), Bits(k.y, y, DEPTH - k.level))
    decreases DEPTH - k.level
  {
    if k.level < DEPTH {
      var child := ChildKey(k, ChildIndex(x, y));
      ChildBits(k, x, y);
      assert child.level == k.level + 1 && child.x == 2 * k.x + Bit15(x) && child.y == 2 * k.y + Bit15(y);
      LeafKeyBits(child, Shl(x), Shl(y));
      assert LeafKey(k, x, y) == LeafKey(child, Shl(x), Shl(y));
      assert Bits(k.x, x, DEPTH - k.level) == Bits(child.x, Shl(x), DEPTH - child.level);
      assert Bits(k.y, y, DEPTH - k.level) == Bits(child.y, Shl(y), DEPTH - child.level);
    }
  }

  /** From the root the walk arrives at the leaf that covers the coordinate. */
  lemma {:induction false} LeafKeyFromRoot(x: nat, y: nat)
    requires x < UINT32 && y < UINT32
    ensures LeafKey(Root(), x, y) == LeafOf(x, y)
  {
    LeafKeyBits(Root(), x, y);
    assert LeafKey(Root(), x, y) == Key(DEPTH, Bits(0, x, 13), Bits(0, y, 13));
    BitsOfCoordinate(x);
    BitsOfCoordinate(y);
  }

  lemma LeafOfPlain(x: nat, y: nat)
    requires x < 0x1_0000 && y < 0x1_0000
    ensures LeafOf(x, y) == Key(DEPTH, x / FLOOR_SIZE, y / FLOOR_SIZE)
  {
  }

  /** Two coordinates share a leaf exactly when they agree above the lowest FLOOR_BITS bits. */
  lemma {:induction false} SameLeaf(x: nat, y: nat, x': nat, y': nat)
    requires x < 0x1_0000 && y < 0x1_0000 && x' < 0x1_0000 && y' < 0x1_0000
    ensures LeafKey(Root(), x, y) == LeafKey(Root(), x', y') <==>
            x / FLOOR_SIZE == x' / FLOOR_SIZE && y / FLOOR_SIZE == y' / FLOOR_SIZE
  {
    LeafKeyFromRoot(x, y);
    LeafKeyFromRoot(x', y');
    LeafOfPlain(x, y);
    LeafOfPlain(x', y');
  }

  /** The leaves around the one of (x, y), reached with the sums the code forms, wrap at 65536. */
  function NorthOf(k: Key): Key { Key(DEPTH, k.x, (k.y + SIDE - 1) % SIDE) }
  function SouthOf(k: Key): Key { Key(DEPTH, k.x, (k.y + 1) % SIDE) }
  function WestOf(k: Key): Key { Key(DEPTH, (k.x + SIDE - 1) % SIDE, k.y) }
  function EastOf(k: Key): Key { Key(DEPTH, (k.x + 1) % SIDE, k.y) }

  /** One leaf up or down along one coordinate, as the code computes it in 32 bits. */
  lemma StepBack(v: nat)
    requires v < 0x1_0000
    ensures U32(v - FLOOR_SIZE) % 0x1_0000 / FLOOR_SIZE == (v / FLOOR_SIZE + SIDE - 1) % SIDE
  {
    if v < FLOOR_SIZE {
      assert U32(v - FLOOR_SIZE) == UINT32 + v - FLOOR_SIZE;
      assert (UINT32 + v - FLOOR_SIZE) % 0x1_0000 == 0x1_0000 + v - FLOOR_SIZE;
    } else {
      assert U32(v - FLOOR_SIZE) == v - FLOOR_SIZE;
      assert (v / FLOOR_SIZE - 1 + SIDE) % SIDE == v / FLOOR_SIZE - 1;
    }
  }

  lemma StepForward(v: nat)
    requires v < 0x1_0000
    ensures U32(v + FLOOR_SIZE) % 0x1_0000 / FLOOR_SIZE == (v / FLOOR_SIZE + 1) % SIDE
  {
    assert U32(v + FLOOR_SIZE) == v + FLOOR_SIZE;
    if v + FLOOR_SIZE >= 0x1_0000 {
      assert (v + FLOOR_SIZE) % 0x1_0000 == v + FLOOR_SIZE - 0x1_0000;
    }
  }

  lemma StepNone(v: nat)
    requires v < 0x1_0000
    ensures U32(v) % 0x1_0000 / FLOOR_SIZE == v % 0x1_0000 / FLOOR_SIZE == v / FLOOR_SIZE
  {
  }

  lemma Neighbours(x: nat, y: nat)
    requires x < 0x1_0000 && y < 0x1_0000
    ensures LeafOf(U32(x), U32(y - FLOOR_SIZE)) == NorthOf(LeafOf(x, y))
    ensures LeafOf(U32(x), U32(y + FLOOR_SIZE)) == SouthOf(LeafOf(x, y))
    ensures LeafOf(U32(x - FLOOR_SIZE), U32(y)) == WestOf(LeafOf(x, y))
    ensures LeafOf(U32(x + FLOOR_SIZE), U32(y)) == EastOf(LeafOf(x, y))
  {
    StepBack(x);
    StepBack(y);
    StepForward(x);
    StepForward(y);
    StepNone(x);
    StepNone(y);
  }
}
