/** The sight ray: an integer walk from one position to another, with an error of at most half a cell. */
module SightLine {
  import opened Basics

  function Sign(v: int): int { if v < 0 then -1 else if v == 0 then 0 else 1 }

  /** A * x + B * y + C for the line through the destination. */
  function Residual(start: Pos, dest: Pos, x: int, y: int): int {
    var A := dest.y - start.y;
    var B := start.x - dest.x;
    var C := -(A * dest.x + B * dest.y);
    A * x + B * y + C
  }

  /** One round of the loop: the next cell of the ray. */
  function NextCell(start: Pos, dest: Pos, p: Pos): Pos {
    var mx := Sign(dest.x - start.x);
    var my := Sign(dest.y - start.y);
    var moveHor := Abs(Residual(start, dest, p.x + mx, p.y));
    var moveVer := Abs(Residual(start, dest, p.x, p.y + my));
    var moveCross := Abs(Residual(start, dest, p.x + mx, p.y + my));
    var y := if p.y != dest.y && (p.x == dest.x || moveHor > moveVer || moveHor > moveCross) then p.y + my else p.y;
    var x := if p.x != dest.x && (y == dest.y || moveVer > moveHor || moveVer > moveCross) then p.x + mx else p.x;
    Pos(x, y)
  }

  /** How many steps are left. */
  function Left(dest: Pos, p: Pos): nat { Max(Abs(dest.x - p.x), Abs(dest.y - p.y)) }

  predicate Between(a: int, v: int, b: int) { a <= v <= b || b <= v <= a }

  /** p lies between the ends of the ray and within half a cell of the line. */
  predicate NearLine(start: Pos, dest: Pos, p: Pos) {
    var A := dest.y - start.y;
    var B := start.x - dest.x;
    && Between(start.x, p.x, dest.x)
    && Between(start.y, p.y, dest.y)
    && 2 * Abs(A * (p.x - dest.x) + B * (p.y - dest.y)) <= Max(Abs(A), Abs(B))
  }

  // ---- the same in terms of what is left to go: b, a over the whole ray, rx, ry from p on

  /** The signed error. */
  function Error(a: nat, b: nat, rx: int, ry: int): int { b * ry - a * rx }

  lemma ErrorSteps(a: nat, b: nat, rx: int, ry: int)
    ensures Error(a, b, rx - 1, ry) == Error(a, b, rx, ry) + a
    ensures Error(a, b, rx, ry - 1) == Error(a, b, rx, ry) - b
    ensures Error(a, b, rx - 1, ry - 1) == Error(a, b, rx, ry) + a - b
  {
  }

  predicate Near(a: nat, b: nat, rx: nat, ry: nat) {
    rx <= b && ry <= a && 2 * Abs(Error(a, b, rx, ry)) <= Max(a, b)
  }

  lemma Monotone(x: int, y: int, z: nat)
    requires x <= y
    ensures x * z <= y * z && z * x <= z * y
  {
  }

  lemma OneMore(x: int, z: int)
    ensures z * (x + 1) == z * x + z
  {
  }

  lemma Overshoot(a: nat, b: nat, rx: nat, ry: nat)
    requires a <= b && rx < ry
    ensures Error(a, b, rx, ry) >= b
  {
    Monotone(rx + 1, ry, b);
    OneMore(rx, b);
    Monotone(a, b, rx);
  }

  lemma Undershoot(a: nat, b: nat, rx: nat, ry: nat)
    requires b <= a && ry < rx
    ensures Error(a, b, rx, ry) + a <= 0
  {
    Monotone(ry + 1, rx, a);
    OneMore(ry, a);
    Monotone(b, a, ry);
  }

  /** What is left along the longer side is the most that is left. */
  lemma LongerSide(a: nat, b: nat, rx: nat, ry: nat)
    requires 0 < a <= b && Near(a, b, rx, ry)
    ensures ry <= rx
    ensures a == b ==> rx == ry
  {
    if rx < ry {
      Overshoot(a, b, rx, ry);
    } else if a == b && ry < rx {
      Undershoot(a, b, rx, ry);
    }
  }

  lemma LongerSide'(a: nat, b: nat, rx: nat, ry: nat)
    requires 0 < b < a && Near(a, b, rx, ry)
    ensures rx <= ry
  {
    if ry < rx {
      Undershoot(a, b, rx, ry);
    }
  }

  predicate StepsY(a: nat, b: nat, rx: nat, ry: nat) {
    var e := Error(a, b, rx, ry);
    ry != 0 && (rx == 0 || Abs(e + a) > Abs(e - b) || Abs(e + a) > Abs(e + a - b))
  }

  predicate StepsX(a: nat, b: nat, rx: nat, ry: nat) {
    var e := Error(a, b, rx, ry);
    var ry' := if StepsY(a, b, rx, ry) then ry - 1 else ry;
    rx != 0 && (ry' == 0 || Abs(e - b) > Abs(e + a) || Abs(e - b) > Abs(e + a - b))
  }

  /** A step stays near the line and always makes headway along the longer side. */
  lemma StepStaysNear(a: nat, b: nat, rx: nat, ry: nat)
    requires 0 < a && 0 < b && Near(a, b, rx, ry) && (rx != 0 || ry != 0)
    ensures var rx' := if StepsX(a, b, rx, ry) then rx - 1 else rx;
      var ry' := if StepsY(a, b, rx, ry) then ry - 1 else ry;
      Near(a, b, rx', ry') && Max(rx', ry') == Max(rx, ry) - 1
  {
    ErrorSteps(a, b, rx, ry);
    if a <= b {
      StepAlongX(a, b, rx, ry);
    } else {
      StepAlongY(a, b, rx, ry);
    }
  }

  lemma StepAlongX(a: nat, b: nat, rx: nat, ry: nat)
    requires 0 < a <= b && Near(a, b, rx, ry) && (rx != 0 || ry != 0)
    ensures StepsX(a, b, rx, ry)
    ensures
      var ry' := if StepsY(a, b, rx, ry) then ry - 1 else ry;
      Near(a, b, rx - 1, ry') && Max(rx - 1, ry') == Max(rx, ry) - 1
  {
    ErrorSteps(a, b, rx, ry);
    LongerSide(a, b, rx, ry);
    var e := Error(a, b, rx, ry);
    var ry' := if StepsY(a, b, rx, ry) then ry - 1 else ry;
    if ry == 0 {
      Monotone(1, rx, a);
      assert e + a <= 0;
    }
    assert a == b ==> e == 0;
    assert StepsX(a, b, rx, ry);
    NearAlongX(a, b, e, ry == 0, StepsY(a, b, rx, ry));
    assert Near(a, b, rx - 1, ry');
    LongerSide(a, b, rx - 1, ry');
  }

  /** The arithmetic of one step, free of products. */
  lemma NearAlongX(a: nat, b: nat, e: int, done: bool, stepsY: bool)
    requires 0 < a <= b && 2 * Abs(e) <= b && (done ==> e + a <= 0)
    requires stepsY <==> !done && (Abs(e + a) > Abs(e - b) || Abs(e + a) > Abs(e + a - b))
    ensures 2 * Abs(if stepsY then e + a - b else e + a) <= b
  {
  }

  lemma StepAlongY(a: nat, b: nat, rx: nat, ry: nat)
    requires 0 < b < a && Near(a, b, rx, ry) && (rx != 0 || ry != 0)
    ensures StepsY(a, b, rx, ry)
    ensures
      var rx' := if StepsX(a, b, rx, ry) then rx - 1 else rx;
      Near(a, b, rx', ry - 1) && Max(rx', ry - 1) == Max(rx, ry) - 1
  {
    ErrorSteps(a, b, rx, ry);
    LongerSide'(a, b, rx, ry);
    var e := Error(a, b, rx, ry);
    var rx' := if StepsX(a, b, rx, ry) then rx - 1 else rx;
    if rx == 0 {
      Monotone(1, ry, b);
      assert e >= b;
    }
    assert StepsY(a, b, rx, ry);
    if ry == 1 && rx == 1 {
      assert e == b - a;
    }
    NearAlongY(a, b, e, rx == 0, ry == 1 && rx == 1, StepsX(a, b, rx, ry));
    assert Near(a, b, rx', ry - 1);
    LongerSide'(a, b, rx', ry - 1);
  }

  lemma NearAlongY(a: nat, b: nat, e: int, done: bool, last: bool, stepsX: bool)
    requires 0 < b < a && 2 * Abs(e) <= a && (done ==> e >= b) && (last ==> e == b - a)
    requires stepsX <==> !done && (last || Abs(e - b) > Abs(e + a) || Abs(e - b) > Abs(e + a - b))
    ensures 2 * Abs(if stepsX then e + a - b else e - b) <= a
  {
  }

  // ---- back to coordinates

  lemma Signed(s: int, v: int)
    requires s == 1 || s == -1
    ensures Abs(s * v) == Abs(v)
  {
  }

  /** The residual is the error, up to its sign. */
  lemma ResidualIsError(start: Pos, dest: Pos, rx: int, ry: int)
    ensures var mx, my := Sign(dest.x - start.x), Sign(dest.y - start.y);
      Residual(start, dest, dest.x - mx * rx, dest.y - my * ry)
      == mx * my * Error(Abs(dest.y - start.y), Abs(dest.x - start.x), rx, ry)
  {
    var mx, my := Sign(dest.x - start.x), Sign(dest.y - start.y);
    var a, b := Abs(dest.y - start.y), Abs(dest.x - start.x);
    assert dest.y - start.y == my * a && start.x - dest.x == -(mx * b);
    Relative(start, dest, mx * rx, my * ry);
    SignsOut(mx, my, a, b, rx, ry);
  }

  /** So they are equally large. */
  lemma ResidualAsLarge(start: Pos, dest: Pos, rx: int, ry: int)
    requires start.x != dest.x && start.y != dest.y
    ensures Abs(Residual(start, dest, dest.x - Sign(dest.x - start.x) * rx, dest.y - Sign(dest.y - start.y) * ry))
        == Abs(Error(Abs(dest.y - start.y), Abs(dest.x - start.x), rx, ry))
  {
    var mx, my := Sign(dest.x - start.x), Sign(dest.y - start.y);
    ResidualIsError(start, dest, rx, ry);
    assert mx * my == 1 || mx * my == -1;
    Signed(mx * my, Error(Abs(dest.y - start.y), Abs(dest.x - start.x), rx, ry));
  }

  /** The residual at a cell, from its distance to the end. */
  lemma Relative(start: Pos, dest: Pos, dx: int, dy: int)
    ensures Residual(start, dest, dest.x - dx, dest.y - dy) == -((dest.y - start.y) * dx) - (start.x - dest.x) * dy
  {
    var A, B := dest.y - start.y, start.x - dest.x;
    assert A * (dest.x - dx) == A * dest.x - A * dx;
    assert B * (dest.y - dy) == B * dest.y - B * dy;
  }

  lemma SignsOut(mx: int, my: int, a: nat, b: nat, rx: int, ry: int)
    requires -1 <= mx <= 1 && -1 <= my <= 1
    ensures -((my * a) * (mx * rx)) - (-(mx * b)) * (my * ry) == mx * my * Error(a, b, rx, ry)
  {
    if mx == 1 {
      if my == 1 {
      } else if my == 0 {
      } else {
      }
    } else if mx == 0 {
    } else {
      if my == 1 {
      } else if my == 0 {
      } else {
      }
    }
  }

  /** The cell from which rx and ry are left to go. */
  function CellAt(start: Pos, dest: Pos, rx: int, ry: int): Pos {
    Pos(dest.x - Sign(dest.x - start.x) * rx, dest.y - Sign(dest.y - start.y) * ry)
  }

  /** Every cell between the ends is such a cell. */
  lemma CellLeft(start: Pos, dest: Pos, p: Pos)
    requires Between(start.x, p.x, dest.x) && Between(start.y, p.y, dest.y)
    ensures p == CellAt(start, dest, Abs(dest.x - p.x), Abs(dest.y - p.y))
  {
  }

  lemma CellAtLeft(start: Pos, dest: Pos, rx: nat, ry: nat)
    requires rx <= Abs(dest.x - start.x) && ry <= Abs(dest.y - start.y)
    ensures var p := CellAt(start, dest, rx, ry);
      && Between(start.x, p.x, dest.x) && Between(start.y, p.y, dest.y)
      && Abs(dest.x - p.x) == rx && Abs(dest.y - p.y) == ry
  {
  }

  lemma NearLineIsNear(start: Pos, dest: Pos, p: Pos)
    requires start.x != dest.x && start.y != dest.y
    requires Between(start.x, p.x, dest.x) && Between(start.y, p.y, dest.y)
    ensures NearLine(start, dest, p) <==>
            Near(Abs(dest.y - start.y), Abs(dest.x - start.x), Abs(dest.x - p.x), Abs(dest.y - p.y))
  {
    CellLeft(start, dest, p);
    ResidualAsLarge(start, dest, Abs(dest.x - p.x), Abs(dest.y - p.y));
    FromTheEnd(start, dest, p);
  }

  lemma FromTheEnd(start: Pos, dest: Pos, p: Pos)
    ensures (dest.y - start.y) * (p.x - dest.x) + (start.x - dest.x) * (p.y - dest.y) == Residual(start, dest, p.x, p.y)
  {
    var A, B := dest.y - start.y, start.x - dest.x;
    assert A * (p.x - dest.x) == A * p.x - A * dest.x;
    assert B * (p.y - dest.y) == B * p.y - B * dest.y;
  }

  /** On a slanted ray the next cell is decided by the error alone. */
  lemma NextCellByError(start: Pos, dest: Pos, rx: nat, ry: nat)
    requires start.x != dest.x && start.y != dest.y
    ensures var a, b := Abs(dest.y - start.y), Abs(dest.x - start.x);
      NextCell(start, dest, CellAt(start, dest, rx, ry))
      == CellAt(start, dest, if StepsX(a, b, rx, ry) then rx - 1 else rx, if StepsY(a, b, rx, ry) then ry - 1 else ry)
  {
    var a, b := Abs(dest.y - start.y), Abs(dest.x - start.x);
    var mx, my := Sign(dest.x - start.x), Sign(dest.y - start.y);
    var p := CellAt(start, dest, rx, ry);
    ErrorSteps(a, b, rx, ry);
    ResidualAsLarge(start, dest, rx - 1, ry);
    ResidualAsLarge(start, dest, rx, ry - 1);
    ResidualAsLarge(start, dest, rx - 1, ry - 1);
    assert p.x + mx == dest.x - mx * (rx - 1) && p.y + my == dest.y - my * (ry - 1);
  }

  /** Each round takes exactly one step off what is left and stays near the line. */
  lemma NextCellStaysNear(start: Pos, dest: Pos, p: Pos)
    requires NearLine(start, dest, p) && p != dest
    ensures var q := NextCell(start, dest, p);
      && NearLine(start, dest, q)
      && Left(dest, q) == Left(dest, p) - 1
      && Abs(q.x - p.x) <= 1 && Abs(q.y - p.y) <= 1
  {
    if start.x == dest.x || start.y == dest.y {
      AxisStep(start, dest, p);
    } else {
      SlantedStep(start, dest, p);
    }
  }

  lemma SlantedStep(start: Pos, dest: Pos, p: Pos)
    requires start.x != dest.x && start.y != dest.y
    requires NearLine(start, dest, p) && p != dest
    ensures var q := NextCell(start, dest, p);
      && NearLine(start, dest, q)
      && Left(dest, q) == Left(dest, p) - 1
      && Abs(q.x - p.x) <= 1 && Abs(q.y - p.y) <= 1
  {
    var a, b := Abs(dest.y - start.y), Abs(dest.x - start.x);
    var rx, ry := Abs(dest.x - p.x), Abs(dest.y - p.y);
    NearLineIsNear(start, dest, p);
    CellLeft(start, dest, p);
    NextCellByError(start, dest, rx, ry);
    StepStaysNear(a, b, rx, ry);
    var rx' := if StepsX(a, b, rx, ry) then rx - 1 else rx;
    var ry' := if StepsY(a, b, rx, ry) then ry - 1 else ry;
    CellIsNear(start, dest, rx', ry');
  }

  lemma CellIsNear(start: Pos, dest: Pos, rx: nat, ry: nat)
    requires start.x != dest.x && start.y != dest.y
    requires rx <= Abs(dest.x - start.x) && ry <= Abs(dest.y - start.y)
    ensures var p := CellAt(start, dest, rx, ry);
      && (NearLine(start, dest, p) <==> Near(Abs(dest.y - start.y), Abs(dest.x - start.x), rx, ry))
      && Abs(dest.x - p.x) == rx && Abs(dest.y - p.y) == ry
  {
    CellAtLeft(start, dest, rx, ry);
    NearLineIsNear(start, dest, CellAt(start, dest, rx, ry));
  }

  /** On a ray along an axis every step goes straight on. */
  lemma AxisStep(start: Pos, dest: Pos, p: Pos)
    requires start.x == dest.x || start.y == dest.y
    requires NearLine(start, dest, p) && p != dest
    ensures var q := NextCell(start, dest, p);
      && NearLine(start, dest, q)
      && Left(dest, q) == Left(dest, p) - 1
      && Abs(q.x - p.x) <= 1 && Abs(q.y - p.y) <= 1
  {
    var A, B := dest.y - start.y, start.x - dest.x;
    var q := NextCell(start, dest, p);
    if start.x == dest.x {
      assert q == Pos(p.x, p.y + Sign(dest.y - start.y));
      assert A * (q.x - dest.x) == 0 && B * (q.y - dest.y) == 0;
    } else {
      assert q == Pos(p.x + Sign(dest.x - start.x), p.y);
      assert A * (q.x - dest.x) == 0 && B * (q.y - dest.y) == 0;
    }
  }

  /** The cells the ray visits after p. */
  function Ray(start: Pos, dest: Pos, p: Pos): seq<Pos>
    requires NearLine(start, dest, p)
    decreases Left(dest, p)
  {
    if p == dest then []
    else
      NextCellStaysNear(start, dest, p);
      var q := NextCell(start, dest, p);
      [q] + Ray(start, dest, q)
  }

  /** The i-th of n cells of a ray that goes on from p. */
  ghost predicate RayCell(start: Pos, dest: Pos, p: Pos, ray: seq<Pos>, i: int)
    requires 0 <= i < |ray|
  {
    var q := if i == 0 then p else ray[i-1];
    && NearLine(start, dest, ray[i])
    && Left(dest, ray[i]) == |ray| - 1 - i
    && Abs(ray[i].x - q.x) <= 1 && Abs(ray[i].y - q.y) <= 1
  }

  /** The ray takes exactly as many steps as the longer distance, goes from neighbour to neighbour,
      never leaves the half-cell strip and ends at the destination. */
  lemma {:induction false} RayOk(start: Pos, dest: Pos, p: Pos)
    requires NearLine(start, dest, p)
    ensures var ray := Ray(start, dest, p);
      && |ray| == Left(dest, p)
      && (forall i :: 0 <= i < |ray| ==> RayCell(start, dest, p, ray, i))
      && (ray != [] ==> ray[|ray|-1] == dest)
    decreases Left(dest, p)
  {
    if p != dest {
      var ray := Ray(start, dest, p);
      NextCellStaysNear(start, dest, p);
      var q := NextCell(start, dest, p);
      var rest := Ray(start, dest, q);
      assert ray == [q] + rest;
      RayOk(start, dest, q);
      forall i | 0 <= i < |ray|
        ensures RayCell(start, dest, p, ray, i)
      {
        if i > 0 {
          assert RayCell(start, dest, q, rest, i - 1) && ray[i] == rest[i-1];
        }
      }
    }
  }

  lemma StartIsNear(start: Pos, dest: Pos)
    ensures NearLine(start, dest, start)
  {
    var A, B := dest.y - start.y, start.x - dest.x;
    assert A * (start.x - dest.x) + B * (start.y - dest.y) == 0;
  }

  // ---- the sight check

  datatype Position = Position(x: int, y: int, z: int)

  /** What the check asks of the map: the tiles that stop projectiles and the tiles with anything on them. */
  datatype World = World(blocking: set<Position>, filled: set<Position>)

  function At(c: Pos, z: int): Position { Position(c.x, c.y, z) }

  function Flat(p: Position): Pos { Pos(p.x, p.y) }

  /** Nothing stops the ray on its floor, and the shaft under the destination is empty. */
  ghost predicate Clear(w: World, start: Position, dest: Position) {
    StartIsNear(Flat(start), Flat(dest));
    var ray := Ray(Flat(start), Flat(dest), Flat(start));
    && (forall i :: 0 <= i < |ray| ==> At(ray[i], start.z) !in w.blocking)
    && (forall z :: start.z <= z < dest.z ==> At(Flat(dest), z) !in w.filled)
  }

  /** The ray is cast from the lower floor, or from the first position if there is no lower one. */
  ghost predicate LineClear(w: World, fromPos: Position, toPos: Position) {
    || fromPos == toPos
    || if fromPos.z > toPos.z then Clear(w, toPos, fromPos) else Clear(w, fromPos, toPos)
  }

  method CheckSightLine(w: World, fromPos: Position, toPos: Position) returns (clear: bool)
    ensures clear <==> LineClear(w, fromPos, toPos)
  {
    if fromPos == toPos {
      return true;
    }
    var start := if fromPos.z > toPos.z then toPos else fromPos;
    var dest := if fromPos.z > toPos.z then fromPos else toPos;
    ghost var from, to := Flat(start), Flat(dest);
    StartIsNear(from, to);
    ghost var ray := Ray(from, to, from);
    ghost var i := 0;
    RayOk(from, to, from);
    var p := Flat(start);
    assert ray[0..] == ray;
    while p != Flat(dest)
      invariant NearLine(from, to, p) && 0 <= i <= |ray| && ray[i..] == Ray(from, to, p)
      invariant forall k :: 0 <= k < i ==> At(ray[k], start.z) !in w.blocking
      decreases Left(to, p)
    {
      NextCellStaysNear(from, to, p);
      p := NextCell(Flat(start), Flat(dest), p);
      assert ray[i] == ray[i..][0] == p && ray[i+1..] == ray[i..][1..];
      if At(p, start.z) in w.blocking {
        return false;
      }
      i := i + 1;
    }
    var z := start.z;
    while z != dest.z
      invariant start.z <= z <= dest.z
      invariant forall k :: start.z <= k < z ==> At(p, k) !in w.filled
      decreases dest.z - z
    {
      if At(p, z) in w.filled {
        return false;
      }
      z := z + 1;
    }
    return true;
  }

  method IsSightClear(w: World, fromPos: Position, toPos: Position, floorCheck: bool) returns (clear: bool)
    // between floors the second ray is the first one again: only on one floor are there two
    ensures fromPos.z != toPos.z ==> (clear <==> !floorCheck && LineClear(w, fromPos, toPos))
    ensures fromPos.z == toPos.z ==> (clear <==> LineClear(w, fromPos, toPos) || LineClear(w, toPos, fromPos))
  {
    if floorCheck && fromPos.z != toPos.z {
      return false;
    }
    clear := CheckSightLine(w, fromPos, toPos);
    if !clear {
      clear := CheckSightLine(w, toPos, fromPos);
    }
  }
}
