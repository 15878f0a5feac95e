/**
 * The VRAM allocator: it places converted textures and their CLUTs in the
 * 1024 x 512-cell video memory, avoiding one or two framebuffers and every
 * rectangle already packed, by a row-major first-fit scan.
 *
 * The scans read a snapshot (`order`, `mats`) of the material dictionary;
 * the packing operations update the shared `MatStore`.
 */
module VramPacker {
  import opened Material

  // ---------------------------------------------------------------------
  // Geometry: half-open rectangles [x, x + w) x [y, y + h)
  // ---------------------------------------------------------------------

  /** `boxInside`: the box lies within the bin. */
  predicate BoxInside(xBox: int, yBox: int, wBox: int, hBox: int, xBin: int, yBin: int, wBin: int, hBin: int)
  {
    xBox >= xBin && yBox >= yBin && xBox + wBox <= xBin + wBin && yBox + hBox <= yBin + hBin
  }

  /** `boxCollision`: the boxes are separated neither horizontally nor vertically. */
  predicate BoxCollision(xBox: int, yBox: int, wBox: int, hBox: int, xBin: int, yBin: int, wBin: int, hBin: int)
  {
    if xBox + wBox <= xBin || xBin + wBin <= xBox then false
    else if yBox + hBox <= yBin || yBin + hBin <= yBox then false
    else true
  }

  /** Cell (px, py) lies in the half-open rectangle at (x, y) of size w x h. */
  ghost predicate CellIn(px: int, py: int, x: int, y: int, w: int, h: int)
  {
    x <= px < x + w && y <= py < y + h
  }

  lemma BoxCollisionSymmetric(xA: int, yA: int, wA: int, hA: int, xB: int, yB: int, wB: int, hB: int)
    ensures BoxCollision(xA, yA, wA, hA, xB, yB, wB, hB) == BoxCollision(xB, yB, wB, hB, xA, yA, wA, hA)
  {
  }

  /** Rectangles that only share an edge do not collide. */
  lemma SharedEdgeNoCollision(xA: int, yA: int, wA: int, hA: int, xB: int, yB: int, wB: int, hB: int)
    requires xA + wA == xB || yA + hA == yB
    ensures !BoxCollision(xA, yA, wA, hA, xB, yB, wB, hB)
  {
  }

  /** For non-empty boxes, a collision is exactly a shared cell. */
  lemma BoxCollisionIsSharedCell(xA: int, yA: int, wA: int, hA: int, xB: int, yB: int, wB: int, hB: int)
    requires wA > 0 && hA > 0 && wB > 0 && hB > 0
    ensures BoxCollision(xA, yA, wA, hA, xB, yB, wB, hB) <==>
            exists px, py :: CellIn(px, py, xA, yA, wA, hA) && CellIn(px, py, xB, yB, wB, hB)
  {
    if BoxCollision(xA, yA, wA, hA, xB, yB, wB, hB) {
      var px := if xA < xB then xB else xA;
      var py := if yA < yB then yB else yA;
      assert CellIn(px, py, xA, yA, wA, hA) && CellIn(px, py, xB, yB, wB, hB);
    }
  }

  /** For a non-empty box, lying inside is exactly every cell of the box lying in the bin. */
  lemma BoxInsideIsCellwise(xBox: int, yBox: int, wBox: int, hBox: int, xBin: int, yBin: int, wBin: int, hBin: int)
    requires wBox > 0 && hBox > 0
    ensures BoxInside(xBox, yBox, wBox, hBox, xBin, yBin, wBin, hBin) <==>
            forall px, py :: CellIn(px, py, xBox, yBox, wBox, hBox) ==> CellIn(px, py, xBin, yBin, wBin, hBin)
  {
    if forall px, py :: CellIn(px, py, xBox, yBox, wBox, hBox) ==> CellIn(px, py, xBin, yBin, wBin, hBin) {
      assert CellIn(xBox, yBox, xBin, yBin, wBin, hBin);
      assert CellIn(xBox + wBox - 1, yBox + hBox - 1, xBin, yBin, wBin, hBin);
    }
  }

  datatype Rect = Rect(x: int, y: int, w: int, h: int)

  /** The candidate box `a` collides with the obstacle `b` (argument order as `boxCollision` is called). */
  predicate Hits(a: Rect, b: Rect)
  {
    BoxCollision(a.x, a.y, a.w, a.h, b.x, b.y, b.w, b.h)
  }

  /** The candidate box collides with some obstacle. */
  predicate HitsAny(obs: seq<Rect>, b: Rect)
  {
    exists i :: 0 <= i < |obs| && Hits(b, obs[i])
  }

  /** `i` is the first obstacle the candidate box collides with. */
  ghost predicate FirstHit(obs: seq<Rect>, b: Rect, i: int)
  {
    0 <= i < |obs| && Hits(b, obs[i]) && forall j :: 0 <= j < i ==> !Hits(b, obs[j])
  }

  /** `e` is the right edge of the first obstacle the candidate box collides with. */
  ghost predicate FirstHitEdge(obs: seq<Rect>, b: Rect, e: int)
  {
    exists i :: FirstHit(obs, b, i) && e == obs[i].x + obs[i].w
  }

  /** No two rectangles of the sequence (framebuffers included) overlap. */
  ghost predicate Separated(rs: seq<Rect>)
  {
    forall i, j :: 0 <= i < j < |rs| ==> !Hits(rs[i], rs[j])
  }

  // ---------------------------------------------------------------------
  // What a scan collides with
  // ---------------------------------------------------------------------

  /**
   * The framebuffer settings of the packer tab: one size, a first position
   * and, when double buffering is on, a second position.
   */
  datatype FrameBuffers = FrameBuffers(width: int, height: int, x1: int, y1: int, double: bool, x2: int, y2: int)

  function FrameRects(fb: FrameBuffers): (rs: seq<Rect>)
    ensures |rs| == if fb.double then 2 else 1
  {
    [Rect(fb.x1, fb.y1, fb.width, fb.height)] + if fb.double then [Rect(fb.x2, fb.y2, fb.width, fb.height)] else []
  }

  /** Every key of the snapshot's order names a record the packer can read. */
  ghost predicate AllPackable(order: seq<string>, mats: map<string, Mat>)
  {
    forall k :: k in order ==> k in mats && Packable(mats[k])
  }

  function CellRect(m: Mat): Rect
    requires m.texture.Some?
  {
    Rect(m.xPos, m.yPos, m.texture.value.tpXSize, m.texture.value.ySize)
  }

  function ClutRect(m: Mat): Rect
    requires HasClut(m) && m.texture.value.colorMode != Direct15
  {
    Rect(m.xPosCLUT, m.yPosCLUT, ColorCount(m.texture.value.colorMode), 1)
  }

  /*
   * The rectangle functions below are total: their guards beyond `packed`
   * and `packedCLUT`, and the key test in `RectsIn`, always hold of a
   * dictionary that satisfies `AllPackable`, which every packer operation
   * requires and keeps.
   */

  /** The packed texture rectangle of one record, if it is packed. */
  function CellRects(m: Mat): seq<Rect>
  {
    if m.packed && m.texture.Some? then [CellRect(m)] else []
  }

  /** The packed CLUT rectangle of one record, if it is packed. */
  function ClutRects(m: Mat): seq<Rect>
  {
    if m.packedCLUT && HasClut(m) && m.texture.value.colorMode != Direct15 then [ClutRect(m)] else []
  }

  /** The packed texture rectangle, then the packed CLUT rectangle, of one record. */
  function MatRects(m: Mat): seq<Rect>
  {
    CellRects(m) + ClutRects(m)
  }

  /** The packed rectangles of the records `order[lo..hi)`, in dictionary order. */
  function RectsIn(order: seq<string>, mats: map<string, Mat>, lo: nat, hi: nat): seq<Rect>
    requires lo <= hi <= |order|
    decreases hi
  {
    if lo == hi then []
    else RectsIn(order, mats, lo, hi - 1) + (if order[hi - 1] in mats then MatRects(mats[order[hi - 1]]) else [])
  }

  /** Everything `anyCollisions` tests, in the order it tests them. */
  function Obstacles(fb: FrameBuffers, order: seq<string>, mats: map<string, Mat>): seq<Rect>
  {
    FrameRects(fb) + RectsIn(order, mats, 0, |order|)
  }

  lemma {:induction false} RectsInSplit(order: seq<string>, mats: map<string, Mat>, lo: nat, mid: nat, hi: nat)
    requires lo <= mid <= hi <= |order|
    ensures RectsIn(order, mats, lo, hi) == RectsIn(order, mats, lo, mid) + RectsIn(order, mats, mid, hi)
    decreases hi
  {
    if mid == hi {
      assert RectsIn(order, mats, mid, hi) == [];
    } else {
      RectsInSplit(order, mats, lo, mid, hi - 1);
      var last := if order[hi - 1] in mats then MatRects(mats[order[hi - 1]]) else [];
      assert RectsIn(order, mats, lo, hi) == RectsIn(order, mats, lo, hi - 1) + last;
      assert RectsIn(order, mats, mid, hi) == RectsIn(order, mats, mid, hi - 1) + last;
      Regroup3(RectsIn(order, mats, lo, mid), RectsIn(order, mats, mid, hi - 1), last);
    }
  }

  /** Replacing the record under a key outside `order[lo..hi)` leaves their rectangles alone. */
  lemma {:induction false} RectsInFrame(order: seq<string>, mats: map<string, Mat>, key: string, m: Mat, lo: nat, hi: nat)
    requires lo <= hi <= |order|
    requires forall j :: lo <= j < hi ==> order[j] != key
    ensures RectsIn(order, mats[key := m], lo, hi) == RectsIn(order, mats, lo, hi)
    decreases hi
  {
    if lo < hi {
      RectsInFrame(order, mats, key, m, lo, hi - 1);
      assert order[hi - 1] != key;
    }
  }

  // ---------------------------------------------------------------------
  // anyCollisions
  // ---------------------------------------------------------------------

  /**
   * `anyCollisions`: tests the box against framebuffer 1, framebuffer 2 when
   * double buffering is on, then each record's packed texture and packed CLUT
   * in dictionary order; reports the first hit and its right edge.
   */
  method AnyCollisions(fb: FrameBuffers, order: seq<string>, mats: map<string, Mat>, x: int, y: int, w: int, h: int)
    returns (collides: bool, nextXPos: int)
    requires AllPackable(order, mats)
    ensures collides <==> HitsAny(Obstacles(fb, order, mats), Rect(x, y, w, h))
    ensures collides ==> FirstHitEdge(Obstacles(fb, order, mats), Rect(x, y, w, h), nextXPos)
    ensures !collides ==> nextXPos == 0
  {
    ghost var obs := Obstacles(fb, order, mats);
    ghost var b := Rect(x, y, w, h);
    if BoxCollision(x, y, w, h, fb.x1, fb.y1, fb.width, fb.height) {
      assert FirstHit(obs, b, 0);
      assert FirstHitEdge(obs, b, fb.x1 + fb.width);
      return true, fb.x1 + fb.width;
    }
    if fb.double {
      if BoxCollision(x, y, w, h, fb.x2, fb.y2, fb.width, fb.height) {
        assert FirstHit(obs, b, 1);
        assert FirstHitEdge(obs, b, fb.x2 + fb.width);
        return true, fb.x2 + fb.width;
      }
    }
    ghost var rs := RectsIn(order, mats, 0, |order|);
    var hit, k, nextX := StoreCollision(order, mats, x, y, w, h);
    if hit {
      FirstHitAfter(obs, b, FrameRects(fb), rs, [], k);
      assert FirstHitEdge(obs, b, nextX);
      return true, nextX;
    }
    NoHitExtended(FrameRects(fb), rs, b);
    return false, 0;
  }

  /** The loop of `anyCollisions` over the records, in dictionary order. */
  method StoreCollision(order: seq<string>, mats: map<string, Mat>, x: int, y: int, w: int, h: int)
    returns (hit: bool, k: nat, nextXPos: int)
    requires AllPackable(order, mats)
    ensures hit ==> FirstHit(RectsIn(order, mats, 0, |order|), Rect(x, y, w, h), k) &&
                    nextXPos == RectsIn(order, mats, 0, |order|)[k].x + RectsIn(order, mats, 0, |order|)[k].w
    ensures !hit ==> forall j :: 0 <= j < |RectsIn(order, mats, 0, |order|)| ==> !Hits(Rect(x, y, w, h), RectsIn(order, mats, 0, |order|)[j])
  {
    ghost var b := Rect(x, y, w, h);
    ghost var rs := RectsIn(order, mats, 0, |order|);
    var i, seen := 0, 0;
    while i < |order|
      invariant 0 <= i <= |order| && seen == |RectsIn(order, mats, 0, i)|
      invariant !HitsAny(RectsIn(order, mats, 0, i), b)
    {
      assert order[i] in order;
      var m := mats[order[i]];
      ghost var done := RectsIn(order, mats, 0, i);
      ghost var more := MatRects(m);
      RectsInNext(order, mats, i);
      var hitHere, j, nextX := RecordCollision(m, x, y, w, h);
      if hitHere {
        RectsInSplit(order, mats, 0, i + 1, |order|);
        FirstHitAfter(rs, b, done, more, RectsIn(order, mats, i + 1, |order|), j);
        return true, seen + j, nextX;
      }
      NoHitExtended(done, more, b);
      i, seen := i + 1, seen + |MatRects(m)|;
    }
    return false, 0, 0;
  }

  lemma RectsInNext(order: seq<string>, mats: map<string, Mat>, i: nat)
    requires i < |order| && order[i] in mats
    ensures RectsIn(order, mats, 0, i + 1) == RectsIn(order, mats, 0, i) + MatRects(mats[order[i]])
  {
  }

  /** The body of `anyCollisions`' loop for one record: its packed texture, then its packed CLUT. */
  method RecordCollision(m: Mat, x: int, y: int, w: int, h: int) returns (hit: bool, k: nat, nextXPos: int)
    requires Packable(m)
    ensures hit ==> k < |MatRects(m)| && Hits(Rect(x, y, w, h), MatRects(m)[k]) &&
                    (forall j :: 0 <= j < k ==> !Hits(Rect(x, y, w, h), MatRects(m)[j])) &&
                    nextXPos == MatRects(m)[k].x + MatRects(m)[k].w
    ensures !hit ==> forall j :: 0 <= j < |MatRects(m)| ==> !Hits(Rect(x, y, w, h), MatRects(m)[j])
  {
    if m.packed {
      var t := m.texture.value;
      if BoxCollision(x, y, w, h, m.xPos, m.yPos, t.tpXSize, t.ySize) {
        return true, 0, m.xPos + t.tpXSize;
      }
    }
    if m.packedCLUT {
      var colorCount := ColorCount(m.texture.value.colorMode);
      if BoxCollision(x, y, w, h, m.xPosCLUT, m.yPosCLUT, colorCount, 1) {
        return true, if m.packed then 1 else 0, m.xPosCLUT + colorCount;
      }
    }
    return false, 0, 0;
  }

  lemma FirstHitAfter(obs: seq<Rect>, b: Rect, done: seq<Rect>, more: seq<Rect>, rest: seq<Rect>, k: nat)
    requires obs == done + more + rest && k < |more| && !HitsAny(done, b)
    requires Hits(b, more[k]) && forall j :: 0 <= j < k ==> !Hits(b, more[j])
    ensures FirstHit(obs, b, |done| + k) && HitsAny(obs, b) && obs[|done| + k] == more[k]
  {
    forall j | 0 <= j < |done| + k ensures !Hits(b, obs[j]) {
      if j < |done| { assert obs[j] == done[j]; } else { assert obs[j] == more[j - |done|]; }
    }
  }

  lemma NoHitExtended(done: seq<Rect>, more: seq<Rect>, b: Rect)
    requires !HitsAny(done, b) && forall j :: 0 <= j < |more| ==> !Hits(b, more[j])
    ensures !HitsAny(done + more, b)
  {
    forall j | 0 <= j < |done + more| ensures !Hits(b, (done + more)[j]) {
      if j < |done| { assert (done + more)[j] == done[j]; } else { assert (done + more)[j] == more[j - |done|]; }
    }
  }

  // ---------------------------------------------------------------------
  // The first-fit scans
  // ---------------------------------------------------------------------

  /** What is being placed: a texture of `w` x `h` cells in pages `tpW` cells wide, or a CLUT. */
  datatype Request = TexReq(w: int, h: int, tpW: int) | ClutReq(colorCount: int)

  function StepX(q: Request): nat { if q.TexReq? then 8 else 16 }
  function StepY(q: Request): nat { if q.TexReq? then 8 else 1 }

  /** The candidate rectangle at (x, y). */
  function Footprint(q: Request, x: int, y: int): Rect
  {
    match q
    case TexReq(w, h, _) => Rect(x, y, w, h)
    case ClutReq(cc) => Rect(x, y, cc, 1)
  }

  /**
   * The bound a candidate must respect: a texture stays within the texture
   * page `[floor(x/64)*64, +tpW) x [floor(y/256)*256, +256)`, a CLUT within
   * the 1024 x 512 VRAM.
   */
  predicate InBounds(q: Request, x: int, y: int)
  {
    match q
    case TexReq(w, h, tpW) => BoxInside(x, y, w, h, (x / 64) * 64, (y / 256) * 256, tpW, 256)
    case ClutReq(cc) => BoxInside(x, y, cc, 1, 0, 0, 1024, 512)
  }

  /** A position the scan accepts. */
  predicate Fits(obs: seq<Rect>, q: Request, x: int, y: int)
  {
    InBounds(q, x, y) && !HitsAny(obs, Footprint(q, x, y))
  }

  /** The positions the scan visits. */
  ghost predicate OnGrid(q: Request, x: int, y: int)
  {
    0 <= x < 1024 && 0 <= y < 512 && x % StepX(q) == 0 && y % StepY(q) == 0
  }

  /** (x1, y1) comes before (x2, y2) in row-major order. */
  ghost predicate Before(x1: int, y1: int, x2: int, y2: int)
  {
    y1 < y2 || (y1 == y2 && x1 < x2)
  }

  /**
   * The scan as a reference definition: from (x, y), the first grid position
   * in row-major order that fits.
   */
  function Scan(obs: seq<Rect>, q: Request, x: nat, y: nat): Option<(nat, nat)>
    decreases 512 - y, 1024 - x
  {
    if y >= 512 then None
    else if x >= 1024 then Scan(obs, q, 0, y + StepY(q))
    else if Fits(obs, q, x, y) then Some((x, y))
    else Scan(obs, q, x + StepX(q), y)
  }

  /** No grid position from (x0, y0) up to, not including, (x1, y1) fits. */
  ghost predicate NoFitBetween(obs: seq<Rect>, q: Request, x0: int, y0: int, x1: int, y1: int)
  {
    forall x, y :: OnGrid(q, x, y) && !Before(x, y, x0, y0) && Before(x, y, x1, y1) ==> !Fits(obs, q, x, y)
  }

  /** No grid position from (x0, y0) on fits. */
  ghost predicate NoFitFrom(obs: seq<Rect>, q: Request, x0: int, y0: int)
  {
    forall x, y :: OnGrid(q, x, y) && !Before(x, y, x0, y0) ==> !Fits(obs, q, x, y)
  }

  lemma NextMultiple(q: Request, a: int, b: int, alongX: bool)
    requires a < b
    requires alongX ==> a % StepX(q) == 0 && b % StepX(q) == 0
    requires !alongX ==> a % StepY(q) == 0 && b % StepY(q) == 0
    ensures alongX ==> a + StepX(q) <= b
    ensures !alongX ==> a + StepY(q) <= b
  {
  }

  /** What a scan started at `(x0, y0)` promises about its result `r`. */
  ghost predicate ScanSound(obs: seq<Rect>, q: Request, x0: int, y0: int, r: Option<(nat, nat)>)
  {
    && (r.Some? ==>
          && OnGrid(q, r.value.0, r.value.1) && Fits(obs, q, r.value.0, r.value.1)
          && !Before(r.value.0, r.value.1, x0, y0) && NoFitBetween(obs, q, x0, y0, r.value.0, r.value.1))
    && (r.None? ==> NoFitFrom(obs, q, x0, y0))
  }

  lemma {:induction false} ScanFrom(obs: seq<Rect>, q: Request, x0: nat, y0: nat)
    requires x0 % StepX(q) == 0 && y0 % StepY(q) == 0
    ensures ScanSound(obs, q, x0, y0, Scan(obs, q, x0, y0))
    decreases 512 - y0, 1024 - x0
  {
    if y0 >= 512 {
      ScanPastBottom(obs, q, x0, y0);
    } else if x0 >= 1024 {
      ScanFrom(obs, q, 0, y0 + StepY(q));
      ScanRowEnd(obs, q, x0, y0);
    } else if Fits(obs, q, x0, y0) {
      ScanHit(obs, q, x0, y0);
    } else {
      ScanFrom(obs, q, x0 + StepX(q), y0);
      ScanMiss(obs, q, x0, y0);
    }
  }

  /** Below the last row the scan fails, and nothing is left to fit. */
  lemma ScanPastBottom(obs: seq<Rect>, q: Request, x0: nat, y0: nat)
    requires y0 >= 512
    ensures ScanSound(obs, q, x0, y0, Scan(obs, q, x0, y0))
  {
  }

  /** A position that fits is where the scan stops. */
  lemma ScanHit(obs: seq<Rect>, q: Request, x0: nat, y0: nat)
    requires y0 < 512 && x0 < 1024 && x0 % StepX(q) == 0 && y0 % StepY(q) == 0 && Fits(obs, q, x0, y0)
    ensures ScanSound(obs, q, x0, y0, Scan(obs, q, x0, y0))
  {
    assert Scan(obs, q, x0, y0) == Some((x0, y0));
    assert NoFitBetween(obs, q, x0, y0, x0, y0);
  }

  /** Past the right edge the scan's promise carries over from the next row. */
  lemma ScanRowEnd(obs: seq<Rect>, q: Request, x0: nat, y0: nat)
    requires y0 < 512 && x0 >= 1024 && y0 % StepY(q) == 0
    requires ScanSound(obs, q, 0, y0 + StepY(q), Scan(obs, q, 0, y0 + StepY(q)))
    ensures ScanSound(obs, q, x0, y0, Scan(obs, q, x0, y0))
  {
    var r := Scan(obs, q, 0, y0 + StepY(q));
    assert Scan(obs, q, x0, y0) == r;
    RowEndSkip(obs, q, x0, y0);
    ScanSoundBack(obs, q, x0, y0, 0, y0 + StepY(q), r);
  }

  /** At a position that does not fit the scan's promise carries over from the next column. */
  lemma ScanMiss(obs: seq<Rect>, q: Request, x0: nat, y0: nat)
    requires y0 < 512 && x0 < 1024 && x0 % StepX(q) == 0 && !Fits(obs, q, x0, y0)
    requires ScanSound(obs, q, x0 + StepX(q), y0, Scan(obs, q, x0 + StepX(q), y0))
    ensures ScanSound(obs, q, x0, y0, Scan(obs, q, x0, y0))
  {
    var r := Scan(obs, q, x0 + StepX(q), y0);
    assert Scan(obs, q, x0, y0) == r;
    MissSkip(obs, q, x0, y0);
    ScanSoundBack(obs, q, x0, y0, x0 + StepX(q), y0, r);
  }

  /** Past the right edge of a row, no grid position lies before the start of the next row. */
  lemma RowEndSkip(obs: seq<Rect>, q: Request, x0: int, y0: int)
    requires x0 >= 1024 && y0 % StepY(q) == 0
    ensures NoFitBetween(obs, q, x0, y0, 0, y0 + StepY(q))
  {
    forall x, y | OnGrid(q, x, y) && !Before(x, y, x0, y0) ensures !Before(x, y, 0, y0 + StepY(q)) {
      NextMultiple(q, y0, y, false);
    }
  }

  /** A grid position that does not fit is the only one before the next column. */
  lemma MissSkip(obs: seq<Rect>, q: Request, x0: int, y0: int)
    requires x0 % StepX(q) == 0 && !Fits(obs, q, x0, y0)
    ensures NoFitBetween(obs, q, x0, y0, x0 + StepX(q), y0)
  {
    forall x, y | OnGrid(q, x, y) && !Before(x, y, x0, y0) && (x, y) != (x0, y0) ensures !Before(x, y, x0 + StepX(q), y0) {
      if y == y0 { NextMultiple(q, x0, x, true); }
    }
  }

  /** A scan's promise carries back over a stretch of grid positions known not to fit. */
  lemma ScanSoundBack(obs: seq<Rect>, q: Request, x0: int, y0: int, x1: int, y1: int, r: Option<(nat, nat)>)
    requires ScanSound(obs, q, x1, y1, r) && !Before(x1, y1, x0, y0) && NoFitBetween(obs, q, x0, y0, x1, y1)
    ensures ScanSound(obs, q, x0, y0, r)
  {
  }

  /**
   * The scan from the origin returns the first grid position, in row-major
   * order, that fits, and fails exactly when no grid position fits.
   */
  lemma ScanIsFirstFit(obs: seq<Rect>, q: Request)
    ensures Scan(obs, q, 0, 0).Some? ==>
              var (x, y) := Scan(obs, q, 0, 0).value;
              OnGrid(q, x, y) && Fits(obs, q, x, y) &&
              forall x', y' :: OnGrid(q, x', y') && Before(x', y', x, y) ==> !Fits(obs, q, x', y')
    ensures Scan(obs, q, 0, 0).None? <==> forall x, y :: OnGrid(q, x, y) ==> !Fits(obs, q, x, y)
  {
    ScanFrom(obs, q, 0, 0);
  }

  /** A row whose page cannot hold the texture even at its left edge holds it nowhere. */
  lemma {:induction false} RowSkip(obs: seq<Rect>, w: int, h: int, tpW: int, x: nat, y: nat)
    requires y < 512
    requires !BoxInside(0, y, w, h, 0, (y / 256) * 256, tpW, 256)
    ensures Scan(obs, TexReq(w, h, tpW), x, y) == Scan(obs, TexReq(w, h, tpW), 0, y + 8)
    decreases 1024 - x
  {
    if x < 1024 {
      assert (x / 64) * 64 <= x;
      assert !InBounds(TexReq(w, h, tpW), x, y);
      RowSkip(obs, w, h, tpW, x + 8, y);
    }
  }

  /**
   * `findTexturePackCoords`: rows y = 0, 8, ..., 504; a row whose page cannot
   * hold the texture is skipped; in a row, x = 0, 8, ..., 1016, keeping the
   * first position inside its page and free of collisions.  (The source's
   * reassignments of the loop variables have no effect on `range`, so every
   * step-8 position is visited.)
   */
  method FindTexturePackCoords(fb: FrameBuffers, order: seq<string>, mats: map<string, Mat>,
                               width: int, height: int, tpWidth: int)
    returns (r: Option<(nat, nat)>)
    requires AllPackable(order, mats)
    ensures r == Scan(Obstacles(fb, order, mats), TexReq(width, height, tpWidth), 0, 0)
  {
    ghost var obs := Obstacles(fb, order, mats);
    ghost var q := TexReq(width, height, tpWidth);
    var y := 0;
    while y < 512
      invariant 0 <= y <= 512 && y % 8 == 0
      invariant Scan(obs, q, 0, 0) == Scan(obs, q, 0, y)
    {
      var tpY := (y / 256) * 256;
      if !BoxInside(0, y, width, height, 0, tpY, tpWidth, 256) {
        RowSkip(obs, width, height, tpWidth, 0, y);
        y := y + 8;
        continue;
      }
      var found := TextureRow(fb, order, mats, width, height, tpWidth, y);
      if found.Some? {
        return Some((found.value, y));
      }
      y := y + 8;
    }
    return None;
  }

  /** The inner loop of `findTexturePackCoords` over one row whose page can hold the texture. */
  method TextureRow(fb: FrameBuffers, order: seq<string>, mats: map<string, Mat>,
                    width: int, height: int, tpWidth: int, y: nat)
    returns (found: Option<nat>)
    requires AllPackable(order, mats) && y < 512 && y % 8 == 0
    ensures var s := Scan(Obstacles(fb, order, mats), TexReq(width, height, tpWidth), 0, y);
            if found.Some? then s == Some((found.value, y))
            else s == Scan(Obstacles(fb, order, mats), TexReq(width, height, tpWidth), 0, y + 8)
  {
    ghost var obs := Obstacles(fb, order, mats);
    ghost var q := TexReq(width, height, tpWidth);
    var tpY := (y / 256) * 256;
    var x := 0;
    while x < 1024
      invariant 0 <= x <= 1024 && x % 8 == 0
      invariant Scan(obs, q, 0, y) == Scan(obs, q, x, y)
    {
      var tpX := (x / 64) * 64;
      var fits := false;
      if BoxInside(x, y, width, height, tpX, tpY, tpWidth, 256) {
        var collisions, nextXPos := AnyCollisions(fb, order, mats, x, y, width, height);
        fits := !collisions;
      }
      assert fits <==> Fits(obs, q, x, y);
      if fits {
        return Some(x);
      }
      x := x + 8;
    }
    return None;
  }

  /**
   * `findCLUTPackCoords`: rows y = 0, 1, ..., 511; in a row x = 0, 16, ...,
   * 1008, keeping the first position inside VRAM and free of collisions.
   */
  method FindClutPackCoords(fb: FrameBuffers, order: seq<string>, mats: map<string, Mat>, colorCount: int)
    returns (r: Option<(nat, nat)>)
    requires AllPackable(order, mats)
    ensures r == Scan(Obstacles(fb, order, mats), ClutReq(colorCount), 0, 0)
  {
    ghost var obs := Obstacles(fb, order, mats);
    ghost var q := ClutReq(colorCount);
    var y := 0;
    while y < 512
      invariant 0 <= y <= 512
      invariant Scan(obs, q, 0, 0) == Scan(obs, q, 0, y)
    {
      var found := ClutRow(fb, order, mats, colorCount, y);
      if found.Some? {
        return Some((found.value, y));
      }
      y := y + 1;
    }
    return None;
  }

  /** The inner loop of `findCLUTPackCoords` over one row. */
  method ClutRow(fb: FrameBuffers, order: seq<string>, mats: map<string, Mat>, colorCount: int, y: nat)
    returns (found: Option<nat>)
    requires AllPackable(order, mats) && y < 512
    ensures var s := Scan(Obstacles(fb, order, mats), ClutReq(colorCount), 0, y);
            if found.Some? then s == Some((found.value, y))
            else s == Scan(Obstacles(fb, order, mats), ClutReq(colorCount), 0, y + 1)
  {
    ghost var obs := Obstacles(fb, order, mats);
    ghost var q := ClutReq(colorCount);
    var x := 0;
    while x < 1024
      invariant 0 <= x <= 1024 && x % 16 == 0
      invariant Scan(obs, q, 0, y) == Scan(obs, q, x, y)
    {
      var fits := false;
      if BoxInside(x, y, colorCount, 1, 0, 0, 1024, 512) {
        var collisions, nextXPos := AnyCollisions(fb, order, mats, x, y, colorCount, 1);
        fits := !collisions;
      }
      assert fits <==> Fits(obs, q, x, y);
      if fits {
        return Some(x);
      }
      x := x + 16;
    }
    return None;
  }

  /**
   * A texture placement is on the step-8 grid, stays inside its texture page
   * (which may reach past x = 1024) and collides with nothing.
   */
  lemma TexturePlacementSound(fb: FrameBuffers, order: seq<string>, mats: map<string, Mat>, w: int, h: int, tpW: int)
    requires AllPackable(order, mats)
    ensures Scan(Obstacles(fb, order, mats), TexReq(w, h, tpW), 0, 0).Some? ==>
              var (x, y) := Scan(Obstacles(fb, order, mats), TexReq(w, h, tpW), 0, 0).value;
              && x % 8 == 0 && y % 8 == 0 && x < 1024 && y < 512
              && x + w <= (x / 64) * 64 + tpW && y + h <= (y / 256) * 256 + 256
              && forall i :: 0 <= i < |Obstacles(fb, order, mats)| ==> !Hits(Rect(x, y, w, h), Obstacles(fb, order, mats)[i])
  {
    ScanIsFirstFit(Obstacles(fb, order, mats), TexReq(w, h, tpW));
  }

  /** A CLUT placement is on the step-16 grid, inside VRAM and collides with nothing. */
  lemma ClutPlacementSound(fb: FrameBuffers, order: seq<string>, mats: map<string, Mat>, colorCount: int)
    requires AllPackable(order, mats)
    ensures Scan(Obstacles(fb, order, mats), ClutReq(colorCount), 0, 0).Some? ==>
              var (x, y) := Scan(Obstacles(fb, order, mats), ClutReq(colorCount), 0, 0).value;
              && x % 16 == 0 && x + colorCount <= 1024 && y < 512
              && forall i :: 0 <= i < |Obstacles(fb, order, mats)| ==> !Hits(Rect(x, y, colorCount, 1), Obstacles(fb, order, mats)[i])
  {
    ScanIsFirstFit(Obstacles(fb, order, mats), ClutReq(colorCount));
  }

  // ---------------------------------------------------------------------
  // Packing one item
  // ---------------------------------------------------------------------

  /** What a row of the packer's item list stands for: a record's texture or its CLUT. */
  datatype Item = TextureItem | ClutItem

  /** The item appears in the packer's list: a textured record, and for a CLUT row one that has a CLUT. */
  ghost predicate Listed(m: Mat, item: Item)
  {
    match item
    case TextureItem => m.texture.Some?
    case ClutItem => HasClut(m)
  }

  /** What `autoPackSingle` asks the scans for: the texture's cell extent and page width, or the palette size. */
  function ItemRequest(m: Mat, item: Item): (q: Request)
    requires Packable(m) && Listed(m, item)
    ensures q.TexReq? <==> item == TextureItem
  {
    var t := m.texture.value;
    match item
    case TextureItem => TexReq(t.tpXSize, t.ySize, TpWidth(t.colorMode))
    case ClutItem => ClutReq(ColorCount(t.colorMode))
  }

  /** The packing state of a record's texture and of its CLUT. */
  function TextureSlot(m: Mat): (bool, int, int) { (m.packed, m.xPos, m.yPos) }
  function ClutSlot(m: Mat): (bool, int, int) { (m.packedCLUT, m.xPosCLUT, m.yPosCLUT) }

  /** The record with the item marked packed at (x, y). */
  function PlacedAt(m: Mat, item: Item, x: int, y: int): Mat
  {
    match item
    case TextureItem => m.(packed := true, xPos := x, yPos := y)
    case ClutItem => m.(packedCLUT := true, xPosCLUT := x, yPosCLUT := y)
  }

  /**
   * The dictionary after `autoPackSingle(id, item)`: the scan runs against
   * every packed rectangle, the item's own current one included, and on
   * success the item is marked packed at the position found.
   */
  function AutoPacked(fb: FrameBuffers, order: seq<string>, mats: map<string, Mat>, id: string, item: Item): (r: map<string, Mat>)
    requires id in mats && Packable(mats[id]) && Listed(mats[id], item)
  {
    match Scan(Obstacles(fb, order, mats), ItemRequest(mats[id], item), 0, 0)
    case None => mats
    case Some((x, y)) => mats[id := PlacedAt(mats[id], item, x, y)]
  }

  /** Auto-packing keeps every listed record packable. */
  lemma AutoPackedPackable(fb: FrameBuffers, order: seq<string>, mats: map<string, Mat>, id: string, item: Item)
    requires AllPackable(order, mats) && id in order && Listed(mats[id], item)
    ensures AllPackable(order, AutoPacked(fb, order, mats, id, item))
  {
  }

  /** (x, y) is the first grid position, in row-major order, where the request fits. */
  ghost predicate FirstFit(obs: seq<Rect>, q: Request, x: int, y: int)
  {
    OnGrid(q, x, y) && Fits(obs, q, x, y) &&
    forall x', y' :: OnGrid(q, x', y') && Before(x', y', x, y) ==> !Fits(obs, q, x', y')
  }

  /**
   * `autoPackSingle` places the item at the first fitting grid position when
   * there is one and changes nothing else; when there is none it changes
   * nothing at all.
   */
  lemma AutoPackedIsFirstFit(fb: FrameBuffers, order: seq<string>, mats: map<string, Mat>, id: string, item: Item)
    requires AllPackable(order, mats) && id in order && Listed(mats[id], item)
    ensures var obs := Obstacles(fb, order, mats);
            var q := ItemRequest(mats[id], item);
            var r := AutoPacked(fb, order, mats, id, item);
            && ((forall x, y :: OnGrid(q, x, y) ==> !Fits(obs, q, x, y)) ==> r == mats)
            && ((exists x, y :: OnGrid(q, x, y) && Fits(obs, q, x, y)) ==>
                  exists x, y :: FirstFit(obs, q, x, y) && r == mats[id := PlacedAt(mats[id], item, x, y)])
  {
    var obs := Obstacles(fb, order, mats);
    var q := ItemRequest(mats[id], item);
    ScanIsFirstFit(obs, q);
    if Scan(obs, q, 0, 0).Some? {
      var (x, y) := Scan(obs, q, 0, 0).value;
      assert FirstFit(obs, q, x, y);
    }
  }

  /** Only the chosen item's flag and position can change. */
  lemma AutoPackedFrame(fb: FrameBuffers, order: seq<string>, mats: map<string, Mat>, id: string, item: Item)
    requires AllPackable(order, mats) && id in order && Listed(mats[id], item)
    ensures var r := AutoPacked(fb, order, mats, id, item);
            && r.Keys == mats.Keys
            && (forall k :: k in mats && k != id ==> r[k] == mats[k])
            && (item == TextureItem ==> r[id] == mats[id].(packed := r[id].packed, xPos := r[id].xPos, yPos := r[id].yPos))
            && (item == ClutItem ==> r[id] == mats[id].(packedCLUT := r[id].packedCLUT, xPosCLUT := r[id].xPosCLUT, yPosCLUT := r[id].yPosCLUT))
  {
  }

  /**
   * What may change while textures are packed: texture placements only, and
   * a packed texture stays packed.
   */
  ghost predicate TexturesOnly(before: map<string, Mat>, after: map<string, Mat>)
  {
    before.Keys == after.Keys && forall k :: k in before ==> TexturesOnlyAt(before[k], after[k])
  }

  ghost predicate TexturesOnlyAt(before: Mat, after: Mat)
  {
    && after.texture == before.texture && after.kind == before.kind
    && ClutSlot(after) == ClutSlot(before)
    && (before.packed ==> after.packed)
  }

  /** What may change while CLUTs are packed: CLUT placements only, and a packed CLUT stays packed. */
  ghost predicate ClutsOnly(before: map<string, Mat>, after: map<string, Mat>)
  {
    before.Keys == after.Keys && forall k :: k in before ==> ClutsOnlyAt(before[k], after[k])
  }

  ghost predicate ClutsOnlyAt(before: Mat, after: Mat)
  {
    && after.texture == before.texture && after.kind == before.kind
    && TextureSlot(after) == TextureSlot(before)
    && (before.packedCLUT ==> after.packedCLUT)
  }

  /** Packing a texture changes only texture placements; packing a CLUT only CLUT placements. */
  lemma AutoPackedKeeps(fb: FrameBuffers, order: seq<string>, mats: map<string, Mat>, id: string, item: Item)
    requires AllPackable(order, mats) && id in order && Listed(mats[id], item)
    ensures item == TextureItem ==> TexturesOnly(mats, AutoPacked(fb, order, mats, id, item))
    ensures item == ClutItem ==> ClutsOnly(mats, AutoPacked(fb, order, mats, id, item))
  {
  }

  // ---------------------------------------------------------------------
  // Packing keeps VRAM free of overlaps
  // ---------------------------------------------------------------------

  lemma SeparatedDrop(l: seq<Rect>, x: seq<Rect>, r: seq<Rect>)
    requires Separated(l + x + r)
    ensures Separated(l + r)
  {
    var s := l + x + r;
    forall i, j | 0 <= i < j < |l + r| ensures !Hits((l + r)[i], (l + r)[j]) {
      var i' := if i < |l| then i else i + |x|;
      var j' := if j < |l| then j else j + |x|;
      assert (l + r)[i] == s[i'] && (l + r)[j] == s[j'];
    }
  }

  lemma SeparatedInsert(l: seq<Rect>, r: seq<Rect>, b: Rect)
    requires Separated(l + r)
    requires forall i :: 0 <= i < |l + r| ==> !Hits(b, (l + r)[i])
    ensures Separated(l + [b] + r)
  {
    var s := l + [b] + r;
    forall i, j | 0 <= i < j < |s| ensures !Hits(s[i], s[j]) {
      if i == |l| {
        assert s[j] == (l + r)[j - 1];
      } else if j == |l| {
        assert s[i] == (l + r)[i];
        BoxCollisionSymmetric(b.x, b.y, b.w, b.h, s[i].x, s[i].y, s[i].w, s[i].h);
      } else {
        var i' := if i < |l| then i else i - 1;
        var j' := if j < |l| then j else j - 1;
        assert s[i] == (l + r)[i'] && s[j] == (l + r)[j'];
      }
    }
  }

  /** Replacing at most one rectangle by one that hits none of them keeps a separated sequence separated. */
  lemma SeparatedReplace(l: seq<Rect>, x: seq<Rect>, r: seq<Rect>, b: Rect)
    requires Separated(l + x + r) && !HitsAny(l + x + r, b)
    ensures Separated(l + [b] + r)
  {
    SeparatedDrop(l, x, r);
    forall i | 0 <= i < |l + r| ensures !Hits(b, (l + r)[i]) {
      if i < |l| {
        assert (l + r)[i] == (l + x + r)[i];
      } else {
        assert (l + r)[i] == (l + x + r)[i + |x|];
      }
    }
    SeparatedInsert(l, r, b);
  }

  /** The obstacles split around the record at position `p` of the order. */
  lemma ObstaclesAround(fb: FrameBuffers, order: seq<string>, mats: map<string, Mat>, p: nat)
    requires AllPackable(order, mats) && p < |order|
    ensures Obstacles(fb, order, mats) ==
            FrameRects(fb) + RectsIn(order, mats, 0, p) + MatRects(mats[order[p]]) + RectsIn(order, mats, p + 1, |order|)
  {
    assert order[p] in order;
    RectsInSplit(order, mats, 0, p + 1, |order|);
    Regroup4(FrameRects(fb), RectsIn(order, mats, 0, p), MatRects(mats[order[p]]), RectsIn(order, mats, p + 1, |order|));
  }

  lemma Regroup4(f: seq<Rect>, a: seq<Rect>, m: seq<Rect>, b: seq<Rect>)
    ensures f + (a + m + b) == f + a + m + b
  {
  }

  /** The obstacles after the record under key `order[p]` is replaced. */
  lemma ObstaclesReplaced(fb: FrameBuffers, order: seq<string>, mats: map<string, Mat>, p: nat, m: Mat)
    requires Distinct(order) && AllPackable(order, mats) && p < |order| && Packable(m)
    ensures AllPackable(order, mats[order[p] := m])
    ensures Obstacles(fb, order, mats[order[p] := m]) ==
            FrameRects(fb) + RectsIn(order, mats, 0, p) + MatRects(m) + RectsIn(order, mats, p + 1, |order|)
  {
    var mats' := mats[order[p] := m];
    assert forall j :: 0 <= j < |order| && j != p ==> order[j] != order[p];
    ObstaclesAround(fb, order, mats', p);
    RectsInFrame(order, mats, order[p], m, 0, p);
    RectsInFrame(order, mats, order[p], m, p + 1, |order|);
  }

  lemma IndexOf(order: seq<string>, id: string) returns (p: nat)
    requires id in order
    ensures p < |order| && order[p] == id
  {
    p :| 0 <= p < |order| && order[p] == id;
  }

  /** The obstacles with the texture rectangle of `order[p]` singled out, before and after it is replaced. */
  lemma SplitAtCell(fb: FrameBuffers, order: seq<string>, mats: map<string, Mat>, p: nat, m': Mat)
    returns (pre: seq<Rect>, post: seq<Rect>)
    requires Distinct(order) && AllPackable(order, mats) && p < |order| && Packable(m')
    requires ClutRects(m') == ClutRects(mats[order[p]])
    ensures AllPackable(order, mats[order[p] := m'])
    ensures Obstacles(fb, order, mats) == pre + CellRects(mats[order[p]]) + post
    ensures Obstacles(fb, order, mats[order[p] := m']) == pre + CellRects(m') + post
  {
    var m := mats[order[p]];
    ObstaclesAround(fb, order, mats, p);
    ObstaclesReplaced(fb, order, mats, p, m');
    pre := FrameRects(fb) + RectsIn(order, mats, 0, p);
    var tail := RectsIn(order, mats, p + 1, |order|);
    post := ClutRects(m) + tail;
    Regroup(pre, CellRects(m), ClutRects(m), tail);
    Regroup(pre, CellRects(m'), ClutRects(m), tail);
  }

  /** The obstacles with the CLUT rectangle of `order[p]` singled out, before and after it is replaced. */
  lemma SplitAtClut(fb: FrameBuffers, order: seq<string>, mats: map<string, Mat>, p: nat, m': Mat)
    returns (pre: seq<Rect>, post: seq<Rect>)
    requires Distinct(order) && AllPackable(order, mats) && p < |order| && Packable(m')
    requires CellRects(m') == CellRects(mats[order[p]])
    ensures AllPackable(order, mats[order[p] := m'])
    ensures Obstacles(fb, order, mats) == pre + ClutRects(mats[order[p]]) + post
    ensures Obstacles(fb, order, mats[order[p] := m']) == pre + ClutRects(m') + post
  {
    var m := mats[order[p]];
    ObstaclesAround(fb, order, mats, p);
    ObstaclesReplaced(fb, order, mats, p, m');
    var front := FrameRects(fb) + RectsIn(order, mats, 0, p);
    pre := front + CellRects(m);
    post := RectsIn(order, mats, p + 1, |order|);
    Regroup3(front, CellRects(m), ClutRects(m));
    Regroup3(front, CellRects(m), ClutRects(m'));
  }

  lemma Regroup(a: seq<Rect>, b: seq<Rect>, c: seq<Rect>, d: seq<Rect>)
    ensures a + (b + c) + d == a + b + (c + d)
  {
  }

  lemma Regroup3(a: seq<Rect>, b: seq<Rect>, c: seq<Rect>)
    ensures a + (b + c) == a + b + c
  {
  }

  /** Placing the texture of the record at `order[p]` where it hits nothing keeps the obstacles separated. */
  lemma TexturePlacedSeparated(fb: FrameBuffers, order: seq<string>, mats: map<string, Mat>, p: nat, x: int, y: int)
    requires Distinct(order) && AllPackable(order, mats) && p < |order| && Listed(mats[order[p]], TextureItem)
    requires Separated(Obstacles(fb, order, mats))
    requires !HitsAny(Obstacles(fb, order, mats), Footprint(ItemRequest(mats[order[p]], TextureItem), x, y))
    ensures Separated(Obstacles(fb, order, mats[order[p] := PlacedAt(mats[order[p]], TextureItem, x, y)]))
  {
    var m := mats[order[p]];
    var m' := PlacedAt(m, TextureItem, x, y);
    var pre, post := SplitAtCell(fb, order, mats, p, m');
    SeparatedReplace(pre, CellRects(m), post, CellRect(m'));
  }

  /** Placing the CLUT of the record at `order[p]` where it hits nothing keeps the obstacles separated. */
  lemma ClutPlacedSeparated(fb: FrameBuffers, order: seq<string>, mats: map<string, Mat>, p: nat, x: int, y: int)
    requires Distinct(order) && AllPackable(order, mats) && p < |order| && Listed(mats[order[p]], ClutItem)
    requires Separated(Obstacles(fb, order, mats))
    requires !HitsAny(Obstacles(fb, order, mats), Footprint(ItemRequest(mats[order[p]], ClutItem), x, y))
    ensures Separated(Obstacles(fb, order, mats[order[p] := PlacedAt(mats[order[p]], ClutItem, x, y)]))
  {
    var m := mats[order[p]];
    var m' := PlacedAt(m, ClutItem, x, y);
    var pre, post := SplitAtClut(fb, order, mats, p, m');
    SeparatedReplace(pre, ClutRects(m), post, ClutRect(m'));
  }

  /**
   * Starting from a dictionary whose packed rectangles and framebuffers do
   * not overlap, `autoPackSingle` leaves one whose rectangles still do not.
   */
  lemma AutoPackedSeparated(fb: FrameBuffers, order: seq<string>, mats: map<string, Mat>, id: string, item: Item)
    requires Distinct(order) && AllPackable(order, mats) && id in order && Listed(mats[id], item)
    requires Separated(Obstacles(fb, order, mats))
    ensures Separated(Obstacles(fb, order, AutoPacked(fb, order, mats, id, item)))
  {
    var obs := Obstacles(fb, order, mats);
    var q := ItemRequest(mats[id], item);
    if Scan(obs, q, 0, 0).Some? {
      var (x, y) := Scan(obs, q, 0, 0).value;
      ScanIsFirstFit(obs, q);
      var p := IndexOf(order, id);
      if item == TextureItem {
        TexturePlacedSeparated(fb, order, mats, p, x, y);
      } else {
        ClutPlacedSeparated(fb, order, mats, p, x, y);
      }
    }
  }

  /**
   * Re-packing an already packed texture (as `autoPackAll` does) scans
   * against its own old rectangle too, so the new rectangle never overlaps
   * the old one: a texture with cells never lands where it was.
   */
  lemma RepackAvoidsOwnFootprint(fb: FrameBuffers, order: seq<string>, mats: map<string, Mat>, id: string)
    requires AllPackable(order, mats) && id in order && Listed(mats[id], TextureItem) && mats[id].packed
    ensures var r := AutoPacked(fb, order, mats, id, TextureItem);
            r != mats ==> !Hits(CellRect(r[id]), CellRect(mats[id]))
    ensures var r := AutoPacked(fb, order, mats, id, TextureItem);
            var t := mats[id].texture.value;
            t.tpXSize > 0 && t.ySize > 0 && r != mats ==> (r[id].xPos, r[id].yPos) != (mats[id].xPos, mats[id].yPos)
  {
    var obs := Obstacles(fb, order, mats);
    var m := mats[id];
    var q := ItemRequest(m, TextureItem);
    if Scan(obs, q, 0, 0).Some? {
      var (x, y) := Scan(obs, q, 0, 0).value;
      ScanIsFirstFit(obs, q);
      var p := IndexOf(order, id);
      ObstaclesAround(fb, order, mats, p);
      var i := |FrameRects(fb) + RectsIn(order, mats, 0, p)|;
      assert obs[i] == CellRect(m);
    }
  }

  // ---------------------------------------------------------------------
  // autoPackAll
  // ---------------------------------------------------------------------

  /**
   * The first loop of `autoPackAll` over the first `i` keys: every record
   * with a texture image is auto-packed in turn, packed or not.
   */
  function TexturePass(fb: FrameBuffers, order: seq<string>, mats: map<string, Mat>, i: nat): (r: map<string, Mat>)
    requires AllPackable(order, mats) && i <= |order|
    ensures AllPackable(order, r)
    decreases i
  {
    if i == 0 then mats
    else
      var prev := TexturePass(fb, order, mats, i - 1);
      assert order[i - 1] in order;
      TextureStepPackable(fb, order, prev, order[i - 1]);
      TextureStep(fb, order, prev, order[i - 1])
  }

  /** One iteration of the first loop of `autoPackAll`, for key `k`. */
  function TextureStep(fb: FrameBuffers, order: seq<string>, prev: map<string, Mat>, k: string): (r: map<string, Mat>)
    requires AllPackable(order, prev) && k in order
  {
    if prev[k].texture.Some? then AutoPacked(fb, order, prev, k, TextureItem) else prev
  }

  lemma TextureStepPackable(fb: FrameBuffers, order: seq<string>, prev: map<string, Mat>, k: string)
    requires AllPackable(order, prev) && k in order
    ensures AllPackable(order, TextureStep(fb, order, prev, k))
  {
    if prev[k].texture.Some? {
      AutoPackedPackable(fb, order, prev, k, TextureItem);
    }
  }

  /** The second loop of `autoPackAll` over the first `i` keys: every record with a CLUT image has its CLUT auto-packed. */
  function ClutPass(fb: FrameBuffers, order: seq<string>, mats: map<string, Mat>, i: nat): (r: map<string, Mat>)
    requires AllPackable(order, mats) && i <= |order|
    ensures AllPackable(order, r)
    decreases i
  {
    if i == 0 then mats
    else
      var prev := ClutPass(fb, order, mats, i - 1);
      assert order[i - 1] in order;
      ClutStepPackable(fb, order, prev, order[i - 1]);
      ClutStep(fb, order, prev, order[i - 1])
  }

  /** One iteration of the second loop of `autoPackAll`, for key `k`. */
  function ClutStep(fb: FrameBuffers, order: seq<string>, prev: map<string, Mat>, k: string): (r: map<string, Mat>)
    requires AllPackable(order, prev) && k in order
  {
    if HasClut(prev[k]) then AutoPacked(fb, order, prev, k, ClutItem) else prev
  }

  lemma ClutStepPackable(fb: FrameBuffers, order: seq<string>, prev: map<string, Mat>, k: string)
    requires AllPackable(order, prev) && k in order
    ensures AllPackable(order, ClutStep(fb, order, prev, k))
  {
    if HasClut(prev[k]) {
      AutoPackedPackable(fb, order, prev, k, ClutItem);
    }
  }

  /** `autoPackAll`: all textures first, then all CLUTs, each pass in dictionary order. */
  function AllPacked(fb: FrameBuffers, order: seq<string>, mats: map<string, Mat>): (r: map<string, Mat>)
    requires AllPackable(order, mats)
    ensures AllPackable(order, r)
  {
    ClutPass(fb, order, TexturePass(fb, order, mats, |order|), |order|)
  }

  /** The texture pass touches no CLUT, keeps every texture and unpacks nothing. */
  lemma TexturePassKeeps(fb: FrameBuffers, order: seq<string>, mats: map<string, Mat>, i: nat)
    requires AllPackable(order, mats) && i <= |order|
    ensures TexturesOnly(mats, TexturePass(fb, order, mats, i))
  {
    forall k | k in mats
      ensures k in TexturePass(fb, order, mats, i) && TexturesOnlyAt(mats[k], TexturePass(fb, order, mats, i)[k])
    {
      TexturePassKeepsAt(fb, order, mats, i, k);
    }
  }

  /** The CLUT pass touches no texture placement, keeps every texture and unpacks nothing. */
  lemma ClutPassKeeps(fb: FrameBuffers, order: seq<string>, mats: map<string, Mat>, i: nat)
    requires AllPackable(order, mats) && i <= |order|
    ensures ClutsOnly(mats, ClutPass(fb, order, mats, i))
  {
    forall k | k in mats
      ensures k in ClutPass(fb, order, mats, i) && ClutsOnlyAt(mats[k], ClutPass(fb, order, mats, i)[k])
    {
      ClutPassKeepsAt(fb, order, mats, i, k);
    }
  }

  lemma {:induction false} TexturePassKeepsAt(fb: FrameBuffers, order: seq<string>, mats: map<string, Mat>, i: nat, k: string)
    requires AllPackable(order, mats) && i <= |order| && k in mats
    ensures k in TexturePass(fb, order, mats, i) && TexturesOnlyAt(mats[k], TexturePass(fb, order, mats, i)[k])
    decreases i
  {
    if i > 0 {
      TexturePassKeepsAt(fb, order, mats, i - 1, k);
      TextureStepKeeps(fb, order, TexturePass(fb, order, mats, i - 1), order[i - 1], k);
    }
  }

  lemma {:induction false} ClutPassKeepsAt(fb: FrameBuffers, order: seq<string>, mats: map<string, Mat>, i: nat, k: string)
    requires AllPackable(order, mats) && i <= |order| && k in mats
    ensures k in ClutPass(fb, order, mats, i) && ClutsOnlyAt(mats[k], ClutPass(fb, order, mats, i)[k])
    decreases i
  {
    if i > 0 {
      ClutPassKeepsAt(fb, order, mats, i - 1, k);
      ClutStepKeeps(fb, order, ClutPass(fb, order, mats, i - 1), order[i - 1], k);
    }
  }

  lemma TextureStepKeeps(fb: FrameBuffers, order: seq<string>, prev: map<string, Mat>, key: string, k: string)
    requires AllPackable(order, prev) && key in order && k in prev
    ensures k in TextureStep(fb, order, prev, key) && TexturesOnlyAt(prev[k], TextureStep(fb, order, prev, key)[k])
  {
    if prev[key].texture.Some? {
      AutoPackedKeeps(fb, order, prev, key, TextureItem);
    }
  }

  lemma ClutStepKeeps(fb: FrameBuffers, order: seq<string>, prev: map<string, Mat>, key: string, k: string)
    requires AllPackable(order, prev) && key in order && k in prev
    ensures k in ClutStep(fb, order, prev, key) && ClutsOnlyAt(prev[k], ClutStep(fb, order, prev, key)[k])
  {
    if HasClut(prev[key]) {
      AutoPackedKeeps(fb, order, prev, key, ClutItem);
    }
  }

  /** The key order is duplicate-free and no two packed rectangles or framebuffers overlap. */
  ghost predicate Layout(fb: FrameBuffers, order: seq<string>, mats: map<string, Mat>)
  {
    Distinct(order) && Separated(Obstacles(fb, order, mats))
  }

  lemma {:induction false} TexturePassSeparated(fb: FrameBuffers, order: seq<string>, mats: map<string, Mat>, i: nat)
    requires AllPackable(order, mats) && i <= |order| && Layout(fb, order, mats)
    ensures Layout(fb, order, TexturePass(fb, order, mats, i))
    decreases i
  {
    if i > 0 {
      var prev := TexturePass(fb, order, mats, i - 1);
      TexturePassSeparated(fb, order, mats, i - 1);
      TextureStepSeparated(fb, order, prev, order[i - 1]);
      assert TexturePass(fb, order, mats, i) == TextureStep(fb, order, prev, order[i - 1]);
    }
  }

  lemma {:induction false} ClutPassSeparated(fb: FrameBuffers, order: seq<string>, mats: map<string, Mat>, i: nat)
    requires AllPackable(order, mats) && i <= |order| && Layout(fb, order, mats)
    ensures Layout(fb, order, ClutPass(fb, order, mats, i))
    decreases i
  {
    if i > 0 {
      var prev := ClutPass(fb, order, mats, i - 1);
      ClutPassSeparated(fb, order, mats, i - 1);
      ClutStepSeparated(fb, order, prev, order[i - 1]);
      assert ClutPass(fb, order, mats, i) == ClutStep(fb, order, prev, order[i - 1]);
    }
  }

  lemma TextureStepSeparated(fb: FrameBuffers, order: seq<string>, prev: map<string, Mat>, k: string)
    requires AllPackable(order, prev) && k in order && Layout(fb, order, prev)
    ensures Layout(fb, order, TextureStep(fb, order, prev, k))
  {
    if prev[k].texture.Some? {
      AutoPackedSeparated(fb, order, prev, k, TextureItem);
    }
  }

  lemma ClutStepSeparated(fb: FrameBuffers, order: seq<string>, prev: map<string, Mat>, k: string)
    requires AllPackable(order, prev) && k in order && Layout(fb, order, prev)
    ensures Layout(fb, order, ClutStep(fb, order, prev, k))
  {
    if HasClut(prev[k]) {
      AutoPackedSeparated(fb, order, prev, k, ClutItem);
    }
  }

  /**
   * `autoPackAll` keeps VRAM free of overlaps; it never unpacks anything and
   * changes no texture attribute.
   */
  lemma AllPackedSeparated(fb: FrameBuffers, order: seq<string>, mats: map<string, Mat>)
    requires Distinct(order) && AllPackable(order, mats) && Separated(Obstacles(fb, order, mats))
    ensures Separated(Obstacles(fb, order, AllPacked(fb, order, mats)))
    ensures AllPacked(fb, order, mats).Keys == mats.Keys
    ensures forall k :: k in mats ==> var r := AllPacked(fb, order, mats);
              && r[k].texture == mats[k].texture
              && (mats[k].packed ==> r[k].packed) && (mats[k].packedCLUT ==> r[k].packedCLUT)
  {
    TexturePassSeparated(fb, order, mats, |order|);
    TexturePassKeeps(fb, order, mats, |order|);
    ClutPassSeparated(fb, order, TexturePass(fb, order, mats, |order|), |order|);
    ClutPassKeeps(fb, order, TexturePass(fb, order, mats, |order|), |order|);
  }

  // ---------------------------------------------------------------------
  // Manual packing
  // ---------------------------------------------------------------------

  /** `packSelected`: the item's packed flag set to `state`, with no collision check. */
  function WithFlag(m: Mat, item: Item, state: bool): (r: Mat)
    ensures Coherent(m) && (state ==> Listed(m, item)) ==> Coherent(r)
    ensures item == TextureItem ==> r.packed == state && ClutSlot(r) == ClutSlot(m) && r == m.(packed := state)
    ensures item == ClutItem ==> r.packedCLUT == state && TextureSlot(r) == TextureSlot(m) && r == m.(packedCLUT := state)
  {
    match item
    case TextureItem => m.(packed := state)
    case ClutItem => m.(packedCLUT := state)
  }

  /** `updateItemSpin`: the item's position set to (x, y), packed or not, with no collision check. */
  function MovedTo(m: Mat, item: Item, x: int, y: int): (r: Mat)
    ensures Coherent(m) ==> Coherent(r)
    ensures item == TextureItem ==> r == m.(xPos := x, yPos := y)
    ensures item == ClutItem ==> r == m.(xPosCLUT := x, yPosCLUT := y)
  {
    match item
    case TextureItem => m.(xPos := x, yPos := y)
    case ClutItem => m.(xPosCLUT := x, yPosCLUT := y)
  }

  /** An automatic placement is a manual move followed by a manual pack. */
  lemma PlacedIsMovedThenFlagged(m: Mat, item: Item, x: int, y: int)
    ensures PlacedAt(m, item, x, y) == WithFlag(MovedTo(m, item, x, y), item, true)
  {
  }

  /** Unpacking an item removes its rectangle, so it keeps VRAM free of overlaps. */
  lemma UnpackSeparated(fb: FrameBuffers, order: seq<string>, mats: map<string, Mat>, id: string, item: Item)
    requires Distinct(order) && AllPackable(order, mats) && id in order && Separated(Obstacles(fb, order, mats))
    ensures AllPackable(order, mats[id := WithFlag(mats[id], item, false)])
    ensures Separated(Obstacles(fb, order, mats[id := WithFlag(mats[id], item, false)]))
  {
    var p := IndexOf(order, id);
    if item == TextureItem {
      UnpackTextureSeparated(fb, order, mats, p);
    } else {
      UnpackClutSeparated(fb, order, mats, p);
    }
  }

  lemma UnpackTextureSeparated(fb: FrameBuffers, order: seq<string>, mats: map<string, Mat>, p: nat)
    requires Distinct(order) && AllPackable(order, mats) && p < |order| && Separated(Obstacles(fb, order, mats))
    ensures AllPackable(order, mats[order[p] := mats[order[p]].(packed := false)])
    ensures Separated(Obstacles(fb, order, mats[order[p] := mats[order[p]].(packed := false)]))
  {
    var m := mats[order[p]];
    var pre, post := SplitAtCell(fb, order, mats, p, m.(packed := false));
    SeparatedDrop(pre, CellRects(m), post);
    assert pre + [] + post == pre + post;
  }

  lemma UnpackClutSeparated(fb: FrameBuffers, order: seq<string>, mats: map<string, Mat>, p: nat)
    requires Distinct(order) && AllPackable(order, mats) && p < |order| && Separated(Obstacles(fb, order, mats))
    ensures AllPackable(order, mats[order[p] := mats[order[p]].(packedCLUT := false)])
    ensures Separated(Obstacles(fb, order, mats[order[p] := mats[order[p]].(packedCLUT := false)]))
  {
    var m := mats[order[p]];
    var pre, post := SplitAtClut(fb, order, mats, p, m.(packedCLUT := false));
    SeparatedDrop(pre, ClutRects(m), post);
    assert pre + [] + post == pre + post;
  }

  /** Moving an item that is not packed changes nothing any scan collides with. */
  lemma MoveUnpackedInvisible(fb: FrameBuffers, order: seq<string>, mats: map<string, Mat>, id: string, item: Item, x: int, y: int)
    requires Distinct(order) && AllPackable(order, mats) && id in order
    requires if item == TextureItem then !mats[id].packed else !mats[id].packedCLUT
    ensures AllPackable(order, mats[id := MovedTo(mats[id], item, x, y)])
    ensures Obstacles(fb, order, mats[id := MovedTo(mats[id], item, x, y)]) == Obstacles(fb, order, mats)
  {
    var p := IndexOf(order, id);
    ObstaclesAround(fb, order, mats, p);
    ObstaclesReplaced(fb, order, mats, p, MovedTo(mats[id], item, x, y));
  }

  /**
   * Neither manual operation checks collisions: a fresh 1 x 1 texture marked
   * packed at its default position (640, 0) overlaps a framebuffer there.
   */
  lemma ManualPackUnchecked()
    ensures var fb := FrameBuffers(320, 240, 640, 0, false, 0, 0);
            var t := Texture(Direct([[Rgb(0, 0, 0)]]), 1, 1, Tile8, Tile8, Direct15, 1, None);
            var m := NewMat().(kind := Some(Textured), texture := Some(t));
            var mats := map["a" := m];
            && StoreOk(["a"], mats) && Separated(Obstacles(fb, ["a"], mats))
            && !Separated(Obstacles(fb, ["a"], mats["a" := WithFlag(m, TextureItem, true)]))
  {
    var fb := FrameBuffers(320, 240, 640, 0, false, 0, 0);
    var t := Texture(Direct([[Rgb(0, 0, 0)]]), 1, 1, Tile8, Tile8, Direct15, 1, None);
    var m := NewMat().(kind := Some(Textured), texture := Some(t));
    var mats := map["a" := m];
    assert Shaped(t.img.rgb, 1, 1);
    assert TextureOk(t);
    assert Coherent(m);
    assert StoreOk(["a"], mats);
    assert MatRects(m) == [];
    assert RectsIn(["a"], mats, 0, 1) == [];
    assert Obstacles(fb, ["a"], mats) == [Rect(640, 0, 320, 240)];
    var m' := WithFlag(m, TextureItem, true);
    assert MatRects(m') == [Rect(640, 0, 1, 1)];
    assert RectsIn(["a"], mats["a" := m'], 0, 1) == [Rect(640, 0, 1, 1)];
    var obs' := Obstacles(fb, ["a"], mats["a" := m']);
    assert obs' == [Rect(640, 0, 320, 240), Rect(640, 0, 1, 1)];
    assert Hits(obs'[0], obs'[1]);
  }

  // ---------------------------------------------------------------------
  // The packer tab's operations on the shared dictionary
  // ---------------------------------------------------------------------

  /**
   * Where `autoPackSingle` raises `KeyError` before changing anything: the
   * id is no longer in the dictionary (a stale selection), or the record
   * has no colour mode in the item's table (`{4: 64, 8: 128, 15: 256}` for
   * a texture, `{4: 16, 8: 256}` for a CLUT).
   */
  predicate AutoPackRaises(mats: map<string, Mat>, id: string, item: Item)
  {
    || id !in mats
    || mats[id].texture.None?
    || (item == ClutItem && mats[id].texture.value.colorMode == Direct15)
  }

  /**
   * `autoPackSingle(itemID, itemType)`; `autoPackSelected` passes the
   * current selection. `raised` is the `KeyError`, which leaves the store as
   * it was.
   */
  method AutoPackSingle(store: MatStore, fb: FrameBuffers, itemID: Option<string>, item: Item) returns (raised: bool)
    requires store.Valid()
    requires itemID.Some? && !AutoPackRaises(store.mats, itemID.value, item) ==> Listed(store.mats[itemID.value], item)
    modifies store
    ensures store.Valid() && store.order == old(store.order)
    ensures raised <==> itemID.Some? && AutoPackRaises(old(store.mats), itemID.value, item)
    ensures itemID.None? || raised ==> store.mats == old(store.mats)
    ensures itemID.Some? && !raised ==> store.mats == AutoPacked(fb, old(store.order), old(store.mats), itemID.value, item)
  {
    raised := false;
    if itemID.None? {
      return;
    }
    var id := itemID.value;
    if AutoPackRaises(store.mats, id, item) {
      raised := true;
      return;
    }
    var m := store.mats[id];
    var t := m.texture.value;
    var found: Option<(nat, nat)>;
    match item {
      case TextureItem =>
        found := FindTexturePackCoords(fb, store.order, store.mats, t.tpXSize, t.ySize, TpWidth(t.colorMode));
      case ClutItem =>
        found := FindClutPackCoords(fb, store.order, store.mats, ColorCount(t.colorMode));
    }
    if found.Some? {
      store.Put(id, PlacedAt(m, item, found.value.0, found.value.1));
    }
  }

  /** `autoPackAll`: auto-packs every texture, then every CLUT, over the dictionary's keys. */
  method AutoPackAll(store: MatStore, fb: FrameBuffers)
    requires store.Valid()
    modifies store
    ensures store.Valid() && store.order == old(store.order)
    ensures store.mats == AllPacked(fb, old(store.order), old(store.mats))
  {
    AutoPackTextures(store, fb);
    AutoPackCluts(store, fb);
  }

  /** The first loop of `autoPackAll`. */
  method AutoPackTextures(store: MatStore, fb: FrameBuffers)
    requires store.Valid()
    modifies store
    ensures store.Valid() && store.order == old(store.order)
    ensures store.mats == TexturePass(fb, old(store.order), old(store.mats), |old(store.order)|)
  {
    var keys := store.order;
    ghost var start := store.mats;
    var i := 0;
    while i < |keys|
      invariant 0 <= i <= |keys| && store.Valid() && store.order == keys
      invariant store.mats == TexturePass(fb, keys, start, i)
    {
      AutoPackTextureAt(store, fb, keys, start, i);
      i := i + 1;
    }
  }

  /** One iteration of the first loop of `autoPackAll`. */
  method AutoPackTextureAt(store: MatStore, fb: FrameBuffers, keys: seq<string>, ghost start: map<string, Mat>, i: nat)
    requires store.Valid() && store.order == keys && i < |keys| && AllPackable(keys, start)
    requires store.mats == TexturePass(fb, keys, start, i)
    modifies store
    ensures store.Valid() && store.order == keys
    ensures store.mats == TexturePass(fb, keys, start, i + 1)
  {
    var k := keys[i];
    if store.mats[k].texture.Some? {
      var _ := AutoPackSingle(store, fb, Some(k), TextureItem);
    }
  }

  /** The second loop of `autoPackAll`. */
  method AutoPackCluts(store: MatStore, fb: FrameBuffers)
    requires store.Valid()
    modifies store
    ensures store.Valid() && store.order == old(store.order)
    ensures store.mats == ClutPass(fb, old(store.order), old(store.mats), |old(store.order)|)
  {
    var keys := store.order;
    ghost var start := store.mats;
    var i := 0;
    while i < |keys|
      invariant 0 <= i <= |keys| && store.Valid() && store.order == keys
      invariant store.mats == ClutPass(fb, keys, start, i)
    {
      AutoPackClutAt(store, fb, keys, start, i);
      i := i + 1;
    }
  }

  /** One iteration of the second loop of `autoPackAll`. */
  method AutoPackClutAt(store: MatStore, fb: FrameBuffers, keys: seq<string>, ghost start: map<string, Mat>, i: nat)
    requires store.Valid() && store.order == keys && i < |keys| && AllPackable(keys, start)
    requires store.mats == ClutPass(fb, keys, start, i)
    modifies store
    ensures store.Valid() && store.order == keys
    ensures store.mats == ClutPass(fb, keys, start, i + 1)
  {
    var k := keys[i];
    if HasClut(store.mats[k]) {
      var _ := AutoPackSingle(store, fb, Some(k), ClutItem);
    }
  }

  /**
   * `packSelected(packState)`: sets the selected item's packed flag.
   * `raised` is the `KeyError` of a stale selection whose key is gone;
   * the store is then unchanged.
   */
  method PackSelected(store: MatStore, itemID: Option<string>, item: Item, packState: bool) returns (raised: bool)
    requires store.Valid()
    requires itemID.Some? && itemID.value in store.mats && packState ==> Listed(store.mats[itemID.value], item)
    modifies store
    ensures store.Valid() && store.order == old(store.order)
    ensures raised <==> itemID.Some? && itemID.value !in old(store.mats)
    ensures itemID.None? || raised ==> store.mats == old(store.mats)
    ensures itemID.Some? && !raised ==>
              store.mats == old(store.mats)[itemID.value := WithFlag(old(store.mats)[itemID.value], item, packState)]
  {
    raised := false;
    if itemID.None? {
      return;
    }
    var id := itemID.value;
    if id !in store.mats {
      raised := true;
      return;
    }
    store.Put(id, WithFlag(store.mats[id], item, packState));
  }

  /**
   * `updateItemSpin`: moves the selected item to the spin boxes' position.
   * `raised` is the `KeyError` of a stale selection whose key is gone;
   * the store is then unchanged.
   */
  method UpdateItemSpin(store: MatStore, itemID: Option<string>, item: Item, x: int, y: int) returns (raised: bool)
    requires store.Valid()
    modifies store
    ensures store.Valid() && store.order == old(store.order)
    ensures raised <==> itemID.Some? && itemID.value !in old(store.mats)
    ensures itemID.None? || raised ==> store.mats == old(store.mats)
    ensures itemID.Some? && !raised ==>
              store.mats == old(store.mats)[itemID.value := MovedTo(old(store.mats)[itemID.value], item, x, y)]
  {
    raised := false;
    if itemID.None? {
      return;
    }
    var id := itemID.value;
    if id !in store.mats {
      raised := true;
      return;
    }
    store.Put(id, MovedTo(store.mats[id], item, x, y));
  }
}
