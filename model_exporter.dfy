/**
 * The model exporter's header: for every triangle of one object whose
 * material is converted and packed, a vertex record and a textured, tiled
 * Gouraud primitive (`PolyGT3Tiled`), in polygon order; the primitive table
 * is written twice, once per display buffer.
 *
 * The mesh arrives as floating-point data; the model works over exact
 * reals, with NaN as an absent value and Python's `int`, `math.floor` and
 * `math.ceil` written out.
 */
module ModelExporter {
  import opened Material
  import opened Bits

  // ---------------------------------------------------------------------
  // Reals to integers
  // ---------------------------------------------------------------------

  /** `math.floor`. */
  function Floor(r: real): (n: int)
    ensures n as real <= r < n as real + 1.0
  {
    r.Floor
  }

  /** `math.ceil`. */
  function Ceil(r: real): (n: int)
    ensures n as real - 1.0 < r <= n as real
  {
    -((-r).Floor)
  }

  /** Python's `int` of a float: truncation toward zero. */
  function Trunc(r: real): (n: int)
    ensures r >= 0.0 ==> 0 <= n && n as real <= r < n as real + 1.0
    ensures r < 0.0 ==> n <= 0 && n as real - 1.0 < r <= n as real
  {
    if r >= 0.0 then r.Floor else -((-r).Floor)
  }

  function Abs(r: real): real { if r < 0.0 then -r else r }

  function Min3(a: real, b: real, c: real): (m: real)
    ensures m <= a && m <= b && m <= c && (m == a || m == b || m == c)
  {
    if a <= b && a <= c then a else if b <= c then b else c
  }

  /** `n & 0xFF` on Python's unbounded two's-complement integers: `n` modulo 256, negative `n` included. */
  function Mask8(n: int): (b: int)
    ensures 0 <= b < 256 && (n - b) % 256 == 0
  {
    n % 256
  }

  // ---------------------------------------------------------------------
  // UV normalisation
  // ---------------------------------------------------------------------

  /** One axis (all U or all V) of a triangle's three UVs. */
  datatype Axis = Axis(c0: real, c1: real, c2: real)

  function AxisMin(t: Axis): real { Min3(t.c0, t.c1, t.c2) }

  /** A NaN component (`None`) becomes 0. */
  function OrZero(c: Option<real>): real
  {
    if c.Some? then c.value else 0.0
  }

  /** When a component is negative, every component moves up by `ceil(|min|)`. */
  function LiftNegative(t: Axis): Axis
  {
    if t.c0 < 0.0 || t.c1 < 0.0 || t.c2 < 0.0 then
      var shift := Ceil(Abs(AxisMin(t))) as real;
      Axis(t.c0 + shift, t.c1 + shift, t.c2 + shift)
    else t
  }

  /** When every component is at least 1, every component moves down by `floor(|min|)`. */
  function DropWhole(t: Axis): Axis
  {
    if t.c0 >= 1.0 && t.c1 >= 1.0 && t.c2 >= 1.0 then
      var shift := Floor(Abs(AxisMin(t))) as real;
      Axis(t.c0 - shift, t.c1 - shift, t.c2 - shift)
    else t
  }

  /** The three passes over one axis: NaN to 0, lift negatives, drop whole offsets. */
  function NormalAxis(c0: Option<real>, c1: Option<real>, c2: Option<real>): Axis
  {
    DropWhole(LiftNegative(Axis(OrZero(c0), OrZero(c1), OrZero(c2))))
  }

  /** A normalised axis: no component is negative and the smallest lies in [0, 1). */
  ghost predicate Normalised(t: Axis)
  {
    t.c0 >= 0.0 && t.c1 >= 0.0 && t.c2 >= 0.0 && AxisMin(t) < 1.0
  }

  /** The axis is `from` moved by one whole number. */
  ghost predicate ShiftedBy(t: Axis, from: Axis, k: int)
  {
    t.c0 == from.c0 + k as real && t.c1 == from.c1 + k as real && t.c2 == from.c2 + k as real
  }

  /**
   * After normalisation every component is non-negative and the minimum is
   * in [0, 1); the three components moved by the same whole number, so their
   * differences are kept.
   */
  lemma NormalAxisSound(c0: Option<real>, c1: Option<real>, c2: Option<real>)
    ensures Normalised(NormalAxis(c0, c1, c2))
    ensures exists k: int :: ShiftedBy(NormalAxis(c0, c1, c2), Axis(OrZero(c0), OrZero(c1), OrZero(c2)), k)
  {
    var t := Axis(OrZero(c0), OrZero(c1), OrZero(c2));
    var l := LiftNegative(t);
    var m := AxisMin(t);
    var k1: int := 0;
    if t.c0 < 0.0 || t.c1 < 0.0 || t.c2 < 0.0 {
      k1 := Ceil(Abs(m));
      assert AxisMin(l) == m + k1 as real;
    }
    assert ShiftedBy(l, t, k1);
    assert l.c0 >= 0.0 && l.c1 >= 0.0 && l.c2 >= 0.0;
    var d := DropWhole(l);
    var k2: int := 0;
    if l.c0 >= 1.0 && l.c1 >= 1.0 && l.c2 >= 1.0 {
      k2 := Floor(Abs(AxisMin(l)));
      assert AxisMin(d) == AxisMin(l) - k2 as real;
    }
    assert ShiftedBy(d, t, k1 - k2);
  }

  /** Normalising a normalised axis changes nothing, so normalising twice is normalising once. */
  lemma NormalAxisIdempotent(c0: Option<real>, c1: Option<real>, c2: Option<real>)
    ensures var t := NormalAxis(c0, c1, c2);
            NormalAxis(Some(t.c0), Some(t.c1), Some(t.c2)) == t
  {
    NormalAxisSound(c0, c1, c2);
  }

  /** The worked cases: (-0.2, 0.3, 0.9) lifts by 1; a minimum of exactly -1.0 lifts by 1 to 0; (1.5, 2.25, 3.0) drops by 1. */
  lemma NormalAxisExamples()
    ensures NormalAxis(Some(-0.2), Some(0.3), Some(0.9)) == Axis(0.8, 1.3, 1.9)
    ensures NormalAxis(Some(-1.0), Some(0.5), None) == Axis(0.0, 1.5, 1.0)
    ensures NormalAxis(Some(0.999), Some(1.5), Some(2.0)) == Axis(0.999, 1.5, 2.0)
    ensures NormalAxis(Some(1.5), Some(2.25), Some(3.0)) == Axis(0.5, 1.25, 2.0)
  {
    assert Ceil(0.2) == 1;
    assert Ceil(1.0) == 1;
    assert Floor(1.5) == 1;
  }

  // ---------------------------------------------------------------------
  // Texture addressing
  // ---------------------------------------------------------------------

  /** `{15: 0, 8: 1, 4: 2}`: the left shift from a cell offset to a texel offset. */
  function TexelShift(mode: ColorMode): nat
  {
    match mode
    case Direct15 => 0
    case Indexed8 => 1
    case Indexed4 => 2
  }

  /** `(xPos & 0b111111) << shift`: the texture's texel offset inside its page. */
  function PageOffsetX(xPos: int, mode: ColorMode): (r: int)
    ensures 0 <= r <= 252 && r == (xPos % 64) * TexelsPerCell(mode)
  {
    var cells := xPos % 64;
    match mode
    case Direct15 => cells
    case Indexed8 => cells * 2
    case Indexed4 => cells * 4
  }

  /** `yPos & 0xFF`: the texture's row inside its page. */
  function PageOffsetY(yPos: int): (r: int)
    ensures 0 <= r <= 255
  {
    yPos % 256
  }

  /** The U texel: `int(u * (xSize-1)) & 0xFF`, plus the page offset before masking when not tiled. */
  function TexelU(u: real, xSize: int, offX: int, tiled: bool): (r: int)
    ensures 0 <= r < 256
  {
    var scaled := Trunc(u * (xSize - 1) as real);
    if tiled then Mask8(scaled) else Mask8(scaled + offX)
  }

  /**
   * The V texel, flipped: `int(255 - v * (ySize-1)) & 0xFF` when tiled,
   * `int((ySize-1) - v * (ySize-1)) + offY & 0xFF` when not.
   */
  function TexelV(v: real, ySize: int, offY: int, tiled: bool): (r: int)
    ensures 0 <= r < 256
  {
    var scale := (ySize - 1) as real;
    if tiled then Mask8(Trunc(255.0 - v * scale)) else Mask8(Trunc(scale - v * scale) + offY)
  }

  /**
   * A non-tiled texture that fits its page row: a U in [0, 1] lands on a
   * texel column of the texture, and a V in [0, 1] on one of its rows,
   * V = 0 on the bottom row and V = 1 on the top one.
   */
  lemma TexelInTexture(u: real, v: real, xSize: int, ySize: int, offX: int, offY: int)
    requires 0.0 <= u <= 1.0 && 0.0 <= v <= 1.0 && xSize >= 1 && ySize >= 1
    requires 0 <= offX && offX + xSize <= 256 && 0 <= offY && offY + ySize <= 256
    ensures offX <= TexelU(u, xSize, offX, false) < offX + xSize
    ensures offY <= TexelV(v, ySize, offY, false) < offY + ySize
    ensures TexelV(0.0, ySize, offY, false) == offY + ySize - 1 && TexelV(1.0, ySize, offY, false) == offY
  {
    TexelUWithin(u, xSize, offX);
    TexelVWithin(v, ySize, offY);
    TexelVWithin(0.0, ySize, offY);
    TexelVWithin(1.0, ySize, offY);
  }

  lemma TexelUWithin(u: real, xSize: int, offX: int)
    requires 0.0 <= u <= 1.0 && xSize >= 1 && 0 <= offX && offX + xSize <= 256
    ensures TexelU(u, xSize, offX, false) == offX + Trunc(u * (xSize - 1) as real)
    ensures 0 <= Trunc(u * (xSize - 1) as real) <= xSize - 1
  {
    TruncScaled(u, xSize - 1);
    var a := Trunc(u * (xSize - 1) as real);
    assert Mask8(a + offX) == a + offX;
  }

  lemma TexelVWithin(v: real, ySize: int, offY: int)
    requires 0.0 <= v <= 1.0 && ySize >= 1 && 0 <= offY && offY + ySize <= 256
    ensures TexelV(v, ySize, offY, false) == offY + Trunc((ySize - 1) as real - v * (ySize - 1) as real)
    ensures 0 <= Trunc((ySize - 1) as real - v * (ySize - 1) as real) <= ySize - 1
    ensures v == 0.0 ==> TexelV(v, ySize, offY, false) == offY + ySize - 1
    ensures v == 1.0 ==> TexelV(v, ySize, offY, false) == offY
  {
    TruncFlipped(v, ySize - 1);
    var b := Trunc((ySize - 1) as real - v * (ySize - 1) as real);
    assert Mask8(b + offY) == b + offY;
  }

  lemma TruncScaled(u: real, m: nat)
    requires 0.0 <= u <= 1.0
    ensures 0 <= Trunc(u * m as real) <= m
  {
    var s := m as real;
    ScaledWithin(u, s);
    TruncWithin(u * s, s, m);
  }

  lemma TruncFlipped(v: real, m: nat)
    requires 0.0 <= v <= 1.0
    ensures 0 <= Trunc(m as real - v * m as real) <= m
    ensures v == 0.0 ==> Trunc(m as real - v * m as real) == m
    ensures v == 1.0 ==> Trunc(m as real - v * m as real) == 0
  {
    var s := m as real;
    ScaledWithin(v, s);
    TruncWithin(s - v * s, s, m);
  }

  lemma TruncWithin(r: real, s: real, m: int)
    requires 0.0 <= r <= s && s == m as real
    ensures 0 <= Trunc(r) <= m
  {
  }

  lemma ScaledWithin(u: real, s: real)
    requires 0.0 <= u <= 1.0 && 0.0 <= s
    ensures 0.0 <= u * s <= s
  {
    assert s - u * s == (1.0 - u) * s;
  }

  /** The tile-size code table of the texture-window command. */
  function TileCode(s: TileSize): (code: int)
    ensures code == 0x1F - ((TileExtent(s) - 1) % 256) / 8
    ensures 0 <= code < 32
  {
    match s
    case Tile8 => assert (7 % 256) / 8 == 0; 0x1F
    case Tile16 => assert (15 % 256) / 8 == 1; 0x1E
    case Tile32 => assert (31 % 256) / 8 == 3; 0x1C
    case Tile64 => assert (63 % 256) / 8 == 7; 0x18
    case Tile128 => assert (127 % 256) / 8 == 15; 0x10
    case Tile256 => assert (255 % 256) / 8 == 31; 0x00
  }

  /** The 32-bit texture-window word with the given five-bit fields under the `0xE20` opcode. */
  function WindowWord(codeX: int, codeY: int, offX: int, offY: int): int
  {
    0xE20 * 0x10_0000 + offY * 0x8000 + offX * 0x400 + codeY * 0x20 + codeX
  }

  /**
   * `tilePrim`: for a tiled material, the tile codes and the page offsets
   * divided by 8 under the `0xE20` opcode; 0 otherwise.
   */
  function TilePrim(m: Mat): int
    requires m.texture.Some?
  {
    var t := m.texture.value;
    if m.tiled then
      WindowWord(TileCode(t.tileX), TileCode(t.tileY), PageOffsetX(m.xPos, t.colorMode) / 8, PageOffsetY(m.yPos) / 8)
    else 0
  }

  /**
   * The fields of the tile word decode back out: bits 0-4 tile X, 5-9 tile
   * Y, 10-14 and 15-19 the page offsets divided by 8, 20-31 the opcode.
   */
  lemma TilePrimFields(m: Mat)
    requires m.texture.Some? && m.tiled
    ensures var w, t := TilePrim(m), m.texture.value;
            && 0 <= w < 0x1_0000_0000
            && w % 32 == TileCode(t.tileX)
            && (w / 32) % 32 == TileCode(t.tileY)
            && (w / 0x400) % 32 == PageOffsetX(m.xPos, t.colorMode) / 8
            && (w / 0x8000) % 32 == PageOffsetY(m.yPos) / 8
            && w / 0x10_0000 == 0xE20
  {
    var t := m.texture.value;
    var tx, ty := TileCode(t.tileX), TileCode(t.tileY);
    var ox, oy := PageOffsetX(m.xPos, t.colorMode) / 8, PageOffsetY(m.yPos) / 8;
    var w := TilePrim(m);
    var q1 := 0xE20 * 0x8000 + oy * 0x400 + ox * 0x20 + ty;
    var q2 := 0xE20 * 0x400 + oy * 0x20 + ox;
    var q3 := 0xE20 * 0x20 + oy;
    DivModOf(w, 32, q1, tx);
    DivModOf(q1, 32, q2, ty);
    DivModOf(w, 0x400, q2, ty * 32 + tx);
    DivModOf(q2, 32, q3, ox);
    DivModOf(w, 0x8000, q3, ox * 0x400 + ty * 32 + tx);
    DivModOf(q3, 32, 0xE20, oy);
    DivModOf(w, 0x10_0000, 0xE20, oy * 0x8000 + ox * 0x400 + ty * 32 + tx);
  }

  /** A material that is not tiled gets the zero tile word. */
  lemma TilePrimUntiled(m: Mat)
    requires m.texture.Some? && !m.tiled
    ensures TilePrim(m) == 0
  {
  }

  /** `clutID`: `(yPosCLUT << 6) + (xPosCLUT >> 4)` when the CLUT is packed, else 0. */
  function ClutID(m: Mat): int
  {
    if m.packedCLUT then m.yPosCLUT * 64 + m.xPosCLUT / 16 else 0
  }

  /** For a CLUT x inside VRAM the identifier gives back the CLUT's row and its x in 16-cell units. */
  lemma ClutIDDecodes(m: Mat)
    requires m.packedCLUT && 0 <= m.xPosCLUT < 1024
    ensures ClutID(m) / 64 == m.yPosCLUT && ClutID(m) % 64 == m.xPosCLUT / 16
  {
    DivModOf(ClutID(m), 64, m.yPosCLUT, m.xPosCLUT / 16);
  }

  /** `{15: 0b10, 8: 0b01, 4: 0b00}`. */
  function DepthCode(mode: ColorMode): (c: int)
    ensures 0 <= c <= 2
  {
    match mode
    case Direct15 => 2
    case Indexed8 => 1
    case Indexed4 => 0
  }

  /**
   * `tPageID`: `(tpC << 7) + (semiTrans << 5) + (tpY << 4) + tpX` with
   * `tpX = (xPos & 0b1111000000) >> 6`, `tpY = (yPos & 0b100000000) >> 8`
   * and the semi-transparency field 0.
   */
  function TPageID(m: Mat): int
    requires m.texture.Some?
  {
    var tpX := (m.xPos / 64) % 16;
    var tpY := (m.yPos / 256) % 2;
    var semiTrans := 0;
    DepthCode(m.texture.value.colorMode) * 128 + semiTrans * 32 + tpY * 16 + tpX
  }

  /**
   * The page word is below 512: bits 0-3 hold the page column, bit 4 bit 8
   * of `yPos`, bits 5-6 are clear and bits 7-8 hold the depth code.
   */
  lemma TPageIDFields(m: Mat)
    requires m.texture.Some?
    ensures var p := TPageID(m);
            && 0 <= p < 512
            && p % 16 == (m.xPos / 64) % 16
            && (p / 16) % 2 == (m.yPos / 256) % 2
            && (p / 32) % 4 == 0
            && p / 128 == DepthCode(m.texture.value.colorMode)
  {
    var p := TPageID(m);
    var c := DepthCode(m.texture.value.colorMode);
    var tx, ty := (m.xPos / 64) % 16, (m.yPos / 256) % 2;
    DivModOf(p, 16, c * 8 + ty, tx);
    DivModOf(c * 8 + ty, 2, c * 4, ty);
    DivModOf(p, 32, c * 4, ty * 16 + tx);
    DivModOf(c * 4, 4, c, 0);
    DivModOf(p, 128, c, ty * 16 + tx);
  }

  // ---------------------------------------------------------------------
  // Mesh and records
  // ---------------------------------------------------------------------

  datatype Vec3 = Vec3(x: real, y: real, z: real)

  /** One UV pair; `None` stands for NaN. */
  datatype UV = UV(u: Option<real>, v: Option<real>)

  /** A triangle's three vertex indices. */
  datatype Tri = Tri(i0: nat, i1: nat, i2: nat)

  /**
   * One object's mesh: vertex positions, triangles, each triangle's
   * material name, its three UVs and, when the mesh has vertex colours, its
   * three RGB colours in [0, 1].
   */
  datatype Mesh = Mesh(verts: seq<Vec3>, polys: seq<Tri>, mats: seq<string>, uvs: seq<seq<UV>>, colors: seq<seq<Vec3>>)

  /** The polygon's material is converted and packed, and 15-bit or with its CLUT packed. */
  predicate Emits(mats: map<string, Mat>, name: string)
  {
    name in mats && mats[name].packed && mats[name].texture.Some? &&
    (mats[name].texture.value.colorMode == Direct15 || mats[name].packedCLUT)
  }

  predicate EmitsAt(mesh: Mesh, mats: map<string, Mat>, i: nat)
    requires i < |mesh.mats|
  {
    Emits(mats, mesh.mats[i])
  }

  /**
   * What the exporter reads without failing: a material name for every
   * triangle and, for every triangle it emits, three UVs, vertex indices in
   * range and, when the mesh has colours, three colours.
   */
  ghost predicate MeshOk(mesh: Mesh, mats: map<string, Mat>)
  {
    && |mesh.polys| <= |mesh.mats|
    && forall i :: 0 <= i < |mesh.polys| && EmitsAt(mesh, mats, i) ==>
         && i < |mesh.uvs| && |mesh.uvs[i]| == 3
         && mesh.polys[i].i0 < |mesh.verts| && mesh.polys[i].i1 < |mesh.verts| && mesh.polys[i].i2 < |mesh.verts|
         && (mesh.colors != [] ==> i < |mesh.colors| && |mesh.colors[i]| == 3)
  }

  /** `int(c * 32768/100)`: 100 mesh units become 32768 fixed-point units, truncated toward zero. */
  function Quantize(c: real): (n: int)
    ensures Abs(n as real) <= Abs(c * 327.68) < Abs(n as real) + 1.0
    ensures (n < 0 ==> c < 0.0) && (n > 0 ==> c > 0.0)
  {
    Trunc(c * (32768.0 / 100.0))
  }

  lemma QuantizeExamples()
    ensures Quantize(100.0) == 32768 && Quantize(1.0) == 327 && Quantize(-1.0) == -327
  {
    assert Trunc(327.68) == 327;
  }

  /** A `TriVertPack` row: the triangle's number, its three (x, y) pairs and its three z values. */
  datatype TriVert = TriVert(index: nat, xy: seq<(int, int)>, z: seq<int>)

  /** A colour channel in [0, 1] as `int(channel * 255)`. */
  function Channel255(c: real): int { Trunc(c * 255.0) }

  type Color = (int, int, int)

  /**
   * A `PolyGT3Tiled` row: the triangle's number, the tile word, the three
   * colours and texels, the CLUT id and the page id.  The constant fields
   * (tag `0x0A000000`, code `0b110100` and the padding zeros) are left out.
   */
  datatype Prim = Prim(index: nat, tilePrim: int, rgb: seq<Color>, uv: seq<(int, int)>, clutID: int, tPageID: int)

  function VertOf(mesh: Mesh, i: nat): (r: TriVert)
    requires i < |mesh.polys|
    requires mesh.polys[i].i0 < |mesh.verts| && mesh.polys[i].i1 < |mesh.verts| && mesh.polys[i].i2 < |mesh.verts|
    ensures r.index == i && |r.xy| == 3 && |r.z| == 3
  {
    var p := mesh.polys[i];
    var a, b, c := mesh.verts[p.i0], mesh.verts[p.i1], mesh.verts[p.i2];
    TriVert(i, [(Quantize(a.x), Quantize(a.y)), (Quantize(b.x), Quantize(b.y)), (Quantize(c.x), Quantize(c.y))],
            [Quantize(a.z), Quantize(b.z), Quantize(c.z)])
  }

  /** The three colours: the mesh's, scaled to 0..255, or mid-grey when the mesh has none. */
  function ColorsOf(mesh: Mesh, i: nat): (r: seq<Color>)
    requires mesh.colors != [] ==> i < |mesh.colors| && |mesh.colors[i]| == 3
    ensures |r| == 3
    ensures mesh.colors == [] ==> r == [(127, 127, 127), (127, 127, 127), (127, 127, 127)]
  {
    if mesh.colors == [] then [(127, 127, 127), (127, 127, 127), (127, 127, 127)]
    else
      var cs := mesh.colors[i];
      seq(3, k requires 0 <= k < 3 => (Channel255(cs[k].x), Channel255(cs[k].y), Channel255(cs[k].z)))
  }

  /** The primitive of emitted triangle `i`. */
  function PrimOf(mesh: Mesh, mats: map<string, Mat>, i: nat): (p: Prim)
    requires MeshOk(mesh, mats) && i < |mesh.polys| && EmitsAt(mesh, mats, i)
    ensures p.index == i && |p.rgb| == 3 && |p.uv| == 3
    ensures forall k :: 0 <= k < 3 ==> 0 <= p.uv[k].0 < 256 && 0 <= p.uv[k].1 < 256
  {
    var m := mats[mesh.mats[i]];
    var t := m.texture.value;
    var uv := mesh.uvs[i];
    var us := NormalAxis(uv[0].u, uv[1].u, uv[2].u);
    var vs := NormalAxis(uv[0].v, uv[1].v, uv[2].v);
    var offX, offY := PageOffsetX(m.xPos, t.colorMode), PageOffsetY(m.yPos);
    Prim(i, TilePrim(m), ColorsOf(mesh, i),
         [(TexelU(us.c0, t.xSize, offX, m.tiled), TexelV(vs.c0, t.ySize, offY, m.tiled)),
          (TexelU(us.c1, t.xSize, offX, m.tiled), TexelV(vs.c1, t.ySize, offY, m.tiled)),
          (TexelU(us.c2, t.xSize, offX, m.tiled), TexelV(vs.c2, t.ySize, offY, m.tiled))],
         ClutID(m), TPageID(m))
  }

  /** The primitive table for triangles `0..n)`: one primitive per emitted triangle, in order. */
  function Prims(mesh: Mesh, mats: map<string, Mat>, n: nat): seq<Prim>
    requires MeshOk(mesh, mats) && n <= |mesh.polys|
  {
    if n == 0 then []
    else Prims(mesh, mats, n - 1) + if EmitsAt(mesh, mats, n - 1) then [PrimOf(mesh, mats, n - 1)] else []
  }

  /** The vertex table for triangles `0..n)`, under the same filter. */
  function Verts(mesh: Mesh, mats: map<string, Mat>, n: nat): seq<TriVert>
    requires MeshOk(mesh, mats) && n <= |mesh.polys|
  {
    if n == 0 then []
    else Verts(mesh, mats, n - 1) + if EmitsAt(mesh, mats, n - 1) then [VertOf(mesh, n - 1)] else []
  }

  /**
   * `ps` holds exactly the emitted triangles below `n`, each once, in
   * polygon order: its indices strictly increase, each is an emitted
   * triangle below `n`, and every emitted triangle below `n` is there.
   */
  ghost predicate FilteredBelow(mesh: Mesh, mats: map<string, Mat>, n: nat, ps: seq<Prim>)
    requires n <= |mesh.mats|
  {
    && (forall k :: 0 <= k < |ps| ==> ps[k].index < n && EmitsAt(mesh, mats, ps[k].index))
    && (forall k, l :: 0 <= k < l < |ps| ==> ps[k].index < ps[l].index)
    && (forall i :: 0 <= i < n && EmitsAt(mesh, mats, i) ==> exists k :: 0 <= k < |ps| && ps[k].index == i)
  }

  /** The primitive table is the emitted triangles in polygon order. */
  lemma {:induction false} PrimsAreFiltered(mesh: Mesh, mats: map<string, Mat>, n: nat)
    requires MeshOk(mesh, mats) && n <= |mesh.polys|
    ensures FilteredBelow(mesh, mats, n, Prims(mesh, mats, n))
  {
    if n > 0 {
      PrimsAreFiltered(mesh, mats, n - 1);
      var prev := Prims(mesh, mats, n - 1);
      if EmitsAt(mesh, mats, n - 1) {
        var p := PrimOf(mesh, mats, n - 1);
        assert Prims(mesh, mats, n) == prev + [p];
        FilteredExtend(mesh, mats, n, prev, p);
      } else {
        assert Prims(mesh, mats, n) == prev;
        FilteredSkip(mesh, mats, n, prev);
      }
    }
  }

  /** Appending the row of an emitted polygon `n - 1` extends the filtered table by one polygon. */
  lemma FilteredExtend(mesh: Mesh, mats: map<string, Mat>, n: nat, prev: seq<Prim>, p: Prim)
    requires 0 < n <= |mesh.mats| && FilteredBelow(mesh, mats, n - 1, prev)
    requires EmitsAt(mesh, mats, n - 1) && p.index == n - 1
    ensures FilteredBelow(mesh, mats, n, prev + [p])
  {
    var ps := prev + [p];
    forall i | 0 <= i < n && EmitsAt(mesh, mats, i)
      ensures exists k :: 0 <= k < |ps| && ps[k].index == i
    {
      if i == n - 1 {
        assert ps[|prev|].index == i;
      } else {
        var k :| 0 <= k < |prev| && prev[k].index == i;
        assert ps[k].index == i;
      }
    }
  }

  /** A polygon that is not emitted leaves the filtered table as it was. */
  lemma FilteredSkip(mesh: Mesh, mats: map<string, Mat>, n: nat, prev: seq<Prim>)
    requires 0 < n <= |mesh.mats| && FilteredBelow(mesh, mats, n - 1, prev)
    requires !EmitsAt(mesh, mats, n - 1)
    ensures FilteredBelow(mesh, mats, n, prev)
  {
  }

  /** The vertex table and the primitive table have the same rows, triangle for triangle. */
  lemma {:induction false} VertsMatchPrims(mesh: Mesh, mats: map<string, Mat>, n: nat)
    requires MeshOk(mesh, mats) && n <= |mesh.polys|
    ensures |Verts(mesh, mats, n)| == |Prims(mesh, mats, n)|
    ensures forall k :: 0 <= k < |Prims(mesh, mats, n)| ==> Verts(mesh, mats, n)[k].index == Prims(mesh, mats, n)[k].index
  {
    if n > 0 {
      VertsMatchPrims(mesh, mats, n - 1);
    }
  }

  /** The header file's content: the vertex table, the two primitive tables and `PRIMS_LEN`. */
  datatype ModelHeader = ModelHeader(verts: seq<TriVert>, prims0: seq<Prim>, prims1: seq<Prim>, primsLen: int)

  /**
   * `exportHeader`: the vertex table over the emitted triangles, then the
   * primitive rows accumulated with their count, written out twice.
   */
  method ExportHeader(mesh: Mesh, mats: map<string, Mat>) returns (h: ModelHeader)
    requires MeshOk(mesh, mats) && forall k :: k in mats ==> Coherent(mats[k])
    ensures h.verts == Verts(mesh, mats, |mesh.polys|)
    ensures h.prims0 == h.prims1 == Prims(mesh, mats, |mesh.polys|)
    ensures h.primsLen == |h.prims0|
  {
    var verts := [];
    var i := 0;
    while i < |mesh.polys|
      invariant 0 <= i <= |mesh.polys| && verts == Verts(mesh, mats, i)
    {
      if mesh.mats[i] in mats {
        var m := mats[mesh.mats[i]];
        if m.packed && (m.texture.value.colorMode == Direct15 || m.packedCLUT) {
          var p := mesh.polys[i];
          var a, b, c := mesh.verts[p.i0], mesh.verts[p.i1], mesh.verts[p.i2];
          verts := verts + [TriVert(i, [(Quantize(a.x), Quantize(a.y)), (Quantize(b.x), Quantize(b.y)), (Quantize(c.x), Quantize(c.y))],
                                    [Quantize(a.z), Quantize(b.z), Quantize(c.z)])];
        }
      }
      i := i + 1;
    }
    var primDataBody := [];
    var realPolyCount := 0;
    i := 0;
    while i < |mesh.polys|
      invariant 0 <= i <= |mesh.polys| && primDataBody == Prims(mesh, mats, i) && realPolyCount == |primDataBody|
    {
      if EmitsAt(mesh, mats, i) {
        var prim := AssemblePrim(mesh, mats, i);
        primDataBody := primDataBody + [prim];
        realPolyCount := realPolyCount + 1;
      }
      i := i + 1;
    }
    h := ModelHeader(verts, primDataBody, primDataBody, realPolyCount);
  }

  /** The body of the primitive loop for one emitted triangle, pass by pass as the exporter runs it. */
  method AssemblePrim(mesh: Mesh, mats: map<string, Mat>, i: nat) returns (prim: Prim)
    requires MeshOk(mesh, mats) && i < |mesh.polys| && EmitsAt(mesh, mats, i)
    ensures prim == PrimOf(mesh, mats, i)
  {
    var m := mats[mesh.mats[i]];
    var t := m.texture.value;
    var uv := mesh.uvs[i];
    var tilePrim := 0;
    if m.tiled {
      var tpOffsetX := PageOffsetX(m.xPos, t.colorMode);
      var tpOffsetY := PageOffsetY(m.yPos);
      tilePrim := WindowWord(TileCode(t.tileX), TileCode(t.tileY), tpOffsetX / 8, tpOffsetY / 8);
    }
    var rgb := ColorsOf(mesh, i);
    var clutID := 0;
    if m.packedCLUT {
      clutID := m.yPosCLUT * 64 + m.xPosCLUT / 16;
    }
    var tPageID := TPageID(m);
    var u0, u1, u2 := NormaliseUV(uv[0].u, uv[1].u, uv[2].u);
    var v0, v1, v2 := NormaliseUV(uv[0].v, uv[1].v, uv[2].v);
    var offX, offY := PageOffsetX(m.xPos, t.colorMode), PageOffsetY(m.yPos);
    var uvs := [(TexelU(u0, t.xSize, offX, m.tiled), TexelV(v0, t.ySize, offY, m.tiled)),
                (TexelU(u1, t.xSize, offX, m.tiled), TexelV(v1, t.ySize, offY, m.tiled)),
                (TexelU(u2, t.xSize, offX, m.tiled), TexelV(v2, t.ySize, offY, m.tiled))];
    prim := Prim(i, tilePrim, rgb, uvs, clutID, tPageID);
  }

  /**
   * The UV passes over one coordinate of a polygon's three corners: NaN
   * becomes 0, then a negative minimum lifts all three by its ceiling, then
   * all three at least 1 drop by the floor of the minimum.
   */
  method NormaliseUV(c0: Option<real>, c1: Option<real>, c2: Option<real>) returns (a0: real, a1: real, a2: real)
    ensures Axis(a0, a1, a2) == NormalAxis(c0, c1, c2)
  {
    a0, a1, a2 := OrZero(c0), OrZero(c1), OrZero(c2);
    ghost var raw := Axis(a0, a1, a2);
    if a0 < 0.0 || a1 < 0.0 || a2 < 0.0 {
      var shift := Ceil(Abs(Min3(a0, a1, a2))) as real;
      a0, a1, a2 := a0 + shift, a1 + shift, a2 + shift;
    }
    ghost var lifted := Axis(a0, a1, a2);
    assert lifted == LiftNegative(raw);
    if a0 >= 1.0 && a1 >= 1.0 && a2 >= 1.0 {
      var shift := Floor(Abs(Min3(a0, a1, a2))) as real;
      a0, a1, a2 := a0 - shift, a1 - shift, a2 - shift;
    }
    assert Axis(a0, a1, a2) == DropWhole(lifted);
  }
}
