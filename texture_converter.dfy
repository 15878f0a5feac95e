/**
 * The texture converter: it turns a material's source picture into a
 * converted record (resized, optionally black-adjusted, reduced to 15-bit
 * colour or to palette indices with a 15-bit palette) and stores it in the
 * shared dictionary, or removes records from it.
 *
 * Decoding the picture file and PIL's resampling and quantisation are not
 * modelled: the opened picture is a parameter and the PIL operations are
 * the functions of an `Imaging` value, of which only the shapes they
 * return are assumed.
 */
module TextureConverter {
  import opened Material
  import opened Bits
  import VramExport

  /** An RGB picture as rows of pixels, row `y` first. */
  type Image = seq<seq<Rgb>>

  const Black := Rgb(0, 0, 0)

  // ---------------------------------------------------------------------
  // 15-bit colour
  // ---------------------------------------------------------------------

  /** `(c >> 3) << 3`: the channel with its three low bits cleared. */
  function Quant5(c: Channel): (q: Channel)
    ensures q % 8 == 0 && q <= c < q + 8
  {
    (c / 8) * 8
  }

  /** The cleared channel is the largest multiple of 8 not above the channel. */
  lemma Quant5Largest(c: Channel, m: int)
    requires m % 8 == 0 && m <= c
    ensures m <= Quant5(c)
  {
    DivModOf(m, 8, m / 8, 0);
    if m > Quant5(c) {
      MulMono(c / 8 + 1, m / 8, 8);
    }
  }

  /** A pixel reduced to 5 bits per channel. */
  function Quant15(p: Rgb): Rgb
  {
    Rgb(Quant5(p.r), Quant5(p.g), Quant5(p.b))
  }

  /**
   * Reducing is idempotent and loses nothing the 15-bit VRAM word keeps:
   * the reduced pixel has the same word as the original, and the word
   * gives the reduced pixel back exactly.
   */
  lemma Quant15Exact(p: Rgb)
    ensures Quant15(Quant15(p)) == Quant15(p)
    ensures VramExport.Word15(Quant15(p)) == VramExport.Word15(p)
    ensures var (r, g, b) := VramExport.Fields15(VramExport.Word15(p)); Rgb(r * 8, g * 8, b * 8) == Quant15(p)
  {
    VramExport.Word15Decodes(p);
  }

  /**
   * `convertImg15BPP`: every pixel of the picture, column by column,
   * reduced to 15-bit colour in place.  The array is indexed `[x, y]`.
   */
  method ConvertImg15BPP(image: array2<Rgb>)
    modifies image
    ensures forall x, y :: 0 <= x < image.Length0 && 0 <= y < image.Length1 ==> image[x, y] == Quant15(old(image[x, y]))
  {
    var x := 0;
    while x < image.Length0
      invariant 0 <= x <= image.Length0
      invariant forall i, j :: 0 <= i < x && 0 <= j < image.Length1 ==> image[i, j] == Quant15(old(image[i, j]))
      invariant forall i, j :: x <= i < image.Length0 && 0 <= j < image.Length1 ==> image[i, j] == old(image[i, j])
    {
      var y := 0;
      while y < image.Length1
        invariant 0 <= y <= image.Length1
        invariant forall i, j :: 0 <= i < x && 0 <= j < image.Length1 ==> image[i, j] == Quant15(old(image[i, j]))
        invariant forall j :: 0 <= j < y ==> image[x, j] == Quant15(old(image[x, j]))
        invariant forall j :: y <= j < image.Length1 ==> image[x, j] == old(image[x, j])
        invariant forall i, j :: x < i < image.Length0 && 0 <= j < image.Length1 ==> image[i, j] == old(image[i, j])
      {
        var oldVal := image[x, y];
        image[x, y] := Rgb(Quant5(oldVal.r), Quant5(oldVal.g), Quant5(oldVal.b));
        y := y + 1;
      }
      x := x + 1;
    }
  }

  /** The picture `ConvertImg15BPP` leaves, on rows. */
  function QuantRows(img: Image): (r: Image)
    ensures |r| == |img| && forall y :: 0 <= y < |img| ==> |r[y]| == |img[y]|
  {
    seq(|img|, y requires 0 <= y < |img| => seq(|img[y]|, x requires 0 <= x < |img[y]| => Quant15(img[y][x])))
  }

  /** Every pixel of a reduced picture has channels that are multiples of 8, so its VRAM word gives it back. */
  lemma QuantRowsExact(img: Image, x: nat, y: nat)
    requires y < |img| && x < |img[y]|
    ensures var p := QuantRows(img)[y][x];
            && p.r % 8 == 0 && p.g % 8 == 0 && p.b % 8 == 0
            && VramExport.Word15(p) == VramExport.Word15(img[y][x])
  {
    Quant15Exact(img[y][x]);
  }

  // ---------------------------------------------------------------------
  // Palette
  // ---------------------------------------------------------------------

  /** The colours of a flat palette list `[r0, g0, b0, r1, ...]`, one per full triple, reduced to 15 bits. */
  function PaletteColors(p: seq<Channel>): (r: seq<Rgb>)
    ensures |r| == |p| / 3
  {
    seq(|p| / 3, k requires 0 <= k < |p| / 3 => Quant15(Rgb(p[3 * k], p[3 * k + 1], p[3 * k + 2])))
  }

  /** The palette list after the loop: every entry of a full triple reduced, a trailing partial triple kept. */
  function QuantPalette(p: seq<Channel>): (r: seq<Channel>)
    ensures |r| == |p|
  {
    seq(|p|, j requires 0 <= j < |p| => if j < |p| - |p| % 3 then Quant5(p[j]) else p[j])
  }

  /**
   * The CLUT picture `convertPallet15BPP` returns: `colorCount` pixels, the
   * reduced palette colours first and black after them.  `None` when the
   * list ends in a partial triple (an index error) or holds more colours
   * than the picture has pixels (PIL refuses the data).
   */
  function ClutImage(p: seq<Channel>, colorCount: nat): Option<seq<Rgb>>
  {
    if |p| % 3 != 0 || |p| / 3 > colorCount then None
    else Some(PaletteColors(p) + seq(colorCount - |p| / 3, _ => Black))
  }

  /**
   * A CLUT picture has `colorCount` entries; entry `k` has the VRAM word of
   * palette colour `k` (and gives it back exactly) when the palette has
   * one, and is black after the palette's end.
   */
  lemma ClutImageSound(p: seq<Channel>, colorCount: nat, k: nat)
    requires ClutImage(p, colorCount).Some? && k < colorCount
    ensures var clut := ClutImage(p, colorCount).value;
            && |clut| == colorCount
            && (k < |p| / 3 ==> VramExport.Word15(clut[k]) == VramExport.Word15(Rgb(p[3 * k], p[3 * k + 1], p[3 * k + 2])))
            && (k < |p| / 3 ==> clut[k] == Quant15(Rgb(p[3 * k], p[3 * k + 1], p[3 * k + 2])))
            && (k >= |p| / 3 ==> clut[k] == Black)
  {
    if k < |p| / 3 {
      Quant15Exact(Rgb(p[3 * k], p[3 * k + 1], p[3 * k + 2]));
    }
  }

  /**
   * `convertPallet15BPP`: reduces the palette list in place, triple by
   * triple, collecting the reduced colours, and returns the CLUT picture.
   */
  method ConvertPallet15BPP(pallet: array<Channel>, colorCount: nat) returns (clut: Option<seq<Rgb>>)
    modifies pallet
    ensures pallet[..] == QuantPalette(old(pallet[..]))
    ensures clut == ClutImage(old(pallet[..]), colorCount)
  {
    ghost var orig := pallet[..];
    var palletImgPixels := [];
    var i := 0;
    while i < pallet.Length
      invariant 0 <= i <= pallet.Length - pallet.Length % 3 && i == 3 * |palletImgPixels|
      invariant forall k :: 0 <= k < |palletImgPixels| ==> palletImgPixels[k] == PaletteColors(orig)[k]
      invariant forall j :: 0 <= j < i ==> pallet[j] == Quant5(orig[j])
      invariant forall j :: i <= j < pallet.Length ==> pallet[j] == orig[j]
    {
      if i + 2 >= pallet.Length {
        // `pallet[i+1]` or `pallet[i+2]` is out of range
        QuantPaletteReached(orig, pallet[..], i);
        return None;
      }
      var r := Quant5(pallet[i]);
      var g := Quant5(pallet[i + 1]);
      var b := Quant5(pallet[i + 2]);
      pallet[i] := r;
      pallet[i + 1] := g;
      pallet[i + 2] := b;
      PaletteStep(orig, palletImgPixels, i);
      palletImgPixels := palletImgPixels + [Rgb(r, g, b)];
      i := i + 3;
    }
    QuantPaletteReached(orig, pallet[..], i);
    assert |orig| % 3 == 0 && |palletImgPixels| == |orig| / 3;
    if |palletImgPixels| > colorCount {
      return None;
    }
    PaletteColorsReached(orig, palletImgPixels);
    clut := Some(palletImgPixels + seq(colorCount - |palletImgPixels|, _ => Black));
  }

  /** The colour of the next full triple extends the reduced colours read so far. */
  lemma PaletteStep(orig: seq<Channel>, pix: seq<Rgb>, i: nat)
    requires i == 3 * |pix| && i + 2 < |orig|
    requires forall k :: 0 <= k < |pix| ==> pix[k] == PaletteColors(orig)[k]
    ensures var more := pix + [Rgb(Quant5(orig[i]), Quant5(orig[i + 1]), Quant5(orig[i + 2]))];
            forall k :: 0 <= k < |more| ==> more[k] == PaletteColors(orig)[k]
  {
  }

  lemma PaletteColorsReached(orig: seq<Channel>, pix: seq<Rgb>)
    requires |pix| == |orig| / 3
    requires forall k :: 0 <= k < |pix| ==> pix[k] == PaletteColors(orig)[k]
    ensures pix == PaletteColors(orig)
  {
  }

  /** Once every full triple has been reduced in place, the list is the reduced palette. */
  lemma QuantPaletteReached(orig: seq<Channel>, cur: seq<Channel>, i: nat)
    requires |cur| == |orig| && i == |orig| - |orig| % 3
    requires forall j :: 0 <= j < i ==> cur[j] == Quant5(orig[j])
    requires forall j :: i <= j < |cur| ==> cur[j] == orig[j]
    ensures cur == QuantPalette(orig)
  {
  }

  // ---------------------------------------------------------------------
  // Size, black removal and padding
  // ---------------------------------------------------------------------

  /** A black pixel is moved to (8, 8, 8); any other is kept. */
  function Unblack(p: Rgb): Rgb
  {
    if p == Black then Rgb(8, 8, 8) else p
  }

  /** The black-removal pass over a picture. */
  function RemoveBlack(img: Image): (r: Image)
    ensures |r| == |img| && forall y :: 0 <= y < |img| ==> |r[y]| == |img[y]|
  {
    seq(|img|, y requires 0 <= y < |img| => seq(|img[y]|, x requires 0 <= x < |img[y]| => Unblack(img[y][x])))
  }

  /**
   * Black removal keeps the picture's shape, leaves no (0, 0, 0) pixel,
   * turns each one into (8, 8, 8) and leaves every other pixel as it was.
   */
  lemma RemoveBlackSound(img: Image, x: nat, y: nat)
    requires y < |img| && x < |img[y]|
    ensures var r := RemoveBlack(img);
            && r[y][x] != Black
            && (img[y][x] == Black ==> r[y][x] == Rgb(8, 8, 8))
            && (img[y][x] != Black ==> r[y][x] == img[y][x])
  {
  }

  /** Removing black twice is removing it once. */
  lemma RemoveBlackIdempotent(img: Image)
    ensures RemoveBlack(RemoveBlack(img)) == RemoveBlack(img)
  {
    var r := RemoveBlack(img);
    assert forall y :: 0 <= y < |img| ==> RemoveBlack(r)[y] == r[y];
  }

  /**
   * Removal is exact, not 15-bit aware: a near-black pixel such as
   * (4, 4, 4) is kept, and 15-bit reduction then makes it black.
   */
  lemma NearBlackKept()
    ensures Unblack(Rgb(4, 4, 4)) == Rgb(4, 4, 4) && Quant15(Unblack(Rgb(4, 4, 4))) == Black
  {
  }

  /** The resize target: the adjusted size when one is given, else the picture's size capped at 256 each way. */
  function TargetSize(adjust: Option<(nat, nat)>, width: nat, height: nat): (s: (nat, nat))
    ensures adjust.Some? ==> s == adjust.value
    ensures adjust.None? ==> s.0 <= 256 && s.1 <= 256 && (width <= 256 ==> s.0 == width) && (height <= 256 ==> s.1 == height)
    ensures adjust.None? ==> (width > 256 ==> s.0 == 256) && (height > 256 ==> s.1 == 256)
  {
    if adjust.Some? then adjust.value
    else (if width > 256 then 256 else width, if height > 256 then 256 else height)
  }

  /** `math.ceil(xSize / scale)`: the width in VRAM cells. */
  function CellWidth(xSize: nat, scale: nat): nat
    requires scale > 0
  {
    (xSize + scale - 1) / scale
  }

  /** The padded width: a whole number of cells, at least `xSize` and less than one cell more. */
  function PaddedWidth(xSize: nat, scale: nat): nat
    requires scale > 0
  {
    if xSize % scale != 0 then CellWidth(xSize, scale) * scale else xSize
  }

  /**
   * The padded width is the cell width times the scale, it covers the
   * picture, and it wastes less than one cell: it is the smallest multiple
   * of the scale not below the width.
   */
  lemma PaddedWidthSound(xSize: nat, scale: nat)
    requires scale > 0
    ensures PaddedWidth(xSize, scale) == CellWidth(xSize, scale) * scale
    ensures xSize <= PaddedWidth(xSize, scale) < xSize + scale
    ensures xSize % scale == 0 ==> PaddedWidth(xSize, scale) == xSize
  {
    var q, r := xSize / scale, xSize % scale;
    DivModOf(xSize, scale, q, r);
    if r == 0 {
      DivModOf(xSize + scale - 1, scale, q, scale - 1);
    } else {
      DivModOf(xSize + scale - 1, scale, q + 1, r - 1);
    }
  }

  /**
   * `Image.new('RGB', (width, h), (0, 0, 0))` with the picture pasted at
   * (0, 0): every row padded with black (or clipped, were it wider).
   */
  function PadRows(img: Image, width: nat): (r: Image)
    ensures |r| == |img|
  {
    seq(|img|, y requires 0 <= y < |img| =>
      if |img[y]| <= width then img[y] + seq(width - |img[y]|, _ => Black) else img[y][..width])
  }

  /** Padding keeps every pixel of the picture and adds only black, up to the new width. */
  lemma PadRowsSound(img: Image, w: nat, h: nat, width: nat, x: nat, y: nat)
    requires Shaped(img, w, h) && w <= width && y < h && x < width
    ensures Shaped(PadRows(img, width), width, h)
    ensures PadRows(img, width)[y][x] == if x < w then img[y][x] else Black
  {
  }

  // ---------------------------------------------------------------------
  // Conversion
  // ---------------------------------------------------------------------

  /** The picture file after `Image.open(...).convert("RGB")`: its size and its pixels. */
  datatype Picture = Picture(width: nat, height: nat, pixels: Image)

  /**
   * The PIL operations the converter calls: resizing (bilinear or
   * nearest), the palette list of an adaptive quantisation to `n` colours,
   * and the re-mapping of a picture onto a given palette (with or without
   * dithering).
   */
  datatype Imaging = Imaging(
    resize: (Image, nat, nat, bool) -> Image,
    palette: (Image, nat) -> seq<Channel>,
    remap: (Image, nat, seq<Channel>, bool) -> seq<seq<int>>)

  /** `idx` has the shape of `img` and every index is below `n`. */
  ghost predicate IndicesFor(idx: seq<seq<int>>, img: Image, n: nat)
  {
    && |idx| == |img|
    && (forall y :: 0 <= y < |img| ==> |idx[y]| == |img[y]|)
    && (forall y, x :: 0 <= y < |idx| && 0 <= x < |idx[y]| ==> 0 <= idx[y][x] < n)
  }

  /**
   * What the model assumes of PIL: a resize has the size asked for; a
   * re-map onto a non-empty palette keeps the shape and stays below the
   * colour count.
   */
  ghost predicate ImagingOk(pil: Imaging)
  {
    && (forall img, w, h, bilinear :: Shaped(pil.resize(img, w, h, bilinear), w, h))
    && (forall img, n, pal, dither | n > 0 :: IndicesFor(pil.remap(img, n, pal, dither), img, n))
  }

  /** A black canvas of the asked size: a resize that meets the assumption. */
  function BlackCanvas(img: Image, w: nat, h: nat, bilinear: bool): (r: Image)
    ensures Shaped(r, w, h)
    ensures forall y, x :: 0 <= y < h && 0 <= x < w ==> r[y][x] == Black
  {
    seq(h, _ => seq(w, _ => Black))
  }

  /** Index 0 everywhere, in the picture's shape: a re-map that meets the assumption. */
  function ZeroIndices(img: Image, n: nat, pal: seq<Channel>, dither: bool): (r: seq<seq<int>>)
    ensures n > 0 ==> IndicesFor(r, img, n)
    ensures forall y, x :: 0 <= y < |r| && 0 <= x < |r[y]| ==> r[y][x] == 0
  {
    seq(|img|, y requires 0 <= y < |img| => seq(|img[y]|, _ => 0))
  }

  /** The assumption on PIL can be met, so the conversion lemmas that require it are not vacuous. */
  lemma ImagingOkSatisfiable(palette: (Image, nat) -> seq<Channel>)
    ensures ImagingOk(Imaging(BlackCanvas, palette, ZeroIndices))
  {
    var pil := Imaging(BlackCanvas, palette, ZeroIndices);
    forall img, w, h, bilinear ensures Shaped(pil.resize(img, w, h, bilinear), w, h) {
      assert pil.resize(img, w, h, bilinear) == BlackCanvas(img, w, h, bilinear);
    }
    forall img, n, pal, dither | n > 0 ensures IndicesFor(pil.remap(img, n, pal, dither), img, n) {
      assert pil.remap(img, n, pal, dither) == ZeroIndices(img, n, pal, dither);
    }
  }

  /** The conversion settings read from the tab's widgets. */
  datatype Options = Options(
    kind: PrimType,                // F, G or T
    adjust: Option<(nat, nat)>,    // adjusted width and height, when enabled
    bilinear: bool,                // resize filter: bilinear, else nearest
    removeBlack: bool,
    mode: ColorMode,
    generateClut: bool,
    dither: bool,
    tiled: bool,
    tileX: TileSize,
    tileY: TileSize,
    semiTrans: bool)

  /** The texture attributes a textured conversion computes; `None` when the palette step fails. */
  function TextureOf(opts: Options, src: Picture, pil: Imaging): Option<Texture>
  {
    var (w, h) := TargetSize(opts.adjust, src.width, src.height);
    var resized := pil.resize(src.pixels, w, h, opts.bilinear);
    var img := if opts.removeBlack then RemoveBlack(resized) else resized;
    if opts.mode == Direct15 then
      Some(Texture(Direct(QuantRows(img)), w, h, opts.tileX, opts.tileY, Direct15, w, None))
    else
      var n := ColorCount(opts.mode);
      var scale := TexelsPerCell(opts.mode);
      var pal := pil.palette(img, n);
      match ClutImage(pal, n)
      case None => None
      case Some(clutImg) =>
        var xSize := PaddedWidth(w, scale);
        var padded := if w % scale != 0 then PadRows(img, xSize) else img;
        var idx := pil.remap(padded, n, QuantPalette(pal), opts.dither);
        Some(Texture(Indexed(idx), xSize, h, opts.tileX, opts.tileY, opts.mode, CellWidth(w, scale),
                     if opts.generateClut then Some(clutImg) else None))
  }

  /**
   * The record `convertSingle` stores, or `None` when it stores nothing: an
   * empty id, a textured kind without a texture path, a picture that does
   * not open, or a failed palette step.
   */
  function Converted(id: string, opts: Options, texturePath: string, source: Option<Picture>, pil: Imaging): Option<Mat>
  {
    if id == "" then None
    else if opts.kind != Textured then
      Some(NewMat().(id := id, valid := true, kind := Some(opts.kind)))
    else if texturePath == "" || source.None? then None
    else
      match TextureOf(opts, source.value, pil)
      case None => None
      case Some(t) =>
        Some(NewMat().(id := id, valid := true, kind := Some(Textured), origTexturePath := texturePath,
                       texture := Some(t), tiled := opts.tiled, forceSemiTrans := opts.semiTrans))
  }

  /** A converted texture satisfies the record invariant the packer and the exporters rely on. */
  lemma TextureOfOk(opts: Options, src: Picture, pil: Imaging)
    requires ImagingOk(pil) && TextureOf(opts, src, pil).Some?
    ensures TextureOk(TextureOf(opts, src, pil).value)
  {
    var (w, h) := TargetSize(opts.adjust, src.width, src.height);
    var resized := pil.resize(src.pixels, w, h, opts.bilinear);
    var img := if opts.removeBlack then RemoveBlack(resized) else resized;
    assert Shaped(img, w, h);
    if opts.mode != Direct15 {
      var n := ColorCount(opts.mode);
      var scale := TexelsPerCell(opts.mode);
      var xSize := PaddedWidth(w, scale);
      PaddedWidthSound(w, scale);
      var padded := if w % scale != 0 then PadRows(img, xSize) else img;
      assert Shaped(padded, xSize, h);
    }
  }

  /**
   * Every stored record is coherent; it is valid, carries the id it is
   * stored under, and is not placed in VRAM (packing starts over after a
   * conversion).  A textured record has a CLUT exactly when the colour mode
   * is indexed and a CLUT was asked for.
   */
  lemma ConvertedSound(id: string, opts: Options, texturePath: string, source: Option<Picture>, pil: Imaging)
    requires ImagingOk(pil) && Converted(id, opts, texturePath, source, pil).Some?
    ensures var m := Converted(id, opts, texturePath, source, pil).value;
            && Coherent(m) && m.valid && m.id == id && m.kind == Some(opts.kind)
            && !m.packed && !m.packedCLUT && m.xPos == 640 && m.yPos == 0
            && (HasClut(m) <==> opts.kind == Textured && opts.mode != Direct15 && opts.generateClut)
  {
    if opts.kind == Textured {
      TextureOfOk(opts, source.value, pil);
    }
  }

  /**
   * A converted texture's geometry: the width in cells times the texels
   * per cell is the stored width, which is the target width rounded up to
   * a whole cell; a 15-bit texture's pixels all survive export exactly.
   */
  lemma TextureOfGeometry(opts: Options, src: Picture, pil: Imaging)
    requires ImagingOk(pil) && TextureOf(opts, src, pil).Some?
    ensures var t := TextureOf(opts, src, pil).value;
            var (w, h) := TargetSize(opts.adjust, src.width, src.height);
            && t.ySize == h && t.colorMode == opts.mode
            && t.tpXSize * TexelsPerCell(t.colorMode) == t.xSize
            && w <= t.xSize < w + TexelsPerCell(t.colorMode)
  {
    var (w, h) := TargetSize(opts.adjust, src.width, src.height);
    PaddedWidthSound(w, TexelsPerCell(opts.mode));
  }

  /**
   * `convertSingle`: stores the converted record under `id`, replacing any
   * record there, or leaves the dictionary as it was when `Converted` is
   * `None`.  The 15-bit pass runs in place on a pixel array and the palette
   * pass in place on the palette list, which then drives the re-mapping.
   */
  method ConvertSingle(store: MatStore, id: string, opts: Options, texturePath: string, source: Option<Picture>, pil: Imaging)
    requires store.Valid() && ImagingOk(pil)
    modifies store
    ensures store.Valid()
    ensures match Converted(id, opts, texturePath, source, pil)
            case None => store.mats == old(store.mats) && store.order == old(store.order)
            case Some(m) => store.mats == old(store.mats)[id := m] && store.order == PutKey(old(store.order), id)
  {
    if id == "" {
      return;
    }
    if opts.kind != Textured {
      var converted := NewMat().(id := id, valid := true, kind := Some(opts.kind));
      store.Put(id, converted);
      return;
    }
    if texturePath == "" || source.None? {
      return;
    }
    var texture := ConvertTexture(opts, source.value, pil);
    if texture.None? {
      return;
    }
    var converted := NewMat().(id := id, valid := true, kind := Some(Textured), origTexturePath := texturePath,
                               texture := texture, tiled := opts.tiled, forceSemiTrans := opts.semiTrans);
    assert Converted(id, opts, texturePath, source, pil) == Some(converted);
    ConvertedSound(id, opts, texturePath, source, pil);
    store.Put(id, converted);
  }

  /**
   * The image steps of `convertSingle` for a textured record: size, black
   * removal, then either the 15-bit pass or the palette pass, padding and
   * re-mapping.  `None` when the palette step fails.
   */
  method ConvertTexture(opts: Options, src: Picture, pil: Imaging) returns (texture: Option<Texture>)
    requires ImagingOk(pil)
    ensures texture == TextureOf(opts, src, pil)
  {
    // size adjustment
    var (xSize, ySize) := TargetSize(opts.adjust, src.width, src.height);
    var textureImg := pil.resize(src.pixels, xSize, ySize, opts.bilinear);
    // colour adjustment
    if opts.removeBlack {
      textureImg := RemoveBlack(textureImg);
    }
    if opts.mode == Direct15 {
      var converted := ConvertRows(textureImg, xSize, ySize);
      return Some(Texture(Direct(converted), xSize, ySize, opts.tileX, opts.tileY, Direct15, xSize, None));
    }
    var colorCount := ColorCount(opts.mode);
    var tpWidthScale := TexelsPerCell(opts.mode);
    var p := pil.palette(textureImg, colorCount);
    var pallet := new Channel[|p|](j requires 0 <= j < |p| => p[j]);
    assert pallet[..] == p;
    var texturePalImg := ConvertPallet15BPP(pallet, colorCount);
    if texturePalImg.None? {
      return None;
    }
    var textureCLUT := if opts.generateClut then texturePalImg else None;
    var tpXSize := (xSize + tpWidthScale - 1) / tpWidthScale;
    var width := xSize;
    if xSize % tpWidthScale != 0 {
      width := tpXSize * tpWidthScale;
      textureImg := PadRows(textureImg, width);
    }
    var idx := pil.remap(textureImg, colorCount, pallet[..], opts.dither);
    return Some(Texture(Indexed(idx), width, ySize, opts.tileX, opts.tileY, opts.mode, tpXSize, textureCLUT));
  }

  /** Runs the 15-bit pass on a pixel array holding the picture and reads the result back as rows. */
  method ConvertRows(img: Image, w: nat, h: nat) returns (rows: Image)
    requires Shaped(img, w, h)
    ensures rows == QuantRows(img)
  {
    var image := new Rgb[w, h]((x, y) requires 0 <= x < w && 0 <= y < h => img[y][x]);
    ConvertImg15BPP(image);
    rows := seq(h, y requires 0 <= y < h reads image => seq(w, x requires 0 <= x < w reads image => image[x, y]));
    assert forall y :: 0 <= y < h ==> rows[y] == QuantRows(img)[y];
  }

  /**
   * `unconvertSelected`: every selected id that has a record loses it;
   * ids without one are skipped, every other record stays, and the
   * remaining keys keep their relative order.
   */
  method UnconvertSelected(store: MatStore, selected: seq<string>)
    requires store.Valid()
    modifies store
    ensures store.Valid()
    ensures store.mats == old(store.mats) - set k | k in selected
    ensures store.order == Without(old(store.order), set k | k in selected)
  {
    ghost var gone: set<string> := {};
    WithoutNothing(store.order);
    var i := 0;
    while i < |selected|
      invariant 0 <= i <= |selected| && store.Valid()
      invariant store.mats == old(store.mats) - gone
      invariant store.order == Without(old(store.order), gone)
      invariant forall k :: k in gone <==> k in selected[..i]
    {
      RemoveOne(old(store.mats), gone, selected[i]);
      if selected[i] in store.mats {
        WithoutDropKey(old(store.order), gone, selected[i]);
        store.Delete(selected[i]);
      } else {
        WithoutAbsent(old(store.order), gone, selected[i]);
      }
      assert selected[..i + 1] == selected[..i] + [selected[i]];
      gone := gone + {selected[i]};
      i := i + 1;
    }
    assert selected[..i] == selected;
    assert gone == set k | k in selected;
  }

  /** Removing one more key from what is left is removing it along with the others. */
  lemma RemoveOne(d: map<string, Mat>, gone: set<string>, k: string)
    ensures (if k in d - gone then (d - gone) - {k} else d - gone) == d - (gone + {k})
  {
  }
}
