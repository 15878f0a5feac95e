/**
 * The converted-material record shared by the texture converter, the VRAM
 * packer and the model exporter, and the dictionary that holds those records.
 *
 * The record is a value (`Mat`); the dictionary is an object (`MatStore`)
 * whose entries the three components replace in place.  A record is created
 * fresh for every conversion and never stored under two keys, so updating a
 * field of a stored record is the same as replacing that key's entry.
 */
module Material {

  datatype Option<T> = None | Some(value: T)

  /** One 8-bit colour channel as PIL stores it in an RGB image. */
  type Channel = c: int | 0 <= c < 256

  datatype Rgb = Rgb(r: Channel, g: Channel, b: Channel)

  /** Pixel colour format of a converted texture (`colorMode` 15, 8 or 4). */
  datatype ColorMode = Direct15 | Indexed8 | Indexed4

  /** Primitive type picked on conversion (first letter F, G or T). */
  datatype PrimType = Flat | Gouraud | Textured

  /** The tile extents offered for tiling; every one is a power of two. */
  datatype TileSize = Tile8 | Tile16 | Tile32 | Tile64 | Tile128 | Tile256

  function TileExtent(s: TileSize): (n: nat)
    ensures 8 <= n <= 256
  {
    match s
    case Tile8 => 8
    case Tile16 => 16
    case Tile32 => 32
    case Tile64 => 64
    case Tile128 => 128
    case Tile256 => 256
  }

  /** Bits per pixel of a colour mode. */
  function Bpp(mode: ColorMode): nat
  {
    match mode
    case Direct15 => 15
    case Indexed8 => 8
    case Indexed4 => 4
  }

  /** Palette size `{4: 16, 8: 256}` of the indexed modes. */
  function ColorCount(mode: ColorMode): (n: nat)
    requires mode != Direct15
    ensures 16 <= n <= 256
  {
    if mode == Indexed8 then 256 else 16
  }

  /** Texels per 16-bit VRAM cell: `{15: 1, 8: 2, 4: 4}`. */
  function TexelsPerCell(mode: ColorMode): (n: nat)
    ensures n * Bpp(mode) <= 16 && n >= 1
  {
    match mode
    case Direct15 => 1
    case Indexed8 => 2
    case Indexed4 => 4
  }

  /** Texture-page width in cells: `{4: 64, 8: 128, 15: 256}`. */
  function TpWidth(mode: ColorMode): (n: nat)
    ensures n * TexelsPerCell(mode) == 256
  {
    match mode
    case Direct15 => 256
    case Indexed8 => 128
    case Indexed4 => 64
  }

  /** Pixel data of a converted texture: RGB for 15 bpp, palette indices otherwise. Rows are indexed by y. */
  datatype Texels = Direct(rgb: seq<seq<Rgb>>) | Indexed(idx: seq<seq<int>>)

  /**
   * The texture attributes of a record; the source leaves all of them `None`
   * until a textured conversion sets all of them together.
   */
  datatype Texture = Texture(
    img: Texels,             // textureImg
    xSize: nat,              // width in texels (padded for 8 and 4 bpp)
    ySize: nat,              // height
    tileX: TileSize,
    tileY: TileSize,
    colorMode: ColorMode,
    tpXSize: nat,            // width in VRAM cells
    clut: Option<seq<Rgb>>)  // textureCLUT, a colorCount x 1 image

  datatype Mat = Mat(
    id: string,
    valid: bool,
    kind: Option<PrimType>,
    origTexturePath: string,
    texture: Option<Texture>,
    tiled: bool,
    forceSemiTrans: bool,
    packed: bool,
    xPos: int,
    yPos: int,
    packedCLUT: bool,
    xPosCLUT: int,
    yPosCLUT: int)

  /** A fresh record as its initialiser leaves it. */
  function NewMat(): (m: Mat)
    ensures m.id == "" && !m.valid && m.kind == None && m.origTexturePath == ""
    ensures m.texture == None && !m.tiled && !m.forceSemiTrans
    ensures !m.packed && m.xPos == 640 && m.yPos == 0
    ensures !m.packedCLUT && m.xPosCLUT == 0 && m.yPosCLUT == 0
  {
    Mat("", false, None, "", None, false, false, false, 640, 0, false, 0, 0)
  }

  /** Every row of `rows` has `width` entries and there are `height` rows. */
  ghost predicate Shaped<T>(rows: seq<seq<T>>, width: nat, height: nat)
  {
    |rows| == height && forall y :: 0 <= y < height ==> |rows[y]| == width
  }

  /** What a textured conversion guarantees about the attributes it stores. */
  ghost predicate TextureOk(t: Texture)
  {
    && (t.colorMode == Direct15 <==> t.img.Direct?)
    && (t.img.Direct? ==> Shaped(t.img.rgb, t.xSize, t.ySize) && t.tpXSize == t.xSize && t.clut == None)
    && (t.img.Indexed? ==>
          && Shaped(t.img.idx, t.xSize, t.ySize)
          && t.xSize == t.tpXSize * TexelsPerCell(t.colorMode)
          && (forall y, x :: 0 <= y < t.ySize && 0 <= x < t.xSize ==> 0 <= t.img.idx[y][x] < ColorCount(t.colorMode))
          && (t.clut.Some? ==> |t.clut.value| == ColorCount(t.colorMode)))
  }

  /**
   * What the three components keep true of every stored record: only a
   * textured record carries texture attributes, only a record with a texture
   * is packed, and only a record with a CLUT image has its CLUT packed.
   */
  ghost predicate Coherent(m: Mat)
  {
    && (m.kind == Some(Textured) <==> m.texture.Some?)
    && (m.texture.Some? ==> TextureOk(m.texture.value))
    && Packable(m)
  }

  /** The record has a CLUT image (`textureCLUT != None`). */
  predicate HasClut(m: Mat)
  {
    m.texture.Some? && m.texture.value.clut.Some?
  }

  /**
   * The part of `Coherent` the VRAM packer relies on: a packed texture
   * exists, a packed CLUT exists, and a CLUT belongs to an indexed mode.
   */
  ghost predicate Packable(m: Mat)
  {
    && (m.packed ==> m.texture.Some?)
    && (m.packedCLUT ==> HasClut(m))
    && (HasClut(m) ==> m.texture.value.colorMode != Direct15)
  }

  predicate Distinct<T(==)>(s: seq<T>)
  {
    forall i, j :: 0 <= i < j < |s| ==> s[i] != s[j]
  }

  /** `order` lists the keys of `mats` once each; it is the dictionary's iteration order. */
  ghost predicate Ordered(order: seq<string>, mats: map<string, Mat>)
  {
    Distinct(order) && forall k :: k in mats <==> k in order
  }

  /** A well-formed dictionary snapshot: its key order and coherent records. */
  ghost predicate StoreOk(order: seq<string>, mats: map<string, Mat>)
  {
    Ordered(order, mats) && forall k :: k in mats ==> Coherent(mats[k])
  }

  /** Key order after `d[id] = v`: an existing key keeps its place, a new one goes last. */
  function PutKey(order: seq<string>, id: string): (r: seq<string>)
    ensures Distinct(order) ==> Distinct(r)
    ensures forall k :: k in r <==> k in order || k == id
  {
    if id in order then order else order + [id]
  }

  /** Key order after `del d[id]`. */
  function DropKey(order: seq<string>, id: string): (r: seq<string>)
    ensures forall k :: k in r <==> k in order && k != id
    ensures Distinct(order) ==> Distinct(r)
    ensures |r| <= |order|
  {
    if order == [] then []
    else if order[0] == id then DropKey(order[1..], id)
    else
      var rest := DropKey(order[1..], id);
      if Distinct(order) then
        DistinctTail(order);
        assert forall j :: 0 <= j < |rest| ==> rest[j] in order[1..];
        DistinctCons(order[0], rest);
        [order[0]] + rest
      else
        [order[0]] + rest
  }

  /** The keys of `order` outside `gone`, in their old relative order. */
  function Without(order: seq<string>, gone: set<string>): (r: seq<string>)
    ensures forall k :: k in r <==> k in order && k !in gone
  {
    if order == [] then []
    else (if order[0] in gone then [] else [order[0]]) + Without(order[1..], gone)
  }

  /** `del` keeps every other key, in its old relative order. */
  lemma {:induction false} DropKeyKeepsOrder(order: seq<string>, id: string)
    ensures DropKey(order, id) == Without(order, {id})
  {
    if order != [] {
      DropKeyKeepsOrder(order[1..], id);
    }
  }

  /** Deleting one more key from what is left is filtering it out along with the others. */
  lemma {:induction false} WithoutDropKey(order: seq<string>, gone: set<string>, id: string)
    ensures DropKey(Without(order, gone), id) == Without(order, gone + {id})
  {
    if order != [] {
      WithoutDropKey(order[1..], gone, id);
      var w := Without(order[1..], gone);
      if order[0] in gone {
        assert Without(order, gone) == w;
      } else {
        assert Without(order, gone) == [order[0]] + w;
        assert ([order[0]] + w)[1..] == w;
      }
    }
  }

  /** Filtering out a key that is already gone changes nothing. */
  lemma {:induction false} WithoutAbsent(order: seq<string>, gone: set<string>, id: string)
    requires id !in Without(order, gone)
    ensures Without(order, gone + {id}) == Without(order, gone)
  {
    if order != [] {
      if order[0] !in gone {
        assert order[0] in Without(order, gone);
      }
      assert id !in Without(order[1..], gone);
      WithoutAbsent(order[1..], gone, id);
    }
  }

  /** Filtering out nothing keeps the order. */
  lemma {:induction false} WithoutNothing(order: seq<string>)
    ensures Without(order, {}) == order
  {
    if order != [] {
      WithoutNothing(order[1..]);
      assert order == [order[0]] + order[1..];
    }
  }

  lemma DistinctTail<T>(s: seq<T>)
    requires Distinct(s) && |s| > 0
    ensures Distinct(s[1..]) && s[0] !in s[1..]
  {
    assert forall j :: 0 <= j < |s| - 1 ==> s[1..][j] == s[j + 1] && s[j + 1] != s[0];
  }

  lemma DistinctCons<T>(h: T, s: seq<T>)
    requires Distinct(s) && h !in s
    ensures Distinct([h] + s)
  {
    forall i, j | 0 <= i < j < |[h] + s| ensures ([h] + s)[i] != ([h] + s)[j] {
      if i > 0 {
        assert ([h] + s)[i] == s[i - 1];
      }
      assert ([h] + s)[j] == s[j - 1];
    }
  }

  /** The shared `convertedMats` dictionary. */
  class MatStore {
    var order: seq<string>
    var mats: map<string, Mat>

    ghost predicate Valid()
      reads this
    {
      StoreOk(order, mats)
    }

    constructor ()
      ensures Valid() && order == [] && mats == map[]
    {
      order := [];
      mats := map[];
    }

    /** `convertedMats[id] = m` */
    method Put(id: string, m: Mat)
      requires Valid() && Coherent(m)
      modifies this
      ensures Valid()
      ensures mats == old(mats)[id := m] && order == PutKey(old(order), id)
    {
      order := PutKey(order, id);
      mats := mats[id := m];
    }

    /** `del convertedMats[id]` */
    method Delete(id: string)
      requires Valid() && id in mats
      modifies this
      ensures Valid()
      ensures mats == old(mats) - {id} && order == DropKey(old(order), id)
    {
      order := DropKey(order, id);
      mats := mats - {id};
    }
  }
}
