/**
 * The VRAM packer's two exports of the packed textures and CLUTs: the
 * binary file (little-endian 16-bit words) and the C header (unsigned short
 * arrays plus a `struct Texture` table).  Both walk the material dictionary
 * in order and emit, for every packed textured record, one texture block
 * and, when its CLUT is packed, one CLUT block.
 */
module VramExport {
  import opened Material
  import opened Bits

  // ---------------------------------------------------------------------
  // Pixel words
  // ---------------------------------------------------------------------

  /** The 15-bit direct-colour word `(B>>3)<<10 + (G>>3)<<5 + (R>>3)`. */
  function Word15(p: Rgb): (w: int)
    ensures 0 <= w < 0x8000
  {
    (p.b / 8) * 1024 + (p.g / 8) * 32 + p.r / 8
  }

  /** The 8-bit indexed word `(p1<<8) + p0`: two texels per cell, lowest x in the low byte. */
  function Word8(p0: int, p1: int): int
  {
    p1 * 256 + p0
  }

  /** The 4-bit indexed word `(p3<<12) + (p2<<8) + (p1<<4) + p0`: four texels per cell, lowest x in the low nibble. */
  function Word4(p0: int, p1: int, p2: int, p3: int): int
  {
    p3 * 4096 + p2 * 256 + p1 * 16 + p0
  }

  /** The five-bit fields of a 15-bit word: red in bits 0-4, green in 5-9, blue in 10-14. */
  function Fields15(w: int): (int, int, int)
  {
    (w % 32, (w / 32) % 32, (w / 1024) % 32)
  }

  /** A 15-bit word is below 2^15 and gives back the three channels shifted right by 3. */
  lemma Word15Decodes(p: Rgb)
    ensures Fields15(Word15(p)) == (p.r / 8, p.g / 8, p.b / 8)
  {
    var r, g, b := p.r / 8, p.g / 8, p.b / 8;
    var w := Word15(p);
    DivModOf(w, 32, b * 32 + g, r);
    DivModOf(b * 32 + g, 32, b, g);
    DivModOf(w, 1024, b, g * 32 + r);
    DivModOf(b, 32, 0, b);
  }

  /**
   * A pixel whose channels have their low three bits clear, as the texture
   * converter leaves every 15-bit texel and every CLUT entry, is recovered
   * exactly from its word.
   */
  lemma Word15RoundTrip(p: Rgb)
    requires p.r % 8 == 0 && p.g % 8 == 0 && p.b % 8 == 0
    ensures var (r, g, b) := Fields15(Word15(p)); Rgb(r * 8, g * 8, b * 8) == p
  {
    Word15Decodes(p);
  }

  /** With both indices below 256, the 8-bit word fits 16 bits and gives them back. */
  lemma Word8RoundTrip(p0: int, p1: int)
    requires 0 <= p0 < 256 && 0 <= p1 < 256
    ensures 0 <= Word8(p0, p1) < 0x10000
    ensures Word8(p0, p1) % 256 == p0 && Word8(p0, p1) / 256 == p1
  {
    DivModOf(Word8(p0, p1), 256, p1, p0);
  }

  /** With all four indices below 16, the 4-bit word fits 16 bits and gives them back nibble by nibble. */
  lemma Word4RoundTrip(p0: int, p1: int, p2: int, p3: int)
    requires 0 <= p0 < 16 && 0 <= p1 < 16 && 0 <= p2 < 16 && 0 <= p3 < 16
    ensures 0 <= Word4(p0, p1, p2, p3) < 0x10000
    ensures Word4(p0, p1, p2, p3) % 16 == p0
    ensures (Word4(p0, p1, p2, p3) / 16) % 16 == p1
    ensures (Word4(p0, p1, p2, p3) / 256) % 16 == p2
    ensures Word4(p0, p1, p2, p3) / 4096 == p3
  {
    var w := Word4(p0, p1, p2, p3);
    DivModOf(w, 16, p3 * 256 + p2 * 16 + p1, p0);
    DivModOf(p3 * 256 + p2 * 16 + p1, 16, p3 * 16 + p2, p1);
    DivModOf(w, 256, p3 * 16 + p2, p1 * 16 + p0);
    DivModOf(p3 * 16 + p2, 16, p3, p2);
    DivModOf(w, 4096, p3, p2 * 256 + p1 * 16 + p0);
  }

  // ---------------------------------------------------------------------
  // Blocks
  // ---------------------------------------------------------------------

  /** The word of VRAM cell (x, y) of a converted texture, by its colour mode. */
  function CellWord(t: Texture, x: nat, y: nat): (w: int)
    requires TextureOk(t) && x < t.tpXSize && y < t.ySize
    ensures 0 <= w < 0x10000
  {
    match t.colorMode
    case Direct15 =>
      Word15(t.img.rgb[y][x])
    case Indexed8 =>
      var row := t.img.idx[y];
      Word8RoundTrip(row[x * 2], row[x * 2 + 1]);
      Word8(row[x * 2], row[x * 2 + 1])
    case Indexed4 =>
      var row := t.img.idx[y];
      Word4RoundTrip(row[x * 4], row[x * 4 + 1], row[x * 4 + 2], row[x * 4 + 3]);
      Word4(row[x * 4], row[x * 4 + 1], row[x * 4 + 2], row[x * 4 + 3])
  }

  /** The words of the first `n` rows of a texture, row by row, each row `tpXSize` cells. */
  function BodyWords(t: Texture, n: nat): seq<int>
    requires TextureOk(t) && n <= t.ySize
  {
    if n == 0 then []
    else BodyWords(t, n - 1) + seq(t.tpXSize, x requires 0 <= x < t.tpXSize => CellWord(t, x, n - 1))
  }

  lemma {:induction false} BodyWordsLength(t: Texture, n: nat)
    requires TextureOk(t) && n <= t.ySize
    ensures |BodyWords(t, n)| == n * t.tpXSize
  {
    if n > 0 {
      BodyWordsLength(t, n - 1);
      assert (n - 1) * t.tpXSize + t.tpXSize == n * t.tpXSize;
    }
  }

  /** The body is row-major: cell (x, y) is word `y * tpXSize + x`. */
  lemma {:induction false} BodyWordsAt(t: Texture, n: nat, x: nat, y: nat)
    requires TextureOk(t) && n <= t.ySize && y < n && x < t.tpXSize
    ensures |BodyWords(t, n)| == n * t.tpXSize
    ensures y * t.tpXSize + x < |BodyWords(t, n)| && BodyWords(t, n)[y * t.tpXSize + x] == CellWord(t, x, y)
  {
    var w := t.tpXSize;
    BodyWordsLength(t, n);
    BodyWordsLength(t, n - 1);
    var prev := BodyWords(t, n - 1);
    if y < n - 1 {
      BodyWordsAt(t, n - 1, x, y);
      assert BodyWords(t, n)[y * w + x] == prev[y * w + x];
    } else {
      assert y * w + x == |prev| + x;
    }
  }

  /** One block of either export: a `w, h, x, y` header and `w * h` body words. */
  datatype Block = Block(w: int, h: int, x: int, y: int, body: seq<int>)

  /** The texture block of a packed textured record: `tpXSize, ySize, xPos, yPos` and its cells. */
  function TextureBlock(m: Mat): (b: Block)
    requires Coherent(m) && m.texture.Some?
    ensures b.w == m.texture.value.tpXSize && b.h == m.texture.value.ySize
    ensures |b.body| == b.w * b.h && (b.x, b.y) == (m.xPos, m.yPos)
  {
    var t := m.texture.value;
    BodyWordsLength(t, t.ySize);
    Block(t.tpXSize, t.ySize, m.xPos, m.yPos, BodyWords(t, t.ySize))
  }

  /** The CLUT block of a record with a CLUT image: `colorCount, 1, xPosCLUT, yPosCLUT` and one 15-bit word per entry. */
  function ClutBlock(m: Mat): (b: Block)
    requires Coherent(m) && HasClut(m)
    ensures b.w == ColorCount(m.texture.value.colorMode) && b.h == 1 && |b.body| == b.w
    ensures (b.x, b.y) == (m.xPosCLUT, m.yPosCLUT)
    ensures forall i :: 0 <= i < b.w ==> b.body[i] == Word15(m.texture.value.clut.value[i])
  {
    var t := m.texture.value;
    var cc := ColorCount(t.colorMode);
    Block(cc, 1, m.xPosCLUT, m.yPosCLUT, seq(cc, i requires 0 <= i < cc => Word15(t.clut.value[i])))
  }

  /** The record is exported: it is textured and its texture is packed. */
  predicate Exported(m: Mat)
  {
    m.kind == Some(Textured) && m.packed
  }

  /** The blocks of one record: none, its texture, or its texture then its CLUT. */
  function MatBlocks(m: Mat): seq<Block>
    requires Coherent(m)
  {
    if !Exported(m) then []
    else [TextureBlock(m)] + if m.packedCLUT then [ClutBlock(m)] else []
  }

  /** Every key of the order names a coherent record. */
  ghost predicate Readable(order: seq<string>, mats: map<string, Mat>)
  {
    forall k :: k in order ==> k in mats && Coherent(mats[k])
  }

  /** The blocks of the records `order[..n]`, in dictionary order. */
  function Blocks(order: seq<string>, mats: map<string, Mat>, n: nat): seq<Block>
    requires Readable(order, mats) && n <= |order|
  {
    if n == 0 then [] else Blocks(order, mats, n - 1) + MatBlocks(mats[order[n - 1]])
  }

  /** A block is well formed when its body holds `w * h` words. */
  ghost predicate WellFormed(bs: seq<Block>)
  {
    forall i :: 0 <= i < |bs| ==> bs[i].w >= 0 && bs[i].h >= 0 && |bs[i].body| == bs[i].w * bs[i].h
  }

  lemma {:induction false} BlocksWellFormed(order: seq<string>, mats: map<string, Mat>, n: nat)
    requires Readable(order, mats) && n <= |order|
    ensures WellFormed(Blocks(order, mats, n))
  {
    if n > 0 {
      BlocksWellFormed(order, mats, n - 1);
      var prev := Blocks(order, mats, n - 1);
      var m := mats[order[n - 1]];
      assert order[n - 1] in order;
      MatBlocksWellFormed(m);
      WellFormedAppend(prev, MatBlocks(m));
    }
  }

  lemma MatBlocksWellFormed(m: Mat)
    requires Coherent(m)
    ensures WellFormed(MatBlocks(m))
  {
    if Exported(m) {
      var tb := TextureBlock(m);
      assert tb.w >= 0 && tb.h >= 0 && |tb.body| == tb.w * tb.h;
      if m.packedCLUT {
        var cb := ClutBlock(m);
        assert cb.w >= 0 && cb.h == 1 && |cb.body| == cb.w * cb.h;
      }
    }
  }

  lemma WellFormedAppend(a: seq<Block>, b: seq<Block>)
    requires WellFormed(a) && WellFormed(b)
    ensures WellFormed(a + b)
  {
    forall i | 0 <= i < |a + b|
      ensures (a + b)[i].w >= 0 && (a + b)[i].h >= 0 && |(a + b)[i].body| == (a + b)[i].w * (a + b)[i].h
    {
      if i < |a| { assert (a + b)[i] == a[i]; } else { assert (a + b)[i] == b[i - |a|]; }
    }
  }

  // ---------------------------------------------------------------------
  // exportBin
  // ---------------------------------------------------------------------

  /** The word stream of the binary file: each block's header, then its body. */
  function Words(bs: seq<Block>): seq<int>
  {
    if bs == [] then [] else [bs[0].w, bs[0].h, bs[0].x, bs[0].y] + bs[0].body + Words(bs[1..])
  }

  lemma {:induction false} WordsAppend(bs: seq<Block>, cs: seq<Block>)
    ensures Words(bs + cs) == Words(bs) + Words(cs)
  {
    if bs != [] {
      assert (bs + cs)[1..] == bs[1..] + cs;
      WordsAppend(bs[1..], cs);
    } else {
      assert bs + cs == cs;
    }
  }

  /**
   * Reads a word stream back into blocks: four header words, then `w * h`
   * body words; `None` when the stream ends early or a size is negative.
   */
  function ParseBlocks(ws: seq<int>): Option<seq<Block>>
    decreases |ws|
  {
    if ws == [] then Some([])
    else if |ws| < 4 || ws[0] < 0 || ws[1] < 0 || |ws| - 4 < ws[0] * ws[1] then None
    else
      var n := 4 + ws[0] * ws[1];
      match ParseBlocks(ws[n..])
      case None => None
      case Some(rest) => Some([Block(ws[0], ws[1], ws[2], ws[3], ws[4..n])] + rest)
  }

  /** The binary file holds its blocks and nothing else: parsing its words gives them all back. */
  lemma {:induction false} ParseWords(bs: seq<Block>)
    requires WellFormed(bs)
    ensures ParseBlocks(Words(bs)) == Some(bs)
  {
    if bs != [] {
      var b := bs[0];
      var ws := Words(bs);
      var n := 4 + b.w * b.h;
      assert ws == [b.w, b.h, b.x, b.y] + b.body + Words(bs[1..]);
      assert ws[n..] == Words(bs[1..]);
      assert ws[4..n] == b.body;
      assert WellFormed(bs[1..]) by {
        forall i | 0 <= i < |bs[1..]| ensures bs[1..][i] == bs[i + 1] { }
      }
      ParseWords(bs[1..]);
      assert [b] + bs[1..] == bs;
    }
  }

  type Byte = b: int | 0 <= b < 256

  /** `struct.pack('<H', w)` for every word, or `None` (the `struct.error`) when a word is outside 0..65535. */
  function PackU16(ws: seq<int>): Option<seq<Byte>>
  {
    if ws == [] then Some([])
    else if !(0 <= ws[0] < 0x10000) then None
    else match PackU16(ws[1..])
      case None => None
      case Some(rest) => Some([ws[0] % 256, ws[0] / 256] + rest)
  }

  /** Reads little-endian 16-bit words back from bytes. */
  function UnpackU16(bs: seq<Byte>): seq<int>
    requires |bs| % 2 == 0
  {
    if bs == [] then [] else [bs[0] + bs[1] * 256] + UnpackU16(bs[2..])
  }

  /** Packing succeeds exactly when every word fits 16 bits, and then the bytes read back to the words. */
  lemma {:induction false} PackU16RoundTrip(ws: seq<int>)
    ensures PackU16(ws).Some? <==> forall i :: 0 <= i < |ws| ==> 0 <= ws[i] < 0x10000
    ensures PackU16(ws).Some? ==> |PackU16(ws).value| == 2 * |ws| && UnpackU16(PackU16(ws).value) == ws
  {
    if ws != [] {
      PackU16RoundTrip(ws[1..]);
      if 0 <= ws[0] < 0x10000 && PackU16(ws[1..]).Some? {
        var bs := PackU16(ws).value;
        assert bs[2..] == PackU16(ws[1..]).value;
        assert [ws[0]] + ws[1..] == ws;
      }
      if !(0 <= ws[0] < 0x10000) {
        assert !(0 <= ws[0] < 0x10000);
      } else if exists i :: 1 <= i < |ws| && !(0 <= ws[i] < 0x10000) {
        var i :| 1 <= i < |ws| && !(0 <= ws[i] < 0x10000);
        assert ws[1..][i - 1] == ws[i];
      } else {
        forall i | 0 <= i < |ws| - 1 ensures 0 <= ws[1..][i] < 0x10000 { assert ws[1..][i] == ws[i + 1]; }
      }
    }
  }

  /**
   * `exportBin`: for every packed textured record in dictionary order, the
   * header `<HHHH` and the texture's words, then, when its CLUT is packed,
   * the CLUT header and its 15-bit words.  The words are returned; the
   * file's bytes are `PackU16` of them.
   */
  method ExportBin(order: seq<string>, mats: map<string, Mat>) returns (words: seq<int>)
    requires Readable(order, mats)
    ensures words == Words(Blocks(order, mats, |order|))
  {
    words := [];
    var i := 0;
    while i < |order|
      invariant 0 <= i <= |order| && words == Words(Blocks(order, mats, i))
    {
      var m := mats[order[i]];
      assert order[i] in order && Coherent(m);
      var more := RecordWords(m);
      WordsAppend(Blocks(order, mats, i), MatBlocks(m));
      BlocksNext(order, mats, i);
      words := words + more;
      i := i + 1;
    }
  }

  lemma BlocksNext(order: seq<string>, mats: map<string, Mat>, i: nat)
    requires Readable(order, mats) && i < |order|
    ensures Blocks(order, mats, i + 1) == Blocks(order, mats, i) + MatBlocks(mats[order[i]])
  {
  }

  /** The body of `exportBin`'s loop for one record. */
  method RecordWords(m: Mat) returns (words: seq<int>)
    requires Coherent(m)
    ensures words == Words(MatBlocks(m))
  {
    if !Exported(m) {
      return [];
    }
    var t := m.texture.value;
    var body := TextureWords(t);
    words := [t.tpXSize, t.ySize, m.xPos, m.yPos] + body;
    assert Words([TextureBlock(m)]) == words;
    if m.packedCLUT {
      var cc := ColorCount(t.colorMode);
      var clut := ClutWords(t.clut.value, cc);
      assert Words([ClutBlock(m)]) == [cc, 1, m.xPosCLUT, m.yPosCLUT] + clut;
      WordsAppend([TextureBlock(m)], [ClutBlock(m)]);
      words := words + ([cc, 1, m.xPosCLUT, m.yPosCLUT] + clut);
    }
  }

  /** The loops of `exportBin` over the rows and cells of one texture. */
  method TextureWords(t: Texture) returns (words: seq<int>)
    requires TextureOk(t)
    ensures words == BodyWords(t, t.ySize)
  {
    words := [];
    var y := 0;
    while y < t.ySize
      invariant 0 <= y <= t.ySize && words == BodyWords(t, y)
    {
      var row := [];
      var x := 0;
      while x < t.tpXSize
        invariant 0 <= x <= t.tpXSize
        invariant row == seq(x, i requires 0 <= i < x => CellWord(t, i, y))
      {
        row := row + [CellWord(t, x, y)];
        x := x + 1;
      }
      words := words + row;
      y := y + 1;
    }
  }

  /** The loop of `exportBin` over the CLUT entries. */
  method ClutWords(clut: seq<Rgb>, colorCount: nat) returns (words: seq<int>)
    requires colorCount <= |clut|
    ensures words == seq(colorCount, i requires 0 <= i < colorCount => Word15(clut[i]))
  {
    words := [];
    var x := 0;
    while x < colorCount
      invariant 0 <= x <= colorCount
      invariant words == seq(x, i requires 0 <= i < x => Word15(clut[i]))
    {
      words := words + [Word15(clut[x])];
      x := x + 1;
    }
  }

  /** Word `j` of a body `n` rows of `w` cells lies in row `j / w`, column `j % w`. */
  lemma RowColumn(j: int, w: int, n: int)
    requires 0 <= j < n * w && w >= 0
    ensures w > 0 && 0 <= j / w < n && 0 <= j % w < w && j == (j / w) * w + j % w
  {
    if j / w >= n {
      MulMono(n, j / w, w);
    }
  }

  /** Every word of a texture body fits 16 bits. */
  lemma TextureBodyFits(t: Texture, j: int)
    requires TextureOk(t) && 0 <= j < |BodyWords(t, t.ySize)|
    ensures 0 <= BodyWords(t, t.ySize)[j] < 0x10000
  {
    BodyWordsLength(t, t.ySize);
    RowColumn(j, t.tpXSize, t.ySize);
    BodyWordsAt(t, t.ySize, j % t.tpXSize, j / t.tpXSize);
  }

  /** Every body word of an exported block fits 16 bits: only header values can make `struct.pack` fail. */
  lemma {:induction false} BodiesFit(order: seq<string>, mats: map<string, Mat>, n: nat, i: int, j: int)
    requires Readable(order, mats) && n <= |order|
    requires 0 <= i < |Blocks(order, mats, n)| && 0 <= j < |Blocks(order, mats, n)[i].body|
    ensures 0 <= Blocks(order, mats, n)[i].body[j] < 0x10000
  {
    var prev := Blocks(order, mats, n - 1);
    assert order[n - 1] in order;
    var m := mats[order[n - 1]];
    var more := MatBlocks(m);
    assert Blocks(order, mats, n) == prev + more;
    if i < |prev| {
      assert Blocks(order, mats, n)[i] == prev[i];
      BodiesFit(order, mats, n - 1, i, j);
    } else {
      assert Blocks(order, mats, n)[i] == more[i - |prev|];
      if i - |prev| == 0 {
        assert more[0] == TextureBlock(m);
        TextureBodyFits(m.texture.value, j);
      } else {
        assert more[1] == ClutBlock(m);
        assert 0 <= Word15(m.texture.value.clut.value[j]) < 0x8000;
      }
    }
  }

  // ---------------------------------------------------------------------
  // exportHeader
  // ---------------------------------------------------------------------

  predicate IsAlpha(c: char) { 'a' <= c <= 'z' || 'A' <= c <= 'Z' }
  predicate IsAlnum(c: char) { IsAlpha(c) || '0' <= c <= '9' }

  /** The letters and digits of a name, in order. */
  function Alnum(s: string): (r: string)
    ensures forall i :: 0 <= i < |r| ==> IsAlnum(r[i])
    ensures |r| <= |s|
  {
    if s == [] then [] else (if IsAlnum(s[0]) then [s[0]] else []) + Alnum(s[1..])
  }

  /**
   * The C identifier stem of a material name: its letters and digits,
   * prefixed with `m` unless it starts with a letter.  A name with no letter
   * or digit makes `safeName[0]` raise, which ends the export: `None`.
   */
  function SafeName(name: string): (r: Option<string>)
    ensures r.None? <==> Alnum(name) == []
    ensures r.Some? ==> |r.value| > 0 && IsAlpha(r.value[0]) && forall i :: 0 <= i < |r.value| ==> IsAlnum(r.value[i])
  {
    var s := Alnum(name);
    if s == [] then None else if IsAlpha(s[0]) then Some(s) else Some("m" + s)
  }

  /** An `unsigned short NAME[] = {...}` array of the header. */
  datatype CArray = CArray(name: string, values: seq<int>)

  /** A `{w, h, x, y, NAME}` row of the `DAT_TEXTURES` table. */
  datatype TableRow = TableRow(w: int, h: int, x: int, y: int, data: string)

  /** What the header file declares: the arrays, the table rows and `TEXTURE_LEN`. */
  datatype TextureHeader = TextureHeader(arrays: seq<CArray>, table: seq<TableRow>, textureLen: int)

  /** The arrays of one record (texture, then CLUT), named after its identifier stem. */
  function MatArrays(stem: string, m: Mat): seq<CArray>
    requires Coherent(m)
  {
    if !Exported(m) then []
    else [CArray(stem + "_texture", TextureBlock(m).body)] + if m.packedCLUT then [CArray(stem + "_CLUT", ClutBlock(m).body)] else []
  }

  /** The table rows of one record (texture, then CLUT). */
  function MatRows(stem: string, m: Mat): seq<TableRow>
    requires Coherent(m)
  {
    if !Exported(m) then []
    else
      var t := m.texture.value;
      [TableRow(t.tpXSize, t.ySize, m.xPos, m.yPos, stem + "_texture")] +
      if m.packedCLUT then [TableRow(ColorCount(t.colorMode), 1, m.xPosCLUT, m.yPosCLUT, stem + "_CLUT")] else []
  }

  /** The stem of an exported record's key, or `None` when that key yields no identifier. */
  function Stem(key: string, m: Mat): Option<string>
  {
    if Exported(m) then SafeName(key) else Some("")
  }

  /** The key of every exported record among `order[..n]` yields an identifier. */
  ghost predicate Nameable(order: seq<string>, mats: map<string, Mat>, n: nat)
    requires Readable(order, mats) && n <= |order|
  {
    forall j :: 0 <= j < n ==> Stem(order[j], mats[order[j]]).Some?
  }

  /** The header's arrays for `order[..n]`. */
  function HeaderArrays(order: seq<string>, mats: map<string, Mat>, n: nat): seq<CArray>
    requires Readable(order, mats) && n <= |order| && Nameable(order, mats, n)
  {
    if n == 0 then []
    else HeaderArrays(order, mats, n - 1) + MatArrays(Stem(order[n - 1], mats[order[n - 1]]).value, mats[order[n - 1]])
  }

  /** The header's table rows for `order[..n]`. */
  function HeaderRows(order: seq<string>, mats: map<string, Mat>, n: nat): seq<TableRow>
    requires Readable(order, mats) && n <= |order| && Nameable(order, mats, n)
  {
    if n == 0 then []
    else HeaderRows(order, mats, n - 1) + MatRows(Stem(order[n - 1], mats[order[n - 1]]).value, mats[order[n - 1]])
  }

  /**
   * `exportHeader`: first every array in dictionary order, then the table,
   * counting its rows into `TEXTURE_LEN`.  `None` when the key of an
   * exported record has no letter or digit (the export stops with an
   * `IndexError`).
   */
  method ExportHeader(order: seq<string>, mats: map<string, Mat>) returns (r: Option<TextureHeader>)
    requires Readable(order, mats)
    ensures r.Some? <==> Nameable(order, mats, |order|)
    ensures r.Some? ==> && r.value.arrays == HeaderArrays(order, mats, |order|)
                        && r.value.table == HeaderRows(order, mats, |order|)
                        && r.value.textureLen == |r.value.table|
  {
    var arrays := WriteArrays(order, mats);
    if arrays.None? {
      return None;
    }
    var table, textureCount := WriteTable(order, mats);
    return Some(TextureHeader(arrays.value, table, textureCount));
  }

  /** The array loop of `exportHeader`; it stops at the first key that yields no identifier. */
  method WriteArrays(order: seq<string>, mats: map<string, Mat>) returns (r: Option<seq<CArray>>)
    requires Readable(order, mats)
    ensures r.Some? <==> Nameable(order, mats, |order|)
    ensures r.Some? ==> r.value == HeaderArrays(order, mats, |order|)
  {
    var arrays := [];
    var i := 0;
    while i < |order|
      invariant 0 <= i <= |order| && Nameable(order, mats, i) && arrays == HeaderArrays(order, mats, i)
    {
      var m := mats[order[i]];
      assert order[i] in order && Coherent(m);
      var stem := Stem(order[i], m);
      if stem.None? {
        NotNameable(order, mats, i);
        return None;
      }
      var more := RecordArrays(stem.value, m);
      NameableNext(order, mats, i);
      ArraysNext(order, mats, i);
      arrays := arrays + more;
      i := i + 1;
    }
    return Some(arrays);
  }

  lemma NotNameable(order: seq<string>, mats: map<string, Mat>, i: nat)
    requires Readable(order, mats) && i < |order| && Stem(order[i], mats[order[i]]).None?
    ensures !Nameable(order, mats, |order|)
  {
  }

  lemma NameableNext(order: seq<string>, mats: map<string, Mat>, i: nat)
    requires Readable(order, mats) && i < |order| && Nameable(order, mats, i) && Stem(order[i], mats[order[i]]).Some?
    ensures Nameable(order, mats, i + 1)
  {
  }

  lemma ArraysNext(order: seq<string>, mats: map<string, Mat>, i: nat)
    requires Readable(order, mats) && i < |order| && Nameable(order, mats, i + 1)
    ensures HeaderArrays(order, mats, i + 1) == HeaderArrays(order, mats, i) + MatArrays(Stem(order[i], mats[order[i]]).value, mats[order[i]])
  {
  }

  lemma RowsNext(order: seq<string>, mats: map<string, Mat>, i: nat)
    requires Readable(order, mats) && i < |order| && Nameable(order, mats, i + 1)
    ensures HeaderRows(order, mats, i + 1) == HeaderRows(order, mats, i) + MatRows(Stem(order[i], mats[order[i]]).value, mats[order[i]])
  {
  }

  /** The table loop of `exportHeader`, counting the rows it writes into `TEXTURE_LEN`. */
  method WriteTable(order: seq<string>, mats: map<string, Mat>) returns (table: seq<TableRow>, textureCount: nat)
    requires Readable(order, mats) && Nameable(order, mats, |order|)
    ensures table == HeaderRows(order, mats, |order|) && textureCount == |table|
  {
    table := [];
    textureCount := 0;
    var i := 0;
    while i < |order|
      invariant 0 <= i <= |order| && Nameable(order, mats, i)
      invariant table == HeaderRows(order, mats, i) && textureCount == |table|
    {
      var m := mats[order[i]];
      assert order[i] in order && Coherent(m);
      var stem := Stem(order[i], m);
      assert stem.Some?;
      var more := RecordRows(stem.value, m);
      NameableNext(order, mats, i);
      RowsNext(order, mats, i);
      table := table + more;
      textureCount := textureCount + |more|;
      i := i + 1;
    }
  }

  /** The body of `exportHeader`'s first loop for one record: its texture array, then its CLUT array. */
  method RecordArrays(stem: string, m: Mat) returns (arrays: seq<CArray>)
    requires Coherent(m)
    ensures arrays == MatArrays(stem, m)
  {
    if !Exported(m) {
      return [];
    }
    var t := m.texture.value;
    var body := TextureWords(t);
    arrays := [CArray(stem + "_texture", body)];
    if m.packedCLUT {
      var clut := ClutWords(t.clut.value, ColorCount(t.colorMode));
      arrays := arrays + [CArray(stem + "_CLUT", clut)];
    }
  }

  /** The body of `exportHeader`'s second loop for one record: its texture row, then its CLUT row. */
  method RecordRows(stem: string, m: Mat) returns (rows: seq<TableRow>)
    requires Coherent(m)
    ensures rows == MatRows(stem, m)
  {
    if !Exported(m) {
      return [];
    }
    var t := m.texture.value;
    rows := [TableRow(t.tpXSize, t.ySize, m.xPos, m.yPos, stem + "_texture")];
    if m.packedCLUT {
      rows := rows + [TableRow(ColorCount(t.colorMode), 1, m.xPosCLUT, m.yPosCLUT, stem + "_CLUT")];
    }
  }

  /**
   * The header and the binary file carry the same values: the table has one
   * row per block of the binary, each row's `w, h, x, y` is that block's
   * header, the array the row names holds that block's body, and so
   * `TEXTURE_LEN` is the number of blocks.
   */
  lemma {:induction false} HeaderMatchesBinary(order: seq<string>, mats: map<string, Mat>, n: nat)
    requires Readable(order, mats) && n <= |order| && Nameable(order, mats, n)
    ensures LinedUp(Blocks(order, mats, n), HeaderArrays(order, mats, n), HeaderRows(order, mats, n))
  {
    if n > 0 {
      HeaderMatchesBinary(order, mats, n - 1);
      var m := mats[order[n - 1]];
      var stem := Stem(order[n - 1], m).value;
      assert order[n - 1] in order;
      MatLinedUp(stem, m);
      LinedUpAppend(Blocks(order, mats, n - 1), HeaderArrays(order, mats, n - 1), HeaderRows(order, mats, n - 1),
                    MatBlocks(m), MatArrays(stem, m), MatRows(stem, m));
    }
  }

  /**
   * Blocks, arrays and table rows correspond one to one: same count, the
   * row's `w, h, x, y` is the block's header, the row names the array, and
   * the array holds the block's body.
   */
  ghost predicate LinedUp(bs: seq<Block>, arrays: seq<CArray>, rows: seq<TableRow>)
  {
    && |arrays| == |rows| == |bs|
    && forall k :: 0 <= k < |bs| ==>
         && (rows[k].w, rows[k].h, rows[k].x, rows[k].y) == (bs[k].w, bs[k].h, bs[k].x, bs[k].y)
         && rows[k].data == arrays[k].name
         && arrays[k].values == bs[k].body
  }

  /** One record's blocks, arrays and rows line up. */
  lemma MatLinedUp(stem: string, m: Mat)
    requires Coherent(m)
    ensures LinedUp(MatBlocks(m), MatArrays(stem, m), MatRows(stem, m))
  {
  }

  lemma LinedUpAppend(bs: seq<Block>, arrays: seq<CArray>, rows: seq<TableRow>,
                      bs': seq<Block>, arrays': seq<CArray>, rows': seq<TableRow>)
    requires LinedUp(bs, arrays, rows) && LinedUp(bs', arrays', rows')
    ensures LinedUp(bs + bs', arrays + arrays', rows + rows')
  {
    forall k | 0 <= k < |bs + bs'|
      ensures (bs + bs')[k] == if k < |bs| then bs[k] else bs'[k - |bs|]
      ensures (arrays + arrays')[k] == if k < |bs| then arrays[k] else arrays'[k - |bs|]
      ensures (rows + rows')[k] == if k < |bs| then rows[k] else rows'[k - |bs|]
    { }
  }

  /**
   * The binary file decodes back to exactly its blocks and, whenever the
   * header can be written, the decoded blocks line up one to one with the
   * header's table rows and arrays.
   */
  lemma ExportsAgree(order: seq<string>, mats: map<string, Mat>)
    requires Readable(order, mats)
    ensures ParseBlocks(Words(Blocks(order, mats, |order|))) == Some(Blocks(order, mats, |order|))
    ensures Nameable(order, mats, |order|) ==>
              LinedUp(ParseBlocks(Words(Blocks(order, mats, |order|))).value,
                      HeaderArrays(order, mats, |order|), HeaderRows(order, mats, |order|))
  {
    BlocksWellFormed(order, mats, |order|);
    ParseWords(Blocks(order, mats, |order|));
    if Nameable(order, mats, |order|) {
      HeaderMatchesBinary(order, mats, |order|);
    }
  }
}
