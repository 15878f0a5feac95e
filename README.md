# PSX asset engine — a verified Dafny model

This project models the asset-conversion engine of a PlayStation 1 asset
tool written in Python. The engine has four parts:

- **Converted material record** (`material.dfy`, module `Material`). This is
  the `ConvertedMat` record with its default values. The shared
  `convertedMats` dictionary is the class `MatStore`. It holds the key order
  (the dictionary's insertion order) and a map from name to record. Its
  invariant `Coherent` says:
  - only a textured record carries texture attributes;
  - only a record with a texture is packed;
  - only a record with a CLUT image has a packed CLUT.
- **VRAM allocator** (`vram_packer.dfy`, module `VramPacker`). This covers:
  - the half-open rectangle tests `boxInside` and `boxCollision`;
  - `anyCollisions`, which checks the framebuffers first and then every
    packed texture and CLUT in dictionary order;
  - the row-major first-fit scans `findTexturePackCoords` (step 8, inside
    the texture page) and `findCLUTPackCoords` (step 16 across, 1 down,
    inside 1024 × 512);
  - `autoPackSingle` and `autoPackAll`;
  - the manual `packSelected` and `updateItemSpin`.

  Each scan is a method with nested loops. It is proved equal to the
  reference function `Scan`, and `Scan` is proved to return the first
  fitting grid position. The packing operations are methods on the store,
  proved equal to map-level functions. Those functions are proved to keep
  VRAM free of overlaps.
- **VRAM exports** (`vram_export.dfy`, module `VramExport`). These are:
  - the 15-, 8- and 4-bit pixel words;
  - the binary file `exportBin` (blocks of little-endian 16-bit words);
  - the C header `exportHeader` (arrays, the `DAT_TEXTURES` table and
    `TEXTURE_LEN`).

  The binary parses back to its blocks, and the header's table lines up
  with them block by block.
- **Primitive assembler** (`model_exporter.dfy`, module `ModelExporter`).
  This is the model exporter's `exportHeader`:
  - the polygon filter;
  - vertex quantisation;
  - UV normalisation, which turns NaN into 0, then applies the `ceil`
    shift, then the `floor` shift;
  - texel mapping;
  - the texture-window word (`tilePrim`), `clutID` and `tPageID`;
  - the two identical primitive tables with `PRIMS_LEN`.

  The arithmetic is over exact reals, with floor, ceiling and truncation
  toward zero written out.
- **Texture converter** (`texture_converter.dfy`, module `TextureConverter`).
  This covers:
  - 15-bit reduction in place on a pixel array (`convertImg15BPP`);
  - palette reduction in place on the palette list, with the CLUT picture
    it returns (`convertPallet15BPP`);
  - black removal, the 256 size cap and padding to a whole VRAM cell;
  - the dictionary updates of `convertSingle` and `unconvertSelected`.

  The PIL operations are functions passed in as parameters (`Imaging`). The
  model assumes only the shape of what they return, and shows that these
  assumptions can all be met at once.

`bits.dfy` (module `Bits`) holds two arithmetic facts used to decode bit
fields.

## Model

| member | source | states |
|---|---|---|
| Material.NewMat | ConvertedMat.py:2-25 | a new record has an empty id and path and is not valid; it has no type, no texture or CLUT image, and tiling and semi-transparency off; it is not packed, its texture sits at (640, 0) and its CLUT is unpacked at (0, 0) |
| Material.TileExtent | ModelExporter.py:110-111 | the six tile sizes range from 8 to 256 texels |
| Material.ColorCount | VRAMPacker.py:256 | a palette holds between 16 and 256 colours |
| Material.TexelsPerCell | TextureConverter.py:144 | 1, 2 or 4 texels share one 16-bit VRAM cell, and their bits fit the cell |
| Material.TpWidth | VRAMPacker.py:150 | a texture page is 256 texels wide in every mode (64, 128 or 256 cells) |
| Material.PutKey | TextureConverter.py:179 | after `d[id] = m` the keys are exactly the old keys plus `id`, still without duplicates |
| Material.DropKey | TextureConverter.py:189 | after `del d[id]` the keys are the old keys minus `id`, still without duplicates |
| Material.DropKeyKeepsOrder | TextureConverter.py:189 | `del d[id]` keeps every other key in its old relative order: it is the order filtered by `Without` |
| Material.WithoutDropKey | TextureConverter.py:186-189 | deleting one more key from the filtered order is filtering that key out along with the others |
| Material.MatStore.Put | TextureConverter.py:179 | storing a coherent record replaces that key's entry and keeps the store invariant |
| Material.MatStore.Delete | TextureConverter.py:189 | deleting a present key removes exactly that entry and keeps the store invariant |
| VramPacker.BoxCollisionSymmetric | VRAMPacker.py:84-94 | `boxCollision` is symmetric in its two boxes |
| VramPacker.SharedEdgeNoCollision | VRAMPacker.py:84-94 | boxes that only share an edge do not collide |
| VramPacker.BoxCollisionIsSharedCell | VRAMPacker.py:84-94 | for non-empty boxes, a collision means exactly that some cell is in both |
| VramPacker.BoxInsideIsCellwise | VRAMPacker.py:77-83 | for a non-empty box, `boxInside` means exactly that every cell of the box is in the bin |
| VramPacker.FrameRects | VRAMPacker.py:96-107 | one framebuffer rectangle, or two when double buffering is on |
| VramPacker.AnyCollisions | VRAMPacker.py:95-117 | reports a collision exactly when the box hits a framebuffer or a packed texture or CLUT; the returned x is the right edge of the first one hit in test order, and 0 when there is no hit |
| VramPacker.StoreCollision | VRAMPacker.py:108-116 | finds the first packed rectangle, in dictionary order, that the box hits, or shows that it hits none |
| VramPacker.RecordCollision | VRAMPacker.py:109-116 | for one record, finds the first of its packed texture and packed CLUT that the box hits |
| VramPacker.ScanIsFirstFit | VRAMPacker.py:118-145 | a successful scan gives a grid position that fits, and no earlier grid position (row-major) fits; the scan fails exactly when no grid position fits |
| VramPacker.RowSkip | VRAMPacker.py:119-123 | skipping a row whose page cannot hold the texture at its left edge loses no placement |
| VramPacker.FindTexturePackCoords | VRAMPacker.py:118-134 | the nested loops return exactly the first fit of the reference scan (step 8, inside the page box, no collision), or failure |
| VramPacker.TextureRow | VRAMPacker.py:124-133 | one row of the texture scan returns the first fit in that row, or hands over to the next row |
| VramPacker.FindClutPackCoords | VRAMPacker.py:135-145 | the nested loops return exactly the first fit of the reference CLUT scan (x step 16, y step 1, inside 1024 × 512), or failure |
| VramPacker.ClutRow | VRAMPacker.py:137-144 | one row of the CLUT scan returns the first fit in that row, or hands over to the next row |
| VramPacker.TexturePlacementSound | VRAMPacker.py:118-134 | a texture placement has x and y multiples of 8 and lies inside its page box (which may reach past x = 1024); it hits no framebuffer, texture or CLUT |
| VramPacker.ClutPlacementSound | VRAMPacker.py:135-145 | a CLUT placement has x a multiple of 16, `x + colorCount <= 1024`, `y < 512`, and no collision |
| VramPacker.ItemRequest | VRAMPacker.py:149-157 | a texture item asks for a texture placement and a CLUT item for a CLUT placement |
| VramPacker.AutoPackedPackable | VRAMPacker.py:146-161 | auto-packing keeps every record packable |
| VramPacker.AutoPackedIsFirstFit | VRAMPacker.py:146-161 | on success the item is marked packed at the first fitting position and nothing else changes; on failure nothing changes |
| VramPacker.AutoPackedFrame | VRAMPacker.py:146-161 | only the chosen item's packed flag and position can change |
| VramPacker.AutoPackedKeeps | VRAMPacker.py:149-161 | packing a texture changes only texture placements, packing a CLUT only CLUT placements, and nothing is unpacked |
| VramPacker.AutoPackedSeparated | VRAMPacker.py:146-161 | if no packed rectangles or framebuffers overlap before, none overlap after |
| VramPacker.RepackAvoidsOwnFootprint | VRAMPacker.py:166-170 | re-packing an already packed texture scans against its own old rectangle, so the new rectangle never overlaps the old one |
| VramPacker.TexturePass | VRAMPacker.py:167-170 | the first loop of `autoPackAll` (every record with a texture image, packed or not) keeps the records packable |
| VramPacker.ClutPass | VRAMPacker.py:171-174 | the second loop of `autoPackAll` (every record with a CLUT image) keeps the records packable |
| VramPacker.AllPacked | VRAMPacker.py:166-174 | all textures first, then all CLUTs, in dictionary order; the records stay packable |
| VramPacker.TexturePassKeeps | VRAMPacker.py:167-170 | the texture loop touches no CLUT placement and unpacks nothing |
| VramPacker.ClutPassKeeps | VRAMPacker.py:171-174 | the CLUT loop touches no texture placement and unpacks nothing |
| VramPacker.TexturePassSeparated | VRAMPacker.py:167-170 | the texture loop keeps VRAM free of overlaps |
| VramPacker.ClutPassSeparated | VRAMPacker.py:171-174 | the CLUT loop keeps VRAM free of overlaps |
| VramPacker.AllPackedSeparated | VRAMPacker.py:166-174 | `autoPackAll` keeps VRAM free of overlaps, keeps the keys and every texture, and unpacks nothing |
| VramPacker.WithFlag | VRAMPacker.py:68-76 | `packSelected` sets only the item's packed flag; setting it on a listed item keeps the record coherent |
| VramPacker.MovedTo | VRAMPacker.py:177-189 | `updateItemSpin` sets only the item's position and keeps the record coherent |
| VramPacker.PlacedIsMovedThenFlagged | VRAMPacker.py:152-161 | an automatic placement equals a manual move followed by a manual pack |
| VramPacker.UnpackSeparated | VRAMPacker.py:68-76 | unpacking an item keeps VRAM free of overlaps |
| VramPacker.MoveUnpackedInvisible | VRAMPacker.py:177-189 | moving an unpacked item changes nothing the scans collide with |
| VramPacker.ManualPackUnchecked | VRAMPacker.py:68-76 | the manual operations check no collision: a fresh record packed at its default (640, 0) overlaps a framebuffer there |
| VramPacker.AutoPackSingle | VRAMPacker.py:146-163 | with no item selected nothing changes; a stale id, or a record with no colour mode in the item's table, raises `KeyError` and leaves the store as it was; otherwise the store becomes `AutoPacked` of the old store, keeping its invariant and key order |
| VramPacker.AutoPackAll | VRAMPacker.py:166-174 | the store becomes `AllPacked` of the old store, keeping its invariant and key order |
| VramPacker.AutoPackTextures | VRAMPacker.py:167-170 | the store becomes the texture pass over all keys |
| VramPacker.AutoPackTextureAt | VRAMPacker.py:168-170 | one iteration of the texture loop advances the store by exactly one step of the texture pass |
| VramPacker.AutoPackCluts | VRAMPacker.py:171-174 | the store becomes the CLUT pass over all keys |
| VramPacker.AutoPackClutAt | VRAMPacker.py:172-174 | one iteration of the CLUT loop advances the store by exactly one step of the CLUT pass |
| VramPacker.PackSelected | VRAMPacker.py:68-76 | with no selection nothing changes; a selected id no longer in the dictionary raises `KeyError` and changes nothing; otherwise the selected item's flag is set to the requested state, and nothing else changes |
| VramPacker.UpdateItemSpin | VRAMPacker.py:177-189 | with no selection nothing changes; a selected id no longer in the dictionary raises `KeyError` and changes nothing; otherwise the selected item's position is set, and nothing else changes |
| VramExport.Word15 | VRAMPacker.py:233-237 | the 15-bit word is below 2^15 |
| VramExport.Word15Decodes | VRAMPacker.py:233-237 | the 15-bit word decodes to `(R>>3, G>>3, B>>3)` |
| VramExport.Word15RoundTrip | VRAMPacker.py:259-263 | a pixel with channels that are multiples of 8 is recovered exactly from its word |
| VramExport.Word8RoundTrip | VRAMPacker.py:242-244 | with indices below 256 the 8-bit word fits 16 bits and decodes back to both indices |
| VramExport.Word4RoundTrip | VRAMPacker.py:249-253 | with indices below 16 the 4-bit word fits 16 bits and decodes back to all four indices |
| VramExport.CellWord | VRAMPacker.py:230-254 | every cell word of a converted texture fits 16 bits |
| VramExport.BodyWordsLength | VRAMPacker.py:230-254 | a texture body has `ySize × tpXSize` words |
| VramExport.BodyWordsAt | VRAMPacker.py:230-254 | the body is row-major: cell (x, y) is word `y × tpXSize + x` |
| VramExport.TextureBlock | VRAMPacker.py:229-254 | the texture block has the header `tpXSize, ySize, xPos, yPos` followed by `tpXSize × ySize` words |
| VramExport.ClutBlock | VRAMPacker.py:255-264 | the CLUT block has the header `colorCount, 1, xPosCLUT, yPosCLUT`, then one 15-bit word per entry |
| VramExport.BlocksWellFormed | VRAMPacker.py:225-264 | every exported block's body has `w × h` words |
| VramExport.ParseWords | VRAMPacker.py:221-265 | the binary word stream parses back to exactly its blocks |
| VramExport.PackU16RoundTrip | VRAMPacker.py:229-238 | `struct.pack('<H')` succeeds exactly when every word is in 0..65535, and the bytes then read back to the words |
| VramExport.ExportBin | VRAMPacker.py:221-265 | the nested loops write exactly the words of the blocks of every packed textured record in dictionary order; a CLUT block follows its texture only when the CLUT is packed |
| VramExport.RecordWords | VRAMPacker.py:226-264 | one record's words are its texture block and then, when packed, its CLUT block |
| VramExport.TextureWords | VRAMPacker.py:230-254 | the row and column loops produce the texture body |
| VramExport.ClutWords | VRAMPacker.py:258-264 | the CLUT loop produces one 15-bit word per palette entry |
| VramExport.TextureBodyFits | VRAMPacker.py:230-254 | every texture body word fits 16 bits |
| VramExport.BodiesFit | VRAMPacker.py:221-265 | every body word of the binary fits 16 bits, so only a header value can make `struct.pack` fail |
| VramExport.Alnum | VRAMPacker.py:277 | the filtered name holds only letters and digits and is no longer than the name |
| VramExport.SafeName | VRAMPacker.py:277-278 | fails exactly when the name has no letter or digit; otherwise gives a non-empty identifier starting with a letter |
| VramExport.ExportHeader | VRAMPacker.py:266-341 | succeeds exactly when every exported key yields an identifier; it then gives the arrays, the table rows, and `TEXTURE_LEN` equal to the number of rows |
| VramExport.WriteArrays | VRAMPacker.py:279-318 | the array loop succeeds exactly when every exported key yields an identifier, and then gives every record's arrays in dictionary order |
| VramExport.WriteTable | VRAMPacker.py:320-339 | the table loop gives every record's rows in dictionary order, and `TEXTURE_LEN` counts them |
| VramExport.RecordArrays | VRAMPacker.py:279-318 | one record's texture array and, when its CLUT is packed, its CLUT array |
| VramExport.RecordRows | VRAMPacker.py:328-337 | one record's texture row and, when its CLUT is packed, its CLUT row |
| VramExport.HeaderMatchesBinary | VRAMPacker.py:221-339 | the header and the binary agree: one table row per block, the row's `w, h, x, y` is the block header, and the array it names holds the block body |
| VramExport.ExportsAgree | VRAMPacker.py:221-339 | the binary file decodes back to exactly its blocks and, whenever the header can be written, those decoded blocks line up one to one with the header's rows and arrays |
| ModelExporter.Floor | ModelExporter.py:165-176 | `math.floor`: the greatest integer not above the value |
| ModelExporter.Ceil | ModelExporter.py:152-163 | `math.ceil`: the least integer not below the value |
| ModelExporter.Trunc | ModelExporter.py:82-87 | `int()` truncates toward zero |
| ModelExporter.Mask8 | ModelExporter.py:177-189 | `& 0xFF` is the residue modulo 256, negative inputs included |
| ModelExporter.NormalAxisSound | ModelExporter.py:145-176 | after NaN→0 and both shifts, every component is ≥ 0 and the minimum is in [0, 1); all three components moved by the same integer |
| ModelExporter.NormalAxisIdempotent | ModelExporter.py:145-176 | normalising twice equals normalising once |
| ModelExporter.NormalAxisExamples | ModelExporter.py:152-176 | (-0.2, 0.3, 0.9) becomes (0.8, 1.3, 1.9); a minimum of -1.0 is lifted by 1; (1.5, 2.25, 3.0) is dropped by 1 |
| ModelExporter.PageOffsetX | ModelExporter.py:112-113 | the in-page texel offset is `(xPos mod 64) × texels per cell`, at most 252 |
| ModelExporter.PageOffsetY | ModelExporter.py:114 | the in-page row is in 0..255 |
| ModelExporter.TexelU | ModelExporter.py:177-189 | every emitted u is in 0..255 |
| ModelExporter.TexelV | ModelExporter.py:177-189 | every emitted v is in 0..255 |
| ModelExporter.TexelInTexture | ModelExporter.py:183-189 | for a non-tiled texture inside its page row, u and v in [0, 1] land on the texture's own texels; v = 0 is its bottom row and v = 1 its top row |
| ModelExporter.TileCode | ModelExporter.py:109-111 | the six-entry table equals `0b11111 - (((s-1)&0xFF)>>3)` and fits 5 bits |
| ModelExporter.TilePrimFields | ModelExporter.py:107-117 | the tile word is below 2^32; bits 0-4 hold tile x, bits 5-9 tile y, bits 10-14 and 15-19 the page offsets divided by 8, and bits 20-31 hold `0xE20` |
| ModelExporter.TilePrimUntiled | ModelExporter.py:118-119 | a non-tiled material gets tile word 0 |
| ModelExporter.ClutIDDecodes | ModelExporter.py:131-135 | for `xPosCLUT < 1024`, `clutID` decodes back to the CLUT row and `xPosCLUT>>4` |
| ModelExporter.DepthCode | ModelExporter.py:138 | the depth code is 0..2 |
| ModelExporter.TPageIDFields | ModelExporter.py:136-140 | `tPageID < 512`; bits 0-3 hold `(xPos>>6)&15`, bit 4 holds bit 8 of `yPos`, bits 5-6 are 0, and bits 7-8 hold the depth code |
| ModelExporter.Quantize | ModelExporter.py:82-87 | `int(c × 32768/100)` truncates toward zero: its magnitude is within 1 below the exact product and its sign follows c |
| ModelExporter.QuantizeExamples | ModelExporter.py:68-87 | 100 units become 32768, and ±1 unit becomes ±327 |
| ModelExporter.VertOf | ModelExporter.py:80-87 | a vertex row carries the triangle's number, three (x, y) pairs and three z values |
| ModelExporter.ColorsOf | ModelExporter.py:123-130 | three colours, mid-grey 127 when the mesh has none |
| ModelExporter.PrimOf | ModelExporter.py:105-202 | a primitive row carries the triangle's number, three colours, and three texels in 0..255 |
| ModelExporter.PrimsAreFiltered | ModelExporter.py:98-104 | the primitive table holds exactly the triangles whose material is present, packed, and 15-bit or with a packed CLUT, each once, in polygon order |
| ModelExporter.VertsMatchPrims | ModelExporter.py:73-79 | the vertex table uses the same filter: same length and the same triangle numbers, row for row |
| ModelExporter.ExportHeader | ModelExporter.py:72-209 | the two loops build the vertex table and the primitive table; both primitive tables are the same and `PRIMS_LEN` is their length |
| ModelExporter.NormaliseUV | ModelExporter.py:145-176 | the NaN pass, the negative-UV lift and the whole-offset drop, applied in turn to one coordinate of the three corners, give exactly the normalised axis |
| ModelExporter.AssemblePrim | ModelExporter.py:105-202 | the tile word, colours, CLUT id, page id and the UV passes of one polygon build exactly its primitive row |
| TextureConverter.Quant5 | TextureConverter.py:81 | `(c>>3)<<3` is a multiple of 8, at most c, and less than 8 below it |
| TextureConverter.Quant5Largest | TextureConverter.py:81 | it is the largest multiple of 8 not above c |
| TextureConverter.Quant15Exact | TextureConverter.py:76-83 | reducing a pixel is idempotent and keeps its 15-bit VRAM word; that word gives the reduced pixel back |
| TextureConverter.ConvertImg15BPP | TextureConverter.py:76-83 | the nested loops reduce every pixel of the array in place and leave the dimensions unchanged |
| TextureConverter.QuantRows | TextureConverter.py:76-83 | the reduced picture has the original's shape |
| TextureConverter.QuantRowsExact | TextureConverter.py:76-83 | every reduced pixel has channels that are multiples of 8 and keeps the original's VRAM word |
| TextureConverter.PaletteColors | TextureConverter.py:87-94 | one reduced colour per full triple of the palette list |
| TextureConverter.QuantPalette | TextureConverter.py:87-95 | the palette list written back has the same length |
| TextureConverter.ClutImageSound | TextureConverter.py:84-98 | the CLUT picture has `colorCount` entries; entry i is the reduced palette triple i, with the same VRAM word, and black after the palette ends |
| TextureConverter.ConvertPallet15BPP | TextureConverter.py:84-98 | reduces the palette list in place and returns the CLUT picture; it fails on a partial triple or on more colours than `colorCount` |
| TextureConverter.RemoveBlack | TextureConverter.py:133-136 | the pass keeps the picture's shape |
| TextureConverter.RemoveBlackSound | TextureConverter.py:133-136 | no (0, 0, 0) pixel remains; each one becomes (8, 8, 8), and every other pixel is kept |
| TextureConverter.RemoveBlackIdempotent | TextureConverter.py:133-136 | removing black twice is removing it once |
| TextureConverter.NearBlackKept | TextureConverter.py:133-140 | removal is exact: (4, 4, 4) is kept, and 15-bit reduction then turns it black |
| TextureConverter.TargetSize | TextureConverter.py:118-129 | the adjusted size when one is given, otherwise `min(w, 256) × min(h, 256)` |
| TextureConverter.PaddedWidthSound | TextureConverter.py:149-151 | the stored width is `ceil(xSize/scale) × scale`, in `[xSize, xSize + scale)`, and equals xSize when no padding is needed |
| TextureConverter.PadRows | TextureConverter.py:152-154 | the padded picture has the same number of rows |
| TextureConverter.PadRowsSound | TextureConverter.py:150-154 | padding keeps every original pixel and adds black up to the new width |
| TextureConverter.TextureOfOk | TextureConverter.py:118-156 | a converted texture meets the record invariant: its shape matches `xSize × ySize`, `tpXSize × texels per cell = xSize`, indices are below the palette size, and the CLUT has `colorCount` entries |
| TextureConverter.TextureOfGeometry | TextureConverter.py:138-156 | `tpXSize × scale` equals the stored width, which lies in `[w, w + scale)` of the target width (for 15 bpp `tpXSize == xSize`) |
| TextureConverter.ConvertedSound | TextureConverter.py:100-179 | every stored record is coherent and valid, carries its id and type, and is not packed; a CLUT exists exactly for an indexed mode with CLUT generation on |
| TextureConverter.ConvertSingle | TextureConverter.py:99-179 | an empty id, a textured type with no path or picture, or a failed palette step leaves the dictionary unchanged (the last two raise in the source, as "## Left out" says); otherwise the id's entry is replaced by the fresh record |
| TextureConverter.ConvertTexture | TextureConverter.py:118-156 | sizing, black removal and the 15-bit or palette pass, with padding and re-mapping, build exactly the converted texture, or fail where the palette step fails |
| TextureConverter.ImagingOkSatisfiable | TextureConverter.py:118-156 | the shapes the conversion relies on from PIL (a resize of the size asked for, a re-map into a non-empty palette with indices below its size) can all hold at once, so the lemmas that assume them are not vacuous |
| TextureConverter.ConvertRows | TextureConverter.py:139-141 | running the in-place pass over an array built from the picture gives the reduced picture |
| TextureConverter.UnconvertSelected | TextureConverter.py:186-189 | removes exactly the selected ids that are present, keeps every other entry, and leaves the surviving keys in their old relative order |

## Left out

- Qt widgets, lists, previews and painting: this is user interface. The
  selected item, the framebuffer settings and the conversion options are
  parameters instead.
- File output: the exports return the words, arrays and rows they would
  write. `Image.open` is a parameter (`None` when the file does not open).
- PIL's `resize` and `quantize`: these are library algorithms. They are the
  functions of an `Imaging` value. The model assumes only that a resize has
  the size asked for, and that a re-map into a non-empty palette (the
  conversion always asks for 16 or 256 colours) keeps the shape with
  indices below the colour count. `ImagingOkSatisfiable` gives an `Imaging`
  that meets both assumptions. What PIL's own algorithms pick for each
  pixel is not modelled.
- IEEE floating point: UVs, vertices and colours are exact reals. NaN is an
  absent value. Infinities and rounding of the scale products are not
  modelled.
- Normal quantisation in the model exporter: it is computed but never
  written. The normal-map fields of the record are unused.
- The model exporter's `exportBin` writes nothing beyond the polygon filter.
- `convertSelected` calls `convertSingle` once per selected id and then
  redraws (TextureConverter.py:180-185). It is not modelled as a loop of
  its own; each call is one `ConvertSingle`. When a call raises (see the
  `TextureConverter.ConvertSingle` line below), the source leaves the loop:
  later selected ids are not converted and the redraw is skipped. The model
  does not capture that early exit.
- Non-ASCII letters and digits are outside `isalnum`/`isalpha` as modelled:
  `IsAlnum` accepts ASCII only.
- VramPacker.AutoPackSingle: a stale id, a texture item on an F/G record
  and a CLUT item on a 15-bit record are the `KeyError` result. The one
  case still excluded by the precondition is a CLUT item on an indexed
  record converted with CLUT generation off. A CLUT item is listed only
  when it has an image (VRAMPacker.py:210), so this needs a stale
  selection (`selectedItemID` is never cleared). The source then places a
  CLUT that does not exist and raises nothing. The record no longer meets
  the invariant, and the source goes on as follows:
  - `anyCollisions` raises nothing: the mode is 4 or 8, so :114 succeeds,
    and the missing CLUT blocks its rectangle (:115-116) like a real one;
  - the paint skips it (:395);
  - the exports fail on `mat.textureCLUT.getpixel` (:259 in the binary,
    :312 in the header) once the texture is packed too.
  The model does not follow that path.
- VramPacker.PackSelected: a stale id is the `KeyError` result. The
  precondition still excludes setting a flag to `True` on an item the
  record does not have. These states are reachable only through a stale
  selection whose key was re-converted (`selectedItemID` is never
  cleared). The source sets the flag anyway, with these consequences:
  - the texture flag on an F/G record: `anyCollisions` fails at :111 only
    when the first test at :86 is false, since `tpXSize` is `None` and
    Python stops at a true `xBox + wBox <= xBin`; the paint fails every
    time on `mat.textureImg.convert` (:391); the exports skip the record
    (:227, :275);
  - the CLUT flag on an F/G or 15-bit record: `{4: 16, 8: 256}` raises
    `KeyError` at :114 whenever `anyCollisions` reaches the record;
  - the CLUT flag on an indexed record converted with CLUT generation off:
    the missing CLUT is an obstacle at :115-116 with no error, the paint
    skips it (:395), and the exports fail at :259 and :312 once the
    texture is packed too.
  The model does not follow these paths.
- VramPacker.UpdateItemSpin: a stale id is the `KeyError` result. A
  position given to an item the record does not have is stored, as in the
  source; it is read only when the flag is set.
- VramExport.ExportBin: a `struct.error` part-way through a file leaves the
  bytes written so far on disk. The model gives the word stream and
  `PackU16` says whether packing fails, not where it stops.
- TextureConverter.ConvertSingle: the semi-transparency and tile-size
  options are copied into the record unchanged. The tile-size selector's
  six choices are the `TileSize` datatype.
- TextureConverter.ConvertSingle: the source leaves `convertSingle` in two
  ways without storing a record. It returns quietly for an empty id
  (TextureConverter.py:100) and for an empty texture path (:111). It raises
  for a picture that `Image.open` cannot read (:114), for a palette whose
  length is not a multiple of three (`pallet[i+1]`, :89), and for a palette
  with more colours than `colorCount` (`putdata`, :97). The model folds
  all five cases into "the dictionary is unchanged". It does not
  distinguish an exception from a quiet return, and it does not model what
  the exception does to the caller.
- ModelExporter.ExportHeader: the mesh is taken to be triangulated. Every
  polygon is a `Tri` of three vertices, with three UVs and three colours
  (`MeshOk`). The source reads only the first three UVs and colours
  (ModelExporter.py:124-126, 142-144) but writes every vertex of the
  polygon (:81, :85). A polygon with more vertices would give a longer
  vertex row, which the model does not represent.
- ModelExporter.ExportHeader: a missing polygon material name or a
  vertex index out of range raises in the source. The model requires
  instead that the mesh has a material name per triangle, and UVs, vertex
  indices and colours for every emitted one (`MeshOk`).
- Records are values held in the store's map. The source updates a stored
  record's fields in place. Each record is created fresh per conversion
  and stored under one key only, so an in-place field update is the same
  as replacing that key's entry.
