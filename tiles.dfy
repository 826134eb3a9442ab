/**
 * The tile definition table, tile construction and the atlas packer of
 * tiles/tile.go.
 *
 * The packer reads a manifest (tile id -> texture file, rotation flag),
 * blits every decoded texture onto one 256x256 canvas at a cursor that moves
 * right by each texture's width, and records each tile's atlas frame in the
 * process-wide table. File reading, JSON and PNG decoding and encoding are
 * outside the model: their outcomes are inputs.
 */
module Tiles {
  import opened Wrappers
  import opened Geometry

  /** Size of the atlas canvas, image.Rect(0, 0, 256, 256). */
  const CanvasWidth := 256
  const CanvasHeight := 256

  /** An entry of the tile definition table. */
  datatype TileData = TileData(frame: Rect, applyRotation: bool)

  /** What a lookup of a missing id yields: Go's zero TileData. */
  const NoTileData := TileData(ZeroRect, false)

  datatype Meta = Meta(id: string)

  /** A tile: its meta, the atlas frame of its sprite, and its world position. */
  datatype Tile = Tile(meta: Meta, frame: Rect, worldPos: Vec)

  /** The process-wide tile definition table (the package variable TileMap). */
  class TileTable {
    var entries: map<string, TileData>

    constructor ()
      ensures entries == map[]
    {
      entries := map[];
    }
  }

  /** TileMap[id], with Go's zero value for an id that is not in the map. */
  function Lookup(tileMap: map<string, TileData>, id: string): (d: TileData)
    ensures id in tileMap ==> d == tileMap[id]
    ensures id !in tileMap ==> d.frame == ZeroRect && !d.applyRotation
  {
    if id in tileMap then tileMap[id] else NoTileData
  }

  /** NewTile: the sprite frame comes from the table, silently empty for an unknown id. */
  function NewTile(tileMap: map<string, TileData>, meta: Meta): (t: Tile)
    ensures t.meta == meta && t.worldPos == Zero
    ensures meta.id in tileMap ==> t.frame == tileMap[meta.id].frame
    ensures meta.id !in tileMap ==> t.frame == ZeroRect
  {
    Tile(meta, Lookup(tileMap, meta.id).frame, Zero)
  }

  // ---------------------------------------------------------------------
  // Images and the canvas

  datatype Color = Color(r: bv8, g: bv8, b: bv8, a: bv8)

  /** The colour of a fresh image.NewRGBA canvas. */
  const Transparent := Color(0, 0, 0, 0)

  /**
   * A decoded texture with bounds (0, 0)-(width, height): pixels[x][y].
   * `outside` is what At answers beyond the bounds (the zero colour for
   * RGBA images, palette entry 0 for paletted ones).
   */
  datatype Image = Image(width: nat, height: nat, pixels: seq<seq<Color>>, outside: Color)
  {
    predicate Valid()
    {
      |pixels| == width && forall x :: 0 <= x < width ==> |pixels[x]| == height
    }

    /** img.At(x, y) */
    function At(x: int, y: int): Color
      requires Valid()
    {
      if 0 <= x < width && 0 <= y < height then pixels[x][y] else outside
    }
  }

  /**
   * The colour of canvas point (x, y) after drawImage(canvas, img, (px, py))
   * over a point that was `under`: the blit covers px..px+width and
   * py..py+height, both ends included.
   */
  function Blit(img: Image, px: int, py: int, x: int, y: int, under: Color): Color
    requires img.Valid()
  {
    if px <= x <= px + img.width && py <= y <= py + img.height then img.At(x - px, y - py) else under
  }

  /**
   * drawImage: copies img onto the canvas with its origin at (px, py). The
   * loops run one column and one row past the image; canvas.Set ignores
   * points outside the canvas.
   */
  method DrawImage(canvas: array2<Color>, img: Image, px: int, py: int)
    requires img.Valid()
    modifies canvas
    ensures forall x, y :: 0 <= x < canvas.Length0 && 0 <= y < canvas.Length1 ==>
      canvas[x, y] == Blit(img, px, py, x, y, old(canvas[x, y]))
  {
    var x := px;
    while x < img.width + px + 1
      invariant px <= x <= px + img.width + 1
      invariant forall i, j :: 0 <= i < canvas.Length0 && 0 <= j < canvas.Length1 ==>
        canvas[i, j] == if i < x then Blit(img, px, py, i, j, old(canvas[i, j])) else old(canvas[i, j])
    {
      var y := py;
      while y < img.height + py + 1
        invariant py <= y <= py + img.height + 1
        invariant forall i, j :: 0 <= i < canvas.Length0 && 0 <= j < canvas.Length1 ==>
          canvas[i, j] == if i < x || (i == x && j < y) then Blit(img, px, py, i, j, old(canvas[i, j])) else old(canvas[i, j])
      {
        if 0 <= x < canvas.Length0 && 0 <= y < canvas.Length1 {
          canvas[x, y] := img.At(x - px, y - py);
        }
        y := y + 1;
      }
      x := x + 1;
    }
  }

  // ---------------------------------------------------------------------
  // Packing

  datatype IoError = IoError(message: string)

  /** One manifest entry: tile id, texture file name and rotation flag. */
  datatype ManifestEntry = ManifestEntry(id: string, textures: string, applyRotation: bool)

  /** The manifest is a map, so its iteration order never repeats an id. */
  predicate DistinctIds(entries: seq<ManifestEntry>)
  {
    forall i, j :: 0 <= i < j < |entries| ==> entries[i].id != entries[j].id
  }

  predicate AllValid(imgs: seq<Image>)
  {
    forall i :: 0 <= i < |imgs| ==> imgs[i].Valid()
  }

  /** The packer's cursor once imgs are packed: the sum of their widths. */
  function Cursor(imgs: seq<Image>): nat
  {
    if imgs == [] then 0 else Cursor(imgs[..|imgs| - 1]) + imgs[|imgs| - 1].width
  }

  /** Canvas colour at (x, y) once imgs are blitted in order, each at (cursor, 0), on a fresh canvas. */
  function Painted(imgs: seq<Image>, x: int, y: int): Color
    requires AllValid(imgs)
  {
    if imgs == [] then Transparent
    else
      var n := |imgs| - 1;
      Blit(imgs[n], Cursor(imgs[..n]), 0, x, y, Painted(imgs[..n], x, y))
  }

  /** The frame recorded for img once the cursor has advanced past it to `index`. */
  function FrameOf(index: int, img: Image): Rect
  {
    Rect(Vec(index - img.width, CanvasHeight), Vec(index, CanvasHeight - img.height))
  }

  /** The table after entries[i] has been recorded with imgs[i], in order. */
  function Record(tileMap: map<string, TileData>, entries: seq<ManifestEntry>, imgs: seq<Image>): map<string, TileData>
    requires |entries| == |imgs|
  {
    if entries == [] then tileMap
    else
      var n := |entries| - 1;
      Record(tileMap, entries[..n], imgs[..n])[entries[n].id := TileData(FrameOf(Cursor(imgs), imgs[n]), entries[n].applyRotation)]
  }

  /** The textures decoded before the first open or decode failure. */
  function Decoded(sources: seq<Result<Image, IoError>>): (imgs: seq<Image>)
    ensures |imgs| <= |sources|
    ensures forall i :: 0 <= i < |imgs| ==> sources[i] == Success(imgs[i])
    ensures |imgs| < |sources| ==> sources[|imgs|].Failure?
  {
    if sources == [] then []
    else
      var n := |sources| - 1;
      var p := Decoded(sources[..n]);
      if |p| == n && sources[n].Success? then p + [sources[n].value] else p
  }

  /** What the source guarantees of the packer's inputs. */
  predicate PackerInputs(entries: seq<ManifestEntry>, sources: seq<Result<Image, IoError>>)
  {
    && |sources| == |entries|
    && DistinctIds(entries)
    && forall i :: 0 <= i < |sources| && sources[i].Success? ==> sources[i].value.Valid()
  }

  /** The file the atlas is written to; os.Create's file reports this same name. */
  const AtlasName := "spritesheet.png"

  /**
   * LoadAndCacheTiles. `manifest` is the outcome of reading and decoding
   * the manifest, in map-iteration order; sources[i] the outcome of opening
   * and decoding entry i's texture; `save` the error, if any, of creating
   * and encoding the atlas file AtlasName. Returns the atlas file name and
   * the canvas that was (or would have been) encoded.
   */
  method LoadAndCacheTiles(table: TileTable, manifest: Result<seq<ManifestEntry>, IoError>,
                           sources: seq<Result<Image, IoError>>, save: Option<IoError>)
    returns (result: Result<string, IoError>, canvas: array2?<Color>)
    requires manifest.Success? ==> PackerInputs(manifest.value, sources)
    modifies table
    ensures manifest.Failure? ==>
      result == Failure(manifest.error) && canvas == null && table.entries == old(table.entries)
    ensures manifest.Success? && manifest.value == [] ==>
      result == Success("") && canvas == null && table.entries == old(table.entries)
    ensures manifest.Success? && manifest.value != [] ==>
      var entries, imgs := manifest.value, Decoded(sources);
      && canvas != null && fresh(canvas)
      && canvas.Length0 == CanvasWidth && canvas.Length1 == CanvasHeight
      && AllValid(imgs)
      && (forall x, y :: 0 <= x < CanvasWidth && 0 <= y < CanvasHeight ==> canvas[x, y] == Painted(imgs, x, y))
      && table.entries == Record(old(table.entries), entries[..|imgs|], imgs)
      && result == (if |imgs| < |entries| then Failure(sources[|imgs|].error)
                    else if save.Some? then Failure(save.value) else Success(AtlasName))
  {
    if manifest.Failure? {
      return Failure(manifest.error), null;
    }
    var entries := manifest.value;
    if |entries| == 0 {
      return Success(""), null;
    }
    canvas := new Color[CanvasWidth, CanvasHeight]((x, y) => Transparent);
    var index := 0;
    var i := 0;
    ghost var imgs: seq<Image> := [];
    while i < |entries|
      invariant 0 <= i <= |entries| && |imgs| == i
      invariant forall j :: 0 <= j < i ==> sources[j] == Success(imgs[j])
      invariant AllValid(imgs)
      invariant index == Cursor(imgs)
      invariant forall x, y :: 0 <= x < CanvasWidth && 0 <= y < CanvasHeight ==> canvas[x, y] == Painted(imgs, x, y)
      invariant table.entries == Record(old(table.entries), entries[..i], imgs)
    {
      if sources[i].Failure? {
        DecodedStopsAt(sources, imgs);
        return Failure(sources[i].error), canvas;
      }
      var img := sources[i].value;
      DrawImage(canvas, img, index, 0);
      index := index + img.width;
      table.entries := table.entries[entries[i].id := TileData(FrameOf(index, img), entries[i].applyRotation)];
      PackStep(old(table.entries), entries[..i + 1], imgs, img);
      assert entries[..i + 1][..i] == entries[..i];
      imgs := imgs + [img];
      i := i + 1;
    }
    DecodedStopsAt(sources, imgs);
    assert entries[..i] == entries;
    result := if save.Some? then Failure(save.value) else Success(AtlasName);
  }

  /** Packing one more image extends Cursor, Painted and Record by one step. */
  lemma PackStep(tileMap: map<string, TileData>, entries: seq<ManifestEntry>, imgs: seq<Image>, img: Image)
    requires AllValid(imgs) && img.Valid() && |entries| == |imgs| + 1
    ensures AllValid(imgs + [img])
    ensures Cursor(imgs + [img]) == Cursor(imgs) + img.width
    ensures forall x, y :: Painted(imgs + [img], x, y) == Blit(img, Cursor(imgs), 0, x, y, Painted(imgs, x, y))
    ensures Record(tileMap, entries, imgs + [img])
      == Record(tileMap, entries[..|imgs|], imgs)[entries[|imgs|].id := TileData(FrameOf(Cursor(imgs) + img.width, img), entries[|imgs|].applyRotation)]
  {
    assert (imgs + [img])[..|imgs|] == imgs;
  }

  /** Decoded picks out exactly the images before the first failure. */
  lemma DecodedStopsAt(sources: seq<Result<Image, IoError>>, imgs: seq<Image>)
    requires |imgs| <= |sources|
    requires forall j :: 0 <= j < |imgs| ==> sources[j] == Success(imgs[j])
    requires |imgs| < |sources| ==> sources[|imgs|].Failure?
    ensures Decoded(sources) == imgs
  {
  }

  // ---------------------------------------------------------------------
  // Properties of the packing

  /** Packing tile k moves the cursor right by exactly its width. */
  lemma CursorStep(imgs: seq<Image>, k: nat)
    requires k < |imgs|
    ensures Cursor(imgs[..k + 1]) == Cursor(imgs[..k]) + imgs[k].width
  {
    assert imgs[..k + 1][..k] == imgs[..k];
  }

  /** The cursor never moves left. */
  lemma {:induction false} CursorMonotone(imgs: seq<Image>, i: nat, j: nat)
    requires i <= j <= |imgs|
    ensures Cursor(imgs[..i]) <= Cursor(imgs[..j])
  {
    if i < j {
      CursorMonotone(imgs, i, j - 1);
      CursorStep(imgs, j - 1);
    }
  }

  /**
   * Tile k's frame starts at the cursor before it, spans exactly its width,
   * and its height (measured down from the canvas top) is its image height;
   * the next tile's frame starts where it ends.
   */
  lemma FrameLayout(imgs: seq<Image>, k: nat)
    requires k < |imgs|
    ensures var f := FrameOf(Cursor(imgs[..k + 1]), imgs[k]);
      && f.min.x == Cursor(imgs[..k])
      && f.max.x - f.min.x == imgs[k].width
      && f.min.y == CanvasHeight && f.min.y - f.max.y == imgs[k].height
    ensures k + 1 < |imgs| ==>
      FrameOf(Cursor(imgs[..k + 1]), imgs[k]).max.x == FrameOf(Cursor(imgs[..k + 2]), imgs[k + 1]).min.x
  {
    CursorStep(imgs, k);
    if k + 1 < |imgs| {
      CursorStep(imgs, k + 1);
    }
  }

  /** After recording, each manifest id maps to its own frame and rotation flag. */
  lemma {:induction false} RecordedEntry(tileMap: map<string, TileData>, entries: seq<ManifestEntry>, imgs: seq<Image>, k: nat)
    requires |entries| == |imgs| && DistinctIds(entries) && k < |entries|
    ensures var r := Record(tileMap, entries, imgs);
      && entries[k].id in r
      && r[entries[k].id] == TileData(FrameOf(Cursor(imgs[..k + 1]), imgs[k]), entries[k].applyRotation)
  {
    var n := |entries| - 1;
    if k == n {
      assert imgs[..k + 1] == imgs;
    } else {
      assert entries[..n][k] == entries[k] && imgs[..n][k] == imgs[k];
      assert imgs[..n][..k + 1] == imgs[..k + 1];
      RecordedEntry(tileMap, entries[..n], imgs[..n], k);
      assert entries[n].id != entries[k].id;
    }
  }

  /** The table is never cleared: ids outside the manifest keep what they had. */
  lemma {:induction false} RecordKeepsOthers(tileMap: map<string, TileData>, entries: seq<ManifestEntry>, imgs: seq<Image>, id: string)
    requires |entries| == |imgs|
    requires forall i :: 0 <= i < |entries| ==> entries[i].id != id
    ensures var r := Record(tileMap, entries, imgs);
      (id in r <==> id in tileMap) && (id in tileMap ==> r[id] == tileMap[id])
  {
    if entries != [] {
      var n := |entries| - 1;
      assert entries[n].id != id;
      RecordKeepsOthers(tileMap, entries[..n], imgs[..n], id);
    }
  }

  /**
   * Tile k's pixels survive the whole pass: later tiles start at or after the
   * end of its span, and the extra column of the tile before it is
   * overwritten by its first column.
   */
  lemma {:induction false} PaintedKeepsTile(imgs: seq<Image>, k: nat, x: int, y: int)
    requires AllValid(imgs) && k < |imgs|
    requires Cursor(imgs[..k]) <= x < Cursor(imgs[..k + 1])
    requires 0 <= y <= imgs[k].height
    ensures Painted(imgs, x, y) == imgs[k].At(x - Cursor(imgs[..k]), y)
  {
    var n := |imgs| - 1;
    CursorStep(imgs, k);
    if n == k {
      assert imgs[..n] == imgs[..k];
    } else {
      var init := imgs[..n];
      assert init[..k] == imgs[..k] && init[..k + 1] == imgs[..k + 1] && init[k] == imgs[k];
      CursorMonotone(imgs, k + 1, n);
      assert AllValid(init);
      PaintedKeepsTile(init, k, x, y);
    }
  }

  /**
   * Once a pass has recorded every entry, a tile built for entry k shows
   * exactly the atlas span its texture was blitted to.
   */
  lemma NewTileAfterPacking(tileMap: map<string, TileData>, entries: seq<ManifestEntry>, imgs: seq<Image>, k: nat)
    requires |entries| == |imgs| && DistinctIds(entries) && k < |entries|
    ensures var t := NewTile(Record(tileMap, entries, imgs), Meta(entries[k].id));
      && t.frame.min.x == Cursor(imgs[..k])
      && t.frame.max.x == Cursor(imgs[..k]) + imgs[k].width
      && t.frame.max.y == CanvasHeight - imgs[k].height
  {
    RecordedEntry(tileMap, entries, imgs, k);
    FrameLayout(imgs, k);
  }
}
