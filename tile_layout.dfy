/** `TilePlugin.generate_image` and the helpers it draws with: the canvas is
    the device's resolution (swapped when the display stands vertically), the
    grid divides it into cells of `width // columns` by `height // rows`
    pixels, border lines are drawn first, and then every tile in list order
    either pastes the picture its hosted plugin produced or, on any failure,
    fills its rectangle with the error colour. What the canvas holds at the
    end is stated as `Replay` of the operations `LayoutOps` lists. */
module TileLayout {
  import opened Wrappers
  import opened TileConfigs
  import opened HexColours
  import opened Canvases

  // ---- settings ----

  /** A setting that is read for its truth: a JSON boolean, or text, which
      Python counts as true unless it is empty. */
  datatype Setting = Flag(flag: bool) | Text(text: string)

  predicate Truthy(v: Setting) {
    match v
    case Flag(b) => b
    case Text(s) => s != ""
  }

  /** `tilesConfig`: absent (read as `"[]"`), JSON text that parses to a
      list of tile dicts or does not parse (`None`), or the list itself. */
  datatype TilesField =
    | TilesAbsent
    | TilesText(parsed: Option<seq<TileData>>)
    | TilesList(items: seq<TileData>)

  /** The settings `generate_image` reads; `None` where a key is absent. */
  datatype LayoutSettings = LayoutSettings(
    gridSize: Option<string>,
    showBorders: Option<Setting>,
    borderColor: Option<string>,
    backgroundColor: Option<string>,
    tilesConfig: TilesField)

  const DefaultGrid: string := "4x4"
  const DefaultBorder: string := "#cccccc"
  const DefaultBackground: string := "#ffffff"

  /** The tile dicts of the settings: text that does not parse gives none. */
  function TilesData(field: TilesField): (data: seq<TileData>)
    ensures field.TilesAbsent? || field == TilesText(None) ==> data == []
    ensures field.TilesList? ==> data == field.items
  {
    match field
    case TilesAbsent => []
    case TilesText(parsed) => parsed.GetOr([])
    case TilesList(items) => items
  }

  /** The tiles of the settings, one per dict, in order. */
  function Tiles(field: TilesField): (tiles: seq<TileConfig>)
    ensures |tiles| == |TilesData(field)|
    ensures forall k :: 0 <= k < |tiles| ==> tiles[k] == FromDict(TilesData(field)[k])
  {
    var data := TilesData(field);
    seq(|data|, k requires 0 <= k < |data| => FromDict(data[k]))
  }

  /** Whether borders are drawn: by default, or when the setting is true. */
  predicate ShowBorders(settings: LayoutSettings) {
    settings.showBorders.None? || Truthy(settings.showBorders.value)
  }

  /** `showBorders` is read for its truth: borders are drawn when the key is
      absent, and any non-empty text turns them on, even `"false"`; only the
      boolean `false` and the empty text turn them off. */
  lemma ShowBordersTruth(settings: LayoutSettings)
    ensures settings.showBorders.None? ==> ShowBorders(settings)
    ensures settings.showBorders == Some(Text("false")) ==> ShowBorders(settings)
    ensures !ShowBorders(settings) <==>
      settings.showBorders == Some(Flag(false)) || settings.showBorders == Some(Text(""))
  {
  }

  // ---- the imaging library and the hosted plugins ----

  /** What the model uses of the imaging library: resizing a picture, which
      may fail (`None`), converting it to another mode, and parsing a colour
      for a new RGB image, which may fail with a message. */
  datatype Imaging = Imaging(
    resize: (Picture, int, int) -> Option<Picture>,
    convert: (Picture, Mode) -> Picture,
    colour: string -> Result<Colour, string>)

  /** An imaging library that resizes to the size asked for, keeping the
      mode, and converts to the mode asked for, keeping the size. */
  ghost predicate Honest(imaging: Imaging) {
    && (forall p, w, h :: imaging.resize(p, w, h).Some? ==>
          var q := imaging.resize(p, w, h).value; q.width == w && q.height == h && q.mode == p.mode)
    && (forall p, m :: imaging.convert(p, m).width == p.width && imaging.convert(p, m).height == p.height
          && imaging.convert(p, m).mode == m)
  }

  /** `plugin_config`: the id and the class name looked up for it. */
  datatype PluginRef = PluginRef(id: string, className: string)

  /** What asking a hosted plugin for its picture gives: no such plugin, an
      exception with its message, or the picture. */
  datatype Rendering = NotFound | Raised(message: string) | Rendered(image: Picture)

  /** Loading the plugin a tile names and calling its `generate_image` with
      the tile's settings and device configuration. */
  type Host = (PluginRef, PluginSettings, TileDevice) -> Rendering

  // ---- geometry ----

  /** The canvas size: the device's resolution, its sides swapped when the
      display stands vertically and kept in any other orientation; the number
      of pixels does not change. */
  function CanvasSize(resolution: (int, int), orientation: Option<string>): (size: (int, int))
    ensures size.0 * size.1 == resolution.0 * resolution.1
    ensures orientation == Some("vertical") ==> size.0 == resolution.1 && size.1 == resolution.0
    ensures orientation != Some("vertical") ==> size == resolution
  {
    if orientation == Some("vertical") then (resolution.1, resolution.0) else resolution
  }

  /** The size of one grid cell: the canvas size divided by the grid shape,
      rounded down; the cells together leave less than one cell of slack. */
  function CellSize(width: int, height: int, cols: int, rows: int): (cell: (int, int))
    requires cols > 0 && rows > 0
    ensures cols * cell.0 <= width < cols * (cell.0 + 1)
    ensures rows * cell.1 <= height < rows * (cell.1 + 1)
  {
    (width / cols, height / rows)
  }

  /** A rectangle of the canvas: its top left corner and its size. */
  datatype Rect = Rect(x: int, y: int, w: int, h: int)

  /** The pixel rectangle of a tile: its grid position and size scaled by
      the cell size. */
  function TileRect(tile: TileConfig, cell: (int, int)): Rect {
    Rect(tile.x * cell.0, tile.y * cell.1, tile.width * cell.0, tile.height * cell.1)
  }

  lemma MulLe(a: int, b: int, c: int)
    requires a <= b && 0 <= c
    ensures a * c <= b * c
  {
  }

  lemma MulLt(a: int, b: int, c: int)
    requires c > 0 && c * a < c * b
    ensures a < b
  {
    if a >= b {
      MulLe(b, a, c);
    }
  }

  /** A tile that lies within the grid has a rectangle within the canvas. */
  lemma TileRectInside(tile: TileConfig, width: int, height: int, cols: int, rows: int)
    requires cols > 0 && rows > 0 && width >= 0 && height >= 0
    requires 0 <= tile.x && 0 <= tile.width && tile.x + tile.width <= cols
    requires 0 <= tile.y && 0 <= tile.height && tile.y + tile.height <= rows
    ensures var r := TileRect(tile, CellSize(width, height, cols, rows));
      0 <= r.x && r.x + r.w <= width && 0 <= r.y && r.y + r.h <= height
  {
    var cell := CellSize(width, height, cols, rows);
    MulLe(0, tile.x, cell.0);
    MulLe(tile.x + tile.width, cols, cell.0);
    MulLe(0, tile.y, cell.1);
    MulLe(tile.y + tile.height, rows, cell.1);
  }

  /** Tiles side by side in the grid are side by side on the canvas: the
      rectangle of a tile starting where another ends horizontally (or
      vertically) starts where the other's rectangle ends. */
  lemma TileRectsAbut(a: TileConfig, b: TileConfig, cell: (int, int))
    ensures b.x == a.x + a.width ==> TileRect(b, cell).x == TileRect(a, cell).x + TileRect(a, cell).w
    ensures b.y == a.y + a.height ==> TileRect(b, cell).y == TileRect(a, cell).y + TileRect(a, cell).h
  {
    if b.x == a.x + a.width {
      assert b.x * cell.0 == a.x * cell.0 + a.width * cell.0;
    }
    if b.y == a.y + a.height {
      assert b.y * cell.1 == a.y * cell.1 + a.height * cell.1;
    }
  }

  // ---- grid borders ----

  /** The vertical border lines for `n` columns `step` pixels wide: one line
      from the top to row `height` at each inner column boundary, left to
      right. */
  function VerticalLines(n: int, step: int, height: int, colour: Colour): (ops: seq<Op>)
    ensures |ops| == if n > 1 then n - 1 else 0
    ensures forall k :: 0 <= k < |ops| ==> ops[k] == Fill((k + 1) * step, 0, (k + 1) * step, height, colour)
    decreases n
  {
    if n <= 1 then []
    else VerticalLines(n - 1, step, height, colour) + [Fill((n - 1) * step, 0, (n - 1) * step, height, colour)]
  }

  /** The horizontal border lines for `n` rows `step` pixels high, top to
      bottom. */
  function HorizontalLines(n: int, step: int, width: int, colour: Colour): (ops: seq<Op>)
    ensures |ops| == if n > 1 then n - 1 else 0
    ensures forall k :: 0 <= k < |ops| ==> ops[k] == Fill(0, (k + 1) * step, width, (k + 1) * step, colour)
    decreases n
  {
    if n <= 1 then []
    else HorizontalLines(n - 1, step, width, colour) + [Fill(0, (n - 1) * step, width, (n - 1) * step, colour)]
  }

  /** All border lines: the vertical ones, then the horizontal ones. */
  function BorderOps(width: int, height: int, cols: int, rows: int, colour: Colour): seq<Op>
    requires cols > 0 && rows > 0
  {
    var cell := CellSize(width, height, cols, rows);
    VerticalLines(cols, cell.0, height, colour) + HorizontalLines(rows, cell.1, width, colour)
  }

  /** On a canvas at least as large as the grid, the vertical lines are
      one pixel wide, strictly inside the canvas and strictly left to right,
      and likewise the horizontal lines top to bottom. */
  lemma BorderLinesInside(width: int, height: int, cols: int, rows: int, colour: Colour)
    requires cols > 0 && rows > 0 && width >= cols && height >= rows
    ensures var v := VerticalLines(cols, width / cols, height, colour);
      && (forall k :: 0 <= k < |v| ==> v[k].left == v[k].right && 0 < v[k].left < width)
      && (forall k :: 0 < k < |v| ==> v[k - 1].left < v[k].left)
    ensures var h := HorizontalLines(rows, height / rows, width, colour);
      && (forall k :: 0 <= k < |h| ==> h[k].top == h[k].bottom && 0 < h[k].top < height)
      && (forall k :: 0 < k < |h| ==> h[k - 1].top < h[k].top)
  {
    var cell := CellSize(width, height, cols, rows);
    MulLt(1, cell.0 + 1, cols);
    MulLt(1, cell.1 + 1, rows);
    var v := VerticalLines(cols, cell.0, height, colour);
    forall k | 0 <= k < |v|
      ensures 0 < v[k].left < width && (k > 0 ==> v[k - 1].left < v[k].left)
    {
      InnerBoundaries(cols, cell.0, width, k);
      if k > 0 {
        InnerBoundaries(cols, cell.0, width, k - 1);
      }
    }
    var h := HorizontalLines(rows, cell.1, width, colour);
    forall k | 0 <= k < |h|
      ensures 0 < h[k].top < height && (k > 0 ==> h[k - 1].top < h[k].top)
    {
      InnerBoundaries(rows, cell.1, height, k);
      if k > 0 {
        InnerBoundaries(rows, cell.1, height, k - 1);
      }
    }
  }

  /** The `k`-th inner boundary of `n` cells `step` wide lies strictly inside
      `bound`, and strictly after the one before it. */
  lemma InnerBoundaries(n: int, step: int, bound: int, k: int)
    requires 0 <= k < n - 1 && step >= 1 && n * step <= bound
    ensures 0 < (k + 1) * step < bound
    ensures k * step < (k + 1) * step
  {
    MulLe(1, k + 1, step);
    MulLe(k + 1, n - 1, step);
    assert (n - 1) * step == n * step - step;
    assert (k + 1) * step == k * step + step;
  }

  /** `_draw_grid_borders`: a line at each inner column boundary, then at
      each inner row boundary. */
  method DrawGridBorders(canvas: Canvas, width: int, height: int, cols: int, rows: int, colour: Colour)
    requires canvas.Valid() && cols > 0 && rows > 0
    modifies canvas.pixels
    ensures forall i, j :: 0 <= i < canvas.width && 0 <= j < canvas.height ==>
      canvas.pixels[i, j] == Replay(BorderOps(width, height, cols, rows, colour), old(canvas.pixels[i, j]), i, j)
  {
    var tileWidth := width / cols;
    var tileHeight := height / rows;
    ghost var drawn: seq<Op> := [];
    for col := 1 to cols
      invariant drawn == VerticalLines(col, tileWidth, height, colour)
      invariant forall i, j :: 0 <= i < canvas.width && 0 <= j < canvas.height ==>
        canvas.pixels[i, j] == Replay(drawn, old(canvas.pixels[i, j]), i, j)
    {
      var x := col * tileWidth;
      var line := Fill(x, 0, x, height, colour);
      canvas.Draw(line);
      ReplaySnoc(drawn, line);
      drawn := drawn + [line];
    }
    ghost var vertical := drawn;
    for row := 1 to rows
      invariant drawn == vertical + HorizontalLines(row, tileHeight, width, colour)
      invariant forall i, j :: 0 <= i < canvas.width && 0 <= j < canvas.height ==>
        canvas.pixels[i, j] == Replay(drawn, old(canvas.pixels[i, j]), i, j)
    {
      var y := row * tileHeight;
      var line := Fill(0, y, width, y, colour);
      canvas.Draw(line);
      ReplaySnoc(drawn, line);
      drawn := drawn + [line];
    }
  }

  // ---- one tile ----

  /** The colour of the error rectangle: light red on an RGB canvas, 0
      otherwise. */
  function ErrorColour(mode: Mode): Colour {
    if mode == RgbMode then Rgb(255, 200, 200) else Bit(0)
  }

  /** The error rectangle of a tile, corners inclusive. */
  function ErrorFill(r: Rect, mode: Mode): Op {
    Fill(r.x, r.y, r.x + r.w, r.y + r.h, ErrorColour(mode))
  }

  /** The error rectangle takes its corners inclusively, so it covers the
      tile's rectangle and one more column and row: the first column and row
      of the neighbouring cells. */
  lemma ErrorFillArea(r: Rect, mode: Mode, i: int, j: int)
    ensures Covers(ErrorFill(r, mode), i, j) <==> r.x <= i <= r.x + r.w && r.y <= j <= r.y + r.h
  {
  }

  /** The text of the error placeholder. */
  function ErrorLabel(pluginId: string): string {
    "Error: " + pluginId
  }

  /** Where the error text goes: centred in the tile, the left margin at most
      one pixel narrower than the right one, and the top margin at most one
      pixel narrower than the bottom one. */
  function ErrorTextOrigin(r: Rect, textWidth: int, textHeight: int): (origin: (int, int))
    ensures var left := origin.0 - r.x; var right := r.x + r.w - (origin.0 + textWidth);
      left <= right <= left + 1
    ensures var top := origin.1 - r.y; var bottom := r.y + r.h - (origin.1 + textHeight);
      top <= bottom <= top + 1
  {
    (r.x + (r.w - textWidth) / 2, r.y + (r.h - textHeight) / 2)
  }

  /** A hosted plugin's picture made ready for pasting: resized to the tile
      when its size differs (`None` when resizing fails), then converted to
      mode "1" for a mode "1" canvas, or from mode "1" to RGB for an RGB
      canvas. */
  function Fitted(image: Picture, w: int, h: int, mode: Mode, imaging: Imaging): Option<Picture> {
    var sized := if image.width == w && image.height == h then Some(image) else imaging.resize(image, w, h);
    match sized
    case None => None
    case Some(p) =>
      Some(if mode == Bilevel && p.mode != Bilevel then imaging.convert(p, Bilevel)
           else if mode == RgbMode && p.mode == Bilevel then imaging.convert(p, RgbMode)
           else p)
  }

  /** With an honest imaging library, a fitted picture has the tile's size,
      and on a mode "1" canvas it is in mode "1"; a picture that already has
      the tile's size and the canvas's mode is pasted as it is. */
  lemma FittedShape(image: Picture, w: int, h: int, mode: Mode, imaging: Imaging)
    requires Honest(imaging)
    ensures var f := Fitted(image, w, h, mode, imaging);
      && (f.Some? ==> f.value.width == w && f.value.height == h)
      && (f.Some? && mode == Bilevel ==> f.value.mode == Bilevel)
      && (f.Some? && mode == RgbMode && image.mode != Bilevel ==> f.value.mode == image.mode)
      && (image.width == w && image.height == h && image.mode == mode ==> f == Some(image))
  {
  }

  /** What the tile's plugin renders, given the tile's settings and a device
      configuration whose resolution is the tile's size. */
  function TileRendering(tile: TileConfig, cell: (int, int), device: Device, host: Host): Rendering {
    var r := TileRect(tile, cell);
    host(PluginRef(tile.pluginId, ClassName(tile.pluginId)), tile.pluginSettings, TileDevice(device, (r.w, r.h)))
  }

  /** The drawing operation of one tile: the fitted picture pasted at the
      tile's corner, or the error rectangle when the plugin is not found,
      raises, or its picture cannot be resized. */
  function TileOp(tile: TileConfig, cell: (int, int), mode: Mode, device: Device, imaging: Imaging, host: Host): Op {
    var r := TileRect(tile, cell);
    match TileRendering(tile, cell, device, host)
    case Rendered(image) =>
      (match Fitted(image, r.w, r.h, mode, imaging)
       case Some(p) => Paste(p, r.x, r.y)
       case None => ErrorFill(r, mode))
    case _ => ErrorFill(r, mode)
  }

  /** A tile either pastes its fitted picture at its corner, exactly when
      the plugin rendered one and it could be fitted, or fills its error
      rectangle. */
  lemma TileOpCases(tile: TileConfig, cell: (int, int), mode: Mode, device: Device, imaging: Imaging, host: Host)
    ensures var op := TileOp(tile, cell, mode, device, imaging, host);
      var r := TileRect(tile, cell);
      var rendering := TileRendering(tile, cell, device, host);
      && (op.Paste? <==> rendering.Rendered? && Fitted(rendering.image, r.w, r.h, mode, imaging).Some?)
      && (op.Paste? ==> op == Paste(Fitted(rendering.image, r.w, r.h, mode, imaging).value, r.x, r.y))
      && (!op.Paste? ==> op == ErrorFill(r, mode))
  {
  }

  /** With an honest imaging library, a tile paints nothing outside its
      rectangle and the one extra column and row of the error rectangle. */
  lemma TileOpWithinTile(tile: TileConfig, cell: (int, int), mode: Mode, device: Device, imaging: Imaging, host: Host, i: int, j: int)
    requires Honest(imaging)
    requires Covers(TileOp(tile, cell, mode, device, imaging, host), i, j)
    ensures var r := TileRect(tile, cell); r.x <= i <= r.x + r.w && r.y <= j <= r.y + r.h
  {
    var r := TileRect(tile, cell);
    var rendering := TileRendering(tile, cell, device, host);
    if rendering.Rendered? {
      FittedShape(rendering.image, r.w, r.h, mode, imaging);
    }
  }

  /** `_draw_error_tile`, without its text: fills the tile's error
      rectangle. */
  method DrawErrorTile(canvas: Canvas, tile: TileConfig, cell: (int, int))
    requires canvas.Valid()
    modifies canvas.pixels
    ensures forall i, j :: 0 <= i < canvas.width && 0 <= j < canvas.height ==>
      canvas.pixels[i, j] == Shade(ErrorFill(TileRect(tile, cell), canvas.mode), i, j, old(canvas.pixels[i, j]))
  {
    var x := tile.x * cell.0;
    var y := tile.y * cell.1;
    var w := tile.width * cell.0;
    var h := tile.height * cell.1;
    var fill := if canvas.mode == RgbMode then Rgb(255, 200, 200) else Bit(0);
    canvas.Draw(Fill(x, y, x + w, y + h, fill));
  }

  /** `_render_tile`: asks the tile's plugin for a picture of the tile's
      size, fits it and pastes it, or draws the error tile. */
  method RenderTile(canvas: Canvas, tile: TileConfig, cell: (int, int), device: Device, imaging: Imaging, host: Host)
    requires canvas.Valid()
    modifies canvas.pixels
    ensures forall i, j :: 0 <= i < canvas.width && 0 <= j < canvas.height ==>
      canvas.pixels[i, j] == Shade(TileOp(tile, cell, canvas.mode, device, imaging, host), i, j, old(canvas.pixels[i, j]))
  {
    var x := tile.x * cell.0;
    var y := tile.y * cell.1;
    var w := tile.width * cell.0;
    var h := tile.height * cell.1;
    var tileDevice := TileDevice(device, (w, h));
    var plugin := PluginRef(tile.pluginId, ClassName(tile.pluginId));
    var rendering := host(plugin, tile.pluginSettings, tileDevice);
    if rendering.Rendered? {
      var sized := Some(rendering.image);
      if rendering.image.width != w || rendering.image.height != h {
        sized := imaging.resize(rendering.image, w, h);
      }
      if sized.Some? {
        var image := sized.value;
        if canvas.mode == Bilevel && image.mode != Bilevel {
          image := imaging.convert(image, Bilevel);
        } else if canvas.mode == RgbMode && image.mode == Bilevel {
          image := imaging.convert(image, RgbMode);
        }
        canvas.Draw(Paste(image, x, y));
        return;
      }
    }
    DrawErrorTile(canvas, tile, cell);
  }

  // ---- the whole layout ----

  /** A colour component as the imaging library stores it in an RGB image:
      the integer of an ink tuple is clipped to 0..255. */
  function Clip8(v: int): (b: int)
    ensures 0 <= b <= 255
    ensures 0 <= v <= 255 ==> b == v
    ensures v < 0 ==> b == 0
    ensures v > 255 ==> b == 255
  {
    if v < 0 then 0 else if v > 255 then 255 else v
  }

  /** The colour the border lines take on an RGB canvas: the tuple
      `_hex_to_rgb` gives, each component clipped as the imaging library does
      when it turns a fill tuple into ink. A tuple of bytes is kept as it is. */
  function BorderInk(rgb: (int, int, int)): (c: Colour)
    ensures c.Rgb? && 0 <= c.red <= 255 && 0 <= c.green <= 255 && 0 <= c.blue <= 255
    ensures 0 <= rgb.0 <= 255 && 0 <= rgb.1 <= 255 && 0 <= rgb.2 <= 255 ==> c == Rgb(rgb.0, rgb.1, rgb.2)
  {
    Rgb(Clip8(rgb.0), Clip8(rgb.1), Clip8(rgb.2))
  }

  /** A border colour with signed pairs reads as a tuple outside 0..255, and
      the lines are drawn with its clipped components. */
  lemma SignedBorderInk()
    ensures HexToRgb("#-f+f-0").Ok? && BorderInk(HexToRgb("#-f+f-0").value) == Rgb(0, 15, 0)
  {
    SignedComponents();
  }

  /** Everything `generate_image` decides before drawing: the canvas mode
      and size, the grid shape, the colours, whether borders are drawn, and
      the tiles. */
  datatype Plan = Plan(
    mode: Mode, width: nat, height: nat, cols: int, rows: int,
    background: Colour, border: Colour, borders: bool, tiles: seq<TileConfig>)

  /** The message of the imaging library when asked for a negative size. */
  const NegativeSize: string := "Width and height must be >= 0"

  /** The start of the message of the `RuntimeError` `generate_image`
      raises. */
  const FailurePrefix: string := "Failed to generate tile layout image: "

  /** The plan of `generate_image`, or the message of the exception that
      ends it: a negative canvas size, a background colour the imaging
      library cannot parse, or a border colour `_hex_to_rgb` cannot read. */
  function PlanOf(settings: LayoutSettings, device: Device, imaging: Imaging): (plan: Result<Plan, string>)
    ensures plan.Ok? ==> 2 <= plan.value.cols == plan.value.rows <= 10
    ensures plan.Ok? ==> plan.value.tiles == Tiles(settings.tilesConfig)
    ensures plan.Ok? ==> (plan.value.borders <==> ShowBorders(settings))
    ensures plan.Ok? ==> (plan.value.width, plan.value.height) == CanvasSize(device.resolution, device.GetConfig("orientation", None))
    ensures plan.Ok? ==> (plan.value.mode == Bilevel <==> device.GetConfig("color", None) == Some("bw"))
    ensures plan.Ok? && plan.value.mode == Bilevel ==> plan.value.background == Bit(1) && plan.value.border == Bit(0)
    ensures plan.Ok? ==> (plan.value.cols, plan.value.rows) == GridShape(settings.gridSize.GetOr(DefaultGrid))
    ensures plan.Ok? && plan.value.mode != Bilevel ==> plan.value.mode == RgbMode
    ensures plan.Ok? && plan.value.mode == RgbMode ==>
      && imaging.colour(settings.backgroundColor.GetOr(DefaultBackground)) == Ok(plan.value.background)
      && HexToRgb(settings.borderColor.GetOr(DefaultBorder)).Ok?
      && plan.value.border == BorderInk(HexToRgb(settings.borderColor.GetOr(DefaultBorder)).value)
    ensures plan.Err? <==>
      var size := CanvasSize(device.resolution, device.GetConfig("orientation", None));
      || size.0 < 0 || size.1 < 0
      || (device.GetConfig("color", None) != Some("bw")
          && (imaging.colour(settings.backgroundColor.GetOr(DefaultBackground)).Err?
              || HexToRgb(settings.borderColor.GetOr(DefaultBorder)).Err?))
    ensures plan.Err? ==> |plan.error| >= |FailurePrefix| && plan.error[..|FailurePrefix|] == FailurePrefix
  {
    var size := CanvasSize(device.resolution, device.GetConfig("orientation", None));
    var shape := GridShape(settings.gridSize.GetOr(DefaultGrid));
    var tiles := Tiles(settings.tilesConfig);
    if size.0 < 0 || size.1 < 0 then Err(FailurePrefix + NegativeSize)
    else if device.GetConfig("color", None) == Some("bw") then
      Ok(Plan(Bilevel, size.0, size.1, shape.0, shape.1, Bit(1), Bit(0), ShowBorders(settings), tiles))
    else
      match imaging.colour(settings.backgroundColor.GetOr(DefaultBackground))
      case Err(e) => Err(FailurePrefix + e)
      case Ok(background) =>
        match HexToRgb(settings.borderColor.GetOr(DefaultBorder))
        case Err(e) => Err(FailurePrefix + e)
        case Ok(rgb) =>
          Ok(Plan(RgbMode, size.0, size.1, shape.0, shape.1, background, BorderInk(rgb), ShowBorders(settings), tiles))
  }

  /** The cell size of a plan. */
  function CellOf(plan: Plan): (int, int)
    requires plan.cols > 0 && plan.rows > 0
  {
    CellSize(plan.width, plan.height, plan.cols, plan.rows)
  }

  /** The border lines of a plan, if it draws them. */
  function BordersOf(plan: Plan): seq<Op>
    requires plan.cols > 0 && plan.rows > 0
  {
    if plan.borders then BorderOps(plan.width, plan.height, plan.cols, plan.rows, plan.border) else []
  }

  /** One operation per tile, in list order. */
  function TileOps(tiles: seq<TileConfig>, cell: (int, int), mode: Mode, device: Device, imaging: Imaging, host: Host): (ops: seq<Op>)
    ensures |ops| == |tiles|
    ensures forall k :: 0 <= k < |tiles| ==> ops[k] == TileOp(tiles[k], cell, mode, device, imaging, host)
  {
    if tiles == [] then []
    else TileOps(tiles[..|tiles| - 1], cell, mode, device, imaging, host) + [TileOp(tiles[|tiles| - 1], cell, mode, device, imaging, host)]
  }

  /** The operations of one more tile are one more operation. */
  lemma TileOpsSnoc(tiles: seq<TileConfig>, k: nat, cell: (int, int), mode: Mode, device: Device, imaging: Imaging, host: Host)
    requires k < |tiles|
    ensures TileOps(tiles[..k + 1], cell, mode, device, imaging, host)
      == TileOps(tiles[..k], cell, mode, device, imaging, host) + [TileOp(tiles[k], cell, mode, device, imaging, host)]
  {
    assert tiles[..k + 1][..k] == tiles[..k];
  }

  /** Everything drawn on the canvas, in order: the borders, then the
      tiles. */
  function LayoutOps(plan: Plan, device: Device, imaging: Imaging, host: Host): seq<Op>
    requires plan.cols > 0 && plan.rows > 0
  {
    BordersOf(plan) + TileOps(plan.tiles, CellOf(plan), plan.mode, device, imaging, host)
  }

  /** The tile loop of `generate_image`: each tile, in list order, is
      rendered over what is already drawn. */
  method DrawTiles(canvas: Canvas, tiles: seq<TileConfig>, cell: (int, int), device: Device, imaging: Imaging, host: Host)
    requires canvas.Valid()
    modifies canvas.pixels
    ensures forall i, j :: 0 <= i < canvas.width && 0 <= j < canvas.height ==>
      canvas.pixels[i, j] == Replay(TileOps(tiles, cell, canvas.mode, device, imaging, host), old(canvas.pixels[i, j]), i, j)
  {
    ghost var done: seq<Op> := [];
    for k := 0 to |tiles|
      invariant done == TileOps(tiles[..k], cell, canvas.mode, device, imaging, host)
      invariant forall i, j :: 0 <= i < canvas.width && 0 <= j < canvas.height ==>
        canvas.pixels[i, j] == Replay(done, old(canvas.pixels[i, j]), i, j)
    {
      var op := TileOp(tiles[k], cell, canvas.mode, device, imaging, host);
      RenderTile(canvas, tiles[k], cell, device, imaging, host);
      ReplaySnoc(done, op);
      TileOpsSnoc(tiles, k, cell, canvas.mode, device, imaging, host);
      done := done + [op];
    }
    assert tiles[..|tiles|] == tiles;
  }

  /** `generate_image`: the new canvas, with every pixel as the layout's
      operations leave it on the background, or the `RuntimeError` message. */
  method GenerateImage(settings: LayoutSettings, device: Device, imaging: Imaging, host: Host) returns (result: Result<Canvas, string>)
    ensures result.Err? <==> PlanOf(settings, device, imaging).Err?
    ensures result.Err? ==> result.error == PlanOf(settings, device, imaging).error
    ensures result.Ok? ==>
      var plan := PlanOf(settings, device, imaging).value;
      var canvas := result.value;
      && fresh(canvas.pixels) && canvas.Valid()
      && canvas.mode == plan.mode && canvas.width == plan.width && canvas.height == plan.height
      && forall i, j :: 0 <= i < canvas.width && 0 <= j < canvas.height ==>
           canvas.pixels[i, j] == Replay(LayoutOps(plan, device, imaging, host), plan.background, i, j)
  {
    var tiles := Tiles(settings.tilesConfig);
    var size := CanvasSize(device.resolution, device.GetConfig("orientation", None));
    var width := size.0;
    var height := size.1;
    var shape := GridShape(settings.gridSize.GetOr(DefaultGrid));
    var cols := shape.0;
    var rows := shape.1;
    if width < 0 || height < 0 {
      return Err(FailurePrefix + NegativeSize);
    }
    var canvas: Canvas;
    var border: Colour;
    if device.GetConfig("color", None) == Some("bw") {
      canvas := new Canvas(Bilevel, width, height, Bit(1));
      border := Bit(0);
    } else {
      var background := imaging.colour(settings.backgroundColor.GetOr(DefaultBackground));
      if background.Err? {
        return Err(FailurePrefix + background.error);
      }
      canvas := new Canvas(RgbMode, width, height, background.value);
      var rgb := HexToRgb(settings.borderColor.GetOr(DefaultBorder));
      if rgb.Err? {
        return Err(FailurePrefix + rgb.error);
      }
      border := BorderInk(rgb.value);
    }
    ghost var plan := PlanOf(settings, device, imaging).value;
    var cell := CellSize(width, height, cols, rows);
    if ShowBorders(settings) {
      DrawGridBorders(canvas, width, height, cols, rows, border);
    }
    DrawTiles(canvas, tiles, cell, device, imaging, host);
    ReplayAppendAll(BordersOf(plan), TileOps(tiles, cell, canvas.mode, device, imaging, host));
    return Ok(canvas);
  }

  // ---- properties of the layout ----

  /** Tiles are drawn over the borders and over earlier tiles: a pixel shows
      what the last tile covering it painted. */
  lemma LastTileOnTop(plan: Plan, device: Device, imaging: Imaging, host: Host, k: nat, i: int, j: int)
    requires plan.cols > 0 && plan.rows > 0 && k < |plan.tiles|
    requires Covers(TileOp(plan.tiles[k], CellOf(plan), plan.mode, device, imaging, host), i, j)
    requires forall m :: k < m < |plan.tiles| ==>
      !Covers(TileOp(plan.tiles[m], CellOf(plan), plan.mode, device, imaging, host), i, j)
    ensures Replay(LayoutOps(plan, device, imaging, host), plan.background, i, j)
      == Paint(TileOp(plan.tiles[k], CellOf(plan), plan.mode, device, imaging, host), i, j)
  {
    var ops := TileOps(plan.tiles, CellOf(plan), plan.mode, device, imaging, host);
    ReplayAppend(BordersOf(plan), ops, plan.background, i, j);
    ReplayLastCover(ops, Replay(BordersOf(plan), plan.background, i, j), i, j, k);
  }

  /** A pixel no tile covers shows the borders over the background. */
  lemma UncoveredShowsBorders(plan: Plan, device: Device, imaging: Imaging, host: Host, i: int, j: int)
    requires plan.cols > 0 && plan.rows > 0
    requires forall m :: 0 <= m < |plan.tiles| ==>
      !Covers(TileOp(plan.tiles[m], CellOf(plan), plan.mode, device, imaging, host), i, j)
    ensures Replay(LayoutOps(plan, device, imaging, host), plan.background, i, j)
      == Replay(BordersOf(plan), plan.background, i, j)
  {
    var ops := TileOps(plan.tiles, CellOf(plan), plan.mode, device, imaging, host);
    ReplayAppend(BordersOf(plan), ops, plan.background, i, j);
    ReplayUntouched(ops, Replay(BordersOf(plan), plan.background, i, j), i, j);
  }

  /** A pixel on an inner column boundary, from the top to row `height`,
      that no tile covers has the border colour when borders are drawn. */
  lemma BorderLinePixel(plan: Plan, device: Device, imaging: Imaging, host: Host, c: int, j: int)
    requires plan.cols > 0 && plan.rows > 0 && plan.borders
    requires 1 <= c < plan.cols && 0 <= j <= plan.height
    requires forall m :: 0 <= m < |plan.tiles| ==>
      !Covers(TileOp(plan.tiles[m], CellOf(plan), plan.mode, device, imaging, host), c * CellOf(plan).0, j)
    ensures Replay(LayoutOps(plan, device, imaging, host), plan.background, c * CellOf(plan).0, j) == plan.border
  {
    var i := c * CellOf(plan).0;
    UncoveredShowsBorders(plan, device, imaging, host, i, j);
    var borders := BordersOf(plan);
    var v := VerticalLines(plan.cols, CellOf(plan).0, plan.height, plan.border);
    assert borders[c - 1] == v[c - 1];
    ReplayOneColour(borders, plan.background, plan.border, i, j, c - 1);
  }

  /** With borders off, a pixel no tile covers keeps the background. */
  lemma UncoveredShowsBackground(plan: Plan, device: Device, imaging: Imaging, host: Host, i: int, j: int)
    requires plan.cols > 0 && plan.rows > 0 && !plan.borders
    requires forall m :: 0 <= m < |plan.tiles| ==>
      !Covers(TileOp(plan.tiles[m], CellOf(plan), plan.mode, device, imaging, host), i, j)
    ensures Replay(LayoutOps(plan, device, imaging, host), plan.background, i, j) == plan.background
  {
    UncoveredShowsBorders(plan, device, imaging, host, i, j);
  }

  /** The default border colour `#cccccc` reads as (204, 204, 204). */
  lemma DefaultBorderColour()
    ensures HexToRgb(DefaultBorder) == Ok((204, 204, 204))
  {
    TrimLeftOfPrefix("#", "cccccc", '#');
    assert DefaultBorder == "#" + "cccccc";
    assert "cccccc" == "cc" + "cc" + "cc";
    HexToRgbOfDigits(DefaultBorder, "cc", "cc", "cc");
  }

  /** A grid size named in the table gives a grid of that many columns and
      rows; for instance `"3x3"` gives three of each. */
  lemma PlanGridOfSetting(settings: LayoutSettings, device: Device, imaging: Imaging, n: nat)
    requires 2 <= n <= 10 && settings.gridSize == Some(GridKey(n))
    ensures PlanOf(settings, device, imaging).Ok? ==>
      PlanOf(settings, device, imaging).value.cols == n && PlanOf(settings, device, imaging).value.rows == n
  {
    GridSizesComplete(n);
  }

  /** Empty settings give a 4 by 4 grid with borders and no tiles. */
  lemma DefaultPlan(device: Device, imaging: Imaging)
    requires PlanOf(LayoutSettings(None, None, None, None, TilesAbsent), device, imaging).Ok?
    ensures var plan := PlanOf(LayoutSettings(None, None, None, None, TilesAbsent), device, imaging).value;
      plan.cols == 4 && plan.rows == 4 && plan.borders && plan.tiles == []
  {
    assert DefaultGrid in GridSizes;
  }
}
