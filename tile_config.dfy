/** The value-level parts of the tile plugin: the placement record of one tile
    and its dict form, the table of grid shapes, the class name looked up for
    a plugin id, the list of plugins a tile may host, and the device
    configuration a hosted plugin sees. */
module TileConfigs {
  import opened Wrappers
  import opened Text

  // ---- grid shapes ----

  /** `GRID_SIZES`: the grid shapes the settings may name, as (columns, rows). */
  const GridSizes: map<string, (int, int)> := map[
    "2x2" := (2, 2), "3x3" := (3, 3), "4x4" := (4, 4), "5x5" := (5, 5),
    "6x6" := (6, 6), "7x7" := (7, 7), "8x8" := (8, 8), "9x9" := (9, 9),
    "10x10" := (10, 10)
  ]

  /** The name of the `n`-by-`n` grid, `"{n}x{n}"`. */
  function GridKey(n: nat): string {
    NatToDigits(n) + "x" + NatToDigits(n)
  }

  /** `GRID_SIZES.get(grid_size, (4, 4))`. */
  function GridShape(key: string): (shape: (int, int))
    ensures shape.0 == shape.1 && 2 <= shape.0 <= 10
    ensures key !in GridSizes ==> shape == (4, 4)
  {
    if key in GridSizes then GridSizes[key] else (4, 4)
  }

  /** Each square grid from 2x2 to 10x10 is in the table under its own name. */
  lemma GridSizesComplete(n: nat)
    requires 2 <= n <= 10
    ensures GridKey(n) in GridSizes && GridSizes[GridKey(n)] == (n, n)
  {
    GridKeyValue(n);
  }

  /** The table holds nothing else: each name in it is that of the square grid
      it maps to. */
  lemma GridSizesNamed(key: string)
    requires key in GridSizes
    ensures var n := GridSizes[key].0; 2 <= n <= 10 && key == GridKey(n) && GridSizes[key] == (n, n)
  {
    GridKeyValue(GridSizes[key].0);
  }

  /** The spelled-out name of each grid size. */
  lemma GridKeyValue(n: nat)
    requires 2 <= n <= 10
    ensures GridKey(n) == if n < 10 then [DigitChar(n), 'x', DigitChar(n)] else "10x10"
  {
    if n == 10 {
      assert NatToDigits(10) == NatToDigits(1) + [DigitChar(0)];
    }
  }

  // ---- one tile ----

  /** The settings a tile passes to the plugin it hosts. Their values are
      modelled as text. */
  type PluginSettings = map<string, string>

  /** The `plugin_settings` entry of a tile's dict: absent, `None`, or a dict. */
  datatype SettingsField = NoSettings | NullSettings | GivenSettings(value: PluginSettings)

  /** A tile's dict as decoded from the settings' JSON; `None` marks an absent
      key. */
  datatype TileData = TileData(
    x: Option<int>, y: Option<int>, width: Option<int>, height: Option<int>,
    pluginId: Option<string>, pluginSettings: SettingsField)

  /** `TileConfig`: a rectangle of grid cells and the plugin drawn into it. */
  datatype TileConfig = TileConfig(
    x: int, y: int, width: int, height: int,
    pluginId: string, pluginSettings: PluginSettings)

  /** `TileConfig.__init__`: settings given as `None` become an empty dict. */
  function NewTile(x: int, y: int, width: int, height: int, pluginId: string, settings: Option<PluginSettings>): (t: TileConfig)
    ensures t.pluginSettings == if settings.Some? then settings.value else map[]
    ensures t.x == x && t.y == y && t.width == width && t.height == height && t.pluginId == pluginId
  {
    TileConfig(x, y, width, height, pluginId, settings.GetOr(map[]))
  }

  /** `TileConfig.from_dict`: every absent key takes its default. */
  function FromDict(d: TileData): (t: TileConfig)
    ensures d.x.Some? ==> t.x == d.x.value
    ensures d.y.Some? ==> t.y == d.y.value
    ensures d.width.Some? ==> t.width == d.width.value
    ensures d.height.Some? ==> t.height == d.height.value
    ensures d.pluginId.Some? ==> t.pluginId == d.pluginId.value
    ensures d.pluginSettings.GivenSettings? ==> t.pluginSettings == d.pluginSettings.value
    ensures d.x.None? ==> t.x == 0
    ensures d.y.None? ==> t.y == 0
    ensures d.width.None? ==> t.width == 1
    ensures d.height.None? ==> t.height == 1
    ensures d.pluginId.None? ==> t.pluginId == ""
    ensures !d.pluginSettings.GivenSettings? ==> t.pluginSettings == map[]
  {
    var settings := match d.pluginSettings
      case NoSettings => Some(map[])
      case NullSettings => None
      case GivenSettings(s) => Some(s);
    NewTile(d.x.GetOr(0), d.y.GetOr(0), d.width.GetOr(1), d.height.GetOr(1), d.pluginId.GetOr(""), settings)
  }

  /** `TileConfig.to_dict`: every key is written, and reading the dict back
      gives the same tile. */
  function ToDict(t: TileConfig): (d: TileData)
    ensures d.x.Some? && d.y.Some? && d.width.Some? && d.height.Some?
    ensures d.pluginId.Some? && d.pluginSettings.GivenSettings?
    ensures FromDict(d) == t
  {
    TileData(Some(t.x), Some(t.y), Some(t.width), Some(t.height), Some(t.pluginId), GivenSettings(t.pluginSettings))
  }

  /** The defaults of `from_dict`: a one-cell tile in the top left corner with
      no plugin and no settings, whether the settings key is absent or `None`. */
  lemma FromDictDefaults(d: TileData)
    requires d.x.None? && d.y.None? && d.width.None? && d.height.None? && d.pluginId.None?
    requires !d.pluginSettings.GivenSettings?
    ensures FromDict(d) == TileConfig(0, 0, 1, 1, "", map[])
  {
  }

  /** Reading a dict and writing it back keeps every key the dict gave and
      fills in the rest; reading the result again gives the same tile. */
  lemma FromDictToDict(d: TileData)
    ensures var e := ToDict(FromDict(d));
      && (d.x.Some? ==> e.x == d.x) && (d.y.Some? ==> e.y == d.y)
      && (d.width.Some? ==> e.width == d.width) && (d.height.Some? ==> e.height == d.height)
      && (d.pluginId.Some? ==> e.pluginId == d.pluginId)
      && (d.pluginSettings.GivenSettings? ==> e.pluginSettings == d.pluginSettings)
      && FromDict(e) == FromDict(d)
  {
  }

  // ---- plugin class names ----

  /** The class name `_get_plugin_class_name` knows for each plugin id. */
  const ClassMapping: map<string, string> := map[
    "clock" := "Clock", "weather" := "Weather", "calendar" := "Calendar",
    "schoolmenu" := "SchoolMenu", "ai_text" := "AiText", "ai_image" := "AiImage",
    "apod" := "Apod", "comic" := "Comic", "image_folder" := "ImageFolder",
    "image_upload" := "ImageUpload", "image_url" := "ImageUrl",
    "newspaper" := "Newspaper", "screenshot" := "Screenshot",
    "unsplash" := "Unsplash", "wpotd" := "Wpotd"
  ]

  /** `_get_plugin_class_name`: the table's entry, or the id title-cased. */
  function ClassName(pluginId: string): (name: string)
    ensures pluginId in ClassMapping ==> name == ClassMapping[pluginId]
  {
    if pluginId in ClassMapping then ClassMapping[pluginId] else Title(pluginId)
  }

  /** An id the table does not know keeps its spelling; only the case of its
      letters changes, and a leading letter becomes a capital. */
  lemma ClassNameFallback(pluginId: string)
    requires pluginId !in ClassMapping
    ensures |ClassName(pluginId)| == |pluginId|
    ensures Lower(ClassName(pluginId)) == Lower(pluginId)
    ensures pluginId != [] && IsLetter(pluginId[0]) ==> 'A' <= ClassName(pluginId)[0] <= 'Z'
  {
    var name := ClassName(pluginId);
    if pluginId != [] {
      TitleAt(pluginId, 0);
    }
    forall i | 0 <= i < |pluginId|
      ensures Lower(name)[i] == Lower(pluginId)[i]
    {
      TitleAt(pluginId, i);
    }
  }

  // ---- the plugins a tile may host ----

  /** A registered plugin as the device configuration lists it; `None` marks
      an absent key. */
  datatype PluginInfo = PluginInfo(id: Option<string>, displayName: Option<string>)

  /** One entry of `get_available_plugins`: the id (possibly absent) and the
      name to show. */
  datatype PluginChoice = PluginChoice(id: Option<string>, displayName: string)

  /** The id of the tile plugin itself, which cannot host itself. */
  const TileId: string := "tile"

  /** The entry for one plugin: its display name, else its id, else
      "Unknown". */
  function ChoiceOf(p: PluginInfo): (c: PluginChoice)
    ensures c.id == p.id
    ensures p.displayName.Some? ==> c.displayName == p.displayName.value
    ensures p.displayName.None? && p.id.Some? ==> c.displayName == p.id.value
    ensures p.displayName.None? && p.id.None? ==> c.displayName == "Unknown"
  {
    PluginChoice(p.id, p.displayName.GetOr(p.id.GetOr("Unknown")))
  }

  predicate Hostable(p: PluginInfo) {
    p.id != Some(TileId)
  }

  /** The entries `get_available_plugins` returns for `plugins`. */
  function Available(plugins: seq<PluginInfo>): (r: seq<PluginChoice>)
    ensures |r| <= |plugins|
  {
    if plugins == [] then []
    else
      var last := plugins[|plugins| - 1];
      Available(plugins[..|plugins| - 1]) + if Hostable(last) then [ChoiceOf(last)] else []
  }

  /** `get_available_plugins`, over the plugins the device configuration
      lists. */
  method GetAvailablePlugins(plugins: seq<PluginInfo>) returns (available: seq<PluginChoice>)
    ensures available == Available(plugins)
  {
    available := [];
    for i := 0 to |plugins|
      invariant available == Available(plugins[..i])
    {
      assert plugins[..i + 1][..i] == plugins[..i];
      var plugin := plugins[i];
      if plugin.id != Some(TileId) {
        available := available + [ChoiceOf(plugin)];
      }
    }
    assert plugins[..|plugins|] == plugins;
  }

  /** The list of two parts is the list of the first followed by that of the
      second: the order of the plugins is kept. */
  lemma {:induction false} AvailableAppend(a: seq<PluginInfo>, b: seq<PluginInfo>)
    ensures Available(a + b) == Available(a) + Available(b)
    decreases |b|
  {
    if b == [] {
      assert a + b == a;
    } else {
      var init := b[..|b| - 1];
      assert (a + b)[..|a + b| - 1] == a + init;
      assert (a + b)[|a + b| - 1] == b[|b| - 1];
      AvailableAppend(a, init);
    }
  }

  /** An entry is listed exactly when some plugin other than the tile plugin
      gives it; in particular the tile plugin is never listed. */
  lemma {:induction false} AvailableMembers(plugins: seq<PluginInfo>)
    ensures forall c :: c in Available(plugins) <==> exists p :: p in plugins && Hostable(p) && c == ChoiceOf(p)
    ensures forall c :: c in Available(plugins) ==> c.id != Some(TileId)
  {
    if plugins != [] {
      var init := plugins[..|plugins| - 1];
      var last := plugins[|plugins| - 1];
      AvailableMembers(init);
      assert plugins == init + [last];
      forall c | c in Available(plugins)
        ensures exists p :: p in plugins && Hostable(p) && c == ChoiceOf(p)
      {
        if c in Available(init) {
          var p :| p in init && Hostable(p) && c == ChoiceOf(p);
          assert p in plugins;
        } else {
          assert c == ChoiceOf(last) && last in plugins;
        }
      }
      forall p | p in plugins && Hostable(p)
        ensures ChoiceOf(p) in Available(plugins)
      {
        if p != last {
          assert p in init;
        }
      }
    }
  }

  // ---- the device configuration a hosted plugin sees ----

  /** The device configuration: the display's resolution, its configuration
      values and its environment keys. The device configuration class itself
      is not part of this model; it is represented by what it answers. */
  datatype Device = Device(resolution: (int, int), config: map<string, string>, env: map<string, string>) {
    /** `get_config(key, default)`. */
    function GetConfig(key: string, default: Option<string>): (v: Option<string>)
      ensures key in config ==> v == Some(config[key])
      ensures key !in config ==> v == default
    {
      if key in config then Some(config[key]) else default
    }

    /** `load_env_key(key)`; `None` when the key is not set. */
    function LoadEnvKey(key: string): (v: Option<string>)
      ensures v.Some? <==> key in env
    {
      if key in env then Some(env[key]) else None
    }
  }

  /** `TileDeviceConfig`: the device configuration of a tile, which reports
      the tile's size as its resolution and forwards everything else. */
  datatype TileDevice = TileDevice(original: Device, dimensions: (int, int)) {
    function GetResolution(): (r: (int, int)) {
      dimensions
    }

    function GetConfig(key: string, default: Option<string>): (v: Option<string>) {
      original.GetConfig(key, default)
    }

    function LoadEnvKey(key: string): (v: Option<string>) {
      original.LoadEnvKey(key)
    }
  }

  /** A hosted plugin sees the tile's size as the resolution and the device's
      own answers to every other question. */
  lemma TileDeviceView(original: Device, dimensions: (int, int), key: string, default: Option<string>)
    ensures TileDevice(original, dimensions).GetResolution() == dimensions
    ensures TileDevice(original, dimensions).GetConfig(key, default) == original.GetConfig(key, default)
    ensures TileDevice(original, dimensions).LoadEnvKey(key) == original.LoadEnvKey(key)
  {
  }
}
