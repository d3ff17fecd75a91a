# School menu and tile layout plugins, modelled in Dafny

This project models two plugins of InkyPi, an e-ink display dashboard.

**School menu plugin** (`src/plugins/schoolmenu/schoolmenu.py`):
- It validates the number of days to show (1 to 5).
- It walks forward from today over school days (Monday to Friday) until it has that many.
- It fills each day with the lunch items of the menu fetched from the school's GraphQL API:
  - items are grouped by day of month;
  - names are stripped of whitespace and trailing colons, with duplicates dropped;
  - standard accompaniments such as milk and the garden bar are removed by case-insensitive substring match.
- It falls back to a placeholder menu whenever the fetch or the parse fails.
- It reads the plugin's settings.

**Tile plugin** (`src/plugins/tile/tile.py`):
- It lays a square grid of 2x2 to 10x10 cells over the display's canvas.
- It draws the inner grid lines.
- It asks a hosted plugin for a picture of each tile's size and pastes it at the tile's corner. When the plugin is missing, raises, or its picture cannot be resized, it fills an error rectangle instead, and it continues with the next tile.
- It also has:
  - the tile placement records with their dict form;
  - the `#rrggbb` colour reader;
  - the plugin-id to class-name table;
  - the list of plugins a tile may host.

The files:
- `wrappers.dfy` — `Option` and `Result`.
- `text.dfy` — Python's `strip`, `lstrip`, `rstrip`, `lower`, `title`, `in` and `int` on ASCII text.
- `calendar.dfy` — proleptic Gregorian dates as in Python's `datetime.date`, covering:
  - `toordinal` and `fromordinal`;
  - `weekday`;
  - the successor date (`+ timedelta(days=1)`);
  - the `%Y-%m-%d` text of a date and its parse.
- `menu_items.dfy` — `_group_items_by_day` and `_filter_standard_items`.
- `menu_window.dfy` — the school-day walk and the two menu-building loops, `_get_empty_menu_for_days` and `_convert_to_date_format`.
- `menu_api.dfy` — three parts:
  - `_extract_menu_dates` and `_parse_graphql_menu_data`;
  - the response branching of `_fetch_menu_from_api`;
  - `get_menu_for_days` and `_parse_settings`.
- `tile_config.dfy` — `GRID_SIZES`, `TileConfig`, `_get_plugin_class_name`, `get_available_plugins` and `TileDeviceConfig`.
- `hex_colour.dfy` — `_hex_to_rgb`.
- `canvas.dfy` — the canvas the tile plugin draws into:
  - a class over a two-dimensional array of pixels;
  - the two drawing primitives it uses (filling a rectangle, pasting a picture);
  - `Replay`, the colour of a pixel after a sequence of primitives.
- `tile_layout.dfy` — `generate_image`, `_draw_grid_borders`, `_render_tile` and `_draw_error_tile`.

The loops of the source are methods with loop invariants. Each is proved equal to a function, and the properties are lemmas about those functions:
- grouping, filtering, and the two menu loops;
- the plugin list;
- the border, tile and pixel loops.

`GenerateImage` returns a new canvas. Every pixel of it is proved to hold the colour that `Replay` gives for `LayoutOps`: the border lines first, then one operation per tile in list order, over the background.

## Model

| member | source | states |
|---|---|---|
| Calendar.DaysInMonth | src/plugins/schoolmenu/schoolmenu.py:253 | a month has 28 to 31 days |
| Calendar.Next | src/plugins/schoolmenu/schoolmenu.py:253 | the day after a valid date before 9999-12-31 is a valid date |
| Calendar.Weekday | src/plugins/schoolmenu/schoolmenu.py:259 | `weekday()` is 0 (Monday) to 6 (Sunday) |
| Calendar.NextSteps | src/plugins/schoolmenu/schoolmenu.py:253 | the day after a date is one ordinal later, and the day before it is the date again |
| Calendar.NextOfPrev | src/plugins/schoolmenu/schoolmenu.py:281 | stepping back a day and then forward returns the date |
| Calendar.OrdinalWeekdayStep | src/plugins/schoolmenu/schoolmenu.py:257-259 | the weekday advances by one, Sunday wrapping to Monday, with each day |
| Calendar.OrdinalOfFromOrdinal | src/plugins/schoolmenu/schoolmenu.py:281 | the date of a day number has that day number |
| Calendar.FromOrdinalOfOrdinal | src/plugins/schoolmenu/schoolmenu.py:281 | a date is the date of its own day number, which is at most that of 9999-12-31 |
| Calendar.OrdinalInjective | src/plugins/schoolmenu/schoolmenu.py:281 | distinct dates have distinct day numbers |
| Calendar.OrdinalFormula | src/plugins/schoolmenu/schoolmenu.py:281 | the day number counted day by day equals the closed form over years and months, as `toordinal` computes it |
| Calendar.OrdinalBeforeLastYear | src/plugins/schoolmenu/schoolmenu.py:270-281 | a date before year 9999 lies at least 365 days before the last representable date |
| Calendar.OrdinalMonotone | src/plugins/schoolmenu/schoolmenu.py:261-265 | a date earlier in the calendar has a smaller day number |
| Calendar.IsoDate | src/plugins/schoolmenu/schoolmenu.py:276 | `%Y-%m-%d` is ten characters with dashes at positions 4 and 7 |
| Calendar.PadDigitsValue | src/plugins/schoolmenu/schoolmenu.py:276 | a zero-padded field reads back as its number |
| Calendar.PadDigitsOfValue | src/plugins/schoolmenu/schoolmenu.py:276 | a field of digits is the zero-padding of its own value |
| Calendar.ParseIsoDateOfIsoDate | src/plugins/schoolmenu/schoolmenu.py:276 | the key text of a date parses back to the date |
| Calendar.IsoDateOfParseIsoDate | src/plugins/schoolmenu/schoolmenu.py:276 | every text that parses as a date is that date's key text |
| Calendar.IsoDateInjective | src/plugins/schoolmenu/schoolmenu.py:276 | distinct dates have distinct keys |
| Text.TrimLeft | src/plugins/tile/tile.py:158 | `lstrip`: the result is a suffix that does not start with a stripped character, and everything before it is stripped characters |
| Text.TrimRight | src/plugins/schoolmenu/schoolmenu.py:210 | `rstrip`: the result is a prefix that does not end with a stripped character, and everything after it is stripped characters |
| Text.StripIsMaximalSlice | src/plugins/schoolmenu/schoolmenu.py:403 | `strip` (`Text.Strip`) gives the slice left between the leading and the trailing whitespace |
| Text.StripEnds | src/plugins/schoolmenu/schoolmenu.py:205 | a stripped string is empty or neither starts nor ends with whitespace |
| Text.StripUnchanged | src/plugins/schoolmenu/schoolmenu.py:210 | `strip` leaves a string without surrounding whitespace unchanged |
| Text.StripEmptyIffAllSpace | src/plugins/schoolmenu/schoolmenu.py:205 | a string strips to nothing exactly when it is all whitespace |
| Text.Lower | src/plugins/schoolmenu/schoolmenu.py:292 | lower-casing keeps the length |
| Text.TitleAt | src/plugins/tile/tile.py:334 | `title()` (`Text.Title`): each character is upper-cased unless it follows a letter, in which case it is lower-cased |
| Text.ContainsIff | src/plugins/schoolmenu/schoolmenu.py:292 | `p in s` holds exactly when `p` occurs in `s` at some position |
| Text.DigitValue | src/plugins/schoolmenu/schoolmenu.py:405 | a digit's value is below 10 and writes back as the digit |
| Text.NatToDigits | src/plugins/schoolmenu/schoolmenu.py:405 | a number's decimal text is a non-empty run of digits |
| Text.DigitsRoundTrip | src/plugins/schoolmenu/schoolmenu.py:405 | the decimal text of a number reads back as the number |
| Text.DigitsCanonical | src/plugins/schoolmenu/schoolmenu.py:405 | digits without a leading zero are the decimal text of their value |
| Text.ParseIntOfUnsigned | src/plugins/schoolmenu/schoolmenu.py:405 | `int` (`Text.ParseInt`) of a run of digits is its value |
| Text.ParseIntOfDigits | src/plugins/schoolmenu/schoolmenu.py:405 | `int` of a number's decimal text is the number |
| Text.ParseIntOfNegative | src/plugins/schoolmenu/schoolmenu.py:405 | `int` of a minus sign and digits is the negative number |
| MenuItems.GroupItemsByDay | src/plugins/schoolmenu/schoolmenu.py:196-214 | the grouping loop computes `Grouped`, or fails when an item's product is null |
| MenuItems.AddItemInTwoSteps | src/plugins/schoolmenu/schoolmenu.py:205-212 | one loop step makes sure the day has a list, then appends the cleaned name unless it is empty or already listed |
| MenuItems.GroupedStep | src/plugins/schoolmenu/schoolmenu.py:200-212 | grouping one more item applies one loop step to the grouping so far, or fails |
| MenuItems.NoneStaysNone | src/plugins/schoolmenu/schoolmenu.py:200-203 | once an item raises, the whole grouping fails: no partial result |
| MenuItems.GroupedFailsIffNullProduct | src/plugins/schoolmenu/schoolmenu.py:202-203 | the grouping fails exactly when some item's product is null |
| MenuItems.GroupedMeaning | src/plugins/schoolmenu/schoolmenu.py:196-214 | the days are exactly those of kept items, and each day lists the cleaned names of its items without repeats, in first-occurrence order |
| MenuItems.DedupProperties | src/plugins/schoolmenu/schoolmenu.py:211 | dropping repeats leaves no duplicates and the same members |
| MenuItems.NamesForAbsentDay | src/plugins/schoolmenu/schoolmenu.py:205-207 | a day without kept items has no names |
| MenuItems.GroupedListsAreClean | src/plugins/schoolmenu/schoolmenu.py:209-212 | each day's list has no duplicates, and no name in it is empty or ends with a colon |
| MenuItems.NamesAreClean | src/plugins/schoolmenu/schoolmenu.py:210 | every cleaned name is non-empty and does not end with a colon |
| MenuItems.FilterStandardItems | src/plugins/schoolmenu/schoolmenu.py:285-299 | the nested filter loop computes `Filtered` |
| MenuItems.FilteredAppend | src/plugins/schoolmenu/schoolmenu.py:288-297 | filtering distributes over concatenation, so order is kept |
| MenuItems.FilteredSingle | src/plugins/schoolmenu/schoolmenu.py:289-297 | a single item is dropped exactly when some standard item occurs in it, ignoring case |
| MenuItems.FilteredMembers | src/plugins/schoolmenu/schoolmenu.py:285-299 | an item survives exactly when it is in the input and is not standard |
| MenuWindow.SchoolDayOrdinal | src/plugins/schoolmenu/schoolmenu.py:257-259 | `_is_school_day` (`IsSchoolDay`) is the walk's weekday test on the date's day number |
| MenuWindow.WeekendEnds | src/plugins/schoolmenu/schoolmenu.py:257-259 | a day that is not a school day is followed by one within two days, and a school day by another within three |
| MenuWindow.SchoolDays | src/plugins/schoolmenu/schoolmenu.py:267-283 | the window holds `n` day numbers, each a Monday to Friday on or after today |
| MenuWindow.WindowStep | src/plugins/schoolmenu/schoolmenu.py:273-281 | each step of the walk stays within the calendar |
| MenuWindow.SchoolDaysStep | src/plugins/schoolmenu/schoolmenu.py:273-281 | a school day starts the window and is counted; a weekend day is skipped |
| MenuWindow.SchoolDaysIncreasing | src/plugins/schoolmenu/schoolmenu.py:273-281 | the window's days strictly increase |
| MenuWindow.SchoolDaysStartEarly | src/plugins/schoolmenu/schoolmenu.py:273-281 | no school day lies between today and the window's first day |
| MenuWindow.SchoolDaysGapFree | src/plugins/schoolmenu/schoolmenu.py:273-281 | no school day between two consecutive window days is skipped |
| MenuWindow.StepsWithinWeek | src/plugins/schoolmenu/schoolmenu.py:273-281 | from a weekday with enough weekdays left, the walk takes exactly `n` steps |
| MenuWindow.StepsFromWeekend | src/plugins/schoolmenu/schoolmenu.py:273-281 | from a Saturday or Sunday, the walk first skips to Monday |
| MenuWindow.StepsAtMostAWeek | src/plugins/schoolmenu/schoolmenu.py:273-281 | the walk for at most five days takes at most `n + 2` steps |
| MenuWindow.WindowFitsForValidCounts | src/plugins/schoolmenu/schoolmenu.py:270-281 | from a date before year 9999, the walk for up to five days stays within the calendar |
| MenuWindow.EmptyMenuForDays | src/plugins/schoolmenu/schoolmenu.py:267-283 | the placeholder loop computes `EmptyMenu` |
| MenuWindow.EmptyMenuFrom | src/plugins/schoolmenu/schoolmenu.py:273-281 | the placeholder loop from any day computes `EmptyMenu` from that day |
| MenuWindow.MenuRangeIsMonth | src/plugins/schoolmenu/schoolmenu.py:261-265 | `_is_date_in_menu_range` (`InMenuRange`) accepts exactly the days from the first to the last of the menu's month |
| MenuWindow.ItemsForDate | src/plugins/schoolmenu/schoolmenu.py:233-249 | the per-date branching computes `DayEntry` |
| MenuWindow.ConvertToDateFormat | src/plugins/schoolmenu/schoolmenu.py:216-255 | the conversion loop computes `FilledMenu` |
| MenuWindow.ConvertFrom | src/plugins/schoolmenu/schoolmenu.py:228-253 | the conversion loop from any day computes `FilledMenu` from that day |
| MenuWindow.MenusFollowWindow | src/plugins/schoolmenu/schoolmenu.py:216-283 | both menus have one entry per window day, in order; the placeholder's entries read "Menu not available" |
| MenuWindow.OnWindowSameKeys | src/plugins/schoolmenu/schoolmenu.py:216-283 | two menus on the same window have the same keys in the same order |
| MenuWindow.OnWindowDates | src/plugins/schoolmenu/schoolmenu.py:228-253 | every entry is a Monday to Friday on or after today, the dates strictly increase, and the keys are distinct |
| MenuWindow.EntryOrdinal | src/plugins/schoolmenu/schoolmenu.py:228-253 | entry `i` falls on the `i`-th window day, a school day |
| MenuWindow.KeysDistinct | src/plugins/schoolmenu/schoolmenu.py:231 | distinct dates give distinct keys, so no entry overwrites another |
| MenuWindow.FilledMenuEntries | src/plugins/schoolmenu/schoolmenu.py:233-249 | each entry is non-empty. It gets "No menu available" when the date is outside the menu's month, has no items, or has only standard items. Otherwise it gets the filtered items. |
| SchoolMenu.ExtractMenuDates | src/plugins/schoolmenu/schoolmenu.py:185-194 | gives the month and year exactly when both are present and non-zero |
| SchoolMenu.ParseGraphqlMenuData | src/plugins/schoolmenu/schoolmenu.py:160-183 | parsing a menu object computes `ParsedMenu` |
| SchoolMenu.ParsedMenuIsWhole | src/plugins/schoolmenu/schoolmenu.py:164-183 | a parsed menu is either the filled menu or, when the dates are missing or the grouping raises, the whole placeholder menu |
| SchoolMenu.FetchMenuFromApi | src/plugins/schoolmenu/schoolmenu.py:86-128 | the fetch computes `FetchedMenu` from the response |
| SchoolMenu.FetchedMenuOnWindow | src/plugins/schoolmenu/schoolmenu.py:86-128 | whatever the response, the result has one entry per window day, on the same dates as the placeholder |
| SchoolMenu.FailedFetchIsPlaceholder | src/plugins/schoolmenu/schoolmenu.py:90-121 | an empty id, a transport failure, a non-200 status, an `errors` field, a body that is not JSON, or no menu: all give `n` entries of "Menu not available" |
| SchoolMenu.GetMenuForDays | src/plugins/schoolmenu/schoolmenu.py:65-80 | the entry point computes `MenuForDays` |
| SchoolMenu.MenuForDaysShape | src/plugins/schoolmenu/schoolmenu.py:72-84 | it fails exactly when `_is_valid_day_count` (`IsValidDayCount`) rejects the count, that is outside 1..5, and otherwise returns a menu on the school-day window |
| SchoolMenu.NoMenuIdNoRequest | src/plugins/schoolmenu/schoolmenu.py:77-80 | without a menu id the response is never looked at, and a valid count gives the placeholder menu |
| SchoolMenu.ParseSettings | src/plugins/schoolmenu/schoolmenu.py:401-421 | fails exactly when `int` rejects the day count. Otherwise the count is in 1..5 (the value, or 1), the menu id is stripped, and a blank site code becomes `None`. |
| SchoolMenu.ParseSettingsDayCount | src/plugins/schoolmenu/schoolmenu.py:405-412 | a readable count is kept when valid and replaced by 1 otherwise |
| SchoolMenu.ParseSettingsOfDigits | src/plugins/schoolmenu/schoolmenu.py:405-412 | the decimal text of a count parses, giving the count when valid and 1 otherwise |
| SchoolMenu.ParsedSettingsAreAccepted | src/plugins/schoolmenu/schoolmenu.py:410-417 | parsed settings never make `get_menu_for_days` raise |
| SchoolMenu.ParseSettingsIdempotent | src/plugins/schoolmenu/schoolmenu.py:401-421 | parsing the parsed settings again gives them back |
| TileConfigs.GridShape | src/plugins/tile/tile.py:116 | every shape is square with side 2 to 10, and an unknown name gives 4 by 4 |
| TileConfigs.GridSizesComplete | src/plugins/tile/tile.py:19-29 | every side from 2 to 10 is in the table under `"{n}x{n}"` |
| TileConfigs.GridSizesNamed | src/plugins/tile/tile.py:19-29 | every table entry is named `"{n}x{n}"` for its square side `n` |
| TileConfigs.NewTile | src/plugins/tile/tile.py:35-49 | the record holds its arguments, with missing settings as an empty dict |
| TileConfigs.FromDict | src/plugins/tile/tile.py:61-70 | every field the dict gives is taken as given, and every absent one takes its default: x and y 0, width and height 1, id "", settings `{}` (also for `None`) |
| TileConfigs.FromDictDefaults | src/plugins/tile/tile.py:61-70 | an empty dict gives x 0, y 0, width 1, height 1, id "" and no settings |
| TileConfigs.ToDict | src/plugins/tile/tile.py:51-59 | every key is present, and `from_dict(to_dict(t))` is `t` |
| TileConfigs.FromDictToDict | src/plugins/tile/tile.py:51-70 | `to_dict(from_dict(d))` keeps every field `d` gives, and reads back as the same record |
| TileConfigs.ClassName | src/plugins/tile/tile.py:313-334 | a known id gives its table entry |
| TileConfigs.ClassNameFallback | src/plugins/tile/tile.py:334 | an unknown id keeps its length and its letters up to case, and a leading letter becomes a capital |
| TileConfigs.ChoiceOf | src/plugins/tile/tile.py:344-351 | the entry keeps the id and shows the display name, else the id, else "Unknown" |
| TileConfigs.Available | src/plugins/tile/tile.py:336-353 | the list is no longer than the plugin list |
| TileConfigs.GetAvailablePlugins | src/plugins/tile/tile.py:336-353 | the loop computes `Available` |
| TileConfigs.AvailableAppend | src/plugins/tile/tile.py:341-351 | the list of a concatenation is the concatenation of the lists, so order is kept |
| TileConfigs.AvailableMembers | src/plugins/tile/tile.py:341-351 | an entry is listed exactly when it comes from a plugin whose id is not `tile`, so `tile` is never listed |
| TileConfigs.TileDeviceView | src/plugins/tile/tile.py:292-311 | a hosted plugin's `TileDevice` sees the tile's size as the resolution and the device's own configuration and environment answers |
| HexColours.HexDigit | src/plugins/tile/tile.py:161-163 | a character has a value below 16 exactly when it is a hex digit of either case |
| HexColours.ParsePair | src/plugins/tile/tile.py:161-163 | `int(pair, 16)` of two characters, when it parses, lies in -15..255 |
| HexColours.StrippedPairIsStrip | src/plugins/tile/tile.py:161-163 | the whitespace handling of a pair is Python's `strip` |
| HexColours.ParsePairOfDigits | src/plugins/tile/tile.py:161-163 | two hex digits parse to their byte, most significant first |
| HexColours.HexToRgb | src/plugins/tile/tile.py:156-165 | anything but six characters after the `#`s gives white; a failure comes only from six characters |
| HexColours.HexToRgbOfDigits | src/plugins/tile/tile.py:156-165 | six hex digits after the `#`s give the three bytes they spell |
| HexColours.HexToRgbRoundTrip | src/plugins/tile/tile.py:156-165 | writing a colour as hex digits behind any number of `#`s reads back as the colour |
| HexColours.SignedComponents | src/plugins/tile/tile.py:159-164 | a sign may lead each pair, so components outside 0..255 can come back |
| Canvases.Shade | src/plugins/tile/tile.py:264-267 | a drawing operation leaves the pixels it does not cover alone |
| Canvases.Canvas.constructor | src/plugins/tile/tile.py:119-124 | a new image of the given mode and size has the background everywhere |
| Canvases.Canvas.Draw | src/plugins/tile/tile.py:183 | a line, rectangle or paste, clipped to the canvas, paints what it covers and nothing else |
| Canvases.ReplayAppend | src/plugins/tile/tile.py:133-147 | drawing the borders and then the tiles is drawing the tiles on the bordered canvas |
| Canvases.ReplayUntouched | src/plugins/tile/tile.py:139-147 | a pixel no operation covers keeps its colour |
| Canvases.ReplayLastCover | src/plugins/tile/tile.py:139-147 | a pixel shows the last operation that covers it, so later tiles overwrite earlier ones |
| Canvases.ReplayOneColour | src/plugins/tile/tile.py:181-188 | when every operation fills with one colour, a covered pixel has that colour |
| TileLayout.ShowBordersTruth | src/plugins/tile/tile.py:90 | borders are drawn by default and for any non-empty text, even `"false"`; only `false` and `""` turn them off |
| TileLayout.CanvasSize | src/plugins/tile/tile.py:109-113 | a vertical display swaps the resolution's sides, any other keeps them; the pixel count is unchanged |
| TileLayout.TilesData | src/plugins/tile/tile.py:95-103 | an absent or unparsable tile list gives no tiles, and a given list is used as is |
| TileLayout.Tiles | src/plugins/tile/tile.py:106 | one record per tile dict, in order, each read by `from_dict` |
| TileLayout.Clip8 | src/plugins/tile/tile.py:181-188 | an ink component is clipped into 0..255 and kept when already in range |
| TileLayout.BorderInk | src/plugins/tile/tile.py:122-124 | the border ink is an RGB colour of bytes, equal to the `_hex_to_rgb` tuple whenever that is in range |
| TileLayout.SignedBorderInk | src/plugins/tile/tile.py:156-165 | `#-f+f-0` reads as (-15, 15, 0) and is drawn as (0, 15, 0) |
| TileLayout.CellSize | src/plugins/tile/tile.py:129-130 | the cells fill the canvas with less than one cell to spare in each direction |
| TileLayout.TileRectInside | src/plugins/tile/tile.py:201-204 | a tile inside the grid has its rectangle (`TileRect`) inside the canvas |
| TileLayout.TileRectsAbut | src/plugins/tile/tile.py:201-204 | tiles next to each other in the grid have rectangles that meet without gap or overlap |
| TileLayout.VerticalLines | src/plugins/tile/tile.py:181-183 | columns minus one vertical lines, the `k`-th at column boundary `k`, from the top to row `height` |
| TileLayout.HorizontalLines | src/plugins/tile/tile.py:186-188 | rows minus one horizontal lines, the `k`-th at row boundary `k`, across to column `width` |
| TileLayout.BorderLinesInside | src/plugins/tile/tile.py:177-188 | on a canvas at least as large as the grid, the lines are one pixel wide, strictly inside the canvas, and strictly increasing |
| TileLayout.DrawGridBorders | src/plugins/tile/tile.py:167-188 | the border loops leave every pixel as the border lines, in order, paint it |
| TileLayout.ErrorFillArea | src/plugins/tile/tile.py:264-267 | the error rectangle (`ErrorFill`), corners included, covers the tile and one more column and row |
| TileLayout.ErrorTextOrigin | src/plugins/tile/tile.py:277-283 | the error text is centred, each margin at most one pixel narrower than its opposite |
| TileLayout.FittedShape | src/plugins/tile/tile.py:225-237 | with an honest imaging library: a fitted picture (`Fitted`) has the tile's size; on a mode "1" canvas it is mode "1"; a picture of the right size and mode is used as is |
| TileLayout.TileOpCases | src/plugins/tile/tile.py:217-247 | a tile's operation (`TileOp`) pastes its fitted picture at its corner exactly when the plugin rendered one and it fits; otherwise it fills its error rectangle |
| TileLayout.TileOpWithinTile | src/plugins/tile/tile.py:201-247 | with an honest imaging library, a tile paints nothing outside its rectangle and the error rectangle's extra column and row |
| TileLayout.DrawErrorTile | src/plugins/tile/tile.py:249-267 | the error tile fills the error rectangle, light red on RGB and 0 otherwise |
| TileLayout.RenderTile | src/plugins/tile/tile.py:190-247 | rendering a tile leaves every pixel as the tile's operation paints it |
| TileLayout.PlanOf | src/plugins/tile/tile.py:85-124 | the grid is the `gridSize` setting's entry in the table (4 by 4 by default); the tiles, the borders flag and the canvas size follow the settings and the device; mode "1" exactly on a `bw` display, with background 1 and border 0; otherwise RGB with the parsed background and the clipped `_hex_to_rgb` border; it fails exactly when a side is negative or, on a colour display, the background or border colour cannot be read, with the `RuntimeError` prefix |
| TileLayout.TileOps | src/plugins/tile/tile.py:139-147 | one operation per tile, in list order |
| TileLayout.DrawTiles | src/plugins/tile/tile.py:139-147 | the tile loop leaves every pixel as the tiles' operations, in order, paint it; no tile stops the loop |
| TileLayout.GenerateImage | src/plugins/tile/tile.py:85-154 | fails exactly when the plan fails, with its message; otherwise a new canvas of the planned mode and size whose every pixel is the borders and then the tiles replayed over the background |
| TileLayout.LastTileOnTop | src/plugins/tile/tile.py:133-147 | a pixel shows the last tile covering it, over the borders and over earlier tiles |
| TileLayout.UncoveredShowsBorders | src/plugins/tile/tile.py:133-147 | a pixel no tile covers shows the borders over the background |
| TileLayout.BorderLinePixel | src/plugins/tile/tile.py:133-136 | a pixel on an inner column line that no tile covers has the border colour |
| TileLayout.UncoveredShowsBackground | src/plugins/tile/tile.py:118-147 | with borders off, a pixel no tile covers keeps the background |
| TileLayout.DefaultBorderColour | src/plugins/tile/tile.py:91 | the default border colour reads as (204, 204, 204) |
| TileLayout.PlanGridOfSetting | src/plugins/tile/tile.py:116 | a grid size named `"{n}x{n}"` gives `n` columns and `n` rows, e.g. `"3x3"` gives 3 |
| TileLayout.DefaultPlan | src/plugins/tile/tile.py:89-116 | empty settings give a 4 by 4 grid with borders and no tiles |

## Left out

- The HTTP request: the GraphQL query and headers (`_build_menu_query`, `_get_api_headers`), the timeout, and the POST itself. The `Response` it produced is a parameter.
- `date.today()`. Today's date is a parameter.
- Logging, including the site code, which `_fetch_menu_from_api` only logs.
- Presentation:
  - the school menu's `generate_image` and `_prepare_template_params` (display strings, time zones, HTML rendering);
  - `generate_settings_template` of both plugins;
  - the float `font_scale` read from `FONT_SIZES`.
- SchoolMenu.GetMenuForDays: requires today's year to be below 9999. Python's date step raises OverflowError near 9999-12-31, and the placeholder menu it falls back to raises the same way. The model does not represent that exception.
- SchoolMenu.ParseSettings: the settings are modelled as strings, booleans and a day count. A non-string `menuId` or `siteCode` makes `.strip()` raise, and that is not modelled.
- HexColours.HexDigit: reads ASCII hex digits only. `int(pair, 16)` also accepts other Unicode decimal digits, which the model rejects.
- Calendar.IsoDate: always writes the year as four digits. CPython's `%Y` for years below 1000 depends on the platform's `strftime`.
- Text.ParseInt: reads ASCII digits only. Python's `int` also accepts other Unicode decimal digits and underscores between digits, which the model rejects.
- Text.Lower and Text.Title: ASCII letters only, where Python follows Unicode casing.
- Menu entries hold the date itself. The `%Y-%m-%d` key is its text (`IsoDate`), proved injective and readable back.
- The menu object's empty-dict case counts as a missing menu, as Python's truthiness does. Other JSON shapes (an `items` that is not a list, a `day` that is not an integer) are not modelled.
- The imaging library. Resizing, mode conversion and parsing a background colour are parameters (`Imaging`). Three more things are left out:
  - the fonts, `textbbox` and `draw.text` (only the centring arithmetic is kept, with the text size as an input);
  - the conversion of pixel values a paste does between different modes;
  - the exact pixel values of mode "1".
- TileLayout.BorderInk: clipping each border component to 0..255 follows the imaging library's conversion of a fill tuple into ink. That library's source is not part of this model.
- TileLayout.ErrorFill: a tile of negative width or height gives an error rectangle with reversed corners, which paints nothing here. Pillow raises ValueError for such a rectangle, and the exception ends `generate_image` with RuntimeError.
- Loading a hosted plugin (`get_plugin_instance`) and its `generate_image` form one parameter, `Host`. It gives no plugin, an exception, or a picture.
- `generate_image`'s tile loop has a second handler that draws the error tile again. The model has no such path. It fires when `_render_tile` raises outside its own handler, which has three causes:
  - the error tile's rectangle has reversed corners (a tile of negative width or height). The redrawn tile raises again, and `generate_image` ends with RuntimeError. The model paints nothing instead, as the `TileLayout.ErrorFill` line says.
  - `plugin_id.title()` is called on an id that is not a string. The model's ids are always strings.
  - the error text itself fails to draw. The model does not draw the text.
- The outer handler of `generate_image` is modelled for two failures:
  - the imaging library refusing a negative size or an unknown background colour;
  - `_hex_to_rgb` raising.
  It is not modelled for failures on inputs of the wrong type: a tile dict that is not a dict, fields that are not integers, or colours that are not strings.
- `json.loads` of `tilesConfig` is a "parsed list or failed" input. JSON that parses to something other than a list of dicts is not modelled.
- `showBorders` is read for its truth as a boolean or text. Other JSON values are not modelled.
- The device configuration class is not part of this model. It is represented by the resolution, configuration values and environment keys it answers with.
