/** The entry points of the school menu plugin (schoolmenu.py): validating the
    day count, fetching the menu from the GraphQL API and falling back to the
    placeholder menu on every failure, parsing the API's menu object, and
    reading the plugin settings. The HTTP exchange itself is a parameter: the
    `Response` that `requests.post` would have produced. */
module SchoolMenu {
  import opened Wrappers
  import opened Text
  import opened Calendar
  import opened MenuItems
  import opened MenuWindow

  const MinDays := 1
  const MaxDays := 5

  const DayCountError := "Number of days must be between 1 and 5"

  /** `_is_valid_day_count`. */
  predicate IsValidDayCount(n: int) {
    MinDays <= n <= MaxDays
  }

  // ---- the API's answer ----

  /** The `items` field of the menu object: missing (read as `[]`), JSON null
      (iterating over it raises), or a list. */
  datatype ItemsField = MissingItems | NullItems | ItemList(list: seq<ApiItem>)

  /** A non-empty menu object: `month` and `year` (missing or null is `None`)
      and `items`. */
  datatype ApiMenu = ApiMenu(month: Option<int>, year: Option<int>, items: ItemsField)

  /** The document's `data` field: missing (read as `{}`), JSON null (on which
      `.get` raises), or an object whose `menu` is `None` when it is missing,
      null or an empty object (all of which Python treats as falsy). */
  datatype DataField = MissingData | NullData | DataObject(menu: Option<ApiMenu>)

  /** The response body: not JSON (`response.json()` raises), or a JSON object
      that may carry an `errors` key and a `data` field. */
  datatype Body = Malformed | Document(hasErrors: bool, data: DataField)

  /** What the POST produced: a transport failure (`requests` raises), or an
      HTTP response. */
  datatype Response = TransportFailure | HttpResponse(status: int, body: Body)

  /** The menu object a response delivers when every check of
      `_fetch_menu_from_api` passes: status 200, a JSON body without `errors`,
      and a truthy `data.menu`. */
  function DeliveredMenu(response: Response): Option<ApiMenu> {
    match response
    case HttpResponse(200, Document(false, DataObject(Some(menu)))) => Some(menu)
    case _ => None
  }

  // ---- parsing the menu object ----

  /** `_extract_menu_dates`: the menu's month and year, or nothing when either
      is missing, null or zero. */
  function ExtractMenuDates(menu: ApiMenu): (r: Option<(int, int)>)
    ensures r.Some? ==> r.value.0 != 0 && r.value.1 != 0
    ensures r.None? <==> menu.month.GetOr(0) == 0 || menu.year.GetOr(0) == 0
    ensures r.Some? ==> Some(r.value.0) == menu.month && Some(r.value.1) == menu.year
  {
    match (menu.month, menu.year)
    case (Some(m), Some(y)) => if m == 0 || y == 0 then None else Some((m, y))
    case _ => None
  }

  /** `_group_items_by_day(menu.get("items", []))`: `None` when it raises. */
  function GroupedField(items: ItemsField): Option<DailyItems> {
    match items
    case MissingItems => Grouped([])
    case NullItems => None
    case ItemList(list) => Grouped(list)
  }

  /** What `_parse_graphql_menu_data` returns on `today` for `n` days: the
      placeholder menu when the dates are missing or the grouping raises,
      the filled menu otherwise. */
  function ParsedMenu(menu: ApiMenu, today: Date, n: nat): seq<MenuDay>
    requires ValidDate(today) && WindowFits(Ordinal(today), n)
  {
    var k := Ordinal(today);
    match ExtractMenuDates(menu)
    case None => EmptyMenu(k, n)
    case Some((month, year)) =>
      match GroupedField(menu.items)
      case None => EmptyMenu(k, n)
      case Some(daily) => FilledMenu(daily, month, year, k, n)
  }

  /** `_parse_graphql_menu_data`, with `date.today()` passed in as `today`. */
  method ParseGraphqlMenuData(menu: ApiMenu, today: Date, n: nat) returns (result: seq<MenuDay>)
    requires ValidDate(today) && WindowFits(Ordinal(today), n)
    ensures result == ParsedMenu(menu, today, n)
  {
    var dates := ExtractMenuDates(menu);
    if dates.None? {
      result := EmptyMenuForDays(today, n);
      return;
    }
    var (month, year) := dates.value;
    var daily: Option<DailyItems>;
    match menu.items {
      case MissingItems =>
        daily := GroupItemsByDay([]);
      case NullItems =>
        daily := None;
      case ItemList(list) =>
        daily := GroupItemsByDay(list);
    }
    if daily.None? {
      result := EmptyMenuForDays(today, n);
      return;
    }
    result := ConvertToDateFormat(daily.value, month, year, today, n);
  }

  // ---- fetching ----

  /** What `_fetch_menu_from_api` returns: the parsed menu when `menuId` is
      non-empty and the response delivers a menu, the placeholder menu in
      every other case. */
  function FetchedMenu(menuId: string, response: Response, today: Date, n: nat): seq<MenuDay>
    requires ValidDate(today) && WindowFits(Ordinal(today), n)
  {
    if menuId != [] && DeliveredMenu(response).Some?
    then ParsedMenu(DeliveredMenu(response).value, today, n)
    else EmptyMenu(Ordinal(today), n)
  }

  /** `_fetch_menu_from_api`: an empty id raises ValueError, which the handler
      turns into the placeholder menu before any request; then each check on
      the response either passes or falls back to the placeholder menu. */
  method FetchMenuFromApi(n: nat, menuId: string, response: Response, today: Date)
    returns (menu: seq<MenuDay>)
    requires ValidDate(today) && WindowFits(Ordinal(today), n)
    ensures menu == FetchedMenu(menuId, response, today, n)
  {
    if menuId == [] {
      menu := EmptyMenuForDays(today, n);
      return;
    }
    if response.TransportFailure? {
      menu := EmptyMenuForDays(today, n);
      return;
    }
    if response.status != 200 {
      menu := EmptyMenuForDays(today, n);
      return;
    }
    if response.body.Malformed? {
      menu := EmptyMenuForDays(today, n);
      return;
    }
    if response.body.hasErrors {
      menu := EmptyMenuForDays(today, n);
      return;
    }
    var data := response.body.data;
    if !data.DataObject? || data.menu.None? {
      menu := EmptyMenuForDays(today, n);
      return;
    }
    menu := ParseGraphqlMenuData(data.menu.value, today, n);
  }

  /** `if menu_id:` */
  predicate HasMenuId(menuId: Option<string>) {
    menuId.Some? && menuId.value != []
  }

  /** What `get_menu_for_days` returns: an error for a day count outside 1..5,
      the fetched menu when a menu id is given, the placeholder menu when
      none is. */
  function MenuForDays(n: int, menuId: Option<string>, response: Response, today: Date)
    : Result<seq<MenuDay>, string>
    requires ValidDate(today) && today.year < MaxYear
  {
    if !IsValidDayCount(n) then Err(DayCountError)
    else
      WindowFitsForValidCounts(today, n);
      if HasMenuId(menuId) then Ok(FetchedMenu(menuId.value, response, today, n))
      else Ok(EmptyMenu(Ordinal(today), n))
  }

  /** `get_menu_for_days`, with `date.today()` passed in as `today` and the
      response the request would produce passed in as `response`; the site
      code is only logged and is left out. */
  method GetMenuForDays(n: int, menuId: Option<string>, response: Response, today: Date)
    returns (r: Result<seq<MenuDay>, string>)
    requires ValidDate(today) && today.year < MaxYear
    ensures r == MenuForDays(n, menuId, response, today)
  {
    if !(MinDays <= n <= MaxDays) {
      return Err(DayCountError);
    }
    WindowFitsForValidCounts(today, n);
    var menu;
    if menuId.Some? && menuId.value != [] {
      menu := FetchMenuFromApi(n, menuId.value, response, today);
    } else {
      menu := EmptyMenuForDays(today, n);
    }
    r := Ok(menu);
  }

  // ---- what the menu promises ----

  /** A parsed menu is never a mixture: it is either the placeholder menu or
      the filled menu of one grouping of the items, and the filled one is
      chosen exactly when the month and year are present and the grouping
      succeeds. */
  lemma ParsedMenuIsWhole(menu: ApiMenu, today: Date, n: nat)
    requires ValidDate(today) && WindowFits(Ordinal(today), n)
    ensures var k := Ordinal(today); var dates := ExtractMenuDates(menu);
      var daily := GroupedField(menu.items);
      if dates.Some? && daily.Some?
      then ParsedMenu(menu, today, n) == FilledMenu(daily.value, dates.value.0, dates.value.1, k, n)
      else ParsedMenu(menu, today, n) == EmptyMenu(k, n)
  {
  }

  /** Whatever the response, the fetched menu has exactly one entry for each
      school day of the window, in order, so it has the dates, and hence the
      keys, of the placeholder menu. */
  lemma FetchedMenuOnWindow(menuId: string, response: Response, today: Date, n: nat)
    requires ValidDate(today) && WindowFits(Ordinal(today), n)
    ensures OnWindow(FetchedMenu(menuId, response, today, n), Ordinal(today), n)
    ensures |FetchedMenu(menuId, response, today, n)| == |EmptyMenu(Ordinal(today), n)|
    ensures forall i :: 0 <= i < n ==>
      FetchedMenu(menuId, response, today, n)[i].date == EmptyMenu(Ordinal(today), n)[i].date
  {
    var k := Ordinal(today);
    MenusFollowWindow(map[], 0, 0, k, n);
    if menuId != [] && DeliveredMenu(response).Some? {
      var menu := DeliveredMenu(response).value;
      var dates := ExtractMenuDates(menu);
      var daily := GroupedField(menu.items);
      if dates.Some? && daily.Some? {
        MenusFollowWindow(daily.value, dates.value.0, dates.value.1, k, n);
      }
    }
  }

  /** Without a usable response every entry says "Menu not available": the
      request failed, the status was not 200, the body was not JSON, carried
      errors or held no menu, or the menu id was empty. */
  lemma FailedFetchIsPlaceholder(menuId: string, response: Response, today: Date, n: nat)
    requires ValidDate(today) && WindowFits(Ordinal(today), n)
    requires menuId == [] || DeliveredMenu(response).None?
    ensures var menu := FetchedMenu(menuId, response, today, n);
      |menu| == n && forall i :: 0 <= i < n ==> menu[i].items == [MenuNotAvailable]
  {
    MenusFollowWindow(map[], 0, 0, Ordinal(today), n);
  }

  /** The result of `get_menu_for_days`: an error exactly for an invalid day
      count, and otherwise a menu with exactly one entry for each of the next
      `n` school days from today, in date order (`OnWindowDates` then gives
      distinct keys, so the dict holds all `n` of them). */
  lemma MenuForDaysShape(n: int, menuId: Option<string>, response: Response, today: Date)
    requires ValidDate(today) && today.year < MaxYear
    ensures MenuForDays(n, menuId, response, today).Err? <==> !IsValidDayCount(n)
    ensures MenuForDays(n, menuId, response, today).Ok? ==>
      OnWindow(MenuForDays(n, menuId, response, today).value, Ordinal(today), n)
  {
    if IsValidDayCount(n) {
      WindowFitsForValidCounts(today, n);
      FetchedMenuOnWindow(if HasMenuId(menuId) then menuId.value else [], response, today, n);
    }
  }

  /** Without a menu id no request is made: the response cannot change the
      result, which is the placeholder menu for a valid day count. */
  lemma NoMenuIdNoRequest(n: int, menuId: Option<string>, r1: Response, r2: Response, today: Date)
    requires ValidDate(today) && today.year < MaxYear
    requires !HasMenuId(menuId)
    ensures MenuForDays(n, menuId, r1, today) == MenuForDays(n, menuId, r2, today)
    ensures IsValidDayCount(n) ==>
      WindowFits(Ordinal(today), n) &&
      MenuForDays(n, menuId, r1, today) == Ok(EmptyMenu(Ordinal(today), n))
  {
    if IsValidDayCount(n) {
      WindowFitsForValidCounts(today, n);
    }
  }

  // ---- settings ----

  /** The `numDays` setting: missing (the default `1`), a form string, or a
      number. */
  datatype NumDaysSetting = NumDaysMissing | NumDaysText(text: string) | NumDaysNumber(value: int)

  /** The settings `_parse_settings` reads; a missing string setting is
      `None`. */
  datatype Settings = Settings(
    menuId: Option<string>,
    siteCode: Option<string>,
    numDays: NumDaysSetting,
    showDate: Option<bool>,
    customTitle: Option<string>,
    fontSize: Option<string>)

  /** The parsed settings. */
  datatype Config = Config(
    menuId: string,
    siteCode: Option<string>,
    numDays: int,
    showDate: bool,
    customTitle: string,
    fontSize: string)

  const DefaultTitle := "School Lunch Menu"
  const DefaultFontSize := "normal"

  /** `int(settings.get("numDays", 1))`: `None` when `int` raises. */
  function NumDaysValue(setting: NumDaysSetting): Option<int> {
    match setting
    case NumDaysMissing => Some(1)
    case NumDaysText(text) => ParseInt(text)
    case NumDaysNumber(value) => Some(value)
  }

  /** `_parse_settings`: the stripped menu id, the stripped site code or
      `None` when it is blank, the day count with anything outside 1..5
      replaced by 1, and the display settings with their defaults; a day
      count that `int` cannot read raises ValueError, an `Err` here. */
  function ParseSettings(s: Settings): (r: Result<Config, string>)
    ensures r.Err? <==> NumDaysValue(s.numDays).None?
    ensures r.Ok? ==> IsValidDayCount(r.value.numDays)
    ensures r.Ok? ==> r.value.numDays == 1 || r.value.numDays == NumDaysValue(s.numDays).value
    ensures r.Ok? ==> r.value.menuId == Strip(s.menuId.GetOr(""))
    ensures r.Ok? ==> (r.value.siteCode.None? <==> Strip(s.siteCode.GetOr("")) == [])
    ensures r.Ok? && r.value.siteCode.Some? ==> r.value.siteCode.value == Strip(s.siteCode.GetOr(""))
  {
    var siteCode := Strip(s.siteCode.GetOr(""));
    match NumDaysValue(s.numDays)
    case None => Err("invalid literal for int()")
    case Some(parsed) =>
      var numDays := if IsValidDayCount(parsed) then parsed else 1;
      Ok(Config(
        Strip(s.menuId.GetOr("")),
        if siteCode == [] then None else Some(siteCode),
        numDays,
        s.showDate.GetOr(true),
        s.customTitle.GetOr(DefaultTitle),
        s.fontSize.GetOr(DefaultFontSize)))
  }

  /** A day count that parses and is valid is kept as it is; one that parses
      but is outside 1..5 becomes 1. */
  lemma ParseSettingsDayCount(s: Settings)
    requires NumDaysValue(s.numDays).Some?
    ensures var v := NumDaysValue(s.numDays).value;
      ParseSettings(s).Ok? &&
      ParseSettings(s).value.numDays == (if IsValidDayCount(v) then v else 1)
  {
  }

  /** Typing a day count as the text of a number gives that number, clamped
      to 1 when it is outside 1..5. */
  lemma ParseSettingsOfDigits(s: Settings, v: nat)
    requires s.numDays == NumDaysText(NatToDigits(v))
    ensures ParseSettings(s).Ok?
    ensures ParseSettings(s).value.numDays == if IsValidDayCount(v) then v else 1
  {
    ParseIntOfDigits(v);
  }

  /** Parsing the settings and asking for the menu never fails on the day
      count: the parsed count is always accepted by `get_menu_for_days`. */
  lemma ParsedSettingsAreAccepted(s: Settings, response: Response, today: Date)
    requires ValidDate(today) && today.year < MaxYear
    requires ParseSettings(s).Ok?
    ensures var c := ParseSettings(s).value;
      MenuForDays(c.numDays, Some(c.menuId), response, today).Ok?
  {
  }

  /** Parsing the settings twice changes nothing more: the parsed menu id and
      site code are already stripped. */
  lemma ParseSettingsIdempotent(s: Settings)
    requires ParseSettings(s).Ok?
    ensures var c := ParseSettings(s).value;
      var again := ParseSettings(Settings(Some(c.menuId), c.siteCode, NumDaysNumber(c.numDays),
                                          Some(c.showDate), Some(c.customTitle), Some(c.fontSize)));
      again == Ok(c)
  {
    var c := ParseSettings(s).value;
    StripEnds(s.menuId.GetOr(""));
    StripUnchanged(c.menuId);
    StripEnds(s.siteCode.GetOr(""));
    if c.siteCode.Some? {
      StripUnchanged(c.siteCode.value);
    }
  }
}
