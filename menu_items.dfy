/** Cleaning the line items of a school lunch menu: grouping the API's items
    by day of month (schoolmenu.py, `_group_items_by_day`) and dropping the
    standard accompaniments (`_filter_standard_items`). */
module MenuItems {
  import opened Wrappers
  import opened Text

  // ---- API line items ----

  /** The `product` field of a line item: missing (read as `{}`), JSON null
      (`None`, on which `.get` raises), or an object whose `name` may be
      missing or null (`None`). */
  datatype ProductField = NoProduct | NullProduct | ProductObject(name: Option<string>)

  /** One entry of `menu.items`: its `day` (missing or null is `None`) and its
      product. */
  datatype ApiItem = ApiItem(day: Option<int>, product: ProductField)

  /** Menu items grouped by day of month. */
  type DailyItems = map<int, seq<string>>

  function ProductName(item: ApiItem): Option<string> {
    match item.product
    case ProductObject(name) => name
    case _ => None
  }

  /** Reading the item raises: `None.get("name")`. */
  predicate Raises(item: ApiItem) {
    item.product.NullProduct?
  }

  /** `day and product_name and str(product_name).strip()`: a non-zero day and
      a name that is not blank. */
  predicate Kept(item: ApiItem) {
    item.day.Some? && item.day.value != 0 &&
    ProductName(item).Some? && Strip(ProductName(item).value) != []
  }

  /** `str(product_name).strip().rstrip(":")`. */
  function CleanName(name: string): string {
    TrimRight(Strip(name), Only(':'))
  }

  /** One step of the grouping loop: a kept item makes sure its day has a
      list, and adds its cleaned name unless that is empty or already there. */
  function AddItem(m: DailyItems, item: ApiItem): DailyItems
  {
    if !Kept(item) then m
    else
      var day := item.day.value;
      var list := if day in m then m[day] else [];
      var c := CleanName(ProductName(item).value);
      m[day := if c != [] && c !in list then list + [c] else list]
  }

  /** The grouping of `items`, or `None` when reading some item raises. */
  function Grouped(items: seq<ApiItem>): Option<DailyItems>
  {
    if items == [] then Some(map[])
    else
      var init := Grouped(items[..|items| - 1]);
      var last := items[|items| - 1];
      if init.None? || Raises(last) then None else Some(AddItem(init.value, last))
  }

  /** `_group_items_by_day`: the dict of lists is built in place, one item at a
      time; an item whose product is null raises out of the loop. */
  method GroupItemsByDay(items: seq<ApiItem>) returns (r: Option<DailyItems>)
    ensures r == Grouped(items)
  {
    var daily: DailyItems := map[];
    for i := 0 to |items|
      invariant Grouped(items[..i]) == Some(daily)
    {
      GroupedStep(items, i);
      var item := items[i];
      if item.product.NullProduct? {
        NoneStaysNone(items, i + 1);
        return None;
      }
      if Kept(item) {
        var day := item.day.value;
        var cleaned := CleanName(ProductName(item).value);
        AddItemInTwoSteps(daily, item, day, cleaned);
        if day !in daily {
          daily := daily[day := []];
        }
        if cleaned != [] && cleaned !in daily[day] {
          daily := daily[day := daily[day] + [cleaned]];
        }
      }
    }
    assert items[..|items|] == items;
    r := Some(daily);
  }

  /** `AddItem` as the loop performs it: first make sure the day has a list,
      then append the cleaned name to it. */
  lemma AddItemInTwoSteps(m: DailyItems, item: ApiItem, day: int, cleaned: string)
    requires Kept(item) && day == item.day.value && cleaned == CleanName(ProductName(item).value)
    ensures var m1 := if day in m then m else m[day := []];
      AddItem(m, item) == if cleaned != [] && cleaned !in m1[day] then m1[day := m1[day] + [cleaned]] else m1
  {
    var list := if day in m then m[day] else [];
    if day in m {
      assert m == m[day := list];
    }
  }

  lemma GroupedStep(items: seq<ApiItem>, i: nat)
    requires i < |items|
    ensures Grouped(items[..i + 1]) ==
      if Grouped(items[..i]).None? || Raises(items[i]) then None
      else Some(AddItem(Grouped(items[..i]).value, items[i]))
  {
    assert items[..i + 1][..i] == items[..i];
  }

  /** Once a prefix raises, so does every longer prefix. */
  lemma {:induction false} NoneStaysNone(items: seq<ApiItem>, k: nat)
    requires k <= |items| && Grouped(items[..k]).None?
    ensures Grouped(items).None?
    decreases |items| - k
  {
    if k < |items| {
      assert items[..k + 1][..k] == items[..k];
      NoneStaysNone(items, k + 1);
    } else {
      assert items[..k] == items;
    }
  }

  // ---- a reference description of the grouping ----

  /** The days of the kept items. */
  function KeptDays(items: seq<ApiItem>): set<int> {
    if items == [] then {}
    else
      var last := items[|items| - 1];
      KeptDays(items[..|items| - 1]) + (if Kept(last) then {last.day.value} else {})
  }

  /** The non-empty cleaned names of the kept items for `day`, in item order,
      repeats included. */
  function NamesFor(items: seq<ApiItem>, day: int): seq<string> {
    if items == [] then []
    else
      var last := items[|items| - 1];
      var c := if Kept(last) then CleanName(ProductName(last).value) else [];
      NamesFor(items[..|items| - 1], day)
        + (if Kept(last) && last.day.value == day && c != [] then [c] else [])
  }

  /** `s` with every repeat after the first occurrence removed. */
  function Dedup(s: seq<string>): seq<string> {
    if s == [] then []
    else
      var r := Dedup(s[..|s| - 1]);
      if s[|s| - 1] in r then r else r + [s[|s| - 1]]
  }

  predicate NoDuplicates(s: seq<string>) {
    forall i, j :: 0 <= i < j < |s| ==> s[i] != s[j]
  }

  /** `Dedup` keeps every element once and nothing else. */
  lemma {:induction false} DedupProperties(s: seq<string>)
    ensures NoDuplicates(Dedup(s))
    ensures forall x :: x in Dedup(s) <==> x in s
  {
    if s != [] {
      var init := s[..|s| - 1];
      DedupProperties(init);
      assert s == init + [s[|s| - 1]];
    }
  }

  /** A day with no kept item has no names. */
  lemma {:induction false} NamesForAbsentDay(items: seq<ApiItem>, day: int)
    requires day !in KeptDays(items)
    ensures NamesFor(items, day) == []
  {
    if items != [] {
      NamesForAbsentDay(items[..|items| - 1], day);
    }
  }

  /** The grouping fails exactly when some item's product is null. */
  lemma {:induction false} GroupedFailsIffNullProduct(items: seq<ApiItem>)
    ensures Grouped(items).None? <==> exists i :: 0 <= i < |items| && Raises(items[i])
  {
    if items != [] {
      var init := items[..|items| - 1];
      GroupedFailsIffNullProduct(init);
      assert forall i :: 0 <= i < |init| ==> init[i] == items[i];
    }
  }

  /** When the grouping succeeds, its days are the days of the kept items and
      each day's list is the cleaned names for that day with repeats removed. */
  lemma {:induction false} GroupedMeaning(items: seq<ApiItem>)
    requires Grouped(items).Some?
    ensures Grouped(items).value.Keys == KeptDays(items)
    ensures forall day :: day in Grouped(items).value ==>
      Grouped(items).value[day] == Dedup(NamesFor(items, day))
  {
    if items != [] {
      var init := items[..|items| - 1];
      var last := items[|items| - 1];
      GroupedMeaning(init);
      var m := Grouped(init).value;
      var g := Grouped(items).value;
      assert g == AddItem(m, last);
      if !Kept(last) {
        forall d ensures NamesFor(items, d) == NamesFor(init, d) {
        }
      } else {
        var day := last.day.value;
        var c := CleanName(ProductName(last).value);
        if day !in m {
          NamesForAbsentDay(init, day);
        }
        forall d | d in g ensures g[d] == Dedup(NamesFor(items, d)) {
          var names := NamesFor(init, d);
          if d != day {
            assert NamesFor(items, d) == names;
          } else if c == [] {
            assert NamesFor(items, d) == names;
          } else {
            assert NamesFor(items, d) == names + [c];
            assert (names + [c])[..|names + [c]| - 1] == names;
          }
        }
      }
    }
  }

  /** What every grouped list promises: no repeats, and every name is a
      cleaned product name that is neither empty nor ends in `:`. */
  lemma GroupedListsAreClean(items: seq<ApiItem>, day: int)
    requires Grouped(items).Some? && day in Grouped(items).value
    ensures NoDuplicates(Grouped(items).value[day])
    ensures forall x :: x in Grouped(items).value[day] ==> x != [] && x[|x| - 1] != ':'
  {
    GroupedMeaning(items);
    DedupProperties(NamesFor(items, day));
    NamesAreClean(items, day);
  }

  lemma {:induction false} NamesAreClean(items: seq<ApiItem>, day: int)
    ensures forall x :: x in NamesFor(items, day) ==> x != [] && x[|x| - 1] != ':'
  {
    if items != [] {
      var init := items[..|items| - 1];
      var last := items[|items| - 1];
      NamesAreClean(init, day);
      if Kept(last) {
        var c := CleanName(ProductName(last).value);
        assert c == [] || !InClass(c[|c| - 1], Only(':'));
      }
    }
  }

  // ---- standard accompaniments ----

  /** `STANDARD_ITEMS`. */
  const StandardItems: seq<string> := [
    "Garden Bar:",
    "Organic Fresh Fruits and Veggies",
    "Straus Organic 1% Milk",
    "Non-fat milk",
    "Low-fat Milk",
    "Milk",
    "Garden Bar: Fresh Fruits and Veggies"
  ]

  /** `standard_item.lower() in item.lower()` for some standard item. */
  predicate IsStandard(item: string) {
    exists k :: 0 <= k < |StandardItems| && Contains(Lower(item), Lower(StandardItems[k]))
  }

  /** The items that are not standard accompaniments, in their order. */
  function Filtered(items: seq<string>): seq<string> {
    if items == [] then []
    else
      var last := items[|items| - 1];
      Filtered(items[..|items| - 1]) + (if IsStandard(last) then [] else [last])
  }

  /** `_filter_standard_items`: for each item, scan the standard items until
      one matches, and append the item when none does. */
  method FilterStandardItems(items: seq<string>) returns (filtered: seq<string>)
    ensures filtered == Filtered(items)
  {
    filtered := [];
    for i := 0 to |items|
      invariant filtered == Filtered(items[..i])
    {
      var item := items[i];
      var shouldFilter := false;
      var j := 0;
      while j < |StandardItems|
        invariant 0 <= j <= |StandardItems|
        invariant !shouldFilter
        invariant forall k :: 0 <= k < j ==> !Contains(Lower(item), Lower(StandardItems[k]))
      {
        if Contains(Lower(item), Lower(StandardItems[j])) {
          shouldFilter := true;
          break;
        }
        j := j + 1;
      }
      assert shouldFilter <==> IsStandard(item);
      if !shouldFilter {
        filtered := filtered + [item];
      }
      assert items[..i + 1][..i] == items[..i];
    }
    assert items[..|items|] == items;
  }

  /** Filtering works item by item: filtering a concatenation concatenates the
      filtered parts, so the kept items keep their order. */
  lemma {:induction false} FilteredAppend(a: seq<string>, b: seq<string>)
    ensures Filtered(a + b) == Filtered(a) + Filtered(b)
    decreases |b|
  {
    if b != [] {
      var b0 := b[..|b| - 1];
      FilteredAppend(a, b0);
      assert (a + b)[..|a + b| - 1] == a + b0;
    } else {
      assert a + b == a;
    }
  }

  /** A single item is kept exactly when no standard item occurs in it,
      ignoring case. */
  lemma FilteredSingle(x: string)
    ensures Filtered([x]) == if IsStandard(x) then [] else [x]
  {
    assert [x][..0] == [];
  }

  /** An item is in the result exactly when it is in the input and is not a
      standard accompaniment. */
  lemma {:induction false} FilteredMembers(items: seq<string>)
    ensures forall x :: x in Filtered(items) <==> x in items && !IsStandard(x)
  {
    if items != [] {
      var init := items[..|items| - 1];
      FilteredMembers(init);
      assert items == init + [items[|items| - 1]];
    }
  }
}
