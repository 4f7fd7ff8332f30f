/** The representative-slot choice of `get_weather_forecast`: the forecast
    service returns 3-hourly entries, and one entry is picked to stand for
    the target day (noon, else mid-afternoon, else the day's first slot, and
    the last entry of the whole list when the day has no slot at all). */
module Forecast {
  import opened Text

  /** One entry of the forecast's `list`; `dtTxt` is its `"YYYY-MM-DD hh:mm:ss"`
      stamp. The temperature is kept as an opaque value (no rounding). */
  datatype ForecastItem = ForecastItem(dtTxt: string, temp: real, description: string, icon: string)

  const Noon: string := "12:00:00"
  const Afternoon: string := "15:00:00"

  /** The entry belongs to the target day: the date occurs in its stamp. */
  predicate SameDay(item: ForecastItem, targetDate: string) {
    Contains(item.dtTxt, targetDate)
  }

  /** The entry's stamp mentions the given clock time. */
  predicate AtSlot(item: ForecastItem, slot: string) {
    Contains(item.dtTxt, slot)
  }

  /** `a` is `b` with some elements dropped, the rest kept in order. */
  ghost predicate IsSubsequence<T>(a: seq<T>, b: seq<T>)
    decreases |b|
  {
    if a == [] then true
    else if b == [] then false
    else if a[0] == b[0] then IsSubsequence(a[1..], b[1..])
    else IsSubsequence(a, b[1..])
  }

  /** `[item for item in data['list'] if target_date in item['dt_txt']]` */
  function DailyItems(items: seq<ForecastItem>, targetDate: string): (r: seq<ForecastItem>)
    ensures forall x :: x in r <==> x in items && SameDay(x, targetDate)
    ensures IsSubsequence(r, items)
    ensures |r| <= |items|
  {
    if items == [] then []
    else
      var rest := DailyItems(items[1..], targetDate);
      if SameDay(items[0], targetDate) then
        assert items == [items[0]] + items[1..];
        [items[0]] + rest
      else
        assert items == [items[0]] + items[1..];
        SubsequenceCons(rest, items);
        rest
  }

  /** The day's entries keep every same-day entry as many times as it occurs
      in the list, and no other entry. */
  lemma {:induction false} DailyItemsCount(items: seq<ForecastItem>, targetDate: string, x: ForecastItem)
    ensures multiset(DailyItems(items, targetDate))[x] == if SameDay(x, targetDate) then multiset(items)[x] else 0
  {
    if items != [] {
      DailyItemsCount(items[1..], targetDate, x);
      assert items == [items[0]] + items[1..];
    }
  }

  /** Dropping the head of `b` keeps every subsequence of its tail a
      subsequence of `b`. */
  lemma {:induction false} SubsequenceCons<T>(a: seq<T>, b: seq<T>)
    requires b != [] && IsSubsequence(a, b[1..])
    ensures IsSubsequence(a, b)
    decreases |b|, 0
  {
    if a != [] && a[0] == b[0] {
      SubsequenceDropHead(a, b[1..]);
    }
  }

  /** A subsequence without its first element is still a subsequence. */
  lemma {:induction false} SubsequenceDropHead<T>(a: seq<T>, b: seq<T>)
    requires a != [] && IsSubsequence(a, b)
    ensures IsSubsequence(a[1..], b)
    decreases |b|, 1
  {
    assert b != [];
    if a[0] == b[0] {
      SubsequenceCons(a[1..], b);
    } else {
      SubsequenceDropHead(a, b[1..]);
      SubsequenceCons(a[1..], b);
    }
  }

  /** `i` is the first index of `items` whose stamp mentions `slot`. */
  ghost predicate IsFirstAt(items: seq<ForecastItem>, slot: string, i: int) {
    0 <= i < |items| && AtSlot(items[i], slot) &&
    forall j :: 0 <= j < i ==> !AtSlot(items[j], slot)
  }

  /** The index `next((item for item in items if slot in item['dt_txt']), None)`
      would stop at, or None when no entry mentions `slot`. */
  function FindSlot(items: seq<ForecastItem>, slot: string): (r: Option<nat>)
    ensures r.Some? ==> IsFirstAt(items, slot, r.value)
    ensures r.None? <==> forall j :: 0 <= j < |items| ==> !AtSlot(items[j], slot)
  {
    if items == [] then None
    else if AtSlot(items[0], slot) then Some(0)
    else match FindSlot(items[1..], slot)
      case None =>
        assert forall j :: 1 <= j < |items| ==> items[j] == items[1..][j - 1];
        None
      case Some(k) =>
        assert forall j :: 1 <= j <= k + 1 ==> items[j] == items[1..][j - 1];
        Some(k + 1)
  }

  /** `selected_weather`: None exactly when the list is empty, where
      `data['list'][-1]` raises and `get_weather_forecast` answers with its
      own error dict instead of a forecast. */
  function SelectForecast(items: seq<ForecastItem>, targetDate: string): (r: Option<ForecastItem>)
    ensures r.None? <==> items == []
    ensures r.Some? ==> r.value in items
  {
    var daily := DailyItems(items, targetDate);
    if daily == [] then
      if items == [] then None else Some(items[|items| - 1])
    else
      match FindSlot(daily, Noon)
      case Some(k) => Some(daily[k])
      case None =>
        match FindSlot(daily, Afternoon)
        case Some(k) => Some(daily[k])
        case None => Some(daily[0])
  }

  /** `i` is the first index of the whole list that is a same-day entry
      mentioning `slot`. */
  ghost predicate IsFirstSameDayAt(items: seq<ForecastItem>, targetDate: string, slot: string, i: int) {
    0 <= i < |items| && SameDay(items[i], targetDate) && AtSlot(items[i], slot) &&
    forall j :: 0 <= j < i ==> !(SameDay(items[j], targetDate) && AtSlot(items[j], slot))
  }

  /** The first same-day entry of the list that mentions `slot` is what the
      search over the day's entries finds. */
  lemma {:induction false} FindSlotInDaily(items: seq<ForecastItem>, targetDate: string, slot: string, i: int)
    requires IsFirstSameDayAt(items, targetDate, slot, i)
    ensures FindSlot(DailyItems(items, targetDate), slot).Some?
    ensures DailyItems(items, targetDate)[FindSlot(DailyItems(items, targetDate), slot).value] == items[i]
  {
    var daily := DailyItems(items, targetDate);
    var rest := DailyItems(items[1..], targetDate);
    if i == 0 {
      assert daily == [items[0]] + rest;
    } else {
      assert IsFirstSameDayAt(items[1..], targetDate, slot, i - 1) by {
        forall j | 0 <= j < i - 1
          ensures !(SameDay(items[1..][j], targetDate) && AtSlot(items[1..][j], slot))
        {
          assert items[1..][j] == items[j + 1];
        }
      }
      FindSlotInDaily(items[1..], targetDate, slot, i - 1);
      if SameDay(items[0], targetDate) {
        assert !AtSlot(items[0], slot);
        assert daily == [items[0]] + rest;
        assert daily[1..] == rest;
      } else {
        assert daily == rest;
      }
    }
  }

  /** When no same-day entry mentions `slot`, the day's entries have none. */
  lemma NoSlotInDaily(items: seq<ForecastItem>, targetDate: string, slot: string)
    requires forall j :: 0 <= j < |items| ==> !(SameDay(items[j], targetDate) && AtSlot(items[j], slot))
    ensures FindSlot(DailyItems(items, targetDate), slot).None?
  {
  }

  /** With no entry of the day, the last entry of the whole list is used. */
  lemma FallbackToLast(items: seq<ForecastItem>, targetDate: string)
    requires items != []
    requires forall j :: 0 <= j < |items| ==> !SameDay(items[j], targetDate)
    ensures SelectForecast(items, targetDate) == Some(items[|items| - 1])
  {
  }

  /** A noon entry of the day wins, and it is the first such entry in list
      order, whatever afternoon entries come before it. */
  lemma NoonFirst(items: seq<ForecastItem>, targetDate: string, i: int)
    requires IsFirstSameDayAt(items, targetDate, Noon, i)
    ensures SelectForecast(items, targetDate) == Some(items[i])
  {
    FindSlotInDaily(items, targetDate, Noon, i);
  }

  /** Without a noon entry of the day, the first afternoon entry wins. */
  lemma AfternoonSecond(items: seq<ForecastItem>, targetDate: string, i: int)
    requires forall j :: 0 <= j < |items| ==> !(SameDay(items[j], targetDate) && AtSlot(items[j], Noon))
    requires IsFirstSameDayAt(items, targetDate, Afternoon, i)
    ensures SelectForecast(items, targetDate) == Some(items[i])
  {
    NoSlotInDaily(items, targetDate, Noon);
    FindSlotInDaily(items, targetDate, Afternoon, i);
  }

  /** Without a noon or afternoon entry of the day, the day's first entry
      (in list order) is used. */
  lemma FirstOfDayLast(items: seq<ForecastItem>, targetDate: string, i: int)
    requires forall j :: 0 <= j < |items| ==> !(SameDay(items[j], targetDate) && AtSlot(items[j], Noon))
    requires forall j :: 0 <= j < |items| ==> !(SameDay(items[j], targetDate) && AtSlot(items[j], Afternoon))
    requires 0 <= i < |items| && SameDay(items[i], targetDate)
    requires forall j :: 0 <= j < i ==> !SameDay(items[j], targetDate)
    ensures SelectForecast(items, targetDate) == Some(items[i])
  {
    NoSlotInDaily(items, targetDate, Noon);
    NoSlotInDaily(items, targetDate, Afternoon);
    FirstOfDaily(items, targetDate, i);
  }

  /** The first same-day entry of the list heads the day's entries. */
  lemma {:induction false} FirstOfDaily(items: seq<ForecastItem>, targetDate: string, i: int)
    requires 0 <= i < |items| && SameDay(items[i], targetDate)
    requires forall j :: 0 <= j < i ==> !SameDay(items[j], targetDate)
    ensures DailyItems(items, targetDate) != [] && DailyItems(items, targetDate)[0] == items[i]
  {
    if i > 0 {
      assert forall j :: 0 <= j < i - 1 ==> items[1..][j] == items[j + 1];
      FirstOfDaily(items[1..], targetDate, i - 1);
    }
  }
}
