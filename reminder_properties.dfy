/**
 * What the reminder check posts, stated in calendar terms, and how the items
 * of one run are independent of each other.
 */
module ReminderProperties {
  import opened Wrappers
  import opened CivilTime
  import opened DateText
  import opened GroceryModel
  import opened ReminderWorker
  import opened Sequences

  /**
   * A clock reading within about 2.9 million years of 1970, so that every
   * day count against a `dd/MM/yyyy` date fits an `Int`.
   */
  predicate PlausibleClock(now: int) {
    -0x4000_0000 <= DayOf(now) <= 0x4000_0000
  }

  /** The day offset after `now`'s calendar day as the worker rounds it: a whole day is lost once `now` is past midnight. */
  function WorkerRounding(k: int, timeOfDay: int): int {
    if k >= 1 && timeOfDay > 0 then k - 1 else k
  }

  lemma DayNumberRange(d: CivilDate)
    requires ValidDate(d)
    ensures -719_162 <= DayNumber(d) <= 2_932_896
  {
  }

  /** The expiry check's day count is the calendar distance, rounded as the worker rounds it. */
  lemma ExpiryDaysLeftByCalendar(expiry: CivilDate, now: int)
    requires ValidDate(expiry) && PlausibleClock(now)
    ensures ExpiryDaysLeft(expiry, now)
      == WorkerRounding(DayNumber(expiry) - DayOf(now), TimeOfDay(now))
  {
    var k, r := DayNumber(expiry) - DayOf(now), TimeOfDay(now);
    DayNumberRange(expiry);
    MidnightUnique(DayNumber(expiry) * DAY, DayNumber(expiry));
    assert Midnight(DayNumber(expiry) * DAY) - now == k * DAY - r;
    TruncDivDayOffset(k, r);
  }

  /**
   * When an item expiring `k` days after today's date is announced. Past
   * midnight, an expiry today or tomorrow both read "expiring today" and one
   * the day after tomorrow reads "expiring tomorrow"; exactly at midnight
   * the texts follow the calendar. Every other date posts nothing.
   */
  lemma ExpiryCheckByCalendar(item: GroceryItem, expiry: CivilDate, now: int)
    requires item.expiryDate.Some? && ParseDate(item.expiryDate.value) == Some(expiry)
    requires PlausibleClock(now)
    ensures var k := DayNumber(expiry) - DayOf(now);
      if TimeOfDay(now) > 0 then
        && (k == 0 || k == 1 ==> ExpiryCheck(item, now) == [ExpiryNotice(item.name, Today)])
        && (k == 2 ==> ExpiryCheck(item, now) == [ExpiryNotice(item.name, Tomorrow)])
        && (k < 0 || k > 2 ==> ExpiryCheck(item, now) == [])
      else
        && (k == 0 ==> ExpiryCheck(item, now) == [ExpiryNotice(item.name, Today)])
        && (k == 1 ==> ExpiryCheck(item, now) == [ExpiryNotice(item.name, Tomorrow)])
        && (k < 0 || k > 1 ==> ExpiryCheck(item, now) == [])
  {
    ExpiryDaysLeftByCalendar(expiry, now);
  }

  /** The consumption check's day count is the calendar distance to the usage end, rounded as the worker rounds it. */
  lemma UsageDaysLeftByCalendar(addedDate: int, expectedDays: int, now: int)
    requires IsInt32(DayOf(addedDate) + expectedDays - DayOf(now))
    ensures UsageDaysLeft(addedDate, expectedDays, now)
      == WorkerRounding(DayOf(addedDate) + expectedDays - DayOf(now), TimeOfDay(now))
  {
    var k, r := DayOf(addedDate) + expectedDays - DayOf(now), TimeOfDay(now);
    MidnightPlusDays(addedDate, expectedDays);
    assert UsageEnd(addedDate, expectedDays) - now == k * DAY - r;
    TruncDivDayOffset(k, r);
  }

  /** When the consumption reminder fires, with `k` the days from today's date to the usage end. */
  lemma UsageCheckByCalendar(item: GroceryItem, now: int)
    requires item.expectedDays.Some?
    requires IsInt32(DayOf(item.addedDate) + item.expectedDays.value - DayOf(now))
    ensures var k := DayOf(item.addedDate) + item.expectedDays.value - DayOf(now);
      if TimeOfDay(now) > 0 then
        && (k == 0 || k == 1 ==> UsageCheck(item, now) == [UsageNotice(item.name, Today)])
        && (k == 2 ==> UsageCheck(item, now) == [UsageNotice(item.name, Tomorrow)])
        && (k < 0 || k > 2 ==> UsageCheck(item, now) == [])
      else
        && (k == 0 ==> UsageCheck(item, now) == [UsageNotice(item.name, Today)])
        && (k == 1 ==> UsageCheck(item, now) == [UsageNotice(item.name, Tomorrow)])
        && (k < 0 || k > 1 ==> UsageCheck(item, now) == [])
  {
    UsageDaysLeftByCalendar(item.addedDate, item.expectedDays.value, now);
  }

  /**
   * An item posts at most one expiry and one consumption notification, and
   * when it posts both the expiry one comes first.
   */
  lemma ExpiryComesFirst(item: GroceryItem, now: int)
    requires |ItemNotifications(item, now)| == 2
    ensures var r := ItemNotifications(item, now);
      && r[0] in {ExpiryNotice(item.name, Today), ExpiryNotice(item.name, Tomorrow)}
      && r[1] in {UsageNotice(item.name, Today), UsageNotice(item.name, Tomorrow)}
      && r[0] != r[1]
  {
    var r := ItemNotifications(item, now);
    assert |ExpiryCheck(item, now)| == 1 && |UsageCheck(item, now)| == 1;
    assert r[0] == ExpiryCheck(item, now)[0] && r[1] == UsageCheck(item, now)[0];
    assert r[0].title[0] == '⚠' && r[1].title[0] == '🍶';
  }

  /** `s` ends with `suffix`. */
  predicate EndsWith(s: string, suffix: string) {
    |suffix| <= |s| && s[|s| - |suffix|..] == suffix
  }

  /**
   * The expiry notice's text: the title is the warning sign, a space and the
   * item's name, and ends with "today" exactly for `Today` and with
   * "tomorrow" otherwise; the message opens with the name.
   */
  lemma ExpiryNoticeText(name: string, m: Moment)
    ensures var n, mark := ExpiryNotice(name, m), "⚠️ ";
      && |n.title| >= |mark| + |name| && n.title[..|mark|] == mark && n.title[|mark|..|mark| + |name|] == name
      && (EndsWith(n.title, "today") <==> m == Today)
      && (m == Tomorrow ==> EndsWith(n.title, "tomorrow"))
      && |n.body| >= |name| && n.body[..|name|] == name
  {
    var n, mark := ExpiryNotice(name, m), "⚠️ ";
    var word := if m == Today then "today" else "tomorrow";
    assert n.title == mark + name + " expiring " + word;
    TextPieces(mark, name, " expiring ", word);
    if m == Tomorrow {
      TomorrowIsNotToday(n.title);
    }
  }


  /**
   * The consumption notice's text: the title is the bottle, a space and the
   * item's name, and ends with the day as the expiry notice does; the message
   * names the item after "You likely finish ".
   */
  lemma UsageNoticeText(name: string, m: Moment)
    ensures var n, mark, lead := UsageNotice(name, m), "🍶 ", "You likely finish ";
      && |n.title| >= |mark| + |name| && n.title[..|mark|] == mark && n.title[|mark|..|mark| + |name|] == name
      && (EndsWith(n.title, "today") <==> m == Today)
      && (m == Tomorrow ==> EndsWith(n.title, "tomorrow"))
      && |n.body| >= |lead| + |name| && n.body[..|lead|] == lead && n.body[|lead|..|lead| + |name|] == name
  {
    var n, mark, lead := UsageNotice(name, m), "🍶 ", "You likely finish ";
    var word := if m == Today then "today" else "tomorrow";
    assert n.title == mark + name + " may finish " + word;
    TextPieces(mark, name, " may finish ", word);
    if m == Tomorrow {
      TomorrowIsNotToday(n.title);
    }
  }


  /** Where the four parts of `a + b + c + d` sit. */
  lemma TextPieces(a: string, b: string, c: string, d: string)
    ensures var t := a + b + c + d;
      && |t| == |a| + |b| + |c| + |d|
      && t[..|a|] == a && t[|a|..|a| + |b|] == b && t[|t| - |d|..] == d
  {
    var t := a + b + c + d;
    assert t == a + (b + (c + d));
    assert t == ((a + b) + c) + d;
  }

  /** A title ending in "tomorrow" does not end in "today". */
  lemma TomorrowIsNotToday(t: string)
    requires EndsWith(t, "tomorrow")
    ensures !EndsWith(t, "today")
  {
    assert t[|t| - 5..] == t[|t| - 8..][3..] == "orrow";
  }

  /**
   * A notice tells the user which item and which day it is about, and an
   * expiry notice is never a consumption notice.
   */
  lemma NoticesIdentifyItemAndDay(a: string, b: string, m1: Moment, m2: Moment)
    ensures ExpiryNotice(a, m1) == ExpiryNotice(b, m2) ==> a == b && m1 == m2
    ensures UsageNotice(a, m1) == UsageNotice(b, m2) ==> a == b && m1 == m2
    ensures ExpiryNotice(a, m1) != UsageNotice(b, m2)
  {
    ExpiryNoticeText(a, m1);
    ExpiryNoticeText(b, m2);
    UsageNoticeText(a, m1);
    UsageNoticeText(b, m2);
    assert ExpiryNotice(a, m1).title[0] != UsageNotice(b, m2).title[0];
    if ExpiryNotice(a, m1) == ExpiryNotice(b, m2) {
      assert m1 == m2;
      assert |a| == |b|;
    }
    if UsageNotice(a, m1) == UsageNotice(b, m2) {
      assert m1 == m2;
      assert |a| == |b|;
    }
  }

  /** One run over a concatenated list posts the two runs' notifications one after the other. */
  lemma NotificationsAppend(a: seq<GroceryItem>, b: seq<GroceryItem>, now: int)
    ensures Notifications(a + b, now) == Notifications(a, now) + Notifications(b, now)
  {
    FlatMapAppend(PerItem(now), a, b);
  }

  /** Each item contributes its own notifications at its own place in the list. */
  lemma ItemIsolation(items: seq<GroceryItem>, i: int, now: int)
    requires 0 <= i < |items|
    ensures Notifications(items, now)
      == Notifications(items[..i], now) + ItemNotifications(items[i], now) + Notifications(items[i + 1..], now)
  {
    FlatMapAt(PerItem(now), items, i);
  }

  lemma ItemAtMostTwo(item: GroceryItem, now: int)
    ensures |PerItem(now)(item)| <= 2
  {
  }

  /** A run posts at most two notifications per item. */
  lemma AtMostTwoPerItem(items: seq<GroceryItem>, now: int)
    ensures |Notifications(items, now)| <= 2 * |items|
  {
    forall item: GroceryItem
      ensures |PerItem(now)(item)| <= 2
    {
      ItemAtMostTwo(item, now);
    }
    FlatMapLength(PerItem(now), items, 2);
  }

  /** An item whose expiry date does not parse posts what it would post without one. */
  lemma UnparsableExpiryIsIgnored(item: GroceryItem, now: int)
    requires item.expiryDate.Some? && ParseDate(item.expiryDate.value) == None
    ensures ItemNotifications(item, now) == (if item.reminderEnabled then UsageCheck(item, now) else [])
    ensures PerItem(now)(item) == PerItem(now)(item.(expiryDate := None))
  {
  }

  /**
   * An expiry date that does not parse costs that item its expiry
   * notification and nothing else: its consumption check and every other
   * item are evaluated as if the date were absent.
   */
  lemma ParseFailureIsIsolated(items: seq<GroceryItem>, i: int, now: int)
    requires 0 <= i < |items|
    requires items[i].expiryDate.Some? && ParseDate(items[i].expiryDate.value) == None
    ensures Notifications(items, now)
      == Notifications(items[..i], now)
         + (if items[i].reminderEnabled then UsageCheck(items[i], now) else [])
         + Notifications(items[i + 1..], now)
    ensures Notifications(items, now) == Notifications(items[i := items[i].(expiryDate := None)], now)
  {
    ItemIsolation(items, i, now);
    UnparsableExpiryIsIgnored(items[i], now);
    FlatMapReplace(PerItem(now), items, i, items[i].(expiryDate := None));
  }

  /** A disabled item posts nothing. */
  lemma DisabledItemIsSilent(item: GroceryItem, now: int)
    requires !item.reminderEnabled
    ensures PerItem(now)(item) == []
  {
  }

  /** A disabled item contributes nothing to a run, whatever its dates. */
  lemma DisabledItemIsSkipped(items: seq<GroceryItem>, i: int, now: int)
    requires 0 <= i < |items| && !items[i].reminderEnabled
    ensures Notifications(items, now) == Notifications(items[..i] + items[i + 1..], now)
  {
    DisabledItemIsSilent(items[i], now);
    FlatMapSkip(PerItem(now), items, i);
  }

  /** A run over no items posts nothing. */
  lemma EmptyListPostsNothing(now: int)
    ensures Notifications([], now) == []
  {
  }

  /**
   * A single item whose stored expiry date is today's date, written as the
   * date picker writes it, posts exactly the "expiring today" notification,
   * at any time on that day.
   */
  lemma ExpiringTodayAlone(item: GroceryItem, today: CivilDate, now: int)
    requires ValidDate(today) && DayNumber(today) == DayOf(now)
    requires item.reminderEnabled && item.expiryDate == Some(FormatDate(today)) && item.expectedDays == None
    ensures Notifications([item], now) == [ExpiryNotice(item.name, Today)]
  {
    assert ExpiryCheck(item, now) == [ExpiryNotice(item.name, Today)] by {
      FormatParseRoundTrip(today);
      ExpiryCheckByCalendar(item, today, now);
    }
    assert PerItem(now)(item) == [ExpiryNotice(item.name, Today)];
    FlatMapSingleton(PerItem(now), item);
  }

  /** An item added five days ago that lasts five days finishes today, at any time of day. */
  lemma FiveDaysAfterAdding(item: GroceryItem, now: int)
    requires item.expectedDays == Some(5) && DayOf(item.addedDate) == DayOf(now) - 5
    ensures UsageCheck(item, now) == [UsageNotice(item.name, Today)]
  {
    UsageCheckByCalendar(item, now);
  }

  /**
   * An item that expires tomorrow (its stored text reads as tomorrow's date,
   * so by `ParseFormatRoundTrip` it is that date's `dd/MM/yyyy` spelling) and
   * is expected to run out tomorrow posts two notifications; as the worker compares against the un-normalised
   * clock, they read "tomorrow" only at midnight itself and "today" after it.
   */
  lemma ExpiringAndFinishingTomorrow(item: GroceryItem, today: CivilDate, now: int)
    requires ValidDate(today) && today.year < 9999 && DayNumber(today) == DayOf(now)
    requires item.reminderEnabled && item.expiryDate.Some? && ParseDate(item.expiryDate.value) == Some(NextDate(today))
    requires item.expectedDays.Some? && DayOf(item.addedDate) + item.expectedDays.value == DayOf(now) + 1
    ensures TimeOfDay(now) == 0 ==>
      (ItemNotifications(item, now) == [ExpiryNotice(item.name, Tomorrow), UsageNotice(item.name, Tomorrow)])
    ensures TimeOfDay(now) > 0 ==>
      (ItemNotifications(item, now) == [ExpiryNotice(item.name, Today), UsageNotice(item.name, Today)])
  {
    ExpiresTomorrow(item, today, now);
    FinishesTomorrow(item, now);
    var m := if TimeOfDay(now) == 0 then Tomorrow else Today;
    BothChecksPost(item, now, ExpiryNotice(item.name, m), UsageNotice(item.name, m));
  }

  /** An enabled item whose two checks post one notice each posts those two, expiry first. */
  lemma BothChecksPost(item: GroceryItem, now: int, expiry: Notification, usage: Notification)
    requires item.reminderEnabled
    requires ExpiryCheck(item, now) == [expiry] && UsageCheck(item, now) == [usage]
    ensures ItemNotifications(item, now) == [expiry, usage]
  {
  }

  /** An item whose stored expiry is tomorrow's date: "tomorrow" at midnight, "today" after it. */
  lemma ExpiresTomorrow(item: GroceryItem, today: CivilDate, now: int)
    requires ValidDate(today) && today.year < 9999 && DayNumber(today) == DayOf(now)
    requires item.expiryDate.Some? && ParseDate(item.expiryDate.value) == Some(NextDate(today))
    ensures ExpiryCheck(item, now) == [ExpiryNotice(item.name, if TimeOfDay(now) == 0 then Tomorrow else Today)]
  {
    DayNumberRange(today);
    NextDateIsNextDay(today);
    ExpiryCheckByCalendar(item, NextDate(today), now);
  }

  /** An item whose usage ends tomorrow: "tomorrow" at midnight, "today" after it. */
  lemma FinishesTomorrow(item: GroceryItem, now: int)
    requires item.expectedDays.Some? && DayOf(item.addedDate) + item.expectedDays.value == DayOf(now) + 1
    ensures UsageCheck(item, now) == [UsageNotice(item.name, if TimeOfDay(now) == 0 then Tomorrow else Today)]
  {
    UsageCheckByCalendar(item, now);
  }
}
