/**
 * The daily reminder check of `ReminderWorker.doWork`: for every item whose
 * reminder is enabled, an expiry check and a consumption check, each of which
 * may post one notification. Posting a notification is modelled by appending
 * it to the sequence the check returns.
 */
module ReminderWorker {
  import opened Wrappers
  import opened CivilTime
  import opened DateText
  import opened GroceryModel
  import opened Sequences

  /** What `NotificationUtils.showNotification` is given. */
  datatype Notification = Notification(title: string, body: string)

  /** The two day differences that post a notification: 0 and 1. */
  datatype Moment = Today | Tomorrow

  /** `daysLeft in 0..1`, and which of the two texts it selects: 0 is today, 1 tomorrow. */
  function MomentOf(daysLeft: int): (m: Option<Moment>)
    ensures m.Some? <==> 0 <= daysLeft <= 1
    ensures m == Some(Today) <==> daysLeft == 0
  {
    if daysLeft == 0 then Some(Today) else if daysLeft == 1 then Some(Tomorrow) else None
  }

  /** The expiry notification's title and message for an item called `name`. */
  function ExpiryNotice(name: string, m: Moment): Notification {
    var title := "⚠️ " + name + " expiring " + (if m == Today then "today" else "tomorrow");
    var message :=
      if m == Today then name + " expires today. Use or replace it soon!"
      else name + " will expire tomorrow. Consider restocking.";
    Notification(title, message)
  }

  /** The consumption notification's title and message for an item called `name`. */
  function UsageNotice(name: string, m: Moment): Notification {
    var title := "🍶 " + name + " may finish " + (if m == Today then "today" else "tomorrow");
    var message :=
      if m == Today then "You likely finish " + name + " today. Consider restocking."
      else "You likely finish " + name + " tomorrow. Consider buying another.";
    Notification(title, message)
  }

  /**
   * The expiry check's day count: the expiry date's midnight minus the
   * un-normalised `now`, truncated to whole days, then `toInt()`.
   */
  function ExpiryDaysLeft(expiry: CivilDate, now: int): Int32
    requires ValidDate(expiry)
  {
    ToInt32(TruncDiv(Midnight(DayNumber(expiry) * DAY) - now, DAY))
  }

  /**
   * Midnight of the day the item was added, moved on by `expectedDays` days:
   * the midnight that starts day `DayOf(addedDate) + expectedDays`.
   */
  function UsageEnd(addedDate: int, expectedDays: int): (e: int)
    ensures e == (DayOf(addedDate) + expectedDays) * DAY
    ensures Midnight(e) == e
  {
    MidnightPlusDays(addedDate, expectedDays);
    Midnight(addedDate) + expectedDays * DAY
  }

  /** The consumption check's day count, again against the un-normalised `now`. */
  function UsageDaysLeft(addedDate: int, expectedDays: int, now: int): Int32 {
    ToInt32(TruncDiv(UsageEnd(addedDate, expectedDays) - now, DAY))
  }

  /**
   * The expiry check of one item: nothing without an expiry date, nothing
   * when the date does not parse (the exception is caught and logged), and
   * otherwise a notification when the day count is 0 or 1.
   */
  function ExpiryCheck(item: GroceryItem, now: int): (r: seq<Notification>)
    ensures |r| <= 1
  {
    match item.expiryDate
    case None => []
    case Some(text) =>
      match ParseDate(text)
      case None => []
      case Some(expiry) =>
        match MomentOf(ExpiryDaysLeft(expiry, now))
        case None => []
        case Some(m) => [ExpiryNotice(item.name, m)]
  }

  /** The consumption check of one item. */
  function UsageCheck(item: GroceryItem, now: int): (r: seq<Notification>)
    ensures |r| <= 1
  {
    match item.expectedDays
    case None => []
    case Some(days) =>
      match MomentOf(UsageDaysLeft(item.addedDate, days, now))
      case None => []
      case Some(m) => [UsageNotice(item.name, m)]
  }

  /** Everything one item posts: a disabled reminder posts nothing, otherwise expiry first, then consumption. */
  function ItemNotifications(item: GroceryItem, now: int): (r: seq<Notification>)
    ensures |r| <= 2
    ensures !item.reminderEnabled ==> r == []
    ensures item.reminderEnabled ==> r == ExpiryCheck(item, now) + UsageCheck(item, now)
  {
    if !item.reminderEnabled then [] else ExpiryCheck(item, now) + UsageCheck(item, now)
  }

  /** The body of the `forEach`, for a fixed clock reading. */
  function PerItem(now: int): GroceryItem -> seq<Notification> {
    item => ItemNotifications(item, now)
  }

  /** Everything one run posts, in list order. */
  function Notifications(items: seq<GroceryItem>, now: int): seq<Notification> {
    FlatMap(PerItem(now), items)
  }

  /** Step 1 of the loop body: the expiry-date reminder, with its parse failure caught. */
  method CheckExpiry(item: GroceryItem, now: int) returns (posted: seq<Notification>)
    ensures posted == ExpiryCheck(item, now)
  {
    posted := [];
    if item.expiryDate.Some? {
      var parsed := ParseDate(item.expiryDate.value);
      if parsed.Some? {
        var expiryMidnight := Midnight(DayNumber(parsed.value) * DAY);
        var diffMillis := expiryMidnight - now;
        var daysLeft := ToInt32(TruncDiv(diffMillis, DAY));
        if 0 <= daysLeft <= 1 {
          var title := "⚠️ " + item.name + " expiring " + (if daysLeft == 0 then "today" else "tomorrow");
          var message :=
            if daysLeft == 0 then item.name + " expires today. Use or replace it soon!"
            else item.name + " will expire tomorrow. Consider restocking.";
          posted := [Notification(title, message)];
        }
      }
    }
  }

  /** Step 2 of the loop body: the expected-consumption reminder. */
  method CheckUsage(item: GroceryItem, now: int) returns (posted: seq<Notification>)
    ensures posted == UsageCheck(item, now)
  {
    posted := [];
    if item.expectedDays.Some? {
      var usageEnd := Midnight(item.addedDate);
      usageEnd := usageEnd + item.expectedDays.value * DAY;
      var diffUsageMillis := usageEnd - now;
      var daysLeftUsage := ToInt32(TruncDiv(diffUsageMillis, DAY));
      if 0 <= daysLeftUsage <= 1 {
        var title := "🍶 " + item.name + " may finish " + (if daysLeftUsage == 0 then "today" else "tomorrow");
        var message :=
          if daysLeftUsage == 0 then "You likely finish " + item.name + " today. Consider restocking."
          else "You likely finish " + item.name + " tomorrow. Consider buying another.";
        posted := [Notification(title, message)];
      }
    }
  }

  /** The body of the `forEach` for one item: skip it when its reminder is off, else both checks. */
  method CheckItem(item: GroceryItem, now: int) returns (posted: seq<Notification>)
    ensures posted == PerItem(now)(item)
  {
    if !item.reminderEnabled {
      return [];
    }
    var expiryPosted := CheckExpiry(item, now);
    var usagePosted := CheckUsage(item, now);
    posted := expiryPosted + usagePosted;
  }

  /**
   * The loop of `doWork` over the item list read from the store, given the
   * clock reading `now` taken once before the loop.
   */
  method RunReminderCheck(items: seq<GroceryItem>, now: int) returns (sent: seq<Notification>)
    ensures sent == Notifications(items, now)
  {
    sent := [];
    var i := 0;
    while i < |items|
      invariant 0 <= i <= |items|
      invariant sent == Notifications(items[..i], now)
    {
      var posted := CheckItem(items[i], now);
      NotificationsSnoc(items, i, now);
      sent := sent + posted;
      i := i + 1;
    }
    assert items[..|items|] == items;
  }

  /** One more item appends that item's notifications to the run's output so far. */
  lemma NotificationsSnoc(items: seq<GroceryItem>, i: int, now: int)
    requires 0 <= i < |items|
    ensures Notifications(items[..i + 1], now) == Notifications(items[..i], now) + PerItem(now)(items[i])
  {
    assert items[..i + 1] == items[..i] + [items[i]];
    FlatMapSnoc(PerItem(now), items[..i], items[i]);
  }
}
