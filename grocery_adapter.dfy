/**
 * What `GroceryAdapter` shows for one item: the reminder icon's description,
 * the expiry chip and the expected-finish chip, plus the list-diffing
 * callbacks. `formatDate` stands for the locale-dependent `d MMM yyyy`
 * formatter; `now` for the clock reading taken while binding.
 */
module GroceryAdapter {
  import opened Wrappers
  import opened CivilTime
  import opened DateText
  import opened GroceryModel
  import ReminderWorker
  import ReminderProperties

  /** A chip's visibility and, when visible, its text and content description. */
  datatype Chip = Hidden | Shown(text: string, description: string)

  // --- DIFF_CALLBACK -------------------------------------------------------

  /** Two rows show the same record when the primary keys agree. */
  function AreItemsTheSame(oldItem: GroceryItem, newItem: GroceryItem): (same: bool)
    ensures same <==> oldItem.id == newItem.id
  {
    oldItem.id == newItem.id
  }

  /** A row needs no redraw when the records are equal field by field. */
  function AreContentsTheSame(oldItem: GroceryItem, newItem: GroceryItem): (same: bool)
    ensures same <==> oldItem == newItem
  {
    oldItem == newItem
  }

  /** Equal contents imply the same item, as DiffUtil requires of the two callbacks. */
  lemma ContentsSameImpliesItemsSame(oldItem: GroceryItem, newItem: GroceryItem)
    ensures AreContentsTheSame(oldItem, newItem) ==> AreItemsTheSame(oldItem, newItem)
  {
  }

  // --- reminder icon -------------------------------------------------------

  function ReminderDescription(enabled: bool): (d: string)
    ensures d == "Reminder enabled" <==> enabled
    ensures d == "Reminder disabled" <==> !enabled
  {
    assert "Reminder enabled"[9] != "Reminder disabled"[9];
    if enabled then "Reminder enabled" else "Reminder disabled"
  }

  // --- expiry chip ---------------------------------------------------------

  /**
   * The expiry chip: hidden for a null or empty date; otherwise the
   * reformatted date when it parses, and the raw string when parsing throws.
   */
  function ExpiryChip(expiryDate: Option<string>, formatDate: CivilDate -> string): Chip {
    if expiryDate == None || expiryDate.value == "" then Hidden
    else
      match ParseDate(expiryDate.value)
      case Some(date) =>
        var formatted := formatDate(date);
        Shown("Expires: " + formatted, "Expiry date " + formatted)
      case None =>
        Shown("Expires: " + expiryDate.value, "Expiry date " + expiryDate.value)
  }

  /**
   * The chip is shown exactly for a non-empty date, always under the label
   * "Expires: "; it carries the formatted date exactly when the reminder
   * worker can use the date, and the raw text otherwise.
   */
  lemma ExpiryChipCases(expiryDate: Option<string>, formatDate: CivilDate -> string)
    ensures ExpiryChip(expiryDate, formatDate).Hidden? <==> expiryDate == None || expiryDate.value == ""
    ensures expiryDate.Some? && expiryDate.value != "" ==>
      var chip := ExpiryChip(expiryDate, formatDate);
      && chip.text[..9] == "Expires: "
      && (ParseDate(expiryDate.value).Some? ==> chip.text[9..] == formatDate(ParseDate(expiryDate.value).value))
      && (ParseDate(expiryDate.value).None? ==> chip.text[9..] == expiryDate.value)
  {
  }

  /**
   * A non-empty date the parser rejects is shown raw on the chip, and the
   * worker's expiry check posts nothing for it.
   */
  lemma ExpiryChipMatchesWorker(item: GroceryItem, now: int, formatDate: CivilDate -> string)
    requires item.expiryDate.Some? && item.expiryDate.value != ""
    requires ParseDate(item.expiryDate.value) == None
    ensures ExpiryChip(item.expiryDate, formatDate) == Shown("Expires: " + item.expiryDate.value, "Expiry date " + item.expiryDate.value)
    ensures ReminderWorker.ExpiryCheck(item, now) == []
  {
  }

  // --- expected-finish chip ------------------------------------------------

  /** The chip's day count: both ends are normalised to midnight here. */
  function FinishDaysLeft(addedDate: int, expectedDays: int, now: int): Int32 {
    ToInt32(TruncDiv(ReminderWorker.UsageEnd(addedDate, expectedDays) - Midnight(now), DAY))
  }

  /** The four-way `when` on the day count. */
  function FinishLabel(daysLeft: int): Chip {
    if daysLeft < 0 then Shown("Likely finished", "Item likely finished")
    else if daysLeft == 0 then Shown("Finishes today", "Finishes today")
    else if daysLeft == 1 then Shown("Finishes tomorrow", "Finishes tomorrow")
    else Shown("Finishes in: " + IntToString(daysLeft) + "d", "Finishes in " + IntToString(daysLeft) + " days")
  }

  /** The expected-finish chip: hidden without an expected duration, labelled otherwise. */
  function FinishChip(item: GroceryItem, now: int): (chip: Chip)
    ensures chip.Hidden? <==> item.expectedDays == None
  {
    match item.expectedDays
    case None => Hidden
    case Some(days) => FinishLabel(FinishDaysLeft(item.addedDate, days, now))
  }

  /** With both ends at midnight there is no remainder: the count is the exact calendar distance. */
  lemma FinishDaysLeftExact(addedDate: int, expectedDays: int, now: int)
    requires IsInt32(DayOf(addedDate) + expectedDays - DayOf(now))
    ensures FinishDaysLeft(addedDate, expectedDays, now) == DayOf(addedDate) + expectedDays - DayOf(now)
    ensures (ReminderWorker.UsageEnd(addedDate, expectedDays) - Midnight(now)) % DAY == 0
  {
    var k := DayOf(addedDate) + expectedDays - DayOf(now);
    MidnightPlusDays(addedDate, expectedDays);
    assert ReminderWorker.UsageEnd(addedDate, expectedDays) - Midnight(now) == k * DAY;
    TruncDivDayOffset(k, 0);
  }

  /**
   * The label is exactly one of the four, chosen by the sign and size of the
   * day count: each case is characterised both ways.
   */
  lemma FinishLabelCases(daysLeft: int)
    ensures FinishLabel(daysLeft).Shown?
    ensures FinishLabel(daysLeft).text == "Likely finished" <==> daysLeft < 0
    ensures FinishLabel(daysLeft).text == "Finishes today" <==> daysLeft == 0
    ensures FinishLabel(daysLeft).text == "Finishes tomorrow" <==> daysLeft == 1
    ensures FinishLabel(daysLeft).text == "Finishes in: " + IntToString(daysLeft) + "d" <==> daysLeft >= 2
  {
    var inDays := "Finishes in: " + IntToString(daysLeft) + "d";
    assert inDays[9] == 'i' && "Finishes today"[9] == 't' && "Finishes tomorrow"[9] == 't';
    assert "Likely finished"[0] == 'L' && inDays[0] == 'F';
    assert "Finishes today"[11] != "Finishes tomorrow"[11];
  }

  /**
   * The chip compared with the worker's consumption check: exactly at
   * midnight they agree; later in the day the chip counts one day more for
   * a usage end after today, as the worker does not normalise `now`.
   */
  lemma FinishChipAgainstWorker(addedDate: int, expectedDays: int, now: int)
    requires IsInt32(DayOf(addedDate) + expectedDays - DayOf(now))
    ensures var k := DayOf(addedDate) + expectedDays - DayOf(now);
      FinishDaysLeft(addedDate, expectedDays, now)
        == ReminderWorker.UsageDaysLeft(addedDate, expectedDays, now)
           + (if k >= 1 && TimeOfDay(now) > 0 then 1 else 0)
  {
    FinishDaysLeftExact(addedDate, expectedDays, now);
    ReminderProperties.UsageDaysLeftByCalendar(addedDate, expectedDays, now);
  }

  // --- the row's views -----------------------------------------------------

  /**
   * The views of one list row that `bind` writes. A hidden chip keeps the
   * text and description of whatever item the recycled row showed before.
   */
  class GroceryRowView {
    var nameText: string
    var quantityText: string
    var reminderIconOn: bool
    var reminderDescription: string
    var expiryText: string
    var expiryDescription: string
    var expiryVisible: bool
    var finishText: string
    var finishDescription: string
    var finishVisible: bool

    constructor ()
      ensures !expiryVisible && !finishVisible
    {
      nameText, quantityText := "", "";
      reminderIconOn, reminderDescription := false, "";
      expiryText, expiryDescription, expiryVisible := "", "", false;
      finishText, finishDescription, finishVisible := "", "", false;
    }

    /** `GroceryViewHolder.bind(item)`. */
    method Bind(item: GroceryItem, now: int, formatDate: CivilDate -> string)
      modifies this
      ensures nameText == item.name && quantityText == item.quantity
      ensures reminderIconOn == item.reminderEnabled
      ensures reminderDescription == ReminderDescription(item.reminderEnabled)
      ensures var chip := ExpiryChip(item.expiryDate, formatDate);
        && expiryVisible == chip.Shown?
        && (chip.Shown? ==> expiryText == chip.text && expiryDescription == chip.description)
        && (chip.Hidden? ==> expiryText == old(expiryText) && expiryDescription == old(expiryDescription))
      ensures var chip := FinishChip(item, now);
        && finishVisible == chip.Shown?
        && (chip.Shown? ==> finishText == chip.text && finishDescription == chip.description)
        && (chip.Hidden? ==> finishText == old(finishText) && finishDescription == old(finishDescription))
    {
      nameText := item.name;
      quantityText := item.quantity;
      reminderIconOn := item.reminderEnabled;
      reminderDescription := if item.reminderEnabled then "Reminder enabled" else "Reminder disabled";

      BindExpiryChip(item.expiryDate, formatDate);
      BindFinishChip(item, now);
    }

    /** The expiry half of `bind`; the flag records whether a branch showed the chip. */
    method BindExpiryChip(expiryDate: Option<string>, formatDate: CivilDate -> string)
      modifies this`expiryText, this`expiryDescription, this`expiryVisible
      ensures var chip := ExpiryChip(expiryDate, formatDate);
        && expiryVisible == chip.Shown?
        && (chip.Shown? ==> expiryText == chip.text && expiryDescription == chip.description)
        && (chip.Hidden? ==> expiryText == old(expiryText) && expiryDescription == old(expiryDescription))
    {
      var expiryShown := false;
      if expiryDate.Some? && expiryDate.value != "" {
        var parsed := ParseDate(expiryDate.value);
        if parsed.Some? {
          var formatted := formatDate(parsed.value);
          expiryText := "Expires: " + formatted;
          expiryVisible := true;
          expiryDescription := "Expiry date " + formatted;
          expiryShown := true;
        } else {
          expiryText := "Expires: " + expiryDate.value;
          expiryVisible := true;
          expiryDescription := "Expiry date " + expiryDate.value;
          expiryShown := true;
        }
      }
      if !expiryShown {
        expiryVisible := false;
      }
    }

    /** The expected-finish half of `bind`. */
    method BindFinishChip(item: GroceryItem, now: int)
      modifies this`finishText, this`finishDescription, this`finishVisible
      ensures var chip := FinishChip(item, now);
        && finishVisible == chip.Shown?
        && (chip.Shown? ==> finishText == chip.text && finishDescription == chip.description)
        && (chip.Hidden? ==> finishText == old(finishText) && finishDescription == old(finishDescription))
    {
      if item.expectedDays.Some? {
        var usageEnd := Midnight(item.addedDate);
        usageEnd := usageEnd + item.expectedDays.value * DAY;
        var todayMid := Midnight(now);
        var diffMillis := usageEnd - todayMid;
        var daysLeft := ToInt32(TruncDiv(diffMillis, DAY));
        assert daysLeft == FinishDaysLeft(item.addedDate, item.expectedDays.value, now);
        if daysLeft < 0 {
          finishText, finishDescription := "Likely finished", "Item likely finished";
        } else if daysLeft == 0 {
          finishText, finishDescription := "Finishes today", "Finishes today";
        } else if daysLeft == 1 {
          finishText, finishDescription := "Finishes tomorrow", "Finishes tomorrow";
        } else {
          finishText := "Finishes in: " + IntToString(daysLeft) + "d";
          finishDescription := "Finishes in " + IntToString(daysLeft) + " days";
        }
        finishVisible := true;
      } else {
        finishVisible := false;
      }
    }
  }
}
