/**
 * `AddItemActivity`: the date picker's text, the save button's validation
 * and record construction, and the order in which `onCreate` installs the
 * save button's click listener. The text fields, the switch and the button
 * are fields of `AddItemScreen`; the database call the listener makes is
 * returned as a `DbCommand` value.
 */
module AddItemActivity {
  import opened Wrappers
  import opened CivilTime
  import opened DateText
  import opened GroceryModel

  // --- date picker ---------------------------------------------------------

  /**
   * `"%02d/%02d/%04d".format(dayOfMonth, month + 1, year)`: the picker
   * reports a zero-based month.
   */
  function PickerDateText(year: int, month: int, dayOfMonth: int): (s: string)
    ensures s == FormatDate(CivilDate(year, month + 1, dayOfMonth))
  {
    FormatPadded(dayOfMonth, 2) + "/" + FormatPadded(month + 1, 2) + "/" + FormatPadded(year, 4)
  }

  /** Every date the picker can offer is written in the one form the reminder worker parses. */
  lemma PickerDateParses(year: int, month: int, dayOfMonth: int)
    requires ValidDate(CivilDate(year, month + 1, dayOfMonth))
    ensures |PickerDateText(year, month, dayOfMonth)| == 10
    ensures ParseDate(PickerDateText(year, month, dayOfMonth)) == Some(CivilDate(year, month + 1, dayOfMonth))
  {
    FormatParseRoundTrip(CivilDate(year, month + 1, dayOfMonth));
  }

  // --- Kotlin String.trim() ------------------------------------------------

  /** Kotlin's `Char.isWhitespace()`: Java whitespace together with the Unicode space separators. */
  predicate IsWhitespace(c: char) {
    c == '\t' || c == '\n' || c == '\U{000B}' || c == '\U{000C}' || c == '\r'
    || ('\U{001C}' <= c <= '\U{001F}') || c == ' ' || c == '\U{00A0}' || c == '\U{1680}'
    || ('\U{2000}' <= c <= '\U{200A}') || c == '\U{2028}' || c == '\U{2029}'
    || c == '\U{202F}' || c == '\U{205F}' || c == '\U{3000}'
  }

  /**
   * The characters `trim()` removes include the space, tab, line breaks, the
   * no-break space and the ideographic space; digits, signs and the date's
   * slash are never removed.
   */
  lemma WhitespaceClass(c: char)
    ensures IsWhitespace(' ') && IsWhitespace('\t') && IsWhitespace('\n') && IsWhitespace('\r')
    ensures IsWhitespace('\U{00A0}') && IsWhitespace('\U{3000}')
    ensures IsDigit(c) || c == '-' || c == '+' || c == '/' ==> !IsWhitespace(c)
  {
  }

  /** Where `trim()` starts: the first non-blank position at or after `i`. */
  function TrimStartIndex(s: string, i: nat): (k: nat)
    requires i <= |s|
    ensures i <= k <= |s|
    ensures forall j :: i <= j < k ==> IsWhitespace(s[j])
    ensures k < |s| ==> !IsWhitespace(s[k])
    decreases |s| - i
  {
    if i < |s| && IsWhitespace(s[i]) then TrimStartIndex(s, i + 1) else i
  }

  /** Where `trim()` ends: just past the last non-blank position in `s[lo..e]`. */
  function TrimEndIndex(s: string, lo: nat, e: nat): (j: nat)
    requires lo <= e <= |s|
    ensures lo <= j <= e
    ensures forall m :: j <= m < e ==> IsWhitespace(s[m])
    ensures j > lo ==> !IsWhitespace(s[j - 1])
  {
    if e > lo && IsWhitespace(s[e - 1]) then TrimEndIndex(s, lo, e - 1) else e
  }

  function Trim(s: string): string {
    var start := TrimStartIndex(s, 0);
    s[start..TrimEndIndex(s, start, |s|)]
  }

  /**
   * `trim()` keeps the contiguous slice between the first and the last
   * non-blank character: everything cut off is whitespace and neither end
   * of the result is.
   */
  lemma TrimIsSlice(s: string)
    ensures var start := TrimStartIndex(s, 0);
      && start + |Trim(s)| <= |s|
      && Trim(s) == s[start..start + |Trim(s)|]
      && (forall i :: 0 <= i < start ==> IsWhitespace(s[i]))
      && (forall i :: start + |Trim(s)| <= i < |s| ==> IsWhitespace(s[i]))
      && (Trim(s) != [] ==> !IsWhitespace(Trim(s)[0]) && !IsWhitespace(Trim(s)[|Trim(s)| - 1]))
  {
    var start := TrimStartIndex(s, 0);
    var end := TrimEndIndex(s, start, |s|);
    assert Trim(s) == s[start..end];
    if end > start {
      assert Trim(s)[0] == s[start];
      assert Trim(s)[|Trim(s)| - 1] == s[end - 1];
    }
  }

  /** A text is blank after trimming exactly when all of it is whitespace. */
  lemma TrimBlank(s: string)
    ensures Trim(s) == [] <==> forall i :: 0 <= i < |s| ==> IsWhitespace(s[i])
  {
    TrimIsSlice(s);
  }

  /** A text with no whitespace at either end is left as it is. */
  lemma TrimUnchanged(s: string)
    requires s != [] ==> !IsWhitespace(s[0]) && !IsWhitespace(s[|s| - 1])
    ensures Trim(s) == s
  {
  }

  /** Trimming twice is trimming once. */
  lemma TrimIdempotent(s: string)
    ensures Trim(Trim(s)) == Trim(s)
  {
    TrimIsSlice(s);
    TrimUnchanged(Trim(s));
  }

  // --- the save button -----------------------------------------------------

  /** What the form's widgets hold when the button is clicked. */
  datatype FormInput = FormInput(
    nameText: string,
    quantityText: string,
    expiryText: string,
    expectedDaysText: string,
    reminderChecked: bool)

  /**
   * Why a click saves nothing: `toInt()` throws on a malformed number (the
   * listener does not catch it, so the activity crashes), or a required
   * field is blank (a toast is shown).
   */
  datatype SaveError = InvalidNumber | MissingRequiredFields

  /** `if (text.isNotEmpty()) text.toInt() else null` on the trimmed text. */
  function ParseExpectedDays(text: string): (r: Result<Option<Int32>, SaveError>)
    ensures text == "" ==> r == Ok(None)
    ensures text != "" ==> (r.Ok? <==> ParseInt(text).Some?)
    ensures r.Ok? && text != "" ==> r.value == ParseInt(text)
    ensures r.Err? ==> r.error == InvalidNumber
  {
    if text == "" then Ok(None)
    else match ParseInt(text)
      case Some(n) => Ok(Some(n))
      case None => Err(InvalidNumber)
  }

  /**
   * The body shared by both click listeners: trim every field, parse the
   * expected days (which happens before the required-field check), reject a
   * blank name or quantity, and build the record. `addedDate` takes its
   * default, the clock reading at the click.
   */
  function BuildItem(id: Int32, form: FormInput, clockNow: int): Result<GroceryItem, SaveError> {
    var name := Trim(form.nameText);
    var quantity := Trim(form.quantityText);
    var expiry := Trim(form.expiryText);
    var expectedDays := ParseExpectedDays(Trim(form.expectedDaysText));
    if expectedDays.Err? then Err(InvalidNumber)
    else if name == "" || quantity == "" then Err(MissingRequiredFields)
    else
      Ok(GroceryItem(id, name, quantity,
                     if expiry == "" then None else Some(expiry),
                     expectedDays.value, clockNow, form.reminderChecked))
  }

  /**
   * When a click fails, and why: a malformed number wins over blank
   * required fields; otherwise a blank name or quantity is the only reason.
   */
  lemma BuildItemErrors(id: Int32, form: FormInput, clockNow: int)
    ensures var days := Trim(form.expectedDaysText);
      (BuildItem(id, form, clockNow) == Err(InvalidNumber)) <==> (days != "" && ParseInt(days) == None)
    ensures var days := Trim(form.expectedDaysText);
      (BuildItem(id, form, clockNow) == Err(MissingRequiredFields))
        <==> ((days == "" || ParseInt(days).Some?)
              && (Trim(form.nameText) == "" || Trim(form.quantityText) == ""))
    ensures var days := Trim(form.expectedDaysText);
      (BuildItem(id, form, clockNow).Ok?)
        <==> ((days == "" || ParseInt(days).Some?)
              && Trim(form.nameText) != "" && Trim(form.quantityText) != "")
  {
  }

  /**
   * A saved record carries the given id, the trimmed texts (non-blank name
   * and quantity with no surrounding whitespace), a null expiry exactly for
   * a blank expiry text, the switch's state and the click's clock reading.
   */
  lemma BuildItemStoresForm(id: Int32, form: FormInput, clockNow: int)
    requires BuildItem(id, form, clockNow).Ok?
    ensures var item := BuildItem(id, form, clockNow).value;
      && item.id == id
      && item.name == Trim(form.nameText) && item.name != ""
      && !IsWhitespace(item.name[0]) && !IsWhitespace(item.name[|item.name| - 1])
      && item.quantity == Trim(form.quantityText) && item.quantity != ""
      && (item.expiryDate == None <==> Trim(form.expiryText) == "")
      && (item.expiryDate.Some? ==> item.expiryDate.value == Trim(form.expiryText))
      && item.addedDate == clockNow
      && item.reminderEnabled == form.reminderChecked
      && (item.expectedDays == None <==> Trim(form.expectedDaysText) == "")
      && (item.expectedDays.Some? ==> item.expectedDays == ParseInt(Trim(form.expectedDaysText)))
  {
    TrimIsSlice(form.nameText);
  }

  /**
   * The insert listener's record is the data class built from name and
   * quantity alone, with its defaults (id 0, the click's clock reading) kept
   * and only the expiry, the duration and the reminder switch set from the
   * form.
   */
  lemma InsertedItemIsNewItem(form: FormInput, clockNow: int)
    requires BuildItem(AUTO_GENERATE_ID, form, clockNow).Ok?
    ensures var expiry, days := Trim(form.expiryText), Trim(form.expectedDaysText);
      BuildItem(AUTO_GENERATE_ID, form, clockNow).value
        == NewGroceryItem(Trim(form.nameText), Trim(form.quantityText), clockNow).(
             expiryDate := if expiry == "" then None else Some(expiry),
             expectedDays := if days == "" then None else ParseInt(days),
             reminderEnabled := form.reminderChecked)
  {
    BuildItemStoresForm(AUTO_GENERATE_ID, form, clockNow);
  }

  /**
   * A number typed in its ordinary decimal spelling, with any surrounding
   * whitespace, is stored as that number.
   */
  lemma ExpectedDaysRoundTrip(n: Int32, before: string, after: string, id: Int32, form: FormInput, clockNow: int)
    requires forall i :: 0 <= i < |before| ==> IsWhitespace(before[i])
    requires forall i :: 0 <= i < |after| ==> IsWhitespace(after[i])
    requires form.expectedDaysText == before + IntToString(n) + after
    requires Trim(form.nameText) != "" && Trim(form.quantityText) != ""
    ensures BuildItem(id, form, clockNow).Ok?
    ensures BuildItem(id, form, clockNow).value.expectedDays == Some(n)
  {
    PaddedNumberParses(n, before, after);
    BuildItemErrors(id, form, clockNow);
    BuildItemStoresForm(id, form, clockNow);
  }

  /** Whitespace around a number's spelling is trimmed away and the number read back. */
  lemma PaddedNumberParses(n: Int32, before: string, after: string)
    requires forall i :: 0 <= i < |before| ==> IsWhitespace(before[i])
    requires forall i :: 0 <= i < |after| ==> IsWhitespace(after[i])
    ensures Trim(before + IntToString(n) + after) == IntToString(n) != ""
    ensures ParseInt(IntToString(n)) == Some(n)
  {
    IntToStringRoundTrip(n);
    IntToStringEnds(n);
    TrimAround(before, IntToString(n), after);
  }

  /** The decimal spelling of a number neither starts nor ends with whitespace. */
  lemma IntToStringEnds(n: int)
    ensures IntToString(n) != []
    ensures !IsWhitespace(IntToString(n)[0]) && !IsWhitespace(IntToString(n)[|IntToString(n)| - 1])
  {
    var digits := NatDigits(if n < 0 then -n else n);
    assert IsDigit(digits[0]) && IsDigit(digits[|digits| - 1]);
  }

  /** Trimming removes exactly the whitespace around a text whose ends are not blank. */
  lemma TrimAround(before: string, s: string, after: string)
    requires forall i :: 0 <= i < |before| ==> IsWhitespace(before[i])
    requires forall i :: 0 <= i < |after| ==> IsWhitespace(after[i])
    requires s != [] && !IsWhitespace(s[0]) && !IsWhitespace(s[|s| - 1])
    ensures Trim(before + s + after) == s
  {
    var whole := before + s + after;
    TrimIsSlice(whole);
    var start := TrimStartIndex(whole, 0);
    var r := Trim(whole);
    assert forall i :: 0 <= i < |before| ==> whole[i] == before[i];
    assert forall j :: 0 <= j < |after| ==> whole[|before| + |s| + j] == after[j];
    // The first non-blank character is s[0] and the last is s[|s| - 1].
    assert !IsWhitespace(whole[|before|]);
    assert !IsWhitespace(whole[|before| + |s| - 1]);
    assert |before| < start + |r|;
    assert r[0] == whole[start];
    assert start == |before|;
    assert r[|r| - 1] == whole[start + |r| - 1];
    assert |r| == |s|;
    assert r == whole[|before|..|before| + |s|];
    assert whole[|before|..|before| + |s|] == s;
  }

  /**
   * A date chosen in the picker and left as it is reaches the record as
   * text that the reminder worker parses back to that very date.
   */
  lemma PickedExpiryIsUsable(year: int, month: int, dayOfMonth: int, id: Int32, form: FormInput, clockNow: int)
    requires ValidDate(CivilDate(year, month + 1, dayOfMonth))
    requires form.expiryText == PickerDateText(year, month, dayOfMonth)
    ensures BuildItem(id, form, clockNow).Ok? ==>
      && BuildItem(id, form, clockNow).value.expiryDate == Some(PickerDateText(year, month, dayOfMonth))
      && ParseDate(BuildItem(id, form, clockNow).value.expiryDate.value) == Some(CivilDate(year, month + 1, dayOfMonth))
  {
    PickerDateParses(year, month, dayOfMonth);
    ParsedDateTrimmed(PickerDateText(year, month, dayOfMonth));
    if BuildItem(id, form, clockNow).Ok? {
      BuildItemStoresForm(id, form, clockNow);
    }
  }

  /** A text that parses as a date is non-blank and has nothing for `trim()` to remove. */
  lemma ParsedDateTrimmed(s: string)
    requires ParseDate(s).Some?
    ensures s != "" && Trim(s) == s
  {
    ParsedDateEnds(s);
    TrimUnchanged(s);
  }

  /** A parsed date's text begins and ends with a digit. */
  lemma ParsedDateEnds(s: string)
    requires ParseDate(s).Some?
    ensures |s| == 10 && IsDigit(s[0]) && IsDigit(s[9])
  {
  }

  // --- what a click does ---------------------------------------------------

  /** Which listener the save button holds. */
  datatype SaveAction = InsertNew | UpdateExisting(itemId: Int32)

  /** The database call a successful click makes through the view model. */
  datatype DbCommand = InsertItem(item: GroceryItem) | UpdateItem(item: GroceryItem)

  /** A click crashes, is turned away with a toast, or saves and shows a toast. */
  datatype ClickOutcome =
    | Crashed
    | Rejected(toast: string)
    | Saved(command: DbCommand, toast: string)

  /** The id the listener's record carries: the default for an insert, the edited id for an update. */
  function RecordId(action: SaveAction): (id: Int32)
    ensures action.InsertNew? ==> id == AUTO_GENERATE_ID
    ensures action.UpdateExisting? ==> id == action.itemId
  {
    match action
    case InsertNew => AUTO_GENERATE_ID
    case UpdateExisting(itemId) => itemId
  }

  /** One click of the save button under the listener `action`. */
  function SaveClick(action: SaveAction, form: FormInput, clockNow: int): ClickOutcome {
    match BuildItem(RecordId(action), form, clockNow)
    case Err(InvalidNumber) => Crashed
    case Err(MissingRequiredFields) =>
      Rejected(if action.InsertNew? then "Please enter all required fields" else "Please fill all required fields")
    case Ok(item) =>
      if action.InsertNew? then Saved(InsertItem(item), "Item added successfully!")
      else Saved(UpdateItem(item), "Item updated successfully!")
  }

  /**
   * A click saves exactly when the form builds a record; the insert
   * listener inserts a record with the auto-generated id, and the update
   * listener updates the row with the edited id.
   */
  lemma SaveClickCases(action: SaveAction, form: FormInput, clockNow: int)
    ensures SaveClick(action, form, clockNow).Saved? <==> BuildItem(RecordId(action), form, clockNow).Ok?
    ensures SaveClick(action, form, clockNow).Crashed? <==> BuildItem(RecordId(action), form, clockNow) == Err(InvalidNumber)
    ensures var o := SaveClick(action, form, clockNow);
      o.Saved? ==>
        && o.command.item == BuildItem(RecordId(action), form, clockNow).value
        && (action.InsertNew? ==> o.command.InsertItem? && o.command.item.id == AUTO_GENERATE_ID)
        && (action.UpdateExisting? ==> o.command.UpdateItem? && o.command.item.id == action.itemId)
  {
  }

  // --- onCreate: which listener ends up on the button ----------------------

  /** `getIntExtra("edit_item_id", -1)`: the id that means "not editing". */
  const NO_EDIT_ITEM: Int32 := -1

  /** The intent's extras; an absent string reads as "", an absent reminder flag as true. */
  datatype EditExtras = EditExtras(
    editItemId: Int32,
    name: Option<string>,
    quantity: Option<string>,
    expiry: Option<string>,
    reminder: Option<bool>)

  function OrEmpty(s: Option<string>): string {
    if s.Some? then s.value else ""
  }

  /** The form's widgets and the save button; `saveListener` is `None` before a listener is set. */
  class AddItemScreen {
    var nameField: string
    var quantityField: string
    var expiryField: string
    var expectedDaysField: string
    var reminderSwitch: bool
    var saveButtonText: string
    var saveListener: Option<SaveAction>

    constructor ()
      ensures nameField == "" && quantityField == "" && expiryField == "" && expectedDaysField == ""
      ensures saveListener == None
    {
      nameField, quantityField, expiryField, expectedDaysField := "", "", "", "";
      reminderSwitch := false;
      saveButtonText := "Save Item";
      saveListener := None;
    }

    function Form(): (f: FormInput)
      reads this
      ensures f.nameText == nameField && f.expectedDaysText == expectedDaysField
    {
      FormInput(nameField, quantityField, expiryField, expectedDaysField, reminderSwitch)
    }

    /** The picker's callback writes the chosen date into the expiry field. */
    method OnDatePicked(year: int, month: int, dayOfMonth: int)
      modifies this`expiryField
      ensures expiryField == PickerDateText(year, month, dayOfMonth)
    {
      var formattedDate := FormatPadded(dayOfMonth, 2) + "/" + FormatPadded(month + 1, 2) + "/" + FormatPadded(year, 4);
      expiryField := formattedDate;
    }

    /** `setupSaveButton()`: installs the insert listener, replacing any other. */
    method SetupSaveButton()
      modifies this`saveListener
      ensures saveListener == AfterSetupSaveButton(old(saveListener))
    {
      saveListener := Some(InsertNew);
    }

    /**
     * `checkIfEditing()`: with an edit id, copies the extras into the
     * widgets, relabels the button and installs the update listener;
     * without one, changes nothing. The expected-days field is not prefilled.
     */
    method CheckIfEditing(extras: EditExtras)
      modifies this
      ensures extras.editItemId == NO_EDIT_ITEM ==>
        && nameField == old(nameField) && quantityField == old(quantityField)
        && expiryField == old(expiryField) && reminderSwitch == old(reminderSwitch)
        && saveButtonText == old(saveButtonText)
      ensures extras.editItemId != NO_EDIT_ITEM ==>
        && nameField == OrEmpty(extras.name) && quantityField == OrEmpty(extras.quantity)
        && expiryField == OrEmpty(extras.expiry)
        && reminderSwitch == (extras.reminder != Some(false))
        && saveButtonText == "Update Item"
      ensures saveListener == AfterCheckIfEditing(extras.editItemId, old(saveListener))
      ensures expectedDaysField == old(expectedDaysField)
    {
      var itemId := extras.editItemId;
      if itemId != NO_EDIT_ITEM {
        nameField := OrEmpty(extras.name);
        quantityField := OrEmpty(extras.quantity);
        expiryField := OrEmpty(extras.expiry);
        reminderSwitch := if extras.reminder.Some? then extras.reminder.value else true;
        saveButtonText := "Update Item";
        saveListener := Some(UpdateExisting(itemId));
      }
    }

    /**
     * `onCreate` as written: `checkIfEditing()` and then `setupSaveButton()`.
     * The second call replaces the update listener, so the button always
     * inserts, even on an edit screen; the widgets hold what
     * `checkIfEditing()` put there.
     */
    method OnCreateAsWritten(extras: EditExtras)
      modifies this
      ensures saveListener == Some(ListenerAsWritten(extras.editItemId))
      ensures extras.editItemId == NO_EDIT_ITEM ==>
        && nameField == old(nameField) && quantityField == old(quantityField)
        && expiryField == old(expiryField) && reminderSwitch == old(reminderSwitch)
        && saveButtonText == old(saveButtonText)
      ensures extras.editItemId != NO_EDIT_ITEM ==>
        && nameField == OrEmpty(extras.name) && quantityField == OrEmpty(extras.quantity)
        && expiryField == OrEmpty(extras.expiry)
        && reminderSwitch == (extras.reminder != Some(false))
        && saveButtonText == "Update Item"
      ensures expectedDaysField == old(expectedDaysField)
    {
      CheckIfEditing(extras);
      SetupSaveButton();
    }

    /**
     * `onCreate` with the update listener taking precedence, as the edit
     * screen's "Update Item" button intends: the edit id selects the update.
     * The widgets are filled exactly as in the code as written.
     */
    method OnCreate(extras: EditExtras)
      modifies this
      ensures saveListener == Some(ListenerIntended(extras.editItemId))
      ensures extras.editItemId == NO_EDIT_ITEM ==>
        && nameField == old(nameField) && quantityField == old(quantityField)
        && expiryField == old(expiryField) && reminderSwitch == old(reminderSwitch)
        && saveButtonText == old(saveButtonText)
      ensures extras.editItemId != NO_EDIT_ITEM ==>
        && nameField == OrEmpty(extras.name) && quantityField == OrEmpty(extras.quantity)
        && expiryField == OrEmpty(extras.expiry)
        && reminderSwitch == (extras.reminder != Some(false))
        && saveButtonText == "Update Item"
      ensures expectedDaysField == old(expectedDaysField)
    {
      SetupSaveButton();
      CheckIfEditing(extras);
    }

    /** A click of the save button under whichever listener it holds. */
    method ClickSave(clockNow: int) returns (outcome: Option<ClickOutcome>)
      ensures saveListener == None ==> outcome == None
      ensures saveListener.Some? ==> outcome == Some(SaveClick(saveListener.value, Form(), clockNow))
    {
      if saveListener == None {
        outcome := None;
      } else {
        outcome := Some(SaveClick(saveListener.value, Form(), clockNow));
      }
    }
  }

  /**
   * What `checkIfEditing()` does to the button's listener: with an edit id
   * it installs the update listener, without one it leaves `current`.
   */
  function AfterCheckIfEditing(editItemId: Int32, current: Option<SaveAction>): Option<SaveAction> {
    if editItemId == NO_EDIT_ITEM then current else Some(UpdateExisting(editItemId))
  }

  /**
   * What `setupSaveButton()` does to it: `setOnClickListener` keeps only the
   * last listener, so the insert listener replaces `current`.
   */
  function AfterSetupSaveButton(current: Option<SaveAction>): Option<SaveAction> {
    Some(InsertNew)
  }

  /**
   * The listener `onCreate` as written leaves on a fresh button: that of
   * `checkIfEditing()` followed by `setupSaveButton()`. It is the insert
   * listener, whatever the edit id.
   */
  function ListenerAsWritten(editItemId: Int32): (action: SaveAction)
    ensures action == InsertNew
  {
    AfterSetupSaveButton(AfterCheckIfEditing(editItemId, None)).value
  }

  /**
   * The listener left by the two calls in the other order: the update
   * listener for an edit, the insert listener otherwise.
   */
  function ListenerIntended(editItemId: Int32): (action: SaveAction)
    ensures editItemId == NO_EDIT_ITEM <==> action == InsertNew
    ensures editItemId != NO_EDIT_ITEM ==> RecordId(action) == editItemId
  {
    AfterCheckIfEditing(editItemId, AfterSetupSaveButton(None)).value
  }

  /**
   * As written, saving an edit of item 5 inserts a new record with the
   * auto-generated id instead of updating row 5: the store then holds the
   * old row and a copy.
   */
  lemma EditAsWrittenInsertsCopy(form: FormInput, clockNow: int)
    requires BuildItem(5, form, clockNow).Ok?
    ensures BuildItem(AUTO_GENERATE_ID, form, clockNow).Ok?
    ensures SaveClick(ListenerAsWritten(5), form, clockNow)
              == Saved(InsertItem(BuildItem(AUTO_GENERATE_ID, form, clockNow).value), "Item added successfully!")
    ensures BuildItem(AUTO_GENERATE_ID, form, clockNow).value.id != 5
  {
  }

  /**
   * With the intended listener an edit saves as an update of the edited row,
   * and a new item as an insert: a click never leaves a second copy.
   */
  lemma IntendedListenerSavesInPlace(editItemId: Int32, form: FormInput, clockNow: int)
    requires BuildItem(RecordId(ListenerIntended(editItemId)), form, clockNow).Ok?
    ensures var o := SaveClick(ListenerIntended(editItemId), form, clockNow);
      && o.Saved?
      && (editItemId != NO_EDIT_ITEM ==> o.command.UpdateItem? && o.command.item.id == editItemId)
      && (editItemId == NO_EDIT_ITEM ==> o.command.InsertItem? && o.command.item.id == AUTO_GENERATE_ID)
  {
    SaveClickCases(ListenerIntended(editItemId), form, clockNow);
  }
}
