/**
 * The `GroceryItem` record (one row of the `grocery_items` table). Kotlin's
 * `data class` with `val` fields is an immutable value with structural
 * equality over all seven fields, exactly a Dafny datatype.
 */
module GroceryModel {
  import opened Wrappers
  import opened CivilTime

  /** The primary key value that asks the store to generate a fresh id. */
  const AUTO_GENERATE_ID: Int32 := 0

  datatype GroceryItem = GroceryItem(
    id: Int32,
    name: string,
    quantity: string,
    expiryDate: Option<string>,     // "dd/MM/yyyy", or null
    expectedDays: Option<Int32>,    // expected duration in days, or null
    addedDate: int,                 // epoch milliseconds, set at creation
    reminderEnabled: bool
  )

  /**
   * `GroceryItem(name = …, quantity = …)` with every other field left to its
   * default; `clockNow` is `System.currentTimeMillis()` at construction.
   */
  function NewGroceryItem(name: string, quantity: string, clockNow: int): (item: GroceryItem)
    ensures item.id == AUTO_GENERATE_ID
    ensures item.name == name && item.quantity == quantity
    ensures item.expiryDate == None && item.expectedDays == None
    ensures item.addedDate == clockNow
    ensures item.reminderEnabled
  {
    GroceryItem(AUTO_GENERATE_ID, name, quantity, None, None, clockNow, true)
  }

  /** Data-class equality: two records are equal exactly when all seven fields are. */
  lemma StructuralEquality(a: GroceryItem, b: GroceryItem)
    ensures a == b <==>
      a.id == b.id && a.name == b.name && a.quantity == b.quantity
      && a.expiryDate == b.expiryDate && a.expectedDays == b.expectedDays
      && a.addedDate == b.addedDate && a.reminderEnabled == b.reminderEnabled
  {
  }
}
