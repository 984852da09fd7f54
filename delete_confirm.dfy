/**
 * The two-click delete confirmation shared by the budget and transaction
 * tables: the first click on a row arms it, a second click on the same row
 * deletes it, a click on another row re-arms that row instead.
 */
module DeleteConfirm {
  import opened Wrappers

  /** What a click leaves behind: the armed row (if any) and the row deleted (if any). */
  datatype Click = Click(pending: Option<string>, deleted: Option<string>)

  /** The effect of clicking the delete button of row `id` while `pending` is armed. */
  function OnDeleteClick(pending: Option<string>, id: string): (c: Click)
    ensures c.deleted.Some? <==> pending == Some(id)
    ensures c.deleted.Some? ==> c.deleted == Some(id) && c.pending == None
    ensures c.deleted.None? ==> c.pending == Some(id)
  {
    if pending == Some(id) then Click(None, Some(id)) else Click(Some(id), None)
  }

  /** Deleting takes two clicks on the same row: the first only arms it, the second deletes it and disarms. */
  lemma TwoClicksDelete(pending: Option<string>, id: string)
    requires pending != Some(id)
    ensures OnDeleteClick(pending, id) == Click(Some(id), None)
    ensures OnDeleteClick(OnDeleteClick(pending, id).pending, id) == Click(None, Some(id))
  {
  }

  /** A click on another row while one is armed switches the armed row and deletes nothing. */
  lemma OtherRowSwitches(armed: string, id: string)
    requires armed != id
    ensures OnDeleteClick(Some(armed), id) == Click(Some(id), None)
  {
  }
}
