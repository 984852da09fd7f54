/**
 * The transactions page state: the transaction list, whether the form is
 * open and the transaction being edited, as the handlers update them after
 * the server confirms a change.
 */
module TransactionsPage {
  import opened Wrappers
  import opened Domain
  import opened Sequences
  import opened ListEdits
  import DbOperations

  function TransactionId(t: Transaction): Option<string>
  {
    t.id
  }

  /** The page's state. */
  class TransactionsPage {
    var transactions: seq<Transaction>
    var showForm: bool
    var editing: Option<Transaction>

    constructor ()
      ensures transactions == [] && !showForm && editing == None
    {
      transactions := [];
      showForm := false;
      editing := None;
    }

    /** A created transaction goes to the front of the list, ahead of the old list in order, and the form closes. */
    method AddTransaction(created: Transaction)
      modifies this
      ensures transactions == [created] + old(transactions)
      ensures |transactions| == |old(transactions)| + 1
      ensures transactions[1..] == old(transactions)
      ensures !showForm && editing == old(editing)
    {
      transactions := [created] + transactions;
      showForm := false;
    }

    /**
     * The server's answer to an edit. `edited` is the transaction being
     * edited when the form was submitted, which the handler keeps across
     * the request: the entries carrying its id are replaced by `updated`,
     * then the edit is cleared and the form closed, whatever the user did
     * while the request was in flight. Nothing happens when no transaction
     * was being edited at submission.
     */
    method EditTransaction(edited: Option<Transaction>, updated: Transaction)
      modifies this
      ensures edited.None? ==> transactions == old(transactions) && showForm == old(showForm) && editing == old(editing)
      ensures edited.Some? ==>
        && transactions == ReplaceById(old(transactions), TransactionId, edited.value.id, updated)
        && !showForm && editing == None
    {
      if edited.None? {
        return;
      }
      transactions := ReplaceById(transactions, TransactionId, edited.value.id, updated);
      editing := None;
      showForm := false;
    }

    /** A deleted transaction leaves the list; the rest keep their order. */
    method DeleteTransaction(id: string)
      modifies this
      ensures transactions == RemoveById(old(transactions), TransactionId, id)
      ensures showForm == old(showForm) && editing == old(editing)
    {
      transactions := RemoveById(transactions, TransactionId, id);
    }

    /** Open the form on an existing transaction. */
    method HandleEdit(t: Transaction)
      modifies this
      ensures editing == Some(t) && showForm && transactions == old(transactions)
    {
      editing := Some(t);
      showForm := true;
    }

    /** Open the form for a new transaction. */
    method HandleAdd()
      modifies this
      ensures editing == None && showForm && transactions == old(transactions)
    {
      editing := None;
      showForm := true;
    }

    /** Close the form and forget the edit. */
    method HandleCloseForm()
      modifies this
      ensures !showForm && editing == None && transactions == old(transactions)
    {
      showForm := false;
      editing := None;
    }
  }

  /** Adding then deleting the new transaction's id gives back the old list, when no old entry carried that id. */
  lemma AddThenDelete(ts: seq<Transaction>, created: Transaction, id: string)
    requires created.id == Some(id)
    requires forall i :: 0 <= i < |ts| ==> ts[i].id != Some(id)
    ensures RemoveById([created] + ts, TransactionId, id) == ts
  {
    assert ([created] + ts)[1..] == ts;
    RemoveAbsentId(ts, TransactionId, id);
  }

  /** An edit with the server's answer to the update keeps every entry's id, since that answer carries the edited id. */
  lemma EditKeepsIds(ts: seq<Transaction>, id: string, data: Transaction)
    ensures forall i :: 0 <= i < |ts| ==>
      ReplaceById(ts, TransactionId, Some(id), DbOperations.UpdateTransaction(id, data))[i].id == ts[i].id
  {
    ReplaceKeepsIds(ts, TransactionId, Some(id), DbOperations.UpdateTransaction(id, data));
  }
}
