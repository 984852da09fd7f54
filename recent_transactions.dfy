/**
 * The dashboard's recent-transactions card: the first five transactions of
 * the list it is given, or an empty-state message when there are none.
 */
module RecentTransactions {
  import opened Domain
  import DbOperations

  /** How many transactions the card shows at most. */
  const RecentCount: nat := 5

  /** The first five transactions (all of them when there are fewer), in list order. */
  function Recent(ts: seq<Transaction>): (r: seq<Transaction>)
    ensures |r| == if |ts| < RecentCount then |ts| else RecentCount
    ensures r <= ts
  {
    if |ts| < RecentCount then ts else ts[..RecentCount]
  }

  /** The card shows its empty-state message exactly when there are no transactions. */
  predicate ShowsEmptyState(ts: seq<Transaction>)
  {
    |Recent(ts)| == 0
  }

  lemma EmptyStateIffNoTransactions(ts: seq<Transaction>)
    ensures ShowsEmptyState(ts) <==> ts == []
  {
  }

  /**
   * The card does not sort: when the list arrives newest first, every
   * transaction shown is at least as new as every one left out.
   */
  lemma ShownAreNewest(ts: seq<Transaction>, i: nat, j: nat)
    requires NewestFirst(ts)
    requires i < |Recent(ts)| && |Recent(ts)| <= j < |ts|
    ensures Recent(ts)[i].date.time >= ts[j].date.time
  {
  }

  /** The card's selection is itself in newest-first order when its input is. */
  lemma RecentKeepsOrder(ts: seq<Transaction>)
    requires NewestFirst(ts)
    ensures NewestFirst(Recent(ts))
  {
  }

  /**
   * Fed the store's newest-first list, as the dashboard is, the card shows
   * the five newest transactions: none left out is newer than one shown.
   */
  lemma StoredListShowsNewest(docs: seq<DbOperations.Document>, i: nat, j: nat)
    requires i < |Recent(DbOperations.AllTransactions(docs))| <= j < |docs|
    ensures Recent(DbOperations.AllTransactions(docs))[i].date.time >= DbOperations.AllTransactions(docs)[j].date.time
  {
    ShownAreNewest(DbOperations.AllTransactions(docs), i, j);
  }
}
