/** The transactions a listener class holds. */
module TransactionTable {

  /** The part of a table that matters: the ids it holds. */
  class Table {
    var live: set<string>

    constructor ()
      ensures live == {}
    {
      live := {};
    }
  }
}
