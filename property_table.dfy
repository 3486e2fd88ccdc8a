/**
 * The admin property table's client state: the list it shows, and the
 * delete action that drops a row once the server confirms. The `fetch`
 * call's result is the parameter `ok`; `confirm`, toasts and the router
 * refresh are not modelled.
 */
module PropertyTableModel {
  import opened Seqs
  import opened PropertyDisplay

  /** One row of the table as the page's query returns it. */
  datatype ListedProperty = ListedProperty(id: string, status: string, parcelId: string, address: Address)

  function IdIsNot(id: string): ListedProperty -> bool {
    (p: ListedProperty) => p.id != id
  }

  class PropertyTable {
    var properties: seq<ListedProperty>

    /** `useState(initialProperties)`. */
    constructor (initial: seq<ListedProperty>)
      ensures properties == initial
    {
      properties := initial;
    }

    /**
     * `handleDelete` after the user confirms: on a successful `DELETE` the
     * rows with this id are filtered out; on a failed one (a non-OK
     * response or a throw) the list stays as it was.
     */
    method HandleDelete(id: string, ok: bool)
      modifies this
      ensures ok ==> properties == Filter(old(properties), IdIsNot(id))
      ensures !ok ==> properties == old(properties)
    {
      if ok {
        properties := Filter(properties, IdIsNot(id));
      }
    }
  }

  /**
   * A successful delete removes exactly the rows with that id: none is
   * left, every other row stays, and the survivors keep their order.
   */
  lemma DeleteRemovesExactly(rows: seq<ListedProperty>, id: string)
    ensures var after := Filter(rows, IdIsNot(id));
            && (forall i :: 0 <= i < |after| ==> after[i].id != id && after[i] in rows)
            && (forall i :: 0 <= i < |rows| && rows[i].id != id ==> rows[i] in after)
  {
  }

  /** Deleting a row by id keeps the others in order: the rows before and after it are untouched. */
  lemma {:induction false} DeleteKeepsOrder(before: seq<ListedProperty>, p: ListedProperty, after: seq<ListedProperty>)
    requires forall i :: 0 <= i < |before| ==> before[i].id != p.id
    requires forall i :: 0 <= i < |after| ==> after[i].id != p.id
    ensures Filter(before + [p] + after, IdIsNot(p.id)) == before + after
  {
    var keep := IdIsNot(p.id);
    FilterAppend(before + [p], after, keep);
    FilterAppend(before, [p], keep);
    FilterKeepsAll(before, keep);
    FilterKeepsAll(after, keep);
    FilterNone([p], keep);
    assert Filter(before + [p], keep) == before + [];
    assert before + [] == before;
  }

  /** Deleting the same id twice is deleting it once. */
  lemma DeleteTwice(rows: seq<ListedProperty>, id: string)
    ensures Filter(Filter(rows, IdIsNot(id)), IdIsNot(id)) == Filter(rows, IdIsNot(id))
  {
    FilterKeepsAll(Filter(rows, IdIsNot(id)), IdIsNot(id));
  }
}
