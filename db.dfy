/**
 * The relational store as abstract state: one row datatype per table the
 * core reads or writes, and a table object whose rows the routes reassign,
 * one SQL statement at a time. Row order is insertion order; `rows[0]` of a
 * query is the first selected row in that order.
 */
module Db {
  import opened Wrappers
  import opened Seqs

  /** A row of `users`. `id` is the AUTO_INCREMENT key; `password` is the stored hash. */
  datatype UserRow = UserRow(
    id: nat,
    name: string,
    email: string,
    password: string,
    role: string,
    address: Option<string>,
    city: Option<string>,
    state: Option<string>,
    zip: Option<string>)

  /** A row of `password_reset_tokens`; `expiresAt` is in seconds. */
  datatype TokenRow = TokenRow(userId: nat, token: string, expiresAt: int)

  /** A row of `payments`; amounts are in cents. */
  datatype PaymentRow = PaymentRow(
    customerId: string,
    parcelId: Option<string>,
    amountDue: int,
    amountPaid: int,
    balance: Option<int>,
    date: string,
    paidDate: Option<string>,
    payMethod: string,
    status: string)

  /** A row of `properties`; every column after `parcelId` is nullable. */
  datatype PropertyRow = PropertyRow(
    id: nat,
    status: string,
    parcelId: string,
    ppin: Option<string>,
    lotSize: Option<string>,
    lotSf: Option<string>,
    lotAcres: Option<string>,
    streetNumber: Option<string>,
    streetName: Option<string>,
    crossStreets: Option<string>,
    city: Option<string>,
    state: Option<string>,
    zip: Option<string>,
    county: Option<string>,
    gpsCoordinates: Option<string>,
    googleMapsLink: Option<string>)

  /** A row of `property_users`, the assignment of a property to a user. */
  datatype AssignmentRow = AssignmentRow(propertyId: nat, userId: string)

  /** A row of `documents`; `uploaded_at` is set by the database. */
  datatype DocumentRow = DocumentRow(userId: string, fileUrl: string)

  /** A prepared statement: SQL text and its positional parameters. */
  datatype Statement = Statement(sql: string, params: seq<string>)

  /** A listing request: either it is refused, or this statement runs. */
  datatype Listing = Refused(reply: Reply) | Runs(statement: Statement)

  /** A table: the rows it currently holds. */
  class Table<T> {
    var rows: seq<T>

    constructor (initial: seq<T>)
      ensures rows == initial
    {
      rows := initial;
    }

    /** `INSERT INTO ... VALUES (...)`: the new row goes after the existing ones. */
    method Insert(row: T)
      modifies this
      ensures rows == old(rows) + [row]
    {
      rows := rows + [row];
    }

    /** `DELETE FROM ... WHERE c`, given the rows to keep, `!c`: the survivors keep their order. */
    method Retain(keep: T -> bool)
      modifies this
      ensures rows == Filter(old(rows), keep)
    {
      rows := Filter(rows, keep);
    }

    /** `UPDATE ... SET ... WHERE ...`, as the new value of every row (unselected rows map to themselves). */
    method Update(f: T -> T)
      modifies this
      ensures rows == Map(old(rows), f)
    {
      rows := Map(rows, f);
    }
  }
}
