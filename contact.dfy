/** The data model of the identity resolver: the Contact row, the identify
    request and response, and the contents of the contact table. */
module Contacts {

  datatype Option<+T> = None | Some(value: T)

  /** The one error the resolver reports itself: neither identifier given. */
  datatype Error = InvalidRequest

  datatype Result<+T> = Success(value: T) | Failure(error: Error)

  datatype Precedence = Primary | Secondary

  /** One row of the contact table. `deleted` stands for a non-null
      `deletedAt`; `createdAt` is not a field: a row's position in the
      table (equivalently its id) is its creation order. */
  datatype Contact = Contact(
    id: nat,
    email: Option<string>,
    phoneNumber: Option<string>,
    linkPrecedence: Precedence,
    linkedId: Option<nat>,
    deleted: bool)

  /** An identify request; the empty string stands for an absent or empty field. */
  datatype Request = Request(email: string, phoneNumber: string)

  /** The `contact` object of the identify response. */
  datatype ClusterView = ClusterView(
    primaryContactId: nat,
    emails: seq<string>,
    phoneNumbers: seq<string>,
    secondaryContactIds: seq<nat>)

  /** The contents of the contact table: its rows in creation order and the
      id the next created row receives. */
  datatype Db = Db(rows: seq<Contact>, nextId: nat)

  /** A request field as the store receives it: `value || null`. */
  function OrNull(s: string): (r: Option<string>)
    ensures r == None <==> s == ""
    ensures r.Some? ==> r.value == s
  {
    if s == "" then None else Some(s)
  }

  /** A request field as the new-primary response lists it: `value ? [value] : []`. */
  function AsList(s: string): (r: seq<string>)
    ensures s == "" ==> r == []
    ensures s != "" ==> r == [s]
  {
    if s == "" then [] else [s]
  }

  predicate IsLive(c: Contact) {
    !c.deleted
  }

  /** Row ids strictly increase along the sequence: creation order is id order. */
  predicate Increasing(rows: seq<Contact>) {
    forall i, j :: 0 <= i < j < |rows| ==> rows[i].id < rows[j].id
  }

  /** The consistency the resolver keeps in the contact table:
      - ids increase with creation order and stay below `nextId`;
      - a row is primary exactly when it has no `linkedId`;
      - a `linkedId` names an older row of the table;
      - no stored identifier is the empty string (the store receives `value || null`). */
  predicate WellFormed(db: Db) {
    && Increasing(db.rows)
    && (forall i :: 0 <= i < |db.rows| ==> db.rows[i].id < db.nextId)
    && (forall i :: 0 <= i < |db.rows| ==>
          (db.rows[i].linkPrecedence == Primary <==> db.rows[i].linkedId == None))
    && (forall i :: 0 <= i < |db.rows| && db.rows[i].linkedId.Some? ==>
          exists j :: 0 <= j < i && db.rows[j].id == db.rows[i].linkedId.value)
    && (forall i :: 0 <= i < |db.rows| ==>
          db.rows[i].email != Some("") && db.rows[i].phoneNumber != Some(""))
  }

  /** In an increasing sequence a row is determined by its id. */
  lemma IdsIdentifyRows(rows: seq<Contact>, i: nat, j: nat)
    requires Increasing(rows)
    requires i < |rows| && j < |rows|
    requires rows[i].id == rows[j].id
    ensures i == j
  {
  }
}
