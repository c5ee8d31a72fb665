/** The store queries and the in-memory decisions of `identifyContact`:
    the match query, the choice of the primary, the new-information check,
    the demotion targets and the cluster re-read. */
module Queries {
  import opened Contacts

  /** The rows satisfying `keep`, in table order (a `findMany` filter). */
  function Where(rows: seq<Contact>, keep: Contact -> bool): (r: seq<Contact>)
    ensures |r| <= |rows|
    ensures forall c :: c in r <==> c in rows && keep(c)
    ensures Increasing(rows) ==> Increasing(r)
    decreases |rows|
  {
    if rows == [] then []
    else
      var init := Where(rows[..|rows| - 1], keep);
      var last := rows[|rows| - 1];
      PrefixPrecedesLast(rows);
      if keep(last) then init + [last] else init
  }

  /** In an increasing sequence every row before the last is older than it. */
  lemma PrefixPrecedesLast(rows: seq<Contact>)
    requires rows != []
    ensures Increasing(rows) ==> Increasing(rows[..|rows| - 1])
    ensures Increasing(rows) ==> forall c :: c in rows[..|rows| - 1] ==> c.id < rows[|rows| - 1].id
  {
  }

  /** Filtering an extended table extends the filtered result. */
  lemma WhereAppend(rows: seq<Contact>, c: Contact, keep: Contact -> bool)
    ensures Where(rows + [c], keep) == Where(rows, keep) + (if keep(c) then [c] else [])
  {
    assert (rows + [c])[..|rows + [c]| - 1] == rows;
  }

  /** The match condition of lines 30-41: live, and the email equals the
      supplied non-empty email or the phone equals the supplied non-empty phone. */
  predicate MatchesRequest(c: Contact, email: string, phoneNumber: string) {
    && IsLive(c)
    && ((email != "" && c.email == Some(email))
        || (phoneNumber != "" && c.phoneNumber == Some(phoneNumber)))
  }

  /** The match query, ordered by creation. */
  function Matches(rows: seq<Contact>, email: string, phoneNumber: string): seq<Contact> {
    Where(rows, c => MatchesRequest(c, email, phoneNumber))
  }

  /** The re-read condition of lines 102-110: live, and the row is the primary
      or links to it. */
  predicate InCluster(c: Contact, primaryId: nat) {
    IsLive(c) && (c.id == primaryId || c.linkedId == Some(primaryId))
  }

  /** The cluster re-read, in table order. */
  function Cluster(rows: seq<Contact>, primaryId: nat): seq<Contact> {
    Where(rows, c => InCluster(c, primaryId))
  }

  /** `found.find(c => c.linkPrecedence === 'primary')`, as an index. */
  function FirstPrimary(found: seq<Contact>): (r: Option<nat>)
    ensures r.Some? ==> r.value < |found| && found[r.value].linkPrecedence == Primary
    ensures r.Some? ==> forall k :: 0 <= k < r.value ==> found[k].linkPrecedence == Secondary
    ensures r.None? ==> forall k :: 0 <= k < |found| ==> found[k].linkPrecedence == Secondary
  {
    if found == [] then None
    else if found[0].linkPrecedence == Primary then Some(0)
    else
      var rest := FirstPrimary(found[1..]);
      var n := if rest.None? then |found| else rest.value + 1;
      assert forall k :: 0 <= k < n ==> found[k].linkPrecedence == Secondary by {
        forall k | 0 < k < n ensures found[k].linkPrecedence == Secondary {
          assert found[k] == found[1..][k - 1];
        }
      }
      if rest.None? then None
      else
        assert found[rest.value + 1] == found[1..][rest.value];
        Some(rest.value + 1)
  }

  /** Position `i` is where line 64 finds the primary: no primary before it,
      and it is a primary unless there is none, in which case it is the first. */
  predicate PrimaryPosition(found: seq<Contact>, i: nat) {
    && i < |found|
    && (forall k :: 0 <= k < i ==> found[k].linkPrecedence == Secondary)
    && (found[i].linkPrecedence == Secondary ==>
          i == 0 && forall k :: 0 <= k < |found| ==> found[k].linkPrecedence == Secondary)
  }

  /** The primary of line 64: the first matched primary, else the first match. */
  function ChoosePrimary(found: seq<Contact>): (p: Contact)
    requires found != []
    ensures p in found
    ensures exists i: nat :: PrimaryPosition(found, i) && p == found[i]
  {
    match FirstPrimary(found)
    case Some(i) => found[i]
    case None => found[0]
  }

  /** When the matches are in creation order, every other matched primary is
      younger than the chosen primary. */
  lemma {:induction false} ChosenPrimaryIsOldest(found: seq<Contact>, c: Contact)
    requires found != [] && Increasing(found)
    requires c in found && c.linkPrecedence == Primary
    ensures ChoosePrimary(found).linkPrecedence == Primary
    ensures ChoosePrimary(found).id <= c.id
  {
    var p := ChoosePrimary(found);
    var i: nat :| PrimaryPosition(found, i) && p == found[i];
    var k :| 0 <= k < |found| && found[k] == c;
    assert i <= k;
  }

  /** The new-information check of lines 67-68. */
  predicate HasNewInfo(found: seq<Contact>, email: string, phoneNumber: string) {
    || (email != "" && !(exists c :: c in found && c.email == Some(email)))
    || (phoneNumber != "" && !(exists c :: c in found && c.phoneNumber == Some(phoneNumber)))
  }

  /** The rows of lines 82-85 that the bulk update demotes. */
  function DemotionTargets(found: seq<Contact>, primaryId: nat): seq<Contact> {
    Where(found, (c: Contact) => c.id != primaryId && c.linkPrecedence == Primary)
  }

  /** `contactsToUpdate.map(c => c.id)`. */
  function Ids(rows: seq<Contact>): (r: seq<nat>)
    ensures |r| == |rows|
    ensures forall i :: 0 <= i < |rows| ==> r[i] == rows[i].id
  {
    seq(|rows|, i requires 0 <= i < |rows| => rows[i].id)
  }

  /** One row after the update of lines 94-97. */
  function DemoteRow(c: Contact, ids: seq<nat>, linkedId: nat): Contact {
    if c.id in ids then c.(linkPrecedence := Secondary, linkedId := Some(linkedId)) else c
  }

  /** The table after `updateMany` on lines 88-98: every row whose id is listed
      becomes a secondary linked to `linkedId`. */
  function Demote(rows: seq<Contact>, ids: seq<nat>, linkedId: nat): (r: seq<Contact>)
    ensures |r| == |rows|
  {
    seq(|rows|, i requires 0 <= i < |rows| => DemoteRow(rows[i], ids, linkedId))
  }
}
