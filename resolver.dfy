/** `identifyContact` (src/services/contact.ts:20-151) as a function from the
    contact table and a request to the new table and the response, and the
    properties it has. `ContactStore.Store.Identify` runs the same steps on
    the store and is proved equal to it. */
module Resolver {
  import opened Contacts
  import opened Queries
  import opened Response

  /** Line 25: at least one identifier is a non-empty string. */
  predicate IsValid(req: Request) {
    req.email != "" || req.phoneNumber != ""
  }

  /** The row that `contact.create` receives on lines 45-51 and 71-78. */
  function NewContact(id: nat, req: Request, precedence: Precedence, linkedId: Option<nat>): Contact {
    Contact(id, OrNull(req.email), OrNull(req.phoneNumber), precedence, linkedId, false)
  }

  /** The match query of lines 30-41 on the table. */
  function Found(db: Db, req: Request): seq<Contact> {
    Matches(db.rows, req.email, req.phoneNumber)
  }

  /** A row demoted by lines 82-99: a matched primary other than the chosen one. */
  predicate IsDemoted(c: Contact, req: Request, primaryId: nat) {
    MatchesRequest(c, req.email, req.phoneNumber) && c.id != primaryId && c.linkPrecedence == Primary
  }

  function Demoted(c: Contact, primaryId: nat): Contact {
    c.(linkPrecedence := Secondary, linkedId := Some(primaryId))
  }

  /** Lines 67-79: the table after the new-information check, with the new
      secondary linked to `primary` appended when the request brings new information. */
  function Created(db: Db, req: Request, found: seq<Contact>, primary: Contact): Db {
    if HasNewInfo(found, req.email, req.phoneNumber)
    then Db(db.rows + [NewContact(db.nextId, req, Secondary, Some(primary.id))], db.nextId + 1)
    else db
  }

  /** Lines 82-99: the table after the bulk demotion (skipped when no row is due). */
  function Merged(db: Db, found: seq<Contact>, primary: Contact): Db {
    var targets := DemotionTargets(found, primary.id);
    if |targets| > 0 then Db(Demote(db.rows, Ids(targets), primary.id), db.nextId) else db
  }

  /** The table after a call whose match query found something. */
  function AfterMatch(db: Db, req: Request): Db
    requires Found(db, req) != []
  {
    var found := Found(db, req);
    var p := ChoosePrimary(found);
    Merged(Created(db, req, found, p), found, p)
  }

  /** One identify call: the new table and the response. */
  function Resolve(db: Db, req: Request): (Db, Result<ClusterView>) {
    if !IsValid(req) then (db, Failure(InvalidRequest))
    else if Found(db, req) == [] then
      var c := NewContact(db.nextId, req, Primary, None);
      (Db(db.rows + [c], db.nextId + 1),
       Success(ClusterView(c.id, AsList(req.email), AsList(req.phoneNumber), [])))
    else
      var p := ChoosePrimary(Found(db, req));
      var after := AfterMatch(db, req);
      (after, Success(Respond(p, Cluster(after.rows, p.id))))
  }

  // ---------------------------------------------------------------------------
  // Validation and the first contact

  /** Lines 25-27: a request without identifiers fails and leaves the table as it was;
      every other request succeeds. */
  lemma InvalidRequestFails(db: Db, req: Request)
    ensures Resolve(db, req).1.Failure? <==> !IsValid(req)
    ensures !IsValid(req) ==> Resolve(db, req) == (db, Failure(InvalidRequest))
  {
  }

  /** Lines 44-60: with no match, exactly one primary is created from the request
      and the response lists just the request's identifiers. */
  lemma UnmatchedRequestCreatesPrimary(db: Db, req: Request)
    requires IsValid(req) && Found(db, req) == []
    ensures Resolve(db, req).0 ==
      Db(db.rows + [Contact(db.nextId, OrNull(req.email), OrNull(req.phoneNumber), Primary, None, false)],
         db.nextId + 1)
    ensures Resolve(db, req).1 ==
      Success(ClusterView(db.nextId, AsList(req.email), AsList(req.phoneNumber), []))
  {
  }

  /** The match query finds no row exactly when no live row carries either
      supplied identifier. */
  lemma {:induction false} NothingFoundIffUnknown(db: Db, req: Request)
    ensures Found(db, req) == [] <==>
      forall c :: c in db.rows && IsLive(c) ==>
        (req.email == "" || c.email != Some(req.email)) &&
        (req.phoneNumber == "" || c.phoneNumber != Some(req.phoneNumber))
  {
    var found := Found(db, req);
    if found != [] {
      assert found[0] in found;
    }
  }

  // ---------------------------------------------------------------------------
  // The table after a matched call

  /** `id in Ids(rows)` names a row of `rows`. */
  lemma IdsMembership(rows: seq<Contact>)
    ensures forall id :: id in Ids(rows) <==> exists c :: c in rows && c.id == id
  {
    forall id ensures id in Ids(rows) <==> exists c :: c in rows && c.id == id {
      if id in Ids(rows) {
        var k :| 0 <= k < |rows| && Ids(rows)[k] == id;
        assert rows[k] in rows;
      }
      if exists c :: c in rows && c.id == id {
        var c :| c in rows && c.id == id;
        var k :| 0 <= k < |rows| && rows[k] == c;
        assert Ids(rows)[k] == id;
      }
    }
  }

  /** The ids the bulk update receives are those of the rows to demote. */
  lemma {:induction false} TargetIds(db: Db, req: Request, p: Contact)
    requires Increasing(db.rows)
    ensures forall i :: 0 <= i < |db.rows| ==>
      (db.rows[i].id in Ids(DemotionTargets(Found(db, req), p.id)) <==> IsDemoted(db.rows[i], req, p.id))
    ensures forall id :: id in Ids(DemotionTargets(Found(db, req), p.id)) ==>
      exists c :: c in db.rows && c.id == id
  {
    var found := Found(db, req);
    var targets := DemotionTargets(found, p.id);
    IdsMembership(targets);
    forall i | 0 <= i < |db.rows|
      ensures db.rows[i].id in Ids(targets) <==> IsDemoted(db.rows[i], req, p.id)
    {
      if db.rows[i].id in Ids(targets) {
        var t :| t in targets && t.id == db.rows[i].id;
        var j :| 0 <= j < |db.rows| && db.rows[j] == t;
        IdsIdentifyRows(db.rows, i, j);
      }
      if IsDemoted(db.rows[i], req, p.id) {
        assert db.rows[i] in found;
        assert db.rows[i] in targets;
      }
    }
  }

  /** `after` is the table `db` after a matched call that chose `p` and that
      appended a new secondary exactly when `created`: every old row keeps its
      place and changes only if it is demoted; nothing else is appended. */
  predicate RowsAfterMatch(db: Db, req: Request, p: Contact, created: bool, after: Db) {
    && |after.rows| == |db.rows| + (if created then 1 else 0)
    && after.nextId == db.nextId + (if created then 1 else 0)
    && (forall i :: 0 <= i < |db.rows| ==>
          after.rows[i] == if IsDemoted(db.rows[i], req, p.id) then Demoted(db.rows[i], p.id) else db.rows[i])
    && (created ==> after.rows[|db.rows|] == NewContact(db.nextId, req, Secondary, Some(p.id)))
  }

  /** Lines 67-99, row by row: a matched call demotes the matched primaries other
      than the chosen one to secondaries linked to it, changes no other row, and
      appends at most the new secondary. */
  lemma {:induction false} MatchedCallRows(db: Db, req: Request)
    requires WellFormed(db) && IsValid(req) && Found(db, req) != []
    ensures RowsAfterMatch(db, req, ChoosePrimary(Found(db, req)),
      HasNewInfo(Found(db, req), req.email, req.phoneNumber), AfterMatch(db, req))
  {
    var found := Found(db, req);
    var p := ChoosePrimary(found);
    var db1 := Created(db, req, found, p);
    var targets := DemotionTargets(found, p.id);
    var after := AfterMatch(db, req);
    assert after == Merged(db1, found, p);
    TargetIds(db, req, p);
    if |targets| > 0 {
      var ids := Ids(targets);
      assert after.rows == Demote(db1.rows, ids, p.id);
      if |db1.rows| > |db.rows| {
        assert db1.rows[|db.rows|].id !in ids;
      }
    } else {
      forall i | 0 <= i < |db.rows| ensures !IsDemoted(db.rows[i], req, p.id) {
      }
    }
  }

  /** Lines 64 and 82-99: a demoted row is younger than the primary that survives. */
  lemma DemotedAreYounger(db: Db, req: Request, c: Contact)
    requires WellFormed(db) && IsValid(req) && Found(db, req) != []
    requires c in db.rows && IsDemoted(c, req, ChoosePrimary(Found(db, req)).id)
    ensures ChoosePrimary(Found(db, req)).linkPrecedence == Primary
    ensures ChoosePrimary(Found(db, req)).id < c.id
  {
    assert c in Found(db, req);
    ChosenPrimaryIsOldest(Found(db, req), c);
  }

  /** Lines 67-79: a secondary is created exactly when the request carries an
      identifier that no live row of the table has; it is linked to the chosen
      primary and carries the request's identifiers as given. */
  lemma {:induction false} SecondaryCreatedIffNewIdentifier(db: Db, req: Request)
    requires WellFormed(db) && IsValid(req) && Found(db, req) != []
    ensures var after := AfterMatch(db, req);
      |after.rows| == |db.rows| + 1 <==>
        || (req.email != "" && forall c :: c in db.rows && IsLive(c) ==> c.email != Some(req.email))
        || (req.phoneNumber != "" &&
              forall c :: c in db.rows && IsLive(c) ==> c.phoneNumber != Some(req.phoneNumber))
    ensures var after := AfterMatch(db, req);
      |after.rows| == |db.rows| + 1 ==>
        after.rows[|db.rows|] ==
          Contact(db.nextId, OrNull(req.email), OrNull(req.phoneNumber),
                  Secondary, Some(ChoosePrimary(Found(db, req)).id), false)
    ensures |AfterMatch(db, req).rows| <= |db.rows| + 1
  {
    MatchedCallRows(db, req);
    var found := Found(db, req);
    var emailKnown := exists c :: c in found && c.email == Some(req.email);
    var phoneKnown := exists c :: c in found && c.phoneNumber == Some(req.phoneNumber);
    var emailLive := exists c :: c in db.rows && IsLive(c) && c.email == Some(req.email);
    var phoneLive := exists c :: c in db.rows && IsLive(c) && c.phoneNumber == Some(req.phoneNumber);
    if req.email != "" {
      if emailLive {
        var c :| c in db.rows && IsLive(c) && c.email == Some(req.email);
        assert c in found;
      }
      assert emailKnown <==> emailLive;
    }
    if req.phoneNumber != "" {
      if phoneLive {
        var c :| c in db.rows && IsLive(c) && c.phoneNumber == Some(req.phoneNumber);
        assert c in found;
      }
      assert phoneKnown <==> phoneLive;
    }
  }

  /** A request whose identifiers all occur on live rows creates nothing
      (in particular, repeating a known contact's email and phone). */
  lemma KnownIdentifiersCreateNothing(db: Db, req: Request)
    requires WellFormed(db) && IsValid(req)
    requires req.email == "" || exists c :: c in db.rows && IsLive(c) && c.email == Some(req.email)
    requires req.phoneNumber == "" ||
      exists c :: c in db.rows && IsLive(c) && c.phoneNumber == Some(req.phoneNumber)
    ensures Resolve(db, req).0.nextId == db.nextId
    ensures |Resolve(db, req).0.rows| == |db.rows|
  {
    NothingFoundIffUnknown(db, req);
    SecondaryCreatedIffNewIdentifier(db, req);
    MatchedCallRows(db, req);
  }

  // ---------------------------------------------------------------------------
  // The table stays well formed

  /** Every identify call keeps the table well formed: ids in creation order,
      links only on secondaries and only to older rows, no empty identifiers. */
  lemma {:induction false} ResolveKeepsWellFormed(db: Db, req: Request)
    requires WellFormed(db)
    ensures WellFormed(Resolve(db, req).0)
  {
    if IsValid(req) && Found(db, req) == [] {
      var after := Resolve(db, req).0;
      assert forall i :: 0 <= i < |db.rows| ==> after.rows[i] == db.rows[i];
    } else if IsValid(req) {
      MatchedRowsWellFormed(db, req);
    }
  }

  lemma {:induction false} MatchedRowsWellFormed(db: Db, req: Request)
    requires WellFormed(db) && IsValid(req) && Found(db, req) != []
    ensures WellFormed(AfterMatch(db, req))
  {
    MatchedCallRows(db, req);
    var p := ChoosePrimary(Found(db, req));
    forall i | 0 <= i < |db.rows| && IsDemoted(db.rows[i], req, p.id) ensures p.id < db.rows[i].id {
      DemotedAreYounger(db, req, db.rows[i]);
    }
    RowsAfterMatchWellFormed(db, req, p, HasNewInfo(Found(db, req), req.email, req.phoneNumber),
      AfterMatch(db, req));
  }

  /** Demoting only rows younger than an existing primary, and appending a
      secondary linked to it, keeps the table well formed. */
  lemma {:induction false} RowsAfterMatchWellFormed(db: Db, req: Request, p: Contact, created: bool, after: Db)
    requires WellFormed(db) && p in db.rows
    requires forall i :: 0 <= i < |db.rows| && IsDemoted(db.rows[i], req, p.id) ==> p.id < db.rows[i].id
    requires RowsAfterMatch(db, req, p, created, after)
    ensures WellFormed(after)
  {
    var n := |db.rows|;
    var pj :| 0 <= pj < n && db.rows[pj] == p;
    assert forall i :: 0 <= i < |after.rows| ==>
      after.rows[i].id == if i < n then db.rows[i].id else db.nextId;
    assert Increasing(after.rows);
    assert forall i :: 0 <= i < |after.rows| ==> after.rows[i].id < after.nextId;
    forall i | 0 <= i < |after.rows|
      ensures after.rows[i].linkPrecedence == Primary <==> after.rows[i].linkedId == None
      ensures after.rows[i].email != Some("") && after.rows[i].phoneNumber != Some("")
    {
      if i < n {
        assert db.rows[i].linkPrecedence == Primary <==> db.rows[i].linkedId == None;
        assert db.rows[i].email != Some("") && db.rows[i].phoneNumber != Some("");
      }
    }
    forall i | 0 <= i < |after.rows| && after.rows[i].linkedId.Some?
      ensures exists j :: 0 <= j < i && after.rows[j].id == after.rows[i].linkedId.value
    {
      if i == n {
        assert after.rows[pj].id == p.id;
      } else if IsDemoted(db.rows[i], req, p.id) {
        assert pj < i;
        assert after.rows[pj].id == p.id;
      } else {
        var j :| 0 <= j < i && db.rows[j].id == db.rows[i].linkedId.value;
        assert after.rows[j].id == db.rows[j].id;
      }
    }
  }

  // ---------------------------------------------------------------------------
  // The response

  /** Lines 102-143: the chosen primary is in the re-read cluster, and the
      response lists each identifier of the cluster once, the primary's own
      first, and the ids of all other cluster members. */
  lemma {:induction false} MatchedCallResponse(db: Db, req: Request)
    requires WellFormed(db) && IsValid(req) && Found(db, req) != []
    ensures var p := ChoosePrimary(Found(db, req));
      var after := Resolve(db, req).0;
      var members := Cluster(after.rows, p.id);
      var v := Resolve(db, req).1.value;
      && Resolve(db, req).1.Success?
      && p in members
      && v.primaryContactId == p.id
      && Distinct(v.emails) && Distinct(v.phoneNumbers)
      && (forall e :: e in v.emails <==> exists c :: c in members && c.email == Some(e))
      && (forall ph :: ph in v.phoneNumbers <==> exists c :: c in members && c.phoneNumber == Some(ph))
      && (p.email.Some? ==> v.emails[0] == p.email.value)
      && (p.phoneNumber.Some? ==> v.phoneNumbers[0] == p.phoneNumber.value)
      && p.id !in v.secondaryContactIds
      && (forall id :: id in v.secondaryContactIds <==>
            id != p.id && exists c :: c in members && c.id == id)
  {
    MatchedCallRows(db, req);
    var found := Found(db, req);
    var p := ChoosePrimary(found);
    var after := Resolve(db, req).0;
    var pj :| 0 <= pj < |db.rows| && db.rows[pj] == p;
    assert after.rows[pj] == p;
    assert p in after.rows;
    assert p.email != Some("") && p.phoneNumber != Some("");
    RespondFacts(p, Cluster(after.rows, p.id));
  }

  /** The cluster members are the live rows whose id is the primary's or that link to it. */
  lemma ClusterMembers(rows: seq<Contact>, primaryId: nat)
    ensures forall c :: c in Cluster(rows, primaryId) <==>
      c in rows && IsLive(c) && (c.id == primaryId || c.linkedId == Some(primaryId))
  {
  }

  // ---------------------------------------------------------------------------
  // Repeating a call

  /** A filter that keeps nothing from a sequence is empty. */
  lemma WhereNone(rows: seq<Contact>, keep: Contact -> bool)
    requires forall c :: c in rows ==> !keep(c)
    ensures Where(rows, keep) == []
  {
    if Where(rows, keep) != [] {
      assert Where(rows, keep)[0] in Where(rows, keep);
    }
  }

  /** Repeating a request once its effects are in the table changes nothing
      and yields the same response. */
  lemma {:induction false} ResolveIdempotent(db: Db, req: Request)
    requires WellFormed(db)
    ensures Resolve(Resolve(db, req).0, req) == Resolve(db, req)
  {
    if !IsValid(req) {
    } else if Found(db, req) == [] {
      RepeatFirstContact(db, req);
    } else {
      RepeatMatchedCall(db, req);
    }
  }

  /** A table in which the newest row is the only one with its id or linked to it. */
  lemma {:induction false} NewestRowAlone(db: Db, c: Contact)
    requires WellFormed(db) && c.id == db.nextId && IsLive(c)
    ensures Cluster(db.rows + [c], c.id) == [c]
  {
    WhereAppend(db.rows, c, (x: Contact) => InCluster(x, c.id));
    forall x | x in db.rows ensures !InCluster(x, c.id) {
      var i :| 0 <= i < |db.rows| && db.rows[i] == x;
      if x.linkedId.Some? {
        var j :| 0 <= j < i && db.rows[j].id == x.linkedId.value;
      }
    }
    WhereNone(db.rows, (x: Contact) => InCluster(x, c.id));
  }

  /** A response list built from a single value is that value alone. */
  lemma SingletonValueList(o: Option<string>)
    ensures ValueList([o], o) == if o.Some? then [o.value] else []
  {
    assert [o][..0] == [];
    if o.Some? {
      var v := o.value;
      assert Present([o]) == [v];
      assert [v][..0] == [];
      assert Dedup([v]) == [v];
      assert IndexOf([v], v) == 0;
    } else {
      assert Present([o]) == [];
    }
  }

  /** The response for a cluster of one row lists that row's identifiers. */
  lemma SingletonResponse(c: Contact)
    ensures Respond(c, [c]) == ClusterView(c.id,
      if c.email.Some? then [c.email.value] else [],
      if c.phoneNumber.Some? then [c.phoneNumber.value] else [],
      [])
  {
    assert EmailColumn([c]) == [c.email];
    assert PhoneColumn([c]) == [c.phoneNumber];
    SingletonValueList(c.email);
    SingletonValueList(c.phoneNumber);
    WhereNone([c], (x: Contact) => x.id != c.id);
  }

  /** Repeating a request that created a new primary matches that row alone. */
  lemma {:induction false} NewPrimaryFoundAlone(db: Db, req: Request)
    requires IsValid(req) && Found(db, req) == []
    ensures var c := NewContact(db.nextId, req, Primary, None);
      Found(Db(db.rows + [c], db.nextId + 1), req) == [c]
  {
    var c := NewContact(db.nextId, req, Primary, None);
    WhereAppend(db.rows, c, (x: Contact) => MatchesRequest(x, req.email, req.phoneNumber));
  }

  /** A call whose only match is a primary carrying the request's identifiers changes nothing. */
  lemma {:induction false} OwnPrimaryChangesNothing(db: Db, req: Request, c: Contact)
    requires Found(db, req) == [c] && c.linkPrecedence == Primary
    requires c.email == OrNull(req.email) && c.phoneNumber == OrNull(req.phoneNumber)
    ensures ChoosePrimary(Found(db, req)) == c
    ensures AfterMatch(db, req) == db
  {
    assert ChoosePrimary([c]) == c;
    assert !HasNewInfo([c], req.email, req.phoneNumber);
    WhereNone([c], (x: Contact) => x.id != c.id && x.linkPrecedence == Primary);
  }

  lemma {:induction false} RepeatFirstContact(db: Db, req: Request)
    requires WellFormed(db) && IsValid(req) && Found(db, req) == []
    ensures Resolve(Resolve(db, req).0, req) == Resolve(db, req)
  {
    var c := NewContact(db.nextId, req, Primary, None);
    var db' := Db(db.rows + [c], db.nextId + 1);
    assert Resolve(db, req) ==
      (db', Success(ClusterView(c.id, AsList(req.email), AsList(req.phoneNumber), [])));
    NewPrimaryFoundAlone(db, req);
    OwnPrimaryChangesNothing(db', req, c);
    NewestRowAlone(db, c);
    SingletonResponse(c);
  }

  /** After a matched call, the only matched primary left is the chosen one. */
  lemma {:induction false} OnlyChosenPrimaryLeft(db: Db, req: Request, p: Contact, created: bool, after: Db)
    requires Increasing(db.rows) && p in db.rows
    requires RowsAfterMatch(db, req, p, created, after)
    ensures forall c ::
      (c in after.rows && MatchesRequest(c, req.email, req.phoneNumber) && c.linkPrecedence == Primary)
      ==> c == p
    ensures p in after.rows
  {
    var pj :| 0 <= pj < |db.rows| && db.rows[pj] == p;
    assert after.rows[pj] == p;
    forall c | c in after.rows && MatchesRequest(c, req.email, req.phoneNumber) &&
      c.linkPrecedence == Primary ensures c == p
    {
      var i :| 0 <= i < |after.rows| && after.rows[i] == c;
      assert i < |db.rows|;
      assert !IsDemoted(db.rows[i], req, p.id);
      assert db.rows[i] == c;
      IdsIdentifyRows(db.rows, i, pj);
    }
  }

  /** After a matched call, each supplied identifier is on a matched row. */
  lemma {:induction false} RequestRecorded(db: Db, req: Request, p: Contact, created: bool, after: Db)
    requires RowsAfterMatch(db, req, p, created, after)
    requires created <==>
      || (req.email != "" && forall c :: c in db.rows && IsLive(c) ==> c.email != Some(req.email))
      || (req.phoneNumber != "" &&
            forall c :: c in db.rows && IsLive(c) ==> c.phoneNumber != Some(req.phoneNumber))
    ensures req.email != "" ==>
      exists c :: c in after.rows && MatchesRequest(c, req.email, req.phoneNumber) && c.email == Some(req.email)
    ensures req.phoneNumber != "" ==>
      exists c :: c in after.rows && MatchesRequest(c, req.email, req.phoneNumber) &&
        c.phoneNumber == Some(req.phoneNumber)
  {
    var n := |db.rows|;
    if created {
      assert after.rows[n] in after.rows;
    }
    if req.email != "" && !created {
      var c :| c in db.rows && IsLive(c) && c.email == Some(req.email);
      var i :| 0 <= i < n && db.rows[i] == c;
      assert after.rows[i] in after.rows;
    }
    if req.phoneNumber != "" && !created {
      var c :| c in db.rows && IsLive(c) && c.phoneNumber == Some(req.phoneNumber);
      var i :| 0 <= i < n && db.rows[i] == c;
      assert after.rows[i] in after.rows;
    }
  }

  /** When no matched row was a primary, nothing is demoted and the first match stays first. */
  lemma {:induction false} FirstMatchStays(db: Db, req: Request)
    requires IsValid(req) && Found(db, req) != []
    requires ChoosePrimary(Found(db, req)).linkPrecedence == Secondary
    ensures Found(AfterMatch(db, req), req) != []
    ensures Found(AfterMatch(db, req), req)[0] == Found(db, req)[0]
  {
    var found := Found(db, req);
    var p := ChoosePrimary(found);
    var i: nat :| PrimaryPosition(found, i) && p == found[i];
    WhereNone(found, (x: Contact) => x.id != p.id && x.linkPrecedence == Primary);
    var db1 := Created(db, req, found, p);
    assert AfterMatch(db, req) == db1;
    if db1 != db {
      var c := NewContact(db.nextId, req, Secondary, Some(p.id));
      WhereAppend(db.rows, c, (x: Contact) => MatchesRequest(x, req.email, req.phoneNumber));
    }
  }

  /** The primary line 64 picks is the same in any match list that keeps `p` as
      its only primary, or keeps the same first row when `p` is not a primary. */
  lemma {:induction false} SamePrimaryChosen(found: seq<Contact>, found': seq<Contact>)
    requires found != [] && found' != []
    requires ChoosePrimary(found) in found'
    requires forall c :: c in found' && c.linkPrecedence == Primary ==> c == ChoosePrimary(found)
    requires ChoosePrimary(found).linkPrecedence == Secondary ==> found'[0] == found[0]
    ensures ChoosePrimary(found') == ChoosePrimary(found)
  {
    var p := ChoosePrimary(found);
    var k: nat :| PrimaryPosition(found, k) && p == found[k];
    var p' := ChoosePrimary(found');
    var i: nat :| PrimaryPosition(found', i) && p' == found'[i];
    if p.linkPrecedence == Primary {
      assert p'.linkPrecedence == Primary;
    } else {
      assert p'.linkPrecedence == Secondary;
    }
  }

  /** Repeating a matched call finds the same primary, as the only matched
      primary, and no new information. */
  lemma {:induction false} RepeatFindsSame(db: Db, req: Request)
    requires WellFormed(db) && IsValid(req) && Found(db, req) != []
    ensures var p := ChoosePrimary(Found(db, req));
      var found' := Found(AfterMatch(db, req), req);
      && found' != [] && ChoosePrimary(found') == p
      && !HasNewInfo(found', req.email, req.phoneNumber)
      && forall c :: c in found' && c.linkPrecedence == Primary ==> c == p
  {
    var found := Found(db, req);
    var p := ChoosePrimary(found);
    var created := HasNewInfo(found, req.email, req.phoneNumber);
    var after := AfterMatch(db, req);
    MatchedCallRows(db, req);
    SecondaryCreatedIffNewIdentifier(db, req);
    OnlyChosenPrimaryLeft(db, req, p, created, after);
    RequestRecorded(db, req, p, created, after);
    var found' := Found(after, req);
    assert p in found';
    if p.linkPrecedence == Secondary {
      FirstMatchStays(db, req);
    }
    SamePrimaryChosen(found, found');
  }

  lemma {:induction false} RepeatMatchedCall(db: Db, req: Request)
    requires WellFormed(db) && IsValid(req) && Found(db, req) != []
    ensures Resolve(Resolve(db, req).0, req) == Resolve(db, req)
  {
    var p := ChoosePrimary(Found(db, req));
    var after := AfterMatch(db, req);
    assert Resolve(db, req) == (after, Success(Respond(p, Cluster(after.rows, p.id))));
    RepeatFindsSame(db, req);
    var found' := Found(after, req);
    WhereNone(found', (x: Contact) => x.id != p.id && x.linkPrecedence == Primary);
    assert AfterMatch(after, req) == after;
  }
}
