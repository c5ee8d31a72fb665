/** The contact table as an in-memory store, in place of the Prisma client of
    src/services/contact.ts:4, and `identifyContact` running against it. */
module ContactStore {
  import opened Contacts
  import opened Queries
  import opened Response
  import opened Resolver

  class Store {
    /** The rows in creation order (the store's `createdAt` order). */
    var rows: seq<Contact>
    /** The id the next created row receives (the table's autoincrement). */
    var nextId: nat

    function State(): Db
      reads this
    {
      Db(rows, nextId)
    }

    /** The resolver's invariant on the table (`Contacts.WellFormed`). The
        primitive operations `Create` and `UpdateMany` state their whole new
        state instead; `Reconcile` and `Identify` keep this invariant. */
    predicate Valid()
      reads this
    {
      WellFormed(State())
    }

    /** An empty table whose first id is 1. */
    constructor ()
      ensures Valid() && State() == Db([], 1)
    {
      rows := [];
      nextId := 1;
    }

    /** A table holding previously stored rows. */
    constructor Load(saved: Db)
      requires WellFormed(saved)
      ensures Valid() && State() == saved
    {
      rows := saved.rows;
      nextId := saved.nextId;
    }

    /** `prisma.contact.create`: appends a live row with the next id. */
    method Create(email: Option<string>, phoneNumber: Option<string>,
                  linkPrecedence: Precedence, linkedId: Option<nat>) returns (c: Contact)
      modifies this
      ensures c == Contact(old(nextId), email, phoneNumber, linkPrecedence, linkedId, false)
      ensures rows == old(rows) + [c] && nextId == old(nextId) + 1
    {
      c := Contact(nextId, email, phoneNumber, linkPrecedence, linkedId, false);
      rows := rows + [c];
      nextId := nextId + 1;
    }

    /** `prisma.contact.updateMany` as used on lines 88-98: the listed rows become
        secondaries linked to `linkedId`. */
    method UpdateMany(ids: seq<nat>, linkedId: nat)
      modifies this
      ensures rows == Demote(old(rows), ids, linkedId) && nextId == old(nextId)
    {
      rows := Demote(rows, ids, linkedId);
    }

    /** The `findMany` of lines 30-41: the live rows carrying the email or the
        phone, oldest first. */
    method FindMatching(email: string, phoneNumber: string) returns (found: seq<Contact>)
      ensures found == Matches(rows, email, phoneNumber)
      ensures forall c :: c in found <==> c in rows && MatchesRequest(c, email, phoneNumber)
      ensures Increasing(rows) ==> Increasing(found)
    {
      found := Matches(rows, email, phoneNumber);
    }

    /** The `findMany` of lines 102-110: the live rows that are the primary or
        link to it, in table order. */
    method FindCluster(primaryId: nat) returns (members: seq<Contact>)
      ensures members == Cluster(rows, primaryId)
      ensures forall c :: c in members <==> c in rows && InCluster(c, primaryId)
    {
      members := Cluster(rows, primaryId);
    }

    /** Lines 67-99 after a non-empty match: add the secondary when the request
        brings new information, then demote the other matched primaries. */
    method Reconcile(req: Request, existing: seq<Contact>, primary: Contact)
      requires existing == Found(State(), req) && existing != []
      requires primary == ChoosePrimary(existing)
      requires Valid()
      modifies this
      ensures Valid()
      ensures State() == AfterMatch(old(State()), req)
    {
      assert existing[0] in existing;
      MatchedRowsWellFormed(State(), req);
      if HasNewInfo(existing, req.email, req.phoneNumber) {
        var secondary := Create(OrNull(req.email), OrNull(req.phoneNumber), Secondary, Some(primary.id));
      }
      assert State() == Created(old(State()), req, existing, primary);
      var toUpdate := DemotionTargets(existing, primary.id);
      if |toUpdate| > 0 {
        UpdateMany(Ids(toUpdate), primary.id);
      }
    }

    /** `identifyContact` (lines 20-151): validate, match, create the first
        primary or a new secondary, demote the other matched primaries,
        re-read the cluster and assemble the response. */
    method Identify(req: Request) returns (res: Result<ClusterView>)
      requires Valid()
      modifies this
      ensures Valid()
      ensures (State(), res) == Resolve(old(State()), req)
    {
      ghost var db := State();
      ResolveKeepsWellFormed(db, req);
      if req.email == "" && req.phoneNumber == "" {
        return Failure(InvalidRequest);
      }
      var existing := FindMatching(req.email, req.phoneNumber);
      assert existing == Found(db, req);
      if |existing| == 0 {
        var c := Create(OrNull(req.email), OrNull(req.phoneNumber), Primary, None);
        return Success(ClusterView(c.id, AsList(req.email), AsList(req.phoneNumber), []));
      }
      var primary := ChoosePrimary(existing);
      Reconcile(req, existing, primary);
      var linked := FindCluster(primary.id);
      var view := AssembleResponse(primary, linked);
      assert Resolve(db, req) == (State(), Success(view));
      res := Success(view);
    }
  }
}
