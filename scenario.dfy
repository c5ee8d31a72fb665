/** The five identify calls of src/tests/contact.test.ts:16-58, replayed on an
    empty table, and calls showing where the code leaves a secondary linked to
    a secondary or names a secondary as the primary. */
module Scenario {
  import opened Contacts
  import opened Queries
  import opened Response
  import opened Resolver
  import opened ContactStore

  const Lorraine: string := "lorraine@hillvalley.edu"
  const McFly: string := "mcfly@hillvalley.edu"
  const Doc: string := "doc@hillvalley.edu"
  const Phone1: string := "123456"
  const Phone2: string := "789012"
  const Phone3: string := "999"

  const P1: Contact := Contact(1, Some(Lorraine), Some(Phone1), Primary, None, false)
  const S2: Contact := Contact(2, Some(McFly), Some(Phone1), Secondary, Some(1), false)
  const P3: Contact := Contact(3, Some(Doc), Some(Phone2), Primary, None, false)
  /** P3 after the fifth call demotes it. */
  const S3: Contact := Contact(3, Some(Doc), Some(Phone2), Secondary, Some(1), false)

  /** The cluster view after the second and third calls. */
  const View2: ClusterView := ClusterView(1, [Lorraine, McFly], [Phone1], [2])

  lemma Distinctions()
    ensures Lorraine != McFly && Lorraine != Doc && McFly != Doc && Phone1 != Phone2
    ensures Lorraine != "" && McFly != "" && Doc != "" && Phone1 != "" && Phone2 != ""
    ensures Phone3 != "" && Phone3 != Phone1
  {
    assert |Lorraine| == 23 && |McFly| == 20 && |Doc| == 18;
    assert |Phone3| == 3 && |Phone1| == 6;
    assert Phone1[0] != Phone2[0];
  }

  /** Filtering a table of one, two or three rows, row by row. */
  lemma Where1(a: Contact, keep: Contact -> bool)
    ensures Where([a], keep) == if keep(a) then [a] else []
  {
    WhereAppend([], a, keep);
    assert [] + [a] == [a];
  }

  lemma Where2(a: Contact, b: Contact, keep: Contact -> bool)
    ensures Where([a, b], keep) == Where([a], keep) + if keep(b) then [b] else []
  {
    WhereAppend([a], b, keep);
    assert [a] + [b] == [a, b];
  }

  lemma Where3(a: Contact, b: Contact, c: Contact, keep: Contact -> bool)
    ensures Where([a, b, c], keep) == Where([a, b], keep) + if keep(c) then [c] else []
  {
    WhereAppend([a, b], c, keep);
    assert [a, b] + [c] == [a, b, c];
  }

  lemma PresentAppend(column: seq<Option<string>>, o: Option<string>)
    ensures Present(column + [o]) == Present(column) + if o.Some? then [o.value] else []
  {
    assert (column + [o])[..|column + [o]| - 1] == column;
  }

  lemma DedupAppend(values: seq<string>, v: string)
    ensures Dedup(values + [v]) == if v in Dedup(values) then Dedup(values) else Dedup(values) + [v]
  {
    assert (values + [v])[..|values + [v]| - 1] == values;
  }

  lemma Present2(a: string, b: string)
    ensures Present([Some(a), Some(b)]) == [a, b]
  {
    PresentAppend([], Some(a));
    assert [] + [Some(a)] == [Some(a)];
    PresentAppend([Some(a)], Some(b));
    assert [Some(a)] + [Some(b)] == [Some(a), Some(b)];
  }

  lemma Present3(a: string, b: string, c: string)
    ensures Present([Some(a), Some(b), Some(c)]) == [a, b, c]
  {
    Present2(a, b);
    PresentAppend([Some(a), Some(b)], Some(c));
    assert [Some(a), Some(b)] + [Some(c)] == [Some(a), Some(b), Some(c)];
  }

  lemma Dedup2(a: string, b: string)
    ensures Dedup([a, b]) == if a == b then [a] else [a, b]
  {
    DedupAppend([], a);
    assert [] + [a] == [a];
    DedupAppend([a], b);
    assert [a] + [b] == [a, b];
  }

  lemma Dedup3(a: string, b: string, c: string)
    requires a != b || b != c
    ensures Dedup([a, b, c]) ==
      if a == b then [a, c] else if c == a || c == b then [a, b] else [a, b, c]
  {
    Dedup2(a, b);
    DedupAppend([a, b], c);
    assert [a, b] + [c] == [a, b, c];
    if a == b {
      assert [a] + [c] == [a, c];
    }
  }

  /** A list that already starts with the primary's value is left as it is. */
  lemma AlreadyFirst(values: seq<string>, a: string)
    requires a != "" && values != [] && values[0] == a
    ensures PrimaryFirst(values, Some(a)) == values
  {
    assert IndexOf(values, a) == 0;
    assert [a] + values[..0] + values[1..] == values;
  }

  /** Call 1, `{lorraine@hillvalley.edu, 123456}` on the empty table: a new primary. */
  lemma Call1()
    ensures Resolve(Db([], 1), Request(Lorraine, Phone1)) ==
      (Db([P1], 2), Success(ClusterView(1, [Lorraine], [Phone1], [])))
  {
    Distinctions();
    assert Found(Db([], 1), Request(Lorraine, Phone1)) == [];
    UnmatchedRequestCreatesPrimary(Db([], 1), Request(Lorraine, Phone1));
    assert [] + [P1] == [P1];
  }

  /** The view of the cluster P1, S2, field by field. */
  lemma FirstCluster()
    ensures Cluster([P1, S2], 1) == [P1, S2]
  {
    assert InCluster(P1, 1) && InCluster(S2, 1);
    KeepBoth(P1, S2, (x: Contact) => InCluster(x, 1));
  }

  lemma FirstEmails()
    ensures ValueList(EmailColumn([P1, S2]), P1.email) == [Lorraine, McFly]
  {
    Distinctions();
    assert EmailColumn([P1, S2]) == [Some(Lorraine), Some(McFly)];
    Present2(Lorraine, McFly);
    Dedup2(Lorraine, McFly);
    AlreadyFirst([Lorraine, McFly], Lorraine);
  }

  lemma FirstPhones()
    ensures ValueList(PhoneColumn([P1, S2]), P1.phoneNumber) == [Phone1]
  {
    Distinctions();
    assert PhoneColumn([P1, S2]) == [Some(Phone1), Some(Phone1)];
    Present2(Phone1, Phone1);
    Dedup2(Phone1, Phone1);
    AlreadyFirst([Phone1], Phone1);
  }

  lemma FirstSecondaries()
    ensures SecondaryIds([P1, S2], 1) == [2]
  {
    Where1(P1, (x: Contact) => x.id != 1);
    Where2(P1, S2, (x: Contact) => x.id != 1);
    assert [] + [S2] == [S2];
    assert Ids([S2]) == [2];
  }

  lemma FirstClusterView()
    ensures Cluster([P1, S2], 1) == [P1, S2]
    ensures Respond(P1, [P1, S2]) == View2
  {
    FirstCluster();
    FirstEmails();
    FirstPhones();
    FirstSecondaries();
  }

  /** Two rows that both pass a filter. */
  lemma KeepBoth(a: Contact, b: Contact, keep: Contact -> bool)
    requires keep(a) && keep(b)
    ensures Where([a, b], keep) == [a, b]
  {
    Where1(a, keep);
    Where2(a, b, keep);
    assert [a] + [b] == [a, b];
  }

  /** Three rows of which only the first two pass a filter. */
  lemma KeepFirstTwo(a: Contact, b: Contact, c: Contact, keep: Contact -> bool)
    requires keep(a) && keep(b) && !keep(c)
    ensures Where([a, b, c], keep) == [a, b]
  {
    KeepBoth(a, b, keep);
    Where3(a, b, c, keep);
  }

  /** Two rows of which only the second passes a filter. */
  lemma KeepSecond(a: Contact, b: Contact, keep: Contact -> bool)
    requires !keep(a) && keep(b)
    ensures Where([a, b], keep) == [b]
  {
    Where1(a, keep);
    Where2(a, b, keep);
    assert [] + [b] == [b];
  }

  /** Three rows that all pass a filter. */
  lemma KeepAll3(a: Contact, b: Contact, c: Contact, keep: Contact -> bool)
    requires keep(a) && keep(b) && keep(c)
    ensures Where([a, b, c], keep) == [a, b, c]
  {
    Where1(a, keep);
    Where2(a, b, keep);
    Where3(a, b, c, keep);
    assert [a] + [b] == [a, b];
    assert [a, b] + [c] == [a, b, c];
  }

  /** Three rows of which only the last two pass a filter. */
  lemma KeepLastTwo(a: Contact, b: Contact, c: Contact, keep: Contact -> bool)
    requires !keep(a) && keep(b) && keep(c)
    ensures Where([a, b, c], keep) == [b, c]
  {
    KeepSecond(a, b, keep);
    Where3(a, b, c, keep);
    assert [b] + [c] == [b, c];
  }

  /** Three rows of which only the last passes a filter. */
  lemma KeepLast(a: Contact, b: Contact, c: Contact, keep: Contact -> bool)
    requires !keep(a) && !keep(b) && keep(c)
    ensures Where([a, b, c], keep) == [c]
  {
    Where1(a, keep);
    Where2(a, b, keep);
    Where3(a, b, c, keep);
    assert [] + [c] == [c];
  }

  lemma Columns3(a: Contact, b: Contact, c: Contact)
    ensures EmailColumn([a, b, c]) == [a.email, b.email, c.email]
    ensures PhoneColumn([a, b, c]) == [a.phoneNumber, b.phoneNumber, c.phoneNumber]
  {
  }

  lemma Demote3(a: Contact, b: Contact, c: Contact, ids: seq<nat>, linkedId: nat)
    ensures Demote([a, b, c], ids, linkedId) ==
      [DemoteRow(a, ids, linkedId), DemoteRow(b, ids, linkedId), DemoteRow(c, ids, linkedId)]
  {
  }

  /** Call 2, `{mcfly@hillvalley.edu, 123456}`: a secondary linked to P1. */
  lemma Call2()
    ensures Resolve(Db([P1], 2), Request(McFly, Phone1)) == (Db([P1, S2], 3), Success(View2))
  {
    Distinctions();
    var req := Request(McFly, Phone1);
    var db := Db([P1], 2);
    assert Found(db, req) == [P1] by {
      assert MatchesRequest(P1, req.email, req.phoneNumber);
      Where1(P1, (x: Contact) => MatchesRequest(x, req.email, req.phoneNumber));
    }
    assert ChoosePrimary([P1]) == P1;
    assert Created(db, req, [P1], P1) == Db([P1, S2], 3) by {
      assert HasNewInfo([P1], McFly, Phone1);
      assert NewContact(2, req, Secondary, Some(1)) == S2;
      assert [P1] + [S2] == [P1, S2];
    }
    assert Merged(Db([P1, S2], 3), [P1], P1) == Db([P1, S2], 3) by {
      Where1(P1, (x: Contact) => x.id != P1.id && x.linkPrecedence == Primary);
    }
    assert AfterMatch(db, req) == Db([P1, S2], 3);
    FirstClusterView();
  }

  /** Call 3, `{phoneNumber: 123456}`: nothing changes and the view is call 2's. */
  lemma Call3()
    ensures Resolve(Db([P1, S2], 3), Request("", Phone1)) == (Db([P1, S2], 3), Success(View2))
  {
    Distinctions();
    var req := Request("", Phone1);
    var db := Db([P1, S2], 3);
    assert Found(db, req) == [P1, S2] by {
      assert MatchesRequest(P1, req.email, req.phoneNumber);
      assert MatchesRequest(S2, req.email, req.phoneNumber);
      Where1(P1, (x: Contact) => MatchesRequest(x, req.email, req.phoneNumber));
      Where2(P1, S2, (x: Contact) => MatchesRequest(x, req.email, req.phoneNumber));
      assert [P1] + [S2] == [P1, S2];
    }
    assert ChoosePrimary([P1, S2]) == P1;
    assert Created(db, req, [P1, S2], P1) == db by {
      assert P1 in [P1, S2];
      assert !HasNewInfo([P1, S2], "", Phone1);
    }
    assert Merged(db, [P1, S2], P1) == db by {
      Where1(P1, (x: Contact) => x.id != P1.id && x.linkPrecedence == Primary);
      Where2(P1, S2, (x: Contact) => x.id != P1.id && x.linkPrecedence == Primary);
    }
    assert AfterMatch(db, req) == db;
    FirstClusterView();
  }

  /** Call 4, `{doc@hillvalley.edu, 789012}`: an unrelated new primary. */
  lemma Call4()
    ensures Resolve(Db([P1, S2], 3), Request(Doc, Phone2)) ==
      (Db([P1, S2, P3], 4), Success(ClusterView(3, [Doc], [Phone2], [])))
  {
    Distinctions();
    var req := Request(Doc, Phone2);
    assert Found(Db([P1, S2], 3), req) == [] by {
      assert !MatchesRequest(P1, req.email, req.phoneNumber);
      assert !MatchesRequest(S2, req.email, req.phoneNumber);
      Where1(P1, (x: Contact) => MatchesRequest(x, req.email, req.phoneNumber));
      Where2(P1, S2, (x: Contact) => MatchesRequest(x, req.email, req.phoneNumber));
    }
    UnmatchedRequestCreatesPrimary(Db([P1, S2], 3), req);
    assert [P1, S2] + [P3] == [P1, S2, P3];
  }

  /** The table after call 5. */
  lemma MergedTable()
    ensures Found(Db([P1, S2, P3], 4), Request(Doc, Phone1)) == [P1, S2, P3]
    ensures ChoosePrimary(Found(Db([P1, S2, P3], 4), Request(Doc, Phone1))) == P1
    ensures AfterMatch(Db([P1, S2, P3], 4), Request(Doc, Phone1)) == Db([P1, S2, S3], 4)
  {
    Distinctions();
    var req := Request(Doc, Phone1);
    var db := Db([P1, S2, P3], 4);
    var found := [P1, S2, P3];
    assert Found(db, req) == found by {
      assert MatchesRequest(P1, req.email, req.phoneNumber);
      assert MatchesRequest(S2, req.email, req.phoneNumber);
      assert MatchesRequest(P3, req.email, req.phoneNumber);
      KeepAll3(P1, S2, P3, (x: Contact) => MatchesRequest(x, req.email, req.phoneNumber));
    }
    assert ChoosePrimary(found) == P1;
    assert Created(db, req, found, P1) == db by {
      assert P3 in found && P1 in found;
      assert !HasNewInfo(found, Doc, Phone1);
    }
    assert DemotionTargets(found, P1.id) == [P3] by {
      KeepLast(P1, S2, P3, (x: Contact) => x.id != P1.id && x.linkPrecedence == Primary);
    }
    assert Ids([P3]) == [3];
    assert Demote(db.rows, [3], 1) == [P1, S2, S3] by {
      Demote3(P1, S2, P3, [3], 1);
      assert DemoteRow(P1, [3], 1) == P1;
      assert DemoteRow(S2, [3], 1) == S2;
      assert DemoteRow(P3, [3], 1) == S3;
    }
  }

  /** The view of the merged cluster P1, S2, S3, field by field. */
  lemma MergedCluster()
    ensures Cluster([P1, S2, S3], 1) == [P1, S2, S3]
  {
    assert InCluster(P1, 1) && InCluster(S2, 1) && InCluster(S3, 1);
    KeepAll3(P1, S2, S3, (x: Contact) => InCluster(x, 1));
  }

  lemma MergedEmails()
    ensures ValueList(EmailColumn([P1, S2, S3]), P1.email) == [Lorraine, McFly, Doc]
  {
    Distinctions();
    Columns3(P1, S2, S3);
    Present3(Lorraine, McFly, Doc);
    Dedup3(Lorraine, McFly, Doc);
    AlreadyFirst([Lorraine, McFly, Doc], Lorraine);
  }

  lemma MergedPhones()
    ensures ValueList(PhoneColumn([P1, S2, S3]), P1.phoneNumber) == [Phone1, Phone2]
  {
    Distinctions();
    Columns3(P1, S2, S3);
    Present3(Phone1, Phone1, Phone2);
    Dedup3(Phone1, Phone1, Phone2);
    AlreadyFirst([Phone1, Phone2], Phone1);
  }

  lemma MergedSecondaries()
    ensures SecondaryIds([P1, S2, S3], 1) == [2, 3]
  {
    KeepLastTwo(P1, S2, S3, (x: Contact) => x.id != 1);
    assert Ids([S2, S3]) == [2, 3];
  }

  lemma MergedView()
    ensures Respond(P1, Cluster([P1, S2, S3], 1)) ==
      ClusterView(1, [Lorraine, McFly, Doc], [Phone1, Phone2], [2, 3])
  {
    MergedCluster();
    MergedEmails();
    MergedPhones();
    MergedSecondaries();
  }

  /** Call 5, `{doc@hillvalley.edu, 123456}`: merges the two clusters; P1, the
      older primary, survives and P3 is demoted to a secondary linked to it. */
  lemma Call5()
    ensures Resolve(Db([P1, S2, P3], 4), Request(Doc, Phone1)) ==
      (Db([P1, S2, S3], 4),
       Success(ClusterView(1, [Lorraine, McFly, Doc], [Phone1, Phone2], [2, 3])))
  {
    Distinctions();
    MergedTable();
    MergedView();
  }

  /** The five calls in sequence: call 3 gives call 2's view, and call 5 keeps
      the older primary and demotes the one call 4 created. */
  lemma FiveCalls()
    ensures var o1 := Resolve(Db([], 1), Request(Lorraine, Phone1));
      var o2 := Resolve(o1.0, Request(McFly, Phone1));
      var o3 := Resolve(o2.0, Request("", Phone1));
      var o4 := Resolve(o3.0, Request(Doc, Phone2));
      var o5 := Resolve(o4.0, Request(Doc, Phone1));
      && o1.1 == Success(ClusterView(1, [Lorraine], [Phone1], []))
      && o2.1 == Success(ClusterView(1, [Lorraine, McFly], [Phone1], [2]))
      && o3.1 == o2.1 && o3.0 == o2.0
      && o4.1 == Success(ClusterView(3, [Doc], [Phone2], []))
      && o5.1 == Success(ClusterView(1, [Lorraine, McFly, Doc], [Phone1, Phone2], [2, 3]))
      && o5.0.rows == [P1, S2, Contact(3, Some(Doc), Some(Phone2), Secondary, Some(1), false)]
  {
    Call1();
    Call2();
    Call3();
    Call4();
    Call5();
  }

  /** The same five calls against the store. */
  method ReplayOnStore()
  {
    var store := new Store();
    FiveCalls();
    var r1 := store.Identify(Request(Lorraine, Phone1));
    assert r1 == Success(ClusterView(1, [Lorraine], [Phone1], []));
    var r2 := store.Identify(Request(McFly, Phone1));
    var r3 := store.Identify(Request("", Phone1));
    assert r3 == r2 == Success(View2);
    var r4 := store.Identify(Request(Doc, Phone2));
    assert r4 == Success(ClusterView(3, [Doc], [Phone2], []));
    var r5 := store.Identify(Request(Doc, Phone1));
    assert r5 == Success(ClusterView(1, [Lorraine, McFly, Doc], [Phone1, Phone2], [2, 3]));
    assert store.rows[2].linkPrecedence == Secondary && store.rows[2].linkedId == Some(1);
    assert store.rows == [P1, S2, S3];
  }

  lemma SecondaryOnlyTable()
    ensures Found(Db([P1, S2], 3), Request(McFly, "")) == [S2]
    ensures ChoosePrimary(Found(Db([P1, S2], 3), Request(McFly, ""))) == S2
    ensures AfterMatch(Db([P1, S2], 3), Request(McFly, "")) == Db([P1, S2], 3)
  {
    Distinctions();
    var req := Request(McFly, "");
    var db := Db([P1, S2], 3);
    assert Found(db, req) == [S2] by {
      assert !MatchesRequest(P1, req.email, req.phoneNumber);
      assert MatchesRequest(S2, req.email, req.phoneNumber);
      KeepSecond(P1, S2, (x: Contact) => MatchesRequest(x, req.email, req.phoneNumber));
    }
    assert ChoosePrimary([S2]) == S2;
    assert Created(db, req, [S2], S2) == db by {
      assert S2 in [S2];
      assert !HasNewInfo([S2], McFly, "");
    }
    assert Merged(db, [S2], S2) == db by {
      Where1(S2, (x: Contact) => x.id != S2.id && x.linkPrecedence == Primary);
    }
  }

  lemma SecondaryOnlyCluster()
    ensures Cluster([P1, S2], 2) == [S2]
  {
    assert !InCluster(P1, 2) && InCluster(S2, 2);
    KeepSecond(P1, S2, (x: Contact) => InCluster(x, 2));
  }

  /** After calls 1 and 2, a request carrying only McFly's email matches only
      the secondary S2. Line 64 then falls back to S2 itself, so the response
      names S2 as the primary and leaves P1 out of the cluster view. */
  lemma SecondaryOnlyMatch()
    ensures Resolve(Db([P1, S2], 3), Request(McFly, "")) ==
      (Db([P1, S2], 3), Success(ClusterView(2, [McFly], [Phone1], [])))
  {
    SecondaryOnlyTable();
    SecondaryOnlyCluster();
    SingletonResponse(S2);
  }

  // ---------------------------------------------------------------------------
  // A merge that leaves a chain

  /** The table after `{lorraine, 123456}`, `{doc, 789012}` and `{mcfly, 789012}`:
      two primaries, the second with a secondary of its own. */
  const Q2: Contact := Contact(2, Some(Doc), Some(Phone2), Primary, None, false)
  const T3: Contact := Contact(3, Some(McFly), Some(Phone2), Secondary, Some(2), false)
  /** Q2 once demoted under P1. */
  const D2: Contact := Contact(2, Some(Doc), Some(Phone2), Secondary, Some(1), false)

  lemma ChainTableAfterMerge()
    ensures Found(Db([P1, Q2, T3], 4), Request(Doc, Phone1)) == [P1, Q2]
    ensures ChoosePrimary(Found(Db([P1, Q2, T3], 4), Request(Doc, Phone1))) == P1
    ensures AfterMatch(Db([P1, Q2, T3], 4), Request(Doc, Phone1)) == Db([P1, D2, T3], 4)
  {
    Distinctions();
    var req := Request(Doc, Phone1);
    var db := Db([P1, Q2, T3], 4);
    var found := [P1, Q2];
    assert Found(db, req) == found by {
      assert MatchesRequest(P1, req.email, req.phoneNumber);
      assert MatchesRequest(Q2, req.email, req.phoneNumber);
      assert !MatchesRequest(T3, req.email, req.phoneNumber);
      KeepFirstTwo(P1, Q2, T3, (x: Contact) => MatchesRequest(x, req.email, req.phoneNumber));
    }
    assert ChoosePrimary(found) == P1;
    assert Created(db, req, found, P1) == db by {
      assert P1 in found && Q2 in found;
      assert !HasNewInfo(found, Doc, Phone1);
    }
    assert DemotionTargets(found, P1.id) == [Q2] by {
      KeepSecond(P1, Q2, (x: Contact) => x.id != P1.id && x.linkPrecedence == Primary);
    }
    assert Ids([Q2]) == [2];
    assert Demote(db.rows, [2], 1) == [P1, D2, T3] by {
      Demote3(P1, Q2, T3, [2], 1);
      assert DemoteRow(P1, [2], 1) == P1;
      assert DemoteRow(Q2, [2], 1) == D2;
      assert DemoteRow(T3, [2], 1) == T3;
    }
  }

  lemma ChainCluster()
    ensures Cluster([P1, D2, T3], 1) == [P1, D2]
  {
    assert InCluster(P1, 1) && InCluster(D2, 1) && !InCluster(T3, 1);
    KeepFirstTwo(P1, D2, T3, (x: Contact) => InCluster(x, 1));
  }

  lemma ChainEmails()
    ensures ValueList(EmailColumn([P1, D2]), P1.email) == [Lorraine, Doc]
  {
    Distinctions();
    assert EmailColumn([P1, D2]) == [Some(Lorraine), Some(Doc)];
    Present2(Lorraine, Doc);
    Dedup2(Lorraine, Doc);
    AlreadyFirst([Lorraine, Doc], Lorraine);
  }

  lemma ChainPhones()
    ensures ValueList(PhoneColumn([P1, D2]), P1.phoneNumber) == [Phone1, Phone2]
  {
    Distinctions();
    assert PhoneColumn([P1, D2]) == [Some(Phone1), Some(Phone2)];
    Present2(Phone1, Phone2);
    Dedup2(Phone1, Phone2);
    AlreadyFirst([Phone1, Phone2], Phone1);
  }

  lemma ChainSecondaries()
    ensures SecondaryIds([P1, D2], 1) == [2]
  {
    KeepSecond(P1, D2, (x: Contact) => x.id != 1);
    assert Ids([D2]) == [2];
  }

  /** The table before the merge is one the resolver can keep. */
  lemma ChainTableWellFormed()
    ensures WellFormed(Db([P1, Q2, T3], 4))
  {
    Distinctions();
    var rows := [P1, Q2, T3];
    assert rows[2].linkedId.value == rows[1].id;
  }

  /** The call that merges P1's and Q2's clusters. */
  lemma ChainCall()
    ensures Resolve(Db([P1, Q2, T3], 4), Request(Doc, Phone1)) ==
      (Db([P1, D2, T3], 4), Success(ClusterView(1, [Lorraine, Doc], [Phone1, Phone2], [2])))
  {
    Distinctions();
    ChainTableAfterMerge();
    ChainCluster();
    ChainEmails();
    ChainPhones();
    ChainSecondaries();
  }

  /** Merging P1's and Q2's clusters with `{doc, 123456}` demotes Q2 but leaves T3
      linked to Q2, now a secondary: a secondary-to-secondary chain. The re-read
      of lines 102-110 follows one link only, so the response omits T3's id and
      its email although T3 belongs to the merged identity. */
  lemma MergeLeavesChain()
    ensures WellFormed(Db([P1, Q2, T3], 4))
    ensures var (after, res) := Resolve(Db([P1, Q2, T3], 4), Request(Doc, Phone1));
      && after.rows[2].linkedId == Some(2) && after.rows[1].id == 2
      && after.rows[1].linkPrecedence == Secondary
      && res.Success? && McFly !in res.value.emails && 3 !in res.value.secondaryContactIds
  {
    ChainTableWellFormed();
    ChainCall();
    Distinctions();
  }

  // ---------------------------------------------------------------------------
  // A new secondary linked to a secondary

  /** The row `{mcfly, 999}` adds after calls 1 and 2: linked to S2, the secondary line 64 falls back to. */
  const U3: Contact := Contact(3, Some(McFly), Some(Phone3), Secondary, Some(2), false)

  lemma SecondaryFallbackTable()
    ensures Found(Db([P1, S2], 3), Request(McFly, Phone3)) == [S2]
    ensures ChoosePrimary(Found(Db([P1, S2], 3), Request(McFly, Phone3))) == S2
    ensures AfterMatch(Db([P1, S2], 3), Request(McFly, Phone3)) == Db([P1, S2, U3], 4)
  {
    Distinctions();
    var req := Request(McFly, Phone3);
    var db := Db([P1, S2], 3);
    assert Found(db, req) == [S2] by {
      assert !MatchesRequest(P1, req.email, req.phoneNumber);
      assert MatchesRequest(S2, req.email, req.phoneNumber);
      KeepSecond(P1, S2, (x: Contact) => MatchesRequest(x, req.email, req.phoneNumber));
    }
    assert ChoosePrimary([S2]) == S2;
    assert Created(db, req, [S2], S2) == Db([P1, S2, U3], 4) by {
      assert HasNewInfo([S2], McFly, Phone3);
      assert NewContact(3, req, Secondary, Some(2)) == U3;
      assert [P1, S2] + [U3] == [P1, S2, U3];
    }
    assert Merged(Db([P1, S2, U3], 4), [S2], S2) == Db([P1, S2, U3], 4) by {
      Where1(S2, (x: Contact) => x.id != S2.id && x.linkPrecedence == Primary);
    }
  }

  lemma SecondaryFallbackCluster()
    ensures Cluster([P1, S2, U3], 2) == [S2, U3]
  {
    assert !InCluster(P1, 2) && InCluster(S2, 2) && InCluster(U3, 2);
    KeepLastTwo(P1, S2, U3, (x: Contact) => InCluster(x, 2));
  }

  lemma SecondaryFallbackEmails()
    ensures ValueList(EmailColumn([S2, U3]), S2.email) == [McFly]
  {
    Distinctions();
    assert EmailColumn([S2, U3]) == [Some(McFly), Some(McFly)];
    Present2(McFly, McFly);
    Dedup2(McFly, McFly);
    AlreadyFirst([McFly], McFly);
  }

  lemma SecondaryFallbackPhones()
    ensures ValueList(PhoneColumn([S2, U3]), S2.phoneNumber) == [Phone1, Phone3]
  {
    Distinctions();
    assert PhoneColumn([S2, U3]) == [Some(Phone1), Some(Phone3)];
    Present2(Phone1, Phone3);
    Dedup2(Phone1, Phone3);
    AlreadyFirst([Phone1, Phone3], Phone1);
  }

  lemma SecondaryFallbackSecondaries()
    ensures SecondaryIds([S2, U3], 2) == [3]
  {
    KeepSecond(S2, U3, (x: Contact) => x.id != 2);
    assert Ids([U3]) == [3];
  }

  lemma SecondaryFallbackCall()
    ensures Resolve(Db([P1, S2], 3), Request(McFly, Phone3)) ==
      (Db([P1, S2, U3], 4), Success(ClusterView(2, [McFly], [Phone1, Phone3], [3])))
  {
    SecondaryFallbackTable();
    SecondaryFallbackCluster();
    SecondaryFallbackEmails();
    SecondaryFallbackPhones();
    SecondaryFallbackSecondaries();
  }

  /** The table left by the `{mcfly, 999}` call is well formed. */
  lemma SecondaryFallbackWellFormed()
    ensures WellFormed(Db([P1, S2, U3], 4))
  {
    Distinctions();
    var rows := [P1, S2, U3];
    assert rows[1].linkedId.value == rows[0].id;
    assert rows[2].linkedId.value == rows[1].id;
  }

  /** After calls 1 and 2, `{mcfly, 999}` matches only the secondary S2. Line 64
      falls back to S2, and line 75 links the new row to it: the table stays well
      formed but now holds a secondary-to-secondary chain, and the answer names
      S2 as the primary and leaves P1 out. */
  lemma NewSecondaryLinkedToSecondary()
    ensures var (after, res) := Resolve(Db([P1, S2], 3), Request(McFly, Phone3));
      && WellFormed(after)
      && after.rows[2].linkedId == Some(2) && after.rows[1].id == 2
      && after.rows[1].linkPrecedence == Secondary
      && res == Success(ClusterView(2, [McFly], [Phone1, Phone3], [3]))
  {
    SecondaryFallbackCall();
    SecondaryFallbackWellFormed();
  }
}
