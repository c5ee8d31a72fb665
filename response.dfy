/** Response assembly of `identifyContact` (lines 112-143): the de-duplicated
    email and phone lists with the primary's own value first, and the
    secondary ids. */
module Response {
  import opened Contacts
  import opened Queries

  predicate Distinct(s: seq<string>) {
    forall i, j :: 0 <= i < j < |s| ==> s[i] != s[j]
  }

  /** `rows.map(c => c.email)` */
  function EmailColumn(rows: seq<Contact>): seq<Option<string>> {
    seq(|rows|, i requires 0 <= i < |rows| => rows[i].email)
  }

  /** `rows.map(c => c.phoneNumber)` */
  function PhoneColumn(rows: seq<Contact>): seq<Option<string>> {
    seq(|rows|, i requires 0 <= i < |rows| => rows[i].phoneNumber)
  }

  /** `.filter(v => v !== null)`: the present values, in order. */
  function Present(column: seq<Option<string>>): (r: seq<string>)
    ensures forall v :: v in r <==> Some(v) in column
    decreases |column|
  {
    if column == [] then []
    else
      var init := Present(column[..|column| - 1]);
      assert column == column[..|column| - 1] + [column[|column| - 1]];
      match column[|column| - 1]
      case None => init
      case Some(v) => init + [v]
  }

  /** `Array.from(new Set(values))`: each value once, at its first occurrence. */
  function Dedup(values: seq<string>): (r: seq<string>)
    ensures Distinct(r)
    ensures forall v :: v in r <==> v in values
    decreases |values|
  {
    if values == [] then []
    else
      var init := Dedup(values[..|values| - 1]);
      var last := values[|values| - 1];
      assert values == values[..|values| - 1] + [last];
      if last in init then init else init + [last]
  }

  /** `values.indexOf(x)` for a value that is present. */
  function IndexOf(values: seq<string>, x: string): (i: nat)
    requires x in values
    ensures i < |values| && values[i] == x
    ensures forall k :: 0 <= k < i ==> values[k] != x
  {
    if values[0] == x then 0 else 1 + IndexOf(values[1..], x)
  }

  /** `values.splice(values.indexOf(x), 1)` followed by `values.unshift(x)`. */
  function MovedToFront(values: seq<string>, x: string): seq<string>
    requires x in values
  {
    var i := IndexOf(values, x);
    [x] + values[..i] + values[i + 1..]
  }

  /** Where each element of the moved list comes from. */
  lemma MovedToFrontAt(values: seq<string>, x: string, k: nat)
    requires x in values && k < |values|
    ensures |MovedToFront(values, x)| == |values|
    ensures MovedToFront(values, x)[k] ==
      var i := IndexOf(values, x);
      if k == 0 then values[i] else if k <= i then values[k - 1] else values[k]
  {
  }

  /** Moving a present value to the front puts it first and only reorders. */
  lemma MovedToFrontReorders(values: seq<string>, x: string)
    requires x in values
    ensures |MovedToFront(values, x)| == |values|
    ensures MovedToFront(values, x)[0] == x
    ensures multiset(MovedToFront(values, x)) == multiset(values)
  {
    var i := IndexOf(values, x);
    assert values == values[..i] + [x] + values[i + 1..];
    calc {
      multiset(MovedToFront(values, x));
      multiset([x]) + multiset(values[..i]) + multiset(values[i + 1..]);
      multiset(values[..i] + [x] + values[i + 1..]);
    }
  }

  /** Moving a value to the front of a distinct list keeps it distinct. */
  lemma MovedToFrontDistinct(values: seq<string>, x: string)
    requires x in values && Distinct(values)
    ensures Distinct(MovedToFront(values, x))
  {
    var i := IndexOf(values, x);
    var r := MovedToFront(values, x);
    forall p, q | 0 <= p < q < |r| ensures r[p] != r[q] {
      MovedToFrontAt(values, x, p);
      MovedToFrontAt(values, x, q);
      var p' := if p == 0 then i else if p <= i then p - 1 else p;
      var q' := if q == 0 then i else if q <= i then q - 1 else q;
      assert r[p] == values[p'] && r[q] == values[q'];
      if p' < q' {
        assert values[p'] != values[q'];
      } else {
        assert values[q'] != values[p'];
      }
    }
  }

  /** Lines 124-132: the primary's own value is moved to the front when it is
      a non-empty value that the list contains. */
  function PrimaryFirst(values: seq<string>, own: Option<string>): seq<string> {
    if own.Some? && own.value != "" && own.value in values
    then MovedToFront(values, own.value)
    else values
  }

  /** One response list of lines 113-132, built from a column of the cluster. */
  function ValueList(column: seq<Option<string>>, own: Option<string>): seq<string> {
    PrimaryFirst(Dedup(Present(column)), own)
  }

  /** A response list holds each present value of the column exactly once and
      starts with the primary's own value. */
  lemma ValueListFacts(column: seq<Option<string>>, own: Option<string>)
    requires own.Some? ==> own in column
    ensures Distinct(ValueList(column, own))
    ensures forall v :: v in ValueList(column, own) <==> Some(v) in column
    ensures own.Some? && own.value != "" ==>
      |ValueList(column, own)| > 0 && ValueList(column, own)[0] == own.value
  {
    var d := Dedup(Present(column));
    if own.Some? && own.value != "" && own.value in d {
      MovedToFrontReorders(d, own.value);
      MovedToFrontDistinct(d, own.value);
      var r := MovedToFront(d, own.value);
      forall v ensures v in r <==> v in d {
        calc {
          v in r;
          multiset(r)[v] > 0;
          multiset(d)[v] > 0;
          v in d;
        }
      }
    }
  }

  /** Lines 139-141: the cluster's ids other than the primary's, in cluster order. */
  function SecondaryIds(members: seq<Contact>, primaryId: nat): seq<nat> {
    Ids(Where(members, (c: Contact) => c.id != primaryId))
  }

  /** The secondary ids are exactly the other members' ids, never the primary's,
      and ascending when the cluster is in creation order. */
  lemma SecondaryIdsFacts(members: seq<Contact>, primaryId: nat)
    ensures primaryId !in SecondaryIds(members, primaryId)
    ensures forall id :: id in SecondaryIds(members, primaryId) <==>
      id != primaryId && exists c :: c in members && c.id == id
    ensures Increasing(members) ==>
      forall i, j :: 0 <= i < j < |SecondaryIds(members, primaryId)| ==>
        SecondaryIds(members, primaryId)[i] < SecondaryIds(members, primaryId)[j]
  {
    var others := Where(members, (c: Contact) => c.id != primaryId);
    var ids := SecondaryIds(members, primaryId);
    forall id ensures id in ids <==> id != primaryId && exists c :: c in members && c.id == id {
      if id in ids {
        var i :| 0 <= i < |ids| && ids[i] == id;
        assert others[i] in others;
      }
      if id != primaryId && exists c :: c in members && c.id == id {
        var c :| c in members && c.id == id;
        assert c in others;
        var i :| 0 <= i < |others| && others[i] == c;
        assert ids[i] == id;
      }
    }
  }

  /** The response of lines 134-143 for a primary and its re-read cluster. */
  function Respond(primary: Contact, members: seq<Contact>): ClusterView {
    ClusterView(
      primary.id,
      ValueList(EmailColumn(members), primary.email),
      ValueList(PhoneColumn(members), primary.phoneNumber),
      SecondaryIds(members, primary.id))
  }

  /** What the response promises when the primary is a member of the cluster. */
  lemma RespondFacts(primary: Contact, members: seq<Contact>)
    requires primary in members
    ensures Respond(primary, members).primaryContactId == primary.id
    ensures Distinct(Respond(primary, members).emails)
    ensures Distinct(Respond(primary, members).phoneNumbers)
    ensures forall e :: e in Respond(primary, members).emails <==>
      exists c :: c in members && c.email == Some(e)
    ensures forall p :: p in Respond(primary, members).phoneNumbers <==>
      exists c :: c in members && c.phoneNumber == Some(p)
    ensures primary.email.Some? && primary.email.value != "" ==>
      Respond(primary, members).emails[0] == primary.email.value
    ensures primary.phoneNumber.Some? && primary.phoneNumber.value != "" ==>
      Respond(primary, members).phoneNumbers[0] == primary.phoneNumber.value
    ensures primary.id !in Respond(primary, members).secondaryContactIds
    ensures forall id :: id in Respond(primary, members).secondaryContactIds <==>
      id != primary.id && exists c :: c in members && c.id == id
  {
    var k :| 0 <= k < |members| && members[k] == primary;
    var emails, phones := EmailColumn(members), PhoneColumn(members);
    assert emails[k] == primary.email && phones[k] == primary.phoneNumber;
    ValueListFacts(emails, primary.email);
    ValueListFacts(phones, primary.phoneNumber);
    SecondaryIdsFacts(members, primary.id);
    forall e ensures Some(e) in emails <==> exists c :: c in members && c.email == Some(e) {
      if Some(e) in emails {
        var i :| 0 <= i < |emails| && emails[i] == Some(e);
        assert members[i] in members;
      }
      if exists c :: c in members && c.email == Some(e) {
        var c :| c in members && c.email == Some(e);
        var i :| 0 <= i < |members| && members[i] == c;
        assert emails[i] == Some(e);
      }
    }
    forall p ensures Some(p) in phones <==> exists c :: c in members && c.phoneNumber == Some(p) {
      if Some(p) in phones {
        var i :| 0 <= i < |phones| && phones[i] == Some(p);
        assert members[i] in members;
      }
      if exists c :: c in members && c.phoneNumber == Some(p) {
        var c :| c in members && c.phoneNumber == Some(p);
        var i :| 0 <= i < |members| && members[i] == c;
        assert phones[i] == Some(p);
      }
    }
  }

  /** Lines 126-127 on the response array: find the first occurrence of `x`,
      remove it and put it in front, shifting the elements before it. */
  method MoveToFront(a: array<string>, x: string)
    requires x in a[..]
    modifies a
    ensures a[..] == MovedToFront(old(a[..]), x)
  {
    ghost var s := a[..];
    ghost var w := IndexOf(s, x);
    var i := 0;
    while a[i] != x
      invariant 0 <= i <= w
      invariant forall k :: 0 <= k < i ==> a[k] != x
      decreases w - i
    {
      i := i + 1;
    }
    assert i == w;
    var j := i;
    while j > 0
      invariant 0 <= j <= i
      invariant forall k :: 0 <= k <= j ==> a[k] == s[k]
      invariant forall k :: j < k <= i ==> a[k] == s[k - 1]
      invariant forall k :: i < k < a.Length ==> a[k] == s[k]
    {
      a[j] := a[j - 1];
      j := j - 1;
    }
    a[0] := x;
    forall k | 0 <= k < a.Length ensures a[k] == MovedToFront(s, x)[k] {
      MovedToFrontAt(s, x, k);
    }
    MovedToFrontAt(s, x, 0);
  }

  /** Lines 124-132 as the source runs them: the list is edited in place when
      the primary's own value is present in it. */
  method PutPrimaryFirst(values: seq<string>, own: Option<string>) returns (r: seq<string>)
    ensures r == PrimaryFirst(values, own)
  {
    r := values;
    if own.Some? && own.value != "" && own.value in values {
      var a := new string[|values|](i requires 0 <= i < |values| => values[i]);
      assert a[..] == values;
      MoveToFront(a, own.value);
      r := a[..];
    }
  }

  /** Lines 112-143: the de-duplicated identifiers of the cluster, the primary's
      own first (edited in place as the source does), and the other members' ids. */
  method AssembleResponse(primary: Contact, linked: seq<Contact>) returns (view: ClusterView)
    ensures view == Respond(primary, linked)
  {
    var emails := PutPrimaryFirst(Dedup(Present(EmailColumn(linked))), primary.email);
    var phoneNumbers := PutPrimaryFirst(Dedup(Present(PhoneColumn(linked))), primary.phoneNumber);
    view := ClusterView(primary.id, emails, phoneNumbers, SecondaryIds(linked, primary.id));
  }
}
