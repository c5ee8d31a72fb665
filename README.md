# Identity reconciliation (`identifyContact`) in Dafny

This project models the identity-reconciliation routine `identifyContact` of
`src/services/contact.ts` and proves properties of it. A customer is known by
one or more contact rows. The rows of one identity form a *cluster*: one
*primary* row and *secondary* rows whose `linkedId` names the primary. An
identify request carries an optional email and an optional phone number. The
routine then does the following, in order:

1. It finds the live rows that carry either identifier, oldest first.
2. If none do, it creates a new primary.
3. Otherwise it picks the cluster's primary.
4. If the request brings an identifier none of the matches has, it adds a
   secondary linked to that primary.
5. It demotes every other matched primary to a secondary of the chosen one.
6. It re-reads the cluster and answers with the cluster's distinct emails and
   phone numbers (the primary's own first) and the secondary ids.

Modules:

- `Contacts` (`contact.dfy`): the data model.
  - `Contact` rows, the `Request`, the `ClusterView` response.
  - `Db`, the table's contents: its rows in creation order and the next id.
  - `WellFormed`, the consistency the resolver keeps:
    - ids increase with creation order;
    - a row is primary exactly when it has no link;
    - a link names an older row;
    - no stored identifier is empty.
  - A request field is a string; `""` stands for absent, as `email || null` treats it.
- `Queries` (`queries.dfy`): the pure parts of the routine.
  - The filters: the match query, the cluster re-read, the demotion targets.
  - The choice of the primary (`Array.prototype.find`) and the new-information check.
  - The row-wise effect of the bulk update.
- `Response` (`response.dfy`): response assembly.
  - `new Set` de-duplication, modelled in first-occurrence order.
  - The primary's value moved to the front. `MoveToFront` does this in place on
    an `array`, as `splice`/`unshift` do.
  - The secondary ids.
- `Resolver` (`resolver.dfy`): one call as a function `Resolve` from a table and
  a request to the new table and the result, plus the lemmas about it.
- `ContactStore` (`store.dfy`): the store in place of the Prisma client.
  - A class `Store` holding the row sequence and the id counter.
  - Methods standing for `create`, `updateMany` and the two `findMany` queries.
  - `Identify`, the routine run step by step against the store. Its contract
    proves it equal to `Resolve` and proves it keeps the store well formed.
- `Scenario` (`scenario.dfy`): the five calls of `src/tests/contact.test.ts`,
  evaluated on an empty table and replayed on a `Store` (`ReplayOnStore`).
  Also three concrete calls showing behaviours of the code described below.

Creation order is modelled as row order. All row ids increase along the table,
so `orderBy: { createdAt: 'asc' }` is table order and "oldest" is "smallest id".

### Behaviour of the code kept as written

A cluster is meant to have every secondary link directly to its primary
("no chains"). The code does not keep that, in two places:

- The bulk update on lines 88-98 relinks the demoted primaries but not their
  own secondaries. `Scenario.MergeLeavesChain` exhibits a call that leaves a
  secondary linked to a demoted primary. The re-read on lines 102-110 follows
  one link only, so that secondary's id and email are missing from the response.
- The new secondary of lines 71-78 is linked to the row line 64 chose, and under
  the fallback described below that row is itself a secondary.
  `Scenario.NewSecondaryLinkedToSecondary` exhibits such a call.

The model follows the code. `Contacts.WellFormed` therefore does not require
links to point at primaries, and both tables above are well formed.

When the matches hold no primary, line 64 falls back to the first match, which
is a secondary. The response then names that secondary as `primaryContactId`.
`Scenario.SecondaryOnlyMatch` shows this for a request carrying only a
secondary's email.

## Model

| member | source | states |
|---|---|---|
| Contacts.OrNull | src/services/contact.ts:47-48 | a request field is stored as null exactly when it is empty, and as itself otherwise |
| Contacts.AsList | src/services/contact.ts:56-57 | the new-primary response lists a field exactly when it is non-empty |
| Contacts.WellFormed | src/services/contact.ts:45-98 | definition of the table consistency the routine keeps (ids in creation order, a link exactly on secondaries and only to an older row, no empty identifier); kept by Resolver.ResolveKeepsWellFormed |
| Queries.Where | src/services/contact.ts:30-41 | a filter keeps exactly the rows satisfying its condition, never more rows than it was given, in creation order |
| Queries.MatchesRequest | src/services/contact.ts:30-41 | definition of the match condition; its properties are stated by Resolver.NothingFoundIffUnknown and ContactStore.Store.FindMatching |
| Queries.Matches | src/services/contact.ts:30-41 | definition of the match query; its properties are stated by Queries.Where and Resolver.NothingFoundIffUnknown |
| Queries.InCluster | src/services/contact.ts:102-110 | definition of the re-read condition; its properties are stated by Resolver.ClusterMembers |
| Queries.Cluster | src/services/contact.ts:102-110 | definition of the cluster re-read; its properties are stated by Resolver.ClusterMembers and Resolver.MatchedCallResponse |
| Queries.FirstPrimary | src/services/contact.ts:64 | `find` returns the first primary's position, with only secondaries before it, or nothing when every match is secondary |
| Queries.ChoosePrimary | src/services/contact.ts:64 | the chosen primary is a match. It is the first matched primary, or the first match when no match is primary |
| Queries.ChosenPrimaryIsOldest | src/services/contact.ts:64 | when a matched primary exists, the chosen row is a primary and no matched primary is older |
| Queries.HasNewInfo | src/services/contact.ts:67-68 | definition of the new-information check; its properties are stated by Resolver.SecondaryCreatedIffNewIdentifier |
| Queries.DemotionTargets | src/services/contact.ts:82-85 | definition of the rows to demote; its properties are stated by Resolver.TargetIds and Resolver.DemotedAreYounger |
| Queries.Ids | src/services/contact.ts:91 | the id list has one entry per row, each row's id at its position |
| Queries.DemoteRow | src/services/contact.ts:94-97 | definition of one row after the bulk update; its properties are stated by Resolver.MatchedCallRows |
| Queries.Demote | src/services/contact.ts:88-98 | the bulk update keeps the number of rows (the row-wise effect is stated by Resolver.MatchedCallRows) |
| Response.Present | src/services/contact.ts:114-116 | the non-null values of a column are exactly the values present in it |
| Response.Dedup | src/services/contact.ts:113-117 | de-duplication yields a list without repeats holding exactly the values of its input |
| Response.EmailColumn | src/services/contact.ts:115 | definition of the cluster's email column; its properties are stated by Response.RespondFacts |
| Response.PhoneColumn | src/services/contact.ts:120 | definition of the cluster's phone column; its properties are stated by Response.RespondFacts |
| Response.IndexOf | src/services/contact.ts:126 | `indexOf` of a present value is the position of its first occurrence |
| Response.MovedToFront | src/services/contact.ts:126-127 | definition of `splice` then `unshift` on the first occurrence; its properties are stated by Response.MovedToFrontReorders and Response.MovedToFrontDistinct |
| Response.MovedToFrontReorders | src/services/contact.ts:125-127 | moving a value to the front puts it first and only reorders the list (same length, same multiset) |
| Response.MovedToFrontDistinct | src/services/contact.ts:125-127 | moving a value to the front of a list without repeats keeps it without repeats |
| Response.PrimaryFirst | src/services/contact.ts:124-132 | definition of the guarded move to the front; its properties are stated by Response.ValueListFacts |
| Response.ValueList | src/services/contact.ts:113-132 | definition of one response list; its properties are stated by Response.ValueListFacts |
| Response.ValueListFacts | src/services/contact.ts:113-132 | a response list has no repeats, holds exactly the present values of its column, and starts with the primary's own value when that is non-empty |
| Response.SecondaryIds | src/services/contact.ts:139-141 | definition of the secondary ids; its properties are stated by Response.SecondaryIdsFacts |
| Response.SecondaryIdsFacts | src/services/contact.ts:139-141 | the secondary ids exclude the primary's id, are exactly the other members' ids, and ascend when the members are in creation order |
| Response.Respond | src/services/contact.ts:134-143 | definition of the response; its properties are stated by Response.RespondFacts |
| Response.RespondFacts | src/services/contact.ts:134-143 | for a primary in the cluster, the response names it and lists every present email and phone of the cluster once, the primary's own first, plus all other members' ids |
| Response.MoveToFront | src/services/contact.ts:126-127 | searching for the first occurrence, then shifting the earlier elements up by one in place, gives the moved-to-front list |
| Response.PutPrimaryFirst | src/services/contact.ts:124-132 | the in-place edit guarded by `includes` gives the primary-first list |
| Response.AssembleResponse | src/services/contact.ts:112-143 | the assembled response is the specified response of the primary and the re-read cluster |
| Resolver.Resolve | src/services/contact.ts:20-143 | definition of one call (the new table and the result); its properties are stated by the Resolver lemmas below, and ContactStore.Store.Identify is proved equal to it |
| Resolver.IsValid | src/services/contact.ts:25 | definition of the validation; its properties are stated by Resolver.InvalidRequestFails |
| Resolver.NewContact | src/services/contact.ts:45-51 | definition of the row passed to `create`; its properties are stated by Resolver.UnmatchedRequestCreatesPrimary and Resolver.SecondaryCreatedIffNewIdentifier |
| Resolver.Found | src/services/contact.ts:30-41 | definition of the match query on the table; its properties are stated by Resolver.NothingFoundIffUnknown |
| Resolver.Created | src/services/contact.ts:67-79 | definition of the table after the secondary creation; its properties are stated by Resolver.SecondaryCreatedIffNewIdentifier and Resolver.MatchedCallRows |
| Resolver.Merged | src/services/contact.ts:82-99 | definition of the table after the bulk demotion; its properties are stated by Resolver.MatchedCallRows and Resolver.TargetIds |
| Resolver.AfterMatch | src/services/contact.ts:64-99 | definition of the table after a matched call; its properties are stated by Resolver.MatchedCallRows and Resolver.MatchedRowsWellFormed, and ContactStore.Store.Reconcile is proved to reach it |
| Resolver.InvalidRequestFails | src/services/contact.ts:25-27 | a call fails exactly when both identifiers are empty, and then leaves the table unchanged |
| Resolver.UnmatchedRequestCreatesPrimary | src/services/contact.ts:44-60 | with no match, the call appends one primary with the next id and the request's fields, and answers with that id, the request's identifiers and no secondaries |
| Resolver.NothingFoundIffUnknown | src/services/contact.ts:30-44 | the match query is empty exactly when no live row carries either supplied identifier |
| Resolver.IdsMembership | src/services/contact.ts:91 | an id is in the id list exactly when some row has it |
| Resolver.TargetIds | src/services/contact.ts:82-91 | a table row's id is among the ids passed to the bulk update exactly when the row is a matched primary other than the chosen one |
| Resolver.MatchedCallRows | src/services/contact.ts:67-99 | after a matched call, each old row keeps its position and changes only if demoted (to a secondary linked to the chosen primary), and the only row appended is the new secondary |
| Resolver.DemotedAreYounger | src/services/contact.ts:82-85 | a demoted row is younger than the surviving primary, which is a primary |
| Resolver.SecondaryCreatedIffNewIdentifier | src/services/contact.ts:67-79 | a row is added exactly when a supplied identifier is on no live row. The row is a secondary of the chosen primary carrying the request's fields, and at most one row is added |
| Resolver.KnownIdentifiersCreateNothing | src/services/contact.ts:67-79 | a request whose identifiers are all on live rows creates no row and leaves the id counter as it was |
| Resolver.ResolveKeepsWellFormed | src/services/contact.ts:44-99 | every call keeps the table well formed |
| Resolver.MatchedRowsWellFormed | src/services/contact.ts:67-99 | a matched call keeps the table well formed |
| Resolver.RowsAfterMatchWellFormed | src/services/contact.ts:71-98 | demoting only rows younger than an existing primary, and appending a secondary linked to it, keeps the table well formed |
| Resolver.MatchedCallResponse | src/services/contact.ts:102-143 | after a matched call the chosen primary is in the re-read cluster. The response names it, lists each email and phone of the cluster once with the primary's own first, and lists the ids of all other members |
| Resolver.ClusterMembers | src/services/contact.ts:102-110 | the re-read cluster is exactly the live rows that are the primary or link to it |
| Resolver.ResolveIdempotent | src/services/contact.ts:20-143 | repeating a call on the table it produced changes nothing and gives the same result |
| Resolver.NewestRowAlone | src/services/contact.ts:102-110 | a just-created primary is the only member of its cluster |
| Resolver.SingletonResponse | src/services/contact.ts:112-143 | the response for a one-row cluster lists that row's identifiers and no secondaries |
| Resolver.RepeatFirstContact | src/services/contact.ts:44-60 | repeating a call that created a new primary changes nothing and gives the same result |
| Resolver.OnlyChosenPrimaryLeft | src/services/contact.ts:82-99 | after a matched call the chosen primary is still in the table and is the only matching primary |
| Resolver.RequestRecorded | src/services/contact.ts:67-79 | after a matched call each supplied identifier is on a matching row |
| Resolver.FirstMatchStays | src/services/contact.ts:64 | when the chosen row is a secondary, the first match is the same after the call |
| Resolver.SamePrimaryChosen | src/services/contact.ts:64 | line 64 picks the same row from a match list that keeps it as the only primary (or keeps the first row when it is a secondary) |
| Resolver.RepeatMatchedCall | src/services/contact.ts:64-143 | repeating a matched call changes nothing and gives the same result |
| ContactStore.Store.constructor | src/services/contact.ts:4 | a new store is empty, well formed, and hands out id 1 first |
| ContactStore.Store.Load | src/services/contact.ts:4 | a store loaded with a well-formed table holds exactly that table |
| ContactStore.Store.Create | src/services/contact.ts:45-51 | `create` appends a live row with the next id and the given fields, returns it and advances the counter |
| ContactStore.Store.UpdateMany | src/services/contact.ts:88-98 | `updateMany` makes every listed row a secondary linked to the given id and leaves the counter alone |
| ContactStore.Store.FindMatching | src/services/contact.ts:30-41 | the match query returns exactly the live rows carrying a supplied identifier, oldest first, without changing the store |
| ContactStore.Store.FindCluster | src/services/contact.ts:102-110 | the re-read returns exactly the live rows that are the primary or link to it, without changing the store |
| ContactStore.Store.Reconcile | src/services/contact.ts:67-99 | after a non-empty match, creating the secondary when there is new information and then demoting the other matched primaries keeps the store well formed and leaves it holding the table `Resolve` specifies for a matched call |
| ContactStore.Store.Identify | src/services/contact.ts:20-151 | running the routine against the store keeps it well formed, and the new table and the result are those of `Resolve` |
| Scenario.Call1 | src/tests/contact.test.ts:18-21 | the first call on an empty table creates primary 1 and answers with its email and phone |
| Scenario.Call2 | src/tests/contact.test.ts:27-30 | the second call adds secondary 2 linked to 1. The answer lists both emails (Lorraine's first), the one phone and secondary 2 |
| Scenario.Call3 | src/tests/contact.test.ts:36-38 | the phone-only call changes nothing and answers as call 2 did |
| Scenario.Call4 | src/tests/contact.test.ts:44-47 | the fourth call creates the unrelated primary 3 |
| Scenario.Call5 | src/tests/contact.test.ts:53-56 | the fifth call demotes 3 under the older primary 1, creates nothing, and lists three emails, two phones and secondaries 2 and 3 |
| Scenario.FiveCalls | src/tests/contact.test.ts:16-58 | the five calls in sequence give those results |
| Scenario.ReplayOnStore | src/tests/contact.test.ts:16-58 | the five calls run against a new `Store` through `Identify`, asserting each call's result and the final table of Scenario.FiveCalls (a method without a contract) |
| Scenario.SecondaryOnlyMatch | src/services/contact.ts:64 | a request matching only a secondary reports that secondary as the primary |
| Scenario.MergeLeavesChain | src/services/contact.ts:88-110 | from a well-formed table, a merge leaves a secondary linked to a demoted primary, and the response omits that secondary |
| Scenario.NewSecondaryLinkedToSecondary | src/services/contact.ts:64-78 | from calls 1 and 2, a request matching only a secondary links the new row to that secondary; the table stays well formed, and the answer names the secondary as the primary |

## Left out

- The Prisma client and the database (`src/services/contact.ts:1-4`) are replaced by the in-memory `Store`.
- Prisma's treatment of `undefined` inside an `OR` filter (lines 33-34) is library behaviour and is not modelled. The match is "the email equals the supplied non-empty email, or the phone equals the supplied non-empty phone, and the row is live".
- The re-read on lines 102-110 has no `orderBy`; the model returns the cluster in table (creation) order.
- `async`/`await` is not modelled. Each call is one atomic sequential step, so the race between concurrent calls that can each create a primary is not modelled.
- Store failures are not modelled: the in-memory store cannot fail. The `catch`/`finally` blocks (lines 144-150) only log with `console.error` and rethrow, which is I/O.
- The request type admits `undefined`, `null` and `""` separately. The model uses strings with `""` for all three, which lines 25, 33-34, 47-48, 56-57 and 67-68 treat alike.
- `deletedAt` is never set by this routine. The model's `deleted` flag is part of the input table only.
- Ids are unbounded naturals; the database's integer width and autoincrement overflow are not modelled.
- Queries.Demote: its own contract states only that the row count is kept; the row-by-row effect of the update is stated by Resolver.MatchedCallRows and ContactStore.Store.UpdateMany.
- `src/index.ts` is not part of this model (HTTP server bootstrap, health endpoint, error handler).
- `src/routes/identify.ts` is not part of this model (HTTP routing and status codes; the library email-format check).
- `src/middleware/validate.ts` is not part of this model. Its "at least one identifier" check duplicates line 25, and its type checks disappear with typed inputs.
