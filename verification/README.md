# Hostel records: the local store and the bed list

This project models, in Dafny, the core of a hostel-management mobile app.
It has two parts.

- **The on-device record store** (`lib/db.ts`), in `db.dfy`. It has four
  tables: tenants, rooms, beds and payments. The schema's constraints are
  explicit checks:
  - every table's primary key;
  - the UNIQUE room number;
  - the UNIQUE `(roomId, bedNumber)` pair;
  - the foreign keys from beds to rooms and tenants, and from payments to
    tenants;
  - their ON DELETE rules: CASCADE from room to beds and from tenant to
    payments, SET NULL from tenant to `beds.tenantId`.

  The store is a class `Db.Store` with one map per table, from primary key to
  row. Its invariant `Valid()` is the conjunction of all constraints.
  - Inserts and updates that would break a constraint return
    `Violated(PrimaryKey | Unique | ForeignKey)` and change nothing. That is
    how the SQL engine rejects such a statement, and the source lets the
    error reach its caller.
  - Updates follow the source in two steps. First the JavaScript merge
    `{ ...current, ...patch, updatedAt: now }`, then an UPDATE whose SET list
    names only some columns. So a bed's `id`, `roomId` and `createdAt`
    survive any patch.
  - Deletes apply the ON DELETE rules.
  - The `SELECT ... ORDER BY` listings are ghost functions, proved to return
    each matching row exactly once, sorted under the store's default (binary)
    text collation (`collation.dfy`).
  - `ensureRoomAndBedForTenant` and the seed step of `initDb` are methods
    built from the insert methods. They stop at the first statement that
    fails, as an uncaught exception does in the source.

  The seed links the second sample tenant to bed B-1 of room R-205, although
  that tenant's own record names bed B-2. B-2 stays vacant. The model keeps
  the seed data exactly as written.
- **The bed list of the room screen** (`components/BedManagement.tsx`), in
  `bed_management.dfy`. This is the list logic of the add, edit-save and
  confirmed-delete handlers. Each is a pure function from the old list to
  the new one. It returns `None` when the form check rejects the input.

`wrappers.dfy` holds the `Option` type.

## Model

| member | source | states |
|---|---|---|
| Collation.TextLeReflexive | lib/db.ts:246 | every text sorts no later than itself under the binary collation used by ORDER BY |
| Collation.TextLeTotal | lib/db.ts:246 | any two texts are comparable, so ORDER BY yields a total order |
| Collation.TextLeAntisymmetric | lib/db.ts:246 | two texts that each sort no later than the other are equal |
| Collation.TextLeTransitive | lib/db.ts:246 | the collation order is transitive |
| Collation.OrderBy | lib/db.ts:275 | sorting a set of rows by a text key yields each row exactly once, and the keys are in ascending order (or descending order for DESC) |
| Db.UpdatedTenantRow | lib/db.ts:226-238 | an updated tenant keeps its id and createdAt and gets the new updatedAt; every other column takes the patch's value when the patch names it and keeps its value otherwise |
| Db.UpdatedRoomRow | lib/db.ts:260-267 | an updated room keeps its id and createdAt and gets the new updatedAt; roomNumber and capacity take the patch's value when given and keep the old one otherwise |
| Db.UpdatedBedRow | lib/db.ts:289-296 | an updated bed keeps id, roomId and createdAt even when the patch names them; bedNumber, isOccupied, tenantId and monthlyRent take the patch's value when given and keep the old one otherwise |
| Db.DeletingRoomKeepsConsistent | lib/db.ts:110-123 | removing a room together with its beds (ON DELETE CASCADE) keeps every constraint; with an absent id the beds are untouched |
| Db.DeletingTenantKeepsConsistent | lib/db.ts:110-136 | removing a tenant, its payments (CASCADE) and its bed links (SET NULL) keeps every constraint; with an absent id nothing changes |
| Db.ClearingTenantRefsKeepsBeds | lib/db.ts:120 | setting a deleted tenant's bed links to null keeps every bed in its own slot and leaves no reference to the deleted tenant |
| Db.Store.constructor | lib/db.ts:76-137 | a fresh database has four empty tables and satisfies every constraint |
| Db.Store.GetTenant | lib/db.ts:210-212 | the lookup finds a tenant exactly when one has that id, and returns that row |
| Db.Store.GetRoomByNumber | lib/db.ts:249-251 | the lookup finds a room exactly when one has that number, and returns that stored row |
| Db.Store.FindBed | lib/db.ts:328 | the lookup finds a bed exactly when the (room, bed number) slot is used, and returns that stored row |
| Db.Store.ListTenants | lib/db.ts:206-208 | every tenant appears once, newest createdAt first |
| Db.Store.ListRooms | lib/db.ts:245-247 | every room appears once, in ascending roomNumber order |
| Db.Store.ListBedsByRoom | lib/db.ts:274-280 | exactly the beds of that room appear, each once, in ascending bedNumber order |
| Db.Store.ListPaymentsForTenant | lib/db.ts:303-305 | exactly that tenant's payments appear, each once, latest date first |
| Db.Store.CreateTenant | lib/db.ts:214-224 | the insert succeeds exactly when the id is new and then adds that row; otherwise it reports a primary-key violation and changes nothing |
| Db.Store.CreateRoom | lib/db.ts:253-258 | the insert succeeds exactly when the id is new and no room has that number; a used number is a UNIQUE violation; a failed insert changes nothing |
| Db.Store.CreateBed | lib/db.ts:282-287 | the insert succeeds exactly when the id is new, the (room, bed number) slot is free, the room exists and any tenant exists; each violation names its cause; a failed insert changes nothing |
| Db.Store.CreatePayment | lib/db.ts:307-312 | the insert succeeds exactly when the id is new and the tenant exists; a failed insert changes nothing |
| Db.Store.UpdateTenant | lib/db.ts:226-238 | an absent id changes nothing; otherwise only that row changes, to the merged-and-written row |
| Db.Store.UpdateRoom | lib/db.ts:260-267 | an absent id changes nothing; otherwise the row becomes the merged-and-written row, unless its new number belongs to another room, which is a UNIQUE violation that changes nothing |
| Db.Store.UpdateBed | lib/db.ts:289-296 | an absent id changes nothing; otherwise the row becomes the merged-and-written row, unless its slot is taken by another bed or its tenant does not exist, which is a violation that changes nothing; a UNIQUE violation is reported only when another bed holds the slot, and a foreign-key violation only when a reference does not resolve |
| Db.Store.DeleteTenant | lib/db.ts:240-242 | the tenant and all its payments are removed; beds that pointed at it remain with tenantId set to null and nothing else changed; rooms are unchanged |
| Db.Store.DeleteRoom | lib/db.ts:269-271 | the room and exactly its beds are removed; other beds, tenants and payments are unchanged |
| Db.Store.DeleteBed | lib/db.ts:298-300 | only that bed is removed |
| Db.Store.DeletePayment | lib/db.ts:314-316 | only that payment is removed |
| Db.Store.EnsureRoomAndBedForTenant | lib/db.ts:319-333 | afterwards a room with the tenant's room number exists; if none existed, a room with capacity 1 was added; no existing row is modified; if the room already held the bed, nothing changes; otherwise an occupied bed linked to the tenant at the tenant's rent is added exactly when the tenant exists, and the missing tenant is a foreign-key violation |
| Db.Store.EnsureRoomAndBedTwice | lib/db.ts:319-333 | a second call for the same tenant inserts no row and reports what the first call reported |
| Db.Store.InitDb | lib/db.ts:139-202 | a non-empty tenants table leaves the store untouched; otherwise the two sample tenants are inserted, and the rooms, the five beds and the payment follow exactly when R-101 and R-205 are free; a taken number aborts the remaining statements |
| Db.Store.InsertSeedBedsAndPayment | lib/db.ts:192-201 | once both sample rooms and tenants exist, the five sample beds and the one payment are inserted |
| Db.Store.InsertSeedTenants | lib/db.ts:143-184 | the two sample tenants go into the empty tenants table |
| Db.Store.InsertSeedRooms | lib/db.ts:187-190 | both sample rooms are inserted exactly when their numbers are free; the first failure stops the second insert |
| Db.Store.InsertSeedBedsOfRoom1 | lib/db.ts:192-197 | room R-101 gets bed B-1, occupied by the first tenant, and a vacant B-2 |
| Db.Store.InsertSeedBedsOfRoom2 | lib/db.ts:194-197 | room R-205 gets bed B-1, linked to the second tenant, and vacant B-2 and B-3 |
| Db.OpenSeededDatabase | lib/db.ts:139-202 | on a brand-new database the seed step succeeds and leaves every constraint satisfied, exactly the sample tenants, rooms, beds and payment, rooms listed R-101 then R-205, each room's beds in bed-number order, and the one payment under the first tenant |
| Db.SeedBedsOfRoom1 | lib/db.ts:192-193 | R-101's seeded beds are exactly B-1 and B-2 |
| Db.SeedBedsOfRoom2 | lib/db.ts:194-196 | R-205's seeded beds are exactly B-1, B-2 and B-3 |
| Db.SeededRoom1Listing | lib/db.ts:274-280 | listing R-101 after seeding gives B-1 then B-2 |
| Db.SeededRoom2Listing | lib/db.ts:274-280 | listing R-205 after seeding gives B-1, B-2, B-3 |
| Db.SeededRoomsListing | lib/db.ts:245-247 | listing rooms after seeding gives R-101 then R-205 |
| Db.SeededPaymentsListing | lib/db.ts:199-201 | after seeding there are two tenants; the first has exactly the one 12000 payment and the second has none |
| BedManagement.AddBed | components/BedManagement.tsx:39-57 | an empty bed number or rent produces no list; otherwise the old list, unchanged and in order, followed by exactly one vacant bed of this room with the form's number and parsed rent |
| BedManagement.Rewrite | components/BedManagement.tsx:74-82 | the list keeps its length; beds with the edited id take the new number and rent and nothing else; the other beds are unchanged |
| BedManagement.UpdateBed | components/BedManagement.tsx:68-88 | rejected when nothing is being edited or a field is empty; otherwise same length and order, ids, rooms, occupancy and tenants kept, and only beds with the edited id change, and only in number and rent |
| BedManagement.DeleteBed | components/BedManagement.tsx:99-101 | the result holds exactly the old beds whose id differs from the deleted one |
| BedManagement.DeleteKeepsOrder | components/BedManagement.tsx:100 | the surviving beds keep their relative order |
| BedManagement.DeleteDistributes | components/BedManagement.tsx:100 | deleting from two lists joined together is the same as deleting from each list and joining the results |
| BedManagement.DeleteAbsent | components/BedManagement.tsx:100 | deleting an id no bed carries returns the list unchanged |
| BedManagement.DeleteRemovesId | components/BedManagement.tsx:100 | after a delete no bed carries that id |
| BedManagement.DeleteIdempotent | components/BedManagement.tsx:99-101 | confirming the same delete twice gives what confirming it once gave |
| BedManagement.AddThenDelete | components/BedManagement.tsx:45-54 | adding a bed under a fresh id and then deleting that id gives back the original list |
| BedManagement.UpdateAbsent | components/BedManagement.tsx:74-82 | saving an edit for a bed no longer in the list returns the same list |
| BedManagement.UpdateKeepsIds | components/BedManagement.tsx:74-82 | saving an edit keeps the list's ids in the same order |

## Left out

- The embedded SQL engine and its SQL text are not modelled. The tables are maps and the constraints are explicit checks. `PRAGMA foreign_keys = ON` and `CREATE TABLE IF NOT EXISTS` are taken as done: a new `Db.Store` already has its four empty tables.
- `initDb` is synchronous here. Its `async` wrapper and the `COUNT(*)` query are modelled only as the check that the tenants table is empty.
- Generated ids (`randomUUID`, `Date.now().toString()`) and timestamps (`nowIso`) are parameters. That the `randomUUID` ids are unused is a precondition of `Db.Store.InitDb` and `Db.Store.EnsureRoomAndBedForTenant` only. `BedManagement.AddBed` accepts any id, as the source does; only the lemma `BedManagement.AddThenDelete` assumes the id is not already in the list.
- Db.Store.InitDb, Db.Store.EnsureRoomAndBedForTenant: both assume their generated ids are unused. With a colliding id the source would fail with a primary-key error; the model does not cover that case.
- A patch key that is present with the value `undefined` is not modelled. A patch field is either absent or carries a value, and `null` is a value for a nullable column.
- Storage classes and type affinity are not modelled. Every column holds the value it was given; `Number(b.isOccupied)` in `listBedsByRoom` is therefore the identity, and `isOccupied` is an integer.
- Db.Store.ListTenants, Db.Store.ListRooms, Db.Store.ListBedsByRoom, Db.Store.ListPaymentsForTenant: the order among rows with equal sort keys is unspecified, as in SQL. The contracts state ordering only up to such ties.
- Db.Store.CreateBed, Db.Store.UpdateRoom, Db.Store.UpdateBed: when a statement breaks several constraints at once, the model reports one of them in a fixed order (primary key, then unique, then foreign key). The engine's choice is not modelled.
- Statement atomicity is modelled per statement. There are no transactions: a multi-statement operation that stops part-way keeps the statements before the failure, as the source does.
- `parseInt` on the rent field is an abstract function parameter (`parseRent`). NaN and partial parses are not modelled.
- All React state is left out: the `useState` setters, the edit modal, the `Alert` dialogs (including the delete confirmation's Cancel branch), `handleEditBed`, `BedCard` and the styles. They are UI only.
- `onBedsUpdate` is not modelled. The handlers' result is the list they pass to it.
