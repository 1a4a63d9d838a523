/**
 * The hostel's local record store (lib/db.ts): four tables (tenants, rooms,
 * beds, payments) kept by an embedded SQL store. Each table is a map from
 * primary key to row; the schema's constraints (primary keys, the unique
 * room number, the unique (roomId, bedNumber) pair, the foreign keys with
 * their ON DELETE rules) are explicit checks and the store invariant.
 *
 * A statement that would break a constraint fails with an `Outcome` naming
 * the constraint and leaves every table as it was. Identifiers and
 * timestamps, which the source draws from a UUID generator and the clock,
 * are parameters.
 */
module Db {
  import opened Wrappers
  import opened Collation

  type Uuid = string

  datatype TenantStatus = Active | Pending | Inactive

  datatype Tenant = Tenant(
    id: Uuid,
    name: string,
    email: string,
    phone: string,
    roomNumber: string,
    bedNumber: string,
    joinDate: string,
    rent: int,
    deposit: int,
    status: TenantStatus,
    lastPayment: Option<string>,
    nextPaymentDue: Option<string>,
    address: Option<string>,
    emergencyContact: Option<string>,
    photo: Option<string>,
    createdAt: string,
    updatedAt: string)

  datatype Room = Room(id: Uuid, roomNumber: string, capacity: int, createdAt: string, updatedAt: string)

  /** `isOccupied` is stored as an integer, 0 or 1 by convention. */
  datatype Bed = Bed(
    id: Uuid,
    roomId: Uuid,
    bedNumber: string,
    isOccupied: int,
    tenantId: Option<Uuid>,
    monthlyRent: int,
    createdAt: string,
    updatedAt: string)

  datatype Payment = Payment(
    id: Uuid,
    tenantId: Uuid,
    amount: int,
    date: string,
    paymentMethod: string,  // the `method` column; `method` is a Dafny keyword
    notes: Option<string>,
    createdAt: string,
    updatedAt: string)

  /** The constraint a statement broke; the store raises it to the caller. */
  datatype Constraint = PrimaryKey | Unique | ForeignKey

  datatype Outcome = Ok | Violated(constraint: Constraint)

  /*
   * Partial rows, as passed to the update functions: `None` is a field the
   * patch does not mention. A nullable column has an `Option<Option<_>>`
   * entry, so that a patch can set it to null.
   */

  datatype TenantPatch = TenantPatch(
    id: Option<Uuid>,
    name: Option<string>,
    email: Option<string>,
    phone: Option<string>,
    roomNumber: Option<string>,
    bedNumber: Option<string>,
    joinDate: Option<string>,
    rent: Option<int>,
    deposit: Option<int>,
    status: Option<TenantStatus>,
    lastPayment: Option<Option<string>>,
    nextPaymentDue: Option<Option<string>>,
    address: Option<Option<string>>,
    emergencyContact: Option<Option<string>>,
    photo: Option<Option<string>>,
    createdAt: Option<string>,
    updatedAt: Option<string>)

  datatype RoomPatch = RoomPatch(
    id: Option<Uuid>,
    roomNumber: Option<string>,
    capacity: Option<int>,
    createdAt: Option<string>,
    updatedAt: Option<string>)

  datatype BedPatch = BedPatch(
    id: Option<Uuid>,
    roomId: Option<Uuid>,
    bedNumber: Option<string>,
    isOccupied: Option<int>,
    tenantId: Option<Option<Uuid>>,
    monthlyRent: Option<int>,
    createdAt: Option<string>,
    updatedAt: Option<string>)

  /*
   * Updates. The source first builds `{ ...current, ...patch, updatedAt: now }`
   * (every field the patch names wins, even the key) and then runs an UPDATE
   * whose SET list names only some columns; the stored row takes those
   * columns from the merged object and keeps the rest.
   */

  /** The merged object `{ ...current, ...patch, updatedAt: now }`. */
  function SpreadTenant(current: Tenant, patch: TenantPatch, now: string): Tenant {
    Tenant(
      patch.id.GetOr(current.id),
      patch.name.GetOr(current.name),
      patch.email.GetOr(current.email),
      patch.phone.GetOr(current.phone),
      patch.roomNumber.GetOr(current.roomNumber),
      patch.bedNumber.GetOr(current.bedNumber),
      patch.joinDate.GetOr(current.joinDate),
      patch.rent.GetOr(current.rent),
      patch.deposit.GetOr(current.deposit),
      patch.status.GetOr(current.status),
      patch.lastPayment.GetOr(current.lastPayment),
      patch.nextPaymentDue.GetOr(current.nextPaymentDue),
      patch.address.GetOr(current.address),
      patch.emergencyContact.GetOr(current.emergencyContact),
      patch.photo.GetOr(current.photo),
      patch.createdAt.GetOr(current.createdAt),
      now)
  }

  /** The stored row after `UPDATE tenants SET name=?, …, updatedAt=? WHERE id=?`. */
  function WriteTenantRow(stored: Tenant, merged: Tenant): Tenant {
    stored.(
      name := merged.name, email := merged.email, phone := merged.phone,
      roomNumber := merged.roomNumber, bedNumber := merged.bedNumber,
      joinDate := merged.joinDate, rent := merged.rent, deposit := merged.deposit,
      status := merged.status, lastPayment := merged.lastPayment,
      nextPaymentDue := merged.nextPaymentDue, address := merged.address,
      emergencyContact := merged.emergencyContact, photo := merged.photo,
      updatedAt := merged.updatedAt)
  }

  /**
   * The tenant row an update writes: the key and the creation time are
   * kept whatever the patch says, the update time is `now`, and every other
   * column takes the patch's value when the patch has one.
   */
  function UpdatedTenantRow(current: Tenant, patch: TenantPatch, now: string): (r: Tenant)
    ensures r.id == current.id && r.createdAt == current.createdAt && r.updatedAt == now
    ensures patch.name.Some? ==> r.name == patch.name.value
    ensures patch.name.None? ==> r.name == current.name
    ensures patch.email.Some? ==> r.email == patch.email.value
    ensures patch.email.None? ==> r.email == current.email
    ensures patch.phone.Some? ==> r.phone == patch.phone.value
    ensures patch.phone.None? ==> r.phone == current.phone
    ensures patch.roomNumber.Some? ==> r.roomNumber == patch.roomNumber.value
    ensures patch.roomNumber.None? ==> r.roomNumber == current.roomNumber
    ensures patch.bedNumber.Some? ==> r.bedNumber == patch.bedNumber.value
    ensures patch.bedNumber.None? ==> r.bedNumber == current.bedNumber
    ensures patch.joinDate.Some? ==> r.joinDate == patch.joinDate.value
    ensures patch.joinDate.None? ==> r.joinDate == current.joinDate
    ensures patch.rent.Some? ==> r.rent == patch.rent.value
    ensures patch.rent.None? ==> r.rent == current.rent
    ensures patch.deposit.Some? ==> r.deposit == patch.deposit.value
    ensures patch.deposit.None? ==> r.deposit == current.deposit
    ensures patch.status.Some? ==> r.status == patch.status.value
    ensures patch.status.None? ==> r.status == current.status
    ensures patch.lastPayment.Some? ==> r.lastPayment == patch.lastPayment.value
    ensures patch.lastPayment.None? ==> r.lastPayment == current.lastPayment
    ensures patch.nextPaymentDue.Some? ==> r.nextPaymentDue == patch.nextPaymentDue.value
    ensures patch.nextPaymentDue.None? ==> r.nextPaymentDue == current.nextPaymentDue
    ensures patch.address.Some? ==> r.address == patch.address.value
    ensures patch.address.None? ==> r.address == current.address
    ensures patch.emergencyContact.Some? ==> r.emergencyContact == patch.emergencyContact.value
    ensures patch.emergencyContact.None? ==> r.emergencyContact == current.emergencyContact
    ensures patch.photo.Some? ==> r.photo == patch.photo.value
    ensures patch.photo.None? ==> r.photo == current.photo
  {
    WriteTenantRow(current, SpreadTenant(current, patch, now))
  }

  /** The merged object `{ ...current, ...patch, updatedAt: now }`. */
  function SpreadRoom(current: Room, patch: RoomPatch, now: string): Room {
    Room(
      patch.id.GetOr(current.id),
      patch.roomNumber.GetOr(current.roomNumber),
      patch.capacity.GetOr(current.capacity),
      patch.createdAt.GetOr(current.createdAt),
      now)
  }

  /** The stored row after `UPDATE rooms SET roomNumber=?, capacity=?, updatedAt=? WHERE id=?`. */
  function WriteRoomRow(stored: Room, merged: Room): Room {
    stored.(roomNumber := merged.roomNumber, capacity := merged.capacity, updatedAt := merged.updatedAt)
  }

  /**
   * The room row an update writes: key and creation time kept, update time
   * `now`, number and capacity from the patch when it has them.
   */
  function UpdatedRoomRow(current: Room, patch: RoomPatch, now: string): (r: Room)
    ensures r.id == current.id && r.createdAt == current.createdAt && r.updatedAt == now
    ensures patch.roomNumber.Some? ==> r.roomNumber == patch.roomNumber.value
    ensures patch.roomNumber.None? ==> r.roomNumber == current.roomNumber
    ensures patch.capacity.Some? ==> r.capacity == patch.capacity.value
    ensures patch.capacity.None? ==> r.capacity == current.capacity
  {
    WriteRoomRow(current, SpreadRoom(current, patch, now))
  }

  /** The merged object `{ ...current, ...patch, updatedAt: now }`. */
  function SpreadBed(current: Bed, patch: BedPatch, now: string): Bed {
    Bed(
      patch.id.GetOr(current.id),
      patch.roomId.GetOr(current.roomId),
      patch.bedNumber.GetOr(current.bedNumber),
      patch.isOccupied.GetOr(current.isOccupied),
      patch.tenantId.GetOr(current.tenantId),
      patch.monthlyRent.GetOr(current.monthlyRent),
      patch.createdAt.GetOr(current.createdAt),
      now)
  }

  /**
   * The stored row after
   * `UPDATE beds SET bedNumber=?, isOccupied=?, tenantId=?, monthlyRent=?, updatedAt=? WHERE id=?`.
   */
  function WriteBedRow(stored: Bed, merged: Bed): Bed {
    stored.(
      bedNumber := merged.bedNumber, isOccupied := merged.isOccupied,
      tenantId := merged.tenantId, monthlyRent := merged.monthlyRent,
      updatedAt := merged.updatedAt)
  }

  /**
   * The bed row an update writes: the key, the room and the creation time
   * are kept even when the patch names other values, because those columns
   * are not in the SET list; the other columns take the patch's value when
   * it has one.
   */
  function UpdatedBedRow(current: Bed, patch: BedPatch, now: string): (r: Bed)
    ensures r.id == current.id && r.roomId == current.roomId && r.createdAt == current.createdAt
    ensures r.updatedAt == now
    ensures patch.bedNumber.Some? ==> r.bedNumber == patch.bedNumber.value
    ensures patch.bedNumber.None? ==> r.bedNumber == current.bedNumber
    ensures patch.isOccupied.Some? ==> r.isOccupied == patch.isOccupied.value
    ensures patch.isOccupied.None? ==> r.isOccupied == current.isOccupied
    ensures patch.tenantId.Some? ==> r.tenantId == patch.tenantId.value
    ensures patch.tenantId.None? ==> r.tenantId == current.tenantId
    ensures patch.monthlyRent.Some? ==> r.monthlyRent == patch.monthlyRent.value
    ensures patch.monthlyRent.None? ==> r.monthlyRent == current.monthlyRent
  {
    WriteBedRow(current, SpreadBed(current, patch, now))
  }

  /* Constraint checks over the tables. */

  /** Some room already carries `roomNumber` (the UNIQUE column of rooms). */
  predicate RoomNumberTaken(rooms: map<Uuid, Room>, roomNumber: string) {
    exists k | k in rooms :: rooms[k].roomNumber == roomNumber
  }

  /** Some bed already occupies the UNIQUE pair (roomId, bedNumber). */
  predicate BedSlotTaken(beds: map<Uuid, Bed>, roomId: Uuid, bedNumber: string) {
    exists k | k in beds :: beds[k].roomId == roomId && beds[k].bedNumber == bedNumber
  }

  /** A bed's foreign keys resolve: its room exists, and so does its tenant when it has one. */
  predicate BedRefsResolve(b: Bed, rooms: map<Uuid, Room>, tenants: map<Uuid, Tenant>) {
    b.roomId in rooms && (b.tenantId.Some? ==> b.tenantId.value in tenants)
  }

  /** A room numbered `roomNumber` exists and holds a bed numbered `bedNumber`. */
  predicate RoomHasBed(rooms: map<Uuid, Room>, beds: map<Uuid, Bed>, roomNumber: string, bedNumber: string) {
    exists k | k in rooms && rooms[k].roomNumber == roomNumber :: BedSlotTaken(beds, k, bedNumber)
  }

  ghost predicate RoomNumbersUnique(rooms: map<Uuid, Room>) {
    forall i, j | i in rooms && j in rooms && rooms[i].roomNumber == rooms[j].roomNumber :: i == j
  }

  ghost predicate BedSlotsUnique(beds: map<Uuid, Bed>) {
    forall i, j | i in beds && j in beds && beds[i].roomId == beds[j].roomId && beds[i].bedNumber == beds[j].bedNumber :: i == j
  }

  /** Every schema constraint holds of the four tables. */
  ghost predicate Consistent(tenants: map<Uuid, Tenant>, rooms: map<Uuid, Room>, beds: map<Uuid, Bed>, payments: map<Uuid, Payment>) {
    && (forall k | k in tenants :: tenants[k].id == k)
    && (forall k | k in rooms :: rooms[k].id == k)
    && (forall k | k in beds :: beds[k].id == k)
    && (forall k | k in payments :: payments[k].id == k)
    && RoomNumbersUnique(rooms)
    && BedSlotsUnique(beds)
    && (forall k | k in beds :: BedRefsResolve(beds[k], rooms, tenants))
    && (forall k | k in payments :: payments[k].tenantId in tenants)
  }

  /* Query helpers. */

  /** The keys of the beds in room `roomId`. */
  ghost function BedKeysOfRoom(beds: map<Uuid, Bed>, roomId: Uuid): set<Uuid> {
    set k | k in beds && beds[k].roomId == roomId
  }

  /** The keys of the payments of tenant `tenantId`. */
  ghost function PaymentKeysOfTenant(payments: map<Uuid, Payment>, tenantId: Uuid): set<Uuid> {
    set k | k in payments && payments[k].tenantId == tenantId
  }

  function TenantCreatedAt(t: Tenant): string { t.createdAt }
  function RoomNumberOf(r: Room): string { r.roomNumber }
  function BedNumberOf(b: Bed): string { b.bedNumber }
  function PaymentDate(p: Payment): string { p.date }

  /** Rows stored under distinct keys are distinct, so a key set and its rows have the same size. */
  lemma {:induction false} RowsOfKeys<T>(m: map<Uuid, T>, ks: set<Uuid>, key: T -> Uuid)
    requires ks <= m.Keys
    requires forall k | k in ks :: key(m[k]) == k
    ensures |set k | k in ks :: m[k]| == |ks|
    decreases ks
  {
    if ks != {} {
      var k :| k in ks;
      RowsOfKeys(m, ks - {k}, key);
      var rest := set j | j in ks - {k} :: m[j];
      assert (set j | j in ks :: m[j]) == rest + {m[k]};
      assert forall j | j in ks - {k} :: m[j] != m[k] by {
        forall j | j in ks - {k}
          ensures m[j] != m[k]
        {
          assert key(m[j]) == j && key(m[k]) == k;
        }
      }
      assert m[k] !in rest;
    }
  }

  /**
   * Ordering the rows stored under `ks`, each stored under its own id, lists
   * exactly those rows, each once, in order.
   */
  lemma ListedRows<T(!new)>(m: map<Uuid, T>, ks: set<Uuid>, idOf: T -> Uuid, sortKey: T -> string, desc: bool)
    requires ks <= m.Keys
    requires forall k | k in ks :: idOf(m[k]) == k
    ensures var r := OrderBy(set k | k in ks :: m[k], sortKey, desc);
      && |r| == |ks|
      && (forall x :: x in r <==> idOf(x) in ks && m[idOf(x)] == x)
      && (forall i, j | 0 <= i < j < |r| :: idOf(r[i]) != idOf(r[j]))
      && (forall i, j | 0 <= i < j < |r| :: Precedes(sortKey, desc, r[i], r[j]))
  {
    RowsOfKeys(m, ks, idOf);
    var rows := set k | k in ks :: m[k];
    var r := OrderBy(rows, sortKey, desc);
    forall x
      ensures x in r <==> idOf(x) in ks && m[idOf(x)] == x
    {
      if x in r {
        assert x in rows;
        var k :| k in ks && m[k] == x;
        assert idOf(x) == k;
      }
      if idOf(x) in ks && m[idOf(x)] == x {
        assert x in rows;
      }
    }
    forall i, j | 0 <= i < j < |r|
      ensures idOf(r[i]) != idOf(r[j])
    {
      assert r[i] in rows && r[j] in rows && r[i] != r[j];
      var ki :| ki in ks && m[ki] == r[i];
      var kj :| kj in ks && m[kj] == r[j];
    }
    assert OrderedBy(sortKey, desc, r);
  }

  /** The beds of one room, ordered by bed number: each such bed once, in ascending order. */
  lemma BedsListed(beds: map<Uuid, Bed>, roomId: Uuid)
    requires forall k | k in beds :: beds[k].id == k
    ensures var r := OrderBy(set k | k in BedKeysOfRoom(beds, roomId) :: beds[k], BedNumberOf, false);
      && |r| == |BedKeysOfRoom(beds, roomId)|
      && (forall b :: b in r <==> b.id in beds && beds[b.id] == b && b.roomId == roomId)
      && (forall i, j | 0 <= i < j < |r| :: r[i].id != r[j].id)
      && (forall i, j | 0 <= i < j < |r| :: TextLe(r[i].bedNumber, r[j].bedNumber))
  {
    var ks := BedKeysOfRoom(beds, roomId);
    ListedRows(beds, ks, (b: Bed) => b.id, BedNumberOf, false);
    var r := OrderBy(set k | k in ks :: beds[k], BedNumberOf, false);
    forall b
      ensures b in r <==> b.id in beds && beds[b.id] == b && b.roomId == roomId
    {
      assert b in r <==> b.id in ks && beds[b.id] == b;
    }
  }

  /** The payments of one tenant, ordered by date: each such payment once, latest first. */
  lemma PaymentsListed(payments: map<Uuid, Payment>, tenantId: Uuid)
    requires forall k | k in payments :: payments[k].id == k
    ensures var r := OrderBy(set k | k in PaymentKeysOfTenant(payments, tenantId) :: payments[k], PaymentDate, true);
      && |r| == |PaymentKeysOfTenant(payments, tenantId)|
      && (forall p :: p in r <==> p.id in payments && payments[p.id] == p && p.tenantId == tenantId)
      && (forall i, j | 0 <= i < j < |r| :: r[i].id != r[j].id)
      && (forall i, j | 0 <= i < j < |r| :: TextLe(r[j].date, r[i].date))
  {
    var ks := PaymentKeysOfTenant(payments, tenantId);
    ListedRows(payments, ks, (p: Payment) => p.id, PaymentDate, true);
    var r := OrderBy(set k | k in ks :: payments[k], PaymentDate, true);
    forall p
      ensures p in r <==> p.id in payments && payments[p.id] == p && p.tenantId == tenantId
    {
      assert p in r <==> p.id in ks && payments[p.id] == p;
    }
  }

  /* What the ON DELETE rules do to the referring tables. */

  /** ON DELETE CASCADE from rooms: the beds of every other room. */
  function WithoutBedsOf(beds: map<Uuid, Bed>, roomId: Uuid): map<Uuid, Bed> {
    map k | k in beds && beds[k].roomId != roomId :: beds[k]
  }

  /** ON DELETE CASCADE from tenants: the payments of every other tenant. */
  function WithoutPaymentsOf(payments: map<Uuid, Payment>, tenantId: Uuid): map<Uuid, Payment> {
    map k | k in payments && payments[k].tenantId != tenantId :: payments[k]
  }

  /** ON DELETE SET NULL from tenants: every bed, its reference to the tenant cleared. */
  function WithoutTenantRefs(beds: map<Uuid, Bed>, tenantId: Uuid): map<Uuid, Bed> {
    map k | k in beds :: if beds[k].tenantId == Some(tenantId) then beds[k].(tenantId := None) else beds[k]
  }

  /**
   * Deleting a room together with its beds keeps every constraint, and
   * deleting a room that does not exist changes nothing.
   */
  lemma DeletingRoomKeepsConsistent(
    tenants: map<Uuid, Tenant>, rooms: map<Uuid, Room>, beds: map<Uuid, Bed>, payments: map<Uuid, Payment>, id: Uuid)
    requires Consistent(tenants, rooms, beds, payments)
    ensures Consistent(tenants, rooms - {id}, WithoutBedsOf(beds, id), payments)
    ensures id !in rooms ==> WithoutBedsOf(beds, id) == beds
  {
    var kept := WithoutBedsOf(beds, id);
    assert forall k | k in kept :: BedRefsResolve(kept[k], rooms - {id}, tenants);
    assert BedSlotsUnique(kept) by {
      forall i, j | i in kept && j in kept && kept[i].roomId == kept[j].roomId && kept[i].bedNumber == kept[j].bedNumber
        ensures i == j
      {
        assert beds[i] == kept[i] && beds[j] == kept[j];
      }
    }
  }

  /** Clearing the references to a tenant keeps the beds keyed, in distinct slots, and resolvable without it. */
  lemma ClearingTenantRefsKeepsBeds(tenants: map<Uuid, Tenant>, rooms: map<Uuid, Room>, beds: map<Uuid, Bed>, id: Uuid)
    requires forall k | k in beds :: beds[k].id == k
    requires BedSlotsUnique(beds)
    requires forall k | k in beds :: BedRefsResolve(beds[k], rooms, tenants)
    ensures forall k | k in WithoutTenantRefs(beds, id) :: WithoutTenantRefs(beds, id)[k].id == k
    ensures BedSlotsUnique(WithoutTenantRefs(beds, id))
    ensures forall k | k in WithoutTenantRefs(beds, id) :: BedRefsResolve(WithoutTenantRefs(beds, id)[k], rooms, tenants - {id})
  {
    var nulled := WithoutTenantRefs(beds, id);
    assert nulled.Keys == beds.Keys;
    forall k | k in nulled
      ensures nulled[k].id == k && nulled[k].roomId == beds[k].roomId
      ensures nulled[k].bedNumber == beds[k].bedNumber
      ensures BedRefsResolve(nulled[k], rooms, tenants - {id})
    {
    }
    forall i, j | i in nulled && j in nulled && nulled[i].roomId == nulled[j].roomId && nulled[i].bedNumber == nulled[j].bedNumber
      ensures i == j
    {
      assert beds[i].roomId == beds[j].roomId && beds[i].bedNumber == beds[j].bedNumber;
    }
  }

  /**
   * Deleting a tenant together with its payments, and clearing the beds
   * that referred to it, keeps every constraint; deleting a tenant that
   * does not exist changes nothing.
   */
  lemma DeletingTenantKeepsConsistent(
    tenants: map<Uuid, Tenant>, rooms: map<Uuid, Room>, beds: map<Uuid, Bed>, payments: map<Uuid, Payment>, id: Uuid)
    requires Consistent(tenants, rooms, beds, payments)
    ensures Consistent(tenants - {id}, rooms, WithoutTenantRefs(beds, id), WithoutPaymentsOf(payments, id))
    ensures id !in tenants ==> WithoutTenantRefs(beds, id) == beds && WithoutPaymentsOf(payments, id) == payments
  {
    ClearingTenantRefsKeepsBeds(tenants, rooms, beds, id);
    if id !in tenants {
      assert WithoutTenantRefs(beds, id) == beds;
    }
  }

  /** The seed step's generated identifiers. */
  datatype SeedIds = SeedIds(
    tenant1: Uuid, tenant2: Uuid,
    room1: Uuid, room2: Uuid,
    bed1: Uuid, bed2: Uuid, bed3: Uuid, bed4: Uuid, bed5: Uuid,
    payment1: Uuid)

  /* The sample rows the seed step inserts. */

  function SeedTenant1(ids: SeedIds, now: string): Tenant {
    Tenant(ids.tenant1, "Rahul Sharma", "rahul.sharma@email.com", "+91 9876543210",
      "R-101", "B-1", "2024-01-15", 12000, 24000, Active,
      Some("2024-01-01"), Some("2024-02-01"), Some("Delhi, India"), Some("+91 9876543211"), None,
      now, now)
  }

  function SeedTenant2(ids: SeedIds, now: string): Tenant {
    Tenant(ids.tenant2, "Priya Patel", "priya.patel@email.com", "+91 9876543212",
      "R-205", "B-2", "2024-01-20", 10000, 20000, Active,
      Some("2023-12-28"), Some("2024-01-28"), Some("Mumbai, India"), Some("+91 9876543213"), None,
      now, now)
  }

  function SeedRoom1(ids: SeedIds, now: string): Room { Room(ids.room1, "R-101", 2, now, now) }
  function SeedRoom2(ids: SeedIds, now: string): Room { Room(ids.room2, "R-205", 3, now, now) }

  function SeedBed1(ids: SeedIds, now: string): Bed { Bed(ids.bed1, ids.room1, "B-1", 1, Some(ids.tenant1), 12000, now, now) }
  function SeedBed2(ids: SeedIds, now: string): Bed { Bed(ids.bed2, ids.room1, "B-2", 0, None, 12000, now, now) }
  function SeedBed3(ids: SeedIds, now: string): Bed { Bed(ids.bed3, ids.room2, "B-1", 1, Some(ids.tenant2), 10000, now, now) }
  function SeedBed4(ids: SeedIds, now: string): Bed { Bed(ids.bed4, ids.room2, "B-2", 0, None, 10000, now, now) }
  function SeedBed5(ids: SeedIds, now: string): Bed { Bed(ids.bed5, ids.room2, "B-3", 0, None, 10000, now, now) }

  function SeedPayment1(ids: SeedIds, now: string): Payment {
    Payment(ids.payment1, ids.tenant1, 12000, "2024-01-01", "UPI", Some("January rent"), now, now)
  }

  /** The tenants table after the seed's two tenant inserts into an empty table. */
  function SeedTenants(ids: SeedIds, now: string): map<Uuid, Tenant> {
    map[ids.tenant1 := SeedTenant1(ids, now), ids.tenant2 := SeedTenant2(ids, now)]
  }

  /** The seed's identifiers are pairwise distinct within each table. */
  predicate SeedIdsDistinct(ids: SeedIds) {
    && ids.tenant1 != ids.tenant2
    && ids.room1 != ids.room2
    && ids.bed1 != ids.bed2 && ids.bed1 != ids.bed3 && ids.bed1 != ids.bed4 && ids.bed1 != ids.bed5
    && ids.bed2 != ids.bed3 && ids.bed2 != ids.bed4 && ids.bed2 != ids.bed5
    && ids.bed3 != ids.bed4 && ids.bed3 != ids.bed5
    && ids.bed4 != ids.bed5
  }

  /** The rooms table after the seed's two room inserts. */
  function SeedRooms(rooms: map<Uuid, Room>, ids: SeedIds, now: string): map<Uuid, Room> {
    rooms[ids.room1 := SeedRoom1(ids, now)][ids.room2 := SeedRoom2(ids, now)]
  }

  /** The beds table after the seed's five bed inserts. */
  function SeedBeds(beds: map<Uuid, Bed>, ids: SeedIds, now: string): map<Uuid, Bed> {
    beds[ids.bed1 := SeedBed1(ids, now)][ids.bed2 := SeedBed2(ids, now)][ids.bed3 := SeedBed3(ids, now)]
        [ids.bed4 := SeedBed4(ids, now)][ids.bed5 := SeedBed5(ids, now)]
  }

  /** Inserting a bed in another slot leaves a free slot free. */
  lemma SlotStillFree(beds: map<Uuid, Bed>, b: Bed, roomId: Uuid, bedNumber: string)
    requires !BedSlotTaken(beds, roomId, bedNumber)
    requires b.roomId != roomId || b.bedNumber != bedNumber
    ensures !BedSlotTaken(beds[b.id := b], roomId, bedNumber)
  {
  }

  /** Inserting a room under a new key with another number leaves the number as taken as it was. */
  lemma NumberTakenAfterInsert(rooms: map<Uuid, Room>, x: Room, roomNumber: string)
    requires x.id !in rooms && x.roomNumber != roomNumber
    ensures RoomNumberTaken(rooms[x.id := x], roomNumber) <==> RoomNumberTaken(rooms, roomNumber)
  {
    var updated := rooms[x.id := x];
    assert forall k | k in rooms :: k in updated && updated[k] == rooms[k];
    assert forall k | k in updated && k != x.id :: k in rooms;
  }

  /** The seeded bed numbers sort B-1, B-2, B-3 and not otherwise. */
  lemma SeedBedNumbersOrdered()
    ensures TextLe("B-1", "B-2") && TextLe("B-1", "B-3") && TextLe("B-2", "B-3")
    ensures !TextLe("B-2", "B-1") && !TextLe("B-3", "B-1") && !TextLe("B-3", "B-2")
  {
    assert "B-1"[1..][1..] == "1" && "B-2"[1..][1..] == "2" && "B-3"[1..][1..] == "3";
  }

  /** The record store: the four tables of the on-device database. */
  class Store {
    var tenants: map<Uuid, Tenant>
    var rooms: map<Uuid, Room>
    var beds: map<Uuid, Bed>
    var payments: map<Uuid, Payment>

    ghost predicate Valid()
      reads this
    {
      Consistent(tenants, rooms, beds, payments)
    }

    /** A freshly created database: the four tables exist and are empty. */
    constructor ()
      ensures Valid()
      ensures tenants == map[] && rooms == map[] && beds == map[] && payments == map[]
    {
      tenants, rooms, beds, payments := map[], map[], map[], map[];
    }

    /* Reads. */

    /** `SELECT * FROM tenants WHERE id = ?`: the tenant stored under `id`, if any. */
    function GetTenant(id: Uuid): (r: Option<Tenant>)
      reads this
      requires Valid()
      ensures r.Some? <==> id in tenants
      ensures r.Some? ==> r.value.id == id && tenants[r.value.id] == r.value
    {
      if id in tenants then Some(tenants[id]) else None
    }

    /** `SELECT * FROM rooms WHERE roomNumber = ?`: the one room with that number, if any. */
    function GetRoomByNumber(roomNumber: string): (r: Option<Room>)
      reads this
      requires Valid()
      ensures r.Some? <==> RoomNumberTaken(rooms, roomNumber)
      ensures r.Some? ==> r.value.roomNumber == roomNumber && r.value.id in rooms && rooms[r.value.id] == r.value
    {
      if RoomNumberTaken(rooms, roomNumber) then
        var k :| k in rooms && rooms[k].roomNumber == roomNumber;
        Some(rooms[k])
      else
        None
    }

    /** `SELECT * FROM beds WHERE roomId = ? AND bedNumber = ?`: the one bed in that slot, if any. */
    function FindBed(roomId: Uuid, bedNumber: string): (r: Option<Bed>)
      reads this
      requires Valid()
      ensures r.Some? <==> BedSlotTaken(beds, roomId, bedNumber)
      ensures r.Some? ==> r.value.roomId == roomId && r.value.bedNumber == bedNumber
      ensures r.Some? ==> r.value.id in beds && beds[r.value.id] == r.value
    {
      if BedSlotTaken(beds, roomId, bedNumber) then
        var k :| k in beds && beds[k].roomId == roomId && beds[k].bedNumber == bedNumber;
        Some(beds[k])
      else
        None
    }

    /** `SELECT * FROM tenants ORDER BY createdAt DESC`: every tenant once, newest first. */
    ghost function ListTenants(): (r: seq<Tenant>)
      reads this
      requires Valid()
      ensures |r| == |tenants|
      ensures forall t :: t in r <==> t.id in tenants && tenants[t.id] == t
      ensures forall i, j | 0 <= i < j < |r| :: r[i].id != r[j].id
      ensures forall i, j | 0 <= i < j < |r| :: TextLe(r[j].createdAt, r[i].createdAt)
    {
      ListedRows(tenants, tenants.Keys, (t: Tenant) => t.id, TenantCreatedAt, true);
      OrderBy(set k | k in tenants.Keys :: tenants[k], TenantCreatedAt, true)
    }

    /** `SELECT * FROM rooms ORDER BY roomNumber ASC`: every room once, by number. */
    ghost function ListRooms(): (r: seq<Room>)
      reads this
      requires Valid()
      ensures |r| == |rooms|
      ensures forall x :: x in r <==> x.id in rooms && rooms[x.id] == x
      ensures forall i, j | 0 <= i < j < |r| :: r[i].id != r[j].id
      ensures forall i, j | 0 <= i < j < |r| :: TextLe(r[i].roomNumber, r[j].roomNumber)
    {
      ListedRows(rooms, rooms.Keys, (x: Room) => x.id, RoomNumberOf, false);
      OrderBy(set k | k in rooms.Keys :: rooms[k], RoomNumberOf, false)
    }

    /**
     * `SELECT * FROM beds WHERE roomId = ? ORDER BY bedNumber ASC`: exactly
     * the beds of that room, each once, by bed number.
     */
    ghost function ListBedsByRoom(roomId: Uuid): (r: seq<Bed>)
      reads this
      requires Valid()
      ensures |r| == |BedKeysOfRoom(beds, roomId)|
      ensures forall b :: b in r <==> b.id in beds && beds[b.id] == b && b.roomId == roomId
      ensures forall i, j | 0 <= i < j < |r| :: r[i].id != r[j].id
      ensures forall i, j | 0 <= i < j < |r| :: TextLe(r[i].bedNumber, r[j].bedNumber)
    {
      BedsListed(beds, roomId);
      OrderBy(set k | k in BedKeysOfRoom(beds, roomId) :: beds[k], BedNumberOf, false)
    }

    /**
     * `SELECT * FROM payments WHERE tenantId = ? ORDER BY date DESC`: exactly
     * the tenant's payments, each once, latest date first.
     */
    ghost function ListPaymentsForTenant(tenantId: Uuid): (r: seq<Payment>)
      reads this
      requires Valid()
      ensures |r| == |PaymentKeysOfTenant(payments, tenantId)|
      ensures forall p :: p in r <==> p.id in payments && payments[p.id] == p && p.tenantId == tenantId
      ensures forall i, j | 0 <= i < j < |r| :: r[i].id != r[j].id
      ensures forall i, j | 0 <= i < j < |r| :: TextLe(r[j].date, r[i].date)
    {
      PaymentsListed(payments, tenantId);
      OrderBy(set k | k in PaymentKeysOfTenant(payments, tenantId) :: payments[k], PaymentDate, true)
    }

    /* Inserts: each fails, changing nothing, when the row breaks a constraint. */

    /** `INSERT INTO tenants`: fails only on a key already in use. */
    method CreateTenant(data: Tenant) returns (r: Outcome)
      requires Valid()
      modifies this
      ensures Valid()
      ensures r == Ok <==> data.id !in old(tenants)
      ensures r != Ok ==> r == Violated(PrimaryKey) && tenants == old(tenants)
      ensures r == Ok ==> tenants == old(tenants)[data.id := data]
      ensures rooms == old(rooms) && beds == old(beds) && payments == old(payments)
    {
      if data.id in tenants {
        return Violated(PrimaryKey);
      }
      tenants := tenants[data.id := data];
      r := Ok;
    }

    /** `INSERT INTO rooms`: fails on a key or a room number already in use. */
    method CreateRoom(data: Room) returns (r: Outcome)
      requires Valid()
      modifies this
      ensures Valid()
      ensures r == Ok <==> data.id !in old(rooms) && !RoomNumberTaken(old(rooms), data.roomNumber)
      ensures r == Violated(Unique) ==> RoomNumberTaken(old(rooms), data.roomNumber)
      ensures r == Violated(PrimaryKey) ==> data.id in old(rooms)
      ensures r != Ok ==> r.constraint != ForeignKey && rooms == old(rooms)
      ensures r == Ok ==> rooms == old(rooms)[data.id := data]
      ensures tenants == old(tenants) && beds == old(beds) && payments == old(payments)
    {
      if data.id in rooms {
        return Violated(PrimaryKey);
      }
      if RoomNumberTaken(rooms, data.roomNumber) {
        return Violated(Unique);
      }
      rooms := rooms[data.id := data];
      r := Ok;
    }

    /**
     * `INSERT INTO beds`: fails on a key in use, on a (roomId, bedNumber)
     * pair in use, on a room that does not exist, or on a tenant reference
     * that resolves to no tenant.
     */
    method CreateBed(data: Bed) returns (r: Outcome)
      requires Valid()
      modifies this
      ensures Valid()
      ensures r == Ok <==>
        && data.id !in old(beds)
        && !BedSlotTaken(old(beds), data.roomId, data.bedNumber)
        && BedRefsResolve(data, old(rooms), old(tenants))
      ensures r == Violated(PrimaryKey) ==> data.id in old(beds)
      ensures r == Violated(Unique) ==> BedSlotTaken(old(beds), data.roomId, data.bedNumber)
      ensures r == Violated(ForeignKey) ==> !BedRefsResolve(data, old(rooms), old(tenants))
      ensures r != Ok ==> beds == old(beds)
      ensures r == Ok ==> beds == old(beds)[data.id := data]
      ensures tenants == old(tenants) && rooms == old(rooms) && payments == old(payments)
    {
      if data.id in beds {
        return Violated(PrimaryKey);
      }
      if BedSlotTaken(beds, data.roomId, data.bedNumber) {
        return Violated(Unique);
      }
      if !BedRefsResolve(data, rooms, tenants) {
        return Violated(ForeignKey);
      }
      beds := beds[data.id := data];
      r := Ok;
    }

    /** `INSERT INTO payments`: fails on a key in use or a tenant that does not exist. */
    method CreatePayment(data: Payment) returns (r: Outcome)
      requires Valid()
      modifies this
      ensures Valid()
      ensures r == Ok <==> data.id !in old(payments) && data.tenantId in old(tenants)
      ensures r == Violated(PrimaryKey) ==> data.id in old(payments)
      ensures r == Violated(ForeignKey) ==> data.tenantId !in old(tenants)
      ensures r != Ok ==> r.constraint != Unique && payments == old(payments)
      ensures r == Ok ==> payments == old(payments)[data.id := data]
      ensures tenants == old(tenants) && rooms == old(rooms) && beds == old(beds)
    {
      if data.id in payments {
        return Violated(PrimaryKey);
      }
      if data.tenantId !in tenants {
        return Violated(ForeignKey);
      }
      payments := payments[data.id := data];
      r := Ok;
    }

    /* Updates: read the row, merge the patch, write it back; a missing row is a silent no-op. */

    /** `updateTenant`: no column of tenants is constrained beyond its key, so it cannot fail. */
    method UpdateTenant(id: Uuid, patch: TenantPatch, now: string)
      requires Valid()
      modifies this
      ensures Valid()
      ensures id !in old(tenants) ==> tenants == old(tenants)
      ensures id in old(tenants) ==> tenants == old(tenants)[id := UpdatedTenantRow(old(tenants)[id], patch, now)]
      ensures rooms == old(rooms) && beds == old(beds) && payments == old(payments)
    {
      var current := GetTenant(id);
      if current.None? {
        return;
      }
      tenants := tenants[id := UpdatedTenantRow(current.value, patch, now)];
    }

    /** `updateRoom`: fails, changing nothing, when the new number belongs to another room. */
    method UpdateRoom(id: Uuid, patch: RoomPatch, now: string) returns (r: Outcome)
      requires Valid()
      modifies this
      ensures Valid()
      ensures id !in old(rooms) ==> r == Ok && rooms == old(rooms)
      ensures id in old(rooms) ==>
        var row := UpdatedRoomRow(old(rooms)[id], patch, now);
        && (r == Ok <==> !RoomNumberTaken(old(rooms) - {id}, row.roomNumber))
        && (r == Ok ==> rooms == old(rooms)[id := row])
        && (r != Ok ==> r == Violated(Unique) && rooms == old(rooms))
      ensures tenants == old(tenants) && beds == old(beds) && payments == old(payments)
    {
      if id !in rooms {
        return Ok;
      }
      var row := UpdatedRoomRow(rooms[id], patch, now);
      if RoomNumberTaken(rooms - {id}, row.roomNumber) {
        return Violated(Unique);
      }
      assert RoomNumbersUnique(rooms[id := row]) by {
        var updated := rooms[id := row];
        assert forall i | i in rooms && i != id :: rooms[i].roomNumber != row.roomNumber by {
          assert forall i | i in rooms && i != id :: i in rooms - {id};
        }
        forall i, j | i in updated && j in updated && updated[i].roomNumber == updated[j].roomNumber
          ensures i == j
        {
          if i != id && j != id {
            assert rooms[i].roomNumber == rooms[j].roomNumber;
          }
        }
      }
      rooms := rooms[id := row];
      r := Ok;
    }

    /**
     * `updateBed`: fails, changing nothing, when the new bed number is used by
     * another bed of the same room or the new tenant reference resolves to no
     * tenant.
     */
    method UpdateBed(id: Uuid, patch: BedPatch, now: string) returns (r: Outcome)
      requires Valid()
      modifies this
      ensures Valid()
      ensures id !in old(beds) ==> r == Ok && beds == old(beds)
      ensures id in old(beds) ==>
        var row := UpdatedBedRow(old(beds)[id], patch, now);
        && (r == Ok <==>
              && !BedSlotTaken(old(beds) - {id}, row.roomId, row.bedNumber)
              && BedRefsResolve(row, old(rooms), old(tenants)))
        && (r == Ok ==> beds == old(beds)[id := row])
        && (r == Violated(Unique) ==> BedSlotTaken(old(beds) - {id}, row.roomId, row.bedNumber))
        && (r == Violated(ForeignKey) ==> !BedRefsResolve(row, old(rooms), old(tenants)))
        && (r != Ok ==> r.constraint != PrimaryKey && beds == old(beds))
      ensures tenants == old(tenants) && rooms == old(rooms) && payments == old(payments)
    {
      if id !in beds {
        return Ok;
      }
      var row := UpdatedBedRow(beds[id], patch, now);
      if BedSlotTaken(beds - {id}, row.roomId, row.bedNumber) {
        return Violated(Unique);
      }
      if !BedRefsResolve(row, rooms, tenants) {
        return Violated(ForeignKey);
      }
      assert BedSlotsUnique(beds[id := row]) by {
        var updated := beds[id := row];
        assert forall i | i in beds && i != id :: beds[i].roomId != row.roomId || beds[i].bedNumber != row.bedNumber by {
          assert forall i | i in beds && i != id :: i in beds - {id};
        }
        forall i, j | i in updated && j in updated && updated[i].roomId == updated[j].roomId && updated[i].bedNumber == updated[j].bedNumber
          ensures i == j
        {
          if i != id && j != id {
            assert beds[i].roomId == beds[j].roomId && beds[i].bedNumber == beds[j].bedNumber;
          }
        }
      }
      beds := beds[id := row];
      r := Ok;
    }

    /* Deletes: never fail; a missing key changes nothing. */

    /**
     * `deleteTenant`: removes the tenant and, by ON DELETE CASCADE, its
     * payments; beds that pointed at it stay, with the reference nulled by
     * ON DELETE SET NULL and every other column as it was.
     */
    method DeleteTenant(id: Uuid)
      requires Valid()
      modifies this
      ensures Valid()
      ensures tenants == old(tenants) - {id}
      ensures payments.Keys == set k | k in old(payments) && old(payments)[k].tenantId != id
      ensures forall k | k in payments :: payments[k] == old(payments)[k]
      ensures beds.Keys == old(beds).Keys
      ensures forall k | k in beds && old(beds)[k].tenantId == Some(id) :: beds[k] == old(beds)[k].(tenantId := None)
      ensures forall k | k in beds && old(beds)[k].tenantId != Some(id) :: beds[k] == old(beds)[k]
      ensures rooms == old(rooms)
      ensures id !in old(tenants) ==> tenants == old(tenants) && beds == old(beds) && payments == old(payments)
    {
      DeletingTenantKeepsConsistent(tenants, rooms, beds, payments, id);
      tenants := tenants - {id};
      payments := WithoutPaymentsOf(payments, id);
      beds := WithoutTenantRefs(beds, id);
    }

    /**
     * `deleteRoom`: removes the room and, by ON DELETE CASCADE, every bed in
     * it; other beds, tenants and payments are untouched.
     */
    method DeleteRoom(id: Uuid)
      requires Valid()
      modifies this
      ensures Valid()
      ensures rooms == old(rooms) - {id}
      ensures beds.Keys == set k | k in old(beds) && old(beds)[k].roomId != id
      ensures forall k | k in beds :: beds[k] == old(beds)[k]
      ensures tenants == old(tenants) && payments == old(payments)
      ensures id !in old(rooms) ==> rooms == old(rooms) && beds == old(beds)
    {
      DeletingRoomKeepsConsistent(tenants, rooms, beds, payments, id);
      rooms := rooms - {id};
      beds := WithoutBedsOf(beds, id);
    }

    /** `deleteBed`: nothing refers to beds, so only the one row goes. */
    method DeleteBed(id: Uuid)
      requires Valid()
      modifies this
      ensures Valid()
      ensures beds == old(beds) - {id}
      ensures tenants == old(tenants) && rooms == old(rooms) && payments == old(payments)
    {
      beds := beds - {id};
    }

    /** `deletePayment`: nothing refers to payments, so only the one row goes. */
    method DeletePayment(id: Uuid)
      requires Valid()
      modifies this
      ensures Valid()
      ensures payments == old(payments) - {id}
      ensures tenants == old(tenants) && rooms == old(rooms) && beds == old(beds)
    {
      payments := payments - {id};
    }

    /* Helpers for screens. */

    /**
     * `ensureRoomAndBedForTenant`: creates the room named by the tenant's
     * room number, with capacity 1, when no room has that number; then
     * creates the bed named by the tenant's bed number in that room,
     * occupied, linked to the tenant and at the tenant's rent, when the room
     * has no such bed. Existing rows are never modified. The two inserts are
     * separate statements: when the bed insert fails because the tenant row
     * does not exist, the room already created stays.
     */
    method EnsureRoomAndBedForTenant(tenant: Tenant, newRoomId: Uuid, newBedId: Uuid, now: string) returns (r: Outcome)
      requires Valid()
      requires newRoomId !in rooms && newBedId !in beds
      modifies this
      ensures Valid()
      ensures tenants == old(tenants) && payments == old(payments)
      ensures old(rooms).Items <= rooms.Items && old(beds).Items <= beds.Items
      ensures RoomNumberTaken(old(rooms), tenant.roomNumber) ==> rooms == old(rooms)
      ensures !RoomNumberTaken(old(rooms), tenant.roomNumber) ==>
        rooms == old(rooms)[newRoomId := Room(newRoomId, tenant.roomNumber, 1, now, now)]
      ensures RoomHasBed(old(rooms), old(beds), tenant.roomNumber, tenant.bedNumber) ==>
        r == Ok && rooms == old(rooms) && beds == old(beds)
      ensures RoomNumberTaken(rooms, tenant.roomNumber)
      ensures !RoomHasBed(old(rooms), old(beds), tenant.roomNumber, tenant.bedNumber) ==>
        && (r == Ok <==> tenant.id in tenants)
        && (r != Ok ==> r == Violated(ForeignKey) && beds == old(beds))
        && (r == Ok ==> beds == old(beds)[newBedId :=
              Bed(newBedId, GetRoomByNumber(tenant.roomNumber).value.id, tenant.bedNumber, 1,
                  Some(tenant.id), tenant.rent, now, now)])
      ensures r == Ok ==> RoomHasBed(rooms, beds, tenant.roomNumber, tenant.bedNumber)
    {
      var room := GetRoomByNumber(tenant.roomNumber);
      var target: Room;
      if room.None? {
        target := Room(newRoomId, tenant.roomNumber, 1, now, now);
        var created := CreateRoom(target);
        assert !BedSlotTaken(beds, newRoomId, tenant.bedNumber) by {
          assert forall k | k in beds :: beds[k].roomId in old(rooms);
        }
        assert !RoomHasBed(old(rooms), old(beds), tenant.roomNumber, tenant.bedNumber);
      } else {
        target := room.value;
        assert RoomHasBed(old(rooms), old(beds), tenant.roomNumber, tenant.bedNumber)
          <==> BedSlotTaken(beds, target.id, tenant.bedNumber);
      }
      assert GetRoomByNumber(tenant.roomNumber) == Some(target) by {
        assert target.id in rooms && rooms[target.id].roomNumber == tenant.roomNumber;
        var found := GetRoomByNumber(tenant.roomNumber).value;
        assert target.id in rooms && rooms[target.id] == target && target.roomNumber == tenant.roomNumber;
        assert rooms[found.id].roomNumber == rooms[target.id].roomNumber;
      }
      var bed := FindBed(target.id, tenant.bedNumber);
      if bed.None? {
        assert newBedId !in beds && !BedSlotTaken(beds, target.id, tenant.bedNumber);
        r := CreateBed(Bed(newBedId, target.id, tenant.bedNumber, 1, Some(tenant.id), tenant.rent, now, now));
        assert r != Violated(PrimaryKey) && r != Violated(Unique);
        assert r.Violated? ==> r.constraint.ForeignKey?;
        if r == Ok {
          assert beds[newBedId].roomId == target.id;
        }
      } else {
        r := Ok;
      }
    }

    /**
     * Calling `ensureRoomAndBedForTenant` a second time for the same tenant
     * inserts no row: the identifiers handed to the second call stay unused,
     * and it reports what the first call reported.
     */
    method EnsureRoomAndBedTwice(tenant: Tenant, roomId1: Uuid, bedId1: Uuid, roomId2: Uuid, bedId2: Uuid, now1: string, now2: string)
      returns (first: Outcome, second: Outcome)
      requires Valid()
      requires roomId1 != roomId2 && bedId1 != bedId2
      requires roomId1 !in rooms && roomId2 !in rooms && bedId1 !in beds && bedId2 !in beds
      modifies this
      ensures Valid()
      ensures second == first
      ensures roomId2 !in rooms && bedId2 !in beds
      ensures rooms.Keys <= old(rooms).Keys + {roomId1} && beds.Keys <= old(beds).Keys + {bedId1}
      ensures tenants == old(tenants) && payments == old(payments)
    {
      first := EnsureRoomAndBedForTenant(tenant, roomId1, bedId1, now1);
      second := EnsureRoomAndBedForTenant(tenant, roomId2, bedId2, now2);
    }

    /* Start-up. */

    /**
     * The seed step of `initDb` (the tables themselves always exist here):
     * when the tenants table is empty, insert two tenants, two rooms, five
     * beds and one payment, statement by statement; the first statement
     * that fails aborts the rest. On a store whose tenants table is empty
     * only a room number R-101 or R-205 already in use can make it fail.
     */
    method InitDb(ids: SeedIds, now: string) returns (r: Outcome)
      requires Valid()
      requires SeedIdsDistinct(ids)
      requires ids.room1 !in rooms && ids.room2 !in rooms
      requires ids.bed1 !in beds && ids.bed2 !in beds && ids.bed3 !in beds && ids.bed4 !in beds && ids.bed5 !in beds
      requires ids.payment1 !in payments
      modifies this
      ensures Valid()
      ensures |old(tenants)| != 0 ==> r == Ok && unchanged(this)
      ensures |old(tenants)| == 0 ==>
        && (r == Ok <==> !RoomNumberTaken(old(rooms), "R-101") && !RoomNumberTaken(old(rooms), "R-205"))
        && tenants == SeedTenants(ids, now)
        && (r == Ok ==>
              && rooms == SeedRooms(old(rooms), ids, now)
              && beds == SeedBeds(old(beds), ids, now)
              && payments == map[ids.payment1 := SeedPayment1(ids, now)])
        && (r != Ok ==>
              && r == Violated(Unique)
              && rooms == (if RoomNumberTaken(old(rooms), "R-101") then old(rooms)
                           else old(rooms)[ids.room1 := SeedRoom1(ids, now)])
              && beds == old(beds) && payments == old(payments))
    {
      if |tenants| != 0 {
        return Ok;
      }
      assert payments == map[] by {
        assert forall k | k in payments :: payments[k].tenantId in tenants;
      }
      InsertSeedTenants(ids, now);
      r := InsertSeedRooms(ids, now);
      if r != Ok {
        return;
      }
      assert forall k | k in beds :: beds[k].roomId in old(rooms);
      InsertSeedBedsAndPayment(ids, now);
    }

    /** The seed's five bed inserts and its payment insert, once both rooms and both tenants exist. */
    method InsertSeedBedsAndPayment(ids: SeedIds, now: string)
      requires Valid()
      requires SeedIdsDistinct(ids)
      requires ids.tenant1 in tenants && ids.tenant2 in tenants && ids.room1 in rooms && ids.room2 in rooms
      requires forall k | k in beds :: beds[k].roomId != ids.room1 && beds[k].roomId != ids.room2
      requires ids.bed1 !in beds && ids.bed2 !in beds && ids.bed3 !in beds && ids.bed4 !in beds && ids.bed5 !in beds
      requires payments == map[]
      modifies this
      ensures Valid()
      ensures beds == SeedBeds(old(beds), ids, now)
      ensures payments == map[ids.payment1 := SeedPayment1(ids, now)]
      ensures tenants == old(tenants) && rooms == old(rooms)
    {
      InsertSeedBedsOfRoom1(ids, now);
      InsertSeedBedsOfRoom2(ids, now);
      var p := CreatePayment(SeedPayment1(ids, now));
    }

    /** The seed's two tenant inserts, into an empty tenants table. */
    method InsertSeedTenants(ids: SeedIds, now: string)
      requires Valid()
      requires tenants == map[] && ids.tenant1 != ids.tenant2
      modifies this
      ensures Valid()
      ensures tenants == SeedTenants(ids, now)
      ensures rooms == old(rooms) && beds == old(beds) && payments == old(payments)
    {
      var t := CreateTenant(SeedTenant1(ids, now));
      t := CreateTenant(SeedTenant2(ids, now));
    }

    /** The seed's two room inserts; the first that fails stops the step. */
    method InsertSeedRooms(ids: SeedIds, now: string) returns (r: Outcome)
      requires Valid()
      requires ids.room1 != ids.room2 && ids.room1 !in rooms && ids.room2 !in rooms
      modifies this
      ensures Valid()
      ensures r == Ok <==> !RoomNumberTaken(old(rooms), "R-101") && !RoomNumberTaken(old(rooms), "R-205")
      ensures r == Ok ==> rooms == SeedRooms(old(rooms), ids, now)
      ensures r != Ok ==>
        && r == Violated(Unique)
        && rooms == (if RoomNumberTaken(old(rooms), "R-101") then old(rooms)
                     else old(rooms)[ids.room1 := SeedRoom1(ids, now)])
      ensures tenants == old(tenants) && beds == old(beds) && payments == old(payments)
    {
      r := CreateRoom(SeedRoom1(ids, now));
      if r != Ok {
        return;
      }
      NumberTakenAfterInsert(old(rooms), SeedRoom1(ids, now), "R-205");
      r := CreateRoom(SeedRoom2(ids, now));
    }

    /** The seed's bed inserts into room R-101, which has no beds yet. */
    method InsertSeedBedsOfRoom1(ids: SeedIds, now: string)
      requires Valid()
      requires ids.tenant1 in tenants && ids.room1 in rooms
      requires forall k | k in beds :: beds[k].roomId != ids.room1
      requires ids.bed1 != ids.bed2 && ids.bed1 !in beds && ids.bed2 !in beds
      modifies this
      ensures Valid()
      ensures beds == old(beds)[ids.bed1 := SeedBed1(ids, now)][ids.bed2 := SeedBed2(ids, now)]
      ensures tenants == old(tenants) && rooms == old(rooms) && payments == old(payments)
    {
      var b1, b2 := SeedBed1(ids, now), SeedBed2(ids, now);
      var b := CreateBed(b1);
      SlotStillFree(old(beds), b1, ids.room1, "B-2");
      b := CreateBed(b2);
    }

    /** The seed's bed inserts into room R-205, which has no beds yet. */
    method InsertSeedBedsOfRoom2(ids: SeedIds, now: string)
      requires Valid()
      requires ids.tenant2 in tenants && ids.room2 in rooms
      requires forall k | k in beds :: beds[k].roomId != ids.room2
      requires ids.bed3 != ids.bed4 && ids.bed3 != ids.bed5 && ids.bed4 != ids.bed5
      requires ids.bed3 !in beds && ids.bed4 !in beds && ids.bed5 !in beds
      modifies this
      ensures Valid()
      ensures beds == old(beds)[ids.bed3 := SeedBed3(ids, now)][ids.bed4 := SeedBed4(ids, now)][ids.bed5 := SeedBed5(ids, now)]
      ensures tenants == old(tenants) && rooms == old(rooms) && payments == old(payments)
    {
      var b3, b4, b5 := SeedBed3(ids, now), SeedBed4(ids, now), SeedBed5(ids, now);
      var b := CreateBed(b3);
      SlotStillFree(old(beds), b3, ids.room2, "B-2");
      SlotStillFree(old(beds), b3, ids.room2, "B-3");
      ghost var withB3 := beds;
      b := CreateBed(b4);
      SlotStillFree(withB3, b4, ids.room2, "B-3");
      b := CreateBed(b5);
    }
  }

  /** Room R-101's seeded beds are exactly B-1 and B-2. */
  lemma SeedBedsOfRoom1(ids: SeedIds, now: string)
    requires SeedIdsDistinct(ids)
    ensures BedKeysOfRoom(SeedBeds(map[], ids, now), ids.room1) == {ids.bed1, ids.bed2}
    ensures forall b: Bed | b.id in SeedBeds(map[], ids, now) && SeedBeds(map[], ids, now)[b.id] == b && b.roomId == ids.room1 ::
      b == SeedBed1(ids, now) || b == SeedBed2(ids, now)
  {
    assert SeedBeds(map[], ids, now).Keys == {ids.bed1, ids.bed2, ids.bed3, ids.bed4, ids.bed5};
  }

  /** Room R-205's seeded beds are exactly B-1, B-2 and B-3. */
  lemma SeedBedsOfRoom2(ids: SeedIds, now: string)
    requires SeedIdsDistinct(ids)
    ensures BedKeysOfRoom(SeedBeds(map[], ids, now), ids.room2) == {ids.bed3, ids.bed4, ids.bed5}
    ensures |BedKeysOfRoom(SeedBeds(map[], ids, now), ids.room2)| == 3
    ensures forall b: Bed | b.id in SeedBeds(map[], ids, now) && SeedBeds(map[], ids, now)[b.id] == b && b.roomId == ids.room2 ::
      b == SeedBed3(ids, now) || b == SeedBed4(ids, now) || b == SeedBed5(ids, now)
  {
    assert SeedBeds(map[], ids, now).Keys == {ids.bed1, ids.bed2, ids.bed3, ids.bed4, ids.bed5};
    assert |{ids.bed3, ids.bed4}| == 2;
    assert |{ids.bed3, ids.bed4} + {ids.bed5}| == 3;
  }

  /** Three rows with distinct ids drawn from `a`, `b`, `c`, sorted by a key that orders those strictly, are `[a, b, c]`. */
  lemma SortedThree(r: seq<Bed>, a: Bed, b: Bed, c: Bed)
    requires |r| == 3
    requires forall i | 0 <= i < 3 :: r[i] == a || r[i] == b || r[i] == c
    requires r[0].id != r[1].id && r[0].id != r[2].id && r[1].id != r[2].id
    requires TextLe(r[0].bedNumber, r[1].bedNumber) && TextLe(r[1].bedNumber, r[2].bedNumber)
    requires !TextLe(b.bedNumber, a.bedNumber) && !TextLe(c.bedNumber, a.bedNumber) && !TextLe(c.bedNumber, b.bedNumber)
    ensures r == [a, b, c]
  {
    TextLeReflexive(b.bedNumber);
    TextLeReflexive(c.bedNumber);
    assert r[2] == c;
    assert r[1] == b;
  }

  /** Two rows with distinct ids drawn from `a` and `b`, sorted by a key that orders those strictly, are `[a, b]`. */
  lemma SortedTwo(r: seq<Bed>, a: Bed, b: Bed)
    requires |r| == 2
    requires forall i | 0 <= i < 2 :: r[i] == a || r[i] == b
    requires r[0].id != r[1].id && TextLe(r[0].bedNumber, r[1].bedNumber)
    requires !TextLe(b.bedNumber, a.bedNumber)
    ensures r == [a, b]
  {
    TextLeReflexive(b.bedNumber);
    assert r[1] == b;
  }

  /** Listing room R-101 of a freshly seeded database shows B-1 (occupied) then B-2. */
  lemma SeededRoom1Listing(s: Store, ids: SeedIds, now: string)
    requires SeedIdsDistinct(ids) && s.Valid() && s.beds == SeedBeds(map[], ids, now)
    ensures s.ListBedsByRoom(ids.room1) == [SeedBed1(ids, now), SeedBed2(ids, now)]
  {
    SeedBedsOfRoom1(ids, now);
    SeedBedNumbersOrdered();
    var r := s.ListBedsByRoom(ids.room1);
    assert |r| == 2;
    assert r[0] in r && r[1] in r;
    SortedTwo(r, SeedBed1(ids, now), SeedBed2(ids, now));
  }

  /** Listing room R-205 of a freshly seeded database shows B-1 (occupied), B-2, B-3. */
  lemma SeededRoom2Listing(s: Store, ids: SeedIds, now: string)
    requires SeedIdsDistinct(ids) && s.Valid() && s.beds == SeedBeds(map[], ids, now)
    ensures s.ListBedsByRoom(ids.room2) == [SeedBed3(ids, now), SeedBed4(ids, now), SeedBed5(ids, now)]
  {
    SeedBedsOfRoom2(ids, now);
    SeedBedNumbersOrdered();
    var r := s.ListBedsByRoom(ids.room2);
    assert |r| == 3;
    assert forall i | 0 <= i < 3 :: r[i] in r;
    SortedThree(r, SeedBed3(ids, now), SeedBed4(ids, now), SeedBed5(ids, now));
  }

  /** The seeded rooms are exactly R-101 and R-205, and R-205 does not sort before R-101. */
  lemma SeedRoomsMembers(ids: SeedIds, now: string)
    requires SeedIdsDistinct(ids)
    ensures |SeedRooms(map[], ids, now)| == 2
    ensures forall x: Room | x.id in SeedRooms(map[], ids, now) && SeedRooms(map[], ids, now)[x.id] == x ::
      x == SeedRoom1(ids, now) || x == SeedRoom2(ids, now)
    ensures !TextLe("R-205", "R-101")
  {
    assert SeedRooms(map[], ids, now).Keys == {ids.room1, ids.room2};
    assert "R-205"[1..][1..] == "205" && "R-101"[1..][1..] == "101";
  }

  /** The seeded rooms list R-101 before R-205. */
  lemma SeededRoomsListing(s: Store, ids: SeedIds, now: string)
    requires SeedIdsDistinct(ids) && s.Valid() && s.rooms == SeedRooms(map[], ids, now)
    ensures s.ListRooms() == [SeedRoom1(ids, now), SeedRoom2(ids, now)]
  {
    SeedRoomsMembers(ids, now);
    var rs := s.ListRooms();
    assert rs[0] in rs && rs[1] in rs;
    assert rs[0].id != rs[1].id && TextLe(rs[0].roomNumber, rs[1].roomNumber);
  }

  /** The seeded tables hold two tenants, and the one payment belongs to the first. */
  lemma SeedPaymentsOf(ids: SeedIds, now: string)
    requires SeedIdsDistinct(ids)
    ensures |SeedTenants(ids, now)| == 2
    ensures PaymentKeysOfTenant(map[ids.payment1 := SeedPayment1(ids, now)], ids.tenant1) == {ids.payment1}
    ensures PaymentKeysOfTenant(map[ids.payment1 := SeedPayment1(ids, now)], ids.tenant2) == {}
  {
    assert SeedTenants(ids, now).Keys == {ids.tenant1, ids.tenant2};
  }

  /** Of the seeded tenants, the first has the one January payment and the second none. */
  lemma SeededPaymentsListing(s: Store, ids: SeedIds, now: string)
    requires SeedIdsDistinct(ids) && s.Valid() && s.tenants == SeedTenants(ids, now) && s.payments == map[ids.payment1 := SeedPayment1(ids, now)]
    ensures |s.ListTenants()| == 2
    ensures s.ListPaymentsForTenant(ids.tenant1) == [SeedPayment1(ids, now)]
    ensures s.ListPaymentsForTenant(ids.tenant2) == []
  {
    SeedPaymentsOf(ids, now);
    var ps := s.ListPaymentsForTenant(ids.tenant1);
    assert |ps| == 1;
    assert ps[0] in ps;
  }

  /**
   * Opening a brand-new database file: the empty tables are created and the
   * seed step runs in full, leaving a database that satisfies every
   * constraint, whose rooms list R-101 then R-205, whose rooms list their
   * seeded beds in bed-number order, and whose one payment belongs to the
   * first tenant.
   */
  method OpenSeededDatabase(ids: SeedIds, now: string) returns (s: Store, r: Outcome)
    requires SeedIdsDistinct(ids)
    ensures fresh(s) && s.Valid() && r == Ok
    ensures s.tenants == SeedTenants(ids, now) && s.rooms == SeedRooms(map[], ids, now)
    ensures s.beds == SeedBeds(map[], ids, now) && s.payments == map[ids.payment1 := SeedPayment1(ids, now)]
    ensures s.ListRooms() == [SeedRoom1(ids, now), SeedRoom2(ids, now)]
    ensures s.ListBedsByRoom(ids.room1) == [SeedBed1(ids, now), SeedBed2(ids, now)]
    ensures s.ListBedsByRoom(ids.room2) == [SeedBed3(ids, now), SeedBed4(ids, now), SeedBed5(ids, now)]
    ensures |s.ListTenants()| == 2
    ensures s.ListPaymentsForTenant(ids.tenant1) == [SeedPayment1(ids, now)]
    ensures s.ListPaymentsForTenant(ids.tenant2) == []
  {
    s := new Store();
    r := s.InitDb(ids, now);
    SeededRoomsListing(s, ids, now);
    SeededRoom1Listing(s, ids, now);
    SeededRoom2Listing(s, ids, now);
    SeededPaymentsListing(s, ids, now);
  }
}
