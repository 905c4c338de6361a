/** The persisted state of the fleet service: the three tables of
    main.py:32-64 as maps from primary key to record, plus the next key each
    table hands out.  Keys start at 1 and grow by one per insert; since no row
    is ever deleted this is the same key a rowid table or a sequence assigns. */
module Store {
  import opened Wrappers
  import opened Codes

  type Id = int

  /** A point in time, supplied by the caller in place of `datetime.utcnow()`. */
  type Timestamp = int

  /** A purchase amount in cents; the model stores it and never computes with it. */
  type Cents = int

  /** A row of fm_vehicles (main.py:32-40); `isDeleted` is the retired flag. */
  datatype Vehicle = Vehicle(
    make: string,
    model: string,
    year: int,
    isActive: bool,
    isDeleted: bool,
    lastServiceDate: Option<Timestamp>)

  /** A row of fm_maintenances (main.py:42-53).  The type code is stored as the
      caller sent it, with no check against the enumeration, as the source does. */
  datatype Maintenance = Maintenance(
    vehicleId: Id,
    technician: string,
    maintenanceTypeId: int,
    status: MaintenanceStatus,
    createdOn: Timestamp,
    completedOn: Option<Timestamp>)

  /** A row of fm_part_orders (main.py:55-64). */
  datatype PartOrder = PartOrder(
    maintenanceId: Id,
    purchaseCardNum: string,
    totalAmount: Cents,
    purchasedOn: Timestamp,
    installedOn: Option<Timestamp>)

  datatype Store = Store(
    vehicles: map<Id, Vehicle>,
    maintenances: map<Id, Maintenance>,
    partOrders: map<Id, PartOrder>,
    nextVehicleId: Id,
    nextMaintenanceId: Id,
    nextPartOrderId: Id)

  /** Keys are handed out from 1 upwards, and every key of the table was
      handed out before `next`. */
  ghost predicate KeysBelow<T>(m: map<Id, T>, next: Id) {
    1 <= next && forall id :: id in m ==> 1 <= id < next
  }

  /** A retired vehicle is never active. */
  ghost predicate RetiredInactive(s: Store) {
    forall id :: id in s.vehicles && s.vehicles[id].isDeleted ==> !s.vehicles[id].isActive
  }

  /** Every maintenance names a stored vehicle, every part order a stored
      maintenance (the foreign keys of main.py:45 and 58). */
  ghost predicate ReferencesResolve(s: Store) {
    && (forall id :: id in s.maintenances ==> s.maintenances[id].vehicleId in s.vehicles)
    && (forall id :: id in s.partOrders ==> s.partOrders[id].maintenanceId in s.maintenances)
  }

  ghost predicate Open(m: Maintenance) {
    m.status != Completed
  }

  /** The lock that start_maintenance takes (main.py:212, 223): a vehicle with
      an open maintenance is inactive, and no vehicle has two open ones. */
  ghost predicate ServiceLocked(s: Store) {
    && (forall id :: id in s.maintenances && Open(s.maintenances[id])
          ==> s.maintenances[id].vehicleId in s.vehicles && !s.vehicles[s.maintenances[id].vehicleId].isActive)
    && (forall a, b ::
          (a in s.maintenances && b in s.maintenances && a != b && Open(s.maintenances[a]) && Open(s.maintenances[b]))
          ==> s.maintenances[a].vehicleId != s.maintenances[b].vehicleId)
  }

  /** The invariant every reachable store satisfies. */
  ghost predicate Valid(s: Store) {
    && KeysBelow(s.vehicles, s.nextVehicleId)
    && KeysBelow(s.maintenances, s.nextMaintenanceId)
    && KeysBelow(s.partOrders, s.nextPartOrderId)
    && RetiredInactive(s)
    && ReferencesResolve(s)
    && ServiceLocked(s)
  }

  /** The freshly created database: three empty tables. */
  function Initial(): (s: Store)
    ensures Valid(s)
    ensures s.vehicles == map[] && s.maintenances == map[] && s.partOrders == map[]
  {
    Store(map[], map[], map[], 1, 1, 1)
  }
}
