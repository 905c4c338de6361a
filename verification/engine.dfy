/** The four write endpoints (main.py:182-232) as pure transitions.  A call
    either commits, giving the new store, the key of the record it returned
    and that record, or fails with the HTTP error the source raises; a failed
    call carries no store, so it changes nothing. */
module Engine {
  import opened Wrappers
  import opened Codes
  import opened Store

  /** HTTP 404 and HTTP 400 of the source. */
  datatype Error = NotFound | FailedPrecondition

  datatype Outcome<T> = Ok(store: Store, id: Id, record: T) | Err(error: Error)

  /** Request bodies (main.py:104-117). */
  datatype CreateVehicleRequest = CreateVehicleRequest(make: string, model: string, year: int)
  datatype StartMaintenanceRequest = StartMaintenanceRequest(vehicleId: Id, technician: string, maintenanceTypeId: int)
  datatype OrderPartsRequest = OrderPartsRequest(maintenanceId: Id, purchaseCardNum: string, totalAmount: Cents)

  /** Two vehicle rows agree on everything but their two flags. */
  predicate SameDetails(a: Vehicle, b: Vehicle) {
    a.make == b.make && a.model == b.model && a.year == b.year && a.lastServiceDate == b.lastServiceDate
  }

  /** POST /vehicles/: a new vehicle, active and not retired, under a key
      above every key in use; no other row changes. */
  function CreateVehicle(s: Store, req: CreateVehicleRequest): (r: Outcome<Vehicle>)
    ensures r.Ok?
    ensures r.record.isActive && !r.record.isDeleted && r.record.lastServiceDate.None?
    ensures r.record.make == req.make && r.record.model == req.model && r.record.year == req.year
    ensures Valid(s) ==> forall id :: id in s.vehicles ==> id < r.id
    ensures r.store.vehicles == s.vehicles[r.id := r.record]
    ensures r.store.maintenances == s.maintenances && r.store.partOrders == s.partOrders
  {
    var id := s.nextVehicleId;
    var v := Vehicle(req.make, req.model, req.year, true, false, None);
    var t := s.(vehicles := s.vehicles[id := v], nextVehicleId := id + 1);
    Ok(t, id, v)
  }

  /** PUT /vehicles/{id}/retire: 404 for an unknown key; otherwise the vehicle
      becomes retired and inactive and nothing else changes. */
  function RetireVehicle(s: Store, id: Id): (r: Outcome<Vehicle>)
    ensures r.Err? <==> id !in s.vehicles
    ensures r.Err? ==> r.error == NotFound
    ensures r.Ok? ==> r.id == id && r.record.isDeleted && !r.record.isActive && SameDetails(r.record, s.vehicles[id])
    ensures r.Ok? ==> r.store == s.(vehicles := s.vehicles[id := r.record])
  {
    if id !in s.vehicles then Err(NotFound)
    else
      var v := s.vehicles[id].(isDeleted := true, isActive := false);
      Ok(s.(vehicles := s.vehicles[id := v]), id, v)
  }

  /** POST /maintenance/start: 404 for an unknown vehicle, 400 for an
      inactive one (which covers every retired one); otherwise one new
      in-progress maintenance for that vehicle, and the vehicle is locked
      inactive.  Nothing else changes. */
  function StartMaintenance(s: Store, req: StartMaintenanceRequest, now: Timestamp): (r: Outcome<Maintenance>)
    ensures r == Err(NotFound) <==> req.vehicleId !in s.vehicles
    ensures r == Err(FailedPrecondition) <==> req.vehicleId in s.vehicles && !s.vehicles[req.vehicleId].isActive
    ensures r.Ok? ==> && r.record.vehicleId == req.vehicleId
                      && r.record.status == InProgress
                      && r.record.technician == req.technician
                      && r.record.maintenanceTypeId == req.maintenanceTypeId
                      && r.record.createdOn == now
                      && r.record.completedOn.None?
    ensures r.Ok? && Valid(s) ==> forall id :: id in s.maintenances ==> id < r.id
    ensures r.Ok? ==> r.store.maintenances == s.maintenances[r.id := r.record]
    ensures r.Ok? ==> && req.vehicleId in r.store.vehicles
                      && r.store.vehicles.Keys == s.vehicles.Keys
                      && !r.store.vehicles[req.vehicleId].isActive
                      && r.store.vehicles[req.vehicleId].isDeleted == s.vehicles[req.vehicleId].isDeleted
                      && SameDetails(r.store.vehicles[req.vehicleId], s.vehicles[req.vehicleId])
    ensures r.Ok? ==> forall v :: v in s.vehicles && v != req.vehicleId ==> r.store.vehicles[v] == s.vehicles[v]
    ensures r.Ok? ==> r.store.partOrders == s.partOrders
  {
    if req.vehicleId !in s.vehicles then Err(NotFound)
    else if !s.vehicles[req.vehicleId].isActive then Err(FailedPrecondition)
    else
      var id := s.nextMaintenanceId;
      var m := Maintenance(req.vehicleId, req.technician, req.maintenanceTypeId, InProgress, now, None);
      var v := s.vehicles[req.vehicleId].(isActive := false);
      var t := s.(vehicles := s.vehicles[req.vehicleId := v],
                  maintenances := s.maintenances[id := m],
                  nextMaintenanceId := id + 1);
      Ok(t, id, m)
  }

  /** POST /maintenance/parts: 404 when the maintenance key does not resolve
      (main.py:230-232).  The source is cut off after that check; the success
      branch here records the part order with its purchase time and changes
      nothing else, which is an assumption (see the README). */
  function OrderParts(s: Store, req: OrderPartsRequest, now: Timestamp): (r: Outcome<PartOrder>)
    ensures r.Err? <==> req.maintenanceId !in s.maintenances
    ensures r.Err? ==> r.error == NotFound
    ensures r.Ok? ==> && r.record.maintenanceId == req.maintenanceId
                      && r.record.purchaseCardNum == req.purchaseCardNum
                      && r.record.totalAmount == req.totalAmount
                      && r.record.purchasedOn == now
                      && r.record.installedOn.None?
    ensures r.Ok? && Valid(s) ==> forall id :: id in s.partOrders ==> id < r.id
    ensures r.Ok? ==> r.store.partOrders == s.partOrders[r.id := r.record]
    ensures r.Ok? ==> r.store.vehicles == s.vehicles && r.store.maintenances == s.maintenances
  {
    if req.maintenanceId !in s.maintenances then Err(NotFound)
    else
      var id := s.nextPartOrderId;
      var p := PartOrder(req.maintenanceId, req.purchaseCardNum, req.totalAmount, now, None);
      Ok(s.(partOrders := s.partOrders[id := p], nextPartOrderId := id + 1), id, p)
  }
}
