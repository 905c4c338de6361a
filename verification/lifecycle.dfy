/** The engine as a state machine: each of the four modelled write endpoints
    preserves the store invariant, so every store reachable from the empty
    database by any sequence of their requests, accepted or rejected,
    satisfies it. */
module Lifecycle {
  import opened Store
  import opened Engine

  /** One request to a write endpoint, with the time it is served at. */
  datatype Command =
    | CreateVehicleCmd(create: CreateVehicleRequest)
    | RetireVehicleCmd(vehicleId: Id)
    | StartMaintenanceCmd(start: StartMaintenanceRequest, startedAt: Timestamp)
    | OrderPartsCmd(order: OrderPartsRequest, orderedAt: Timestamp)

  /** The store after serving one request: the committed store, or the same
      store when the request was rejected. */
  function Step(s: Store, c: Command): Store {
    match c
    case CreateVehicleCmd(req) => CreateVehicle(s, req).store
    case RetireVehicleCmd(id) =>
      var r := RetireVehicle(s, id);
      if r.Ok? then r.store else s
    case StartMaintenanceCmd(req, now) =>
      var r := StartMaintenance(s, req, now);
      if r.Ok? then r.store else s
    case OrderPartsCmd(req, now) =>
      var r := OrderParts(s, req, now);
      if r.Ok? then r.store else s
  }

  /** The store after serving a sequence of requests in order. */
  function Run(s: Store, cs: seq<Command>): Store
    decreases |cs|
  {
    if |cs| == 0 then s else Run(Step(s, cs[0]), cs[1..])
  }

  lemma CreateVehiclePreservesValid(s: Store, req: CreateVehicleRequest)
    requires Valid(s)
    ensures Valid(CreateVehicle(s, req).store)
  {
    var r := CreateVehicle(s, req);
    assert r.id !in s.vehicles;
    assert forall m :: m in s.maintenances ==> s.maintenances[m].vehicleId != r.id;
  }

  lemma RetireVehiclePreservesValid(s: Store, id: Id)
    requires Valid(s)
    requires RetireVehicle(s, id).Ok?
    ensures Valid(RetireVehicle(s, id).store)
  {
  }

  lemma StartMaintenancePreservesValid(s: Store, req: StartMaintenanceRequest, now: Timestamp)
    requires Valid(s)
    requires StartMaintenance(s, req, now).Ok?
    ensures Valid(StartMaintenance(s, req, now).store)
  {
    var r := StartMaintenance(s, req, now);
    assert r.id !in s.maintenances;
    assert forall k :: k in s.maintenances && Open(s.maintenances[k]) ==> s.maintenances[k].vehicleId != req.vehicleId;
  }

  lemma OrderPartsPreservesValid(s: Store, req: OrderPartsRequest, now: Timestamp)
    requires Valid(s)
    requires OrderParts(s, req, now).Ok?
    ensures Valid(OrderParts(s, req, now).store)
  {
  }

  lemma StepPreservesValid(s: Store, c: Command)
    requires Valid(s)
    ensures Valid(Step(s, c))
  {
    match c
    case CreateVehicleCmd(req) => CreateVehiclePreservesValid(s, req);
    case RetireVehicleCmd(id) =>
      if RetireVehicle(s, id).Ok? { RetireVehiclePreservesValid(s, id); }
    case StartMaintenanceCmd(req, now) =>
      if StartMaintenance(s, req, now).Ok? { StartMaintenancePreservesValid(s, req, now); }
    case OrderPartsCmd(req, now) =>
      if OrderParts(s, req, now).Ok? { OrderPartsPreservesValid(s, req, now); }
  }

  /** Every store reachable from a valid one is valid; with `Initial()` this
      covers every state the four modelled write endpoints can lead to. */
  lemma {:induction false} RunPreservesValid(s: Store, cs: seq<Command>)
    requires Valid(s)
    ensures Valid(Run(s, cs))
    decreases |cs|
  {
    if |cs| > 0 {
      StepPreservesValid(s, cs[0]);
      RunPreservesValid(Step(s, cs[0]), cs[1..]);
    }
  }

  /** Retiring twice leaves the same store and returns the same vehicle as
      retiring once. */
  lemma RetireIdempotent(s: Store, id: Id)
    requires id in s.vehicles
    ensures var once := RetireVehicle(s, id);
            var twice := RetireVehicle(once.store, id);
            twice.Ok? && twice.store == once.store && twice.record == once.record
  {
    var once := RetireVehicle(s, id);
    assert once.store.vehicles[id] == once.record;
  }

  /** In a valid store no maintenance can start on a retired vehicle. */
  lemma RetiredCannotStart(s: Store, req: StartMaintenanceRequest, now: Timestamp)
    requires Valid(s)
    requires req.vehicleId in s.vehicles && s.vehicles[req.vehicleId].isDeleted
    ensures StartMaintenance(s, req, now) == Err(FailedPrecondition)
  {
  }

  /** No request removes a vehicle. */
  lemma StepKeepsVehicles(s: Store, c: Command)
    ensures s.vehicles.Keys <= Step(s, c).vehicles.Keys
  {
  }

  /** A retired vehicle stays stored and no request clears its retired flag. */
  lemma StepKeepsRetired(s: Store, c: Command, id: Id)
    requires Valid(s)
    requires id in s.vehicles && s.vehicles[id].isDeleted
    ensures id in Step(s, c).vehicles && Step(s, c).vehicles[id].isDeleted
  {
  }

  /** Retirement is terminal: whatever requests to the four modelled write
      endpoints follow, a retired vehicle stays retired and inactive. */
  lemma {:induction false} RetiredIsTerminal(s: Store, cs: seq<Command>, id: Id)
    requires Valid(s)
    requires id in s.vehicles && s.vehicles[id].isDeleted
    ensures id in Run(s, cs).vehicles
    ensures Run(s, cs).vehicles[id].isDeleted && !Run(s, cs).vehicles[id].isActive
    decreases |cs|
  {
    if |cs| > 0 {
      StepKeepsRetired(s, cs[0], id);
      StepPreservesValid(s, cs[0]);
      RetiredIsTerminal(Step(s, cs[0]), cs[1..], id);
    }
  }
}
