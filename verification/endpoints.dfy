/** The three list endpoints (main.py:131-177): one query rule applied to
    each table, read in ascending key order. */
module Endpoints {
  import opened Wrappers
  import opened Rows
  import opened Query
  import opened Store

  /** The defaults of the `startIndex` and `batchSize` query parameters. */
  const DefaultStartIndex: int := 0
  const DefaultBatchSize: int := 100

  /** A table's rows in ascending key order. */
  function Table<T>(m: map<Id, T>, next: Id): (r: seq<Row<T>>)
    ensures RowsOf(r, m) && Ascending(r)
  {
    Between(m, 1, next)
  }

  /** With keys handed out below `next`, the ordered table holds every row. */
  lemma TableComplete<T>(m: map<Id, T>, next: Id)
    requires KeysBelow(m, next)
    ensures Ids(Table(m, next)) == m.Keys
  {
  }

  /** The keys a request asks for among `keys`: all of them, or only the
      listed ones when `ids` parses. */
  ghost function Listed(keys: set<Id>, ids: Option<string>): set<Id> {
    if ParseFilter(ids).Some? then keys * set x | x in ParseFilter(ids).value else keys
  }

  /** The rows a list request pages through: with keys handed out below
      `next`, exactly the stored rows whose keys the request asks for, in
      ascending key order.  Listed keys with no row are skipped without an
      error, and a malformed `ids` selects the whole table. */
  function Selected<T>(m: map<Id, T>, next: Id, ids: Option<string>): (r: seq<Row<T>>)
    ensures RowsOf(r, m) && Ascending(r)
    ensures KeysBelow(m, next) ==> Ids(r) == Listed(m.Keys, ids)
    ensures ParseFilter(ids).Some? ==> forall row :: row in r ==> row.id in ParseFilter(ids).value
  {
    SelectedKeys(m, next, ids);
    if ParseFilter(ids).Some? then FilterById(Table(m, next), ParseFilter(ids).value)
    else Table(m, next)
  }

  lemma SelectedKeys<T>(m: map<Id, T>, next: Id, ids: Option<string>)
    ensures KeysBelow(m, next) && ParseFilter(ids).Some? ==>
              Ids(FilterById(Table(m, next), ParseFilter(ids).value)) == Listed(m.Keys, ids)
    ensures KeysBelow(m, next) && ParseFilter(ids).None? ==> Ids(Table(m, next)) == Listed(m.Keys, ids)
  {
    if KeysBelow(m, next) {
      TableComplete(m, next);
      if ParseFilter(ids).Some? {
        FilterIds(Table(m, next), ParseFilter(ids).value);
      }
    }
  }

  /** One page of a table under the shared rule: the page at `startIndex` of
      the selected rows, so stored rows only, in ascending key order, at most
      `batchSize` of them. */
  function ListTable<T>(m: map<Id, T>, next: Id, startIndex: int, batchSize: int, ids: Option<string>): (r: seq<Row<T>>)
    ensures r == Page(Selected(m, next, ids), startIndex, batchSize)
    ensures RowsOf(r, m) && Ascending(r)
    ensures batchSize >= 0 ==> |r| <= batchSize
    ensures |r| <= Remaining(|Table(m, next)|, startIndex)
    ensures ParseFilter(ids).Some? ==> forall row :: row in r ==> row.id in ParseFilter(ids).value
  {
    ListQuery(Table(m, next), startIndex, batchSize, ids)
  }

  /** GET /vehicles/ */
  function ListVehicles(s: Store, startIndex: int, batchSize: int, ids: Option<string>): (r: seq<Row<Vehicle>>)
    ensures r == Page(Selected(s.vehicles, s.nextVehicleId, ids), startIndex, batchSize)
    ensures Valid(s) ==> Ids(Selected(s.vehicles, s.nextVehicleId, ids)) == Listed(s.vehicles.Keys, ids)
    ensures RowsOf(r, s.vehicles) && Ascending(r)
    ensures batchSize >= 0 ==> |r| <= batchSize
    ensures ParseFilter(ids).Some? ==> forall row :: row in r ==> row.id in ParseFilter(ids).value
  {
    ListTable(s.vehicles, s.nextVehicleId, startIndex, batchSize, ids)
  }

  /** GET /maintenance/ */
  function ListMaintenance(s: Store, startIndex: int, batchSize: int, ids: Option<string>): (r: seq<Row<Maintenance>>)
    ensures r == Page(Selected(s.maintenances, s.nextMaintenanceId, ids), startIndex, batchSize)
    ensures Valid(s) ==> Ids(Selected(s.maintenances, s.nextMaintenanceId, ids)) == Listed(s.maintenances.Keys, ids)
    ensures RowsOf(r, s.maintenances) && Ascending(r)
    ensures batchSize >= 0 ==> |r| <= batchSize
    ensures ParseFilter(ids).Some? ==> forall row :: row in r ==> row.id in ParseFilter(ids).value
  {
    ListTable(s.maintenances, s.nextMaintenanceId, startIndex, batchSize, ids)
  }

  /** GET /part-orders/ */
  function ListPartOrders(s: Store, startIndex: int, batchSize: int, ids: Option<string>): (r: seq<Row<PartOrder>>)
    ensures r == Page(Selected(s.partOrders, s.nextPartOrderId, ids), startIndex, batchSize)
    ensures Valid(s) ==> Ids(Selected(s.partOrders, s.nextPartOrderId, ids)) == Listed(s.partOrders.Keys, ids)
    ensures RowsOf(r, s.partOrders) && Ascending(r)
    ensures batchSize >= 0 ==> |r| <= batchSize
    ensures ParseFilter(ids).Some? ==> forall row :: row in r ==> row.id in ParseFilter(ids).value
  {
    ListTable(s.partOrders, s.nextPartOrderId, startIndex, batchSize, ids)
  }
}
