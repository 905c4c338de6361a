# Fleet maintenance lifecycle — a Dafny model

The fleet service keeps three tables: vehicles, maintenance records, and part
orders. Four write endpoints move records through the maintenance lifecycle:

- register a vehicle;
- retire a vehicle;
- start maintenance on a vehicle, which locks it inactive;
- order parts for a maintenance record.

Three list endpoints serve the tables to an external orchestrator. All three
use the same paging rule, and all three accept an optional comma-separated
`ids` filter.

This project models that core in `main.py` as pure functions over an immutable
store:

| file | module | what it holds |
|---|---|---|
| `wrappers.dfy` | `Wrappers` | `Option`, for nullable columns, optional parameters and failed parses |
| `codes.dfy` | `Codes` | the status and maintenance-type enumerations and their fixed integer codes |
| `store.dfy` | `Store` | the three record types, the store (three maps from primary key to record plus the next key of each table), and the store invariant `Valid` |
| `engine.dfy` | `Engine` | the four write endpoints. Each returns `Ok(store', id, record)` or `Err(NotFound \| FailedPrecondition)` |
| `lifecycle.dfy` | `Lifecycle` | requests as commands, runs of commands, preservation of `Valid`, and the terminal nature of retirement |
| `rows.dfy` | `Rows` | a table read in ascending key order |
| `pyint.dfy` | `PyInt` | Python's `int()` applied to one piece of `ids` |
| `query.dfy` | `Query` | `split(",")`, the id filter, `offset/limit`, and the shared list rule `ListQuery` |
| `endpoints.dfy` | `Endpoints` | the three list endpoints over the store |
| `scenarios.dfy` | `Scenarios` | concrete requests, each checked end to end |

The store invariant `Valid` combines four facts:

- **Key allocation.** Keys are handed out from 1 upwards, and every key is
  below its table's next key.
- **Retired implies inactive.** No retired vehicle is active.
- **References resolve.** Every maintenance names a stored vehicle, and every
  part order names a stored maintenance.
- **Service lock.** A vehicle with an open maintenance is inactive, and no
  vehicle has two open maintenances. This follows from the active check and
  the lock in `start_maintenance`.

A rejected request returns `Err`, which carries no store. A failed call
therefore leaves the store unchanged by construction. `Lifecycle.Step` serves
one request and returns the old store when the request is rejected.

Where the service's design description and `main.py` disagree, the model
follows `main.py`:

- The description lists VIN and colour fields and year validation. `main.py`
  has no such fields and validates nothing.
- The description says some variants omit the active check in
  `start_maintenance`. `main.py` performs it.

## Model

| member | source | states |
|---|---|---|
| `Codes.StatusRoundTrip` | main.py:21-24 | decoding the code of any status gives that status back, so no two statuses share a code |
| `Codes.StatusCodeRoundTrip` | main.py:21-24 | every code that decodes (exactly 1, 2, 3) is the code of the status it decodes to |
| `Codes.TypeRoundTrip` | main.py:26-29 | decoding the code of any maintenance type gives that type back |
| `Codes.TypeCodeRoundTrip` | main.py:26-29 | every code that decodes (exactly 1, 2, 3) is the code of the type it decodes to |
| `Store.Initial` | main.py:32-64 | the new database has three empty tables and satisfies the store invariant |
| `Engine.CreateVehicle` | main.py:182-194 | always succeeds; the new vehicle has the requested make, model and year, is active, is not retired, and has no service date; its key is above every key already in use; no other row changes |
| `Engine.RetireVehicle` | main.py:196-205 | fails with NotFound exactly when the key does not resolve; otherwise it sets the vehicle retired and inactive, keeps its other fields, and changes nothing else |
| `Engine.StartMaintenance` | main.py:207-226 | NotFound exactly when the vehicle is missing; FailedPrecondition exactly when the vehicle is inactive; on success it inserts exactly one in-progress record for that vehicle under a fresh key (with the technician, the type code and the start time), locks the vehicle inactive without touching its other fields, and leaves other vehicles, other maintenance records and part orders unchanged |
| `Engine.OrderParts` | main.py:228-232 | NotFound exactly when the maintenance key does not resolve; on success it inserts one part order for that maintenance under a fresh key and changes nothing else (the success branch is an assumption, see Left out) |
| `Lifecycle.CreateVehiclePreservesValid` | main.py:184-193 | registering a vehicle keeps the store invariant |
| `Lifecycle.RetireVehiclePreservesValid` | main.py:197-205 | retiring a vehicle keeps the store invariant |
| `Lifecycle.StartMaintenancePreservesValid` | main.py:209-224 | starting maintenance keeps the store invariant, including at most one open maintenance per vehicle |
| `Lifecycle.OrderPartsPreservesValid` | main.py:228-232 | ordering parts keeps the store invariant |
| `Lifecycle.StepPreservesValid` | main.py:182-232 | serving any request to one of the four modelled write endpoints, accepted or rejected, keeps the store invariant |
| `Lifecycle.RunPreservesValid` | main.py:182-232 | every store reachable from a valid store (such as the initial one) by a sequence of requests to the four modelled write endpoints is valid |
| `Lifecycle.RetireIdempotent` | main.py:197-205 | retiring twice gives the same store and the same vehicle as retiring once |
| `Lifecycle.RetiredCannotStart` | main.py:209-213 | in a valid store, starting maintenance on a retired vehicle fails with FailedPrecondition |
| `Lifecycle.StepKeepsVehicles` | main.py:182-232 | no request to a modelled write endpoint removes a vehicle |
| `Lifecycle.StepKeepsRetired` | main.py:182-232 | a retired vehicle stays stored and no request to a modelled write endpoint clears its retired flag |
| `Lifecycle.RetiredIsTerminal` | main.py:182-232 | after any sequence of requests to the four modelled write endpoints, a retired vehicle is still stored, retired and inactive |
| `Rows.Between` | main.py:138 | the table read lists exactly the stored rows with keys in the range, each under its own key, in strictly ascending key order |
| `PyInt.Strip` | main.py:141 | stripping keeps every character other than the whitespace `int()` skips (ASCII tab to carriage return, space, and non-ASCII Unicode whitespace, but not U+001C-U+001F), adds none, and leaves no such whitespace at either end |
| `PyInt.FormatIntRoundTrip` | main.py:141 | `int()` reads back the decimal rendering of any integer, with any whitespace that `int()` skips around it |
| `PyInt.PlusSignRoundTrip` | main.py:141 | an explicit `+` before the digits is accepted and changes nothing |
| `PyInt.UnderscoreIgnored` | main.py:141 | a single `_` between two digit groups is accepted and read as if absent |
| `PyInt.ForeignCharRejected` | main.py:140-144 | a piece holding any character other than whitespace, a digit, a sign or `_` raises ValueError |
| `Query.Split` | main.py:141 | `split(",")` returns at least one piece, no piece holds a comma, and joining the pieces with commas gives the input back |
| `Query.SplitJoin` | main.py:141 | splitting comma-joined, comma-free pieces gives the same pieces back |
| `Query.ParseAll` | main.py:141 | the list comprehension succeeds exactly when every piece parses, and then holds each piece's value in order |
| `Query.ParseAllValues` | main.py:141 | when each piece parses to the matching value, the comprehension yields exactly that list |
| `Query.ParseFilter` | main.py:139-144 | an absent or empty `ids` gives no filter; otherwise a filter exists exactly when every comma-separated piece parses, and it lists each piece's value |
| `Query.FilterById` | main.py:142 | keeps exactly the rows whose key is listed, never adds a row, and keeps ascending order |
| `Query.Page` | main.py:145 | the page is the run of consecutive rows from the offset; its length is at most `batchSize` and at most the rows left after the offset, and it equals the smaller of the two |
| `Query.ListQuery` | main.py:138-145 | with no usable `ids`, the page of the unfiltered table; with a well-formed `ids`, the page of the filtered table; only table rows, only listed keys, ascending, bounded by `batchSize` |
| `Query.MalformedIdsIgnored` | main.py:140-144 | if any piece of `ids` fails to parse, the answer equals the answer without `ids` |
| `Query.MissingIdIgnored` | main.py:142 | listing a key that has no row changes nothing and raises no error |
| `Query.FilterIds` | main.py:142 | the filtered keys are exactly the table's keys that are listed |
| `Query.PagesConcatenate` | main.py:145 | two adjacent pages together are the page that spans both, so no row is skipped or repeated at a boundary |
| `Query.PageWalkCovers` | main.py:145 | paging from a start position to the end with any positive batch size yields every remaining row once, in order |
| `Endpoints.Table` | main.py:138 | the table as read holds only stored rows, in ascending key order |
| `Endpoints.TableComplete` | main.py:138 | in a store whose keys were handed out in order, the table as read holds every stored row |
| `Endpoints.Selected` | main.py:138-144 | in a store whose keys were handed out in order, the rows a list request pages through are exactly the stored rows whose keys it asks for (every key when `ids` is absent, empty or malformed; the listed keys that exist otherwise), each under its own key, in ascending key order |
| `Endpoints.ListTable` | main.py:138-145 | a list answer is the page at `startIndex` of the selected rows: stored rows only, in ascending key order, at most `batchSize` of them, and only listed keys when `ids` parses |
| `Endpoints.ListVehicles` | main.py:131-145 | `GET /vehicles/` returns the page at `startIndex` of the selected vehicles; in a valid store those are exactly the stored vehicles the request asks for, in ascending key order |
| `Endpoints.ListMaintenance` | main.py:147-161 | `GET /maintenance/` returns the same page over maintenance records |
| `Endpoints.ListPartOrders` | main.py:163-177 | `GET /part-orders/` returns the same page over part orders |
| `Scenarios.ExampleKnownAndUnknownIds` | main.py:139-142 | `ids=2,9999` parses to the list [2, 9999] |
| `Scenarios.ExampleMalformedIds` | main.py:140-144 | `ids=abc` gives no filter |
| `Scenarios.ExampleSeparatorNotStripped` | main.py:140-144 | `ids` made of U+001C followed by `5` gives no filter, because `int()` does not skip that separator |
| `Scenarios.ExampleTrailingComma` | main.py:140-144 | `ids=1,` gives no filter, because the empty last piece does not parse |
| `Scenarios.ExampleLenientTokens` | main.py:141 | `ids= 3,+4,5_0` parses to [3, 4, 50] |
| `Scenarios.ExampleServiceWalkthrough` | main.py:182-232 | registering a vehicle, starting maintenance on it and ordering parts all succeed; the vehicle becomes inactive, a second start is refused, and the part order references the maintenance |
| `Scenarios.ExampleRetiredAndUnknown` | main.py:196-213 | a retired vehicle cannot enter maintenance; unknown keys give NotFound for retire and start |
| `Scenarios.ExampleListKnownAndUnknown` | main.py:131-145 | with vehicles 1 and 2 stored, `ids=2,9999` lists vehicle 2 alone and raises no error |

## Left out

- Engine.OrderParts: `main.py` stops after the NotFound check at line 232. The success branch is an assumption:
  - it inserts a part order with the request's fields and the purchase time, following `PartOrderModel` and the endpoint's response model;
  - it changes nothing else. The design description says a part order also moves the maintenance to waiting-for-parts. That rule does not appear in the text of `main.py`, which ends at line 232 partway through `order_parts`, so it is not modelled.
- `complete_maintenance` is not modelled. It does not appear in the text of `main.py`, which ends at line 232, so reactivation, completion times and the completed status have nothing to check against. The `Completed` status exists only as an enumeration value.
- The hierarchical sync endpoint and the outbound change notifier are not modelled. Neither appears in the text of `main.py`, so neither is part of this model. Because `complete_maintenance` is not modelled, `Valid` and the retirement lemmas cover only the four modelled write endpoints. The design's `complete_maintenance` reactivates a vehicle, which could break `RetiredInactive` and `Lifecycle.RetiredIsTerminal` for a vehicle retired during service.
- HTTP transport is left out. This covers FastAPI routing, the `get_db` session lifecycle, and request-body validation by Pydantic (a non-integer `vehicleId` gets a 422). The only error mapping kept is NotFound (404) versus FailedPrecondition (400).
- Database setup is left out: the engine, the session, `create_all`, reading `DATABASE_URL` and rewriting `postgres://`. This is configuration and I/O.
- DTO field aliasing and ORM configuration are left out. Serialisation is done by libraries outside the model.
- `datetime.utcnow()` is replaced by a `Timestamp` argument that the caller passes in.
- `total_amount` is a float in the source and an integer number of cents in the model. The model only stores it and never computes with it.
- Keys, years and parsed ids are unbounded integers. A database's 32-bit or 64-bit key overflow is not modelled. An `ids` value too large for the key column is not modelled either.
- Key allocation uses a per-table counter starting at 1. No row is ever deleted, so this gives the same keys as a rowid table or a sequence.
- Query.Page follows SQLite, the default store, for negative arguments: a negative offset reads as zero and a negative limit as no limit. PostgreSQL rejects negative values instead, and that is not modelled.
- Endpoints.Table assumes ascending key order. The queries have no ORDER BY, so the store decides the order. The model fixes the insertion order that a scan of a rowid table gives.
- PyInt.ParseInt accepts ASCII decimal digits only. Python's `int()` also accepts other Unicode decimal digits, such as Arabic-Indic digits. The whitespace that `int()` skips is modelled in full: ASCII tab to carriage return and space, plus the non-ASCII characters `str.isspace()` accepts. The ASCII separators U+001C-U+001F are rejected, as CPython's parser does.
- PyInt.ParseInt has no limit on the number of digits. Python 3.11 and later raise ValueError for a decimal string of more than 4300 digits by default. The limit is configurable, so it is not modelled.
- PyInt.FormatIntRoundTrip therefore claims the round trip for every integer. Under Python 3.11's default limit it holds only for integers of at most 4300 digits.
- Concurrent `start_maintenance` calls and transaction isolation are left out. Each request is one atomic step, and concurrency belongs to the store.
- `maintenance_type_id` is stored as sent, without a check against the enumeration, as the source does.
