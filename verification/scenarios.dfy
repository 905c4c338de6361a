/** Worked requests against the model, each an all-steps-checked instance of
    the behaviour the endpoints promise. */
module Scenarios {
  import opened Wrappers
  import opened Codes
  import opened Rows
  import opened PyInt
  import opened Query
  import opened Store
  import opened Engine
  import opened Endpoints

  lemma Read2()
    ensures ParseInt("2") == Some(2)
  {
    FormatIntRoundTrip(2, "", "");
    assert FormatInt(2) == "2";
    assert "" + "2" + "" == "2";
  }

  lemma Read9999()
    ensures ParseInt("9999") == Some(9999)
  {
    var d := DigitChar(9);
    assert d == '9';
    assert FormatNat(99) == FormatNat(9) + [d];
    assert FormatNat(999) == FormatNat(99) + [d];
    assert FormatNat(9999) == FormatNat(999) + [d];
    assert FormatInt(9999) == "9999";
    FormatIntRoundTrip(9999, "", "");
    assert "" + "9999" + "" == "9999";
  }

  lemma SplitKnownAndUnknown()
    ensures Split("2,9999", ',') == ["2", "9999"]
  {
    var pieces := ["2", "9999"];
    assert Join(pieces, ',') == "2,9999" by {
      assert Join(pieces[1..], ',') == "9999";
    }
    SplitJoin(pieces, ',');
  }

  lemma SplitLenient()
    ensures Split(" 3,+4,5_0", ',') == [" 3", "+4", "5_0"]
  {
    var pieces := [" 3", "+4", "5_0"];
    assert Join(pieces, ',') == " 3,+4,5_0" by {
      assert Join(pieces[1..][1..], ',') == "5_0";
      assert Join(pieces[1..], ',') == "+4,5_0";
    }
    SplitJoin(pieces, ',');
  }

  lemma ParseKnownAndUnknownPieces()
    ensures ParseAll(["2", "9999"]) == Some([2, 9999])
  {
    Read2();
    Read9999();
    ParsePair("2", "9999", 2, 9999);
  }

  lemma ParseLenientPieces()
    ensures ParseAll([" 3", "+4", "5_0"]) == Some([3, 4, 50])
  {
    ReadPadded3();
    ReadPlus4();
    Read5Underscore0();
    ParseTriple(" 3", "+4", "5_0", 3, 4, 50);
  }

  lemma ParsePair(a: string, b: string, x: int, y: int)
    requires ParseInt(a) == Some(x) && ParseInt(b) == Some(y)
    ensures ParseAll([a, b]) == Some([x, y])
  {
    ParseAllValues([a, b], [x, y]);
  }

  lemma ParseTriple(a: string, b: string, c: string, x: int, y: int, z: int)
    requires ParseInt(a) == Some(x) && ParseInt(b) == Some(y) && ParseInt(c) == Some(z)
    ensures ParseAll([a, b, c]) == Some([x, y, z])
  {
    ParseAllValues([a, b, c], [x, y, z]);
  }

  /** `ids=2,9999` asks for two keys, one of which may not exist. */
  lemma ExampleKnownAndUnknownIds()
    ensures ParseFilter(Some("2,9999")) == Some([2, 9999])
  {
    SplitKnownAndUnknown();
    ParseKnownAndUnknownPieces();
    assert ParseFilter(Some("2,9999")) == ParseAll(["2", "9999"]);
  }

  /** `ids=abc` is not an id list, so no filter applies. */
  lemma ExampleMalformedIds()
    ensures ParseFilter(Some("abc")) == None
  {
    SplitJoin(["abc"], ',');
    ForeignCharRejected("abc", 0);
  }

  /** The ASCII separator U+001C is whitespace to `str.isspace()` but not to
      `int()`, so `ids=%1C5` is not an id list and no filter applies. */
  lemma ExampleSeparatorNotStripped()
    ensures ParseFilter(Some("\U{1C}5")) == None
  {
    SplitJoin(["\U{1C}5"], ',');
    ForeignCharRejected("\U{1C}5", 0);
  }

  /** A trailing comma leaves an empty piece, which `int()` rejects. */
  lemma ExampleTrailingComma()
    ensures ParseFilter(Some("1,")) == None
  {
    var pieces := ["1", ""];
    assert Join(pieces, ',') == "1,";
    SplitJoin(pieces, ',');
    assert Strip("") == "";
  }

  lemma ReadPadded3()
    ensures ParseInt(" 3") == Some(3)
  {
    FormatIntRoundTrip(3, " ", "");
    assert FormatInt(3) == "3";
    assert " " + "3" + "" == " 3";
  }

  lemma ReadPlus4()
    ensures ParseInt("+4") == Some(4)
  {
    PlusSignRoundTrip(4);
    assert FormatNat(4) == "4";
    assert "+" + "4" == "+4";
  }

  lemma Read50()
    ensures ParseInt("50") == Some(50)
  {
    FormatIntRoundTrip(50, "", "");
    assert FormatNat(50) == FormatNat(5) + [DigitChar(0)];
    assert FormatInt(50) == "50";
    assert "" + "50" + "" == "50";
  }

  lemma Read5Underscore0()
    ensures ParseInt("5_0") == Some(50)
  {
    assert AllDigits("5") && AllDigits("0");
    UnderscoreIgnored("5", "0");
    assert "5" + "_" + "0" == "5_0";
    assert "5" + "0" == "50";
    Read50();
  }

  /** Padding, an explicit sign and a digit separator are read as `int()`
      reads them. */
  lemma ExampleLenientTokens()
    ensures ParseFilter(Some(" 3,+4,5_0")) == Some([3, 4, 50])
  {
    SplitLenient();
    ParseLenientPieces();
    assert ParseFilter(Some(" 3,+4,5_0")) == ParseAll([" 3", "+4", "5_0"]);
  }

  /** The documented walk-through: register a Ford F-150, start a standard
      service on it, order parts for that service.  The vehicle is locked
      inactive while the service is open, so a second start is refused, and
      a part order is recorded against the service. */
  lemma ExampleServiceWalkthrough(startedAt: Timestamp, orderedAt: Timestamp)
    ensures var created := CreateVehicle(Initial(), CreateVehicleRequest("Ford", "F-150", 2022));
            var started := StartMaintenance(created.store, StartMaintenanceRequest(created.id, "Mike S.", 1), startedAt);
            var ordered := OrderParts(started.store, OrderPartsRequest(started.id, "1234", 15000), orderedAt);
            && created.id == 1
            && created.record.isActive
            && started.Ok?
            && started.record.status == InProgress
            && !started.store.vehicles[created.id].isActive
            && StartMaintenance(started.store, StartMaintenanceRequest(created.id, "Mike S.", 1), orderedAt) == Err(FailedPrecondition)
            && ordered.Ok?
            && ordered.record.maintenanceId == started.id
            && ordered.record.purchasedOn == orderedAt
  {
  }

  /** A retired vehicle cannot be taken into service; an unknown one is not found. */
  lemma ExampleRetiredAndUnknown(now: Timestamp)
    ensures var created := CreateVehicle(Initial(), CreateVehicleRequest("Ford", "F-150", 2022));
            var retired := RetireVehicle(created.store, created.id);
            && retired.Ok?
            && StartMaintenance(retired.store, StartMaintenanceRequest(created.id, "Mike S.", 1), now) == Err(FailedPrecondition)
            && StartMaintenance(retired.store, StartMaintenanceRequest(created.id + 1, "Mike S.", 1), now) == Err(NotFound)
            && RetireVehicle(retired.store, created.id + 1) == Err(NotFound)
  {
  }

  /** With vehicles 1 and 2 on file, `ids=2,9999` lists vehicle 2 alone and
      raises no error for the unknown key 9999. */
  lemma ExampleListKnownAndUnknown()
    ensures var one := CreateVehicle(Initial(), CreateVehicleRequest("Ford", "F-150", 2022));
            var two := CreateVehicle(one.store, CreateVehicleRequest("Ford", "Transit", 2021));
            ListVehicles(two.store, DefaultStartIndex, DefaultBatchSize, Some("2,9999")) == [Row(2, two.record)]
  {
    var one := CreateVehicle(Initial(), CreateVehicleRequest("Ford", "F-150", 2022));
    var two := CreateVehicle(one.store, CreateVehicleRequest("Ford", "Transit", 2021));
    var s := two.store;
    assert KeysBelow(s.vehicles, s.nextVehicleId) && 2 in s.vehicles && s.vehicles[2] == two.record
           && s.vehicles.Keys * (set x | x in [2, 9999]) == {2} by {
      assert s.vehicles.Keys == {1, 2};
      assert {1, 2} * (set x | x in [2, 9999]) == {2};
    }
    assert ParseFilter(Some("2,9999")) == Some([2, 9999]) by {
      ExampleKnownAndUnknownIds();
    }
    ListsOneVehicle(s, Some("2,9999"), [2, 9999], 2);
  }

  /** When a well-formed `ids` names exactly one stored vehicle, the first
      page is that vehicle alone. */
  lemma ListsOneVehicle(s: Store, ids: Option<string>, values: seq<int>, k: int)
    requires KeysBelow(s.vehicles, s.nextVehicleId) && k in s.vehicles
    requires ParseFilter(ids) == Some(values)
    requires s.vehicles.Keys * (set x | x in values) == {k}
    ensures ListVehicles(s, DefaultStartIndex, DefaultBatchSize, ids) == [Row(k, s.vehicles[k])]
  {
    var selected := Selected(s.vehicles, s.nextVehicleId, ids);
    assert Ids(selected) == {k};
    SingleKey(selected, s.vehicles, k);
  }

  /** Ascending stored rows whose only key is `k` are the one row under `k`. */
  lemma SingleKey<T>(rows: seq<Row<T>>, m: map<int, T>, k: int)
    requires Ascending(rows) && RowsOf(rows, m) && Ids(rows) == {k}
    ensures rows == [Row(k, m[k])]
  {
    var row :| row in rows && row.id == k;
    if |rows| >= 2 {
      IdAt(rows, 0);
      IdAt(rows, 1);
      assert false;
    }
  }
}
