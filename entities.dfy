/**
 * The object model: `MeterReading`, `Building` (a name and an append-only
 * list of readings) and `BuildingManager` (a dictionary from building name
 * to `Building`, filled by get-or-create).
 */
module Entities {
  import opened Readings
  import opened Aggregation

  datatype MeterReading = MeterReading(timestamp: Minutes, kwh: real)

  /** The kWh of the readings, in list order. */
  function KwhList(readings: seq<MeterReading>): (xs: seq<real>)
    ensures |xs| == |readings|
    ensures forall i :: 0 <= i < |readings| ==> xs[i] == readings[i].kwh
  {
    seq(|readings|, i requires 0 <= i < |readings| => readings[i].kwh)
  }

  lemma {:induction false} KwhListAppend(readings: seq<MeterReading>, reading: MeterReading)
    ensures KwhList(readings + [reading]) == KwhList(readings) + [reading.kwh]
  {
  }

  class Building {
    const name: string
    var meterReadings: seq<MeterReading>

    constructor (name: string)
      ensures this.name == name && meterReadings == []
    {
      this.name := name;
      meterReadings := [];
    }

    /** Appends the reading at the end of the list; nothing is ever removed. */
    method AddReading(reading: MeterReading)
      modifies this
      ensures meterReadings == old(meterReadings) + [reading]
    {
      meterReadings := meterReadings + [reading];
    }

    /** `sum(r.kwh for r in self.meter_readings)`. */
    function CalculateTotalConsumption(): real
      reads this
    {
      Sum(KwhList(meterReadings))
    }

    /**
     * The report line: the building's name and its total, the total shown by
     * `render` (Python's `str` of a float is not modelled).
     */
    function GenerateReport(render: real -> string): (report: string)
      reads this
      ensures |report| == |"Building "| + |name| + |" total energy: "| + |render(CalculateTotalConsumption())| + |" kWh"|
      ensures report[|"Building "|..|"Building "| + |name|] == name
      ensures var start := |"Building "| + |name| + |" total energy: "|;
        report[start..start + |render(CalculateTotalConsumption())|] == render(CalculateTotalConsumption())
    {
      "Building " + name + " total energy: " + render(CalculateTotalConsumption()) + " kWh"
    }
  }

  /** Adding a reading's kWh adds exactly that much to the building's total. */
  lemma {:induction false} TotalAfterAdd(readings: seq<MeterReading>, reading: MeterReading)
    ensures Sum(KwhList(readings + [reading])) == Sum(KwhList(readings)) + reading.kwh
  {
    KwhListAppend(readings, reading);
    SumAppend(KwhList(readings), [reading.kwh]);
  }

  // ---------------------------------------------------------------------------
  // The registry

  /** The readings lists after `add_reading(name, reading)`: get-or-create, then append. */
  function Route(registry: map<string, seq<MeterReading>>, name: string, reading: MeterReading)
    : map<string, seq<MeterReading>>
  {
    registry[name := (if name in registry then registry[name] else []) + [reading]]
  }

  /** Routing a reading creates its building if needed, appends to it, and leaves every other list as it was. */
  lemma {:induction false} RouteFrames(registry: map<string, seq<MeterReading>>, name: string, reading: MeterReading)
    ensures Route(registry, name, reading).Keys == registry.Keys + {name}
    ensures name in registry ==> Route(registry, name, reading)[name] == registry[name] + [reading]
    ensures name !in registry ==> Route(registry, name, reading)[name] == [reading]
    ensures forall n :: n in registry && n != name ==> Route(registry, name, reading)[n] == registry[n]
  {
  }

  class BuildingManager {
    var buildings: map<string, Building>

    /** Every building is filed under its own name (so no two names share a building). */
    ghost predicate Valid()
      reads this, buildings.Values
    {
      forall n :: n in buildings ==> buildings[n].name == n
    }

    /** The readings list of every building, by name. */
    ghost function ReadingLists(): map<string, seq<MeterReading>>
      reads this, buildings.Values
    {
      map n | n in buildings :: buildings[n].meterReadings
    }

    constructor ()
      ensures Valid() && buildings == map[]
    {
      buildings := map[];
    }

    /** `add_reading`: create the building on first sight, then append the reading to its list. */
    method AddReading(buildingName: string, reading: MeterReading)
      requires Valid()
      modifies this, buildings.Values
      ensures Valid()
      ensures ReadingLists() == Route(old(ReadingLists()), buildingName, reading)
      ensures forall n :: n in old(buildings) ==> n in buildings && buildings[n] == old(buildings)[n]
      ensures buildingName in buildings
      ensures buildingName !in old(buildings) ==> fresh(buildings[buildingName])
    {
      if buildingName !in buildings {
        var b := new Building(buildingName);
        buildings := buildings[buildingName := b];
      }
      var target := buildings[buildingName];
      target.AddReading(reading);
      assert forall n :: n in buildings && n != buildingName ==> buildings[n] != target;
    }
  }

  // ---------------------------------------------------------------------------
  // Filling the registry from the cleaned table

  /** The reading a cleaned row stands for. */
  function ReadingOf(r: Row): MeterReading
    requires Present(r)
  {
    MeterReading(Ts(r), Kwh(r))
  }

  /** The readings lists after `add_reading(row.building, reading)` for every cleaned row, in row order. */
  function RegistryOf(rows: seq<Row>): map<string, seq<MeterReading>>
    requires AllPresent(rows)
  {
    if rows == [] then map[]
    else
      var last := rows[|rows| - 1];
      Route(RegistryOf(rows[..|rows| - 1]), last.building, ReadingOf(last))
  }

  /** The registry files exactly the buildings that occur in the table. */
  lemma {:induction false} RegistryKeys(rows: seq<Row>)
    requires AllPresent(rows)
    ensures RegistryOf(rows).Keys == Buildings(rows)
    decreases |rows|
  {
    if rows != [] {
      var n := |rows| - 1;
      var init := rows[..n];
      assert forall i :: 0 <= i < n ==> init[i] == rows[i];
      RegistryKeys(init);
      assert Buildings(rows) == Buildings(init) + {rows[n].building};
    }
  }

  /** Building `b`'s list holds the kWh of `b`'s rows in row order; a building without rows has no list. */
  lemma {:induction false} RegistryList(rows: seq<Row>, b: string)
    requires AllPresent(rows)
    ensures b in RegistryOf(rows) ==> KwhList(RegistryOf(rows)[b]) == KwhWhere(rows, OfBuilding(b))
    ensures b !in RegistryOf(rows) ==> KwhWhere(rows, OfBuilding(b)) == []
    decreases |rows|
  {
    if rows != [] {
      var n := |rows| - 1;
      var init, last := rows[..n], rows[n];
      assert forall i :: 0 <= i < n ==> init[i] == rows[i];
      RegistryList(init, b);
      assert rows == init + [last];
      KwhWhereAppend(init, [last], OfBuilding(b));
      KwhWhereSingle(last, OfBuilding(b));
      if b == last.building {
        KwhListAppend(if b in RegistryOf(init) then RegistryOf(init)[b] else [], ReadingOf(last));
      }
    }
  }

  /**
   * The registry and `building_wise_summary` agree: the same buildings, and
   * each building's total consumption is the summary's `total`.
   */
  lemma {:induction false} RegistryMatchesSummary(rows: seq<Row>)
    requires AllPresent(rows)
    ensures RegistryOf(rows).Keys == BuildingWiseSummary(rows).Keys
    ensures forall b :: b in RegistryOf(rows) ==>
      Sum(KwhList(RegistryOf(rows)[b])) == BuildingWiseSummary(rows)[b].total
  {
    RegistryKeys(rows);
    forall b | b in RegistryOf(rows)
      ensures Sum(KwhList(RegistryOf(rows)[b])) == BuildingWiseSummary(rows)[b].total
    {
      RegistryList(rows, b);
    }
  }

  /**
   * A manager filled with `add_reading` from the cleaned rows, in order, holds
   * one building per summary entry, and each building's
   * `calculate_total_consumption()` is that entry's `total`.
   */
  lemma {:induction false} ManagerMatchesSummary(manager: BuildingManager, rows: seq<Row>)
    requires AllPresent(rows) && manager.Valid() && manager.ReadingLists() == RegistryOf(rows)
    ensures manager.buildings.Keys == BuildingWiseSummary(rows).Keys
    ensures forall b :: b in manager.buildings ==>
      manager.buildings[b].CalculateTotalConsumption() == BuildingWiseSummary(rows)[b].total
  {
    RegistryMatchesSummary(rows);
    assert manager.buildings.Keys == manager.ReadingLists().Keys;
  }
}
