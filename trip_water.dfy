/**
 * `updateTripWater(tripId, waterVolume, waterUnit)`: stores a trip's
 * carried-water volume in litres, converting from fluid ounces when asked.
 * The number `parseFloat` reads from the form is the `waterVolume`
 * argument; `None` stands for a value it cannot read (NaN).
 */
module TripWater {
  import opened Wrappers
  import opened WeightUnits
  import opened Tables

  /** `LITERS_PER_FL_OZ`, declared again beside the action. */
  const ActionLitersPerFlOz: real := 0.02957

  /** The volume the action stores: litres, from a reading in `waterUnit`. */
  function StoredVolume(waterVolume: Option<real>, waterUnit: string): (liters: real)
    ensures waterVolume.None? ==> liters == 0.0
    ensures waterVolume.Some? && waterUnit == "fl oz" && waterVolume.value > 0.0 ==>
      liters == FlOzToLiters(waterVolume.value)
    ensures waterVolume.Some? && (waterUnit != "fl oz" || waterVolume.value <= 0.0) ==>
      liters == waterVolume.value
  {
    var volume := if waterVolume.Some? then waterVolume.value else 0.0;
    if waterUnit == "fl oz" && volume > 0.0 then volume * ActionLitersPerFlOz else volume
  }

  /** `waterUnit || 'L'` */
  function StoredUnit(waterUnit: string): (unit: string)
    ensures unit != ""
    ensures waterUnit != "" ==> unit == waterUnit
  {
    if waterUnit == "" then "L" else waterUnit
  }

  /** A positive volume entered in fluid ounces reads back as the same number of fluid ounces. */
  lemma {:induction false} FlOzVolumeRoundTrip(flOz: real)
    requires flOz > 0.0
    ensures LitersToFlOz(StoredVolume(Some(flOz), "fl oz")) == flOz
    ensures StoredVolume(Some(flOz), "fl oz") > 0.0
  {
    VolumeRoundTrip(flOz);
  }

  /** The trips table after the update of `tripId`'s water fields. */
  function SetWater(trips: seq<Trip>, tripId: string, volume: real, unit: string): seq<Trip>
  {
    UpdateWhere(trips, (t: Trip) => t.id == tripId, (t: Trip) => t.(waterVolume := volume, waterUnit := unit))
  }

  /** After the update, looking the trip up finds it with the new water fields and nothing else changed. */
  lemma {:induction false} SetWaterFound(trips: seq<Trip>, tripId: string, volume: real, unit: string)
    requires TripById(trips, tripId).Some?
    ensures TripById(SetWater(trips, tripId, volume, unit), tripId)
         == Some(TripById(trips, tripId).value.(waterVolume := volume, waterUnit := unit))
  {
    WhereOfUpdate(trips, (t: Trip) => t.id == tripId, (t: Trip) => t.(waterVolume := volume, waterUnit := unit),
                  (t: Trip) => t.id == tripId);
  }

  method UpdateTripWater(db: Db, userId: string, tripId: string, waterVolume: Option<real>, waterUnit: string,
                         updateOk: bool)
    returns (r: Result<Trip>)
    modifies db`trips
    ensures userId == "" ==> r == Err("Unauthorized")
    ensures userId != "" && tripId == "" ==> r == Err("Trip ID is required")
    ensures userId != "" && tripId != "" ==>
      var trip := TripById(old(db.trips), tripId);
      && (trip.None? ==> r == Err("Trip not found"))
      && (trip.Some? && trip.value.userId != userId ==> r == Err("Unauthorized"))
      && (trip.Some? && trip.value.userId == userId ==>
            r == if updateOk
                 then Ok(trip.value.(waterVolume := StoredVolume(waterVolume, waterUnit), waterUnit := StoredUnit(waterUnit)))
                 else Err("Failed to update water"))
    ensures r.Err? ==> db.trips == old(db.trips)
    ensures r.Ok? ==> db.trips == SetWater(old(db.trips), tripId, StoredVolume(waterVolume, waterUnit), StoredUnit(waterUnit))
    ensures r.Ok? ==> TripById(db.trips, tripId) == Some(r.value)
  {
    if userId == "" {
      return Err("Unauthorized");
    }
    if tripId == "" {
      return Err("Trip ID is required");
    }
    var existingTrip := TripById(db.trips, tripId);
    if existingTrip.None? {
      return Err("Trip not found");
    }
    if existingTrip.value.userId != userId {
      return Err("Unauthorized");
    }
    var volumeInLiters := if waterVolume.Some? then waterVolume.value else 0.0;
    if waterUnit == "fl oz" && volumeInLiters > 0.0 {
      volumeInLiters := volumeInLiters * ActionLitersPerFlOz;
    }
    if !updateOk {
      return Err("Failed to update water");
    }
    var unit := if waterUnit == "" then "L" else waterUnit;
    SetWaterFound(db.trips, tripId, volumeInLiters, unit);
    db.trips := SetWater(db.trips, tripId, volumeInLiters, unit);
    r := Ok(existingTrip.value.(waterVolume := volumeInLiters, waterUnit := unit));
  }
}
