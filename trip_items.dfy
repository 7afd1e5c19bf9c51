/**
 * The trip-item server actions: `addItemToTrip`, `updateTripItem` and
 * `removeItemFromTrip`. Each runs its guards in the source's order, returns
 * the source's error message for the first one that fails and leaves the
 * trip-items table alone in that case. The signed-in user is `userId`
 * ("" when nobody is signed in); the outcome of the final database write
 * is a parameter, as are fresh row ids.
 */
module TripItems {
  import opened Wrappers
  import opened JsValues
  import opened Tables

  /** The rows of one (trip, item) pair. */
  function PairRows(rows: seq<TripItemRow>, tripId: string, itemId: string): seq<TripItemRow>
  {
    Where(rows, (r: TripItemRow) => r.tripId == tripId && r.itemId == itemId)
  }

  /** No (trip, item) pair occurs twice in the table. */
  ghost predicate UniquePairs(rows: seq<TripItemRow>)
  {
    forall tripId, itemId :: |PairRows(rows, tripId, itemId)| <= 1
  }

  predicate OwnsTrip(trips: seq<Trip>, tripId: string, userId: string)
  {
    var trip := TripById(trips, tripId);
    trip.Some? && trip.value.userId == userId
  }

  predicate OwnsItem(items: seq<Item>, itemId: string, userId: string)
  {
    var item := ItemById(items, itemId);
    item.Some? && item.value.userId == userId
  }

  /** Inserting a pair the table does not hold yet keeps every pair unique, and the new pair then occurs once. */
  lemma {:induction false} InsertKeepsPairsUnique(rows: seq<TripItemRow>, row: TripItemRow)
    requires UniquePairs(rows) && |PairRows(rows, row.tripId, row.itemId)| != 1
    ensures UniquePairs(rows + [row])
    ensures |PairRows(rows + [row], row.tripId, row.itemId)| == 1
  {
    forall tripId, itemId ensures |PairRows(rows + [row], tripId, itemId)| <= 1 {
      WhereAppend(rows, row, (r: TripItemRow) => r.tripId == tripId && r.itemId == itemId);
      assert |PairRows(rows, tripId, itemId)| <= 1;
    }
    WhereAppend(rows, row, (r: TripItemRow) => r.tripId == row.tripId && r.itemId == row.itemId);
  }

  /**
   * `addItemToTrip(tripId, itemId, quantity = 1)`. An omitted quantity is
   * `None`. The duplicate check uses `.single()`, so it rejects a pair that
   * occurs exactly once; on a table with unique pairs that is every pair
   * already present, and the insert keeps the pairs unique.
   */
  method AddItemToTrip(db: Db, userId: string, tripId: string, itemId: string, quantity: Option<real>,
                       newId: string, insertOk: bool)
    returns (r: Result<TripItemRow>)
    modifies db`tripItems
    ensures userId == "" ==> r == Err("Unauthorized")
    ensures userId != "" && (tripId == "" || itemId == "") ==> r == Err("Trip ID and Item ID are required")
    ensures userId != "" && tripId != "" && itemId != "" ==>
      && (!OwnsTrip(db.trips, tripId, userId) ==> r == Err("Trip not found or unauthorized"))
      && (OwnsTrip(db.trips, tripId, userId) && !OwnsItem(db.items, itemId, userId) ==>
            r == Err("Item not found or unauthorized"))
      && (OwnsTrip(db.trips, tripId, userId) && OwnsItem(db.items, itemId, userId) ==>
            if |PairRows(old(db.tripItems), tripId, itemId)| == 1 then r == Err("Item already in trip")
            else if !insertOk then r == Err("Failed to add item to trip")
            else r.Ok?)
    ensures r.Err? ==> db.tripItems == old(db.tripItems)
    ensures r.Ok? ==> r.value == TripItemRow(newId, tripId, itemId, if quantity.Some? then quantity.value else 1.0, false, false)
    ensures r.Ok? ==> db.tripItems == old(db.tripItems) + [r.value]
    ensures UniquePairs(old(db.tripItems)) ==> UniquePairs(db.tripItems)
  {
    if userId == "" {
      return Err("Unauthorized");
    }
    if tripId == "" || itemId == "" {
      return Err("Trip ID and Item ID are required");
    }
    var trip := TripById(db.trips, tripId);
    if trip.None? || trip.value.userId != userId {
      return Err("Trip not found or unauthorized");
    }
    var item := ItemById(db.items, itemId);
    if item.None? || item.value.userId != userId {
      return Err("Item not found or unauthorized");
    }
    var existing := Single(PairRows(db.tripItems, tripId, itemId));
    if existing.Some? {
      return Err("Item already in trip");
    }
    if !insertOk {
      return Err("Failed to add item to trip");
    }
    var q := if quantity.Some? then quantity.value else 1.0;
    var tripItem := TripItemRow(newId, tripId, itemId, q, false, false);
    if UniquePairs(db.tripItems) {
      InsertKeepsPairsUnique(db.tripItems, tripItem);
    }
    db.tripItems := db.tripItems + [tripItem];
    r := Ok(tripItem);
  }

  /** `allowedUpdates`: the whitelisted fields of an update request, quantity clamped. */
  datatype Patch = Patch(quantity: Option<real>, isWorn: Option<bool>, isConsumable: Option<bool>)

  /** `Object.keys(allowedUpdates).length === 0` */
  predicate EmptyPatch(p: Patch)
  {
    p.quantity.None? && p.isWorn.None? && p.isConsumable.None?
  }

  /**
   * Builds `allowedUpdates` from the request object: a number `quantity`
   * becomes `Math.max(1, quantity)`, boolean `is_worn` / `is_consumable` are
   * copied, and nothing else is taken.
   */
  function AllowedUpdates(updates: map<string, Json>): (p: Patch)
    ensures p.quantity.Some? <==> "quantity" in updates && updates["quantity"].JNum?
    ensures p.quantity.Some? ==>
      var n := updates["quantity"].n;
      p.quantity.value >= 1.0 && p.quantity.value >= n && (p.quantity.value == 1.0 || p.quantity.value == n)
    ensures p.isWorn.Some? <==> "is_worn" in updates && updates["is_worn"].JBool?
    ensures p.isWorn.Some? ==> p.isWorn.value == updates["is_worn"].b
    ensures p.isConsumable.Some? <==> "is_consumable" in updates && updates["is_consumable"].JBool?
    ensures p.isConsumable.Some? ==> p.isConsumable.value == updates["is_consumable"].b
  {
    var quantity :=
      if "quantity" in updates && updates["quantity"].JNum? then
        var n := updates["quantity"].n;
        Some(if 1.0 < n then n else 1.0)
      else None;
    var isWorn := if "is_worn" in updates && updates["is_worn"].JBool? then Some(updates["is_worn"].b) else None;
    var isConsumable :=
      if "is_consumable" in updates && updates["is_consumable"].JBool? then Some(updates["is_consumable"].b) else None;
    Patch(quantity, isWorn, isConsumable)
  }

  /** Two requests agree on one key: both lack it or both hold the same value. */
  predicate SameAt(u: map<string, Json>, v: map<string, Json>, key: string)
  {
    (key in u <==> key in v) && (key in u ==> u[key] == v[key])
  }

  /** Only the three whitelisted keys of a request can influence the update. */
  lemma OnlyWhitelistedKeysMatter(u: map<string, Json>, v: map<string, Json>)
    requires SameAt(u, v, "quantity") && SameAt(u, v, "is_worn") && SameAt(u, v, "is_consumable")
    ensures AllowedUpdates(u) == AllowedUpdates(v)
  {
  }

  /** `.update(allowedUpdates)` on one row: the fields in the patch change, every other field keeps its value. */
  function ApplyPatch(row: TripItemRow, p: Patch): (r: TripItemRow)
    ensures r.id == row.id && r.tripId == row.tripId && r.itemId == row.itemId
    ensures r.quantity == (if p.quantity.Some? then p.quantity.value else row.quantity)
    ensures r.isWorn == (if p.isWorn.Some? then p.isWorn.value else row.isWorn)
    ensures r.isConsumable == (if p.isConsumable.Some? then p.isConsumable.value else row.isConsumable)
  {
    var row := if p.quantity.Some? then row.(quantity := p.quantity.value) else row;
    var row := if p.isWorn.Some? then row.(isWorn := p.isWorn.value) else row;
    if p.isConsumable.Some? then row.(isConsumable := p.isConsumable.value) else row
  }

  /** The whole table after `.update(patch).eq('id', id)`. */
  function PatchRows(rows: seq<TripItemRow>, id: string, p: Patch): seq<TripItemRow>
  {
    UpdateWhere(rows, (r: TripItemRow) => r.id == id, (r: TripItemRow) => ApplyPatch(r, p))
  }

  /** An update never touches trip or item ids, so pairs stay unique. */
  lemma {:induction false} PatchKeepsPairsUnique(rows: seq<TripItemRow>, id: string, p: Patch)
    requires UniquePairs(rows)
    ensures UniquePairs(PatchRows(rows, id, p))
  {
    forall tripId, itemId ensures |PairRows(PatchRows(rows, id, p), tripId, itemId)| <= 1 {
      WhereOfUpdate(rows, (r: TripItemRow) => r.id == id, (r: TripItemRow) => ApplyPatch(r, p),
                    (r: TripItemRow) => r.tripId == tripId && r.itemId == itemId);
      assert |PairRows(rows, tripId, itemId)| <= 1;
    }
  }

  /** A patched quantity is never below 1, whatever the request held. */
  lemma PatchedQuantityAtLeastOne(row: TripItemRow, updates: map<string, Json>)
    requires "quantity" in updates && updates["quantity"].JNum?
    ensures ApplyPatch(row, AllowedUpdates(updates)).quantity >= 1.0
  {
  }

  /** `trip_items.trips.user_id`: the owner of the trip a row belongs to, if that trip exists. */
  function RowOwner(trips: seq<Trip>, row: TripItemRow): Option<string>
  {
    var trip := TripById(trips, row.tripId);
    if trip.Some? then Some(trip.value.userId) else None
  }

  /**
   * `updateTripItem(tripItemId, tripId, updates)`. `tripId` only names the
   * page to refresh, so it appears in no outcome.
   */
  method UpdateTripItem(db: Db, userId: string, tripItemId: string, tripId: string, updates: map<string, Json>,
                        updateOk: bool)
    returns (r: Result<TripItemRow>)
    modifies db`tripItems
    ensures userId == "" ==> r == Err("Unauthorized")
    ensures userId != "" && tripItemId == "" ==> r == Err("Trip Item ID is required")
    ensures userId != "" && tripItemId != "" ==>
      var row := TripItemById(old(db.tripItems), tripItemId);
      && (row.None? ==> r == Err("Trip item not found"))
      && (row.Some? && RowOwner(db.trips, row.value) != Some(userId) ==> r == Err("Unauthorized"))
      && (row.Some? && RowOwner(db.trips, row.value) == Some(userId) ==>
            if EmptyPatch(AllowedUpdates(updates)) then r == Err("No valid updates provided")
            else if !updateOk then r == Err("Failed to update trip item")
            else r == Ok(ApplyPatch(row.value, AllowedUpdates(updates))))
    ensures r.Err? ==> db.tripItems == old(db.tripItems)
    ensures r.Ok? ==> db.tripItems == PatchRows(old(db.tripItems), tripItemId, AllowedUpdates(updates))
    ensures UniquePairs(old(db.tripItems)) ==> UniquePairs(db.tripItems)
  {
    if userId == "" {
      return Err("Unauthorized");
    }
    if tripItemId == "" {
      return Err("Trip Item ID is required");
    }
    var tripItem := TripItemById(db.tripItems, tripItemId);
    if tripItem.None? {
      return Err("Trip item not found");
    }
    if RowOwner(db.trips, tripItem.value) != Some(userId) {
      return Err("Unauthorized");
    }
    var allowedUpdates := AllowedUpdates(updates);
    if EmptyPatch(allowedUpdates) {
      return Err("No valid updates provided");
    }
    if !updateOk {
      return Err("Failed to update trip item");
    }
    if UniquePairs(db.tripItems) {
      PatchKeepsPairsUnique(db.tripItems, tripItemId, allowedUpdates);
    }
    db.tripItems := PatchRows(db.tripItems, tripItemId, allowedUpdates);
    r := Ok(ApplyPatch(tripItem.value, allowedUpdates));
  }

  /** The table after `.delete().eq('id', id)`. */
  function WithoutRow(rows: seq<TripItemRow>, id: string): seq<TripItemRow>
  {
    Where(rows, (r: TripItemRow) => r.id != id)
  }

  /** Deleting an id held by exactly one row removes that one row, and pairs stay unique. */
  lemma {:induction false} RemoveOneRow(rows: seq<TripItemRow>, id: string)
    requires TripItemById(rows, id).Some?
    ensures |WithoutRow(rows, id)| == |rows| - 1
    ensures forall r :: r in WithoutRow(rows, id) <==> r in rows && r.id != id
    ensures UniquePairs(rows) ==> UniquePairs(WithoutRow(rows, id))
  {
    WhereSplit(rows, (r: TripItemRow) => r.id == id, (r: TripItemRow) => r.id != id);
    if UniquePairs(rows) {
      forall tripId, itemId ensures |PairRows(WithoutRow(rows, id), tripId, itemId)| <= 1 {
        WhereNarrowed(rows, (r: TripItemRow) => r.id != id, (r: TripItemRow) => r.tripId == tripId && r.itemId == itemId);
        assert |PairRows(rows, tripId, itemId)| <= 1;
      }
    }
  }

  /**
   * `removeItemFromTrip(tripItemId, tripId)`: authorisation goes through the
   * row's own trip; the `tripId` argument only names the page to refresh.
   */
  method RemoveItemFromTrip(db: Db, userId: string, tripItemId: string, tripId: string, deleteOk: bool)
    returns (r: Result<()>)
    modifies db`tripItems
    ensures userId == "" ==> r == Err("Unauthorized")
    ensures userId != "" && tripItemId == "" ==> r == Err("Trip Item ID is required")
    ensures userId != "" && tripItemId != "" ==>
      var row := TripItemById(old(db.tripItems), tripItemId);
      && (row.None? ==> r == Err("Trip item not found"))
      && (row.Some? && RowOwner(db.trips, row.value) != Some(userId) ==> r == Err("Unauthorized"))
      && (row.Some? && RowOwner(db.trips, row.value) == Some(userId) ==>
            r == if deleteOk then Ok(()) else Err("Failed to remove item from trip"))
    ensures r.Err? ==> db.tripItems == old(db.tripItems)
    ensures r.Ok? ==> db.tripItems == WithoutRow(old(db.tripItems), tripItemId)
    ensures r.Ok? ==> |db.tripItems| == |old(db.tripItems)| - 1
    ensures UniquePairs(old(db.tripItems)) ==> UniquePairs(db.tripItems)
  {
    if userId == "" {
      return Err("Unauthorized");
    }
    if tripItemId == "" {
      return Err("Trip Item ID is required");
    }
    var tripItem := TripItemById(db.tripItems, tripItemId);
    if tripItem.None? {
      return Err("Trip item not found");
    }
    if RowOwner(db.trips, tripItem.value) != Some(userId) {
      return Err("Unauthorized");
    }
    if !deleteOk {
      return Err("Failed to remove item from trip");
    }
    RemoveOneRow(db.tripItems, tripItemId);
    db.tripItems := WithoutRow(db.tripItems, tripItemId);
    r := Ok(());
  }
}
