/**
 * The trip-share lifecycle: `toggleTripShare`, `createTripShare`, the public
 * `getTripShare` lookup and `getTripShareStatus`. A trip's share moves from
 * absent to active and then between active and inactive; rows are never
 * deleted. Fresh share ids and tokens (the random 18-byte base64url token)
 * are parameters.
 */
module TripShares {
  import opened Wrappers
  import opened Tables

  /** All share rows of one trip. */
  function SharesOfTrip(shares: seq<TripShare>, tripId: string): seq<TripShare>
  {
    Where(shares, (s: TripShare) => s.tripId == tripId)
  }

  /** `.eq('trip_id', tripId).single()` */
  function ShareOfTrip(shares: seq<TripShare>, tripId: string): Option<TripShare>
  {
    Single(SharesOfTrip(shares, tripId))
  }

  /** All active share rows of one trip. */
  function ActiveSharesOfTrip(shares: seq<TripShare>, tripId: string): seq<TripShare>
  {
    Where(shares, (s: TripShare) => s.tripId == tripId && s.isActive)
  }

  /** `.eq('trip_id', tripId).eq('is_active', true).single()` */
  function ActiveShareOfTrip(shares: seq<TripShare>, tripId: string): Option<TripShare>
  {
    Single(ActiveSharesOfTrip(shares, tripId))
  }

  /** `.eq('share_token', shareToken).single()` */
  function ShareByToken(shares: seq<TripShare>, shareToken: string): Option<TripShare>
  {
    Single(Where(shares, (s: TripShare) => s.shareToken == shareToken))
  }

  /** The table holds at most one share row per trip. */
  ghost predicate AtMostOneSharePerTrip(shares: seq<TripShare>)
  {
    forall tripId :: |SharesOfTrip(shares, tripId)| <= 1
  }

  /** Share ids are a primary key. */
  ghost predicate UniqueShareIds(shares: seq<TripShare>)
  {
    forall i, j :: 0 <= i < j < |shares| ==> shares[i].id != shares[j].id
  }

  /**
   * The guards shared by toggle, create and status: signed in, a trip id,
   * the trip exists, and it belongs to the caller. The message of the first
   * that fails, or none.
   */
  function OwnerGuard(trips: seq<Trip>, userId: string, tripId: string): (e: Option<string>)
    ensures e.None? <==>
      userId != "" && tripId != "" && TripById(trips, tripId).Some? && TripById(trips, tripId).value.userId == userId
    ensures e.Some? ==> e.value in {"Unauthorized", "Trip ID is required", "Trip not found"}
    ensures userId != "" && tripId != "" && TripById(trips, tripId).None? ==> e == Some("Trip not found")
  {
    if userId == "" then Some("Unauthorized")
    else if tripId == "" then Some("Trip ID is required")
    else if TripById(trips, tripId).None? then Some("Trip not found")
    else if TripById(trips, tripId).value.userId != userId then Some("Unauthorized")
    else None
  }

  /** What toggle reports: the share's new state and its token. */
  datatype ShareState = ShareState(isActive: bool, shareToken: string)

  /** `.update({ is_active: active }).eq('id', id)` */
  function SetActive(shares: seq<TripShare>, id: string, active: bool): seq<TripShare>
  {
    UpdateWhere(shares, (s: TripShare) => s.id == id, (s: TripShare) => s.(isActive := active))
  }

  /** The share table after a successful toggle. */
  function Toggled(shares: seq<TripShare>, tripId: string, userId: string, newId: string, newToken: string): seq<TripShare>
  {
    match ShareOfTrip(shares, tripId)
    case Some(s) => SetActive(shares, s.id, !s.isActive)
    case None => shares + [TripShare(newId, tripId, userId, newToken, true)]
  }

  /** What a successful toggle returns. */
  function ToggleResult(shares: seq<TripShare>, tripId: string, newToken: string): ShareState
  {
    match ShareOfTrip(shares, tripId)
    case Some(s) => ShareState(!s.isActive, s.shareToken)
    case None => ShareState(true, newToken)
  }

  /** `toggleTripShare(tripId)` */
  method ToggleTripShare(db: Db, userId: string, tripId: string, newId: string, newToken: string, writeOk: bool)
    returns (r: Result<ShareState>)
    modifies db`tripShares
    ensures OwnerGuard(db.trips, userId, tripId).Some? ==> r == Err(OwnerGuard(db.trips, userId, tripId).value)
    ensures OwnerGuard(db.trips, userId, tripId).None? ==>
      r == if writeOk then Ok(ToggleResult(old(db.tripShares), tripId, newToken))
           else if ShareOfTrip(old(db.tripShares), tripId).Some? then Err("Failed to update share status")
           else Err("Failed to create share link")
    ensures r.Err? ==> db.tripShares == old(db.tripShares)
    ensures r.Ok? ==> db.tripShares == Toggled(old(db.tripShares), tripId, userId, newId, newToken)
  {
    var guard := OwnerGuard(db.trips, userId, tripId);
    if guard.Some? {
      return Err(guard.value);
    }
    var existingShare := ShareOfTrip(db.tripShares, tripId);
    if existingShare.Some? {
      var newStatus := !existingShare.value.isActive;
      if !writeOk {
        return Err("Failed to update share status");
      }
      db.tripShares := SetActive(db.tripShares, existingShare.value.id, newStatus);
      return Ok(ShareState(newStatus, existingShare.value.shareToken));
    }
    if !writeOk {
      return Err("Failed to create share link");
    }
    db.tripShares := db.tripShares + [TripShare(newId, tripId, userId, newToken, true)];
    r := Ok(ShareState(true, newToken));
  }

  /** Flipping a share's flag leaves every trip with the same share rows, the flipped one updated. */
  lemma {:induction false} SetActiveSharesOfTrip(shares: seq<TripShare>, id: string, active: bool, tripId: string)
    ensures SharesOfTrip(SetActive(shares, id, active), tripId)
         == UpdateWhere(SharesOfTrip(shares, tripId), (s: TripShare) => s.id == id, (s: TripShare) => s.(isActive := active))
  {
    WhereOfUpdate(shares, (s: TripShare) => s.id == id, (s: TripShare) => s.(isActive := active),
                  (s: TripShare) => s.tripId == tripId);
  }

  /** Shares are never deleted: no trip ever has fewer share rows after a toggle. */
  lemma {:induction false} ToggleNeverRemovesShares(shares: seq<TripShare>, tripId: string, userId: string,
                                                     newId: string, newToken: string, anyTrip: string)
    ensures |SharesOfTrip(Toggled(shares, tripId, userId, newId, newToken), anyTrip)| >= |SharesOfTrip(shares, anyTrip)|
  {
    match ShareOfTrip(shares, tripId)
    case Some(s) =>
      SetActiveSharesOfTrip(shares, s.id, !s.isActive, anyTrip);
    case None =>
      WhereAppend(shares, TripShare(newId, tripId, userId, newToken, true), (x: TripShare) => x.tripId == anyTrip);
  }

  /** With at most one share per trip, a toggle keeps it that way. */
  lemma {:induction false} ToggleKeepsOneSharePerTrip(shares: seq<TripShare>, tripId: string, userId: string,
                                                       newId: string, newToken: string)
    requires AtMostOneSharePerTrip(shares)
    ensures AtMostOneSharePerTrip(Toggled(shares, tripId, userId, newId, newToken))
  {
    var after := Toggled(shares, tripId, userId, newId, newToken);
    forall anyTrip ensures |SharesOfTrip(after, anyTrip)| <= 1 {
      assert |SharesOfTrip(shares, anyTrip)| <= 1;
      match ShareOfTrip(shares, tripId)
      case Some(s) =>
        SetActiveSharesOfTrip(shares, s.id, !s.isActive, anyTrip);
      case None =>
        assert |SharesOfTrip(shares, tripId)| <= 1;
        WhereAppend(shares, TripShare(newId, tripId, userId, newToken, true), (x: TripShare) => x.tripId == anyTrip);
    }
  }

  /** What `getTripShareStatus` reports once the guards pass (`createdAt` is not modelled). */
  datatype ShareStatus = ShareStatus(hasShare: bool, isActive: bool, shareToken: Option<string>)

  /** The status projection of the trip's share row. */
  function StatusOf(shares: seq<TripShare>, tripId: string): (st: ShareStatus)
    ensures st.hasShare <==> ShareOfTrip(shares, tripId).Some?
    ensures st.hasShare ==>
      st.isActive == ShareOfTrip(shares, tripId).value.isActive &&
      st.shareToken == Some(ShareOfTrip(shares, tripId).value.shareToken)
    ensures !st.hasShare ==> !st.isActive && st.shareToken.None?
  {
    match ShareOfTrip(shares, tripId)
    case None => ShareStatus(false, false, None)
    case Some(s) => ShareStatus(true, s.isActive, Some(s.shareToken))
  }

  /** `getTripShareStatus(tripId)`: read-only. */
  function GetTripShareStatus(db: Db, userId: string, tripId: string): (r: Result<ShareStatus>)
    reads db
    ensures OwnerGuard(db.trips, userId, tripId).Some? ==> r == Err(OwnerGuard(db.trips, userId, tripId).value)
    ensures OwnerGuard(db.trips, userId, tripId).None? ==> r.Ok? && r.value == StatusOf(db.tripShares, tripId)
  {
    var guard := OwnerGuard(db.trips, userId, tripId);
    if guard.Some? then Err(guard.value) else Ok(StatusOf(db.tripShares, tripId))
  }

  /**
   * When the trip had at most one share row, the status read after a
   * toggle shows exactly what the toggle returned.
   */
  lemma {:induction false} ToggleMatchesStatus(shares: seq<TripShare>, tripId: string, userId: string,
                                               newId: string, newToken: string)
    requires |SharesOfTrip(shares, tripId)| <= 1
    ensures var result := ToggleResult(shares, tripId, newToken);
      StatusOf(Toggled(shares, tripId, userId, newId, newToken), tripId)
        == ShareStatus(true, result.isActive, Some(result.shareToken))
  {
    match ShareOfTrip(shares, tripId)
    case Some(s) =>
      SetActiveSharesOfTrip(shares, s.id, !s.isActive, tripId);
    case None =>
      WhereAppend(shares, TripShare(newId, tripId, userId, newToken, true), (x: TripShare) => x.tripId == tripId);
  }

  /** With share ids unique, toggling an existing share twice restores the table exactly. */
  lemma {:induction false} ToggleTwiceRestores(shares: seq<TripShare>, tripId: string, userId: string,
                                               id1: string, token1: string, id2: string, token2: string)
    requires UniqueShareIds(shares) && ShareOfTrip(shares, tripId).Some?
    ensures Toggled(Toggled(shares, tripId, userId, id1, token1), tripId, userId, id2, token2) == shares
  {
    var s := ShareOfTrip(shares, tripId).value;
    var once := SetActive(shares, s.id, !s.isActive);
    assert Toggled(shares, tripId, userId, id1, token1) == once;
    SetActiveSharesOfTrip(shares, s.id, !s.isActive, tripId);
    assert SharesOfTrip(shares, tripId) == [s];
    assert SharesOfTrip(once, tripId) == [s.(isActive := !s.isActive)];
    assert Toggled(once, tripId, userId, id2, token2) == SetActive(once, s.id, s.isActive);
    assert s in SharesOfTrip(shares, tripId);
    SetActiveTwice(shares, s, !s.isActive);
  }

  /** Setting the flag of a uniquely identified row and then setting it back restores the table. */
  lemma {:induction false} SetActiveTwice(shares: seq<TripShare>, s: TripShare, active: bool)
    requires UniqueShareIds(shares) && s in shares
    ensures SetActive(SetActive(shares, s.id, active), s.id, s.isActive) == shares
  {
    var once := SetActive(shares, s.id, active);
    var twice := SetActive(once, s.id, s.isActive);
    var k :| 0 <= k < |shares| && shares[k] == s;
    forall i | 0 <= i < |shares| ensures twice[i] == shares[i] {
      if shares[i].id == s.id {
        assert i == k;
      }
    }
  }

  /** What `createTripShare` returns: the token, and whether a row was inserted. */
  datatype CreatedShare = CreatedShare(shareToken: string, isNew: bool)

  /** The share table after a successful create. */
  function AfterCreate(shares: seq<TripShare>, tripId: string, userId: string, newId: string, newToken: string): seq<TripShare>
  {
    if ActiveShareOfTrip(shares, tripId).Some? then shares
    else shares + [TripShare(newId, tripId, userId, newToken, true)]
  }

  /** `createTripShare(tripId)`: make sure an active share exists. */
  method CreateTripShare(db: Db, userId: string, tripId: string, newId: string, newToken: string, insertOk: bool)
    returns (r: Result<CreatedShare>)
    modifies db`tripShares
    ensures OwnerGuard(db.trips, userId, tripId).Some? ==> r == Err(OwnerGuard(db.trips, userId, tripId).value)
    ensures OwnerGuard(db.trips, userId, tripId).None? ==>
      match ActiveShareOfTrip(old(db.tripShares), tripId)
      case Some(active) => r == Ok(CreatedShare(active.shareToken, false))
      case None => r == if insertOk then Ok(CreatedShare(newToken, true)) else Err("Failed to create share link")
    ensures r.Err? ==> db.tripShares == old(db.tripShares)
    ensures r.Ok? ==> db.tripShares == AfterCreate(old(db.tripShares), tripId, userId, newId, newToken)
  {
    var guard := OwnerGuard(db.trips, userId, tripId);
    if guard.Some? {
      return Err(guard.value);
    }
    var existingShare := ActiveShareOfTrip(db.tripShares, tripId);
    if existingShare.Some? {
      return Ok(CreatedShare(existingShare.value.shareToken, false));
    }
    if !insertOk {
      return Err("Failed to create share link");
    }
    db.tripShares := db.tripShares + [TripShare(newId, tripId, userId, newToken, true)];
    r := Ok(CreatedShare(newToken, true));
  }

  /**
   * With at most one active share for the trip, a create leaves exactly one
   * active share, and a second create inserts nothing and finds the token
   * the first one returned.
   */
  lemma {:induction false} CreateIsIdempotent(shares: seq<TripShare>, tripId: string, userId: string,
                                              id1: string, token1: string, id2: string, token2: string)
    requires |ActiveSharesOfTrip(shares, tripId)| <= 1
    ensures var once := AfterCreate(shares, tripId, userId, id1, token1);
      && ActiveShareOfTrip(once, tripId).Some?
      && ActiveShareOfTrip(once, tripId).value.shareToken
           == (if ActiveShareOfTrip(shares, tripId).Some? then ActiveShareOfTrip(shares, tripId).value.shareToken else token1)
      && AfterCreate(once, tripId, userId, id2, token2) == once
  {
    if ActiveShareOfTrip(shares, tripId).None? {
      WhereAppend(shares, TripShare(id1, tripId, userId, token1, true), (s: TripShare) => s.tripId == tripId && s.isActive);
    }
  }

  /**
   * Create beside an inactive share does not reactivate it: it inserts a
   * second row for the trip. From then on the trip's `.single()` lookup
   * finds no share, so the status reports none and a toggle inserts yet
   * another active row instead of flipping one.
   */
  lemma {:induction false} CreateBesideInactiveShare(shares: seq<TripShare>, tripId: string, userId: string,
                                                     newId: string, newToken: string, toggleId: string, toggleToken: string)
    requires ShareOfTrip(shares, tripId).Some? && !ShareOfTrip(shares, tripId).value.isActive
    ensures var created := AfterCreate(shares, tripId, userId, newId, newToken);
      && |SharesOfTrip(created, tripId)| == 2
      && !StatusOf(created, tripId).hasShare
      && |SharesOfTrip(Toggled(created, tripId, userId, toggleId, toggleToken), tripId)| == 3
  {
    var s := ShareOfTrip(shares, tripId).value;
    assert SharesOfTrip(shares, tripId) == [s];
    WhereWhere(shares, (x: TripShare) => x.tripId == tripId, (x: TripShare) => x.isActive,
               (x: TripShare) => x.tripId == tripId && x.isActive);
    assert ActiveSharesOfTrip(shares, tripId) == Where([s], (x: TripShare) => x.isActive);
    var row := TripShare(newId, tripId, userId, newToken, true);
    var created := shares + [row];
    WhereAppend(shares, row, (x: TripShare) => x.tripId == tripId);
    assert |SharesOfTrip(created, tripId)| == 2;
    var row2 := TripShare(toggleId, tripId, userId, toggleToken, true);
    WhereAppend(created, row2, (x: TripShare) => x.tripId == tripId);
  }

  /** How the public lookup classifies a failure. */
  datatype ShareErrorType = Invalid | Inactive | Deleted

  /** The shared trip with its items (in table order) and its owner's categories. */
  datatype SharedTrip = SharedTrip(trip: Trip, tripItems: seq<TripItemRow>, categories: seq<CategoryRow>)

  datatype ShareLookup = Found(shared: SharedTrip) | Failed(error: string, errorType: ShareErrorType)

  function ItemsOfTrip(rows: seq<TripItemRow>, tripId: string): seq<TripItemRow>
  {
    Where(rows, (r: TripItemRow) => r.tripId == tripId)
  }

  function CategoriesOf(categories: seq<CategoryRow>, userId: string): seq<CategoryRow>
  {
    Where(categories, (c: CategoryRow) => c.userId == userId)
  }

  /**
   * `getTripShare(shareToken)`: public, needs no user and changes nothing.
   * A failed fetch of the items or the categories yields an empty list
   * rather than a failure.
   */
  function GetTripShare(db: Db, shareToken: string, itemsFetchOk: bool, categoriesFetchOk: bool): (r: ShareLookup)
    reads db
    ensures r.Failed? && r.errorType == Invalid <==>
      shareToken == "" || ShareByToken(db.tripShares, shareToken).None?
    ensures r.Failed? && r.errorType == Inactive <==>
      shareToken != "" && ShareByToken(db.tripShares, shareToken).Some? && !ShareByToken(db.tripShares, shareToken).value.isActive
    ensures r.Failed? && r.errorType == Deleted <==>
      shareToken != "" && ShareByToken(db.tripShares, shareToken).Some? && ShareByToken(db.tripShares, shareToken).value.isActive &&
      TripById(db.trips, ShareByToken(db.tripShares, shareToken).value.tripId).None?
    ensures r.Found? ==>
      var share := ShareByToken(db.tripShares, shareToken).value;
      && share.isActive
      && Some(r.shared.trip) == TripById(db.trips, share.tripId)
      && r.shared.tripItems == (if itemsFetchOk then ItemsOfTrip(db.tripItems, share.tripId) else [])
      && r.shared.categories == (if categoriesFetchOk then CategoriesOf(db.categories, r.shared.trip.userId) else [])
  {
    if shareToken == "" then Failed("Share token is required", Invalid)
    else
      var share := ShareByToken(db.tripShares, shareToken);
      if share.None? then Failed("Invalid share link", Invalid)
      else if !share.value.isActive then Failed("This share link is no longer active", Inactive)
      else
        var trip := TripById(db.trips, share.value.tripId);
        if trip.None? then Failed("Trip no longer available", Deleted)
        else
          var tripItems := if itemsFetchOk then ItemsOfTrip(db.tripItems, share.value.tripId) else [];
          var categories := if categoriesFetchOk then CategoriesOf(db.categories, trip.value.userId) else [];
          Found(SharedTrip(trip.value, tripItems, categories))
  }
}
