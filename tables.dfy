/**
 * The database tables the server actions read and write, held in memory.
 * A query `.from(t).select(...).eq(...)` is `Where` over the rows of `t`,
 * `.single()` is `Single` (a row only when exactly one matches), an
 * `.update(...).eq(...)` is `UpdateWhere` and a `.delete().eq(...)` keeps
 * the rows that do not match. Rows keep insertion order.
 */
module Tables {
  import opened Wrappers

  datatype Trip = Trip(id: string, userId: string, waterVolume: real, waterUnit: string)

  datatype Item = Item(id: string, userId: string)

  datatype TripItemRow = TripItemRow(
    id: string, tripId: string, itemId: string, quantity: real, isWorn: bool, isConsumable: bool)

  datatype TripShare = TripShare(id: string, tripId: string, userId: string, shareToken: string, isActive: bool)

  datatype Conversation = Conversation(id: string, userId: string)

  datatype CategoryRow = CategoryRow(id: string, userId: string, name: string, color: string)

  datatype FeedbackRow = FeedbackRow(
    id: string, conversationId: string, messageId: string, userId: string, rating: string,
    issueType: Option<string>, comment: Option<string>, messageContent: Option<string>, userQuery: Option<string>)

  /** The rows that satisfy `p`, in table order. */
  function Where<T(!new)>(rows: seq<T>, p: T -> bool): (r: seq<T>)
    ensures |r| <= |rows|
    ensures forall x :: x in r <==> x in rows && p(x)
    decreases |rows|
  {
    if rows == [] then []
    else
      var last := rows[|rows| - 1];
      Where(rows[..|rows| - 1], p) + (if p(last) then [last] else [])
  }

  /** Appending a row extends the query result by that row when it matches. */
  lemma WhereAppend<T(!new)>(rows: seq<T>, x: T, p: T -> bool)
    ensures Where(rows + [x], p) == Where(rows, p) + (if p(x) then [x] else [])
  {
    assert (rows + [x])[..|rows|] == rows;
  }

  /** `.single()`: the row when exactly one matches; none for zero or several. */
  function Single<T>(rows: seq<T>): (r: Option<T>)
    ensures r.Some? <==> |rows| == 1
    ensures r.Some? ==> rows == [r.value]
  {
    if |rows| == 1 then Some(rows[0]) else None
  }

  /** `.update(f).eq(...)`: every matching row is rewritten, the others are kept, order is kept. */
  function UpdateWhere<T>(rows: seq<T>, p: T -> bool, f: T -> T): (r: seq<T>)
    ensures |r| == |rows|
    ensures forall i :: 0 <= i < |rows| ==> r[i] == if p(rows[i]) then f(rows[i]) else rows[i]
    decreases |rows|
  {
    if rows == [] then []
    else
      var last := rows[|rows| - 1];
      UpdateWhere(rows[..|rows| - 1], p, f) + [if p(last) then f(last) else last]
  }

  /** Updating a table with one more row updates that row too. */
  lemma UpdateAppend<T>(rows: seq<T>, x: T, p: T -> bool, f: T -> T)
    ensures UpdateWhere(rows + [x], p, f) == UpdateWhere(rows, p, f) + [if p(x) then f(x) else x]
  {
    assert (rows + [x])[..|rows|] == rows;
  }

  /**
   * An update that leaves a query's condition alone commutes with the
   * query: the query then finds the same rows, updated.
   */
  lemma {:induction false} WhereOfUpdate<T(!new)>(rows: seq<T>, p: T -> bool, f: T -> T, q: T -> bool)
    requires forall x :: q(f(x)) == q(x)
    ensures Where(UpdateWhere(rows, p, f), q) == UpdateWhere(Where(rows, q), p, f)
    decreases |rows|
  {
    if rows != [] {
      var init := rows[..|rows| - 1];
      var last := rows[|rows| - 1];
      var g := if p(last) then f(last) else last;
      var updated := UpdateWhere(init, p, f);
      assert rows == init + [last];
      UpdateAppend(init, last, p, f);
      assert UpdateWhere(rows, p, f) == updated + [g];
      WhereAppend(updated, g, q);
      WhereOfUpdate(init, p, f, q);
      WhereAppend(init, last, q);
      if q(last) {
        assert q(g);
        UpdateAppend(Where(init, q), last, p, f);
        assert Where(rows, q) == Where(init, q) + [last];
      } else {
        assert !q(g);
        assert Where(rows, q) == Where(init, q);
      }
    }
  }

  /** Every row either matches a condition or its negation. */
  lemma {:induction false} WhereSplit<T(!new)>(rows: seq<T>, p: T -> bool, notP: T -> bool)
    requires forall x :: notP(x) == !p(x)
    ensures |Where(rows, p)| + |Where(rows, notP)| == |rows|
    decreases |rows|
  {
    if rows != [] {
      WhereSplit(rows[..|rows| - 1], p, notP);
    }
  }

  /** Narrowing a table first cannot make a query find more rows. */
  lemma {:induction false} WhereNarrowed<T(!new)>(rows: seq<T>, p: T -> bool, q: T -> bool)
    ensures |Where(Where(rows, p), q)| <= |Where(rows, q)|
    decreases |rows|
  {
    if rows != [] {
      var init := rows[..|rows| - 1];
      var last := rows[|rows| - 1];
      WhereNarrowed(init, p, q);
      if p(last) {
        assert Where(rows, p) == Where(init, p) + [last];
        WhereAppend(Where(init, p), last, q);
      } else {
        assert Where(rows, p) == Where(init, p);
      }
    }
  }

  /** Filtering twice is filtering once by both conditions. */
  lemma {:induction false} WhereWhere<T(!new)>(rows: seq<T>, p: T -> bool, q: T -> bool, both: T -> bool)
    requires forall x :: both(x) == (p(x) && q(x))
    ensures Where(Where(rows, p), q) == Where(rows, both)
    decreases |rows|
  {
    if rows != [] {
      var init := rows[..|rows| - 1];
      var last := rows[|rows| - 1];
      WhereWhere(init, p, q, both);
      if p(last) {
        assert Where(rows, p) == Where(init, p) + [last];
        WhereAppend(Where(init, p), last, q);
      } else {
        assert Where(rows, p) == Where(init, p);
      }
    }
  }

  function TripById(trips: seq<Trip>, id: string): Option<Trip>
  {
    Single(Where(trips, (t: Trip) => t.id == id))
  }

  function ItemById(items: seq<Item>, id: string): Option<Item>
  {
    Single(Where(items, (i: Item) => i.id == id))
  }

  function TripItemById(rows: seq<TripItemRow>, id: string): Option<TripItemRow>
  {
    Single(Where(rows, (r: TripItemRow) => r.id == id))
  }

  /**
   * The whole database. The actions receive it and change only the table
   * they write; everything else is passed to them as arguments.
   */
  class Db {
    var trips: seq<Trip>
    var items: seq<Item>
    var tripItems: seq<TripItemRow>
    var tripShares: seq<TripShare>
    var conversations: seq<Conversation>
    var feedback: seq<FeedbackRow>
    var categories: seq<CategoryRow>
  }
}
