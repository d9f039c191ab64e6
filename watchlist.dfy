/**
 * The `watchlist` table: one row per tracked contract address (`ca`, the
 * primary key), holding the initial price, the latest price, the stored
 * multiplier and the source group.  The table is a map keyed by `ca`; the
 * three statements the programs run against it (INSERT OR IGNORE, UPDATE ...
 * WHERE ca = ?, DELETE ... WHERE ca = ?) are pure functions on that map, and
 * the class `WatchlistDb` applies them in place.
 */
module Watchlist {
  import opened Wrappers

  /** A multiplier at or above this value is a "win" (both the alert and the statistics use it). */
  const WinMultiplier: real := 1.5

  /** The multiplier a fresh row starts with. */
  const InitialMultiplier: real := 1.0

  datatype Row = Row(initialPrice: real, currentPrice: real, highestMultiplier: real, groupName: string)

  type Table = map<string, Row>

  /** JavaScript truthiness of the optional `highestMultiplier` argument: absent and 0 are falsy. */
  predicate IsTruthy(m: Option<real>) {
    m.Some? && m.value != 0.0
  }

  /** INSERT OR IGNORE: a fresh key gets a new row, an existing key keeps its row. */
  function InsertOrIgnore(t: Table, ca: string, initialPrice: real, groupName: string): (r: Table)
    ensures r.Keys == t.Keys + {ca}
    ensures forall k | k in t :: r[k] == t[k]
    ensures ca !in t ==> r[ca] == Row(initialPrice, initialPrice, InitialMultiplier, groupName)
  {
    if ca in t then t else t[ca := Row(initialPrice, initialPrice, InitialMultiplier, groupName)]
  }

  /**
   * UPDATE watchlist SET current_price = ? [, highest_multiplier = ?] WHERE ca = ?.
   * The multiplier column is written only when the argument is truthy; no row is ever created.
   */
  function Update(t: Table, ca: string, currentPrice: real, highestMultiplier: Option<real>): (r: Table)
    ensures r.Keys == t.Keys
    ensures ca !in t ==> r == t
    ensures forall k | k in t && k != ca :: r[k] == t[k]
    ensures ca in t ==> r[ca].initialPrice == t[ca].initialPrice && r[ca].groupName == t[ca].groupName
    ensures ca in t ==> r[ca].currentPrice == currentPrice
    ensures ca in t && IsTruthy(highestMultiplier) ==> r[ca].highestMultiplier == highestMultiplier.value
    ensures ca in t && !IsTruthy(highestMultiplier) ==> r[ca].highestMultiplier == t[ca].highestMultiplier
  {
    if ca !in t then t
    else if IsTruthy(highestMultiplier) then
      t[ca := t[ca].(currentPrice := currentPrice, highestMultiplier := highestMultiplier.value)]
    else
      t[ca := t[ca].(currentPrice := currentPrice)]
  }

  /** DELETE FROM watchlist WHERE ca = ?. */
  function Delete(t: Table, ca: string): (r: Table)
    ensures ca !in r
    ensures r.Keys == t.Keys - {ca}
    ensures forall k | k in r :: r[k] == t[k]
  {
    t - {ca}
  }

  /** The change count SQLite reports for the delete: how many rows it removed. */
  function DeleteChanges(t: Table, ca: string): (n: nat)
    ensures n == |t| - |Delete(t, ca)|
    ensures n <= 1
  {
    if ca in t then
      assert t.Keys == Delete(t, ca).Keys + {ca};
      1
    else
      assert t.Keys == Delete(t, ca).Keys;
      0
  }

  /** A second sighting changes nothing: the first insert's row (initial price, group) is kept. */
  lemma InsertOrIgnoreIdempotent(t: Table, ca: string, p1: real, g1: string, p2: real, g2: string)
    ensures InsertOrIgnore(InsertOrIgnore(t, ca, p1, g1), ca, p2, g2) == InsertOrIgnore(t, ca, p1, g1)
    ensures InsertOrIgnore(InsertOrIgnore(t, ca, p1, g1), ca, p2, g2)[ca].initialPrice
            == (if ca in t then t[ca].initialPrice else p1)
  {
  }

  /** Deleting a key that an insert just created gives back the table as it was. */
  lemma DeleteUndoesFreshInsert(t: Table, ca: string, p: real, g: string)
    requires ca !in t
    ensures Delete(InsertOrIgnore(t, ca, p, g), ca) == t
  {
    assert Delete(InsertOrIgnore(t, ca, p, g), ca).Keys == t.Keys;
  }

  /** The database connection: the table lives on as the `rows` field that each statement rewrites. */
  class WatchlistDb {
    var rows: Table

    constructor (existing: Table)
      ensures rows == existing
    {
      rows := existing;
    }

    /** addToWatchlist: the new row starts with current price = initial price and multiplier 1.0. */
    method AddToWatchlist(ca: string, initialPrice: real, groupName: string)
      modifies this
      ensures rows == InsertOrIgnore(old(rows), ca, initialPrice, groupName)
      ensures ca in old(rows) ==> rows == old(rows)
    {
      rows := InsertOrIgnore(rows, ca, initialPrice, groupName);
    }

    /** updateWatchlist: the 3-argument form writes the multiplier only when it is truthy. */
    method UpdateWatchlist(ca: string, currentPrice: real, highestMultiplier: Option<real>)
      modifies this
      ensures rows == Update(old(rows), ca, currentPrice, highestMultiplier)
      ensures rows.Keys == old(rows).Keys
    {
      rows := Update(rows, ca, currentPrice, highestMultiplier);
    }

    /** DELETE by primary key, returning SQLite's change count. */
    method DeleteByKey(ca: string) returns (changes: nat)
      modifies this
      ensures rows == Delete(old(rows), ca)
      ensures changes == |old(rows)| - |rows|
      ensures changes == (if ca in old(rows) then 1 else 0)
    {
      changes := DeleteChanges(rows, ca);
      rows := Delete(rows, ca);
    }
  }
}
