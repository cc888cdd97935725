/** controllers/tableController.go: creating a table and updating one through a
    map of column updates. The Table record carries no validation tags, so
    the validation steps accept every table and are not modelled. */
module Tables {
  import opened Common
  import opened Models
  import opened Database

  /** CreateTable: the admin gate, then the table is stored with both
      timestamps set, under the next primary key. */
  method CreateTable(db: Db, isAdmin: Option<bool>, payload: Table, now: int) returns (out: Outcome)
    requires db.Valid()
    modifies db`tables, db`nextId
    ensures db.Valid()
    ensures AdminRejects(isAdmin) ==>
              out == BadRequest && db.tables == old(db.tables) && db.nextId == old(db.nextId)
    ensures !AdminRejects(isAdmin) ==>
              && out == Ok
              && db.tables == old(db.tables)[old(db.nextId) :=
                   payload.(id := old(db.nextId), createdAt := now, updatedAt := now)]
  {
    if AdminRejects(isAdmin) {
      return BadRequest;
    }
    var table := payload;
    table := table.(createdAt := now);
    table := table.(updatedAt := now);
    var id := db.FreshId();
    table := table.(id := id);
    db.tables := db.tables[id := table];
    out := Ok;
  }

  /** The update map UpdateTable builds, with `guestsKey` and `numberKey` as the
      names of its two entries: an entry for each non-zero field of the
      request, holding that field's value. */
  function UpdateMap(incoming: Table, guestsKey: string, numberKey: string): (m: map<string, nat>)
    requires guestsKey != numberKey
    ensures guestsKey in m <==> incoming.numberOfGuests != 0
    ensures numberKey in m <==> incoming.tableNumber != 0
    ensures guestsKey in m ==> m[guestsKey] == incoming.numberOfGuests
    ensures numberKey in m ==> m[numberKey] == incoming.tableNumber
    ensures m.Keys <= {guestsKey, numberKey}
  {
    var withGuests: map<string, nat> := if incoming.numberOfGuests != 0 then map[guestsKey := incoming.numberOfGuests] else map[];
    if incoming.tableNumber != 0 then withGuests[numberKey := incoming.tableNumber] else withGuests
  }

  /** Building the update map one entry at a time. */
  method BuildUpdateMap(incoming: Table, guestsKey: string, numberKey: string) returns (updates: map<string, nat>)
    requires guestsKey != numberKey
    ensures updates == UpdateMap(incoming, guestsKey, numberKey)
  {
    updates := map[];
    if incoming.numberOfGuests != 0 {
      updates := updates[guestsKey := incoming.numberOfGuests];
    }
    if incoming.tableNumber != 0 {
      updates := updates[numberKey := incoming.tableNumber];
    }
  }

  /** The keys the handler writes into the map. */
  const GuestsKeyAsWritten: string := "numberOfGuests"
  const NumberKeyAsWritten: string := "tableNumber"

  /** The columns of the tables table those two fields are stored in. */
  const GuestsColumn: string := "number_of_guests"
  const NumberColumn: string := "table_number"

  /** `UPDATE tables SET ... WHERE id = ?` with a map of column updates; the
      update time is set as well. A key that names no column of the table makes
      the database reject the statement. */
  function ApplyUpdates(row: Table, updates: map<string, nat>, now: int): (r: Option<Table>)
    ensures r.None? <==> !(updates.Keys <= {GuestsColumn, NumberColumn})
    ensures r.Some? ==> r.value.numberOfGuests == if GuestsColumn in updates then updates[GuestsColumn] else row.numberOfGuests
    ensures r.Some? ==> r.value.tableNumber == if NumberColumn in updates then updates[NumberColumn] else row.tableNumber
    ensures r.Some? ==> r.value.id == row.id && r.value.createdAt == row.createdAt && r.value.updatedAt == now
  {
    if !(updates.Keys <= {GuestsColumn, NumberColumn}) then None
    else
      var guests := if GuestsColumn in updates then updates[GuestsColumn] else row.numberOfGuests;
      var number := if NumberColumn in updates then updates[NumberColumn] else row.tableNumber;
      Some(row.(numberOfGuests := guests, tableNumber := number, updatedAt := now))
  }

  /** Written with the JSON names of the fields, the map names no column of the
      table: every request that changes a field is rejected by the database,
      while the same map keyed by column names is applied. */
  lemma UpdateMapKeysAreNotColumns(row: Table, incoming: Table, now: int)
    requires incoming.numberOfGuests != 0 || incoming.tableNumber != 0
    ensures ApplyUpdates(row, UpdateMap(incoming, GuestsKeyAsWritten, NumberKeyAsWritten), now) == None
    ensures ApplyUpdates(row, UpdateMap(incoming, GuestsColumn, NumberColumn), now).Some?
  {
    var m := UpdateMap(incoming, GuestsKeyAsWritten, NumberKeyAsWritten);
    if incoming.numberOfGuests != 0 {
      assert GuestsKeyAsWritten in m;
    } else {
      assert NumberKeyAsWritten in m;
    }
  }

  /** With column names as keys, a table keeps the fields the request leaves at
      zero and takes the others; nothing but the two fields and the update time
      changes. */
  lemma ApplyColumnUpdates(row: Table, incoming: Table, now: int)
    ensures var r := ApplyUpdates(row, UpdateMap(incoming, GuestsColumn, NumberColumn), now);
            && r.Some?
            && r.value.numberOfGuests == (if incoming.numberOfGuests != 0 then incoming.numberOfGuests else row.numberOfGuests)
            && r.value.tableNumber == (if incoming.tableNumber != 0 then incoming.tableNumber else row.tableNumber)
            && r.value == row.(numberOfGuests := r.value.numberOfGuests, tableNumber := r.value.tableNumber, updatedAt := now)
  {
  }

  /** UpdateTable as written: the map is keyed by the JSON names, so any request
      that changes a field fails; a request that changes nothing only stamps
      the row. A missing row is no error: nothing matches the WHERE clause. */
  method UpdateTableAsWritten(db: Db, tableId: nat, incoming: Table, now: int) returns (out: Outcome)
    requires db.Valid()
    modifies db`tables
    ensures db.Valid()
    ensures incoming.numberOfGuests != 0 || incoming.tableNumber != 0 ==>
              out == ServerError && db.tables == old(db.tables)
    ensures incoming.numberOfGuests == 0 && incoming.tableNumber == 0 ==>
              && out == Ok
              && (tableId in old(db.tables) ==>
                    db.tables == old(db.tables)[tableId := old(db.tables)[tableId].(updatedAt := now)])
              && (tableId !in old(db.tables) ==> db.tables == old(db.tables))
  {
    var updateObj := BuildUpdateMap(incoming, GuestsKeyAsWritten, NumberKeyAsWritten);
    out := UpdateRow(db, tableId, updateObj, now);
    if incoming.numberOfGuests != 0 || incoming.tableNumber != 0 {
      UpdateMapKeysAreNotColumns(if tableId in old(db.tables) then old(db.tables)[tableId] else incoming, incoming, now);
    }
  }

  /** UpdateTable with the map keyed by column names: the row with the given id,
      if there is one, takes the non-zero fields of the request and the update
      time; every other row, and every other field, is unchanged. */
  method UpdateTable(db: Db, tableId: nat, incoming: Table, now: int) returns (out: Outcome)
    requires db.Valid()
    modifies db`tables
    ensures db.Valid()
    ensures out == Ok
    ensures tableId in old(db.tables) ==>
              db.tables == old(db.tables)[tableId := old(db.tables)[tableId].(
                numberOfGuests := if incoming.numberOfGuests != 0 then incoming.numberOfGuests else old(db.tables)[tableId].numberOfGuests,
                tableNumber := if incoming.tableNumber != 0 then incoming.tableNumber else old(db.tables)[tableId].tableNumber,
                updatedAt := now)]
    ensures tableId !in old(db.tables) ==> db.tables == old(db.tables)
  {
    var updateObj := BuildUpdateMap(incoming, GuestsColumn, NumberColumn);
    out := UpdateRow(db, tableId, updateObj, now);
  }

  /** Runs the update statement on the row with the given id. */
  method UpdateRow(db: Db, tableId: nat, updates: map<string, nat>, now: int) returns (out: Outcome)
    requires db.Valid()
    modifies db`tables
    ensures db.Valid()
    ensures !(updates.Keys <= {GuestsColumn, NumberColumn}) ==> out == ServerError && db.tables == old(db.tables)
    ensures updates.Keys <= {GuestsColumn, NumberColumn} ==>
              && out == Ok
              && (tableId in old(db.tables) ==>
                    db.tables == old(db.tables)[tableId := ApplyUpdates(old(db.tables)[tableId], updates, now).value])
              && (tableId !in old(db.tables) ==> db.tables == old(db.tables))
  {
    if !(updates.Keys <= {GuestsColumn, NumberColumn}) {
      return ServerError;
    }
    if tableId in db.tables {
      var updated := ApplyUpdates(db.tables[tableId], updates, now);
      db.tables := db.tables[tableId := updated.value];
    }
    out := Ok;
  }
}
