/** The `status_lists` rows and the statements that update them. */
module StatusLists {
  import opened Wrappers
  import opened StatusBits

  type ListId = nat
  type IssuerId = nat
  /** Milliseconds since the epoch. */
  type Time = int

  datatype PersistenceError = NotFound | DataIntegrity | ForeignKeyViolation | Db

  datatype ListRow = ListRow(
    issuer: IssuerId,
    bits: Bits,
    allocatedCount: nat,
    committedVersion: nat,
    publishedVersion: nat,
    lastAttemptAt: Option<Time>,
    lastError: Option<string>,
    nextAttemptAt: Option<Time>,
    publishAttempts: nat,
    createdAt: Time,
    registryEntry: Option<string>,
    registryUrl: Option<string>)
  {
    predicate IsDirty() {
      committedVersion > publishedVersion
    }

    /** Dirty, and neither leased nor waiting for a retry at `now`. */
    predicate IsRunnable(now: Time) {
      IsDirty() && (nextAttemptAt.None? || nextAttemptAt.value <= now)
    }

    predicate HasRoom() {
      allocatedCount < STATUS_LIST_CAPACITY
    }
  }

  function FreshRow(issuer: IssuerId, entry: Option<string>, url: Option<string>, now: Time): ListRow {
    ListRow(issuer, Zeros(BITSTRING_BYTES), 0, 0, 0, None, None, None, 0, now, entry, url)
  }

  function WithAllocation(row: ListRow): ListRow {
    row.(allocatedCount := row.allocatedCount + 1, committedVersion := row.committedVersion + 1)
  }

  function WithBits(row: ListRow, bits: Bits): ListRow {
    row.(bits := bits, committedVersion := row.committedVersion + 1)
  }

  function WithPublishSuccess(row: ListRow, target: nat, now: Time): ListRow {
    if row.publishedVersion < target then
      row.(publishedVersion := target, lastAttemptAt := Some(now), lastError := None,
           nextAttemptAt := None, publishAttempts := 0)
    else
      row
  }

  function WithPublishFailure(row: ListRow, error: string, next: Time, now: Time): ListRow {
    row.(lastAttemptAt := Some(now), lastError := Some(error), nextAttemptAt := Some(next),
         publishAttempts := row.publishAttempts + 1)
  }

  function WithLease(row: ListRow, expiry: Time): ListRow {
    row.(nextAttemptAt := Some(expiry))
  }

  /** The acquisition order: never-tried rows first, then by due time, ties by creation. */
  predicate NoLaterThan(a: ListRow, b: ListRow) {
    if a.nextAttemptAt.None? then b.nextAttemptAt.Some? || a.createdAt <= b.createdAt
    else b.nextAttemptAt.Some?
         && (a.nextAttemptAt.value < b.nextAttemptAt.value
             || (a.nextAttemptAt.value == b.nextAttemptAt.value && a.createdAt <= b.createdAt))
  }

  class StatusListTable {
    var rows: map<ListId, ListRow>
    /** `issuers.current_status_list_id`; an issuer without a list maps to None. */
    var current: map<IssuerId, Option<ListId>>

    constructor (issuers: set<IssuerId>)
      ensures rows == map[] && current == map i | i in issuers :: None
    {
      rows := map[];
      current := map i | i in issuers :: None;
    }

    /** Inserts a zero-filled list, then re-points its issuer. An unknown issuer
        violates the foreign key and nothing is written; when the second statement does
        not get through (`pointed`), the list stays behind and the issuer as it was. */
    method ProvisionForIssuer(newId: ListId, issuer: IssuerId, entry: Option<string>, url: Option<string>,
                              now: Time, pointed: bool)
      returns (r: Result<ListId, PersistenceError>)
      requires newId !in rows
      modifies this
      ensures r == if issuer !in old(current) then Err(ForeignKeyViolation) else if pointed then Ok(newId) else Err(Db)
      ensures rows == if issuer in old(current) then old(rows)[newId := FreshRow(issuer, entry, url, now)]
                      else old(rows)
      ensures current == if r.Ok? then old(current)[issuer := Some(newId)] else old(current)
      ensures issuer in old(current) ==>
                var row := rows[newId];
                && row.issuer == issuer && row.registryEntry == entry && row.registryUrl == url && row.createdAt == now
                && row.allocatedCount == row.committedVersion == row.publishedVersion == row.publishAttempts == 0
                && row.lastAttemptAt == row.nextAttemptAt == None && row.lastError == None
                && |row.bits| == 32768 && forall k :: 0 <= k < 32768 ==> row.bits[k] == 0
    {
      if issuer !in current {
        return Err(ForeignKeyViolation);
      }
      rows := rows[newId := FreshRow(issuer, entry, url, now)];
      if !pointed {
        return Err(Db);
      }
      current := current[issuer := Some(newId)];
      r := Ok(newId);
    }

    /** None for an unknown issuer and for one without a list alike. */
    method CurrentForIssuerWithUrl(issuer: IssuerId) returns (r: Option<(ListId, Option<string>)>)
      ensures r.Some? <==> issuer in current && current[issuer].Some? && current[issuer].value in rows
      ensures r.Some? ==> r.value.0 == current[issuer].value && r.value.1 == rows[r.value.0].registryUrl
    {
      if issuer !in current || current[issuer].None? || current[issuer].value !in rows {
        return None;
      }
      r := Some((current[issuer].value, rows[current[issuer].value].registryUrl));
    }

    /** A full list and an unknown list both give None and no write. */
    method AllocateIndex(list: ListId) returns (index: Option<nat>)
      modifies this`rows
      ensures index.Some? <==> list in old(rows) && old(rows)[list].HasRoom()
      ensures index.Some? ==> index.value == old(rows)[list].allocatedCount
                              && rows == old(rows)[list := WithAllocation(old(rows)[list])]
      ensures index.Some? <==> list in old(rows) && old(rows)[list].allocatedCount < 131072
      ensures index.Some? ==>
                rows == old(rows)[list := old(rows)[list].(allocatedCount := old(rows)[list].allocatedCount + 1,
                                                           committedVersion := old(rows)[list].committedVersion + 1)]
      ensures index.None? ==> rows == old(rows)
    {
      if list !in rows || !rows[list].HasRoom() {
        return None;
      }
      var row := rows[list];
      row := row.(allocatedCount := row.allocatedCount + 1);
      row := row.(committedVersion := row.committedVersion + 1);
      rows := rows[list := row];
      index := Some(row.allocatedCount - 1);
    }

    /** Reads the whole bitstring, edits one slot in a buffer, writes it back. */
    method WriteBit(list: ListId, index: nat, v: StatusValue) returns (r: Result<(), PersistenceError>)
      modifies this`rows
      ensures list !in old(rows) ==> r == Err(NotFound)
      ensures r.Ok? <==> list in old(rows) && |old(rows)[list].bits| == BITSTRING_BYTES
                         && index < STATUS_LIST_CAPACITY
      ensures r.Ok? ==> rows == old(rows)[list := WithBits(old(rows)[list],
                                                           WithSlot(old(rows)[list].bits, index, v))]
      ensures r.Ok? <==> list in old(rows) && |old(rows)[list].bits| == 32768 && index < 131072
      ensures r.Ok? ==>
                var before := old(rows)[list];
                && list in rows && |rows[list].bits| == 32768
                && rows == old(rows)[list := before.(bits := rows[list].bits,
                                                     committedVersion := before.committedVersion + 1)]
                && Slots(rows[list].bits) == Slots(before.bits)[index := v]
      ensures list in old(rows) && r.Err? ==> r == Err(DataIntegrity)
      ensures r.Err? ==> rows == old(rows)
    {
      if list !in rows {
        return Err(NotFound);
      }
      var row := rows[list];
      if |row.bits| != BITSTRING_BYTES {
        return Err(DataIntegrity);
      }
      var buffer := new Byte[|row.bits|](k requires 0 <= k < |row.bits| => row.bits[k]);
      assert buffer[..] == row.bits;
      var ok := SetAt(buffer, index, v);
      if !ok {
        return Err(DataIntegrity);
      }
      rows := rows[list := row.(bits := buffer[..], committedVersion := row.committedVersion + 1)];
      r := Ok(());
    }

    /** Guarded on `published_version < target`: the answer says whether the row changed. */
    method RecordPublishSuccess(list: ListId, target: nat, now: Time) returns (won: bool)
      modifies this`rows
      ensures won <==> list in old(rows) && old(rows)[list].publishedVersion < target
      ensures rows == if list in old(rows)
                      then old(rows)[list := WithPublishSuccess(old(rows)[list], target, now)]
                      else old(rows)
      ensures won ==>
                rows == old(rows)[list := old(rows)[list].(publishedVersion := target, lastAttemptAt := Some(now),
                                                           lastError := None, nextAttemptAt := None,
                                                           publishAttempts := 0)]
      ensures !won ==> rows == old(rows)
    {
      won := list in rows && rows[list].publishedVersion < target;
      if won {
        var row := rows[list].(publishedVersion := target, lastAttemptAt := Some(now));
        rows := rows[list := row.(lastError := None, nextAttemptAt := None, publishAttempts := 0)];
      } else if list in rows {
        assert rows == rows[list := rows[list]];
      }
    }

    method RecordPublishFailure(list: ListId, error: string, next: Time, now: Time)
      modifies this`rows
      ensures rows == if list in old(rows)
                      then old(rows)[list := WithPublishFailure(old(rows)[list], error, next, now)]
                      else old(rows)
      ensures list in old(rows) ==>
                rows == old(rows)[list := old(rows)[list].(lastAttemptAt := Some(now), lastError := Some(error),
                                                           nextAttemptAt := Some(next),
                                                           publishAttempts := old(rows)[list].publishAttempts + 1)]
    {
      if list in rows {
        var row := rows[list].(lastAttemptAt := Some(now), lastError := Some(error));
        rows := rows[list := row.(nextAttemptAt := Some(next), publishAttempts := row.publishAttempts + 1)];
      }
    }

    /** Leases the first runnable row that no open transaction has locked. */
    method AcquireNextDirty(now: Time, lease: nat, locked: set<ListId>) returns (r: Option<ListId>)
      modifies this`rows
      ensures r.None? ==> rows == old(rows)
      ensures r.None? <==> forall l :: l in old(rows) && l !in locked ==> !old(rows)[l].IsRunnable(now)
      ensures r.Some? ==>
                && r.value in old(rows) && r.value !in locked
                && old(rows)[r.value].IsRunnable(now)
                && (forall l :: l in old(rows) && l !in locked && old(rows)[l].IsRunnable(now)
                          ==> NoLaterThan(old(rows)[r.value], old(rows)[l]))
                && rows == old(rows)[r.value := WithLease(old(rows)[r.value], now + lease)]
      ensures r.None? <==>
                forall l :: l in old(rows) && l !in locked ==>
                  var row := old(rows)[l];
                  row.committedVersion <= row.publishedVersion
                  || (row.nextAttemptAt.Some? && row.nextAttemptAt.value > now)
      ensures r.Some? ==>
                var row := old(rows)[r.value];
                && row.publishedVersion < row.committedVersion
                && (row.nextAttemptAt.None? || row.nextAttemptAt.value <= now)
                && rows == old(rows)[r.value := row.(nextAttemptAt := Some(now + lease))]
      // Never-tried rows first, then the longest due, the older row on a tie.
      ensures r.Some? ==>
                forall l :: l in old(rows) && l !in locked
                            && old(rows)[l].publishedVersion < old(rows)[l].committedVersion
                            && (old(rows)[l].nextAttemptAt.None? || old(rows)[l].nextAttemptAt.value <= now) ==>
                  var a, b := old(rows)[r.value], old(rows)[l];
                  && (b.nextAttemptAt.None? ==> a.nextAttemptAt.None?)
                  && (a.nextAttemptAt.Some? && b.nextAttemptAt.Some? ==>
                        a.nextAttemptAt.value <= b.nextAttemptAt.value)
                  && (a.nextAttemptAt == b.nextAttemptAt ==> a.createdAt <= b.createdAt)
    {
      r := None;
      var todo := rows.Keys - locked;
      while todo != {}
        invariant todo <= rows.Keys - locked && rows == old(rows)
        invariant r.Some? ==> r.value in rows && r.value !in locked && rows[r.value].IsRunnable(now)
        invariant forall l :: l in rows && l !in locked && l !in todo && rows[l].IsRunnable(now)
                              ==> r.Some? && NoLaterThan(rows[r.value], rows[l])
        decreases todo
      {
        var l :| l in todo;
        todo := todo - {l};
        if rows[l].IsRunnable(now) && (r.None? || NoLaterThan(rows[l], rows[r.value])) {
          r := Some(l);
        }
      }
      if r.Some? {
        rows := rows[r.value := rows[r.value].(nextAttemptAt := Some(now + lease))];
      }
    }
  }
}
