/**
  The transactional outbox: its table, the statements of the relay and of the
  janitor on it, and the relay's batch loop.
 */
module Outbox {
  import opened Wrappers
  import opened Backoff

  datatype Status = Pending | Failed | Processing | Done | Dead

  datatype Message = Message(eventType: string, payload: string, correlationId: Option<string>, userId: Option<int>)

  datatype Row = Row(message: Message, status: Status, attempts: nat, nextAttempt: Option<int>,
                     publishedAt: Option<int>, createdAt: int)

  datatype Table = Table(rows: map<nat, Row>, nextId: nat)

  // What the relay keeps of a row it claimed: attempts as read, before the claim.
  datatype Item = Item(id: nat, message: Message, attempts: nat, claimedAt: int)

  const BATCH_SIZE := 50
  const LEASE := 5 * MINUTE

  function LeaseEnd(it: Item): int {
    it.claimedAt + LEASE
  }

  function AfterAdd(t: Table, m: Message, now: int): Table {
    Table(t.rows[t.nextId := Row(m, Pending, 0, Some(now), None, now)], t.nextId + 1)
  }

  // The WHERE clause; a NULL next_attempt_at never matches.
  predicate Due(r: Row, now: int) {
    r.status in {Pending, Failed, Processing} && r.nextAttempt.Some? && r.nextAttempt.value <= now
  }

  // A possible result of SELECT ... ORDER BY created_at LIMIT limit.
  predicate IsBatch(t: Table, ids: seq<nat>, now: int, limit: nat) {
    && |ids| <= limit
    && (forall i :: 0 <= i < |ids| ==> ids[i] in t.rows && Due(t.rows[ids[i]], now))
    && (forall i, j :: 0 <= i < j < |ids| ==>
          ids[i] != ids[j] && t.rows[ids[i]].createdAt <= t.rows[ids[j]].createdAt)
    && (forall id :: id in t.rows && Due(t.rows[id], now) && id !in ids ==>
          |ids| == limit && forall i :: 0 <= i < |ids| ==> t.rows[ids[i]].createdAt <= t.rows[id].createdAt)
  }

  // What of it a claim relies on: rows that another claim has locked may be skipped.
  predicate Claimable(t: Table, ids: seq<nat>, now: int, limit: nat) {
    && |ids| <= limit
    && (forall i :: 0 <= i < |ids| ==> ids[i] in t.rows && Due(t.rows[ids[i]], now))
    && (forall i, j :: 0 <= i < j < |ids| ==> ids[i] != ids[j])
  }

  /** A batch is a set of due rows that a claim may take: none twice, none not due. */
  lemma BatchIsClaimable(t: Table, ids: seq<nat>, now: int, limit: nat)
    requires IsBatch(t, ids, now, limit)
    ensures Claimable(t, ids, now, limit)
  {
  }

  function DueRows(t: Table, now: int): set<nat> {
    set id | id in t.rows && Due(t.rows[id], now)
  }

  /** Nobody overtakes: of two due rows the older one is in the batch, and before the
      younger, if the younger is. */
  lemma OldestGoFirst(t: Table, ids: seq<nat>, now: int, limit: nat, older: nat, j: nat) returns (i: nat)
    requires IsBatch(t, ids, now, limit) && j < |ids|
    requires older in DueRows(t, now) && t.rows[older].createdAt < t.rows[ids[j]].createdAt
    ensures i < j && ids[i] == older
  {
    assert older in ids;
    i :| i < |ids| && ids[i] == older;
  }

  function IdSet(ids: seq<nat>): set<nat> {
    set id | id in ids
  }

  lemma {:induction false} CountDistinct(ids: seq<nat>)
    requires forall i, j :: 0 <= i < j < |ids| ==> ids[i] != ids[j]
    ensures |IdSet(ids)| == |ids|
  {
    if ids != [] {
      var n := |ids| - 1;
      CountDistinct(ids[..n]);
      assert ids == ids[..n] + [ids[n]];
      assert IdSet(ids) == IdSet(ids[..n]) + {ids[n]};
      assert ids[n] !in IdSet(ids[..n]);
    }
  }

  /** A batch that is not full holds every due row. */
  lemma BatchIsAllOrFull(t: Table, ids: seq<nat>, now: int, limit: nat)
    requires IsBatch(t, ids, now, limit)
    ensures |ids| == limit || IdSet(ids) == DueRows(t, now)
    ensures |ids| <= |DueRows(t, now)|
  {
    CountDistinct(ids);
    CountSubset(IdSet(ids), DueRows(t, now));
  }

  function ClaimedRow(r: Row, leaseNow: int): Row {
    r.(status := Processing, attempts := r.attempts + 1, nextAttempt := Some(leaseNow + LEASE))
  }

  function AfterClaim(t: Table, ids: seq<nat>, leaseNow: int): Table {
    t.(rows := map id | id in t.rows :: if id in ids then ClaimedRow(t.rows[id], leaseNow) else t.rows[id])
  }

  function ItemsOf(t: Table, ids: seq<nat>, leaseNow: int): (items: seq<Item>)
    requires forall i :: 0 <= i < |ids| ==> ids[i] in t.rows
    ensures |items| == |ids|
    ensures forall i :: 0 <= i < |ids| ==>
              items[i] == Item(ids[i], t.rows[ids[i]].message, t.rows[ids[i]].attempts, leaseNow)
  {
    seq(|ids|, i requires 0 <= i < |ids| => Item(ids[i], t.rows[ids[i]].message, t.rows[ids[i]].attempts, leaseNow))
  }

  // The row after its delivery, decided by the attempts the relay read.
  function SettledRow(r: Row, it: Item, delivered: bool, now: int): Row {
    if delivered then r.(status := Done, publishedAt := Some(now))
    else if it.attempts + 1 >= MAX_OUTBOX_ATTEMPTS then r.(status := Dead, nextAttempt := None)
    else r.(status := Failed, nextAttempt := Some(now + Delay(it.attempts + 1)))
  }

  // Keyed by id alone.
  function AfterSettle(t: Table, it: Item, delivered: bool, now: int): Table {
    if it.id !in t.rows then t
    else t.(rows := t.rows[it.id := SettledRow(t.rows[it.id], it, delivered, now)])
  }

  predicate Purgeable(r: Row, cutoff: int) {
    r.status == Done && r.publishedAt.Some? && r.publishedAt.value < cutoff
  }

  function AfterPurge(t: Table, cutoff: int): Table {
    t.(rows := map id | id in t.rows && !Purgeable(t.rows[id], cutoff) :: t.rows[id])
  }

  // One delivery attempt as the relay experiences it.
  datatype Delivery = Delivery(delivered: bool, at: int)

  // The batch's rows settled in order, when nothing else runs.
  function AfterDeliveries(t: Table, items: seq<Item>, outcomes: seq<Delivery>): Table
    requires |items| == |outcomes|
  {
    if items == [] then t
    else
      var n := |items| - 1;
      AfterSettle(AfterDeliveries(t, items[..n], outcomes[..n]), items[n], outcomes[n].delivered, outcomes[n].at)
  }

  // ---------------------------------------------------------------- what a batch does

  // What one claim, at leaseNow, and one delivery make of a row.
  predicate DeliveredOnce(before: Row, after: Row, leaseNow: int, d: Delivery) {
    && after.message == before.message && after.createdAt == before.createdAt
    && after.attempts == before.attempts + 1
    && (after.status == Done <==> d.delivered)
    && after.publishedAt == (if d.delivered then Some(d.at) else before.publishedAt)
    && (after.status == Dead <==> !d.delivered && before.attempts + 1 >= 10)
    && (d.delivered ==> after.nextAttempt == Some(leaseNow + 300 * SECOND))
    && (after.status == Dead ==> after.nextAttempt == None)
    && (!d.delivered && before.attempts + 1 < 10 ==>
          after.status == Failed && after.nextAttempt == Some(d.at + Delay(before.attempts + 1)))
  }

  predicate Distinct(items: seq<Item>) {
    forall i, j :: 0 <= i < j < |items| ==> items[i].id != items[j].id
  }

  lemma SettlesOne(t: Table, it: Item, delivered: bool, now: int)
    ensures var t' := AfterSettle(t, it, delivered, now);
            && t'.nextId == t.nextId && t'.rows.Keys == t.rows.Keys
            && (forall id :: id in t.rows && id != it.id ==> t'.rows[id] == t.rows[id])
            && (it.id in t.rows ==> t'.rows[it.id] == SettledRow(t.rows[it.id], it, delivered, now))
  {
  }

  // Each item's row is settled by its own delivery, and no other row is touched.
  lemma {:induction false} SettledEach(t: Table, items: seq<Item>, outcomes: seq<Delivery>)
    requires |items| == |outcomes| && Distinct(items)
    ensures AfterDeliveries(t, items, outcomes).nextId == t.nextId
    ensures AfterDeliveries(t, items, outcomes).rows.Keys == t.rows.Keys
    ensures forall id :: id in t.rows && (forall i :: 0 <= i < |items| ==> items[i].id != id) ==>
              AfterDeliveries(t, items, outcomes).rows[id] == t.rows[id]
    ensures forall i :: 0 <= i < |items| && items[i].id in t.rows ==>
              AfterDeliveries(t, items, outcomes).rows[items[i].id]
              == SettledRow(t.rows[items[i].id], items[i], outcomes[i].delivered, outcomes[i].at)
  {
    if items != [] {
      var n := |items| - 1;
      SettledEach(t, items[..n], outcomes[..n]);
      var before := AfterDeliveries(t, items[..n], outcomes[..n]);
      assert forall i :: 0 <= i < n ==> items[..n][i] == items[i] && outcomes[..n][i] == outcomes[i];
      SettlesOne(before, items[n], outcomes[n].delivered, outcomes[n].at);
    }
  }

  /** A claim of a batch: at most fifty rows, each marked processing for a lease of five
      minutes with one attempt more; the relay keeps their messages and the attempts
      before. No other row is touched. */
  lemma ClaimsEach(t: Table, ids: seq<nat>, now: int, leaseNow: int, i: nat, id: nat)
    requires Claimable(t, ids, now, BATCH_SIZE) && i < |ids| && id in t.rows
    ensures var t', it, r := AfterClaim(t, ids, leaseNow), ItemsOf(t, ids, leaseNow)[i], t.rows[ids[i]];
            && |ids| <= 50 && t'.nextId == t.nextId && t'.rows.Keys == t.rows.Keys
            && it.id == ids[i] && it.message == r.message && it.attempts == r.attempts
            && t'.rows[ids[i]] == r.(status := Processing, attempts := r.attempts + 1,
                                     nextAttempt := Some(leaseNow + 300 * SECOND))
            && (id !in ids ==> t'.rows[id] == t.rows[id])
  {
  }

  lemma RowDeliveredOnce(r: Row, id: nat, leaseNow: int, d: Delivery)
    ensures DeliveredOnce(r, SettledRow(ClaimedRow(r, leaseNow), Item(id, r.message, r.attempts, leaseNow),
                                        d.delivered, d.at), leaseNow, d)
  {
  }

  // The whole batch: what comes of each row of it, and that the others stay.
  lemma BatchSettlesEach(t: Table, ids: seq<nat>, now: int, leaseNow: int, outcomes: seq<Delivery>)
    requires Claimable(t, ids, now, BATCH_SIZE) && |outcomes| == |ids|
    ensures var t' := AfterDeliveries(AfterClaim(t, ids, leaseNow), ItemsOf(t, ids, leaseNow), outcomes);
            && t'.nextId == t.nextId && t'.rows.Keys == t.rows.Keys
            && (forall id :: id in t.rows && id !in ids ==> t'.rows[id] == t.rows[id])
            && (forall i :: 0 <= i < |ids| ==> DeliveredOnce(t.rows[ids[i]], t'.rows[ids[i]], leaseNow, outcomes[i]))
  {
    var items := ItemsOf(t, ids, leaseNow);
    var claimed := AfterClaim(t, ids, leaseNow);
    SettledEach(claimed, items, outcomes);
    var t' := AfterDeliveries(claimed, items, outcomes);
    forall id | id in t.rows && id !in ids ensures t'.rows[id] == t.rows[id] {
      assert forall i :: 0 <= i < |items| ==> items[i].id == ids[i];
    }
    forall i | 0 <= i < |ids| ensures DeliveredOnce(t.rows[ids[i]], t'.rows[ids[i]], leaseNow, outcomes[i]) {
      RowDeliveredOnce(t.rows[ids[i]], ids[i], leaseNow, outcomes[i]);
    }
  }

  class OutboxTable {
    var rows: map<nat, Row>
    var nextId: nat

    constructor ()
      ensures Contents() == Table(map[], 1)
    {
      rows := map[];
      nextId := 1;
    }

    ghost function Contents(): Table
      reads this
    {
      Table(rows, nextId)
    }

    method Add(m: Message, now: int)
      modifies this
      ensures Contents() == AfterAdd(old(Contents()), m, now)
      ensures nextId == old(nextId) + 1
      ensures rows == old(rows)[old(nextId) := Row(m, Pending, 0, Some(now), None, now)]
    {
      rows := rows[nextId := Row(m, Pending, 0, Some(now), None, now)];
      nextId := nextId + 1;
    }

    // The claiming transaction; ids is what its SELECT returned.
    method ClaimBatch(ids: seq<nat>, queryNow: int, leaseNow: int) returns (items: seq<Item>)
      requires IsBatch(Contents(), ids, queryNow, BATCH_SIZE)
      modifies this
      ensures Contents() == AfterClaim(old(Contents()), ids, leaseNow)
      ensures items == ItemsOf(old(Contents()), ids, leaseNow)
    {
      ghost var before := Contents();
      items := [];
      for i := 0 to |ids|
        invariant items == ItemsOf(before, ids, leaseNow)[..i]
      {
        items := items + [Item(ids[i], rows[ids[i]].message, rows[ids[i]].attempts, leaseNow)];
      }
      for i := 0 to |items|
        invariant nextId == before.nextId && rows.Keys == before.rows.Keys
        invariant forall id :: id in rows ==>
                    rows[id] == if id in ids[..i] then ClaimedRow(before.rows[id], leaseNow) else before.rows[id]
      {
        var id := items[i].id;
        assert id !in ids[..i];
        rows := rows[id := ClaimedRow(rows[id], leaseNow)];
        assert ids[..i + 1] == ids[..i] + [id];
      }
      assert ids[..|items|] == ids;
    }

    method Settle(it: Item, delivered: bool, now: int)
      modifies this
      ensures Contents() == AfterSettle(old(Contents()), it, delivered, now)
    {
      if it.id !in rows {
        return;
      }
      var r := rows[it.id];
      if !delivered {
        if it.attempts + 1 >= MAX_OUTBOX_ATTEMPTS {
          rows := rows[it.id := r.(status := Dead, nextAttempt := None)];
        } else {
          var backoff := OutboxBackoff(it.attempts + 1);
          rows := rows[it.id := r.(status := Failed, nextAttempt := Some(now + backoff))];
        }
      } else {
        rows := rows[it.id := r.(status := Done, publishedAt := Some(now))];
      }
    }

    // One poll: claim, then deliver and settle in order. outcomes is what the bus
    // answers and when.
    method ProcessBatch(ids: seq<nat>, queryNow: int, leaseNow: int, outcomes: seq<Delivery>)
      requires IsBatch(Contents(), ids, queryNow, BATCH_SIZE) && |outcomes| == |ids|
      modifies this
      ensures Contents() == AfterDeliveries(AfterClaim(old(Contents()), ids, leaseNow),
                                            ItemsOf(old(Contents()), ids, leaseNow), outcomes)
      ensures nextId == old(nextId) && rows.Keys == old(rows).Keys
      ensures forall id :: id in rows && id !in ids ==> rows[id] == old(rows)[id]
      ensures forall i :: 0 <= i < |ids| ==> DeliveredOnce(old(rows)[ids[i]], rows[ids[i]], leaseNow, outcomes[i])
    {
      ghost var before := Contents();
      var items := ClaimBatch(ids, queryNow, leaseNow);
      ghost var claimed := Contents();
      for i := 0 to |items|
        invariant Contents() == AfterDeliveries(claimed, items[..i], outcomes[..i])
      {
        assert items[..i + 1][..i] == items[..i] && outcomes[..i + 1][..i] == outcomes[..i];
        Settle(items[i], outcomes[i].delivered, outcomes[i].at);
      }
      assert items[..|items|] == items && outcomes[..|items|] == outcomes;
      BatchSettlesEach(before, ids, queryNow, leaseNow, outcomes);
    }

    method PurgeProcessedOutboxEvents(now: int, olderThan: int) returns (purged: nat)
      modifies this
      ensures Contents() == AfterPurge(old(Contents()), now - olderThan)
      ensures purged == |old(rows)| - |rows|
      ensures forall id :: id in rows ==> id in old(rows) && rows[id] == old(rows)[id]
      ensures forall id :: id in old(rows) ==>
                (id !in rows <==> old(rows)[id].status == Done && old(rows)[id].publishedAt.Some?
                                  && old(rows)[id].publishedAt.value < now - olderThan)
    {
      var cutoff := now - olderThan;
      var kept := map id | id in rows && !Purgeable(rows[id], cutoff) :: rows[id];
      assert kept.Keys <= rows.Keys;
      CountSubset(kept.Keys, rows.Keys);
      assert |kept| == |kept.Keys| && |rows| == |rows.Keys|;
      purged := |rows| - |kept|;
      rows := kept;
    }
  }
}
