/** The claim query as SQL runs it, over text columns, is the claim over instants. */
module TextClaim {
  import opened Wrappers
  import opened Queue
  import opened Timestamps

  /** The columns the claim query reads. */
  datatype TextRow = TextRow(status: Status, notBefore: Option<string>, enqueuedAt: string)

  /** `text` is the stored form of `at`. */
  ghost predicate Stores(text: string, at: Instant) {
    exists s :: Valid(s) && text == IsoFormat(s) && at == Micros(s)
  }

  ghost predicate Represents(row: TextRow, t: Ticket) {
    && row.status == t.status
    && row.notBefore.Some? == t.notBefore.Some?
    && (row.notBefore.Some? ==> Stores(row.notBefore.value, t.notBefore.value))
    && Stores(row.enqueuedAt, t.enqueuedAt)
  }

  ghost predicate RepresentsAll(rows: map<Id, TextRow>, ts: Tickets) {
    rows.Keys == ts.Keys && forall id | id in ts :: Represents(rows[id], ts[id])
  }

  predicate TextDue(row: TextRow, now: string) {
    row.status == Pending
    || (row.status in {Deferred, Retrying} && row.notBefore.Some? && TextAtMost(row.notBefore.value, now))
  }

  function TextDueIds(rows: map<Id, TextRow>, now: string): set<Id> {
    set id | id in rows && TextDue(rows[id], now)
  }

  /** ORDER BY enqueued_at ASC, id ASC on the text column. */
  predicate TextFirst(rows: map<Id, TextRow>, ids: set<Id>, id: Id)
    requires ids <= rows.Keys
  {
    id in ids && forall j | j in ids ::
      TextBefore(rows[id].enqueuedAt, rows[j].enqueuedAt) || (rows[id].enqueuedAt == rows[j].enqueuedAt && id <= j)
  }

  lemma {:induction false} StoredOrder(a: string, b: string, x: Instant, y: Instant)
    requires Stores(a, x) && Stores(b, y)
    ensures TextBefore(a, b) <==> x < y
    ensures a == b <==> x == y
  {
    var s :| Valid(s) && a == IsoFormat(s) && x == Micros(s);
    var t :| Valid(t) && b == IsoFormat(t) && y == Micros(t);
    TextOrderIsChronological(s, t);
  }

  lemma {:induction false} RowOrder(rows: map<Id, TextRow>, ts: Tickets, i: Id, j: Id)
    requires RepresentsAll(rows, ts) && i in rows && j in rows
    ensures NoLater(ts, i, j) <==>
              TextBefore(rows[i].enqueuedAt, rows[j].enqueuedAt) || (rows[i].enqueuedAt == rows[j].enqueuedAt && i <= j)
  {
    hide Stores;
    StoredOrder(rows[i].enqueuedAt, rows[j].enqueuedAt, ts[i].enqueuedAt, ts[j].enqueuedAt);
  }

  /** Text finds exactly the tickets whose time has come, and puts the same one first. */
  lemma {:induction false} TextClaimIsClaim(rows: map<Id, TextRow>, ts: Tickets, nowText: string, now: Instant)
    requires RepresentsAll(rows, ts) && Stores(nowText, now)
    ensures TextDueIds(rows, nowText) == DueIds(ts, now)
    ensures forall id :: TextFirst(rows, TextDueIds(rows, nowText), id) <==> IsOldest(ts, DueIds(ts, now), id)
  {
    hide Stores, TextBefore, NoLater;
    forall id | id in rows
      ensures TextDue(rows[id], nowText) <==> Due(ts[id], now)
    {
      if rows[id].notBefore.Some? {
        StoredOrder(rows[id].notBefore.value, nowText, ts[id].notBefore.value, now);
      }
    }
    forall i, j | i in rows && j in rows
      ensures NoLater(ts, i, j) <==>
                TextBefore(rows[i].enqueuedAt, rows[j].enqueuedAt)
                    || (rows[i].enqueuedAt == rows[j].enqueuedAt && i <= j)
    {
      RowOrder(rows, ts, i, j);
    }
  }
}
