/** The database writer's tables: trades, candles, balances and orders, upserted event by event. */
module Tables {
  import opened Domain
  import opened Matching
  import opened LedgerSpec
  import opened Events
  import opened Lifecycle
  import opened Streams
  import opened Candles

  /** `<seq>:<index>` of the event: the key that makes a redelivered trade recognisable. */
  type EventId = (nat, nat)

  /** One event as it reaches the writer; `millis` is the clock at that moment. */
  datatype Delivery = Delivery(id: EventId, event: Event, millis: nat)

  function EventsOf(ds: seq<Delivery>): seq<Event> {
    seq(|ds|, i requires 0 <= i < |ds| => ds[i].event)
  }

  function PrintOf(d: Delivery): Print
    requires d.event.TradeEvent?
  {
    Print(d.event.trade, d.millis)
  }

  ghost function TradeIds(ds: seq<Delivery>): set<EventId> {
    set i | 0 <= i < |ds| && ds[i].event.TradeEvent? :: ds[i].id
  }

  /** The trades actually inserted, in order: those whose id was not there yet. */
  ghost function Inserted(seen: set<EventId>, ds: seq<Delivery>): seq<Print> {
    if ds == [] then []
    else
      var init, last := ds[..|ds| - 1], ds[|ds| - 1];
      if last.event.TradeEvent? && last.id !in seen + TradeIds(init) then Inserted(seen, init) + [PrintOf(last)]
      else Inserted(seen, init)
  }

  /** The row of one trade: whatever was inserted first stays. */
  function FirstPrint(row: Option<Print>, ds: seq<Delivery>, id: EventId): Option<Print> {
    if ds == [] then row
    else
      var before, last := FirstPrint(row, ds[..|ds| - 1], id), ds[|ds| - 1];
      if before.None? && last.event.TradeEvent? && last.id == id then Some(PrintOf(last)) else before
  }

  // ----- the tables -----

  datatype Rows = Rows(
    trades: map<EventId, Print>, candles: map<CandleKey, Candle>, balances: map<Key, Balance>, orders: map<nat, OrderRow>)

  const NoRows := Rows(map[], map[], map[], map[])

  function At<K, V>(m: map<K, V>, k: K): Option<V> {
    if k in m then Some(m[k]) else None
  }

  function BalanceAt(balances: map<Key, Balance>, k: Key): Value {
    if k in balances then Owned(balances[k]) else Absent
  }

  /** Everything the tables hold after these deliveries, table by table and row by row. */
  ghost predicate Delivered(before: Rows, after: Rows, ds: seq<Delivery>) {
    && after.trades.Keys == before.trades.Keys + TradeIds(ds)
    && (forall id :: At(after.trades, id) == FirstPrint(At(before.trades, id), ds, id))
    && (forall k: CandleKey :: k.width in INTERVAL_WIDTHS ==>
          At(after.candles, k) == Rolled(At(before.candles, k), Inserted(before.trades.Keys, ds), k))
    && (forall k :: BalanceAt(after.balances, k) == LastWrite(BalanceAt(before.balances, k), EventsOf(ds), BalanceCell(k)))
    && (forall id :: At(after.orders, id) == RowAfter(At(before.orders, id), EventsOf(ds), id))
  }

  class Database {
    var rows: Rows

    constructor ()
      ensures rows == NoRows
    {
      rows := NoRows;
    }

    /** One statement, six rows: the candle of every width that this trade falls in. */
    method UpsertCandles(p: Print)
      modifies this
      ensures rows == old(rows).(candles := rows.candles)
      ensures forall k: CandleKey :: k.width in INTERVAL_WIDTHS ==>
                At(rows.candles, k) ==
                if Falls(p, k) then Some(Upsert(At(old(rows.candles), k), p)) else At(old(rows.candles), k)
    {
      var candles := rows.candles;
      ghost var before := candles;
      for i := 0 to |INTERVAL_WIDTHS|
        invariant rows == old(rows)
        invariant forall k: CandleKey :: k.width in INTERVAL_WIDTHS ==>
                    At(candles, k) ==
                    if Falls(p, k) && k.width in INTERVAL_WIDTHS[..i] then Some(Upsert(At(before, k), p)) else At(before, k)
      {
        var width := INTERVAL_WIDTHS[i];
        WidthsDiffer(i);
        var k := CandleKey(p.trade.pair, width, BucketOf(p.Seconds(), width));
        candles := candles[k := Upsert(At(candles, k), p)];
        assert INTERVAL_WIDTHS[..i + 1] == INTERVAL_WIDTHS[..i] + [width];
      }
      assert INTERVAL_WIDTHS[..|INTERVAL_WIDTHS|] == INTERVAL_WIDTHS;
      rows := rows.(candles := candles);
    }

    method ApplyTrade(id: EventId, trade: Trade, millis: nat)
      modifies this
      ensures var d := Delivery(id, TradeEvent(trade), millis);
              && rows == old(rows).(trades := rows.trades, candles := rows.candles)
              && (if id in old(rows.trades) then rows == old(rows)
                  else
                    && rows.trades == old(rows.trades)[id := Print(trade, millis)]
                    && forall k: CandleKey :: k.width in INTERVAL_WIDTHS ==>
                         At(rows.candles, k) ==
                         if Falls(PrintOf(d), k) then Some(Upsert(At(old(rows.candles), k), PrintOf(d)))
                         else At(old(rows.candles), k))
    {
      if id !in rows.trades {
        rows := rows.(trades := rows.trades[id := Print(trade, millis)]);
        UpsertCandles(Print(trade, millis));
      }
    }

    method ApplyOrderEvent(e: Event)
      requires e.OrderAccepted? || e.OrderCancelled? || e.OrderUpdated?
      modifies this
      ensures rows == old(rows).(orders := rows.orders)
      ensures var before := old(rows.orders);
              match e
              case OrderAccepted(id, a, pair, side, orderType, price, size) =>
                rows.orders == if id in before then before
                               else before[id := OrderRow(a, pair, side, orderType, price, size, 0, Open)]
              case OrderCancelled(id) =>
                rows.orders == if id in before then before[id := before[id].(status := Cancelled)] else before
              case OrderUpdated(_, u) =>
                rows.orders == if u.orderId in before
                               then before[u.orderId := before[u.orderId].(filled := u.filled, status := u.status)]
                               else before
      ensures forall id :: At(rows.orders, id) == RowStep(At(old(rows.orders), id), e, id)
    {
      var orders := rows.orders;
      match e {
        case OrderAccepted(id, a, pair, side, orderType, price, size) =>
          if id !in orders {
            orders := orders[id := OrderRow(a, pair, side, orderType, price, size, 0, Open)];
          }
        case OrderCancelled(id) =>
          if id in orders {
            orders := orders[id := orders[id].(status := Cancelled)];
          }
        case OrderUpdated(_, u) =>
          if u.orderId in orders {
            orders := orders[u.orderId := orders[u.orderId].(filled := u.filled, status := u.status)];
          }
      }
      rows := rows.(orders := orders);
    }

    /** Write one event's rows. */
    method ApplyEvent(d: Delivery)
      modifies this
      ensures Delivered(old(rows), rows, [d])
    {
      ghost var before := rows;
      match d.event {
        case TradeEvent(t) => ApplyTrade(d.id, t, d.millis);
        case BalanceChanged(k, b) => rows := rows.(balances := rows.balances[k := b]);
        case OrderAccepted(_, _, _, _, _, _, _) => ApplyOrderEvent(d.event);
        case OrderCancelled(_) => ApplyOrderEvent(d.event);
        case OrderUpdated(_, _) => ApplyOrderEvent(d.event);
        case BookDelta(_, _) =>
      }
      DeliverOne(before, rows, d);
    }

    /** Write a whole reply, event by event. */
    method ApplyAll(ds: seq<Delivery>)
      modifies this
      ensures Delivered(old(rows), rows, ds)
    {
      ghost var before := rows;
      NothingDelivered(rows);
      for i := 0 to |ds|
        invariant Delivered(before, rows, ds[..i])
      {
        ghost var middle := rows;
        ApplyEvent(ds[i]);
        DeliveredThen(before, middle, rows, ds[..i], ds[i]);
        assert ds[..i + 1] == ds[..i] + [ds[i]];
      }
      assert ds[..|ds|] == ds;
    }
  }

  lemma WidthsDiffer(i: nat)
    requires i < |INTERVAL_WIDTHS|
    ensures INTERVAL_WIDTHS[i] !in INTERVAL_WIDTHS[..i] && INTERVAL_WIDTHS[i] > 0
  {
  }

  lemma NothingDelivered(rows: Rows)
    ensures Delivered(rows, rows, [])
  {
    assert EventsOf([]) == [];
  }

  /** What each table does on one event. */
  ghost predicate OneStep(before: Rows, after: Rows, d: Delivery) {
    && (if d.event.TradeEvent? && d.id !in before.trades then
          && after.trades == before.trades[d.id := PrintOf(d)]
          && forall k: CandleKey :: k.width in INTERVAL_WIDTHS ==>
               At(after.candles, k) ==
               if Falls(PrintOf(d), k) then Some(Upsert(At(before.candles, k), PrintOf(d))) else At(before.candles, k)
        else after.trades == before.trades && after.candles == before.candles)
    && (if d.event.BalanceChanged? then after.balances == before.balances[d.event.key := d.event.balance]
        else after.balances == before.balances)
    && (forall id :: At(after.orders, id) == RowStep(At(before.orders, id), d.event, id))
  }

  lemma DeliverOne(before: Rows, after: Rows, d: Delivery)
    requires OneStep(before, after, d)
    ensures Delivered(before, after, [d])
  {
    OneEvent(d);
    InsertedOne(before.trades.Keys, d);
    forall k: CandleKey | k.width in INTERVAL_WIDTHS
      ensures At(after.candles, k) == Rolled(At(before.candles, k), Inserted(before.trades.Keys, [d]), k)
    {
      OneCandle(before, after, d, k);
    }
    forall id ensures At(after.trades, id) == FirstPrint(At(before.trades, id), [d], id) {
      OnePrint(At(before.trades, id), d, id);
    }
    forall k ensures BalanceAt(after.balances, k) == LastWrite(BalanceAt(before.balances, k), [d.event], BalanceCell(k)) {
      OneWrite(BalanceAt(before.balances, k), d.event, BalanceCell(k));
    }
    forall id ensures At(after.orders, id) == RowAfter(At(before.orders, id), [d.event], id) {
      OneRow(At(before.orders, id), d.event, id);
    }
  }

  lemma OneEvent(d: Delivery)
    ensures EventsOf([d]) == [d.event]
  {
  }

  lemma OneCandle(before: Rows, after: Rows, d: Delivery, k: CandleKey)
    requires OneStep(before, after, d) && k.width in INTERVAL_WIDTHS
    ensures At(after.candles, k) == Rolled(At(before.candles, k), Inserted(before.trades.Keys, [d]), k)
  {
    InsertedOne(before.trades.Keys, d);
    if d.event.TradeEvent? && d.id !in before.trades {
      assert [PrintOf(d)][..0] == [];
    }
  }

  lemma OnePrint(row: Option<Print>, d: Delivery, id: EventId)
    ensures FirstPrint(row, [d], id) ==
            if row.None? && d.event.TradeEvent? && d.id == id then Some(PrintOf(d)) else row
  {
    assert [d][..0] == [];
  }

  lemma OneWrite(v: Value, e: Event, c: Cell)
    ensures LastWrite(v, [e], c) == if Written(e, c).Some? then Written(e, c).value else v
  {
    assert [e][..0] == [];
  }

  lemma OneRow(row: Option<OrderRow>, e: Event, id: nat)
    ensures RowAfter(row, [e], id) == RowStep(row, e, id)
  {
    assert [e][1..] == [];
  }

  lemma InsertedOne(seen: set<EventId>, d: Delivery)
    ensures Inserted(seen, [d]) == if d.event.TradeEvent? && d.id !in seen then [PrintOf(d)] else []
    ensures TradeIds([d]) == if d.event.TradeEvent? then {d.id} else {}
  {
    var ds := [d];
    assert ds[..0] == [];
    assert TradeIds(ds[..0]) == {};
    assert d.event.TradeEvent? ==> ds[0].id in TradeIds(ds);
  }

  /** Deliveries compose. */
  lemma DeliveredThen(a: Rows, b: Rows, c: Rows, ds: seq<Delivery>, d: Delivery)
    requires Delivered(a, b, ds) && Delivered(b, c, [d])
    ensures Delivered(a, c, ds + [d])
  {
    var more := ds + [d];
    assert more[..|ds|] == ds && [d][..0] == [];
    assert EventsOf(more) == EventsOf(ds) + EventsOf([d]);
    TradeIdsPush(ds, d);
    InsertedOne(b.trades.Keys, d);
    InsertedPush(a.trades.Keys, ds, d);
    forall k: CandleKey | k.width in INTERVAL_WIDTHS
      ensures At(c.candles, k) == Rolled(At(a.candles, k), Inserted(a.trades.Keys, more), k)
    {
      RolledConcat(At(a.candles, k), Inserted(a.trades.Keys, ds), Inserted(b.trades.Keys, [d]), k);
    }
    forall k ensures BalanceAt(c.balances, k) == LastWrite(BalanceAt(a.balances, k), EventsOf(more), BalanceCell(k)) {
      LastWriteConcat(BalanceAt(a.balances, k), EventsOf(ds), EventsOf([d]), BalanceCell(k));
    }
    forall id ensures At(c.orders, id) == RowAfter(At(a.orders, id), EventsOf(more), id) {
      RowConcat(At(a.orders, id), EventsOf(ds), EventsOf([d]), id);
    }
    forall id ensures At(c.trades, id) == FirstPrint(At(a.trades, id), more, id) {
      FirstPrintPush(At(a.trades, id), ds, d, id);
    }
  }

  lemma FirstPrintPush(row: Option<Print>, ds: seq<Delivery>, d: Delivery, id: EventId)
    ensures FirstPrint(row, ds + [d], id) == FirstPrint(FirstPrint(row, ds, id), [d], id)
  {
    assert (ds + [d])[..|ds|] == ds;
    var one := [d];
    assert one[..|one| - 1] == [];
    assert FirstPrint(FirstPrint(row, ds, id), one[..|one| - 1], id) == FirstPrint(row, ds, id);
  }

  lemma TradeIdsPush(ds: seq<Delivery>, d: Delivery)
    ensures TradeIds(ds + [d]) == TradeIds(ds) + TradeIds([d])
  {
    var more := ds + [d];
    forall id | id in TradeIds(ds) ensures id in TradeIds(more) {
      var i :| 0 <= i < |ds| && ds[i].event.TradeEvent? && ds[i].id == id;
      assert more[i] == ds[i];
    }
    forall id | id in TradeIds([d]) ensures id in TradeIds(more) {
      assert more[|ds|] == d;
    }
  }

  lemma InsertedPush(seen: set<EventId>, ds: seq<Delivery>, d: Delivery)
    ensures Inserted(seen, ds + [d]) == Inserted(seen, ds) + Inserted(seen + TradeIds(ds), [d])
  {
    assert (ds + [d])[..|ds|] == ds;
    InsertedOne(seen + TradeIds(ds), d);
  }
}
