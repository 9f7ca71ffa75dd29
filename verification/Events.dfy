/** The event stream: concrete batches as they are published, and what a batch says up to ordering. */
module Events {
  import opened Domain
  import opened Matching
  import opened LedgerSpec
  import opened Listing

  datatype Event =
    | TradeEvent(trade: Trade)
    | BalanceChanged(key: Key, balance: Balance)
    | OrderAccepted(acceptedId: nat, account: AccountId, pair: Pair, side: Side,
                    orderType: OrderType, price: nat, size: nat)
    | OrderCancelled(cancelledId: nat)
    | OrderUpdated(market: Pair, update: OrderUpdate)
    | BookDelta(level: LevelKey, qty: nat)

  datatype LevelKey = LevelKey(pair: Pair, side: Side, price: nat)

  /** One `events` entry: everything one command did. */
  datatype EventBatch = EventBatch(seqNo: nat, events: seq<Event>)

  /**
    A batch up to the order in which hash sets are drained: the ordered core (accept, trades,
    updates), the new quantity of every changed level, the new value of every changed balance.
   */
  datatype Batch = Batch(seqNo: nat, core: seq<Event>, deltas: map<LevelKey, nat>, balances: map<Key, Balance>)

  function DeltaEvents(s: seq<(LevelKey, nat)>): seq<Event> {
    seq(|s|, i requires 0 <= i < |s| => BookDelta(s[i].0, s[i].1))
  }

  function BalanceEvents(s: seq<(Key, Balance)>): seq<Event> {
    seq(|s|, i requires 0 <= i < |s| => BalanceChanged(s[i].0, s[i].1))
  }

  /** `e` publishes `b`, with its deltas and its balances in some order. */
  ghost predicate PublishedAs(e: EventBatch, b: Batch, deltas: seq<(LevelKey, nat)>, balances: seq<(Key, Balance)>) {
    && e.seqNo == b.seqNo
    && Lists(deltas, b.deltas)
    && Lists(balances, b.balances)
    && e.events == b.core + DeltaEvents(deltas) + BalanceEvents(balances)
  }

  ghost predicate Publishes(e: EventBatch, b: Batch) {
    exists deltas, balances :: PublishedAs(e, b, deltas, balances)
  }

  lemma Publish(b: Batch) returns (e: EventBatch)
    ensures Publishes(e, b)
  {
    var deltas := ListingOf(b.deltas);
    var balances := ListingOf(b.balances);
    e := EventBatch(b.seqNo, b.core + DeltaEvents(deltas) + BalanceEvents(balances));
    assert PublishedAs(e, b, deltas, balances);
  }

  // ----- sequence numbers -----

  function BatchNumbers(batches: seq<Batch>): seq<nat> {
    seq(|batches|, i requires 0 <= i < |batches| => batches[i].seqNo)
  }

  function EntryNumbers(es: seq<EventBatch>): seq<nat> {
    seq(|es|, i requires 0 <= i < |es| => es[i].seqNo)
  }

  ghost predicate Increasing(ns: seq<nat>) {
    forall i, j :: 0 <= i < j < |ns| ==> ns[i] < ns[j]
  }

  lemma IncreasingInit(es: seq<EventBatch>)
    requires es != [] && Increasing(EntryNumbers(es))
    ensures Increasing(EntryNumbers(es[..|es| - 1]))
    ensures forall i :: 0 <= i < |es| - 1 ==> es[i].seqNo < es[|es| - 1].seqNo
  {
    var ns := EntryNumbers(es);
    assert EntryNumbers(es[..|es| - 1]) == ns[..|es| - 1];
    forall i | 0 <= i < |es| - 1 ensures es[i].seqNo < es[|es| - 1].seqNo {
      assert ns[i] < ns[|es| - 1];
    }
  }

  lemma {:induction false} AtLeastIndex(ns: seq<nat>, i: nat)
    requires Increasing(ns) && i < |ns|
    ensures ns[i] >= i
  {
    if i > 0 {
      AtLeastIndex(ns, i - 1);
    }
  }

  /** Increasing numbers below `n` that leave none out are 0, 1, 2 and so on. */
  lemma {:induction false} NumberedInOrder(ns: seq<nat>, n: nat, i: nat)
    requires Increasing(ns) && i < |ns|
    requires forall k :: 0 <= k < n ==> k in ns
    requires forall j :: 0 <= j < |ns| ==> ns[j] < n
    ensures ns[i] == i
  {
    AtLeastIndex(ns, i);
    if ns[i] > i {
      assert i in ns;
      var j :| 0 <= j < |ns| && ns[j] == i;
      if j < i {
        NumberedInOrder(ns, n, j);
      }
    }
  }
}
