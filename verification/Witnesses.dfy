/** Runs at which a promise of the code fails, concretely: each is a log of two or three commands. */
module Witnesses {
  import opened Domain
  import opened Matching
  import opened BookSpec
  import opened LedgerSpec
  import opened DedupSpec
  import opened Events
  import opened EngineSpec
  import opened Reserves
  import opened PlaceProof
  import opened EngineInv
  import opened Overflow
  import opened LevelBounds
  import opened Runs
  import opened Streams
  import opened Projection
  import opened FirstBatch

  const Market := Pair(SOL, USD)

  const Listing := Envelope(0, 0, ListPair(Market))

  function ZeroBidOf(size: u64): OrderRequest {
    OrderRequest(Market, Limit, Bid, 0, size)
  }

  function PlaceZeroBid(key: nat, size: u64): Envelope {
    Envelope(0, key, Place(ZeroBidOf(size)))
  }

  /** The market is listed, nobody offers and nothing has traded there, and keys from `key` on are unused. */
  ghost predicate Ready(s: State, key: nat) {
    && Inv(s) && Market in s.listed
    && BookAt(s.books, Market).asks == [] && BookAt(s.books, Market).last.None?
    && (forall k: nat :: k in Recent(s.window, 0) ==> k < key)
  }

  lemma LastNWithin(s: seq<nat>, n: nat)
    ensures forall x :: x in LastN(s, n) ==> x in s
  {
  }

  lemma WindowAfterKey(w: Window, key: nat)
    requires forall k: nat :: k in Recent(w, 0) ==> k < key
    ensures Try(w, 0, key).1 && forall k: nat :: k in Recent(Try(w, 0, key).0, 0) ==> k < key + 1
  {
    LastNWithin(Recent(w, 0) + [key], DEDUP_WINDOW);
  }

  lemma ListedIsReady(lim: Limits)
    ensures Ready(StateAfter(lim, [Listing]), 1) && BookAt(StateAfter(lim, [Listing]).books, Market).bids == []
  {
    RunInv(lim, [Listing]);
    RunPush(lim, [], Listing);
    assert [] + [Listing] == [Listing];
    WindowAfterKey(Init.window, 0);
    ApplyWindow(Init, lim, Listing);
  }

  /** A bid at price zero needs no money: with no offer in the market it is admitted and rests whole. */
  lemma ZeroBidRests(s: State, lim: Limits, size: u64)
    requires Inv(s) && Market in s.listed && BookAt(s.books, Market).asks == [] && BookAt(s.books, Market).last.None?
    ensures var r, b := PlaceOrder(s, lim, 0, ZeroBidOf(size)), BookAt(s.books, Market);
            var order := NewOrder(s.nextOrderId, 0, ZeroBidOf(size));
            && r.1.Ok? && r.0.listed == s.listed
            && BookAt(r.0.books, Market) == b.(bids := if size > 0 then Enqueue(b.bids, order) else b.bids)
  {
    var req := ZeroBidOf(size);
    assert Guard(s, lim, 0, req).None?;
    assert QuoteAmount(BookAt(s.books, Market), req) == Ok(0);
    assert Get(s.funds.bal, PayKey(0, req)).available >= 0;
    PlaceOk(s, lim, req);
  }

  lemma PlaceOk(s: State, lim: Limits, req: OrderRequest)
    requires Inv(s) && Guard(s, lim, 0, req).None? && req == ZeroBidOf(req.size) && BookAt(s.books, Market).asks == []
    requires QuoteAmount(BookAt(s.books, Market), req) == Ok(0) && Get(s.funds.bal, PayKey(0, req)).available >= 0
    ensures var r, b := PlaceOrder(s, lim, 0, req), BookAt(s.books, Market);
            && r.1.Ok? && r.0.listed == s.listed && r.0.books == BooksAfter(s, 0, req)
            && PlacementOf(s, 0, req).trades == []
            && PlacementOf(s, 0, req).book ==
               b.(bids := if req.size > 0 then Enqueue(b.bids, NewOrder(s.nextOrderId, 0, req)) else b.bids)
  {
    var f := Reserve(s.funds, PayKey(0, req), 0).0;
    assert Admitted(s, 0, req, f);
    ExecuteSucceeds(s, 0, req, f);
    NoAsksNoMatch(s, req);
  }

  lemma NoAsksNoMatch(s: State, req: OrderRequest)
    requires req == ZeroBidOf(req.size) && BookAt(s.books, Market).asks == []
    ensures PlacementOf(s, 0, req).trades == []
    ensures var b := BookAt(s.books, Market);
            PlacementOf(s, 0, req).book ==
            b.(bids := if req.size > 0 then Enqueue(b.bids, NewOrder(s.nextOrderId, 0, req)) else b.bids)
  {
    var b, taker := BookAt(s.books, Market), NewOrder(s.nextOrderId, 0, req);
    assert Match(Market, taker, []) == Outcome([], [], [], req.size);
    assert taker.(remaining := req.size) == taker;
  }

  lemma ZeroBidApplied(s: State, lim: Limits, key: nat, size: u64)
    requires Ready(s, key)
    ensures var step, b := Apply(s, lim, PlaceZeroBid(key, size)), BookAt(s.books, Market);
            && Ready(step.state, key + 1)
            && step.response.PlaceReply? && step.response.placed.Ok?
            && BookAt(step.state.books, Market).bids ==
               (if size > 0 then Enqueue(b.bids, NewOrder(s.nextOrderId, 0, ZeroBidOf(size))) else b.bids)
  {
    var env := PlaceZeroBid(key, size);
    WindowAfterKey(s.window, key);
    ApplyWindow(s, lim, env);
    ApplyKeepsInv(s, lim, env);
    var s1 := s.(window := Try(s.window, 0, key).0);
    TryKeepsWindow(s.window, 0, key);
    CountersKeepInv(s, s1.window, s.nextSeq);
    ZeroBidRests(s1, lim, size);
  }

  // ----- a level total past u64 -----

  const TooMuch: Log := [Listing, PlaceZeroBid(1, U64_MAX), PlaceZeroBid(2, 1)]

  ghost function BidsAtZero(s: State): nat {
    LevelQty(BookAt(s.books, Market), Bid, 0)
  }

  lemma EnqueueAdds(bids: seq<Order>, id: nat, size: u64)
    ensures OrderTotal(Level(0), if size > 0 then Enqueue(bids, NewOrder(id, 0, ZeroBidOf(size))) else bids) ==
            OrderTotal(Level(0), bids) + size
  {
    EnqueueMembers(bids, NewOrder(id, 0, ZeroBidOf(size)));
  }

  lemma ZeroBidAdds(s: State, lim: Limits, key: nat, size: u64)
    requires Ready(s, key)
    ensures BidsAtZero(Apply(s, lim, PlaceZeroBid(key, size)).state) == BidsAtZero(s) + size
  {
    ZeroBidApplied(s, lim, key, size);
    EnqueueAdds(BookAt(s.books, Market).bids, s.nextOrderId, size);
  }

  lemma TwoBids(lim: Limits, x: u64, y: u64)
    ensures var one, two := [Listing, PlaceZeroBid(1, x)], [Listing, PlaceZeroBid(1, x), PlaceZeroBid(2, y)];
            && Ready(StateAfter(lim, one), 2) && BidsAtZero(StateAfter(lim, one)) == x
            && BidsAtZero(StateAfter(lim, two)) == x + y
            && StateAfter(lim, two) == Apply(StateAfter(lim, one), lim, PlaceZeroBid(2, y)).state
  {
    var one, two := [Listing, PlaceZeroBid(1, x)], [Listing, PlaceZeroBid(1, x), PlaceZeroBid(2, y)];
    OneBid(lim, x);
    assert two == one + [PlaceZeroBid(2, y)];
    RunPush(lim, one, PlaceZeroBid(2, y));
    ZeroBidAdds(StateAfter(lim, one), lim, 2, y);
  }

  lemma OneBid(lim: Limits, x: u64)
    ensures var s, one := StateAfter(lim, [Listing]), StateAfter(lim, [Listing, PlaceZeroBid(1, x)]);
            && Ready(one, 2) && BidsAtZero(one) == x
            && one == Apply(s, lim, PlaceZeroBid(1, x)).state
            && BookAt(one.books, Market).bids == (if x > 0 then [NewOrder(s.nextOrderId, 0, ZeroBidOf(x))] else [])
  {
    var s := StateAfter(lim, [Listing]);
    ListedIsReady(lim);
    assert [Listing, PlaceZeroBid(1, x)] == [Listing] + [PlaceZeroBid(1, x)];
    RunPush(lim, [Listing], PlaceZeroBid(1, x));
    ZeroBidApplied(s, lim, 1, x);
    ZeroBidAdds(s, lim, 1, x);
  }

  /** Two accepted bids at price zero, of the largest size and of one, and the level total is no longer a u64. */
  lemma LevelCanOverflow(lim: Limits)
    ensures var before := StateAfter(lim, TooMuch[..2]);
            && Overflows(before, lim, TooMuch[2])
            && Apply(StateAfter(lim, TooMuch[..1]), lim, TooMuch[1]).response.PlaceReply?
            && Apply(StateAfter(lim, TooMuch[..1]), lim, TooMuch[1]).response.placed.Ok?
            && !LevelsFit(BookAt(StateAfter(lim, TooMuch).books, Market))
  {
    var x: u64, y: u64 := U64_MAX, 1;
    TwoBids(lim, x, y);
    OneBid(lim, x);
    ListedIsReady(lim);
    assert TooMuch[..1] == [Listing] && TooMuch[..2] == [Listing, PlaceZeroBid(1, x)];
    ZeroBidApplied(StateAfter(lim, [Listing]), lim, 1, x);
    ZeroBidApplied(StateAfter(lim, TooMuch[..2]), lim, 2, y);
    assert LevelQty(BookAt(StateAfter(lim, TooMuch).books, Market), Bid, 0) > U64_MAX;
  }

  // ----- a refusal for a self-trade that could not happen -----

  const EmptyAsk := OrderRequest(Market, Limit, Ask, 0, 0)

  lemma EmptyAskMeetsOwn(s: State, lim: Limits, order: Order)
    requires lim.preventSelfTrade && Market in s.listed && BookAt(s.books, Market).last.None?
    requires BookAt(s.books, Market).bids == [order] && order.account == 0
    ensures Guard(s, lim, 0, EmptyAsk) == Some(SelfTrade) && PlacementOf(s, 0, EmptyAsk).trades == []
  {
    var taker := NewOrder(s.nextOrderId, 0, EmptyAsk);
    assert Match(Market, taker, [order]).trades == [];
    assert MeetsOwn(taker, [order]);
  }

  lemma RefusedBy(s: State, lim: Limits, env: Envelope, why: RejectReason)
    requires env.command.Place? && Try(s.window, env.account, env.key).1
    requires Guard(s.(window := Try(s.window, env.account, env.key).0), lim, env.account, env.command.order) == Some(why)
    ensures Apply(s, lim, env).response == PlaceReply(Err(why))
  {
  }

  /** An order of size zero can trade nothing, and is refused as a self-trade all the same. */
  lemma SizeZeroIsRefused(lim: Limits)
    requires lim.preventSelfTrade
    ensures var s := StateAfter(lim, [Listing, PlaceZeroBid(1, 1)]);
            && Apply(s, lim, Envelope(0, 2, Place(EmptyAsk))).response == PlaceReply(Err(SelfTrade))
            && PlacementOf(s, 0, EmptyAsk).trades == []
  {
    OneBid(lim, 1);
    var s := StateAfter(lim, [Listing, PlaceZeroBid(1, 1)]);
    RefuseEmptyAsk(s, lim, NewOrder(StateAfter(lim, [Listing]).nextOrderId, 0, ZeroBidOf(1)));
  }

  lemma RefuseEmptyAsk(s: State, lim: Limits, order: Order)
    requires lim.preventSelfTrade && Ready(s, 2) && BookAt(s.books, Market).bids == [order] && order.account == 0
    ensures Apply(s, lim, Envelope(0, 2, Place(EmptyAsk))).response == PlaceReply(Err(SelfTrade))
    ensures PlacementOf(s, 0, EmptyAsk).trades == []
  {
    WindowAfterKey(s.window, 2);
    EmptyAskMeetsOwn(s, lim, order);
    EmptyAskMeetsOwn(s.(window := Try(s.window, 0, 2).0), lim, order);
    RefusedBy(s, lim, Envelope(0, 2, Place(EmptyAsk)), SelfTrade);
  }

  // ----- a client that misses the first level -----

  const FirstLevel: Log := [Listing, PlaceZeroBid(1, 1)]

  lemma BidIsFirst(lim: Limits)
    ensures FirstToPublish(lim, FirstLevel, 1)
  {
    assert FirstLevel[..1] == [Listing];
    ListedIsReady(lim);
    ListingIsQuiet(lim);
    ZeroBidPublishes(StateAfter(lim, [Listing]), lim, 1, 1);
  }

  lemma ListingIsQuiet(lim: Limits)
    ensures Batches(lim, [Listing]) == []
  {
    RunPush(lim, [], Listing);
    assert [] + [Listing] == [Listing];
  }

  lemma ZeroBidPublishes(s: State, lim: Limits, key: nat, size: u64)
    requires Ready(s, key)
    ensures Apply(s, lim, PlaceZeroBid(key, size)).batch.Some?
  {
    ZeroBidApplied(s, lim, key, size);
    WindowAfterKey(s.window, key);
  }

  lemma PublishAll(batches: seq<Batch>) returns (es: seq<EventBatch>)
    ensures |es| == |batches| && forall i :: 0 <= i < |es| ==> Publishes(es[i], batches[i])
  {
    es := [];
    for i := 0 to |batches|
      invariant |es| == i && forall j :: 0 <= j < i ==> Publishes(es[j], batches[j])
    {
      var e := Publish(batches[i]);
      es := es + [e];
    }
  }

  /** List a market, bid at price zero: a client that read a fresh snapshot never sees that level. */
  lemma FreshClientCanMiss(lim: Limits) returns (es: seq<EventBatch>)
    ensures Published(es, lim, FirstLevel)
    ensures exists k, n :: 1 <= n <= |es| && !RightAt(es, n, k)
  {
    es := PublishAll(Batches(lim, FirstLevel));
    BidIsFirst(lim);
    FreshSnapshotOverRuns(es, lim, FirstLevel, 1);
  }
}
