/** Which orders a placement takes out of a book, and how the id-to-market route follows. */
module Routing {
  import opened Domain
  import opened Matching
  import opened BookSpec
  import opened EngineSpec
  import opened Reserves

  ghost predicate RoutedAt(route: map<nat, Pair>, books: map<Pair, BookView>, id: nat, p: Pair) {
    (id in route && route[id] == p) <==> (p in books && id in BookIds(books[p]))
  }

  /** `order_pair` names the market of every resting order and of nothing else. */
  ghost predicate Routed(route: map<nat, Pair>, books: map<Pair, BookView>) {
    forall id: nat, p: Pair :: RoutedAt(route, books, id, p)
  }

  // ----- who leaves the book -----

  function MakerIds(trades: seq<Trade>): set<nat> {
    set t | t in trades :: t.makerId
  }

  lemma MakerIdsPrepend(t: Trade, trades: seq<Trade>)
    ensures MakerIds([t] + trades) == {t.makerId} + MakerIds(trades)
  {
    assert forall x :: x in [t] + trades <==> x == t || x in trades;
  }

  lemma MakerIdsPush(trades: seq<Trade>, t: Trade)
    ensures MakerIds(trades + [t]) == MakerIds(trades) + {t.makerId}
  {
    assert forall x :: x in trades + [t] <==> x in trades || x == t;
  }

  lemma AfterFillIds(opp: seq<Order>, maker: Order)
    requires opp != [] && maker.id == opp[0].id
    ensures Ids(AfterFill(maker, opp[1..])) <= Ids(opp) <= Ids(AfterFill(maker, opp[1..])) + {maker.id}
  {
    var opp' := AfterFill(maker, opp[1..]);
    forall i | 0 <= i < |opp'| ensures opp'[i].id in Ids(opp) {
      assert opp'[i].id == opp[if maker.remaining == 0 then i + 1 else i].id;
    }
    forall i | 0 < i < |opp| ensures opp[i].id in Ids(opp') {
      assert opp[i].id == opp'[if maker.remaining == 0 then i - 1 else i].id;
    }
  }

  /** Makers were resting, and whoever is gone from the side was a maker. */
  lemma {:induction false} LeaversTraded(pair: Pair, taker: Order, opp: seq<Order>)
    ensures var o := Match(pair, taker, opp);
            Ids(opp) <= Ids(o.rest) + MakerIds(o.trades) && MakerIds(o.trades) <= Ids(opp)
    decreases taker.remaining, |opp|
  {
    if !Stops(taker, opp) {
      var t := TradeOf(pair, taker, opp[0]);
      var maker := Reduce(opp[0], t.qty);
      var opp' := AfterFill(maker, opp[1..]);
      LeaversTraded(pair, Reduce(taker, t.qty), opp');
      MakerIdsPrepend(t, Match(pair, Reduce(taker, t.qty), opp').trades);
      AfterFillIds(opp, maker);
      assert opp[0].id in Ids(opp);
    }
  }

  lemma OwnSideIds(own: seq<Order>, taker: Order, remaining: nat)
    requires taker.id !in Ids(own)
    ensures Ids(OwnAfter(own, taker, remaining)) == Ids(own) + (if Rests(taker, remaining) then {taker.id} else {})
  {
    EnqueueMembers(own, taker.(remaining := remaining));
  }

  lemma OppositeSideIds(pair: Pair, taker: Order, opp: seq<Order>)
    requires Alive(opp) && DistinctIds(opp)
    ensures var o := Match(pair, taker, opp);
            && Ids(o.rest) <= Ids(opp) <= Ids(o.rest) + MakerIds(o.trades)
            && MakerIds(o.trades) <= Ids(opp)
  {
    LeaversTraded(pair, taker, opp);
    var k := RestIsTail(pair, taker, opp);
    TailIds(Match(pair, taker, opp).rest, opp, k);
  }

  lemma PlacementIds(b: BookView, pair: Pair, taker: Order)
    requires BookInv(b) && taker.id !in BookIds(b)
    ensures var p := AddOrder(b, pair, taker);
            && BookIds(p.book) <= BookIds(b) + {taker.id}
            && BookIds(b) <= BookIds(p.book) + MakerIds(p.trades)
            && (taker.id in BookIds(p.book) <==> Rests(taker, p.remaining))
            && taker.id !in MakerIds(p.trades)
            && MakerIds(p.trades) <= BookIds(b)
  {
    BookInvFrom(b, taker.side);
    var own, opp := b.Resting(taker.side), b.Resting(taker.side.Opposite());
    var o := Match(pair, taker, opp);
    assert BookIds(b) == Ids(own) + Ids(opp);
    OwnSideIds(own, taker, o.remaining);
    OppositeSideIds(pair, taker, opp);
    assert BookIds(AddOrder(b, pair, taker).book) == Ids(OwnAfter(own, taker, o.remaining)) + Ids(o.rest);
  }

  /** The new id if it rested, minus makers that are gone. */
  function RouteAfter(route: map<nat, Pair>, pair: Pair, id: nat, resting: set<nat>, makers: set<nat>): map<nat, Pair> {
    (if id in resting then route[id := pair] else route) - (makers - resting)
  }

  lemma RoutedAfterPlace(
    route: map<nat, Pair>, books: map<Pair, BookView>, nextId: nat, pair: Pair, b': BookView, makers: set<nat>)
    requires Routed(route, books) && BooksInv(books, nextId)
    requires BookIds(b') <= BookIds(BookAt(books, pair)) + {nextId}
    requires BookIds(BookAt(books, pair)) <= BookIds(b') + makers
    requires makers <= BookIds(BookAt(books, pair))
    ensures Routed(RouteAfter(route, pair, nextId, BookIds(b'), makers), books[pair := b'])
  {
    var route', books' := RouteAfter(route, pair, nextId, BookIds(b'), makers), books[pair := b'];
    forall x: nat, p: Pair ensures RoutedAt(route', books', x, p) {
      RoutedAfterPlaceAt(route, books, nextId, pair, b', makers, x, p);
    }
  }

  lemma RoutedAfterPlaceAt(
    route: map<nat, Pair>, books: map<Pair, BookView>, nextId: nat, pair: Pair, b': BookView, makers: set<nat>,
    x: nat, p: Pair)
    requires RoutedAt(route, books, x, p) && RoutedAt(route, books, x, pair)
    requires forall id :: p in books && id in BookIds(books[p]) ==> id < nextId
    requires BookIds(b') <= BookIds(BookAt(books, pair)) + {nextId}
    requires BookIds(BookAt(books, pair)) <= BookIds(b') + makers
    requires makers <= BookIds(BookAt(books, pair))
    ensures RoutedAt(RouteAfter(route, pair, nextId, BookIds(b'), makers), books[pair := b'], x, p)
  {
    assert BookIds(EmptyBook) == {};
  }

  lemma RoutedAfterCancel(route: map<nat, Pair>, books: map<Pair, BookView>, nextId: nat, pair: Pair, o: Order)
    requires Routed(route, books) && BooksInv(books, nextId) && pair in books && o in books[pair].Resting(o.side)
    ensures Routed(route - {o.id}, books[pair := Drop(books[pair], o)])
  {
    DropKeepsInv(books[pair], o);
    IdsOfMembers(books[pair].Resting(o.side));
    assert o.id in BookIds(books[pair]);
    var books' := books[pair := Drop(books[pair], o)];
    forall x: nat, p: Pair ensures RoutedAt(route - {o.id}, books', x, p) {
      RoutedAfterDropAt(route, books, pair, books'[pair], o.id, x, p);
    }
  }

  lemma RoutedAfterDropAt(
    route: map<nat, Pair>, books: map<Pair, BookView>, pair: Pair, b': BookView, id: nat, x: nat, p: Pair)
    requires RoutedAt(route, books, x, p) && RoutedAt(route, books, id, pair)
    requires pair in books && id in BookIds(books[pair]) && BookIds(b') == BookIds(books[pair]) - {id}
    requires p in books && p != pair ==> BookIds(books[p]) !! BookIds(books[pair])
    ensures RoutedAt(route - {id}, books[pair := b'], x, p)
  {
  }
}
