/**
  Price levels: the sorted map of FIFO queues that the book really keeps, and its reading
  as one flat sequence, best level first.
 */
module Levels {
  import opened Domain
  import opened Matching
  import opened BookSpec

  type LevelMap = map<nat, seq<Order>>

  datatype Location = Location(owner: AccountId, side: Side, price: nat)

  ghost predicate IsBest(keys: set<nat>, side: Side, p: nat) {
    p in keys && forall q :: q in keys ==> q == p || Better(side, p, q)
  }

  lemma {:induction false} BestExists(keys: set<nat>, side: Side)
    requires keys != {}
    ensures exists p :: IsBest(keys, side, p)
  {
    var x :| x in keys;
    if keys == {x} {
      assert IsBest(keys, side, x);
    } else {
      BestExists(keys - {x}, side);
      var p :| IsBest(keys - {x}, side, p);
      assert keys == (keys - {x}) + {x};
      if Better(side, x, p) {
        assert IsBest(keys, side, x);
      } else {
        assert IsBest(keys, side, p);
      }
    }
  }

  /** Lowest ask or highest bid: the first or last key of the sorted map. */
  function Best(keys: set<nat>, side: Side): (p: nat)
    requires keys != {}
    ensures IsBest(keys, side, p)
  {
    BestExists(keys, side);
    var p :| p in keys && forall q :: q in keys ==> q == p || Better(side, p, q);
    p
  }

  ghost predicate LevelsOk(levels: LevelMap, side: Side) {
    forall p :: p in levels ==> levels[p] != [] && QueueOk(levels[p], p, side)
  }

  ghost predicate QueueOk(q: seq<Order>, price: nat, side: Side) {
    forall i :: 0 <= i < |q| ==> q[i].price == price && q[i].side == side
  }

  ghost function Flatten(levels: LevelMap, side: Side): seq<Order>
    decreases |levels|
  {
    if levels == map[] then []
    else
      var p := Best(levels.Keys, side);
      assert |levels - {p}| < |levels| by { Shrinks(levels, p); }
      levels[p] + Flatten(levels - {p}, side)
  }

  lemma Shrinks(levels: LevelMap, p: nat)
    requires p in levels
    ensures |levels - {p}| == |levels| - 1
  {
    assert (levels - {p}).Keys == levels.Keys - {p};
    assert |levels.Keys - {p}| == |levels.Keys| - 1;
    assert |levels| == |levels.Keys| && |levels - {p}| == |(levels - {p}).Keys|;
  }

  /** Writing a level back: an emptied queue takes its price out of the map. */
  function Put(levels: LevelMap, price: nat, q: seq<Order>): LevelMap {
    if q == [] then levels - {price} else levels[price := q]
  }

  function QueueAt(levels: LevelMap, price: nat): seq<Order> {
    if price in levels then levels[price] else []
  }

  lemma BestUnique(keys: set<nat>, side: Side, p: nat)
    requires IsBest(keys, side, p)
    ensures Best(keys, side) == p
  {
  }

  lemma FlattenPutBest(levels: LevelMap, side: Side, q: seq<Order>)
    requires levels != map[]
    ensures var p := Best(levels.Keys, side);
            Flatten(Put(levels, p, q), side) == q + Flatten(levels - {p}, side)
  {
    var p := Best(levels.Keys, side);
    if q != [] {
      var levels' := levels[p := q];
      assert levels'.Keys == levels.Keys;
      assert levels' - {p} == levels - {p};
    } else {
      assert q + Flatten(levels - {p}, side) == Flatten(levels - {p}, side);
    }
  }

  lemma {:induction false} FlattenMembers(levels: LevelMap, side: Side, o: Order)
    requires LevelsOk(levels, side)
    ensures o in Flatten(levels, side) <==> o.price in levels && o in levels[o.price]
    decreases |levels|
  {
    if levels != map[] {
      var p := Best(levels.Keys, side);
      Shrinks(levels, p);
      FlattenMembers(levels - {p}, side, o);
    }
  }

  lemma {:induction false} EnqueueSkips(l: seq<Order>, r: seq<Order>, o: Order)
    requires forall i :: 0 <= i < |l| ==> !Better(o.side, o.price, l[i].price)
    ensures Enqueue(l + r, o) == l + Enqueue(r, o)
  {
    if l == [] {
      assert l + r == r;
      assert l + Enqueue(r, o) == Enqueue(r, o);
    } else {
      assert (l + r)[1..] == l[1..] + r;
      EnqueueSkips(l[1..], r, o);
      assert [l[0]] + (l[1..] + Enqueue(r, o)) == l + Enqueue(r, o);
    }
  }

  lemma EnqueueFirst(s: seq<Order>, o: Order)
    requires s == [] || Better(o.side, o.price, s[0].price)
    ensures Enqueue(s, o) == [o] + s
  {
  }

  function Pushed(levels: LevelMap, o: Order): LevelMap {
    levels[o.price := QueueAt(levels, o.price) + [o]]
  }

  lemma PushNewBest(levels: LevelMap, o: Order)
    requires levels == map[] || Better(o.side, o.price, Best(levels.Keys, o.side))
    ensures Flatten(Pushed(levels, o), o.side) == [o] + Flatten(levels, o.side)
  {
    var levels' := Pushed(levels, o);
    assert levels'.Keys == levels.Keys + {o.price};
    BestUnique(levels'.Keys, o.side, o.price);
    assert levels' - {o.price} == levels;
  }

  lemma PushAtBest(levels: LevelMap, o: Order)
    requires LevelsOk(levels, o.side) && levels != map[] && Best(levels.Keys, o.side) == o.price
    ensures Flatten(Pushed(levels, o), o.side) == Enqueue(Flatten(levels, o.side), o)
  {
    var q, rest := levels[o.price], Flatten(levels - {o.price}, o.side);
    FlattenPutBest(levels, o.side, q + [o]);
    BehindBest(levels, o.side);
    EnqueueBetween(q, rest, o);
  }

  lemma EnqueueBetween(l: seq<Order>, r: seq<Order>, o: Order)
    requires forall i :: 0 <= i < |l| ==> !Better(o.side, o.price, l[i].price)
    requires r == [] || Better(o.side, o.price, r[0].price)
    ensures Enqueue(l + r, o) == (l + [o]) + r
  {
    EnqueueSkips(l, r, o);
    EnqueueFirst(r, o);
    assert l + ([o] + r) == (l + [o]) + r;
  }

  lemma PushBehindBest(levels: LevelMap, o: Order)
    requires levels != map[] && Better(o.side, Best(levels.Keys, o.side), o.price)
    ensures var p := Best(levels.Keys, o.side);
            Flatten(Pushed(levels, o), o.side) == levels[p] + Flatten(Pushed(levels - {p}, o), o.side)
  {
    var p := Best(levels.Keys, o.side);
    var levels' := Pushed(levels, o);
    assert levels'.Keys == levels.Keys + {o.price};
    BestUnique(levels'.Keys, o.side, p);
    assert levels' - {p} == Pushed(levels - {p}, o);
  }

  /** Pushing at the back of its price's queue is queueing behind every same-or-better order. */
  lemma {:induction false} FlattenEnqueue(levels: LevelMap, o: Order)
    requires LevelsOk(levels, o.side)
    ensures Flatten(Pushed(levels, o), o.side) == Enqueue(Flatten(levels, o.side), o)
    decreases |levels|
  {
    var s := Flatten(levels, o.side);
    if levels == map[] {
      PushNewBest(levels, o);
    } else {
      var p := Best(levels.Keys, o.side);
      if o.price == p {
        PushAtBest(levels, o);
      } else if Better(o.side, p, o.price) {
        Shrinks(levels, p);
        FlattenEnqueue(levels - {p}, o);
        PushBehindBest(levels, o);
        EnqueueSkips(levels[p], Flatten(levels - {p}, o.side), o);
      } else {
        PushNewBest(levels, o);
        assert s[0] == levels[p][0];
        EnqueueFirst(s, o);
      }
    }
  }

  /** Everything after the best level is strictly worse than it. */
  lemma BehindBest(levels: LevelMap, side: Side)
    requires LevelsOk(levels, side) && levels != map[]
    ensures var p := Best(levels.Keys, side);
            var rest := Flatten(levels - {p}, side);
            rest == [] || Better(side, p, rest[0].price)
  {
    var p := Best(levels.Keys, side);
    var rest := Flatten(levels - {p}, side);
    if rest != [] {
      FlattenMembers(levels - {p}, side, rest[0]);
    }
  }

  // ----- removing one order from its queue -----

  lemma {:induction false} WithoutRight(l: seq<Order>, r: seq<Order>, id: nat)
    requires id !in Ids(l)
    ensures Without(l + r, id) == l + Without(r, id)
  {
    if l == [] {
      assert l + r == r;
    } else {
      assert l[0].id in Ids(l);
      assert (l + r)[1..] == l[1..] + r;
      forall i | 0 <= i < |l[1..]| ensures l[1..][i].id in Ids(l) {
        assert l[1..][i] == l[i + 1];
      }
      WithoutRight(l[1..], r, id);
      assert [l[0]] + (l[1..] + Without(r, id)) == l + Without(r, id);
    }
  }

  lemma {:induction false} WithoutLeft(l: seq<Order>, r: seq<Order>, id: nat)
    requires id in Ids(l)
    ensures Without(l + r, id) == Without(l, id) + r
  {
    assert (l + r)[1..] == l[1..] + r;
    if l[0].id != id {
      var i :| 0 <= i < |l| && l[i].id == id;
      assert l[1..][i - 1].id == id;
      WithoutLeft(l[1..], r, id);
      assert [l[0]] + (Without(l[1..], id) + r) == ([l[0]] + Without(l[1..], id)) + r;
    }
  }

  lemma WithoutAtBest(levels: LevelMap, side: Side, id: nat)
    requires levels != map[] && id in Ids(levels[Best(levels.Keys, side)])
    ensures var p := Best(levels.Keys, side);
            Flatten(Put(levels, p, Without(levels[p], id)), side) == Without(Flatten(levels, side), id)
  {
    var p := Best(levels.Keys, side);
    FlattenPutBest(levels, side, Without(levels[p], id));
    WithoutLeft(levels[p], Flatten(levels - {p}, side), id);
  }

  lemma PutBehindBest(levels: LevelMap, side: Side, price: nat, q: seq<Order>)
    requires price in levels && price != Best(levels.Keys, side)
    ensures var p := Best(levels.Keys, side);
            Flatten(Put(levels, price, q), side) == levels[p] + Flatten(Put(levels - {p}, price, q), side)
  {
    var p := Best(levels.Keys, side);
    var levels' := Put(levels, price, q);
    assert levels'.Keys <= levels.Keys && p in levels'.Keys;
    BestUnique(levels'.Keys, side, p);
    assert levels' - {p} == Put(levels - {p}, price, q);
  }

  lemma {:induction false} FlattenWithout(levels: LevelMap, side: Side, o: Order)
    requires LevelsOk(levels, side) && DistinctIds(Flatten(levels, side))
    requires o.price in levels && o in levels[o.price]
    ensures Flatten(Put(levels, o.price, Without(levels[o.price], o.id)), side) == Without(Flatten(levels, side), o.id)
    decreases |levels|
  {
    var p := Best(levels.Keys, side);
    IdsOfMembers(levels[o.price]);
    if o.price == p {
      WithoutAtBest(levels, side, o.id);
    } else {
      var rest := Flatten(levels - {p}, side);
      Shrinks(levels, p);
      DistinctParts(levels[p], rest);
      FlattenWithout(levels - {p}, side, o);
      PutBehindBest(levels, side, o.price, Without(levels[o.price], o.id));
      FlattenMembers(levels - {p}, side, o);
      IdsOfMembers(rest);
      WithoutRight(levels[p], rest, o.id);
    }
  }

  lemma DistinctParts(l: seq<Order>, r: seq<Order>)
    requires DistinctIds(l + r)
    ensures DistinctIds(l) && DistinctIds(r) && Ids(l) !! Ids(r)
  {
    var s := l + r;
    forall i, j | 0 <= i < j < |l| ensures Differ(l[i], l[j]) {
      assert Differ(s[i], s[j]);
    }
    forall i, j | 0 <= i < j < |r| ensures Differ(r[i], r[j]) {
      assert Differ(s[i + |l|], s[j + |l|]);
    }
    forall i, j | 0 <= i < |l| && 0 <= j < |r| ensures l[i].id != r[j].id {
      assert Differ(s[i], s[j + |l|]);
    }
  }

  // ----- level aggregates -----

  lemma {:induction false} QueueQty(q: seq<Order>, at: nat, price: nat, side: Side)
    requires QueueOk(q, at, side)
    ensures OrderTotal(Level(price), q) == if at == price then OrderTotal(Volume, q) else 0
  {
    if q != [] {
      QueueQty(q[1..], at, price, side);
    }
  }

  lemma {:induction false} FlattenLevel(levels: LevelMap, side: Side, price: nat)
    requires LevelsOk(levels, side)
    ensures OrderTotal(Level(price), Flatten(levels, side)) == OrderTotal(Volume, QueueAt(levels, price))
    decreases |levels|
  {
    if levels != map[] {
      var p := Best(levels.Keys, side);
      Shrinks(levels, p);
      FlattenLevel(levels - {p}, side, price);
      OrderTotalConcat(Level(price), levels[p], Flatten(levels - {p}, side));
      QueueQty(levels[p], p, price, side);
    }
  }

  // ----- the order index -----

  function LocationOf(o: Order): Location {
    Location(o.account, o.side, o.price)
  }

  /** What `order_index` should hold for these orders. */
  ghost function IndexOf(s: seq<Order>): map<nat, Location> {
    if s == [] then map[] else IndexOf(s[1..])[s[0].id := LocationOf(s[0])]
  }

  lemma {:induction false} IndexKeys(s: seq<Order>)
    ensures IndexOf(s).Keys == Ids(s)
  {
    if s != [] {
      IndexKeys(s[1..]);
      assert Ids(s) == Ids(s[1..]) + {s[0].id} by {
        assert forall i :: 0 < i < |s| ==> s[i] == s[1..][i - 1];
      }
    }
  }

  lemma IndexPop(s: seq<Order>)
    requires s != [] && DistinctIds(s)
    ensures IndexOf(s[1..]) == IndexOf(s) - {s[0].id}
  {
    DistinctTail(s);
    IndexKeys(s[1..]);
  }

  lemma {:induction false} IndexFinds(s: seq<Order>, id: nat)
    ensures id in IndexOf(s) <==> Find(s, id).Some?
    ensures Find(s, id).Some? ==> IndexOf(s)[id] == LocationOf(Find(s, id).value)
  {
    if s != [] {
      IndexFinds(s[1..], id);
    }
  }

  lemma {:induction false} IndexEnqueue(s: seq<Order>, o: Order)
    requires o.id !in Ids(s)
    ensures IndexOf(Enqueue(s, o)) == IndexOf(s)[o.id := LocationOf(o)]
  {
    if s == [] || Better(o.side, o.price, s[0].price) {
      assert ([o] + s)[1..] == s;
    } else {
      assert s[0].id in Ids(s);
      forall i | 0 <= i < |s[1..]| ensures s[1..][i].id in Ids(s) {
        assert s[1..][i] == s[i + 1];
      }
      IndexEnqueue(s[1..], o);
      assert Enqueue(s, o)[1..] == Enqueue(s[1..], o);
    }
  }

  lemma {:induction false} IndexWithout(s: seq<Order>, id: nat)
    requires DistinctIds(s)
    ensures IndexOf(Without(s, id)) == IndexOf(s) - {id}
  {
    if s != [] {
      DistinctTail(s);
      IndexKeys(s[1..]);
      if s[0].id != id {
        IndexWithout(s[1..], id);
        assert Without(s, id)[1..] == Without(s[1..], id);
      }
    }
  }
}
