/** Every command keeps the engine invariant and conserves money. */
module EngineInv {
  import opened Domain
  import opened Matching
  import opened BookSpec
  import opened LedgerSpec
  import opened DedupSpec
  import opened EngineSpec
  import opened Reserves
  import opened PlaceProof

  // ----- cancelling -----

  lemma RestsInIds(books: map<Pair, BookView>, nextId: nat, p: Pair, id: nat)
    requires BooksInv(books, nextId) && p in books
    ensures RestsIn(books, p, id) <==> id in BookIds(books[p])
  {
    LookupFinds(books[p], id);
  }

  /** An order rests in at most one market. */
  lemma LocateFinds(books: map<Pair, BookView>, nextId: nat, p: Pair, id: nat)
    requires BooksInv(books, nextId) && RestsIn(books, p, id)
    ensures Locate(books, id) == Some(p)
  {
    var q := Locate(books, id).value;
    RestsInIds(books, nextId, p, id);
    RestsInIds(books, nextId, q, id);
  }

  lemma CancelCommit(books: map<Pair, BookView>, p: Pair, o: Order, k: Key)
    requires p in books && BookInv(books[p]) && o in books[p].Resting(o.side)
    ensures Committed(books[p := Drop(books[p], o)], k) ==
            Committed(books, k) - (if k == (o.account, PayCurrency(p, o.side)) then HeldBy(o) else 0)
  {
    var b := books[p];
    DropKeepsInv(b, o);
    CommittedUpdate(books, p, Drop(b, o), k);
    BookCommitSides(p, b, o.side, k);
    BookCommitSides(p, Drop(b, o), o.side, k);
    assert OrderTotal(Held(k.0), b.Resting(o.side)) ==
           OrderTotal(Held(k.0), Drop(b, o).Resting(o.side)) + OrderWeight(Held(k.0), o);
  }

  lemma CancelExact(s: State, p: Pair, o: Order)
    requires Inv(s) && p in s.books && o in s.books[p].Resting(o.side)
    ensures var release := Release(s.funds, (o.account, PayCurrency(p, o.side)), HeldBy(o));
            release.1 == Ok(()) && Exact(release.0, s.books[p := Drop(s.books[p], o)])
  {
    var books := s.books[p := Drop(s.books[p], o)];
    var at := (o.account, PayCurrency(p, o.side));
    forall k: Key
      ensures Get(s.funds.bal, k).reserved == Committed(books, k) + (if k == at then HeldBy(o) else 0)
      ensures Get(s.funds.bal, k).available >= 0
    {
      CancelCommit(s.books, p, o, k);
      assert Get(s.funds.bal, k).reserved == Committed(s.books, k);
    }
    ReleaseExcess(s.funds, books, at, HeldBy(o));
  }

  lemma DropKeepsBooks(books: map<Pair, BookView>, nextId: nat, p: Pair, o: Order)
    requires BooksInv(books, nextId) && p in books && o in books[p].Resting(o.side)
    ensures BooksInv(books[p := Drop(books[p], o)], nextId)
  {
    DropKeepsInv(books[p], o);
  }

  /** `o` rests in the book of `p`. */
  ghost predicate Resting(books: map<Pair, BookView>, p: Pair, o: Order) {
    p in books && o in books[p].Resting(o.side)
  }

  /** Cancelling succeeds exactly for the owner of a resting order, and then removes that order. */
  lemma CancelIffOwned(s: State, a: AccountId, id: nat)
    requires Inv(s)
    ensures CancelOrder(s, a, id).1.Some? <==>
            exists p, o :: Resting(s.books, p, o) && o.id == id && o.account == a
    ensures forall p, o :: Resting(s.books, p, o) && o.id == id && o.account == a ==>
              CancelOrder(s, a, id).1 == Some((p, o))
  {
    forall p, o | Resting(s.books, p, o) && o.id == id && o.account == a
      ensures CancelOrder(s, a, id).1 == Some((p, o))
    {
      RestingIsLocated(s, p, o);
    }
    if CancelOrder(s, a, id).1.Some? {
      var p := Locate(s.books, id).value;
      LookupFinds(s.books[p], id);
      assert Resting(s.books, p, Lookup(s.books[p], id).value);
    }
  }

  lemma RestingIsLocated(s: State, p: Pair, o: Order)
    requires Inv(s) && Resting(s.books, p, o)
    ensures Locate(s.books, o.id) == Some(p) && Lookup(s.books[p], o.id) == Some(o)
  {
    var b := s.books[p];
    FindUnique(b.Resting(o.side), o);
    IdsOfMembers(b.Resting(o.side));
    FindFinds(b.bids, o.id);
    LookupFinds(b, o.id);
    LocateFinds(s.books, s.nextOrderId, p, o.id);
  }

  lemma CancelKeepsInv(s: State, a: AccountId, id: nat)
    requires Inv(s)
    ensures var s' := CancelOrder(s, a, id).0; Inv(s'.(funds := s'.funds.(dirty := {})))
  {
    if CancelOrder(s, a, id).1.Some? {
      var p, o := CancelOrder(s, a, id).1.value.0, CancelOrder(s, a, id).1.value.1;
      LookupFinds(s.books[p], id);
      CancelExact(s, p, o);
      DropKeepsBooks(s.books, s.nextOrderId, p, o);
      var s' := CancelOrder(s, a, id).0;
      CleanExact(s'.funds, s'.books);
    }
  }

  lemma CleanExact(f: Funds, books: map<Pair, BookView>)
    requires Exact(f, books)
    ensures Exact(f.(dirty := {}), books)
  {
    forall k: Key
      ensures Get(f.(dirty := {}).bal, k).reserved == Committed(books, k) && Get(f.(dirty := {}).bal, k).available >= 0
    {
      assert Get(f.bal, k).reserved == Committed(books, k);
    }
  }

  // ----- the other commands -----

  lemma PlaceKeepsInv(s: State, lim: Limits, a: AccountId, req: OrderRequest)
    requires Inv(s)
    ensures var s' := PlaceOrder(s, lim, a, req).0; Inv(s'.(funds := s'.funds.(dirty := {})))
  {
    PlaceIsAtomic(s, lim, a, req);
    var r := PlaceOrder(s, lim, a, req);
    if r.1.Err? {
      UnchangedKeepsInv(s, r.0);
      assert r.0.(funds := r.0.funds.(dirty := {})) == r.0;
    } else {
      var f := Reserve(s.funds, PayKey(a, req), ReserveAmount(req, QuoteAmount(BookAt(s.books, req.pair), req).value)).0;
      ExecuteSucceeds(s, a, req, f);
      PlaceKeepsBooks(s, a, req);
      CleanExact(r.0.funds, r.0.books);
    }
  }

  /** Changing what is available, and nothing else, keeps reserves exact. */
  lemma MoveAvailable(f: Funds, books: map<Pair, BookView>, at: Key, amount: int)
    requires Exact(f, books) && Get(f.bal, at).available + amount >= 0
    ensures Exact(Move(f, at, amount, 0), books)
  {
    forall k: Key
      ensures Get(Move(f, at, amount, 0).bal, k).reserved == Committed(books, k)
      ensures Get(Move(f, at, amount, 0).bal, k).available >= 0
    {
      assert Get(f.bal, k).reserved == Committed(books, k) && Get(f.bal, k).available >= 0;
    }
  }

  lemma FundsKeepInv(s: State, f: Funds)
    requires Inv(s) && Exact(f, s.books)
    ensures Inv(s.(funds := f.(dirty := {})))
  {
    CleanExact(f, s.books);
  }

  lemma BackedIsExact(s: State)
    requires Inv(s)
    ensures Exact(s.funds, s.books)
  {
    forall k: Key ensures Get(s.funds.bal, k).reserved == Committed(s.books, k) && Get(s.funds.bal, k).available >= 0 {
      assert Get(s.funds.bal, k).reserved == Committed(s.books, k);
    }
  }

  lemma AvailableKeepsInv(s: State, at: Key, amount: int)
    requires Inv(s) && Get(s.funds.bal, at).available + amount >= 0
    ensures Inv(s.(funds := Move(s.funds, at, amount, 0).(dirty := {})))
  {
    BackedIsExact(s);
    MoveAvailable(s.funds, s.books, at, amount);
    FundsKeepInv(s, Move(s.funds, at, amount, 0));
  }

  lemma DepositKeepsInv(s: State, lim: Limits, a: AccountId, c: Currency, amount: nat)
    requires Inv(s)
    ensures var s' := DepositFunds(s, lim, a, c, amount).0; Inv(s'.(funds := s'.funds.(dirty := {})))
  {
    assert Get(s.funds.bal, (a, c)).available >= 0;
    AvailableKeepsInv(s, (a, c), amount);
    assert s.(funds := s.funds.(dirty := {})) == s;
  }

  lemma WithdrawKeepsInv(s: State, a: AccountId, c: Currency, amount: nat)
    requires Inv(s)
    ensures Inv(s.(funds := LedgerSpec.Withdraw(s.funds, (a, c), amount).0.(dirty := {})))
  {
    if Get(s.funds.bal, (a, c)).available < amount {
      TouchGets(s.funds, (a, c));
      UnchangedKeepsInv(s, s.(funds := Touch(s.funds, (a, c)).(dirty := {})));
    } else {
      AvailableKeepsInv(s, (a, c), 0 - amount);
    }
  }

  /** Only placing and cancelling touch a book or say anything about orders. */
  lemma OthersLeaveBooks(s: State, lim: Limits, a: AccountId, command: Command)
    requires !command.Place? && !command.Cancel?
    ensures var e := Run(s, lim, a, command);
            && e.core == [] && e.deltas == map[]
            && e.state.books == s.books && e.state.nextOrderId == s.nextOrderId
  {
  }

  lemma RunKeepsInv(s: State, lim: Limits, a: AccountId, command: Command)
    requires Inv(s)
    ensures var s' := Run(s, lim, a, command).state; Inv(s'.(funds := s'.funds.(dirty := {})))
  {
    match command
    case Place(req) => PlaceKeepsInv(s, lim, a, req);
    case Cancel(id) => CancelKeepsInv(s, a, id);
    case Deposit(c, amount) => DepositKeepsInv(s, lim, a, c, amount);
    case Withdraw(c, amount) => WithdrawKeepsInv(s, a, c, amount);
    case ListPair(p) => ListingKeepsInv(s, if p.IsValid() then s.listed + {p} else s.listed);
    case DelistPair(p) => ListingKeepsInv(s, s.listed - {p});
  }

  lemma ListingKeepsInv(s: State, listed: set<Pair>)
    requires Inv(s) && forall p :: p in listed ==> p.IsValid()
    ensures Inv(s.(listed := listed, funds := s.funds.(dirty := {})))
  {
    BackedIsExact(s);
    CleanExact(s.funds, s.books);
  }

  lemma CountersKeepInv(s: State, w: Window, seqNo: nat)
    requires Inv(s) && WindowOk(w)
    ensures Inv(s.(window := w, nextSeq := seqNo))
  {
    BackedIsExact(s);
  }

  /** One command, any command, from any state satisfying the invariant. */
  lemma ApplyKeepsInv(s: State, lim: Limits, env: Envelope)
    requires Inv(s)
    ensures Inv(Apply(s, lim, env).state)
  {
    var attempt := Try(s.window, env.account, env.key);
    if attempt.1 {
      TryKeepsWindow(s.window, env.account, env.key);
      CountersKeepInv(s, attempt.0, s.nextSeq);
      var s1 := s.(window := attempt.0);
      var s2 := Run(s1, lim, env.account, env.command).state;
      RunKeepsInv(s1, lim, env.account, env.command);
      var clean := s2.(funds := s2.funds.(dirty := {}));
      CountersKeepInv(clean, clean.window, clean.nextSeq + 1);
    }
  }

  lemma InitInv()
    ensures Inv(Init)
  {
    forall k: Key ensures Get(Init.funds.bal, k).reserved == Committed(Init.books, k) && Get(Init.funds.bal, k).available >= 0 {
      assert CommitMap(Init.books, k) == map[];
    }
  }

  // ----- conservation -----

  /** Money entering (or leaving) the exchange with one answered command. */
  function Flow(command: Command, response: CommandResponse, c: Currency): int {
    match command
    case Deposit(d, amount) => if response.DepositReply? && response.available.Ok? && d == c then amount else 0
    case Withdraw(d, amount) => if response.WithdrawReply? && response.withdrawn.Ok? && d == c then 0 - amount else 0
    case _ => 0
  }

  lemma ReserveSupply(f: Funds, k: Key, amount: nat, c: Currency)
    ensures Supply(Reserve(f, k, amount).0.bal, c) == Supply(f.bal, c)
  {
    TouchSupply(f, k, c);
    MoveSupply(f, k, 0 - amount, amount, c);
  }

  lemma ReleaseSupply(f: Funds, k: Key, amount: nat, c: Currency)
    ensures Supply(Release(f, k, amount).0.bal, c) == Supply(f.bal, c)
  {
    TouchSupply(f, k, c);
    MoveSupply(f, k, amount, 0 - amount, c);
  }

  lemma RefundSupply(f: Funds, a: AccountId, req: OrderRequest, trades: seq<Trade>, remaining: nat, c: Currency)
    ensures Supply(ReleaseLeftover(f, a, req, remaining).bal, c) == Supply(f.bal, c)
    ensures Supply(RefundSurplus(f, a, req, trades).0.bal, c) == Supply(f.bal, c)
  {
    ReleaseSupply(f, (a, req.pair.base), remaining, c);
    if Surplus(req.price, trades) > 0 {
      ReleaseSupply(f, (a, req.pair.quote), Surplus(req.price, trades), c);
    }
  }

  lemma ExecuteSupply(s: State, a: AccountId, req: OrderRequest, f: Funds, c: Currency)
    ensures Supply(Execute(s, a, req, f).0.funds.bal, c) == Supply(f.bal, c)
  {
    var p := PlacementOf(s, a, req);
    var settled := SettleAll(f, req.pair, p.trades);
    SettleAllConserves(f, req.pair, p.trades, c);
    RefundSupply(settled, a, req, p.trades, p.remaining, c);
    RefundSupply(ReleaseLeftover(settled, a, req, p.remaining), a, req, p.trades, p.remaining, c);
  }

  lemma PlaceSupply(s: State, lim: Limits, a: AccountId, req: OrderRequest, c: Currency)
    ensures Supply(PlaceOrder(s, lim, a, req).0.funds.bal, c) == Supply(s.funds.bal, c)
  {
    var q := QuoteAmount(BookAt(s.books, req.pair), req);
    if Guard(s, lim, a, req).None? && q.Ok? {
      var reserve := Reserve(s.funds, PayKey(a, req), ReserveAmount(req, q.value));
      ReserveSupply(s.funds, PayKey(a, req), ReserveAmount(req, q.value), c);
      ExecuteSupply(s, a, req, reserve.0, c);
    }
  }

  lemma CancelSupply(s: State, a: AccountId, id: nat, c: Currency)
    ensures Supply(CancelOrder(s, a, id).0.funds.bal, c) == Supply(s.funds.bal, c)
  {
    if CancelOrder(s, a, id).1.Some? {
      var p, o := CancelOrder(s, a, id).1.value.0, CancelOrder(s, a, id).1.value.1;
      ReleaseSupply(s.funds, (o.account, PayCurrency(p, o.side)), HeldBy(o), c);
    }
  }

  lemma DepositSupply(s: State, lim: Limits, a: AccountId, d: Currency, amount: nat, c: Currency)
    ensures var r := DepositFunds(s, lim, a, d, amount);
            Supply(r.0.funds.bal, c) == Supply(s.funds.bal, c) + (if r.1.Ok? && d == c then amount else 0)
  {
    MoveSupply(s.funds, (a, d), amount, 0, c);
  }

  lemma WithdrawSupply(f: Funds, k: Key, amount: nat, c: Currency)
    ensures var r := LedgerSpec.Withdraw(f, k, amount);
            Supply(r.0.bal, c) == Supply(f.bal, c) - (if r.1.Ok? && k.1 == c then amount else 0)
  {
    TouchSupply(f, k, c);
    MoveSupply(f, k, 0 - amount, 0, c);
  }

  lemma RunSupply(s: State, lim: Limits, a: AccountId, command: Command, c: Currency)
    ensures var e := Run(s, lim, a, command);
            Supply(e.state.funds.bal, c) == Supply(s.funds.bal, c) + Flow(command, e.response, c)
  {
    match command
    case Place(req) => PlaceSupply(s, lim, a, req, c);
    case Cancel(id) => CancelSupply(s, a, id, c);
    case Deposit(d, amount) => DepositSupply(s, lim, a, d, amount, c);
    case Withdraw(d, amount) => WithdrawSupply(s.funds, (a, d), amount, c);
    case _ =>
  }

  /** Whatever is placed, matched, refunded or cancelled, only deposits and withdrawals change the supply. */
  lemma ApplyConserves(s: State, lim: Limits, env: Envelope, c: Currency)
    ensures var step := Apply(s, lim, env);
            Supply(step.state.funds.bal, c) == Supply(s.funds.bal, c) + Flow(env.command, step.response, c)
  {
    var attempt := Try(s.window, env.account, env.key);
    if attempt.1 {
      RunSupply(s.(window := attempt.0), lim, env.account, env.command, c);
    }
  }
}
