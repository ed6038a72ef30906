/** When the escrow operations are accepted, that a refund undoes a hold, and that the failing inputs are within reach. */
module EscrowAcceptance {
  import opened Common
  import opened Ledger
  import opened Escrow
  import opened EscrowAgreement
  import opened EscrowTheorems

  // ---------- a hold and its refund ----------

  /**
   With any key, fresh or used, createEscrow succeeds exactly when the order has an escrow already, or it
   exists, its buyer's wallet covers a positive amount, and the key does not repeat the empty one.
   */
  lemma HoldNeverStuck(w: World, order: nat, buyerUser: nat, sellerUser: Option<nat>, amount: int, key: Option<string>, stamps: seq<Stamp>)
    requires Sound(w.books) && |stamps| == 4 && FreshStamps(w.books, stamps)
    ensures var buyer := FindWallet(w.wallets, buyerUser);
      CreateEscrow(w, order, buyerUser, sellerUser, amount, key, stamps).1.Done? <==> (
        || FindEscrow(w.escrows, order) < |w.escrows|
        || (order in w.orders && buyer < |w.wallets| && 0 < amount <= w.wallets[buyer].balance - w.wallets[buyer].locked
            && !EmptyKeyTaken(w.books, key)))
    ensures var (after, outcome) := CreateEscrow(w, order, buyerUser, sellerUser, amount, key, stamps);
      outcome.Done? && FindEscrow(w.escrows, order) == |w.escrows| ==> outcome == Done(|w.escrows|) && |after.escrows| == |w.escrows| + 1
  {
    hide Post, BooksAfterHold, Sound;
    HoldIsPosted(w.books, FindWallet(w.wallets, buyerUser), order, amount, key, stamps);
  }

  lemma MovesCancel(b: Books, held: Books, after: Books, order: nat, buyer: nat, payee: nat, amount: int)
    requires BooksMove(b, held, order, true, amount, buyer, -amount, buyer, 0, 0)
    requires BooksMove(held, after, order, false, -amount, buyer, amount, payee, 0, 0)
    ensures forall k :: KeyBalance(after, k) == KeyBalance(b, k)
  {
    hide KeyBalance, Sound, FlowsMove;
  }

  lemma LockThenUnlock(wallets: seq<Wallet>, buyer: nat, payee: nat, amount: int)
    requires buyer < |wallets| && payee < |wallets|
    ensures Move(Move(Move(wallets, buyer, 0, amount), buyer, 0, -amount), payee, 0, 0) == wallets
  {
  }

  /** A new hold on its own: the buyer's lock, the journal, one open escrow more. */
  ghost predicate IsHold(w: World, held: World, order: nat, buyer: nat, amount: int) {
    && buyer < |w.wallets| && held.wallets == Move(w.wallets, buyer, 0, amount)
    && BooksMove(w.books, held.books, order, true, amount, buyer, -amount, buyer, 0, 0)
    && |held.escrows| == |w.escrows| + 1
    && var e := held.escrows[|w.escrows|];
    && Open(e.status) && e.order == order && e.buyer == buyer && e.amount == amount
    && (e.seller.Some? ==> e.seller.value < |w.wallets|)
  }

  lemma NewHoldIsHold(w0: World, w: World, order: nat, buyerUser: nat, sellerUser: Option<nat>, amount: int, key: Option<string>, stamps: seq<Stamp>)
    requires Inv(w0, w) && |stamps| == 4 && FreshStamps(w.books, stamps) && !Replays(w.books, key)
    requires FindEscrow(w.escrows, order) == |w.escrows|
    requires CreateEscrow(w, order, buyerUser, sellerUser, amount, key, stamps).1.Done?
    ensures var held := CreateEscrow(w, order, buyerUser, sellerUser, amount, key, stamps).0;
      Inv(w0, held) && IsHold(w, held, order, FindWallet(w.wallets, buyerUser), amount)
  {
    hide Post, BooksAfterHold, BooksMove, KeyBalance, Sound, FlowsMove, SinglePayout;
    var held := CreateEscrow(w, order, buyerUser, sellerUser, amount, key, stamps).0;
    CreateKeeps(w0, w, order, buyerUser, sellerUser, amount, key, stamps);
    HoldNeverStuck(w, order, buyerUser, sellerUser, amount, key, stamps);
    CreateShape(w, held, order, buyerUser, sellerUser, amount, key, stamps);
    hide CreateEscrow, Inv;
    HoldMoves(w.books, FindWallet(w.wallets, buyerUser), order, amount, key, stamps);
  }

  lemma RefundUndoesHold(w: World, held: World, after: World, order: nat, buyer: nat, amount: int)
    requires IsHold(w, held, order, buyer, amount) && IsSettlement(held, after, |w.escrows|, amount, 0, 0)
    ensures after.wallets == w.wallets && forall k :: KeyBalance(after.books, k) == KeyBalance(w.books, k)
  {
    hide KeyBalance, Sound, FlowsMove, BooksMove, IsClosing, Linked;
    var payee := Payee(held.escrows[|w.escrows|]);
    MovesCancel(w.books, held.books, after.books, order, buyer, payee, amount);
    LockThenUnlock(w.wallets, buyer, payee, amount);
  }

  /** A fresh hold, refunded at once, restores every wallet and every ledger balance. */
  lemma HoldThenRefundRestores(w0: World, w: World, order: nat, buyerUser: nat, sellerUser: Option<nat>, amount: int,
                               key: Option<string>, stamps: seq<Stamp>, refundKey: Option<string>, refundStamps: seq<Stamp>)
    requires Inv(w0, w) && |stamps| == 4 && FreshStamps(w.books, stamps) && !Replays(w.books, key)
    requires FindEscrow(w.escrows, order) == |w.escrows|
    requires CreateEscrow(w, order, buyerUser, sellerUser, amount, key, stamps).1.Done?
    requires var held := CreateEscrow(w, order, buyerUser, sellerUser, amount, key, stamps).0;
      |refundStamps| == 4 && FreshStamps(held.books, refundStamps) && FreshKey(held.books, refundKey)
    ensures var held := CreateEscrow(w, order, buyerUser, sellerUser, amount, key, stamps).0;
      && Inv(w0, held)
      && var (after, outcome) := RefundEscrow(held, |w.escrows|, System, refundKey, refundStamps);
      && outcome.Done? && after.wallets == w.wallets
      && forall k :: KeyBalance(after.books, k) == KeyBalance(w.books, k)
  {
    hide CreateEscrow, RefundEscrow, Inv, IsSettlement, Sound, Linked, KeyBalance, Replays, EmptyKeyTaken, BooksMove, Move;
    var held := CreateEscrow(w, order, buyerUser, sellerUser, amount, key, stamps).0;
    NewHoldIsHold(w0, w, order, buyerUser, sellerUser, amount, key, stamps);
    InvIsLinked(w0, held);
    FreshIsNoReplay(held.books, refundKey);
    RefundNeverStuck(w0, held, |w.escrows|, refundKey, refundStamps);
    RefundIsSettlement(held, |w.escrows|, System, refundKey, refundStamps);
    RefundUndoesHold(w, held, RefundEscrow(held, |w.escrows|, System, refundKey, refundStamps).0, order, FindWallet(w.wallets, buyerUser), amount);
  }

  lemma InvIsLinked(w0: World, w: World)
    requires Inv(w0, w)
    ensures Linked(w) && Sound(w.books) && RowsAgree(w)
  {
  }

  lemma FreshIsNoReplay(b: Books, key: Option<string>)
    requires FreshKey(b, key)
    ensures !Replays(b, key) && !EmptyKeyTaken(b, key)
  {
  }

  /** Any solvent wallets and any orders over empty books are an initial state. */
  lemma EmptyBooksAreInitial(wallets: seq<Wallet>, orders: map<nat, Order>)
    requires forall i :: 0 <= i < |wallets| ==> 0 <= wallets[i].locked <= wallets[i].balance
    ensures Initial(World(wallets, [], orders, map[], Books([], [], [])))
  {
  }

  // ---------- resolutions ----------

  /** A journal with a dispute link belongs to that dispute's order and is no lock. */
  ghost predicate LinksTagged(b: Books) {
    forall j: nat, o: nat :: j < |b.journals| && b.journals[j].link == Some(DisputeLink(o))
      ==> b.journals[j].order == Some(o) && b.journals[j].kind != ESCROW_LOCK
  }

  lemma {:induction false} PayoutIsCounted(journals: seq<Journal>, j: nat, order: nat)
    requires j < |journals| && journals[j].order == Some(order) && journals[j].kind != ESCROW_LOCK
    ensures Payouts(journals, order) > 0
  {
    if j < |journals| - 1 {
      PayoutIsCounted(journals[..|journals| - 1], j, order);
    }
  }

  lemma UnpaidIsUnlinked(b: Books, order: nat)
    requires LinksTagged(b) && Payouts(b.journals, order) == 0
    ensures !LinkUsed(b.journals, DisputeLink(order))
  {
    if LinkUsed(b.journals, DisputeLink(order)) {
      var j :| 0 <= j < |b.journals| && b.journals[j].link == Some(DisputeLink(order));
      PayoutIsCounted(b.journals, j, order);
    }
  }

  /**
   In every reachable state a resolution with a fresh key succeeds exactly for a contested escrow, a status its
   table allows and a division into three non-negative parts that leaves no payout without a seller.
   */
  lemma ResolveAcceptedExactly(w0: World, w: World, id: nat, resolver: nat, refund: int, payout: int, fee: int, resolution: Target,
                               key: Option<string>, stamps: seq<Stamp>)
    requires Inv(w0, w) && LinksTagged(w.books) && id < |w.escrows|
    requires |stamps| == 4 && FreshStamps(w.books, stamps) && FreshKey(w.books, key)
    ensures var e := w.escrows[id];
      ResolveDispute(w, id, resolver, refund, payout, fee, resolution, key, stamps).1 == Done(id) <==> (
        && e.status == EscrowStatus.DISPUTED && resolution.Status? && resolution.status in {EscrowStatus.ADJUSTED, EscrowStatus.RELEASED, EscrowStatus.REFUNDED}
        && refund >= 0 && payout >= 0 && fee >= 0 && refund + payout + fee == e.amount && (e.seller.None? ==> payout == 0))
  {
    hide Post, BooksAfterSplit, Sound, KeyBalance, Agreement, LockedAgrees, Conserved;
    var e := w.escrows[id];
    if Open(e.status) {
      assert EscrowPaidOnce(w.books, e);
      UnpaidIsUnlinked(w.books, e.order);
      SplitIsPosted(w.books, e.buyer, e.seller, e.order, refund, payout, fee, key, stamps);
    }
    if e.order in w.disputes {
      DisputeRowMeansContested(w, id);
    }
  }

  /** Posting adds at most the one journal. */
  lemma PostAddsJournal(b: Books, req: Request, stamps: seq<Stamp>)
    requires |stamps| == |req.lines| && LinksTagged(b)
    requires req.head.link == None || (exists o: nat :: req.head.link == Some(DisputeLink(o)) && req.head.order == Some(o) && req.head.kind != ESCROW_LOCK)
    ensures LinksTagged(Post(b, req, stamps).0)
  {
    hide LinesTotal, KeyUsed;
    var after := Post(b, req, stamps).0;
    forall j: nat, o: nat | j < |after.journals| && after.journals[j].link == Some(DisputeLink(o))
      ensures after.journals[j].order == Some(o) && after.journals[j].kind != ESCROW_LOCK
    {
      if j < |b.journals| {
        assert after.journals[j] == b.journals[j];
      }
    }
  }

  lemma AccountsLeaveLinks(b: Books, r: Books)
    requires LinksTagged(b) && r.journals == b.journals
    ensures LinksTagged(r)
  {
  }

  /** Accounts may be opened first; the journal is unlinked or linked to its own order's dispute. */
  lemma AnyPostKeepsLinks(b: Books, order: nat)
    requires LinksTagged(b)
    ensures forall r: Books, req: Request, given: seq<Stamp> ::
      r.journals == b.journals && |given| == |req.lines|
      && (req.head.link == None || (req.head.link == Some(DisputeLink(order)) && req.head.order == Some(order) && req.head.kind != ESCROW_LOCK))
      ==> LinksTagged(Post(r, req, given).0)
  {
    hide Post, LinksTagged;
    forall r: Books, req: Request, given: seq<Stamp> |
      r.journals == b.journals && |given| == |req.lines|
      && (req.head.link == None || (req.head.link == Some(DisputeLink(order)) && req.head.order == Some(order) && req.head.kind != ESCROW_LOCK))
      ensures LinksTagged(Post(r, req, given).0)
    {
      AccountsLeaveLinks(b, r);
      PostAddsJournal(r, req, given);
    }
  }

  lemma HoldKeepsLinks(b: Books, buyer: nat, order: nat, amount: int, key: Option<string>, stamps: seq<Stamp>)
    requires LinksTagged(b) && |stamps| == 4
    ensures LinksTagged(BooksAfterHold(b, buyer, order, amount, key, stamps).0)
  {
    hide Post, IndexOf, LinksTagged;
    AnyPostKeepsLinks(b, order);
  }

  lemma ReleaseKeepsLinks(b: Books, seller: nat, order: nat, amount: int, fee: int, key: Option<string>, stamps: seq<Stamp>)
    requires LinksTagged(b) && |stamps| == 4
    ensures LinksTagged(BooksAfterRelease(b, seller, order, amount, fee, key, stamps).0)
  {
    hide Post, IndexOf, LinksTagged;
    AnyPostKeepsLinks(b, order);
  }

  lemma RefundKeepsLinks(b: Books, buyer: nat, order: nat, amount: int, key: Option<string>, stamps: seq<Stamp>)
    requires LinksTagged(b) && |stamps| == 4
    ensures LinksTagged(BooksAfterRefund(b, buyer, order, amount, key, stamps).0)
  {
    hide Post, IndexOf, LinksTagged;
    AnyPostKeepsLinks(b, order);
  }

  lemma SplitKeepsLinks(b: Books, buyer: nat, seller: Option<nat>, order: nat, refund: int, payout: int, fee: int, key: Option<string>, stamps: seq<Stamp>)
    requires LinksTagged(b) && |stamps| == 4
    ensures LinksTagged(BooksAfterSplit(b, buyer, seller, order, refund, payout, fee, key, stamps).0)
  {
    hide Post, IndexOf, LinksTagged;
    AnyPostKeepsLinks(b, order);
  }

  lemma StepKeepsLinks(w: World, op: Op)
    requires Linked(w) && WellFormed(op) && LinksTagged(w.books)
    ensures LinksTagged(Step(w, op).0.books)
  {
    hide LinksTagged, BooksAfterHold, BooksAfterRelease, BooksAfterRefund, BooksAfterSplit, Permitted;
    match op
    case Create(order, buyerUser, _, amount, key, stamps) =>
      HoldKeepsLinks(w.books, FindWallet(w.wallets, buyerUser), order, amount, key, stamps);
    case Release(id, _, fee, key, stamps) =>
      if id < |w.escrows| && w.escrows[id].seller.Some? {
        ReleaseKeepsLinks(w.books, w.escrows[id].seller.value, w.escrows[id].order, w.escrows[id].amount, fee, key, stamps);
      }
    case Refund(id, _, key, stamps) =>
      if id < |w.escrows| {
        RefundKeepsLinks(w.books, w.escrows[id].buyer, w.escrows[id].order, w.escrows[id].amount, key, stamps);
      }
    case Resolve(id, _, refund, payout, fee, _, key, stamps) =>
      if id < |w.escrows| {
        SplitKeepsLinks(w.books, w.escrows[id].buyer, w.escrows[id].seller, w.escrows[id].order, refund, payout, fee, key, stamps);
      }
    case _ =>
  }

  /** Every run keeps dispute links on their own orders, so the acceptance of resolutions speaks of every reachable state. */
  lemma {:induction false} EveryRunKeepsLinks(w0: World, ops: seq<Op>, w: World)
    requires LinksTagged(w0.books) && Reaches(w0, ops, w)
    ensures LinksTagged(w.books)
    decreases |ops|
  {
    if ops != [] {
      var before :|
        && Reaches(w0, ops[..|ops| - 1], before) && Linked(before)
        && Admissible(before, ops[|ops| - 1]) && w == Step(before, ops[|ops| - 1]).0;
      EveryRunKeepsLinks(w0, ops[..|ops| - 1], before);
      hide Step, LinksTagged;
      StepKeepsLinks(before, ops[|ops| - 1]);
    }
  }

  // ---------- the failing inputs are within reach ----------

  function HighestId(es: seq<Entry>): (h: int)
    ensures forall k :: 0 <= k < |es| ==> es[k].stamp.id <= h
  {
    if es == [] then 0
    else
      var h, id := HighestId(es[..|es| - 1]), es[|es| - 1].stamp.id;
      if id > h then id else h
  }

  /** Four stamps the database has not given yet. */
  function NextStamps(b: Books): (stamps: seq<Stamp>)
    ensures |stamps| == 4 && FreshStamps(b, stamps)
  {
    var h := HighestId(b.entries);
    [Stamp(0, h + 1), Stamp(0, h + 2), Stamp(0, h + 3), Stamp(0, h + 4)]
  }

  lemma ReachesFurther(w0: World, ops: seq<Op>, w: World, op: Op)
    requires Reaches(w0, ops, w) && Linked(w) && Admissible(w, op)
    ensures Reaches(w0, ops + [op], Step(w, op).0)
  {
    hide Step, Admissible, Linked;
    assert (ops + [op])[..|ops + [op]| - 1] == ops;
  }

  lemma StartIsReached(w0: World)
    ensures Reaches(w0, [], w0)
  {
  }

  lemma MoveKeepsFind(wallets: seq<Wallet>, i: nat, balance: int, locked: int, user: nat)
    requires i < |wallets|
    ensures FindWallet(Move(wallets, i, balance, locked), user) == FindWallet(wallets, user)
  {
    var moved := Move(wallets, i, balance, locked);
    if i == 0 {
      assert moved[1..] == wallets[1..];
    } else {
      assert moved[1..] == Move(wallets[1..], i - 1, balance, locked);
      MoveKeepsFind(wallets[1..], i - 1, balance, locked, user);
    }
  }

  /** A buyer whose wallet covers the amount of an order that has no escrow yet. */
  ghost predicate CanHold(w: World, order: nat, buyerUser: nat, amount: int) {
    var buyer := FindWallet(w.wallets, buyerUser);
    && FindEscrow(w.escrows, order) == |w.escrows| && order in w.orders && buyer < |w.wallets|
    && 0 < amount <= w.wallets[buyer].balance - w.wallets[buyer].locked
  }

  function SellerRow(w: World, sellerUser: Option<nat>): Option<nat> {
    if sellerUser.Some? && FindWallet(w.wallets, sellerUser.value) < |w.wallets| then Some(FindWallet(w.wallets, sellerUser.value)) else None
  }

  /** The rows a hold leaves. */
  ghost predicate HoldRows(w: World, held: World, order: nat, buyerUser: nat, sellerUser: Option<nat>, amount: int) {
    var buyer := FindWallet(w.wallets, buyerUser);
    && buyer < |w.wallets| && order in w.orders && held.wallets == Move(w.wallets, buyer, 0, amount)
    && held.escrows == w.escrows + [Escrow(order, buyer, SellerRow(w, sellerUser), amount, EscrowStatus.ACTIVE)]
    && held.orders == w.orders[order := w.orders[order].(status := OrderStatus.PAID)]
  }

  lemma CreateGivesRows(w: World, order: nat, buyerUser: nat, sellerUser: Option<nat>, amount: int, key: Option<string>, stamps: seq<Stamp>)
    requires |stamps| == 4 && FindEscrow(w.escrows, order) == |w.escrows|
    requires CreateEscrow(w, order, buyerUser, sellerUser, amount, key, stamps).1.Done?
    ensures HoldRows(w, CreateEscrow(w, order, buyerUser, sellerUser, amount, key, stamps).0, order, buyerUser, sellerUser, amount)
    ensures CreateEscrow(w, order, buyerUser, sellerUser, amount, key, stamps).0.books ==
            BooksAfterHold(w.books, FindWallet(w.wallets, buyerUser), order, amount, key, stamps).0
  {
    hide BooksAfterHold;
  }

  /** A hold with an unused key leaves that key used. */
  lemma HoldUsesKey(b: Books, buyer: nat, order: nat, amount: int, key: string, stamps: seq<Stamp>)
    requires Sound(b) && |stamps| == 4 && FreshStamps(b, stamps) && FreshKey(b, Some(key))
    ensures KeyUsed(BooksAfterHold(b, buyer, order, amount, Some(key), stamps).0.journals, key)
  {
    hide Sound, IndexOf, LinesTotal, WithRunning;
    HoldIsPosted(b, buyer, order, amount, Some(key), stamps);
    var after := BooksAfterHold(b, buyer, order, amount, Some(key), stamps).0;
    assert after.journals[|b.journals|].key == Some(key);
  }

  /** One more hold on a run, with a key nobody has used. */
  lemma AddHold(w0: World, ops: seq<Op>, w: World, order: nat, buyerUser: nat, sellerUser: Option<nat>, amount: int, key: Option<string>)
    returns (op: Op, held: World)
    requires Initial(w0) && Reaches(w0, ops, w) && CanHold(w, order, buyerUser, amount) && FreshKey(w.books, key)
    ensures Inv(w0, w) && op == Create(order, buyerUser, sellerUser, amount, key, NextStamps(w.books)) && held == Step(w, op).0
    ensures Reaches(w0, ops + [op], held) && Inv(w0, held)
    ensures HoldRows(w, held, order, buyerUser, sellerUser, amount)
    ensures key.Some? ==> KeyUsed(held.books.journals, key.value)
  {
    hide CreateEscrow, BooksAfterHold, Inv, Reaches, Linked, Sound, HoldRows, Initial;
    op := Create(order, buyerUser, sellerUser, amount, key, NextStamps(w.books));
    EveryRunAgrees(w0, ops, w);
    InvIsLinked(w0, w);
    FreshIsNoReplay(w.books, key);
    HoldNeverStuck(w, order, buyerUser, sellerUser, amount, key, op.stamps);
    held := Step(w, op).0;
    ReachesFurther(w0, ops, w, op);
    EveryRunAgrees(w0, ops + [op], held);
    CreateGivesRows(w, order, buyerUser, sellerUser, amount, key, op.stamps);
    if key.Some? {
      HoldUsesKey(w.books, FindWallet(w.wallets, buyerUser), order, amount, key.value, op.stamps);
    }
  }

  /** After a hold, another order of the same buyer can still be held while the wallet covers both. */
  lemma CanHoldNext(w: World, held: World, order: nat, next: nat, buyerUser: nat, sellerUser: Option<nat>, amount: int, more: int)
    requires CanHold(w, order, buyerUser, amount) && HoldRows(w, held, order, buyerUser, sellerUser, amount)
    requires w.escrows == [] && next != order && next in w.orders && more > 0
    requires var buyer := FindWallet(w.wallets, buyerUser); amount + more <= w.wallets[buyer].balance - w.wallets[buyer].locked
    ensures CanHold(held, next, buyerUser, more) && FindWallet(held.wallets, buyerUser) == FindWallet(w.wallets, buyerUser)
  {
    MoveKeepsFind(w.wallets, FindWallet(w.wallets, buyerUser), 0, amount, buyerUser);
    assert held.escrows[1..] == [];
  }

  lemma BothHeld(w0: World, held: World, w: World, first: nat, second: nat, buyerUser: nat, sellerUser: nat, actor: nat, amount: int, more: int)
    requires w0.escrows == [] && first != second && FindWallet(w0.wallets, sellerUser) < |w0.wallets|
    requires HoldRows(w0, held, first, buyerUser, Some(sellerUser), amount) && HoldRows(held, w, second, buyerUser, None, more)
    requires FindWallet(held.wallets, buyerUser) == FindWallet(w0.wallets, buyerUser)
    requires BuyerOf(w0.orders[first]) == Some(actor)
    requires w0.wallets[FindWallet(w0.wallets, buyerUser)].locked >= 0
    ensures |w.escrows| == 2 && var e := w.escrows[0];
      && e.status == EscrowStatus.ACTIVE && e.seller.Some? && e.amount == amount && e.order == first && first in w.orders
      && BuyerOf(w.orders[first]) == Some(actor) && e.buyer < |w.wallets| && w.wallets[e.buyer].locked >= amount + more
  {
  }

  /** A buyer's wallet covers the amounts of two orders without escrows. */
  ghost predicate CanHoldBoth(w0: World, first: nat, second: nat, buyerUser: nat, amount: int, more: int) {
    var buyer := FindWallet(w0.wallets, buyerUser);
    && Initial(w0) && CanHold(w0, first, buyerUser, amount) && first != second && second in w0.orders && more > 0
    && amount + more <= w0.wallets[buyer].balance - w0.wallets[buyer].locked
  }

  /** The buyer's first hold, with the second still possible. */
  lemma FirstHold(w0: World, first: nat, second: nat, buyerUser: nat, sellerUser: Option<nat>, amount: int, more: int, key: Option<string>)
    returns (ops: seq<Op>, w: World)
    requires CanHoldBoth(w0, first, second, buyerUser, amount, more) && FreshKey(w0.books, key)
    ensures |ops| == 1 && Reaches(w0, ops, w) && Inv(w0, w) && CanHold(w, second, buyerUser, more)
    ensures HoldRows(w0, w, first, buyerUser, sellerUser, amount) && FindWallet(w.wallets, buyerUser) == FindWallet(w0.wallets, buyerUser)
    ensures key.Some? ==> KeyUsed(w.books.journals, key.value)
  {
    StartIsReached(w0);
    var one;
    one, w := AddHold(w0, [], w0, first, buyerUser, sellerUser, amount, key);
    ops := [] + [one];
    hide *;
    CanHoldLater(w0, w, first, second, buyerUser, sellerUser, amount, more);
  }

  lemma CanHoldLater(w0: World, w: World, first: nat, second: nat, buyerUser: nat, sellerUser: Option<nat>, amount: int, more: int)
    requires CanHoldBoth(w0, first, second, buyerUser, amount, more) && HoldRows(w0, w, first, buyerUser, sellerUser, amount)
    ensures CanHold(w, second, buyerUser, more) && FindWallet(w.wallets, buyerUser) == FindWallet(w0.wallets, buyerUser)
  {
    CanHoldNext(w0, w, first, second, buyerUser, sellerUser, amount, more);
  }

  /** A hold that repeats the key of an earlier journal is carried out whenever the wallet covers it. */
  lemma ReplayedHoldIsCarried(w: World, order: nat, buyerUser: nat, amount: int, key: string, stamps: seq<Stamp>)
    requires Linked(w) && Sound(w.books) && |stamps| == 4 && FreshStamps(w.books, stamps)
    requires CanHold(w, order, buyerUser, amount) && key != "" && KeyUsed(w.books.journals, key)
    ensures var replay := Create(order, buyerUser, None, amount, Some(key), stamps);
      FreshFor(w, replay) && Carried(w, replay) && Replays(w.books, replay.key)
  {
    hide CreateEscrow, Sound, KeyUsed, Linked;
    HoldNeverStuck(w, order, buyerUser, None, amount, Some(key), stamps);
  }

  /**
   From any initial state whose buyer covers two orders, holding both with the same key is a run: the
   second hold is carried out although its journal is the first one's, and wallets and ledger disagree.
   */
  lemma ReplayIsReachable(w0: World, first: nat, second: nat, buyerUser: nat, amount: int, more: int, key: string)
    returns (ops: seq<Op>, w: World, replay: Op)
    requires CanHoldBoth(w0, first, second, buyerUser, amount, more) && key != "" && FreshKey(w0.books, Some(key))
    ensures |ops| == 1 && Reaches(w0, ops, w) && Linked(w) && FreshFor(w, replay) && Carried(w, replay)
    ensures Posts(replay) && Replays(w.books, replay.key) && !Agreement(w0, Step(w, replay).0)
  {
    ops, w := FirstHold(w0, first, second, buyerUser, None, amount, more, Some(key));
    replay := Create(second, buyerUser, None, more, Some(key), NextStamps(w.books));
    hide *;
    InvIsLinked(w0, w);
    ReplayedHoldIsCarried(w, second, buyerUser, more, key, replay.stamps);
    AgreementExactlyWithoutReplay(w0, w, replay);
  }

  /** A release whose negative fee the buyer's other holds cover is accepted, and locks and totals no longer add up. */
  lemma NegativeFeeBreaks(w0: World, w: World, id: nat, actor: nat, fee: int, key: Option<string>, stamps: seq<Stamp>)
    requires Inv(w0, w) && id < |w.escrows| && w.escrows[id].order in w.orders && w.escrows[id].buyer < |w.wallets| && Linked(w)
    requires |stamps| == 4 && FreshStamps(w.books, stamps) && FreshKey(w.books, key) && fee < 0 < w.escrows[id].amount
    requires var e := w.escrows[id];
      e.status == EscrowStatus.ACTIVE && e.seller.Some? && BuyerOf(w.orders[e.order]) == Some(actor) && w.wallets[e.buyer].locked >= e.amount - fee
    ensures var (after, outcome) := ReleaseEscrow(w, id, User(actor), fee, key, stamps);
      outcome == Done(id) && Agreement(w0, after) && !LockedAgrees(w0, after) && !Conserved(w0, after)
  {
    assert Open(w.escrows[id].status);
    FreshIsNoReplay(w.books, key);
    hide *;
    ReleaseAcceptedExactly(w0, w, id, User(actor), fee, key, stamps);
    ReleaseExactlyWithFee(w0, w, ReleaseEscrow(w, id, User(actor), fee, key, stamps).0, id, User(actor), fee, key, stamps);
  }

  lemma TwoHolds(w0: World, first: nat, second: nat, buyerUser: nat, sellerUser: nat, actor: nat, amount: int, more: int)
    returns (ops: seq<Op>, w: World)
    requires CanHoldBoth(w0, first, second, buyerUser, amount, more) && FindWallet(w0.wallets, sellerUser) < |w0.wallets|
    requires BuyerOf(w0.orders[first]) == Some(actor)
    ensures Reaches(w0, ops, w) && Inv(w0, w) && |w.escrows| == 2
    ensures var e := w.escrows[0];
      && e.status == EscrowStatus.ACTIVE && e.seller.Some? && e.amount == amount && e.order in w.orders
      && BuyerOf(w.orders[e.order]) == Some(actor) && e.buyer < |w.wallets| && w.wallets[e.buyer].locked >= amount + more && amount > 0
  {
    var held, two;
    ops, held := FirstHold(w0, first, second, buyerUser, Some(sellerUser), amount, more, None);
    assert w0.wallets[FindWallet(w0.wallets, buyerUser)].locked >= 0 && w0.escrows == [];
    hide Inv, Reaches, HoldRows, CanHold, Sound;
    two, w := AddHold(w0, ops, held, second, buyerUser, None, more, None);
    ops := ops + [two];
    BothHeld(w0, held, w, first, second, buyerUser, sellerUser, actor, amount, more);
  }

  /**
   From any initial state whose buyer covers two orders, the buyer can hold both and release the first with
   a fee of minus the second amount: the seller gets both amounts, and locks and totals no longer add up.
   */
  lemma OverpaymentIsReachable(w0: World, first: nat, second: nat, buyerUser: nat, sellerUser: nat, actor: nat, amount: int, more: int)
    returns (ops: seq<Op>, w: World, stamps: seq<Stamp>)
    requires CanHoldBoth(w0, first, second, buyerUser, amount, more) && FindWallet(w0.wallets, sellerUser) < |w0.wallets|
    requires BuyerOf(w0.orders[first]) == Some(actor)
    ensures Reaches(w0, ops, w) && Linked(w) && |stamps| == 4 && FreshStamps(w.books, stamps)
    ensures var (after, outcome) := ReleaseEscrow(w, 0, User(actor), -more, None, stamps);
      outcome == Done(0) && Agreement(w0, after) && !LockedAgrees(w0, after) && !Conserved(w0, after)
  {
    hide BuyerOf, FindWallet, Initial, Move, EscrowNext, OrderNext, Sound, Reaches, Inv, Linked, ReleaseEscrow, FreshStamps;
    hide Agreement, LockedAgrees, Conserved, CanHold;
    ops, w := TwoHolds(w0, first, second, buyerUser, sellerUser, actor, amount, more);
    stamps := NextStamps(w.books);
    InvIsLinked(w0, w);
    NegativeFeeBreaks(w0, w, 0, actor, -more, None, stamps);
  }
}
