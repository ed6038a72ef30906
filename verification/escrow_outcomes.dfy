/** What each accepted escrow operation leaves in the rows, and how every closed escrow came to be closed. */
module EscrowOutcomes {
  import opened Common
  import opened Ledger
  import opened Escrow
  import opened EscrowAgreement
  import opened EscrowTheorems

  // ---------- wallets by user ----------

  /** The unique user column of the wallet table. */
  ghost predicate UsersUnique(wallets: seq<Wallet>) {
    forall i, j :: 0 <= i < j < |wallets| ==> wallets[i].user != wallets[j].user
  }

  /** Whatever an operation does to amounts, it leaves the wallets with their users. */
  ghost predicate SameUsers(wallets: seq<Wallet>, after: seq<Wallet>) {
    |after| == |wallets| && forall i :: 0 <= i < |wallets| ==> after[i].user == wallets[i].user
  }

  lemma StepKeepsUsers(w: World, op: Op)
    requires Linked(w) && WellFormed(op)
    ensures op.NewWallet? || SameUsers(w.wallets, Step(w, op).0.wallets)
  {
    hide BooksAfterHold, BooksAfterRelease, BooksAfterRefund, BooksAfterSplit, Permitted, EscrowNext;
  }

  lemma StepKeepsUsersUnique(w: World, op: Op)
    requires Linked(w) && WellFormed(op) && UsersUnique(w.wallets)
    ensures UsersUnique(Step(w, op).0.wallets)
  {
    StepKeepsUsers(w, op);
    if !op.NewWallet? {
      hide Step;
    }
  }

  /** On every run a user has at most one wallet. */
  lemma {:induction false} EveryRunKeepsUsersUnique(w0: World, ops: seq<Op>, w: World)
    requires UsersUnique(w0.wallets) && Reaches(w0, ops, w)
    ensures UsersUnique(w.wallets)
    decreases |ops|
  {
    if ops != [] {
      var before :|
        && Reaches(w0, ops[..|ops| - 1], before) && Linked(before)
        && Admissible(before, ops[|ops| - 1]) && w == Step(before, ops[|ops| - 1]).0;
      EveryRunKeepsUsersUnique(w0, ops[..|ops| - 1], before);
      hide Step, UsersUnique;
      StepKeepsUsersUnique(before, ops[|ops| - 1]);
    }
  }

  // ---------- a new hold, row by row ----------

  /** The wallet row of the seller's user, or none when there is no such user or row. */
  ghost predicate IsSellerRow(wallets: seq<Wallet>, sellerUser: Option<nat>, seller: Option<nat>) {
    match seller
    case Some(j) => sellerUser.Some? && j < |wallets| && wallets[j].user == sellerUser.value
    case None => sellerUser.Some? ==> forall j :: 0 <= j < |wallets| ==> wallets[j].user != sellerUser.value
  }

  /** The i-th wallet has locked the amount, an active escrow has been added, the order is paid, and nothing else has changed. */
  ghost predicate IsNewHold(w: World, after: World, order: nat, i: nat, sellerUser: Option<nat>, amount: int) {
    && |after.wallets| == |w.wallets|
    && (forall k :: 0 <= k < |w.wallets| ==>
          after.wallets[k] == if k == i then w.wallets[k].(locked := w.wallets[k].locked + amount) else w.wallets[k])
    && |after.escrows| == |w.escrows| + 1 && after.escrows[..|w.escrows|] == w.escrows
    && var e := after.escrows[|w.escrows|];
    && e.order == order && e.buyer == i && e.amount == amount && e.status == EscrowStatus.ACTIVE
    && IsSellerRow(w.wallets, sellerUser, e.seller)
    && OnlyOrderChanges(w, after, order, OrderStatus.PAID) && after.disputes == w.disputes
  }

  ghost predicate OnlyOrderChanges(w: World, after: World, order: nat, status: OrderStatus) {
    && after.orders.Keys == w.orders.Keys
    && forall o :: o in w.orders ==> after.orders[o] == if o == order then w.orders[o].(status := status) else w.orders[o]
  }

  lemma HoldLeaves(w: World, order: nat, buyerUser: nat, sellerUser: Option<nat>, amount: int, key: Option<string>, stamps: seq<Stamp>)
    requires |stamps| == 4 && NoEscrow(w.escrows, order) && CreateEscrow(w, order, buyerUser, sellerUser, amount, key, stamps).1.Done?
    ensures CreateEscrow(w, order, buyerUser, sellerUser, amount, key, stamps).1 == Done(|w.escrows|)
    ensures IsNewHold(w, CreateEscrow(w, order, buyerUser, sellerUser, amount, key, stamps).0, order, FindWallet(w.wallets, buyerUser), sellerUser, amount)
  {
    hide BooksAfterHold;
    assert FindEscrow(w.escrows, order) == |w.escrows|;
  }

  /**
   A hold for an order without escrow is accepted exactly when the buyer's own wallet row covers a positive
   amount, the order exists and the key does not repeat the empty one; it locks that row's amount.
   */
  lemma HoldOfBuyerRow(w: World, order: nat, buyerUser: nat, sellerUser: Option<nat>, amount: int, key: Option<string>, stamps: seq<Stamp>, i: nat)
    requires Sound(w.books) && |stamps| == 4 && FreshStamps(w.books, stamps) && UsersUnique(w.wallets)
    requires i < |w.wallets| && w.wallets[i].user == buyerUser && NoEscrow(w.escrows, order)
    ensures var (after, outcome) := CreateEscrow(w, order, buyerUser, sellerUser, amount, key, stamps);
      && (outcome.Done? <==> order in w.orders && 0 < amount <= w.wallets[i].balance - w.wallets[i].locked && !EmptyKeyTaken(w.books, key))
      && (outcome.Done? ==> outcome == Done(|w.escrows|) && IsNewHold(w, after, order, i, sellerUser, amount))
      && (!outcome.Done? ==> after == w)
  {
    assert FindWallet(w.wallets, buyerUser) == i;
    assert FindEscrow(w.escrows, order) == |w.escrows|;
    hide Post, BooksAfterHold, Sound, FindWallet, FindEscrow, IsNewHold, UsersUnique, FreshStamps, Move;
    HoldIsPosted(w.books, i, order, amount, key, stamps);
    if CreateEscrow(w, order, buyerUser, sellerUser, amount, key, stamps).1.Done? {
      HoldLeaves(w, order, buyerUser, sellerUser, amount, key, stamps);
    }
  }

  /** A user without a wallet row cannot hold. */
  lemma NoWalletNoHold(w: World, order: nat, buyerUser: nat, sellerUser: Option<nat>, amount: int, key: Option<string>, stamps: seq<Stamp>)
    requires |stamps| == 4 && NoEscrow(w.escrows, order)
    requires forall i :: 0 <= i < |w.wallets| ==> w.wallets[i].user != buyerUser
    ensures CreateEscrow(w, order, buyerUser, sellerUser, amount, key, stamps) == (w, Rejected(BuyerWalletNotFound))
  {
    assert FindWallet(w.wallets, buyerUser) == |w.wallets| && FindEscrow(w.escrows, order) == |w.escrows|;
  }

  /** An order's escrow is answered again, whatever else is asked for, and nothing is held twice. */
  lemma ExistingEscrowIsReturned(w: World, id: nat, buyerUser: nat, sellerUser: Option<nat>, amount: int, key: Option<string>, stamps: seq<Stamp>)
    requires RowsAgree(w) && |stamps| == 4 && id < |w.escrows|
    ensures CreateEscrow(w, w.escrows[id].order, buyerUser, sellerUser, amount, key, stamps) == (w, Done(id))
  {
    assert FindEscrow(w.escrows, w.escrows[id].order) == id;
  }

  // ---------- what the other operations leave ----------

  /** One escrow and its order have taken these statuses, its order's dispute row is as given, and no other row has changed. */
  ghost predicate OnlyChanges(w: World, after: World, id: nat, status: EscrowStatus, orderStatus: OrderStatus, dispute: Option<Dispute>)
    requires id < |w.escrows|
  {
    var order := w.escrows[id].order;
    && |after.escrows| == |w.escrows|
    && (forall k :: 0 <= k < |w.escrows| ==> after.escrows[k] == if k == id then w.escrows[k].(status := status) else w.escrows[k])
    && OnlyOrderChanges(w, after, order, orderStatus)
    && DisputeOf(after, order) == dispute && forall o :: o != order ==> DisputeOf(after, o) == DisputeOf(w, o)
  }

  function DisputeOf(w: World, order: nat): Option<Dispute> {
    if order in w.disputes then Some(w.disputes[order]) else None
  }

  /** Paying the seller closes the escrow as released and completes the order. */
  lemma ReleaseLeaves(w: World, id: nat, actor: Actor, fee: int, key: Option<string>, stamps: seq<Stamp>)
    requires Linked(w) && |stamps| == 4 && ReleaseEscrow(w, id, actor, fee, key, stamps).1.Done?
    ensures id < |w.escrows|
      && OnlyChanges(w, ReleaseEscrow(w, id, actor, fee, key, stamps).0, id, EscrowStatus.RELEASED, OrderStatus.COMPLETED,
                     DisputeOf(w, w.escrows[id].order))
  {
    hide BooksAfterRelease, Permitted, Move;
  }

  lemma RefundLeaves(w: World, id: nat, actor: Actor, key: Option<string>, stamps: seq<Stamp>)
    requires Linked(w) && |stamps| == 4 && RefundEscrow(w, id, actor, key, stamps).1.Done?
    ensures id < |w.escrows|
      && OnlyChanges(w, RefundEscrow(w, id, actor, key, stamps).0, id, EscrowStatus.REFUNDED, OrderStatus.REFUNDED,
                     DisputeOf(w, w.escrows[id].order))
  {
    hide BooksAfterRefund, Permitted, Move;
  }

  /** In every reachable state exactly a party of an order whose escrow is active or held can open its dispute, which moves no money. */
  lemma ContestAcceptedExactly(w0: World, w: World, id: nat, actor: Actor)
    requires Inv(w0, w) && id < |w.escrows|
    ensures var (after, outcome) := InitiateDispute(w, id, actor);
      var order := w.orders[w.escrows[id].order];
      && (outcome.Done? <==>
            && (w.escrows[id].status == EscrowStatus.ACTIVE || w.escrows[id].status == EscrowStatus.HELD)
            && actor.User? && (order.initiator == actor.id || order.counterparty == Some(actor.id)))
      && (outcome.Done? ==>
            && OnlyChanges(w, after, id, EscrowStatus.DISPUTED, OrderStatus.DISPUTED, Some(Dispute(actor, None)))
            && after.wallets == w.wallets && after.books == w.books)
      && (!outcome.Done? ==> after == w)
  {
    hide Sound, KeyBalance, FlowsShow, Agreement, LockedAgrees, Conserved;
    if w.escrows[id].order in w.disputes {
      DisputeRowMeansContested(w, id);
    }
  }

  /** A resolution gives the escrow the target status, completes the order whatever that status is, and is signed by the resolver. */
  lemma ResolveLeaves(w0: World, w: World, id: nat, resolver: nat, refund: int, payout: int, fee: int, resolution: Target,
                      key: Option<string>, stamps: seq<Stamp>)
    requires Inv(w0, w) && |stamps| == 4 && FreshStamps(w.books, stamps) && !Replays(w.books, key)
    requires ResolveDispute(w, id, resolver, refund, payout, fee, resolution, key, stamps).1.Done?
    ensures id < |w.escrows| && w.escrows[id].status == EscrowStatus.DISPUTED && w.escrows[id].order in w.disputes && resolution.Status?
    ensures resolution.status in {EscrowStatus.ADJUSTED, EscrowStatus.RELEASED, EscrowStatus.REFUNDED}
    ensures OnlyChanges(w, ResolveDispute(w, id, resolver, refund, payout, fee, resolution, key, stamps).0, id, resolution.status,
                        OrderStatus.COMPLETED, Some(w.disputes[w.escrows[id].order].(closedBy := Some(resolver))))
  {
    hide BooksAfterSplit, Sound, KeyBalance, Agreement, LockedAgrees, Conserved, SinglePayout, Move, WalletsSolvent, AccountsOwned;
    var e := w.escrows[id];
    SplitMoves(w.books, e.buyer, e.seller, e.order, refund, payout, fee, key, stamps);
    DisputeRowMeansContested(w, id);
  }

  // ---------- what each refusal means ----------

  predicate IsBuyer(w: World, id: nat, actor: Actor)
    requires Linked(w) && id < |w.escrows|
  {
    actor.User? && BuyerOf(w.orders[w.escrows[id].order]) == Some(actor.id)
  }

  predicate IsSeller(w: World, id: nat, actor: Actor)
    requires Linked(w) && id < |w.escrows|
  {
    actor.User? && SellerOf(w.orders[w.escrows[id].order]) == Some(actor.id)
  }

  /** Which rows and which user a refused hold lacked; every refusal leaves everything as it was. */
  lemma HoldRefusedExactly(w: World, order: nat, buyerUser: nat, sellerUser: Option<nat>, amount: int, key: Option<string>, stamps: seq<Stamp>, i: nat)
    requires Sound(w.books) && |stamps| == 4 && FreshStamps(w.books, stamps) && UsersUnique(w.wallets)
    requires i < |w.wallets| && w.wallets[i].user == buyerUser && NoEscrow(w.escrows, order)
    ensures var (after, outcome) := CreateEscrow(w, order, buyerUser, sellerUser, amount, key, stamps);
      var covered := 0 < amount <= w.wallets[i].balance - w.wallets[i].locked;
      && (outcome == Rejected(AmountNotPositive) <==> amount <= 0)
      && (outcome == Rejected(InsufficientBalance) <==> amount > 0 && !covered)
      && (outcome == Rejected(OrderNotFound) <==> covered && order !in w.orders)
      && (outcome.Rejected? && outcome.why.LedgerRefused? <==> covered && order in w.orders && EmptyKeyTaken(w.books, key))
      && (outcome.Rejected? ==> after == w)
  {
    assert FindWallet(w.wallets, buyerUser) == i;
    assert FindEscrow(w.escrows, order) == |w.escrows|;
    hide Post, BooksAfterHold, Sound, FindWallet, FindEscrow, UsersUnique, FreshStamps, Move;
    HoldIsPosted(w.books, i, order, amount, key, stamps);
  }

  /** In every reachable state each refusal of a release names the first thing that is missing. */
  lemma ReleaseRefusedExactly(w0: World, w: World, id: nat, actor: Actor, fee: int, key: Option<string>, stamps: seq<Stamp>)
    requires Inv(w0, w) && |stamps| == 4 && FreshStamps(w.books, stamps)
    ensures var (after, outcome) := ReleaseEscrow(w, id, actor, fee, key, stamps);
      && (outcome.Rejected? ==> after == w) && (outcome == Rejected(EscrowNotFound) <==> id >= |w.escrows|)
      && (id < |w.escrows| ==>
            var e := w.escrows[id];
            var admitted := Open(e.status) && IsBuyer(w, id, actor);
            var posted := admitted && e.seller.Some? && !EmptyKeyTaken(w.books, key);
            && (outcome == Rejected(InvalidTransition) <==> !Open(e.status))
            && (outcome == Rejected(Unauthorized) <==> Open(e.status) && !IsBuyer(w, id, actor))
            && (outcome == Rejected(SellerWalletNotSet) <==> admitted && e.seller.None?)
            && (outcome.Rejected? && outcome.why.LedgerRefused? <==> admitted && e.seller.Some? && EmptyKeyTaken(w.books, key))
            && (outcome == Rejected(AmountNotPositive) <==> posted && fee >= e.amount)
            && (outcome == Rejected(InsufficientLocked) <==> posted && fee < e.amount && w.wallets[e.buyer].locked < e.amount - fee))
  {
    hide Post, BooksAfterRelease, Sound, KeyBalance, BooksMove, Neutral, SinglePayout, Agreement, LockedAgrees, Conserved, WalletsSolvent;
    if id < |w.escrows| && w.escrows[id].seller.Some? {
      ReleaseMoves(w.books, w.escrows[id].seller.value, w.escrows[id].order, w.escrows[id].amount, fee, key, stamps);
    }
  }

  /** A refund is refused for an unknown or closed escrow, to anybody but its seller and the system, and for a repeated empty key; else it succeeds. */
  lemma RefundDecidedExactly(w0: World, w: World, id: nat, actor: Actor, key: Option<string>, stamps: seq<Stamp>)
    requires Inv(w0, w) && |stamps| == 4 && FreshStamps(w.books, stamps)
    ensures var (after, outcome) := RefundEscrow(w, id, actor, key, stamps);
      && (outcome.Rejected? ==> after == w) && (outcome == Rejected(EscrowNotFound) <==> id >= |w.escrows|)
      && (id < |w.escrows| ==>
            var e := w.escrows[id];
            var admitted := Open(e.status) && (actor == System || IsSeller(w, id, actor));
            && (outcome == Rejected(InvalidTransition) <==> !Open(e.status))
            && (outcome == Rejected(Unauthorized) <==> Open(e.status) && actor != System && !IsSeller(w, id, actor))
            && (outcome.Rejected? && outcome.why.LedgerRefused? <==> admitted && EmptyKeyTaken(w.books, key))
            && (outcome == Done(id) <==> admitted && !EmptyKeyTaken(w.books, key)))
  {
    hide Post, BooksAfterRefund, Sound, KeyBalance, BooksMove, Neutral, SinglePayout, Agreement, Conserved;
    if id < |w.escrows| && Open(w.escrows[id].status) {
      var e := w.escrows[id];
      RefundMoves(w.books, e.buyer, e.order, e.amount, key, stamps);
      OpenAtLeastOne(w.escrows, id);
      assert w.wallets[e.buyer].locked == FirstLocked(w0, e.buyer) + OpenOf(w.escrows, e.buyer);
    }
  }

  /** Opening a dispute is refused for an unknown escrow, for one not active or held, and to anybody but a party. */
  lemma ContestRefusedExactly(w0: World, w: World, id: nat, actor: Actor)
    requires Inv(w0, w)
    ensures var outcome := InitiateDispute(w, id, actor).1;
      && (outcome == Rejected(EscrowNotFound) <==> id >= |w.escrows|)
      && (id < |w.escrows| ==>
            var undisputed := w.escrows[id].status == EscrowStatus.ACTIVE || w.escrows[id].status == EscrowStatus.HELD;
            && (outcome == Rejected(InvalidTransition) <==> !undisputed)
            && (outcome == Rejected(Unauthorized) <==> undisputed && !IsBuyer(w, id, actor) && !IsSeller(w, id, actor)))
  {
    hide Sound, KeyBalance, FlowsShow, Agreement, LockedAgrees, Conserved;
    if id < |w.escrows| && w.escrows[id].order in w.disputes {
      DisputeRowMeansContested(w, id);
    }
  }

  /** A resolution is refused for an unknown escrow, a status its table does not lead to, parts that do not add up, and a payout without seller, in this order. */
  lemma ResolveRefusedExactly(w: World, id: nat, resolver: nat, refund: int, payout: int, fee: int, resolution: Target,
                              key: Option<string>, stamps: seq<Stamp>)
    requires Linked(w) && |stamps| == 4
    ensures var (after, outcome) := ResolveDispute(w, id, resolver, refund, payout, fee, resolution, key, stamps);
      && (outcome.Rejected? ==> after == w) && (outcome == Rejected(EscrowNotFound) <==> id >= |w.escrows|)
      && (id < |w.escrows| ==>
            var e := w.escrows[id];
            var allowed := resolution.Status? && resolution.status in EscrowNext(e.status);
            && (outcome == Rejected(InvalidTransition) <==> !allowed)
            && (outcome == Rejected(WrongDistribution) <==> allowed && refund + payout + fee != e.amount)
            && (outcome == Rejected(SellerWalletNotSet) <==> allowed && refund + payout + fee == e.amount && e.seller.None? && payout > 0))
  {
    hide BooksAfterSplit, Resolved, EscrowNext;
  }

  // ---------- how every escrow came to its status ----------

  predicate HasJournal(journals: seq<Journal>, order: nat, kind: JournalType, amount: int) {
    exists j :: 0 <= j < |journals| && journals[j].order == Some(order) && journals[j].kind == kind && journals[j].amount == amount
  }

  /** The dispute of the order has been closed by a resolver. */
  predicate Settled(w: World, order: nat) {
    DisputeOf(w, order).Some? && DisputeOf(w, order).value.closedBy.Some?
  }

  /** The journal that paid a closed escrow out. */
  function PayoutKind(w: World, e: Escrow): JournalType {
    if Settled(w, e.order) then ADJUSTMENT else if e.status == EscrowStatus.RELEASED then ESCROW_RELEASE else JournalType.REFUND
  }

  /** An open escrow has its lock journal; a closed one also the payout of its amount that its status and dispute call for. */
  predicate Explained(w: World, e: Escrow) {
    && e.order in w.orders && HasJournal(w.books.journals, e.order, ESCROW_LOCK, e.amount)
    && if Open(e.status) then !Settled(w, e.order)
       else
         && HasJournal(w.books.journals, e.order, PayoutKind(w, e), e.amount)
         && (Settled(w, e.order) || e.status == EscrowStatus.RELEASED || e.status == EscrowStatus.REFUNDED)
         && w.orders[e.order].status ==
            if !Settled(w, e.order) && e.status == EscrowStatus.REFUNDED then OrderStatus.REFUNDED else OrderStatus.COMPLETED
  }

  ghost predicate AllExplained(w: World) {
    forall i :: 0 <= i < |w.escrows| ==> Explained(w, w.escrows[i])
  }

  lemma MoreJournals(journals: seq<Journal>, head: Journal, order: nat, kind: JournalType, amount: int)
    ensures HasJournal(journals, order, kind, amount) ==> HasJournal(journals + [head], order, kind, amount)
    ensures head.order == Some(order) && head.kind == kind && head.amount == amount ==> HasJournal(journals + [head], order, kind, amount)
  {
    if HasJournal(journals, order, kind, amount) {
      var j :| 0 <= j < |journals| && journals[j].order == Some(order) && journals[j].kind == kind && journals[j].amount == amount;
      assert (journals + [head])[j] == journals[j];
    } else if head.order == Some(order) && head.kind == kind && head.amount == amount {
      assert (journals + [head])[|journals|] == head;
    }
  }

  lemma EnsureKeepsJournals(b: Books, key: Account)
    ensures EnsureAccount(b, key).journals == b.journals
  {
  }

  /** A posting that is no replay and no refusal adds exactly the requested journal. */
  lemma PostsItsHead(b: Books, req: Request, stamps: seq<Stamp>)
    requires |stamps| == |req.lines| && Recorded(Post(b, req, stamps).1) && !Replays(b, req.head.key)
    ensures Post(b, req, stamps).0.journals == b.journals + [req.head]
  {
  }

  lemma HoldJournal(b: Books, buyer: nat, order: nat, amount: int, key: Option<string>, stamps: seq<Stamp>)
    requires |stamps| == 4 && !Replays(b, key) && Recorded(BooksAfterHold(b, buyer, order, amount, key, stamps).1)
    ensures BooksAfterHold(b, buyer, order, amount, key, stamps).0.journals == b.journals + [Journal(ESCROW_LOCK, amount, key, None, Some(order))]
  {
    hide IndexOf, Post;
    var ready := EnsureAccount(EnsureAccount(b, UserKey(buyer)), HOLDING);
    var lines := HoldLines(IndexOf(ready.accounts, UserKey(buyer)), IndexOf(ready.accounts, HOLDING), amount);
    PostsItsHead(ready, Request(Journal(ESCROW_LOCK, amount, key, None, Some(order)), lines), stamps[..2]);
  }

  lemma ReleaseJournal(b: Books, seller: nat, order: nat, amount: int, fee: int, key: Option<string>, stamps: seq<Stamp>)
    requires |stamps| == 4 && !Replays(b, key) && Recorded(BooksAfterRelease(b, seller, order, amount, fee, key, stamps).1)
    ensures BooksAfterRelease(b, seller, order, amount, fee, key, stamps).0.journals ==
            b.journals + [Journal(ESCROW_RELEASE, amount, key, None, Some(order))]
  {
    hide IndexOf, Post;
    var ready := ReleaseAccounts(b, seller);
    var lines := ReleaseLines(IndexOf(ready.accounts, HOLDING), IndexOf(ready.accounts, UserKey(seller)), IndexOf(ready.accounts, FEES), amount, fee);
    PostsItsHead(ready, Request(Journal(ESCROW_RELEASE, amount, key, None, Some(order)), lines), stamps[..3]);
  }

  lemma RefundJournal(b: Books, buyer: nat, order: nat, amount: int, key: Option<string>, stamps: seq<Stamp>)
    requires |stamps| == 4 && !Replays(b, key) && Recorded(BooksAfterRefund(b, buyer, order, amount, key, stamps).1)
    ensures BooksAfterRefund(b, buyer, order, amount, key, stamps).0.journals ==
            b.journals + [Journal(JournalType.REFUND, amount, key, None, Some(order))]
  {
    hide IndexOf, Post;
    var ready := EnsureAccount(EnsureAccount(b, HOLDING), UserKey(buyer));
    var lines := RefundLines(IndexOf(ready.accounts, HOLDING), IndexOf(ready.accounts, UserKey(buyer)), amount);
    PostsItsHead(ready, Request(Journal(JournalType.REFUND, amount, key, None, Some(order)), lines), stamps[..2]);
  }

  lemma SplitJournal(b: Books, buyer: nat, seller: Option<nat>, order: nat, refund: int, payout: int, fee: int, key: Option<string>, stamps: seq<Stamp>)
    requires |stamps| == 4 && !Replays(b, key) && Recorded(BooksAfterSplit(b, buyer, seller, order, refund, payout, fee, key, stamps).1)
    ensures BooksAfterSplit(b, buyer, seller, order, refund, payout, fee, key, stamps).0.journals ==
            b.journals + [Journal(ADJUSTMENT, refund + payout + fee, key, Some(DisputeLink(order)), Some(order))]
  {
    hide IndexOf, Post;
    var ready := SplitAccounts(b, buyer, seller);
    var payee := if seller.Some? then seller.value else buyer;
    var lines := SplitLines(IndexOf(ready.accounts, HOLDING), IndexOf(ready.accounts, UserKey(buyer)),
                            IndexOf(ready.accounts, UserKey(payee)), IndexOf(ready.accounts, FEES), refund, payout, fee);
    PostsItsHead(ready, Request(Journal(ADJUSTMENT, refund + payout + fee, key, Some(DisputeLink(order)), Some(order)), lines), stamps[..|lines|]);
  }

  /** A closing with its journal explains the escrow it closes and leaves the others explained. */
  lemma ClosingExplains(w: World, after: World, id: nat, head: Journal, status: EscrowStatus, orderStatus: OrderStatus, dispute: Option<Dispute>)
    requires RowsAgree(w) && AllExplained(w) && id < |w.escrows| && !Open(status)
    requires OnlyChanges(w, after, id, status, orderStatus, dispute) && after.books.journals == w.books.journals + [head]
    requires head.order == Some(w.escrows[id].order) && head.amount == w.escrows[id].amount
    requires var settled := dispute.Some? && dispute.value.closedBy.Some?;
      && head.kind == (if settled then ADJUSTMENT else if status == EscrowStatus.RELEASED then ESCROW_RELEASE else JournalType.REFUND)
      && (settled || status == EscrowStatus.RELEASED || status == EscrowStatus.REFUNDED)
      && orderStatus == if !settled && status == EscrowStatus.REFUNDED then OrderStatus.REFUNDED else OrderStatus.COMPLETED
    ensures AllExplained(after)
  {
    hide HasJournal;
    forall i | 0 <= i < |after.escrows|
      ensures Explained(after, after.escrows[i])
    {
      var e := w.escrows[i];
      assert Explained(w, e);
      MoreJournals(w.books.journals, head, e.order, ESCROW_LOCK, e.amount);
      MoreJournals(w.books.journals, head, e.order, PayoutKind(after, after.escrows[i]), e.amount);
    }
  }

  lemma HoldExplains(w: World, after: World, order: nat, i: nat, sellerUser: Option<nat>, amount: int, head: Journal)
    requires RowsAgree(w) && AllExplained(w) && NoEscrow(w.escrows, order) && order in w.orders
    requires IsNewHold(w, after, order, i, sellerUser, amount) && after.books.journals == w.books.journals + [head]
    requires head.order == Some(order) && head.kind == ESCROW_LOCK && head.amount == amount
    ensures AllExplained(after)
  {
    hide HasJournal;
    forall k | 0 <= k < |after.escrows|
      ensures Explained(after, after.escrows[k])
    {
      var f := after.escrows[k];
      MoreJournals(w.books.journals, head, f.order, ESCROW_LOCK, f.amount);
      if k < |w.escrows| {
        assert f == w.escrows[k] && Explained(w, f);
        MoreJournals(w.books.journals, head, f.order, PayoutKind(w, f), f.amount);
      } else {
        assert order !in w.disputes;
      }
    }
  }

  lemma ReleaseExplains(w: World, id: nat, actor: Actor, fee: int, key: Option<string>, stamps: seq<Stamp>)
    requires RowsAgree(w) && AllExplained(w) && |stamps| == 4 && !Replays(w.books, key)
    ensures AllExplained(ReleaseEscrow(w, id, actor, fee, key, stamps).0)
  {
    hide BooksAfterRelease, Permitted, Move, HasJournal;
    var (after, outcome) := ReleaseEscrow(w, id, actor, fee, key, stamps);
    if outcome.Done? {
      var e := w.escrows[id];
      assert Explained(w, e);
      ReleaseLeaves(w, id, actor, fee, key, stamps);
      ReleaseJournal(w.books, e.seller.value, e.order, e.amount, fee, key, stamps);
      hide OnlyChanges, AllExplained;
      ClosingExplains(w, after, id, Journal(ESCROW_RELEASE, e.amount, key, None, Some(e.order)), EscrowStatus.RELEASED, OrderStatus.COMPLETED,
                      DisputeOf(w, e.order));
    }
  }

  lemma RefundExplains(w: World, id: nat, actor: Actor, key: Option<string>, stamps: seq<Stamp>)
    requires RowsAgree(w) && AllExplained(w) && |stamps| == 4 && !Replays(w.books, key)
    ensures AllExplained(RefundEscrow(w, id, actor, key, stamps).0)
  {
    hide BooksAfterRefund, Permitted, Move, HasJournal;
    var (after, outcome) := RefundEscrow(w, id, actor, key, stamps);
    if outcome.Done? {
      var e := w.escrows[id];
      assert Explained(w, e);
      RefundLeaves(w, id, actor, key, stamps);
      RefundJournal(w.books, e.buyer, e.order, e.amount, key, stamps);
      hide OnlyChanges, AllExplained;
      ClosingExplains(w, after, id, Journal(JournalType.REFUND, e.amount, key, None, Some(e.order)), EscrowStatus.REFUNDED, OrderStatus.REFUNDED,
                      DisputeOf(w, e.order));
    }
  }

  lemma ResolveExplains(w0: World, w: World, id: nat, resolver: nat, refund: int, payout: int, fee: int, resolution: Target,
                        key: Option<string>, stamps: seq<Stamp>)
    requires Inv(w0, w) && AllExplained(w) && |stamps| == 4 && FreshStamps(w.books, stamps) && !Replays(w.books, key)
    ensures AllExplained(ResolveDispute(w, id, resolver, refund, payout, fee, resolution, key, stamps).0)
  {
    hide BooksAfterSplit, Move, HasJournal, Sound, KeyBalance, Agreement, LockedAgrees, Conserved, SinglePayout, EscrowNext;
    var (after, outcome) := ResolveDispute(w, id, resolver, refund, payout, fee, resolution, key, stamps);
    if outcome.Done? {
      var e := w.escrows[id];
      ResolveLeaves(w0, w, id, resolver, refund, payout, fee, resolution, key, stamps);
      SplitJournal(w.books, e.buyer, e.seller, e.order, refund, payout, fee, key, stamps);
      hide OnlyChanges, AllExplained;
      ClosingExplains(w, after, id, Journal(ADJUSTMENT, e.amount, key, Some(DisputeLink(e.order)), Some(e.order)), resolution.status, OrderStatus.COMPLETED,
                      Some(w.disputes[e.order].(closedBy := Some(resolver))));
    }
  }

  lemma CreateExplains(w0: World, w: World, order: nat, buyerUser: nat, sellerUser: Option<nat>, amount: int, key: Option<string>, stamps: seq<Stamp>)
    requires Inv(w0, w) && UsersUnique(w.wallets) && AllExplained(w) && |stamps| == 4 && FreshStamps(w.books, stamps) && !Replays(w.books, key)
    ensures AllExplained(CreateEscrow(w, order, buyerUser, sellerUser, amount, key, stamps).0)
  {
    hide BooksAfterHold, HasJournal, Sound, KeyBalance, Agreement, LockedAgrees, Conserved, SinglePayout;
    var (after, outcome) := CreateEscrow(w, order, buyerUser, sellerUser, amount, key, stamps);
    if after != w {
      var i := FindWallet(w.wallets, buyerUser);
      HoldOfBuyerRow(w, order, buyerUser, sellerUser, amount, key, stamps, i);
      HoldJournal(w.books, i, order, amount, key, stamps);
      hide IsNewHold, AllExplained;
      HoldExplains(w, after, order, i, sellerUser, amount, Journal(ESCROW_LOCK, amount, key, None, Some(order)));
    }
  }

  /** Rows that keep their statuses, journals and disputes keep their explanation. */
  lemma SameRowsExplain(w: World, after: World)
    requires AllExplained(w) && after.escrows == w.escrows && after.disputes == w.disputes && after.books == w.books
    requires forall i :: 0 <= i < |w.escrows| ==>
      w.escrows[i].order in w.orders ==> w.escrows[i].order in after.orders && after.orders[w.escrows[i].order] == w.orders[w.escrows[i].order]
    ensures AllExplained(after)
  {
    forall i | 0 <= i < |after.escrows|
      ensures Explained(after, after.escrows[i])
    {
      assert Explained(w, w.escrows[i]);
    }
  }

  lemma ContestExplains(w0: World, w: World, id: nat, actor: Actor)
    requires Inv(w0, w) && AllExplained(w)
    ensures AllExplained(InitiateDispute(w, id, actor).0)
  {
    hide HasJournal, Sound, KeyBalance, Agreement, LockedAgrees, Conserved, SinglePayout, Permitted;
    var after := InitiateDispute(w, id, actor).0;
    if after != w {
      ContestAcceptedExactly(w0, w, id, actor);
      hide InitiateDispute;
      forall i | 0 <= i < |after.escrows|
        ensures Explained(after, after.escrows[i])
      {
        assert Explained(w, w.escrows[i]);
      }
    }
  }

  lemma OpenWalletExplains(w: World, user: nat)
    requires AllExplained(w)
    ensures AllExplained(OpenWallet(w, user).0)
  {
    hide AllExplained;
    SameRowsExplain(w, OpenWallet(w, user).0);
  }

  lemma PlaceOrderExplains(w: World, id: nat, order: Order)
    requires AllExplained(w)
    ensures AllExplained(PlaceOrder(w, id, order).0)
  {
    hide AllExplained;
    if PlaceOrder(w, id, order).1.Done? {
      assert NoEscrow(w.escrows, id);
      SameRowsExplain(w, PlaceOrder(w, id, order).0);
    }
  }

  lemma StepExplains(w0: World, w: World, op: Op)
    requires Inv(w0, w) && UsersUnique(w.wallets) && AllExplained(w) && Admissible(w, op)
    ensures AllExplained(Step(w, op).0)
  {
    assert RowsAgree(w);
    hide AllExplained, UsersUnique, CreateEscrow, ReleaseEscrow, RefundEscrow, InitiateDispute, ResolveDispute, OpenWallet, PlaceOrder;
    hide Inv, FreshStamps, Replays;
    match op
    case Create(order, buyerUser, sellerUser, amount, key, stamps) => CreateExplains(w0, w, order, buyerUser, sellerUser, amount, key, stamps);
    case Release(id, actor, fee, key, stamps) => ReleaseExplains(w, id, actor, fee, key, stamps);
    case Refund(id, actor, key, stamps) => RefundExplains(w, id, actor, key, stamps);
    case Contest(id, actor) => ContestExplains(w0, w, id, actor);
    case Resolve(id, resolver, refund, payout, fee, resolution, key, stamps) =>
      ResolveExplains(w0, w, id, resolver, refund, payout, fee, resolution, key, stamps);
    case NewWallet(user) => OpenWalletExplains(w, user);
    case SetOrder(order, row) => PlaceOrderExplains(w, order, row);
  }

  /**
   On every run each escrow has a lock journal of its amount. A closed one was paid out by a journal of its
   amount: an adjustment once its dispute is closed by a resolver, a release if it reads as released, a refund
   if it reads as refunded; its order is refunded exactly in the last case and completed otherwise.
   */
  lemma {:induction false} EveryRunIsExplained(w0: World, ops: seq<Op>, w: World)
    requires Initial(w0) && UsersUnique(w0.wallets) && Reaches(w0, ops, w)
    ensures AllExplained(w) && UsersUnique(w.wallets)
    decreases |ops|
  {
    EveryRunKeepsUsersUnique(w0, ops, w);
    if ops != [] {
      var before :|
        && Reaches(w0, ops[..|ops| - 1], before) && Linked(before)
        && Admissible(before, ops[|ops| - 1]) && w == Step(before, ops[|ops| - 1]).0;
      EveryRunIsExplained(w0, ops[..|ops| - 1], before);
      EveryRunAgrees(w0, ops[..|ops| - 1], before);
      hide Step, Inv, AllExplained, UsersUnique, Admissible, Linked, Initial;
      StepExplains(w0, before, ops[|ops| - 1]);
    }
  }
}
