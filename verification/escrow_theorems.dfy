/** Invariants of every escrow run, and exactly when they hold. */
module EscrowTheorems {
  import opened Common
  import opened Ledger
  import opened Escrow
  import opened EscrowAgreement

  // ---------- the invariants ----------

  predicate InStep(e: EscrowStatus, o: OrderStatus) {
    match e
    case ACTIVE | HELD => o == OrderStatus.PAID
    case DISPUTED => o == OrderStatus.DISPUTED
    case RELEASED | REFUNDED | ADJUSTED => o == OrderStatus.COMPLETED || o == OrderStatus.REFUNDED
  }

  /** Escrow rows: one per order, positive, in lockstep with the order, and disputed only with a dispute row. */
  ghost predicate RowsAgree(w: World) {
    && Linked(w)
    && (forall i, j :: 0 <= i < j < |w.escrows| ==> w.escrows[i].order != w.escrows[j].order)
    && (forall i :: 0 <= i < |w.escrows| ==> w.escrows[i].amount > 0)
    && (forall i :: 0 <= i < |w.escrows| ==> InStep(w.escrows[i].status, w.orders[w.escrows[i].order].status))
    && (forall i :: 0 <= i < |w.escrows| && w.escrows[i].status == EscrowStatus.DISPUTED ==> w.escrows[i].order in w.disputes)
    && (forall o :: o in w.disputes ==> exists i :: 0 <= i < |w.escrows| && w.escrows[i].order == o
                                                    && w.escrows[i].status != EscrowStatus.ACTIVE && w.escrows[i].status != EscrowStatus.HELD)
  }

  /** How far a wallet's available amount is from its ledger account. */
  function Drift(w: World, i: nat): int
    requires i < |w.wallets|
  {
    w.wallets[i].balance - w.wallets[i].locked - KeyBalance(w.books, UserKey(i))
  }

  function FirstDrift(w0: World, i: nat): int {
    if i < |w0.wallets| then Drift(w0, i) else 0
  }

  function FirstLocked(w0: World, i: nat): int {
    if i < |w0.wallets| then w0.wallets[i].locked else 0
  }

  /** The wallet table refines the ledger, and the holding account is what the open escrows hold. */
  ghost predicate Agreement(w0: World, w: World) {
    && (forall i :: 0 <= i < |w.wallets| ==> Drift(w, i) == FirstDrift(w0, i))
    && KeyBalance(w.books, HOLDING) == KeyBalance(w0.books, HOLDING) + OpenTotal(w.escrows)
  }

  /** Each wallet's locked amount is its own open holds on top of a constant. */
  ghost predicate LockedAgrees(w0: World, w: World) {
    forall i :: 0 <= i < |w.wallets| ==> w.wallets[i].locked == FirstLocked(w0, i) + OpenOf(w.escrows, i)
  }

  ghost predicate Conserved(w0: World, w: World) {
    WalletTotal(w.wallets) + KeyBalance(w.books, FEES) == WalletTotal(w0.wallets) + KeyBalance(w0.books, FEES)
  }

  ghost predicate WalletsSolvent(w: World) {
    forall i :: 0 <= i < |w.wallets| ==> 0 <= w.wallets[i].locked <= w.wallets[i].balance
  }

  /** Ledger accounts belong to existing wallets. */
  ghost predicate AccountsOwned(w: World) {
    forall i :: i >= |w.wallets| ==> KeyBalance(w.books, UserKey(i)) == 0
  }

  ghost predicate FlowsShow(b: Books, order: nat, locks: nat, payouts: nat, held: int, paid: int) {
    && Locks(b.journals, order) == locks && Payouts(b.journals, order) == payouts
    && HeldFor(b, |b.entries|, order) == held && PaidFor(b, |b.entries|, order) == paid
  }

  ghost predicate EscrowPaidOnce(b: Books, e: Escrow) {
    if Open(e.status) then FlowsShow(b, e.order, 1, 0, e.amount, 0) else FlowsShow(b, e.order, 1, 1, 0, e.amount)
  }

  /** An order's journals: one lock, and one payout of exactly the escrowed amount once the escrow is closed. */
  ghost predicate SinglePayout(w: World) {
    && (forall i :: 0 <= i < |w.escrows| ==> EscrowPaidOnce(w.books, w.escrows[i]))
    && (forall o :: NoEscrow(w.escrows, o) ==> FlowsShow(w.books, o, 0, 0, 0, 0))
  }

  ghost predicate NoEscrow(escrows: seq<Escrow>, order: nat) {
    forall i :: 0 <= i < |escrows| ==> escrows[i].order != order
  }

  /** Any wallets, orders and balanced books, but no escrow and no journal on behalf of an order yet. */
  ghost predicate Initial(w0: World) {
    && w0.escrows == [] && w0.disputes == map[] && Sound(w0.books) && WalletsSolvent(w0) && AccountsOwned(w0)
    && (forall o :: FlowsShow(w0.books, o, 0, 0, 0, 0))
  }

  ghost predicate Inv(w0: World, w: World) {
    && |w0.wallets| <= |w.wallets| && (forall i :: 0 <= i < |w0.wallets| ==> w0.wallets[i].locked >= 0)
    && RowsAgree(w) && Sound(w.books) && AccountsOwned(w)
    && Agreement(w0, w) && LockedAgrees(w0, w) && Conserved(w0, w) && WalletsSolvent(w)
    && SinglePayout(w)
  }

  // ---------- creating a hold ----------

  lemma HoldKeepsMoney(w0: World, w: World, after: World, buyer: nat, e: Escrow)
    requires Inv(w0, w) && buyer < |w.wallets| && e.buyer == buyer && e.status == EscrowStatus.ACTIVE && e.amount > 0
    requires w.wallets[buyer].balance - w.wallets[buyer].locked >= e.amount
    requires BooksMove(w.books, after.books, e.order, true, e.amount, buyer, -e.amount, buyer, 0, 0)
    requires after.wallets == Move(w.wallets, buyer, 0, e.amount) && after.escrows == w.escrows + [e]
    ensures Agreement(w0, after) && LockedAgrees(w0, after) && Conserved(w0, after) && WalletsSolvent(after) && AccountsOwned(after)
  {
    hide Sound, FlowsMove, SinglePayout, RowsAgree;
    WalletTotalMove(w.wallets, buyer, 0, e.amount);
    assert after.escrows[..|w.escrows|] == w.escrows;
    forall i | 0 <= i < |after.wallets|
      ensures Drift(after, i) == FirstDrift(w0, i)
    {
      assert Drift(w, i) == FirstDrift(w0, i);
    }
  }

  lemma HoldKeepsFlows(w: World, after: World, e: Escrow)
    requires SinglePayout(w) && NoEscrow(w.escrows, e.order) && Open(e.status)
    requires after.escrows == w.escrows + [e]
    requires forall o :: FlowsMove(w.books, after.books, o, e.order, true, e.amount)
    ensures SinglePayout(after)
  {
    forall i | 0 <= i < |after.escrows|
      ensures EscrowPaidOnce(after.books, after.escrows[i])
    {
      assert FlowsMove(w.books, after.books, after.escrows[i].order, e.order, true, e.amount);
      if i < |w.escrows| {
        assert EscrowPaidOnce(w.books, w.escrows[i]);
      } else {
        assert FlowsShow(w.books, e.order, 0, 0, 0, 0);
      }
    }
    forall o | NoEscrow(after.escrows, o)
      ensures FlowsShow(after.books, o, 0, 0, 0, 0)
    {
      assert after.escrows[|w.escrows|] == e;
      assert NoEscrow(w.escrows, o) by {
        assert forall i :: 0 <= i < |w.escrows| ==> after.escrows[i] == w.escrows[i];
      }
      assert FlowsMove(w.books, after.books, o, e.order, true, e.amount);
    }
  }

  lemma HoldKeepsRows(w: World, after: World, e: Escrow)
    requires RowsAgree(w) && NoEscrow(w.escrows, e.order) && e.order in w.orders
    requires e.amount > 0 && e.status == EscrowStatus.ACTIVE && e.buyer < |w.wallets|
    requires e.seller.Some? ==> e.seller.value < |w.wallets|
    requires |after.wallets| == |w.wallets| && after.escrows == w.escrows + [e] && after.disputes == w.disputes
    requires after.orders == w.orders[e.order := w.orders[e.order].(status := OrderStatus.PAID)]
    ensures RowsAgree(after)
  {
    forall o | o in after.disputes
      ensures exists i :: 0 <= i < |after.escrows| && after.escrows[i].order == o
                          && after.escrows[i].status != EscrowStatus.ACTIVE && after.escrows[i].status != EscrowStatus.HELD
    {
      var i :| 0 <= i < |w.escrows| && w.escrows[i].order == o
               && w.escrows[i].status != EscrowStatus.ACTIVE && w.escrows[i].status != EscrowStatus.HELD;
      assert after.escrows[i] == w.escrows[i];
    }
  }

  ghost predicate FreshFor(w: World, op: Op) {
    Posts(op) ==> |op.stamps| == 4 && FreshStamps(w.books, op.stamps)
  }

  /** What an accepted new hold decides. */
  lemma CreateShape(w: World, after: World, order: nat, buyerUser: nat, sellerUser: Option<nat>, amount: int, key: Option<string>, stamps: seq<Stamp>)
    requires |stamps| == 4 && FindEscrow(w.escrows, order) == |w.escrows|
    requires CreateEscrow(w, order, buyerUser, sellerUser, amount, key, stamps) == (after, Done(|w.escrows|))
    ensures var buyer := FindWallet(w.wallets, buyerUser);
      var (books, result) := BooksAfterHold(w.books, buyer, order, amount, key, stamps);
      && buyer < |w.wallets| && amount > 0 && w.wallets[buyer].balance - w.wallets[buyer].locked >= amount && order in w.orders
      && Recorded(result) && after.books == books && after.wallets == Move(w.wallets, buyer, 0, amount)
      && |after.escrows| == |w.escrows| + 1 && after.disputes == w.disputes
      && after.orders == w.orders[order := w.orders[order].(status := OrderStatus.PAID)]
      && var e := after.escrows[|w.escrows|];
      && after.escrows == w.escrows + [e] && e.order == order && e.buyer == buyer && e.amount == amount
      && e.status == EscrowStatus.ACTIVE && (e.seller.Some? ==> e.seller.value < |w.wallets|)
  {
    hide Post, BooksAfterHold;
  }

  lemma CreateKeeps(w0: World, w: World, order: nat, buyerUser: nat, sellerUser: Option<nat>, amount: int, key: Option<string>, stamps: seq<Stamp>)
    requires Inv(w0, w) && |stamps| == 4 && FreshStamps(w.books, stamps) && !Replays(w.books, key)
    ensures Inv(w0, CreateEscrow(w, order, buyerUser, sellerUser, amount, key, stamps).0)
  {
    hide Post, BooksAfterHold, Sound, KeyBalance, Neutral, HeldFor, PaidFor, FlowsMove;
    var (after, outcome) := CreateEscrow(w, order, buyerUser, sellerUser, amount, key, stamps);
    if outcome.Done? && FindEscrow(w.escrows, order) == |w.escrows| {
      CreateShape(w, after, order, buyerUser, sellerUser, amount, key, stamps);
      hide CreateEscrow;
      var buyer := FindWallet(w.wallets, buyerUser);
      HoldMoves(w.books, buyer, order, amount, key, stamps);
      assert BooksMove(w.books, after.books, order, true, amount, buyer, -amount, buyer, 0, 0);
      HoldKeepsMoney(w0, w, after, buyer, after.escrows[|w.escrows|]);
      HoldKeepsFlows(w, after, after.escrows[|w.escrows|]);
      HoldKeepsRows(w, after, after.escrows[|w.escrows|]);
    }
  }

  // ---------- settling a hold ----------

  function Payee(e: Escrow): nat {
    if e.seller.Some? then e.seller.value else e.buyer
  }

  /** Closing an escrow by returning `refund` to the buyer, paying `payout` to the seller and keeping `fee`. */
  ghost predicate IsSettlement(w: World, after: World, id: nat, refund: int, payout: int, fee: int) {
    && id < |w.escrows| && Linked(w)
    && var e := w.escrows[id];
    && Open(e.status) && refund >= 0 && payout >= 0 && fee >= 0 && refund + payout + fee == e.amount
    && after.wallets == Move(Move(w.wallets, e.buyer, -(e.amount - refund), -e.amount), Payee(e), payout, 0)
    && BooksMove(w.books, after.books, e.order, false, -e.amount, e.buyer, refund, Payee(e), payout, fee)
    && IsClosing(w, after, id)
  }

  ghost predicate IsClosing(w: World, after: World, id: nat) {
    && id < |w.escrows| && Linked(w) && id < |after.escrows| && w.escrows[id].order in after.orders
    && var e := w.escrows[id];
    && after.escrows == w.escrows[id := e.(status := after.escrows[id].status)] && !Open(after.escrows[id].status)
    && after.orders == w.orders[e.order := w.orders[e.order].(status := after.orders[e.order].status)]
    && (after.orders[e.order].status == OrderStatus.COMPLETED || after.orders[e.order].status == OrderStatus.REFUNDED)
    && after.disputes.Keys == w.disputes.Keys
  }

  lemma SettledWallet(w: World, after: World, id: nat, refund: int, payout: int, fee: int, i: nat)
    requires IsSettlement(w, after, id, refund, payout, fee) && i < |w.wallets|
    ensures var e := w.escrows[id];
      && |after.wallets| == |w.wallets|
      && after.wallets[i].balance == w.wallets[i].balance - (if i == e.buyer then e.amount - refund else 0) + (if i == Payee(e) then payout else 0)
      && after.wallets[i].locked == w.wallets[i].locked - (if i == e.buyer then e.amount else 0)
      && KeyBalance(after.books, UserKey(i)) == KeyBalance(w.books, UserKey(i)) + (if i == e.buyer then refund else 0) + (if i == Payee(e) then payout else 0)
  {
  }

  lemma SettlementKeepsWallets(w0: World, w: World, after: World, id: nat, refund: int, payout: int, fee: int)
    requires Inv(w0, w) && IsSettlement(w, after, id, refund, payout, fee)
    ensures forall i :: 0 <= i < |after.wallets| ==> Drift(after, i) == FirstDrift(w0, i)
    ensures LockedAgrees(w0, after) && WalletsSolvent(after)
  {
    OpenUpdate(w.escrows, id, after.escrows[id].status);
    OpenAtLeastOne(w.escrows, id);
    forall i | 0 <= i < |after.wallets|
      ensures Drift(after, i) == FirstDrift(w0, i)
      ensures after.wallets[i].locked == FirstLocked(w0, i) + OpenOf(after.escrows, i)
      ensures 0 <= after.wallets[i].locked <= after.wallets[i].balance
    {
      SettledWallet(w, after, id, refund, payout, fee, i);
      assert Drift(w, i) == FirstDrift(w0, i);
      assert w.wallets[i].locked == FirstLocked(w0, i) + OpenOf(w.escrows, i);
    }
  }

  lemma SettledWalletTotal(w: World, after: World, id: nat, refund: int, payout: int, fee: int)
    requires IsSettlement(w, after, id, refund, payout, fee)
    ensures WalletTotal(after.wallets) == WalletTotal(w.wallets) - fee && |after.wallets| == |w.wallets|
  {
    hide BooksMove, IsClosing;
    var e := w.escrows[id];
    var paid := Move(w.wallets, e.buyer, -(e.amount - refund), -e.amount);
    WalletTotalMove(w.wallets, e.buyer, -(e.amount - refund), -e.amount);
    WalletTotalMove(paid, Payee(e), payout, 0);
  }

  lemma SettledBalances(w: World, after: World, id: nat, refund: int, payout: int, fee: int)
    requires IsSettlement(w, after, id, refund, payout, fee)
    ensures KeyBalance(after.books, HOLDING) == KeyBalance(w.books, HOLDING) - w.escrows[id].amount
    ensures KeyBalance(after.books, FEES) == KeyBalance(w.books, FEES) + fee
    ensures forall i :: i >= |w.wallets| ==> KeyBalance(after.books, UserKey(i)) == KeyBalance(w.books, UserKey(i))
  {
    hide Sound, KeyBalance, FlowsMove, Move, IsClosing;
  }

  lemma SettlementKeepsTotals(w0: World, w: World, after: World, id: nat, refund: int, payout: int, fee: int)
    requires Inv(w0, w) && IsSettlement(w, after, id, refund, payout, fee)
    ensures KeyBalance(after.books, HOLDING) == KeyBalance(w0.books, HOLDING) + OpenTotal(after.escrows)
    ensures Conserved(w0, after) && AccountsOwned(after)
  {
    hide Sound, KeyBalance, BooksMove, RowsAgree, SinglePayout, Move, WalletTotal;
    SettledWalletTotal(w, after, id, refund, payout, fee);
    SettledBalances(w, after, id, refund, payout, fee);
    OpenUpdate(w.escrows, id, after.escrows[id].status);
  }

  lemma SettlementKeepsFlows(w: World, after: World, id: nat, order: nat, hold: int)
    requires RowsAgree(w) && SinglePayout(w) && IsClosing(w, after, id) && Open(w.escrows[id].status)
    requires order == w.escrows[id].order && hold == -w.escrows[id].amount
    requires forall o :: FlowsMove(w.books, after.books, o, order, false, hold)
    ensures SinglePayout(after)
  {
    forall i | 0 <= i < |after.escrows|
      ensures EscrowPaidOnce(after.books, after.escrows[i])
    {
      assert EscrowPaidOnce(w.books, w.escrows[i]);
      assert FlowsMove(w.books, after.books, after.escrows[i].order, order, false, hold);
    }
    forall o | NoEscrow(after.escrows, o)
      ensures FlowsShow(after.books, o, 0, 0, 0, 0)
    {
      assert NoEscrow(w.escrows, o) by {
        assert forall i :: 0 <= i < |w.escrows| ==> after.escrows[i].order == w.escrows[i].order;
      }
      assert FlowsMove(w.books, after.books, o, order, false, hold);
    }
  }

  lemma ClosingKeepsRows(w: World, after: World, id: nat)
    requires RowsAgree(w) && IsClosing(w, after, id) && |after.wallets| == |w.wallets|
    ensures RowsAgree(after)
  {
    hide OpenOf, OpenTotal;
    forall o | o in after.disputes
      ensures exists i :: 0 <= i < |after.escrows| && after.escrows[i].order == o
                          && after.escrows[i].status != EscrowStatus.ACTIVE && after.escrows[i].status != EscrowStatus.HELD
    {
      assert o in w.disputes;
      var i :| 0 <= i < |w.escrows| && w.escrows[i].order == o
               && w.escrows[i].status != EscrowStatus.ACTIVE && w.escrows[i].status != EscrowStatus.HELD;
      assert after.escrows[i].order == o;
    }
  }

  lemma SettlementKeeps(w0: World, w: World, after: World, id: nat, refund: int, payout: int, fee: int)
    requires Inv(w0, w) && IsSettlement(w, after, id, refund, payout, fee)
    ensures Inv(w0, after)
  {
    hide FlowsShow, LockedAgrees, Conserved, WalletsSolvent, AccountsOwned, Drift, KeyBalance, SinglePayout, Move;
    SettlementKeepsWallets(w0, w, after, id, refund, payout, fee);
    SettlementKeepsTotals(w0, w, after, id, refund, payout, fee);
    SettlementKeepsFlows(w, after, id, w.escrows[id].order, -w.escrows[id].amount);
    ClosingKeepsRows(w, after, id);
  }

  lemma ReleaseBooks(b: Books, buyer: nat, seller: nat, order: nat, amount: int, fee: int, key: Option<string>, stamps: seq<Stamp>)
    requires Sound(b) && |stamps| == 4 && FreshStamps(b, stamps) && !Replays(b, key)
    requires Recorded(BooksAfterRelease(b, seller, order, amount, fee, key, stamps).1)
    ensures BooksMove(b, BooksAfterRelease(b, seller, order, amount, fee, key, stamps).0, order, false, -amount, buyer, 0, seller, amount - fee, fee)
  {
    ReleaseMoves(b, seller, order, amount, fee, key, stamps);
  }

  /** Transfer and fee deduction together take the whole amount from the buyer. */
  lemma ReleaseWallets(wallets: seq<Wallet>, buyer: nat, seller: nat, payout: int, fee: int)
    requires buyer < |wallets| && seller < |wallets| && fee >= 0
    ensures var moved := Move(Move(wallets, buyer, -payout, -payout), seller, payout, 0);
      (if fee > 0 then Move(moved, buyer, -fee, -fee) else moved)
      == Move(Move(wallets, buyer, -(payout + fee), -(payout + fee)), seller, payout, 0)
  {
  }

  /** What an accepted release decides, step by step. */
  lemma ReleaseShape(w: World, id: nat, actor: Actor, fee: int, key: Option<string>, stamps: seq<Stamp>)
    requires Linked(w) && |stamps| == 4 && ReleaseEscrow(w, id, actor, fee, key, stamps).1.Done?
    ensures id < |w.escrows| && Open(w.escrows[id].status) && w.escrows[id].seller.Some?
    ensures var (after, e) := (ReleaseEscrow(w, id, actor, fee, key, stamps).0, w.escrows[id]);
      var (books, result) := BooksAfterRelease(w.books, e.seller.value, e.order, e.amount, fee, key, stamps);
      var moved := Move(Move(w.wallets, e.buyer, -(e.amount - fee), -(e.amount - fee)), e.seller.value, e.amount - fee, 0);
      && e.amount - fee > 0 && e.amount - fee <= w.wallets[e.buyer].locked && Recorded(result) && after.books == books
      && after.wallets == (if fee > 0 then Move(moved, e.buyer, -fee, -fee) else moved)
      && IsClosing(w, after, id) && Permitted(w.orders[e.order], actor, MayRelease)
  {
    hide Post, BooksAfterRelease;
  }

  /** An accepted release with a non-negative fee pays amount minus fee to the seller and nothing back. */
  lemma ReleaseIsSettlement(w: World, after: World, id: nat, actor: Actor, fee: int, key: Option<string>, stamps: seq<Stamp>)
    requires Linked(w) && Sound(w.books) && |stamps| == 4 && FreshStamps(w.books, stamps) && !Replays(w.books, key)
    requires ReleaseEscrow(w, id, actor, fee, key, stamps) == (after, Done(id)) && fee >= 0
    ensures IsSettlement(w, after, id, 0, w.escrows[id].amount - fee, fee)
  {
    hide Post, BooksAfterRelease, Sound, Neutral, ReleaseEscrow;
    ReleaseShape(w, id, actor, fee, key, stamps);
    var e := w.escrows[id];
    ReleaseBooks(w.books, e.buyer, e.seller.value, e.order, e.amount, fee, key, stamps);
    ReleaseWallets(w.wallets, e.buyer, e.seller.value, e.amount - fee, fee);
  }

  lemma RefundBooks(b: Books, buyer: nat, payee: nat, order: nat, amount: int, key: Option<string>, stamps: seq<Stamp>)
    requires Sound(b) && |stamps| == 4 && FreshStamps(b, stamps) && !Replays(b, key)
    requires Recorded(BooksAfterRefund(b, buyer, order, amount, key, stamps).1)
    ensures BooksMove(b, BooksAfterRefund(b, buyer, order, amount, key, stamps).0, order, false, -amount, buyer, amount, payee, 0, 0)
  {
    RefundMoves(b, buyer, order, amount, key, stamps);
  }

  lemma RefundIsSettlement(w: World, id: nat, actor: Actor, key: Option<string>, stamps: seq<Stamp>)
    requires Linked(w) && Sound(w.books) && |stamps| == 4 && FreshStamps(w.books, stamps) && !Replays(w.books, key)
    requires RefundEscrow(w, id, actor, key, stamps).1.Done?
    ensures IsSettlement(w, RefundEscrow(w, id, actor, key, stamps).0, id, w.escrows[id].amount, 0, 0)
  {
    var e := w.escrows[id];
    RefundBooks(w.books, e.buyer, Payee(e), e.order, e.amount, key, stamps);
    assert Move(w.wallets, e.buyer, 0, -e.amount) == Move(Move(w.wallets, e.buyer, 0, -e.amount), Payee(e), 0, 0);
  }

  /** Only a contested escrow has a dispute row. */
  lemma DisputeRowMeansContested(w: World, id: nat)
    requires RowsAgree(w) && id < |w.escrows| && w.escrows[id].order in w.disputes
    ensures w.escrows[id].status != EscrowStatus.ACTIVE && w.escrows[id].status != EscrowStatus.HELD
  {
    var i :| 0 <= i < |w.escrows| && w.escrows[i].order == w.escrows[id].order
             && w.escrows[i].status != EscrowStatus.ACTIVE && w.escrows[i].status != EscrowStatus.HELD;
    assert i == id;
  }

  lemma ResolveShape(w: World, id: nat, resolver: nat, refund: int, payout: int, fee: int, resolution: Target,
                     key: Option<string>, stamps: seq<Stamp>)
    requires Linked(w) && |stamps| == 4 && ResolveDispute(w, id, resolver, refund, payout, fee, resolution, key, stamps).1.Done?
    ensures id < |w.escrows| && Open(w.escrows[id].status)
    ensures var (after, e) := (ResolveDispute(w, id, resolver, refund, payout, fee, resolution, key, stamps).0, w.escrows[id]);
      var (books, result) := BooksAfterSplit(w.books, e.buyer, e.seller, e.order, refund, payout, fee, key, stamps);
      var unlocked := Move(w.wallets, e.buyer, -(e.amount - refund), -e.amount);
      && refund + payout + fee == e.amount && Recorded(result) && after.books == books
      && (result.Created? ==> e.order in w.disputes)
      && after.wallets == (if payout > 0 then Move(unlocked, Payee(e), payout, 0) else unlocked)
      && resolution.Status? && resolution.status in EscrowNext(e.status)
      && id < |after.escrows| && after.escrows[id].status == resolution.status
      && (resolution.status != EscrowStatus.DISPUTED ==> IsClosing(w, after, id))
  {
    hide Post, BooksAfterSplit;
  }

  /** A resolution is accepted only as a division of the amount into three non-negative parts. */
  lemma ResolveIsSettlement(w: World, after: World, id: nat, resolver: nat, refund: int, payout: int, fee: int, resolution: Target,
                            key: Option<string>, stamps: seq<Stamp>)
    requires RowsAgree(w) && Sound(w.books) && |stamps| == 4 && FreshStamps(w.books, stamps) && !Replays(w.books, key)
    requires ResolveDispute(w, id, resolver, refund, payout, fee, resolution, key, stamps) == (after, Done(id))
    ensures IsSettlement(w, after, id, refund, payout, fee)
  {
    hide Post, BooksAfterSplit, Sound, Neutral, ResolveDispute;
    ResolveShape(w, id, resolver, refund, payout, fee, resolution, key, stamps);
    var e := w.escrows[id];
    SplitMoves(w.books, e.buyer, e.seller, e.order, refund, payout, fee, key, stamps);
    DisputeRowMeansContested(w, id);
    if payout == 0 {
      var unlocked := Move(w.wallets, e.buyer, -(e.amount - refund), -e.amount);
      assert Move(unlocked, Payee(e), 0, 0) == unlocked;
    }
  }

  // ---------- the operations that move no money ----------

  /** Escrow rows may change status between open ones; wallets and books stay. */
  ghost predicate SameMoney(w: World, after: World) {
    && after.wallets == w.wallets && after.books == w.books && |after.escrows| == |w.escrows|
    && OpenTotal(after.escrows) == OpenTotal(w.escrows) && (forall i :: OpenOf(after.escrows, i) == OpenOf(w.escrows, i))
    && (forall i :: 0 <= i < |w.escrows| ==>
          && after.escrows[i] == w.escrows[i].(status := after.escrows[i].status)
          && (Open(after.escrows[i].status) <==> Open(w.escrows[i].status)))
  }

  lemma SameMoneyKeeps(w0: World, w: World, after: World)
    requires Inv(w0, w) && SameMoney(w, after) && RowsAgree(after)
    ensures Inv(w0, after)
  {
    hide Sound, KeyBalance, RowsAgree, FlowsShow;
    forall i | 0 <= i < |after.wallets|
      ensures Drift(after, i) == FirstDrift(w0, i)
    {
      assert Drift(w, i) == FirstDrift(w0, i);
    }
    forall i | 0 <= i < |after.escrows|
      ensures EscrowPaidOnce(after.books, after.escrows[i])
    {
      assert EscrowPaidOnce(w.books, w.escrows[i]);
    }
    forall o | NoEscrow(after.escrows, o)
      ensures FlowsShow(after.books, o, 0, 0, 0, 0)
    {
      assert NoEscrow(w.escrows, o) by {
        assert forall i :: 0 <= i < |w.escrows| ==> after.escrows[i].order == w.escrows[i].order;
      }
    }
  }

  lemma ContestKeeps(w0: World, w: World, id: nat, actor: Actor)
    requires Inv(w0, w)
    ensures Inv(w0, InitiateDispute(w, id, actor).0)
  {
    assert Linked(w);
    hide Sound, KeyBalance, FlowsShow, SinglePayout, InitiateDispute, RowsAgree, Linked;
    if InitiateDispute(w, id, actor).1.Done? {
      ContestKeepsDisputes(w, id, actor);
      ContestMovesNothing(w, id, actor);
      SameMoneyKeeps(w0, w, InitiateDispute(w, id, actor).0);
    } else {
      RefusedContest(w, id, actor);
    }
  }

  lemma RefusedContest(w: World, id: nat, actor: Actor)
    requires Linked(w)
    ensures InitiateDispute(w, id, actor).1.Rejected? ==> InitiateDispute(w, id, actor).0 == w
  {
  }

  lemma ContestMovesNothing(w: World, id: nat, actor: Actor)
    requires Linked(w) && InitiateDispute(w, id, actor).1.Done?
    ensures SameMoney(w, InitiateDispute(w, id, actor).0)
  {
    OpenUpdate(w.escrows, id, EscrowStatus.DISPUTED);
  }

  lemma ContestKeepsDisputes(w: World, id: nat, actor: Actor)
    requires RowsAgree(w) && InitiateDispute(w, id, actor).1.Done?
    ensures RowsAgree(InitiateDispute(w, id, actor).0)
  {
    hide OpenOf, OpenTotal;
    var after := InitiateDispute(w, id, actor).0;
    forall o | o in after.disputes
      ensures exists i :: 0 <= i < |after.escrows| && after.escrows[i].order == o
                          && after.escrows[i].status != EscrowStatus.ACTIVE && after.escrows[i].status != EscrowStatus.HELD
    {
      if o == w.escrows[id].order {
        assert after.escrows[id].order == o;
      } else {
        var i :| 0 <= i < |w.escrows| && w.escrows[i].order == o
                 && w.escrows[i].status != EscrowStatus.ACTIVE && w.escrows[i].status != EscrowStatus.HELD;
        assert after.escrows[i] == w.escrows[i];
      }
    }
  }

  lemma OpenWalletKeeps(w0: World, w: World, user: nat)
    requires Inv(w0, w)
    ensures Inv(w0, OpenWallet(w, user).0)
  {
    hide Sound, KeyBalance, FlowsShow;
    var (after, outcome) := OpenWallet(w, user);
    if outcome.Done? {
      assert after.wallets[..|w.wallets|] == w.wallets;
      NoBuyerNoHold(w.escrows, |w.wallets|);
      forall i | 0 <= i < |after.wallets|
        ensures Drift(after, i) == FirstDrift(w0, i)
      {
        if i < |w.wallets| {
          assert Drift(w, i) == FirstDrift(w0, i);
        }
      }
    }
  }

  lemma PlaceOrderKeeps(w0: World, w: World, id: nat, order: Order)
    requires Inv(w0, w)
    ensures Inv(w0, PlaceOrder(w, id, order).0)
  {
    hide Sound, KeyBalance, FlowsShow;
    var (after, outcome) := PlaceOrder(w, id, order);
    if outcome.Done? {
      assert forall i :: 0 <= i < |w.escrows| ==> w.escrows[i].order != id;
      SameMoneyKeeps(w0, w, after);
    }
  }

  // ---------- every step, every run ----------

  /** What a caller has to respect: a key not used before (where a key is given) and no negative release fee. */
  ghost predicate Admissible(w: World, op: Op) {
    && FreshFor(w, op)
    && (Posts(op) ==> !Replays(w.books, op.key))
    && (op.Release? ==> op.fee >= 0)
  }

  lemma ReleaseKeeps(w0: World, w: World, id: nat, actor: Actor, fee: int, key: Option<string>, stamps: seq<Stamp>)
    requires Inv(w0, w) && |stamps| == 4 && FreshStamps(w.books, stamps) && !Replays(w.books, key) && fee >= 0
    ensures Inv(w0, ReleaseEscrow(w, id, actor, fee, key, stamps).0)
  {
    hide Post, BooksAfterRelease, Sound, KeyBalance, IsSettlement;
    var (after, outcome) := ReleaseEscrow(w, id, actor, fee, key, stamps);
    if outcome.Done? {
      ReleaseIsSettlement(w, after, id, actor, fee, key, stamps);
      SettlementKeeps(w0, w, after, id, 0, w.escrows[id].amount - fee, fee);
    }
  }

  lemma RefundKeeps(w0: World, w: World, id: nat, actor: Actor, key: Option<string>, stamps: seq<Stamp>)
    requires Inv(w0, w) && |stamps| == 4 && FreshStamps(w.books, stamps) && !Replays(w.books, key)
    ensures Inv(w0, RefundEscrow(w, id, actor, key, stamps).0)
  {
    hide Post, BooksAfterRefund, Sound, KeyBalance, IsSettlement;
    var (after, outcome) := RefundEscrow(w, id, actor, key, stamps);
    if outcome.Done? {
      RefundIsSettlement(w, id, actor, key, stamps);
      SettlementKeeps(w0, w, after, id, w.escrows[id].amount, 0, 0);
    }
  }

  lemma ResolveKeeps(w0: World, w: World, id: nat, resolver: nat, refund: int, payout: int, fee: int, resolution: Target,
                     key: Option<string>, stamps: seq<Stamp>)
    requires Inv(w0, w) && |stamps| == 4 && FreshStamps(w.books, stamps) && !Replays(w.books, key)
    ensures Inv(w0, ResolveDispute(w, id, resolver, refund, payout, fee, resolution, key, stamps).0)
  {
    hide Post, BooksAfterSplit, Sound, KeyBalance, IsSettlement;
    var (after, outcome) := ResolveDispute(w, id, resolver, refund, payout, fee, resolution, key, stamps);
    if outcome.Done? {
      ResolveIsSettlement(w, after, id, resolver, refund, payout, fee, resolution, key, stamps);
      SettlementKeeps(w0, w, after, id, refund, payout, fee);
    }
  }

  lemma StepKeeps(w0: World, w: World, op: Op)
    requires Inv(w0, w) && Admissible(w, op)
    ensures Inv(w0, Step(w, op).0)
  {
    match op
    case Create(order, buyerUser, sellerUser, amount, key, stamps) =>
      CreateKeeps(w0, w, order, buyerUser, sellerUser, amount, key, stamps);
    case Release(id, actor, fee, key, stamps) => ReleaseKeeps(w0, w, id, actor, fee, key, stamps);
    case Refund(id, actor, key, stamps) => RefundKeeps(w0, w, id, actor, key, stamps);
    case Contest(id, actor) => ContestKeeps(w0, w, id, actor);
    case Resolve(id, resolver, refund, payout, fee, resolution, key, stamps) =>
      ResolveKeeps(w0, w, id, resolver, refund, payout, fee, resolution, key, stamps);
    case NewWallet(user) => OpenWalletKeeps(w0, w, user);
    case SetOrder(order, row) => PlaceOrderKeeps(w0, w, order, row);
  }

  /** The states that admissible operations lead to from an initial one. */
  ghost predicate Reaches(w0: World, ops: seq<Op>, w: World)
    decreases |ops|
  {
    if ops == [] then w == w0
    else
      exists before ::
        && Reaches(w0, ops[..|ops| - 1], before) && Linked(before)
        && Admissible(before, ops[|ops| - 1]) && w == Step(before, ops[|ops| - 1]).0
  }

  /**
   Over every admissible run: no wallet drifts from its ledger account, the holding account is the sum of
   the open escrows, locked amounts are the open holds, wallets plus fees are conserved, every wallet stays
   solvent, escrow and order rows stay in lockstep, and every order pays out its amount exactly once.
   */
  lemma {:induction false} EveryRunAgrees(w0: World, ops: seq<Op>, w: World)
    requires Initial(w0) && Reaches(w0, ops, w)
    ensures Inv(w0, w)
    decreases |ops|
  {
    if ops == [] {
      assert Inv(w0, w0);
    } else {
      var before :|
        && Reaches(w0, ops[..|ops| - 1], before) && Linked(before)
        && Admissible(before, ops[|ops| - 1]) && w == Step(before, ops[|ops| - 1]).0;
      EveryRunAgrees(w0, ops[..|ops| - 1], before);
      StepKeeps(w0, before, ops[|ops| - 1]);
    }
  }

  // ---------- exactly when ----------

  /** An operation that was carried out on an escrow's money: a new hold, or the closing of one. */
  predicate Carried(w: World, op: Op)
    requires Linked(w) && WellFormed(op)
  {
    var (after, outcome) := Step(w, op);
    && outcome.Done?
    && match op
       case Create(_, _, _, _, _, _) => |after.escrows| > |w.escrows|
       case Release(id, _, _, _, _) => true
       case Refund(id, _, _, _) => true
       case Resolve(id, _, _, _, _, _, _, _) => id < |after.escrows| && !Open(after.escrows[id].status)
       case _ => false
  }

  lemma ReplayMovesNoBalance(w: World, op: Op)
    requires Linked(w) && Sound(w.books) && FreshFor(w, op) && Carried(w, op) && Replays(w.books, op.key)
    ensures KeyBalance(Step(w, op).0.books, HOLDING) == KeyBalance(w.books, HOLDING)
  {
    hide Post, BooksAfterHold, BooksAfterRelease, BooksAfterRefund, BooksAfterSplit, Sound, KeyBalance;
    match op
    case Create(order, buyerUser, _, amount, key, stamps) =>
      HoldMoves(w.books, FindWallet(w.wallets, buyerUser), order, amount, key, stamps);
    case Release(id, _, fee, key, stamps) =>
      ReleaseMoves(w.books, w.escrows[id].seller.value, w.escrows[id].order, w.escrows[id].amount, fee, key, stamps);
    case Refund(id, _, key, stamps) =>
      RefundMoves(w.books, w.escrows[id].buyer, w.escrows[id].order, w.escrows[id].amount, key, stamps);
    case Resolve(id, _, refund, payout, fee, _, key, stamps) =>
      SplitMoves(w.books, w.escrows[id].buyer, w.escrows[id].seller, w.escrows[id].order, refund, payout, fee, key, stamps);
  }

  lemma CarriedMovesOpenTotal(w: World, op: Op)
    requires RowsAgree(w) && WellFormed(op) && Carried(w, op)
    ensures OpenTotal(Step(w, op).0.escrows) != OpenTotal(w.escrows)
  {
    hide Post, BooksAfterHold, BooksAfterRelease, BooksAfterRefund, BooksAfterSplit, OpenOf, Permitted, Move;
    hide CreateEscrow, ReleaseEscrow, RefundEscrow, ResolveDispute;
    var after := Step(w, op).0;
    match op
    case Create(order, buyerUser, sellerUser, amount, key, stamps) =>
      NewHoldShape(w, order, buyerUser, sellerUser, amount, key, stamps);
      assert after.escrows[..|w.escrows|] == w.escrows;
    case Release(id, actor, fee, key, stamps) =>
      ReleaseShape(w, id, actor, fee, key, stamps);
      OpenUpdate(w.escrows, id, after.escrows[id].status);
    case Refund(id, actor, key, stamps) =>
      RefundShape(w, id, actor, key, stamps);
      OpenUpdate(w.escrows, id, after.escrows[id].status);
    case Resolve(id, resolver, refund, payout, fee, resolution, key, stamps) =>
      ResolveShape(w, id, resolver, refund, payout, fee, resolution, key, stamps);
      OpenUpdate(w.escrows, id, after.escrows[id].status);
  }

  lemma NewHoldShape(w: World, order: nat, buyerUser: nat, sellerUser: Option<nat>, amount: int, key: Option<string>, stamps: seq<Stamp>)
    requires |stamps| == 4
    ensures var (after, outcome) := CreateEscrow(w, order, buyerUser, sellerUser, amount, key, stamps);
      outcome.Done? && |after.escrows| > |w.escrows| ==>
        && |after.escrows| == |w.escrows| + 1 && after.escrows == w.escrows + [after.escrows[|w.escrows|]]
        && OpenAmount(after.escrows[|w.escrows|]) > 0
  {
    hide Post, BooksAfterHold;
  }

  lemma RefundShape(w: World, id: nat, actor: Actor, key: Option<string>, stamps: seq<Stamp>)
    requires Linked(w) && |stamps| == 4 && RefundEscrow(w, id, actor, key, stamps).1.Done?
    ensures id < |w.escrows| && Open(w.escrows[id].status) && IsClosing(w, RefundEscrow(w, id, actor, key, stamps).0, id)
  {
    hide Post, BooksAfterRefund;
  }

  /** A release with a negative fee: the seller gets more than the hold, and the fee account pays for it. */
  ghost predicate IsOverpayment(w: World, after: World, id: nat, seller: nat, fee: int) {
    && IsClosing(w, after, id) && Open(w.escrows[id].status) && fee < 0 && seller < |w.wallets|
    && var e := w.escrows[id];
    && after.wallets == Move(Move(w.wallets, e.buyer, -(e.amount - fee), -(e.amount - fee)), seller, e.amount - fee, 0)
    && BooksMove(w.books, after.books, e.order, false, -e.amount, e.buyer, 0, seller, e.amount - fee, fee)
  }

  lemma OverpaidWallet(w: World, after: World, id: nat, seller: nat, fee: int, i: nat)
    requires IsOverpayment(w, after, id, seller, fee) && i < |w.wallets|
    ensures |after.wallets| == |w.wallets| && Drift(after, i) == Drift(w, i)
    ensures after.wallets[i].locked == w.wallets[i].locked - (if i == w.escrows[id].buyer then w.escrows[id].amount - fee else 0)
  {
  }

  lemma OverpaymentTotals(w: World, after: World, id: nat, seller: nat, fee: int)
    requires IsOverpayment(w, after, id, seller, fee)
    ensures WalletTotal(after.wallets) == WalletTotal(w.wallets)
    ensures KeyBalance(after.books, FEES) == KeyBalance(w.books, FEES) + fee
    ensures KeyBalance(after.books, HOLDING) == KeyBalance(w.books, HOLDING) - w.escrows[id].amount
  {
    var e := w.escrows[id];
    var paid := Move(w.wallets, e.buyer, -(e.amount - fee), -(e.amount - fee));
    WalletTotalMove(w.wallets, e.buyer, -(e.amount - fee), -(e.amount - fee));
    WalletTotalMove(paid, seller, e.amount - fee, 0);
  }

  lemma OverpaymentBreaks(w0: World, w: World, after: World, id: nat, seller: nat, fee: int)
    requires Inv(w0, w) && IsOverpayment(w, after, id, seller, fee)
    ensures Agreement(w0, after) && !LockedAgrees(w0, after) && !Conserved(w0, after)
  {
    hide BooksMove, Sound, KeyBalance, SinglePayout, RowsAgree;
    OverpaymentTotals(w, after, id, seller, fee);
    OpenUpdate(w.escrows, id, after.escrows[id].status);
    forall i | 0 <= i < |w.wallets|
      ensures |after.wallets| == |w.wallets| && Drift(after, i) == FirstDrift(w0, i)
    {
      assert Drift(w, i) == FirstDrift(w0, i);
      OverpaidWallet(w, after, id, seller, fee, i);
    }
    var buyer := w.escrows[id].buyer;
    OverpaidWallet(w, after, id, seller, fee, buyer);
    assert w.wallets[buyer].locked == FirstLocked(w0, buyer) + OpenOf(w.escrows, buyer);
  }

  /** With a fresh journal a release keeps wallets and ledger in agreement whatever the fee, but the rest only for fee >= 0. */
  lemma ReleaseExactlyWithFee(w0: World, w: World, after: World, id: nat, actor: Actor, fee: int, key: Option<string>, stamps: seq<Stamp>)
    requires Inv(w0, w) && |stamps| == 4 && FreshStamps(w.books, stamps) && !Replays(w.books, key)
    requires ReleaseEscrow(w, id, actor, fee, key, stamps) == (after, Done(id))
    ensures Agreement(w0, after)
    ensures LockedAgrees(w0, after) <==> fee >= 0
    ensures Conserved(w0, after) <==> fee >= 0
  {
    hide Post, BooksAfterRelease, Sound, KeyBalance, BooksMove, ReleaseEscrow;
    if fee >= 0 {
      ReleaseKeeps(w0, w, id, actor, fee, key, stamps);
    } else {
      ReleaseShape(w, id, actor, fee, key, stamps);
      var e := w.escrows[id];
      ReleaseBooks(w.books, e.buyer, e.seller.value, e.order, e.amount, fee, key, stamps);
      OverpaymentBreaks(w0, w, after, id, e.seller.value, fee);
    }
  }

  lemma StepIsRelease(w: World, op: Op)
    requires Linked(w) && WellFormed(op) && op.Release?
    ensures Step(w, op) == ReleaseEscrow(w, op.id, op.actor, op.fee, op.key, op.stamps)
    ensures Step(w, op).1.Done? ==> Step(w, op).1 == Done(op.id)
  {
    hide Post, BooksAfterRelease;
  }

  /** Whoever carries money keeps wallets and ledger in agreement exactly when the journal was not a replay. */
  lemma AgreementExactlyWithoutReplay(w0: World, w: World, op: Op)
    requires Inv(w0, w) && FreshFor(w, op) && Carried(w, op)
    ensures Agreement(w0, Step(w, op).0) <==> !Replays(w.books, op.key)
  {
    hide Step, Sound, KeyBalance, SinglePayout, LockedAgrees, Conserved, Drift;
    if Replays(w.books, op.key) {
      ReplayMovesNoBalance(w, op);
      CarriedMovesOpenTotal(w, op);
    } else if op.Release? {
      StepIsRelease(w, op);
      ReleaseExactlyWithFee(w0, w, Step(w, op).0, op.id, op.actor, op.fee, op.key, op.stamps);
    } else {
      StepKeeps(w0, w, op);
    }
  }

  // ---------- the state machines, and what can never get stuck ----------

  /** How one step may treat an escrow row and its order. */
  ghost predicate FollowsTables(w: World, after: World, i: nat) {
    && i < |w.escrows| <= |after.escrows| && w.escrows[i].order in after.orders && w.escrows[i].order in w.orders
    && var (e, f) := (w.escrows[i], after.escrows[i]);
    var (o, p) := (w.orders[e.order].status, after.orders[e.order].status);
    && f == e.(status := f.status)
    && (f.status == e.status || (f.status in EscrowNext(e.status) && Rank(f.status) < Rank(e.status)))
    && (!Open(e.status) ==> f.status == e.status && after.orders[e.order] == w.orders[e.order])
    && (p == o || p in OrderNext(o))
  }

  lemma CloseFollowsTables(w: World, after: World, id: nat, status: EscrowStatus, orderStatus: OrderStatus, i: nat)
    requires RowsAgree(w) && id < |w.escrows| && i < |w.escrows| && status in EscrowNext(w.escrows[id].status)
    requires InStep(status, orderStatus)
    requires after.escrows == w.escrows[id := w.escrows[id].(status := status)]
    requires var o := w.escrows[id].order; after.orders == w.orders[o := w.orders[o].(status := orderStatus)]
    ensures FollowsTables(w, after, i)
  {
  }

  /**
   Every step moves each escrow along its table with a strictly falling rank, or not at all, never
   touches a closed one, and moves the order of an existing escrow only along the order table,
   although the service never consults that table.
   */
  lemma StepFollowsTables(w: World, op: Op, i: nat)
    requires RowsAgree(w) && Sound(w.books) && i < |w.escrows| && FreshFor(w, op) && (Posts(op) ==> !Replays(w.books, op.key))
    ensures FollowsTables(w, Step(w, op).0, i)
  {
    hide Post, BooksAfterHold, BooksAfterRelease, BooksAfterRefund, BooksAfterSplit, Sound, FreshStamps, FollowsTables;
    hide ReleaseEscrow, RefundEscrow, InitiateDispute, ResolveDispute;
    var (after, outcome) := Step(w, op);
    match op
    case Release(id, actor, fee, key, stamps) => ReleaseFollowsTables(w, id, actor, fee, key, stamps, i);
    case Refund(id, actor, key, stamps) => RefundFollowsTables(w, id, actor, key, stamps, i);
    case Contest(id, actor) => ContestFollowsTables(w, id, actor, i);
    case Resolve(id, resolver, refund, payout, fee, resolution, key, stamps) =>
      ResolveFollowsTables(w, id, resolver, refund, payout, fee, resolution, key, stamps, i);
    case _ => Unmoved(w, after, i);
  }

  lemma ReleaseFollowsTables(w: World, id: nat, actor: Actor, fee: int, key: Option<string>, stamps: seq<Stamp>, i: nat)
    requires RowsAgree(w) && i < |w.escrows| && |stamps| == 4
    ensures FollowsTables(w, ReleaseEscrow(w, id, actor, fee, key, stamps).0, i)
  {
    hide Post, BooksAfterRelease, FollowsTables, Permitted, Move;
    var (after, outcome) := ReleaseEscrow(w, id, actor, fee, key, stamps);
    if outcome.Done? {
      CloseFollowsTables(w, after, id, EscrowStatus.RELEASED, OrderStatus.COMPLETED, i);
    } else {
      Unmoved(w, after, i);
    }
  }

  lemma RefundFollowsTables(w: World, id: nat, actor: Actor, key: Option<string>, stamps: seq<Stamp>, i: nat)
    requires RowsAgree(w) && i < |w.escrows| && |stamps| == 4
    ensures FollowsTables(w, RefundEscrow(w, id, actor, key, stamps).0, i)
  {
    hide Post, BooksAfterRefund, FollowsTables, Permitted, Move;
    var (after, outcome) := RefundEscrow(w, id, actor, key, stamps);
    if outcome.Done? {
      CloseFollowsTables(w, after, id, EscrowStatus.REFUNDED, OrderStatus.REFUNDED, i);
    } else {
      Unmoved(w, after, i);
    }
  }

  lemma ContestFollowsTables(w: World, id: nat, actor: Actor, i: nat)
    requires RowsAgree(w) && i < |w.escrows|
    ensures FollowsTables(w, InitiateDispute(w, id, actor).0, i)
  {
    hide FollowsTables, Permitted;
    var (after, outcome) := InitiateDispute(w, id, actor);
    if outcome.Done? {
      CloseFollowsTables(w, after, id, EscrowStatus.DISPUTED, OrderStatus.DISPUTED, i);
    } else {
      Unmoved(w, after, i);
    }
  }

  lemma ResolveFollowsTables(w: World, id: nat, resolver: nat, refund: int, payout: int, fee: int, resolution: Target,
                             key: Option<string>, stamps: seq<Stamp>, i: nat)
    requires RowsAgree(w) && Sound(w.books) && i < |w.escrows| && |stamps| == 4 && FreshStamps(w.books, stamps) && !Replays(w.books, key)
    ensures FollowsTables(w, ResolveDispute(w, id, resolver, refund, payout, fee, resolution, key, stamps).0, i)
  {
    hide Post, BooksAfterSplit, FollowsTables, Move, Sound, FreshStamps;
    var (after, outcome) := ResolveDispute(w, id, resolver, refund, payout, fee, resolution, key, stamps);
    if outcome.Done? {
      ResolveTargetIsClosed(w, after, id, resolver, refund, payout, fee, resolution, key, stamps);
      CloseFollowsTables(w, after, id, resolution.status, OrderStatus.COMPLETED, i);
    } else {
      Unmoved(w, after, i);
    }
  }

  lemma Unmoved(w: World, after: World, i: nat)
    requires RowsAgree(w) && i < |w.escrows| <= |after.escrows| && after.escrows[i] == w.escrows[i]
    requires w.escrows[i].order in after.orders && after.orders[w.escrows[i].order] == w.orders[w.escrows[i].order]
    ensures FollowsTables(w, after, i)
  {
  }

  lemma ResolveTargetIsClosed(w: World, after: World, id: nat, resolver: nat, refund: int, payout: int, fee: int, resolution: Target,
                              key: Option<string>, stamps: seq<Stamp>)
    requires RowsAgree(w) && Sound(w.books) && |stamps| == 4 && FreshStamps(w.books, stamps) && !Replays(w.books, key)
    requires ResolveDispute(w, id, resolver, refund, payout, fee, resolution, key, stamps) == (after, Done(id))
    ensures id < |w.escrows| && resolution.Status? && resolution.status in EscrowNext(w.escrows[id].status) && !Open(resolution.status)
  {
    hide Post, BooksAfterSplit, Sound, Neutral, ResolveDispute;
    ResolveShape(w, id, resolver, refund, payout, fee, resolution, key, stamps);
    SplitMoves(w.books, w.escrows[id].buyer, w.escrows[id].seller, w.escrows[id].order, refund, payout, fee, key, stamps);
    DisputeRowMeansContested(w, id);
  }

  /** A guarantee the service never checks: the money of an open escrow can always be returned by the system, unless the empty key is repeated ... */
  lemma RefundNeverStuck(w0: World, w: World, id: nat, key: Option<string>, stamps: seq<Stamp>)
    requires Inv(w0, w) && id < |w.escrows| && Open(w.escrows[id].status)
    requires |stamps| == 4 && FreshStamps(w.books, stamps)
    ensures RefundEscrow(w, id, System, key, stamps).1 == Done(id) <==> !EmptyKeyTaken(w.books, key)
  {
    hide Post, BooksAfterRefund, Sound;
    var e := w.escrows[id];
    RefundMoves(w.books, e.buyer, e.order, e.amount, key, stamps);
    OpenAtLeastOne(w.escrows, id);
    assert w.wallets[e.buyer].locked == FirstLocked(w0, e.buyer) + OpenOf(w.escrows, e.buyer);
  }

  /** ... and released by its buyer, exactly when there is a seller wallet and the fee leaves the seller something the buyer's lock covers. */
  lemma ReleaseAcceptedExactly(w0: World, w: World, id: nat, actor: Actor, fee: int, key: Option<string>, stamps: seq<Stamp>)
    requires Inv(w0, w) && id < |w.escrows| && |stamps| == 4 && FreshStamps(w.books, stamps)
    ensures var e := w.escrows[id];
      ReleaseEscrow(w, id, actor, fee, key, stamps).1 == Done(id) <==> (
        && Open(e.status) && actor.User? && BuyerOf(w.orders[e.order]) == Some(actor.id) && e.seller.Some?
        && fee < e.amount && e.amount - fee <= w.wallets[e.buyer].locked && !EmptyKeyTaken(w.books, key))
  {
    hide Post, BooksAfterRelease, Sound, KeyBalance, BooksMove, Neutral, SinglePayout, FlowsShow;
    var e := w.escrows[id];
    if e.seller.Some? {
      ReleaseMoves(w.books, e.seller.value, e.order, e.amount, fee, key, stamps);
    }
  }

  /** A fee that is not negative is always covered by the lock. */
  lemma ReleaseNeverStuck(w0: World, w: World, id: nat, actor: Actor, fee: int, key: Option<string>, stamps: seq<Stamp>)
    requires Inv(w0, w) && id < |w.escrows| && fee >= 0
    requires |stamps| == 4 && FreshStamps(w.books, stamps) && FreshKey(w.books, key)
    ensures var e := w.escrows[id];
      ReleaseEscrow(w, id, actor, fee, key, stamps).1 == Done(id)
      <==> Open(e.status) && actor.User? && BuyerOf(w.orders[e.order]) == Some(actor.id) && e.seller.Some? && fee < e.amount
  {
    hide ReleaseEscrow, Sound, KeyBalance, SinglePayout, FlowsShow;
    var e := w.escrows[id];
    ReleaseAcceptedExactly(w0, w, id, actor, fee, key, stamps);
    if Open(e.status) {
      OpenAtLeastOne(w.escrows, id);
    }
    assert w.wallets[e.buyer].locked == FirstLocked(w0, e.buyer) + OpenOf(w.escrows, e.buyer);
  }

  /** The expiry sweep releases as the system, which the release permission never admits: it releases nothing. */
  lemma SystemReleaseIsRefused(w: World, id: nat, fee: int, key: Option<string>, stamps: seq<Stamp>)
    requires Linked(w) && |stamps| == 4
    ensures ReleaseEscrow(w, id, System, fee, key, stamps).1.Rejected? && ReleaseEscrow(w, id, System, fee, key, stamps).0 == w
  {
  }

  /** Each of the verdicts resolveDispute is declared to take is refused, whatever the escrow's state. */
  lemma VerdictIsRefused(w: World, id: nat, resolver: nat, refund: int, payout: int, fee: int, verdict: Verdict,
                         key: Option<string>, stamps: seq<Stamp>)
    requires Linked(w) && |stamps| == 4
    ensures var (after, outcome) := ResolveDispute(w, id, resolver, refund, payout, fee, Cast(verdict), key, stamps);
      after == w && outcome.Rejected?
  {
  }
}
