/** The escrow service as it runs: rows updated step by step inside a transaction that rolls back on refusal. */
module EscrowServiceModel {
  import opened Common
  import opened Ledger
  import Spec = Escrow
  import opened Escrow
  import opened EscrowAgreement

  /** The closing updates take the books as given and keep the foreign keys. */
  lemma ResolvedRowsAreLinked(w: World, ready: World, id: nat, resolver: nat, refund: int, payout: int, status: EscrowStatus)
    requires Linked(w) && id < |w.escrows| && ready == w.(books := ready.books)
    ensures Linked(ready)
    ensures var after := Resolved(ready, id, resolver, refund, payout, status, ready.books);
      && after == Resolved(w, id, resolver, refund, payout, status, ready.books) && Linked(after) && after.books == ready.books
  {
  }

  class EscrowService {
    const ledger: LedgerService
    var wallets: seq<Wallet>
    var escrows: seq<Escrow>
    var orders: map<nat, Order>
    var disputes: map<nat, Dispute>

    constructor ()
      ensures Valid() && View() == World([], [], map[], map[], Books([], [], []))
      ensures fresh(ledger)
    {
      ledger := new LedgerService();
      wallets, escrows, orders, disputes := [], [], map[], map[];
    }

    function View(): World
      reads this, ledger
    {
      World(wallets, escrows, orders, disputes, ledger.View())
    }

    ghost predicate Valid()
      reads this, ledger
    {
      Linked(View()) && Sound(ledger.View())
    }

    /** The transaction fails: every table returns to the state it had when the transaction began. */
    method Rollback(saved: World)
      modifies this, ledger
      ensures View() == saved
    {
      wallets, escrows, orders, disputes := saved.wallets, saved.escrows, saved.orders, saved.disputes;
      ledger.Rollback(saved.books);
    }

    /** Increments one wallet row. */
    method UpdateWallet(i: nat, balance: int, locked: int)
      requires i < |wallets|
      modifies this`wallets
      ensures wallets == Move(old(wallets), i, balance, locked)
    {
      wallets := wallets[i := wallets[i].(balance := wallets[i].balance + balance, locked := wallets[i].locked + locked)];
    }

    method LockBalance(i: nat, amount: int) returns (refused: Option<Refusal>)
      requires i < |wallets|
      modifies this`wallets
      ensures refused == if amount <= 0 then Some(AmountNotPositive)
                         else if old(wallets)[i].balance - old(wallets)[i].locked < amount then Some(InsufficientBalance)
                         else None
      ensures wallets == if refused.Some? then old(wallets) else Move(old(wallets), i, 0, amount)
    {
      if amount <= 0 {
        return Some(AmountNotPositive);
      }
      var available := wallets[i].balance - wallets[i].locked;
      if available < amount {
        return Some(InsufficientBalance);
      }
      UpdateWallet(i, 0, amount);
      refused := None;
    }

    method UnlockBalance(i: nat, amount: int) returns (refused: Option<Refusal>)
      requires i < |wallets|
      modifies this`wallets
      ensures refused == if amount <= 0 then Some(AmountNotPositive)
                         else if old(wallets)[i].locked < amount then Some(InsufficientLocked)
                         else None
      ensures wallets == if refused.Some? then old(wallets) else Move(old(wallets), i, 0, -amount)
    {
      if amount <= 0 {
        return Some(AmountNotPositive);
      }
      if wallets[i].locked < amount {
        return Some(InsufficientLocked);
      }
      UpdateWallet(i, 0, -amount);
      refused := None;
    }

    method TransferLockedBalance(from: nat, to: nat, amount: int) returns (refused: Option<Refusal>)
      requires from < |wallets| && to < |wallets|
      modifies this`wallets
      ensures refused == if amount <= 0 then Some(AmountNotPositive)
                         else if old(wallets)[from].locked < amount then Some(InsufficientLocked)
                         else None
      ensures wallets == if refused.Some? then old(wallets) else Move(Move(old(wallets), from, -amount, -amount), to, amount, 0)
    {
      if amount <= 0 {
        return Some(AmountNotPositive);
      }
      if wallets[from].locked < amount {
        return Some(InsufficientLocked);
      }
      UpdateWallet(from, -amount, -amount);
      UpdateWallet(to, amount, 0);
      refused := None;
    }

    method SetStatus(id: nat, status: EscrowStatus, orderStatus: OrderStatus)
      requires id < |escrows| && escrows[id].order in orders
      modifies this`escrows, this`orders
      ensures escrows == old(escrows)[id := old(escrows)[id].(status := status)]
      ensures orders == old(orders)[old(escrows)[id].order := old(orders)[old(escrows)[id].order].(status := orderStatus)]
    {
      var order := escrows[id].order;
      escrows := escrows[id := escrows[id].(status := status)];
      orders := orders[order := orders[order].(status := orderStatus)];
    }

    /** The ledger part of createEscrow: find or open the accounts, then recordEscrowHold. */
    method PostHold(buyer: nat, order: nat, amount: int, key: Option<string>, stamps: seq<Stamp>) returns (result: PostResult)
      requires Sound(ledger.View()) && |stamps| == 4 && FreshStamps(ledger.View(), stamps)
      modifies ledger
      ensures (ledger.View(), result) == BooksAfterHold(old(ledger.View()), buyer, order, amount, key, stamps)
      ensures Sound(ledger.View())
    {
      hide Post;
      EnsureAccountIsNeutral(ledger.View(), UserKey(buyer));
      var buyerAccount := ledger.GetOrCreateAccount(UserKey(buyer));
      EnsureAccountIsNeutral(ledger.View(), HOLDING);
      var holding := ledger.GetOrCreateAccount(HOLDING);
      assert buyerAccount == IndexOf(ledger.accounts, UserKey(buyer));
      var head := Journal(ESCROW_LOCK, amount, key, None, Some(order));
      assert FreshStamps(ledger.View(), stamps[..2]);
      result := ledger.CreateJournal(Request(head, HoldLines(buyerAccount, holding, amount)), stamps[..2]);
    }

    /** The ledger part of releaseEscrow, with recordEscrowRelease. */
    method PostRelease(seller: nat, order: nat, amount: int, fee: int, key: Option<string>, stamps: seq<Stamp>) returns (result: PostResult)
      requires Sound(ledger.View()) && |stamps| == 4 && FreshStamps(ledger.View(), stamps)
      modifies ledger
      ensures (ledger.View(), result) == BooksAfterRelease(old(ledger.View()), seller, order, amount, fee, key, stamps)
      ensures Sound(ledger.View())
    {
      hide Post, KeyBalance, IndexOf;
      EnsureAccountIsNeutral(ledger.View(), HOLDING);
      var holding := ledger.GetOrCreateAccount(HOLDING);
      EnsureAccountIsNeutral(ledger.View(), UserKey(seller));
      var sellerAccount := ledger.GetOrCreateAccount(UserKey(seller));
      EnsureAccountIsNeutral(ledger.View(), FEES);
      var fees := ledger.GetOrCreateAccount(FEES);
      assert holding == IndexOf(ledger.accounts, HOLDING) && sellerAccount == IndexOf(ledger.accounts, UserKey(seller));
      var head := Journal(ESCROW_RELEASE, amount, key, None, Some(order));
      assert FreshStamps(ledger.View(), stamps[..3]);
      result := ledger.CreateJournal(Request(head, ReleaseLines(holding, sellerAccount, fees, amount, fee)), stamps[..3]);
    }

    /** The ledger part of refundEscrow, with recordEscrowRefund. */
    method PostRefund(buyer: nat, order: nat, amount: int, key: Option<string>, stamps: seq<Stamp>) returns (result: PostResult)
      requires Sound(ledger.View()) && |stamps| == 4 && FreshStamps(ledger.View(), stamps)
      modifies ledger
      ensures (ledger.View(), result) == BooksAfterRefund(old(ledger.View()), buyer, order, amount, key, stamps)
      ensures Sound(ledger.View())
    {
      hide Post;
      EnsureAccountIsNeutral(ledger.View(), HOLDING);
      var holding := ledger.GetOrCreateAccount(HOLDING);
      EnsureAccountIsNeutral(ledger.View(), UserKey(buyer));
      var buyerAccount := ledger.GetOrCreateAccount(UserKey(buyer));
      assert holding == IndexOf(ledger.accounts, HOLDING);
      var head := Journal(JournalType.REFUND, amount, key, None, Some(order));
      assert FreshStamps(ledger.View(), stamps[..2]);
      result := ledger.CreateJournal(Request(head, RefundLines(holding, buyerAccount, amount)), stamps[..2]);
    }

    method OpenSplitAccounts(buyer: nat, seller: Option<nat>)
      requires Sound(ledger.View())
      modifies ledger
      ensures ledger.View() == SplitAccounts(old(ledger.View()), buyer, seller)
      ensures Sound(ledger.View()) && ledger.entries == old(ledger.entries)
    {
      EnsureAccountIsNeutral(ledger.View(), HOLDING);
      var _ := ledger.GetOrCreateAccount(HOLDING);
      EnsureAccountIsNeutral(ledger.View(), UserKey(buyer));
      var _ := ledger.GetOrCreateAccount(UserKey(buyer));
      if seller.Some? {
        EnsureAccountIsNeutral(ledger.View(), UserKey(seller.value));
        var _ := ledger.GetOrCreateAccount(UserKey(seller.value));
      }
      EnsureAccountIsNeutral(ledger.View(), FEES);
      var _ := ledger.GetOrCreateAccount(FEES);
    }

    /** The ledger part of resolveDispute, with recordDisputeResolution. */
    method PostSplit(buyer: nat, seller: Option<nat>, order: nat, refund: int, payout: int, fee: int, key: Option<string>, stamps: seq<Stamp>)
      returns (result: PostResult)
      requires Sound(ledger.View()) && |stamps| == 4 && FreshStamps(ledger.View(), stamps)
      modifies ledger
      ensures (ledger.View(), result) == BooksAfterSplit(old(ledger.View()), buyer, seller, order, refund, payout, fee, key, stamps)
      ensures Sound(ledger.View())
    {
      hide Post, SplitAccounts;
      OpenSplitAccounts(buyer, seller);
      var payee := if seller.Some? then seller.value else buyer;
      var x, y := IndexOf(ledger.accounts, HOLDING), IndexOf(ledger.accounts, UserKey(buyer));
      var z, fees := IndexOf(ledger.accounts, UserKey(payee)), IndexOf(ledger.accounts, FEES);
      var head := Journal(ADJUSTMENT, refund + payout + fee, key, Some(DisputeLink(order)), Some(order));
      var used := stamps[..|SplitLines(x, y, z, fees, refund, payout, fee)|];
      assert FreshStamps(ledger.View(), used);
      result := ledger.RecordDisputeResolution(x, y, z, fees, refund, payout, fee, head, used);
    }

    /** The seller's wallet, if a seller is given and has one. */
    method FindSeller(sellerUser: Option<nat>) returns (seller: Option<nat>)
      ensures var found := if sellerUser.Some? then FindWallet(wallets, sellerUser.value) else |wallets|;
        seller == if found < |wallets| then Some(found) else None
    {
      hide FindWallet;
      seller := None;
      if sellerUser.Some? {
        var found := FindWallet(wallets, sellerUser.value);
        if found < |wallets| {
          seller := Some(found);
        }
      }
    }

    method CreateEscrow(order: nat, buyerUser: nat, sellerUser: Option<nat>, amount: int, key: Option<string>, stamps: seq<Stamp>)
      returns (outcome: Outcome)
      requires Valid() && |stamps| == 4 && FreshStamps(View().books, stamps)
      modifies this, ledger
      ensures (View(), outcome) == Spec.CreateEscrow(old(View()), order, buyerUser, sellerUser, amount, key, stamps)
      ensures Valid()
    {
      hide Post, BooksAfterHold, Sound, FreshStamps, FindWallet, FindEscrow, Move;
      var existing := FindEscrow(escrows, order);
      if existing < |escrows| {
        return Done(existing);
      }
      var buyer := FindWallet(wallets, buyerUser);
      if buyer == |wallets| {
        return Rejected(BuyerWalletNotFound);
      }
      var seller := FindSeller(sellerUser);
      var saved := View();
      var refused := LockBalance(buyer, amount);
      if refused.Some? {
        return Rejected(refused.value);
      }
      if order !in orders {
        Rollback(saved);
        return Rejected(OrderNotFound);
      }
      escrows := escrows + [Escrow(order, buyer, seller, amount, EscrowStatus.ACTIVE)];
      var result := PostHold(buyer, order, amount, key, stamps);
      if !Recorded(result) {
        Rollback(saved);
        return Rejected(LedgerRefused(result));
      }
      orders := orders[order := orders[order].(status := OrderStatus.PAID)];
      outcome := Done(|escrows| - 1);
    }

    method ReleaseEscrow(id: nat, actor: Actor, fee: int, key: Option<string>, stamps: seq<Stamp>) returns (outcome: Outcome)
      requires Valid() && |stamps| == 4 && FreshStamps(View().books, stamps)
      modifies this, ledger
      ensures (View(), outcome) == Spec.ReleaseEscrow(old(View()), id, actor, fee, key, stamps)
      ensures Valid()
    {
      hide Post, BooksAfterRelease, Sound, FreshStamps;
      if id >= |escrows| {
        return Rejected(EscrowNotFound);
      }
      var e := escrows[id];
      if !TransitionAllowed(e.status, Status(EscrowStatus.RELEASED)) {
        return Rejected(InvalidTransition);
      }
      if !Permitted(orders[e.order], actor, MayRelease) {
        return Rejected(Unauthorized);
      }
      if e.seller.None? {
        return Rejected(SellerWalletNotSet);
      }
      var saved, seller, sellerAmount := View(), e.seller.value, e.amount - fee;
      var result := PostRelease(seller, e.order, e.amount, fee, key, stamps);
      if !Recorded(result) {
        Rollback(saved);
        return Rejected(LedgerRefused(result));
      }
      var refused := TransferLockedBalance(e.buyer, seller, sellerAmount);
      if refused.Some? {
        Rollback(saved);
        return Rejected(refused.value);
      }
      if fee > 0 {
        UpdateWallet(e.buyer, -fee, -fee);
      }
      SetStatus(id, EscrowStatus.RELEASED, OrderStatus.COMPLETED);
      outcome := Done(id);
    }

    method RefundEscrow(id: nat, actor: Actor, key: Option<string>, stamps: seq<Stamp>) returns (outcome: Outcome)
      requires Valid() && |stamps| == 4 && FreshStamps(View().books, stamps)
      modifies this, ledger
      ensures (View(), outcome) == Spec.RefundEscrow(old(View()), id, actor, key, stamps)
      ensures Valid()
    {
      hide Post, BooksAfterRefund, Sound, FreshStamps;
      if id >= |escrows| {
        return Rejected(EscrowNotFound);
      }
      var e := escrows[id];
      if !TransitionAllowed(e.status, Status(EscrowStatus.REFUNDED)) {
        return Rejected(InvalidTransition);
      }
      if actor != System {
        if !Permitted(orders[e.order], actor, MayRefund) {
          return Rejected(Unauthorized);
        }
      }
      var saved := View();
      var result := PostRefund(e.buyer, e.order, e.amount, key, stamps);
      if !Recorded(result) {
        Rollback(saved);
        return Rejected(LedgerRefused(result));
      }
      var refused := UnlockBalance(e.buyer, e.amount);
      if refused.Some? {
        Rollback(saved);
        return Rejected(refused.value);
      }
      SetStatus(id, EscrowStatus.REFUNDED, OrderStatus.REFUNDED);
      outcome := Done(id);
    }

    method InitiateDispute(id: nat, actor: Actor) returns (outcome: Outcome)
      requires Valid()
      modifies this
      ensures (View(), outcome) == Spec.InitiateDispute(old(View()), id, actor)
      ensures Valid()
    {
      if id >= |escrows| {
        return Rejected(EscrowNotFound);
      }
      var e := escrows[id];
      if !TransitionAllowed(e.status, Status(EscrowStatus.DISPUTED)) {
        return Rejected(InvalidTransition);
      }
      if !Permitted(orders[e.order], actor, MayDispute) {
        return Rejected(Unauthorized);
      }
      if e.order in disputes {
        return Rejected(DisputeExists);
      }
      SetStatus(id, EscrowStatus.DISPUTED, OrderStatus.DISPUTED);
      disputes := disputes[e.order := Dispute(actor, None)];
      outcome := Done(id);
    }

    /** Unlocks the whole hold, leaves the refund with the buyer and credits the seller. */
    method DistributeFunds(e: Escrow, refund: int, payout: int)
      requires e.buyer < |wallets| && (e.seller.Some? ==> e.seller.value < |wallets|)
      modifies this`wallets
      ensures wallets ==
              var unlocked := Move(old(wallets), e.buyer, -(e.amount - refund), -e.amount);
              if payout > 0 && e.seller.Some? then Move(unlocked, e.seller.value, payout, 0) else unlocked
    {
      UpdateWallet(e.buyer, -(e.amount - refund), -e.amount);
      if payout > 0 && e.seller.Some? {
        UpdateWallet(e.seller.value, payout, 0);
      }
    }

    method CloseDispute(order: nat, resolver: nat)
      modifies this`disputes
      ensures disputes ==
              if order in old(disputes) then old(disputes)[order := old(disputes)[order].(closedBy := Some(resolver))] else old(disputes)
    {
      if order in disputes {
        disputes := disputes[order := disputes[order].(closedBy := Some(resolver))];
      }
    }

    method UpdateResolved(id: nat, resolver: nat, refund: int, payout: int, status: EscrowStatus)
      requires Linked(View()) && id < |escrows|
      modifies this
      ensures View() == Resolved(old(View()), id, resolver, refund, payout, status, old(View()).books)
    {
      DistributeFunds(escrows[id], refund, payout);
      SetStatus(id, status, OrderStatus.COMPLETED);
      CloseDispute(escrows[id].order, resolver);
    }

    method ResolveDispute(id: nat, resolver: nat, refund: int, payout: int, fee: int, resolution: Target,
                          key: Option<string>, stamps: seq<Stamp>)
      returns (outcome: Outcome)
      requires Valid() && |stamps| == 4 && FreshStamps(View().books, stamps)
      modifies this, ledger
      ensures (View(), outcome) == Spec.ResolveDispute(old(View()), id, resolver, refund, payout, fee, resolution, key, stamps)
      ensures Valid()
    {
      hide Post, BooksAfterSplit, Sound, FreshStamps, EscrowNext, FindEscrow, FindWallet, Move, Resolved;
      if id >= |escrows| {
        return Rejected(EscrowNotFound);
      }
      var e := escrows[id];
      if !TransitionAllowed(e.status, resolution) {
        return Rejected(InvalidTransition);
      }
      var totalDistribution := refund + payout + fee;
      if totalDistribution != e.amount {
        return Rejected(WrongDistribution);
      }
      if e.seller.None? && payout > 0 {
        return Rejected(SellerWalletNotSet);
      }
      var saved := View();
      var result := PostSplit(e.buyer, e.seller, e.order, refund, payout, fee, key, stamps);
      if !Recorded(result) {
        Rollback(saved);
        return Rejected(LedgerRefused(result));
      }
      if result.Created? && e.order !in disputes {
        Rollback(saved);
        return Rejected(DisputeMissing);
      }
      ResolvedRowsAreLinked(saved, View(), id, resolver, refund, payout, resolution.status);
      UpdateResolved(id, resolver, refund, payout, resolution.status);
      outcome := Done(id);
    }
  }
}
