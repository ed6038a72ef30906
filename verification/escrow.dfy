/**
 The escrow engine: wallets, escrow holds, orders, disputes and the ledger books as one
 state, every service call as one atomic step on it. Users are numbered, a wallet or escrow
 id is its row position, a dispute is identified by its order (there is at most one).
 */
module Escrow {
  import opened Common
  import opened Ledger

  datatype EscrowStatus = ACTIVE | HELD | RELEASED | REFUNDED | DISPUTED | ADJUSTED
  datatype OrderStatus =
    WAITING_COUNTERPARTY | PENDING_ACCEPT | ACCEPTED | PAID | COMPLETED | CANCELLED | REFUNDED | DISPUTED

  datatype Verdict = BUYER_WINS | SELLER_WINS | SPLIT

  /** What resolveDispute passes as the target status: a real status, or a verdict the type cast let through. */
  datatype Target = Status(status: EscrowStatus) | Cast(verdict: Verdict)

  datatype Actor = System | User(id: nat)
  datatype Role = BUYER | SELLER
  datatype Action = MayRelease | MayRefund | MayDispute

  datatype Wallet = Wallet(user: nat, balance: int, locked: int)
  datatype Order = Order(initiator: nat, counterparty: Option<nat>, role: Role, status: OrderStatus)
  datatype Escrow = Escrow(order: nat, buyer: nat, seller: Option<nat>, amount: int, status: EscrowStatus)
  datatype Dispute = Dispute(openedBy: Actor, closedBy: Option<nat>)

  datatype World = World(
    wallets: seq<Wallet>,
    escrows: seq<Escrow>,
    orders: map<nat, Order>,
    disputes: map<nat, Dispute>,
    books: Books)

  datatype Refusal =
    | EscrowNotFound | OrderNotFound | BuyerWalletNotFound | SellerWalletNotSet
    | InvalidTransition | Unauthorized | AmountNotPositive | InsufficientBalance | InsufficientLocked
    | WrongDistribution | DisputeExists | DisputeMissing | WalletExists | OrderHasEscrow
    | LedgerRefused(result: PostResult)

  datatype Outcome = Done(row: nat) | Rejected(why: Refusal)

  const HOLDING := Account(PlatformOwner("ESCROW_HOLDING"), LIABILITY, IDR)
  const FEES := Account(PlatformOwner("PLATFORM_FEES"), REVENUE, IDR)

  function UserKey(wallet: nat): Account {
    Account(WalletOwner(wallet), ASSET, IDR)
  }

  // ---------- the two state machines ----------

  function EscrowNext(from: EscrowStatus): set<EscrowStatus> {
    match from
    case ACTIVE | HELD => {EscrowStatus.RELEASED, EscrowStatus.REFUNDED, EscrowStatus.DISPUTED}
    case DISPUTED => {EscrowStatus.ADJUSTED, EscrowStatus.RELEASED, EscrowStatus.REFUNDED}
    case RELEASED | REFUNDED | ADJUSTED => {}
  }

  function OrderNext(from: OrderStatus): set<OrderStatus> {
    match from
    case WAITING_COUNTERPARTY => {OrderStatus.PENDING_ACCEPT, OrderStatus.CANCELLED}
    case PENDING_ACCEPT => {OrderStatus.ACCEPTED, OrderStatus.CANCELLED}
    case ACCEPTED => {OrderStatus.PAID, OrderStatus.CANCELLED}
    case PAID => {OrderStatus.COMPLETED, OrderStatus.REFUNDED, OrderStatus.DISPUTED}
    case COMPLETED | CANCELLED | REFUNDED => {}
    case DISPUTED => {OrderStatus.COMPLETED, OrderStatus.REFUNDED}
  }

  predicate TransitionAllowed(from: EscrowStatus, target: Target) {
    target.Status? && target.status in EscrowNext(from)
  }

  predicate Open(status: EscrowStatus) {
    status == EscrowStatus.ACTIVE || status == EscrowStatus.HELD || status == EscrowStatus.DISPUTED
  }

  function Rank(status: EscrowStatus): nat {
    match status
    case ACTIVE | HELD => 2
    case DISPUTED => 1
    case RELEASED | REFUNDED | ADJUSTED => 0
  }

  function BuyerOf(order: Order): Option<nat> {
    if order.role == BUYER then Some(order.initiator) else order.counterparty
  }

  function SellerOf(order: Order): Option<nat> {
    if order.role == SELLER then Some(order.initiator) else order.counterparty
  }

  /** validateActorPermission: release belongs to the buyer, refund to the seller, dispute to either. */
  predicate Permitted(order: Order, actor: Actor, action: Action)
    ensures action == MayRelease ==> (Permitted(order, actor, action) <==> actor.User? && BuyerOf(order) == Some(actor.id))
    ensures action == MayRefund ==> (Permitted(order, actor, action) <==> actor.User? && SellerOf(order) == Some(actor.id))
    ensures action == MayDispute ==>
              (Permitted(order, actor, action) <==> actor.User? && (BuyerOf(order) == Some(actor.id) || SellerOf(order) == Some(actor.id)))
  {
    match action
    case MayRelease =>
      && !(order.role == BUYER && User(order.initiator) != actor)
      && !(order.role == SELLER && (order.counterparty.None? || User(order.counterparty.value) != actor))
    case MayRefund =>
      && !(order.role == SELLER && User(order.initiator) != actor)
      && !(order.role == BUYER && (order.counterparty.None? || User(order.counterparty.value) != actor))
    case MayDispute =>
      actor == User(order.initiator) || (order.counterparty.Some? && actor == User(order.counterparty.value))
  }

  // ---------- row lookups ----------

  function FindWallet(wallets: seq<Wallet>, user: nat): (i: nat)
    ensures i <= |wallets|
    ensures i < |wallets| ==> wallets[i].user == user
    ensures forall k :: 0 <= k < i ==> wallets[k].user != user
  {
    if wallets == [] then 0 else if wallets[0].user == user then 0 else 1 + FindWallet(wallets[1..], user)
  }

  function FindEscrow(escrows: seq<Escrow>, order: nat): (i: nat)
    ensures i <= |escrows|
    ensures i < |escrows| ==> escrows[i].order == order
    ensures forall k :: 0 <= k < i ==> escrows[k].order != order
  {
    if escrows == [] then 0 else if escrows[0].order == order then 0 else 1 + FindEscrow(escrows[1..], order)
  }

  /** The foreign keys of the escrow table. */
  ghost predicate Linked(w: World) {
    forall i :: 0 <= i < |w.escrows| ==>
      && w.escrows[i].order in w.orders
      && w.escrows[i].buyer < |w.wallets|
      && (w.escrows[i].seller.Some? ==> w.escrows[i].seller.value < |w.wallets|)
  }

  // ---------- wallet movements ----------

  function Move(wallets: seq<Wallet>, i: nat, balance: int, locked: int): (r: seq<Wallet>)
    requires i < |wallets|
    ensures |r| == |wallets|
  {
    wallets[i := wallets[i].(balance := wallets[i].balance + balance, locked := wallets[i].locked + locked)]
  }

  // ---------- the journals each operation posts ----------

  function Recorded(result: PostResult): bool {
    result.Created? || result.Replayed?
  }

  function BooksAfterHold(b: Books, buyer: nat, order: nat, amount: int, key: Option<string>, stamps: seq<Stamp>): (Books, PostResult)
    requires |stamps| == 4
  {
    var ready := EnsureAccount(EnsureAccount(b, UserKey(buyer)), HOLDING);
    var lines := HoldLines(IndexOf(ready.accounts, UserKey(buyer)), IndexOf(ready.accounts, HOLDING), amount);
    Post(ready, Request(Journal(ESCROW_LOCK, amount, key, None, Some(order)), lines), stamps[..2])
  }

  function ReleaseAccounts(b: Books, seller: nat): Books {
    EnsureAccount(EnsureAccount(EnsureAccount(b, HOLDING), UserKey(seller)), FEES)
  }

  function BooksAfterRelease(b: Books, seller: nat, order: nat, amount: int, fee: int, key: Option<string>, stamps: seq<Stamp>): (Books, PostResult)
    requires |stamps| == 4
  {
    var ready := ReleaseAccounts(b, seller);
    var lines := ReleaseLines(IndexOf(ready.accounts, HOLDING), IndexOf(ready.accounts, UserKey(seller)),
                              IndexOf(ready.accounts, FEES), amount, fee);
    Post(ready, Request(Journal(ESCROW_RELEASE, amount, key, None, Some(order)), lines), stamps[..3])
  }

  function BooksAfterRefund(b: Books, buyer: nat, order: nat, amount: int, key: Option<string>, stamps: seq<Stamp>): (Books, PostResult)
    requires |stamps| == 4
  {
    var ready := EnsureAccount(EnsureAccount(b, HOLDING), UserKey(buyer));
    var lines := RefundLines(IndexOf(ready.accounts, HOLDING), IndexOf(ready.accounts, UserKey(buyer)), amount);
    Post(ready, Request(Journal(JournalType.REFUND, amount, key, None, Some(order)), lines), stamps[..2])
  }

  function SplitAccounts(b: Books, buyer: nat, seller: Option<nat>): Books {
    var parties := EnsureAccount(EnsureAccount(b, HOLDING), UserKey(buyer));
    EnsureAccount(if seller.Some? then EnsureAccount(parties, UserKey(seller.value)) else parties, FEES)
  }

  /** The seller account falls back to the buyer's when the escrow has no seller. */
  function BooksAfterSplit(b: Books, buyer: nat, seller: Option<nat>, order: nat, refund: int, payout: int, fee: int,
                           key: Option<string>, stamps: seq<Stamp>): (Books, PostResult)
    requires |stamps| == 4
  {
    var ready := SplitAccounts(b, buyer, seller);
    var payee := if seller.Some? then seller.value else buyer;
    var lines := SplitLines(IndexOf(ready.accounts, HOLDING), IndexOf(ready.accounts, UserKey(buyer)),
                            IndexOf(ready.accounts, UserKey(payee)), IndexOf(ready.accounts, FEES), refund, payout, fee);
    Post(ready, Request(Journal(ADJUSTMENT, refund + payout + fee, key, Some(DisputeLink(order)), Some(order)), lines), stamps[..|lines|])
  }

  // ---------- the operations ----------

  function CreateEscrow(w: World, order: nat, buyerUser: nat, sellerUser: Option<nat>, amount: int,
                        key: Option<string>, stamps: seq<Stamp>): (World, Outcome)
    requires |stamps| == 4
  {
    var existing := FindEscrow(w.escrows, order);
    var buyer := FindWallet(w.wallets, buyerUser);
    if existing < |w.escrows| then (w, Done(existing))
    else if buyer == |w.wallets| then (w, Rejected(BuyerWalletNotFound))
    else if amount <= 0 then (w, Rejected(AmountNotPositive))
    else if w.wallets[buyer].balance - w.wallets[buyer].locked < amount then (w, Rejected(InsufficientBalance))
    else if order !in w.orders then (w, Rejected(OrderNotFound))
    else
      var found := if sellerUser.Some? then FindWallet(w.wallets, sellerUser.value) else |w.wallets|;
      var seller := if found < |w.wallets| then Some(found) else None;
      var (books, result) := BooksAfterHold(w.books, buyer, order, amount, key, stamps);
      if !Recorded(result) then (w, Rejected(LedgerRefused(result)))
      else
        (w.(wallets := Move(w.wallets, buyer, 0, amount),
            escrows := w.escrows + [Escrow(order, buyer, seller, amount, EscrowStatus.ACTIVE)],
            orders := w.orders[order := w.orders[order].(status := OrderStatus.PAID)],
            books := books),
         Done(|w.escrows|))
  }

  /** The closing updates all settlements share. */
  function Close(w: World, id: nat, wallets: seq<Wallet>, books: Books, status: EscrowStatus, orderStatus: OrderStatus): World
    requires id < |w.escrows| && w.escrows[id].order in w.orders
  {
    var order := w.escrows[id].order;
    w.(wallets := wallets, books := books,
       escrows := w.escrows[id := w.escrows[id].(status := status)],
       orders := w.orders[order := w.orders[order].(status := orderStatus)])
  }

  function ReleaseEscrow(w: World, id: nat, actor: Actor, fee: int, key: Option<string>, stamps: seq<Stamp>): (World, Outcome)
    requires Linked(w) && |stamps| == 4
  {
    if id >= |w.escrows| then (w, Rejected(EscrowNotFound))
    else
      var e := w.escrows[id];
      if !TransitionAllowed(e.status, Status(EscrowStatus.RELEASED)) then (w, Rejected(InvalidTransition))
      else if !Permitted(w.orders[e.order], actor, MayRelease) then (w, Rejected(Unauthorized))
      else if e.seller.None? then (w, Rejected(SellerWalletNotSet))
      else
        var (books, result) := BooksAfterRelease(w.books, e.seller.value, e.order, e.amount, fee, key, stamps);
        var payout := e.amount - fee;
        if !Recorded(result) then (w, Rejected(LedgerRefused(result)))
        else if payout <= 0 then (w, Rejected(AmountNotPositive))
        else if w.wallets[e.buyer].locked < payout then (w, Rejected(InsufficientLocked))
        else
          var moved := Move(Move(w.wallets, e.buyer, -payout, -payout), e.seller.value, payout, 0);
          var charged := if fee > 0 then Move(moved, e.buyer, -fee, -fee) else moved;
          (Close(w, id, charged, books, EscrowStatus.RELEASED, OrderStatus.COMPLETED), Done(id))
  }

  function RefundEscrow(w: World, id: nat, actor: Actor, key: Option<string>, stamps: seq<Stamp>): (World, Outcome)
    requires Linked(w) && |stamps| == 4
  {
    if id >= |w.escrows| then (w, Rejected(EscrowNotFound))
    else
      var e := w.escrows[id];
      if !TransitionAllowed(e.status, Status(EscrowStatus.REFUNDED)) then (w, Rejected(InvalidTransition))
      else if actor != System && !Permitted(w.orders[e.order], actor, MayRefund) then (w, Rejected(Unauthorized))
      else
        var (books, result) := BooksAfterRefund(w.books, e.buyer, e.order, e.amount, key, stamps);
        if !Recorded(result) then (w, Rejected(LedgerRefused(result)))
        else if e.amount <= 0 then (w, Rejected(AmountNotPositive))
        else if w.wallets[e.buyer].locked < e.amount then (w, Rejected(InsufficientLocked))
        else (Close(w, id, Move(w.wallets, e.buyer, 0, -e.amount), books, EscrowStatus.REFUNDED, OrderStatus.REFUNDED), Done(id))
  }

  function InitiateDispute(w: World, id: nat, actor: Actor): (World, Outcome)
    requires Linked(w)
  {
    if id >= |w.escrows| then (w, Rejected(EscrowNotFound))
    else
      var e := w.escrows[id];
      if !TransitionAllowed(e.status, Status(EscrowStatus.DISPUTED)) then (w, Rejected(InvalidTransition))
      else if !Permitted(w.orders[e.order], actor, MayDispute) then (w, Rejected(Unauthorized))
      else if e.order in w.disputes then (w, Rejected(DisputeExists))
      else
        (Close(w, id, w.wallets, w.books, EscrowStatus.DISPUTED, OrderStatus.DISPUTED)
         .(disputes := w.disputes[e.order := Dispute(actor, None)]), Done(id))
  }

  /** The row updates of a resolution: the hold unlocked, the seller credited, escrow, order and dispute closed. */
  function Resolved(w: World, id: nat, resolver: nat, refund: int, payout: int, status: EscrowStatus, books: Books): World
    requires Linked(w) && id < |w.escrows|
  {
    var e := w.escrows[id];
    var unlocked := Move(w.wallets, e.buyer, -(e.amount - refund), -e.amount);
    var credited := if payout > 0 && e.seller.Some? then Move(unlocked, e.seller.value, payout, 0) else unlocked;
    var closed := Close(w, id, credited, books, status, OrderStatus.COMPLETED);
    if e.order in w.disputes then closed.(disputes := w.disputes[e.order := w.disputes[e.order].(closedBy := Some(resolver))]) else closed
  }

  function ResolveDispute(w: World, id: nat, resolver: nat, refund: int, payout: int, fee: int, resolution: Target,
                          key: Option<string>, stamps: seq<Stamp>): (World, Outcome)
    requires Linked(w) && |stamps| == 4
  {
    if id >= |w.escrows| then (w, Rejected(EscrowNotFound))
    else
      var e := w.escrows[id];
      if !TransitionAllowed(e.status, resolution) then (w, Rejected(InvalidTransition))
      else if refund + payout + fee != e.amount then (w, Rejected(WrongDistribution))
      else if e.seller.None? && payout > 0 then (w, Rejected(SellerWalletNotSet))
      else
        var (books, result) := BooksAfterSplit(w.books, e.buyer, e.seller, e.order, refund, payout, fee, key, stamps);
        if !Recorded(result) then (w, Rejected(LedgerRefused(result)))
        // Without a dispute row the journal's dispute link is a dangling foreign key.
        else if result.Created? && e.order !in w.disputes then (w, Rejected(DisputeMissing))
        else (Resolved(w, id, resolver, refund, payout, resolution.status, books), Done(id))
  }

  /** createWallet for a user without one. */
  function OpenWallet(w: World, user: nat): (World, Outcome) {
    if FindWallet(w.wallets, user) < |w.wallets| then (w, Rejected(WalletExists))
    else (w.(wallets := w.wallets + [Wallet(user, 0, 0)]), Done(|w.wallets|))
  }

  /** Whatever the order service does to an order that has no escrow yet. */
  function PlaceOrder(w: World, id: nat, order: Order): (World, Outcome) {
    if FindEscrow(w.escrows, id) < |w.escrows| then (w, Rejected(OrderHasEscrow))
    else (w.(orders := w.orders[id := order]), Done(id))
  }

  datatype Op =
    | Create(order: nat, buyerUser: nat, sellerUser: Option<nat>, amount: int, key: Option<string>, stamps: seq<Stamp>)
    | Release(id: nat, actor: Actor, fee: int, key: Option<string>, stamps: seq<Stamp>)
    | Refund(id: nat, actor: Actor, key: Option<string>, stamps: seq<Stamp>)
    | Contest(id: nat, actor: Actor)
    | Resolve(id: nat, resolver: nat, refund: int, payout: int, fee: int, resolution: Target, key: Option<string>, stamps: seq<Stamp>)
    | NewWallet(user: nat)
    | SetOrder(order: nat, row: Order)

  predicate Posts(op: Op) {
    op.Create? || op.Release? || op.Refund? || op.Resolve?
  }

  predicate WellFormed(op: Op) {
    Posts(op) ==> |op.stamps| == 4
  }

  function Step(w: World, op: Op): (World, Outcome)
    requires Linked(w) && WellFormed(op)
  {
    match op
    case Create(order, buyer, seller, amount, key, stamps) => CreateEscrow(w, order, buyer, seller, amount, key, stamps)
    case Release(id, actor, fee, key, stamps) => ReleaseEscrow(w, id, actor, fee, key, stamps)
    case Refund(id, actor, key, stamps) => RefundEscrow(w, id, actor, key, stamps)
    case Contest(id, actor) => InitiateDispute(w, id, actor)
    case Resolve(id, resolver, refund, payout, fee, resolution, key, stamps) =>
      ResolveDispute(w, id, resolver, refund, payout, fee, resolution, key, stamps)
    case NewWallet(user) => OpenWallet(w, user)
    case SetOrder(order, row) => PlaceOrder(w, order, row)
  }
}
