/**
 The agreement theorems: wallets, ledger books, escrow rows and order rows tell the same
 story in every reachable state. The service re-checks none of it.
 */
module EscrowAgreement {
  import opened Common
  import opened Ledger
  import opened Escrow

  // ---------- totals over rows ----------

  function WalletTotal(wallets: seq<Wallet>): int {
    if wallets == [] then 0 else WalletTotal(wallets[..|wallets| - 1]) + wallets[|wallets| - 1].balance
  }

  function OpenAmount(e: Escrow): int {
    if Open(e.status) then e.amount else 0
  }

  /** The amount all open escrows hold. */
  function OpenTotal(escrows: seq<Escrow>): int {
    if escrows == [] then 0 else OpenTotal(escrows[..|escrows| - 1]) + OpenAmount(escrows[|escrows| - 1])
  }

  /** The amount the open escrows of one buyer wallet hold. */
  function OpenOf(escrows: seq<Escrow>, wallet: nat): int {
    if escrows == [] then 0
    else
      var last := escrows[|escrows| - 1];
      OpenOf(escrows[..|escrows| - 1], wallet) + if last.buyer == wallet then OpenAmount(last) else 0
  }

  lemma {:induction false} WalletTotalMove(wallets: seq<Wallet>, i: nat, balance: int, locked: int)
    requires i < |wallets|
    ensures WalletTotal(Move(wallets, i, balance, locked)) == WalletTotal(wallets) + balance
  {
    var n := |wallets| - 1;
    var after := Move(wallets, i, balance, locked);
    if i == n {
      assert after[..n] == wallets[..n];
    } else {
      assert after[..n] == Move(wallets[..n], i, balance, locked);
      WalletTotalMove(wallets[..n], i, balance, locked);
    }
  }

  lemma {:induction false} OpenUpdate(escrows: seq<Escrow>, id: nat, status: EscrowStatus)
    requires id < |escrows|
    ensures var after := escrows[id := escrows[id].(status := status)];
      var change := OpenAmount(after[id]) - OpenAmount(escrows[id]);
      && OpenTotal(after) == OpenTotal(escrows) + change
      && forall w :: OpenOf(after, w) == OpenOf(escrows, w) + (if escrows[id].buyer == w then change else 0)
  {
    var n := |escrows| - 1;
    var after := escrows[id := escrows[id].(status := status)];
    if id == n {
      assert after[..n] == escrows[..n];
    } else {
      assert after[..n] == escrows[..n][id := escrows[..n][id].(status := status)];
      OpenUpdate(escrows[..n], id, status);
    }
  }

  lemma {:induction false} OpenAtLeastOne(escrows: seq<Escrow>, id: nat)
    requires id < |escrows| && forall i :: 0 <= i < |escrows| ==> escrows[i].amount > 0
    ensures OpenOf(escrows, escrows[id].buyer) >= OpenAmount(escrows[id])
  {
    OpenNonNegative(escrows[..|escrows| - 1], escrows[id].buyer);
    if id < |escrows| - 1 {
      OpenAtLeastOne(escrows[..|escrows| - 1], id);
    }
  }

  lemma {:induction false} OpenNonNegative(escrows: seq<Escrow>, wallet: nat)
    requires forall i :: 0 <= i < |escrows| ==> escrows[i].amount > 0
    ensures OpenOf(escrows, wallet) >= 0
  {
    if escrows != [] {
      OpenNonNegative(escrows[..|escrows| - 1], wallet);
    }
  }

  lemma {:induction false} NoBuyerNoHold(escrows: seq<Escrow>, wallet: nat)
    requires forall i :: 0 <= i < |escrows| ==> escrows[i].buyer != wallet
    ensures OpenOf(escrows, wallet) == 0
  {
    if escrows != [] {
      NoBuyerNoHold(escrows[..|escrows| - 1], wallet);
    }
  }

  // ---------- what one order's journals did ----------

  predicate Has(b: Books, key: Account) {
    IndexOf(b.accounts, key) < |b.accounts|
  }

  predicate TaggedFor(b: Books, e: Entry, order: nat) {
    e.journal < |b.journals| && b.journals[e.journal].order == Some(order)
  }

  predicate OnHolding(b: Books, e: Entry) {
    e.account < |b.accounts| && b.accounts[e.account] == HOLDING
  }

  /** What the order's journals left on the holding account, over the first n entries. */
  function HeldFor(b: Books, n: nat, order: nat): int
    requires n <= |b.entries|
  {
    if n == 0 then 0
    else
      var e := b.entries[n - 1];
      HeldFor(b, n - 1, order) + if TaggedFor(b, e, order) && OnHolding(b, e) then e.amount else 0
  }

  /** What the order's payout journals (all but the lock) moved to accounts other than the holding account. */
  function PaidFor(b: Books, n: nat, order: nat): int
    requires n <= |b.entries|
  {
    if n == 0 then 0
    else
      var e := b.entries[n - 1];
      PaidFor(b, n - 1, order)
      + if TaggedFor(b, e, order) && b.journals[e.journal].kind != ESCROW_LOCK && !OnHolding(b, e) then e.amount else 0
  }

  function Locks(journals: seq<Journal>, order: nat): nat {
    if journals == [] then 0
    else
      var last := journals[|journals| - 1];
      Locks(journals[..|journals| - 1], order) + if last.order == Some(order) && last.kind == ESCROW_LOCK then 1 else 0
  }

  function Payouts(journals: seq<Journal>, order: nat): nat {
    if journals == [] then 0
    else
      var last := journals[|journals| - 1];
      Payouts(journals[..|journals| - 1], order) + if last.order == Some(order) && last.kind != ESCROW_LOCK then 1 else 0
  }

  /** The second books extend the first: rows are only added, and old entries change at most their running balance. */
  ghost predicate Extends(b: Books, after: Books) {
    && |b.accounts| <= |after.accounts| && after.accounts[..|b.accounts|] == b.accounts
    && |b.journals| <= |after.journals| && after.journals[..|b.journals|] == b.journals
    && |b.entries| <= |after.entries| && SameRows(after.entries[..|b.entries|], b.entries)
  }

  lemma {:induction false} FlowsStable(b: Books, after: Books, n: nat, order: nat)
    requires Sound(b) && Extends(b, after) && n <= |b.entries|
    ensures HeldFor(after, n, order) == HeldFor(b, n, order)
    ensures PaidFor(after, n, order) == PaidFor(b, n, order)
  {
    if n > 0 {
      FlowsStable(b, after, n - 1, order);
      var e, f := b.entries[n - 1], after.entries[n - 1];
      assert f == after.entries[..|b.entries|][n - 1];
      assert after.journals[e.journal] == after.journals[..|b.journals|][e.journal];
      assert after.accounts[e.account] == after.accounts[..|b.accounts|][e.account];
    }
  }

  /** The first n lines of a freshly posted journal, as flows of its order; h is the holding account's row. */
  lemma {:induction false} NewFlows(after: Books, start: nat, journal: nat, lines: seq<Line>, n: nat, h: nat, order: nat)
    requires start + |lines| == |after.entries| && n <= |lines| && journal < |after.journals| && h < |after.accounts|
    requires forall k :: start <= k < |after.entries| ==>
      && after.entries[k].account == lines[k - start].account && after.entries[k].account < |after.accounts|
      && after.entries[k].amount == lines[k - start].amount && after.entries[k].journal == journal
    requires forall a :: 0 <= a < |after.accounts| ==> (after.accounts[a] == HOLDING <==> a == h)
    ensures var (head, mine) := (after.journals[journal], after.journals[journal].order == Some(order));
      && HeldFor(after, start + n, order) == HeldFor(after, start, order) + (if mine then LinesOn(lines[..n], h) else 0)
      && PaidFor(after, start + n, order) == PaidFor(after, start, order)
         + (if mine && head.kind != ESCROW_LOCK then LinesTotal(lines[..n]) - LinesOn(lines[..n], h) else 0)
  {
    if n > 0 {
      NewFlows(after, start, journal, lines, n - 1, h, order);
      assert after.entries[start + n - 1].account == lines[n - 1].account;
      assert lines[..n][..n - 1] == lines[..n - 1];
    }
  }

  /** The rows an accepted journal adds. */
  lemma PostedRows(b: Books, req: Request, stamps: seq<Stamp>)
    requires |stamps| == |req.lines| && Sound(b) && Post(b, req, stamps).1.Created? && Has(b, HOLDING)
    ensures var (after, start) := (Post(b, req, stamps).0, |b.entries|);
      && |after.entries| == start + |req.lines| && after.accounts == b.accounts && after.journals == b.journals + [req.head]
      && (forall k :: start <= k < |after.entries| ==>
            && after.entries[k].account == req.lines[k - start].account && after.entries[k].account < |after.accounts|
            && after.entries[k].amount == req.lines[k - start].amount && after.entries[k].journal == |b.journals|)
      && (forall a :: 0 <= a < |after.accounts| ==> (after.accounts[a] == HOLDING <==> a == IndexOf(b.accounts, HOLDING)))
  {
  }

  /** One posted journal changes the flows of its own order and of no other. */
  lemma PostFlows(b: Books, req: Request, stamps: seq<Stamp>, order: nat)
    requires |stamps| == |req.lines| && Sound(b) && Post(b, req, stamps).1.Created?
    requires IndexOf(b.accounts, HOLDING) < |b.accounts|
    ensures var after := Post(b, req, stamps).0;
      var h, mine := IndexOf(b.accounts, HOLDING), req.head.order == Some(order);
      && HeldFor(after, |after.entries|, order) == HeldFor(b, |b.entries|, order) + (if mine then LinesOn(req.lines, h) else 0)
      && PaidFor(after, |after.entries|, order) == PaidFor(b, |b.entries|, order)
         - (if mine && req.head.kind != ESCROW_LOCK then LinesOn(req.lines, h) else 0)
      && Locks(after.journals, order) == Locks(b.journals, order) + (if mine && req.head.kind == ESCROW_LOCK then 1 else 0)
      && Payouts(after.journals, order) == Payouts(b.journals, order) + (if mine && req.head.kind != ESCROW_LOCK then 1 else 0)
  {
    hide Prefix, Balance, JournalSum, KeyUsed, LinkUsed, LinesTotal, LinesOn, HeldFor, PaidFor;
    PostedRows(b, req, stamps);
    assert LinesTotal(req.lines) == 0;
    var after := Post(b, req, stamps).0;
    assert after.entries[..|b.entries|] == b.entries;
    assert after.journals[..|b.journals|] == b.journals;
    FlowsStable(b, after, |b.entries|, order);
    hide Post, Sound;
    NewFlows(after, |b.entries|, |b.journals|, req.lines, |req.lines|, IndexOf(b.accounts, HOLDING), order);
    assert req.lines[..|req.lines|] == req.lines;
  }

  lemma EnsureKeepsFlows(b: Books, key: Account, order: nat)
    requires Sound(b)
    ensures var after := EnsureAccount(b, key);
      && HeldFor(after, |after.entries|, order) == HeldFor(b, |b.entries|, order)
      && PaidFor(after, |after.entries|, order) == PaidFor(b, |b.entries|, order)
  {
    EnsureAccountIsNeutral(b, key);
    FlowsStable(b, EnsureAccount(b, key), |b.entries|, order);
  }

  // ---------- the effect of each journal on the books ----------

  function On(key: Account, amount: int, k: Account): int {
    if key == k then amount else 0
  }

  ghost predicate FlowsMove(b: Books, after: Books, o: nat, order: nat, lock: bool, hold: int) {
    var mine := o == order;
    && HeldFor(after, |after.entries|, o) == HeldFor(b, |b.entries|, o) + (if mine then hold else 0)
    && PaidFor(after, |after.entries|, o) == PaidFor(b, |b.entries|, o) - (if mine && !lock then hold else 0)
    && Locks(after.journals, o) == Locks(b.journals, o) + (if mine && lock then 1 else 0)
    && Payouts(after.journals, o) == Payouts(b.journals, o) + (if mine && !lock then 1 else 0)
  }

  /**
   The combined effect of one escrow journal: the holding account moves by `hold`, two wallets'
   accounts by `d1` and `d2`, the fee account by `fee`; the order's flows move with it.
   */
  ghost predicate BooksMove(b: Books, after: Books, order: nat, lock: bool, hold: int, w1: nat, d1: int, w2: nat, d2: int, fee: int) {
    && Sound(after)
    && (forall k :: (KeyBalance(after, k)
                     == KeyBalance(b, k) + On(HOLDING, hold, k) + On(UserKey(w1), d1, k) + On(UserKey(w2), d2, k) + On(FEES, fee, k)))
    && (forall o :: FlowsMove(b, after, o, order, lock, hold))
  }

  /** Account rows may have been added, nothing else. */
  ghost predicate Neutral(b: Books, r: Books) {
    && Sound(r) && r.journals == b.journals && r.entries == b.entries
    && (forall k :: KeyBalance(r, k) == KeyBalance(b, k))
    && (forall k :: IndexOf(b.accounts, k) < |b.accounts| ==> IndexOf(r.accounts, k) < |r.accounts|)
    && (forall o :: HeldFor(r, |r.entries|, o) == HeldFor(b, |b.entries|, o))
    && (forall o :: PaidFor(r, |r.entries|, o) == PaidFor(b, |b.entries|, o))
  }

  lemma EnsureNeutral(b: Books, r: Books, key: Account)
    requires Sound(b) && Neutral(b, r)
    ensures Neutral(b, EnsureAccount(r, key)) && Has(EnsureAccount(r, key), key)
    ensures forall k :: Has(r, k) ==> Has(EnsureAccount(r, key), k)
  {
    EnsureAccountIsNeutral(r, key);
    forall o
      ensures HeldFor(EnsureAccount(r, key), |r.entries|, o) == HeldFor(b, |b.entries|, o)
      ensures PaidFor(EnsureAccount(r, key), |r.entries|, o) == PaidFor(b, |b.entries|, o)
    {
      EnsureKeepsFlows(r, key, o);
    }
  }

  /** Two keys with account rows share a row exactly when they are the same key. */
  lemma PartIsOn(b: Books, key: Account, amount: int, k: Account)
    requires Has(b, key)
    ensures Has(b, k) ==> Part(IndexOf(b.accounts, key), amount, IndexOf(b.accounts, k)) == On(key, amount, k)
    ensures !Has(b, k) ==> On(key, amount, k) == 0
  {
  }

  /** The lines of a request, account by account, as the four moves of an escrow journal. */
  ghost predicate LinesAre(r: Books, lines: seq<Line>, hold: int, w1: nat, d1: int, w2: nat, d2: int, fee: int) {
    && Has(r, HOLDING) && Has(r, UserKey(w1)) && Has(r, UserKey(w2)) && (fee != 0 ==> Has(r, FEES))
    && forall a :: (LinesOn(lines, a)
                    == Part(IndexOf(r.accounts, HOLDING), hold, a) + Part(IndexOf(r.accounts, UserKey(w1)), d1, a)
                       + Part(IndexOf(r.accounts, UserKey(w2)), d2, a) + Part(IndexOf(r.accounts, FEES), fee, a))
  }

  lemma LinesOnKey(r: Books, lines: seq<Line>, hold: int, w1: nat, d1: int, w2: nat, d2: int, fee: int, k: Account)
    requires LinesAre(r, lines, hold, w1, d1, w2, d2, fee)
    ensures On(HOLDING, hold, k) + On(UserKey(w1), d1, k) + On(UserKey(w2), d2, k) + On(FEES, fee, k)
         == if Has(r, k) then LinesOn(lines, IndexOf(r.accounts, k)) else 0
  {
    PartIsOn(r, HOLDING, hold, k);
    PartIsOn(r, UserKey(w1), d1, k);
    PartIsOn(r, UserKey(w2), d2, k);
    if fee != 0 {
      PartIsOn(r, FEES, fee, k);
    }
  }

  lemma PostedBalance(r: Books, req: Request, stamps: seq<Stamp>, k: Account)
    requires |stamps| == |req.lines| && Post(r, req, stamps).1.Created?
    ensures KeyBalance(Post(r, req, stamps).0, k)
         == KeyBalance(r, k) + if Has(r, k) then LinesOn(req.lines, IndexOf(r.accounts, k)) else 0
  {
    PostMovesBalances(r, req, stamps);
  }

  lemma PostedFlows(b: Books, r: Books, req: Request, stamps: seq<Stamp>, order: nat, o: nat)
    requires Neutral(b, r) && |stamps| == |req.lines| && Post(r, req, stamps).1.Created? && Has(r, HOLDING)
    requires req.head.order == Some(order)
    ensures FlowsMove(b, Post(r, req, stamps).0, o, order, req.head.kind == ESCROW_LOCK, LinesOn(req.lines, IndexOf(r.accounts, HOLDING)))
  {
    PostFlows(r, req, stamps, o);
  }

  lemma PostedMove(b: Books, r: Books, req: Request, stamps: seq<Stamp>, order: nat,
                   hold: int, w1: nat, d1: int, w2: nat, d2: int, fee: int)
    requires Neutral(b, r) && |stamps| == |req.lines| && FreshStamps(r, stamps) && Post(r, req, stamps).1.Created?
    requires req.head.order == Some(order) && LinesAre(r, req.lines, hold, w1, d1, w2, d2, fee)
    ensures BooksMove(b, Post(r, req, stamps).0, order, req.head.kind == ESCROW_LOCK, hold, w1, d1, w2, d2, fee)
  {
    var after := Post(r, req, stamps).0;
    PostKeepsSound(r, req, stamps);
    forall k
      ensures KeyBalance(after, k)
           == KeyBalance(b, k) + On(HOLDING, hold, k) + On(UserKey(w1), d1, k) + On(UserKey(w2), d2, k) + On(FEES, fee, k)
    {
      PostedBalance(r, req, stamps, k);
      LinesOnKey(r, req.lines, hold, w1, d1, w2, d2, fee, k);
    }
    LinesOnKey(r, req.lines, hold, w1, d1, w2, d2, fee, HOLDING);
    var lock := req.head.kind == ESCROW_LOCK;
    forall o
      ensures FlowsMove(b, after, o, order, lock, hold)
    {
      PostedFlows(b, r, req, stamps, order, o);
    }
  }

  /** What posting one escrow journal on prepared accounts can do, and when it does which. */
  ghost predicate EscrowPosting(b: Books, after: Books, result: PostResult, key: Option<string>, order: nat, lock: bool,
                                hold: int, w1: nat, d1: int, w2: nat, d2: int, fee: int) {
    && (result.Created? ==> !Replays(b, key) && BooksMove(b, after, order, lock, hold, w1, d1, w2, d2, fee))
    && (result.Replayed? ==> Replays(b, key) && Neutral(b, after))
  }

  lemma PostEscrow(b: Books, r: Books, req: Request, stamps: seq<Stamp>, order: nat,
                   hold: int, w1: nat, d1: int, w2: nat, d2: int, fee: int)
    requires Neutral(b, r) && |stamps| == |req.lines| && FreshStamps(r, stamps)
    requires req.head.order == Some(order) && LinesAre(r, req.lines, hold, w1, d1, w2, d2, fee)
    ensures EscrowPosting(b, Post(r, req, stamps).0, Post(r, req, stamps).1, req.head.key, order,
                          req.head.kind == ESCROW_LOCK, hold, w1, d1, w2, d2, fee)
  {
    if Post(r, req, stamps).1.Created? {
      PostedMove(b, r, req, stamps, order, hold, w1, d1, w2, d2, fee);
    }
  }

  predicate FreshKey(b: Books, key: Option<string>) {
    key.Some? ==> !KeyUsed(b.journals, key.value)
  }

  /** An empty key skips the lookup, and the unique key column refuses the second one. */
  predicate EmptyKeyTaken(b: Books, key: Option<string>) {
    key == Some("") && KeyUsed(b.journals, "")
  }

  /** A balanced journal without a one-to-one link is recorded exactly unless it repeats the empty key; with an unused key it is a new one. */
  lemma FreshPostIsCreated(r: Books, req: Request, stamps: seq<Stamp>)
    requires |stamps| == |req.lines| && LinesTotal(req.lines) == 0 && LinesResolve(r, req.lines)
    requires req.head.link == None
    ensures Recorded(Post(r, req, stamps).1) <==> !EmptyKeyTaken(r, req.head.key)
    ensures FreshKey(r, req.head.key) ==> Post(r, req, stamps).1.Created?
  {
  }

  lemma HoldMoves(b: Books, buyer: nat, order: nat, amount: int, key: Option<string>, stamps: seq<Stamp>)
    requires Sound(b) && |stamps| == 4 && FreshStamps(b, stamps)
    ensures var (after, result) := BooksAfterHold(b, buyer, order, amount, key, stamps);
      EscrowPosting(b, after, result, key, order, true, amount, buyer, -amount, buyer, 0, 0)
  {
    var r1 := EnsureAccount(b, UserKey(buyer));
    var r := EnsureAccount(r1, HOLDING);
    EnsureNeutral(b, b, UserKey(buyer));
    EnsureNeutral(b, r1, HOLDING);
    var x, y := IndexOf(r.accounts, UserKey(buyer)), IndexOf(r.accounts, HOLDING);
    HoldEffect(x, y, amount);
    var req := Request(Journal(ESCROW_LOCK, amount, key, None, Some(order)), HoldLines(x, y, amount));
    PostEscrow(b, r, req, stamps[..2], order, amount, buyer, -amount, buyer, 0, 0);
  }

  lemma HoldIsPosted(b: Books, buyer: nat, order: nat, amount: int, key: Option<string>, stamps: seq<Stamp>)
    requires Sound(b) && |stamps| == 4 && FreshStamps(b, stamps)
    ensures Recorded(BooksAfterHold(b, buyer, order, amount, key, stamps).1) <==> !EmptyKeyTaken(b, key)
    ensures FreshKey(b, key) ==> BooksAfterHold(b, buyer, order, amount, key, stamps).1.Created?
  {
    hide Post, EnsureAccount, KeyBalance, HeldFor, PaidFor;
    var r1 := EnsureAccount(b, UserKey(buyer));
    var r := EnsureAccount(r1, HOLDING);
    EnsureNeutral(b, b, UserKey(buyer));
    EnsureNeutral(b, r1, HOLDING);
    var x, y := IndexOf(r.accounts, UserKey(buyer)), IndexOf(r.accounts, HOLDING);
    HoldEffect(x, y, amount);
    FreshPostIsCreated(r, Request(Journal(ESCROW_LOCK, amount, key, None, Some(order)), HoldLines(x, y, amount)), stamps[..2]);
  }

  lemma ReleaseAccountsReady(b: Books, seller: nat)
    requires Sound(b)
    ensures var r := ReleaseAccounts(b, seller);
      Neutral(b, r) && Has(r, HOLDING) && Has(r, UserKey(seller)) && Has(r, FEES)
  {
    var r1 := EnsureAccount(b, HOLDING);
    EnsureNeutral(b, b, HOLDING);
    EnsureNeutral(b, r1, UserKey(seller));
    EnsureNeutral(b, EnsureAccount(r1, UserKey(seller)), FEES);
  }

  lemma ReleaseOn(b: Books, r: Books, seller: nat, order: nat, amount: int, fee: int, head: Journal, stamps: seq<Stamp>)
    requires Neutral(b, r) && Has(r, HOLDING) && Has(r, UserKey(seller)) && Has(r, FEES)
    requires |stamps| == 3 && FreshStamps(r, stamps)
    requires head.order == Some(order) && head.kind == ESCROW_RELEASE && head.link == None
    ensures var lines := ReleaseLines(IndexOf(r.accounts, HOLDING), IndexOf(r.accounts, UserKey(seller)), IndexOf(r.accounts, FEES), amount, fee);
      var (after, result) := Post(r, Request(head, lines), stamps);
      && EscrowPosting(b, after, result, head.key, order, false, -amount, seller, amount - fee, seller, 0, fee)
      && (FreshKey(b, head.key) ==> result.Created?) && (Recorded(result) <==> !EmptyKeyTaken(b, head.key))
  {
    hide Sound, KeyBalance, HeldFor, PaidFor, BooksMove, EscrowPosting, IndexOf, LinesOn, Post;
    var x, y, z := IndexOf(r.accounts, HOLDING), IndexOf(r.accounts, UserKey(seller)), IndexOf(r.accounts, FEES);
    var lines := ReleaseLines(x, y, z, amount, fee);
    ReleaseEffect(x, y, z, amount, fee);
    assert LinesAre(r, lines, -amount, seller, amount - fee, seller, 0, fee);
    PostEscrow(b, r, Request(head, lines), stamps, order, -amount, seller, amount - fee, seller, 0, fee);
    FreshPostIsCreated(r, Request(head, lines), stamps);
  }

  lemma ReleaseMoves(b: Books, seller: nat, order: nat, amount: int, fee: int, key: Option<string>, stamps: seq<Stamp>)
    requires Sound(b) && |stamps| == 4 && FreshStamps(b, stamps)
    ensures var (after, result) := BooksAfterRelease(b, seller, order, amount, fee, key, stamps);
      && EscrowPosting(b, after, result, key, order, false, -amount, seller, amount - fee, seller, 0, fee)
      && (FreshKey(b, key) ==> result.Created?) && (Recorded(result) <==> !EmptyKeyTaken(b, key))
  {
    ReleaseAccountsReady(b, seller);
    var r := ReleaseAccounts(b, seller);
    assert FreshStamps(r, stamps[..3]);
    ReleaseOn(b, r, seller, order, amount, fee, Journal(ESCROW_RELEASE, amount, key, None, Some(order)), stamps[..3]);
  }

  lemma RefundOn(b: Books, r: Books, buyer: nat, order: nat, amount: int, head: Journal, stamps: seq<Stamp>)
    requires Neutral(b, r) && Has(r, HOLDING) && Has(r, UserKey(buyer)) && |stamps| == 2 && FreshStamps(r, stamps)
    requires head.order == Some(order) && head.kind == JournalType.REFUND && head.link == None
    ensures var lines := RefundLines(IndexOf(r.accounts, HOLDING), IndexOf(r.accounts, UserKey(buyer)), amount);
      var (after, result) := Post(r, Request(head, lines), stamps);
      && EscrowPosting(b, after, result, head.key, order, false, -amount, buyer, amount, buyer, 0, 0)
      && (FreshKey(b, head.key) ==> result.Created?) && (Recorded(result) <==> !EmptyKeyTaken(b, head.key))
  {
    hide Sound, KeyBalance, HeldFor, PaidFor, BooksMove, EscrowPosting, IndexOf, LinesOn, Post;
    var x, y := IndexOf(r.accounts, HOLDING), IndexOf(r.accounts, UserKey(buyer));
    var lines := RefundLines(x, y, amount);
    RefundEffect(x, y, amount);
    assert LinesAre(r, lines, -amount, buyer, amount, buyer, 0, 0);
    PostEscrow(b, r, Request(head, lines), stamps, order, -amount, buyer, amount, buyer, 0, 0);
    FreshPostIsCreated(r, Request(head, lines), stamps);
  }

  lemma RefundMoves(b: Books, buyer: nat, order: nat, amount: int, key: Option<string>, stamps: seq<Stamp>)
    requires Sound(b) && |stamps| == 4 && FreshStamps(b, stamps)
    ensures var (after, result) := BooksAfterRefund(b, buyer, order, amount, key, stamps);
      && EscrowPosting(b, after, result, key, order, false, -amount, buyer, amount, buyer, 0, 0)
      && (FreshKey(b, key) ==> result.Created?) && (Recorded(result) <==> !EmptyKeyTaken(b, key))
  {
    hide Post, EnsureAccount, KeyBalance, HeldFor, PaidFor;
    var r1 := EnsureAccount(b, HOLDING);
    var r := EnsureAccount(r1, UserKey(buyer));
    EnsureNeutral(b, b, HOLDING);
    EnsureNeutral(b, r1, UserKey(buyer));
    assert FreshStamps(r, stamps[..2]);
    RefundOn(b, r, buyer, order, amount, Journal(JournalType.REFUND, amount, key, None, Some(order)), stamps[..2]);
  }

  lemma SplitAccountsReady(b: Books, buyer: nat, seller: Option<nat>)
    requires Sound(b)
    ensures var r := SplitAccounts(b, buyer, seller);
      && Neutral(b, r) && Has(r, HOLDING) && Has(r, UserKey(buyer)) && Has(r, FEES)
      && (seller.Some? ==> Has(r, UserKey(seller.value)))
  {
    var r1 := EnsureAccount(b, HOLDING);
    EnsureNeutral(b, b, HOLDING);
    EnsureNeutral(b, r1, UserKey(buyer));
    var r2 := EnsureAccount(r1, UserKey(buyer));
    if seller.Some? {
      EnsureNeutral(b, r2, UserKey(seller.value));
      EnsureNeutral(b, EnsureAccount(r2, UserKey(seller.value)), FEES);
    } else {
      EnsureNeutral(b, r2, FEES);
    }
  }

  lemma SplitOn(b: Books, r: Books, buyer: nat, payee: nat, order: nat, refund: int, payout: int, fee: int, head: Journal, stamps: seq<Stamp>)
    requires Neutral(b, r) && Has(r, HOLDING) && Has(r, UserKey(buyer)) && Has(r, UserKey(payee)) && Has(r, FEES)
    requires |stamps| == 4 && FreshStamps(r, stamps)
    requires head.order == Some(order) && head.kind == ADJUSTMENT
    ensures var lines := SplitLines(IndexOf(r.accounts, HOLDING), IndexOf(r.accounts, UserKey(buyer)),
                                    IndexOf(r.accounts, UserKey(payee)), IndexOf(r.accounts, FEES), refund, payout, fee);
      var (after, result) := Post(r, Request(head, lines), stamps[..|lines|]);
      Recorded(result) ==>
        && refund >= 0 && payout >= 0 && fee >= 0
        && EscrowPosting(b, after, result, head.key, order, false, -(refund + payout + fee), buyer, refund, payee, payout, fee)
  {
    hide Sound, KeyBalance, HeldFor, PaidFor, BooksMove, EscrowPosting, IndexOf, LinesOn, Neutral;
    var x, y := IndexOf(r.accounts, HOLDING), IndexOf(r.accounts, UserKey(buyer));
    var z, f := IndexOf(r.accounts, UserKey(payee)), IndexOf(r.accounts, FEES);
    var lines := SplitLines(x, y, z, f, refund, payout, fee);
    SplitEffect(x, y, z, f, refund, payout, fee);
    if LinesTotal(lines) == 0 {
      assert LinesAre(r, lines, -(refund + payout + fee), buyer, refund, payee, payout, fee);
      assert FreshStamps(r, stamps[..|lines|]);
      PostEscrow(b, r, Request(head, lines), stamps[..|lines|], order, -(refund + payout + fee), buyer, refund, payee, payout, fee);
    }
  }

  /** A split is recorded only with three non-negative parts; it then pays the buyer, the payee and the fee account. */
  lemma SplitMoves(b: Books, buyer: nat, seller: Option<nat>, order: nat, refund: int, payout: int, fee: int,
                   key: Option<string>, stamps: seq<Stamp>)
    requires Sound(b) && |stamps| == 4 && FreshStamps(b, stamps)
    ensures var (after, result) := BooksAfterSplit(b, buyer, seller, order, refund, payout, fee, key, stamps);
      Recorded(result) ==>
        && refund >= 0 && payout >= 0 && fee >= 0
        && EscrowPosting(b, after, result, key, order, false, -(refund + payout + fee), buyer, refund,
                         if seller.Some? then seller.value else buyer, payout, fee)
  {
    var payee := if seller.Some? then seller.value else buyer;
    SplitAccountsReady(b, buyer, seller);
    var r := SplitAccounts(b, buyer, seller);
    assert FreshStamps(r, stamps);
    SplitOn(b, r, buyer, payee, order, refund, payout, fee,
            Journal(ADJUSTMENT, refund + payout + fee, key, Some(DisputeLink(order)), Some(order)), stamps);
  }

  /** A split of a dispute not yet journalled is posted with an unused key exactly when no part is negative. */
  lemma SplitIsPosted(b: Books, buyer: nat, seller: Option<nat>, order: nat, refund: int, payout: int, fee: int,
                      key: Option<string>, stamps: seq<Stamp>)
    requires Sound(b) && |stamps| == 4 && FreshStamps(b, stamps) && FreshKey(b, key) && !LinkUsed(b.journals, DisputeLink(order))
    ensures var result := BooksAfterSplit(b, buyer, seller, order, refund, payout, fee, key, stamps).1;
      && (result.Created? <==> refund >= 0 && payout >= 0 && fee >= 0) && (Recorded(result) <==> result.Created?)
  {
    hide Sound, KeyBalance, HeldFor, PaidFor, IndexOf, LinesOn, LinesTotal, EnsureAccount, FreshStamps;
    var payee := if seller.Some? then seller.value else buyer;
    SplitAccountsReady(b, buyer, seller);
    var r := SplitAccounts(b, buyer, seller);
    SplitEffect(IndexOf(r.accounts, HOLDING), IndexOf(r.accounts, UserKey(buyer)),
                IndexOf(r.accounts, UserKey(payee)), IndexOf(r.accounts, FEES), refund, payout, fee);
  }
}
