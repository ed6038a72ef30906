/**
 Payment webhooks: every delivery claims its idempotency key with an atomic set-if-absent, applies its
 payment in one transaction, then marks the key as done or deletes it. Deliveries interleave freely,
 repeat, fail and crash; the clock moves between any two steps.
 */
module Webhook {
  import opened Common

  datatype Channel = XenditInvoice | XenditDisbursement | Midtrans
  datatype Key = Key(channel: Channel, id: string)

  datatype PaymentStatus = Paid | Failed | Other

  /** What a parsed notification asks for; a broken one names no row and fails at the database. */
  datatype Payload =
    | TopUp(wallet: string, status: PaymentStatus, amount: real, paidAmount: Option<real>)
    | OrderPayment(order: string, status: PaymentStatus)
    | Disbursement(withdrawal: string, status: PaymentStatus)
    | Unrelated
    | Broken

  datatype Wallet = Wallet(balance: int, locked: int)
  datatype Withdrawal = Withdrawal(wallet: string, amount: int, status: PaymentStatus)
  datatype OrderState = OrderPaid | OrderCancelled | OrderPending

  datatype Tables = Tables(wallets: map<string, Wallet>, withdrawals: map<string, Withdrawal>, orders: map<string, OrderState>)

  /** Arrived; holding the key; applied but not marked; refused but not released; answered; or dead. */
  datatype Stage = Arrived | Working | Applied | Refused | Answered | Crashed

  /** One arrival of a notification; `claimedAt` is bookkeeping, the time at which it acquired its key. */
  datatype Delivery = Delivery(key: Key, wellFormed: bool, payload: Payload, stage: Stage, applied: bool, claimedAt: int)

  datatype State = State(now: int, cache: map<Key, int>, tables: Tables, deliveries: seq<Delivery>)

  /** The lifetime the claim gives a key, and the lifetime the final mark gives it. */
  datatype Lifetimes = Lifetimes(claim: int, mark: int)

  // ---------- applying a payment ----------

  /** Math.round of the hundredfold amount; a missing or zero paid amount falls back to the invoice amount. */
  function TopUpMinor(amount: real, paidAmount: Option<real>): int {
    var used := if paidAmount.Some? && paidAmount.value != 0.0 then paidAmount.value else amount;
    (used * 100.0 + 0.5).Floor
  }

  /** The payment's transaction; None when the database raises an error and nothing is written. */
  function Apply(t: Tables, p: Payload): Option<Tables> {
    match p
    case TopUp(wallet, status, amount, paidAmount) =>
      if status != Paid then Some(t)
      else if wallet !in t.wallets then None
      else
        var w := t.wallets[wallet];
        Some(t.(wallets := t.wallets[wallet := w.(balance := w.balance + TopUpMinor(amount, paidAmount))]))
    case OrderPayment(order, status) =>
      if order !in t.orders || status == Other then Some(t)
      else Some(t.(orders := t.orders[order := if status == Paid then OrderPaid else OrderCancelled]))
    case Disbursement(id, status) =>
      if status == Other then Some(t)
      else if status == Paid then
        if id !in t.withdrawals then None
        else Some(t.(withdrawals := t.withdrawals[id := t.withdrawals[id].(status := Paid)]))
      else if id !in t.withdrawals then Some(t)
      else
        var d := t.withdrawals[id];
        if d.wallet !in t.wallets then None
        else
          var w := t.wallets[d.wallet];
          Some(t.(withdrawals := t.withdrawals[id := d.(status := Failed)],
                  wallets := t.wallets[d.wallet := w.(locked := w.locked - d.amount)]))
    case Unrelated => Some(t)
    case Broken => None
  }

  /** Only this wallet's row has changed, to this balance and lock. */
  ghost predicate OnlyWallet(t: Tables, after: Tables, wallet: string, balance: int, locked: int) {
    && after.withdrawals == t.withdrawals && after.orders == t.orders && after.wallets.Keys == t.wallets.Keys
    && wallet in t.wallets
    && forall w :: w in t.wallets ==> after.wallets[w] == if w == wallet then Wallet(balance, locked) else t.wallets[w]
  }

  /** The nearest whole number of minor units, a half rounded up. */
  predicate Rounds(minor: int, amount: real) {
    100.0 * amount - 0.5 < minor as real <= 100.0 * amount + 0.5
  }

  /** A paid top-up raises exactly its wallet's balance, by the nearest number of minor units to a hundred times the amount. */
  lemma TopUpCredits(t: Tables, wallet: string, amount: real, minor: int)
    requires wallet in t.wallets && Rounds(minor, amount)
    ensures Apply(t, TopUp(wallet, Paid, amount, None)).Some?
    ensures OnlyWallet(t, Apply(t, TopUp(wallet, Paid, amount, None)).value, wallet, t.wallets[wallet].balance + minor, t.wallets[wallet].locked)
  {
    var x := amount * 100.0 + 0.5;
    assert minor as real <= x < minor as real + 1.0;
    assert x.Floor == minor;
  }

  /** An amount of whole minor units is credited to the unit. */
  lemma WholeTopUpCreditsIt(t: Tables, wallet: string, minor: int)
    requires wallet in t.wallets
    ensures Apply(t, TopUp(wallet, Paid, minor as real / 100.0, None)).Some?
    ensures OnlyWallet(t, Apply(t, TopUp(wallet, Paid, minor as real / 100.0, None)).value, wallet,
                       t.wallets[wallet].balance + minor, t.wallets[wallet].locked)
  {
    TopUpCredits(t, wallet, minor as real / 100.0, minor);
  }

  /** A given paid amount other than zero decides, and the invoice amount otherwise. */
  lemma PaidAmountDecides(t: Tables, wallet: string, amount: real, other: real, paid: real)
    ensures paid != 0.0 ==> Apply(t, TopUp(wallet, Paid, amount, Some(paid))) == Apply(t, TopUp(wallet, Paid, paid, None))
    ensures Apply(t, TopUp(wallet, Paid, amount, Some(0.0))) == Apply(t, TopUp(wallet, Paid, amount, None))
  {
  }

  /** A missing wallet fails the payment; a notification that is not paid changes nothing. */
  lemma OtherTopUpsCreditNothing(t: Tables, wallet: string, status: PaymentStatus, amount: real, paidAmount: Option<real>)
    ensures wallet !in t.wallets ==> Apply(t, TopUp(wallet, Paid, amount, paidAmount)) == None
    ensures status != Paid ==> Apply(t, TopUp(wallet, status, amount, paidAmount)) == Some(t)
  {
  }

  /** A paid order becomes paid, a failed or expired one cancelled, whatever it was before; no other row changes. */
  lemma OrderPaymentSets(t: Tables, order: string, status: PaymentStatus)
    ensures var after := Apply(t, OrderPayment(order, status));
      && after.Some? && after.value.wallets == t.wallets && after.value.withdrawals == t.withdrawals && after.value.orders.Keys == t.orders.Keys
      && forall o :: o in t.orders ==>
           && (o != order || status == Other ==> after.value.orders[o] == t.orders[o])
           && (o == order && status == Paid ==> after.value.orders[o] == OrderPaid)
           && (o == order && status == Failed ==> after.value.orders[o] == OrderCancelled)
  {
  }

  /** A completed disbursement changes its row's status only; a failed one also gives the amount back to the wallet's available part. */
  lemma DisbursementSets(t: Tables, id: string)
    requires id in t.withdrawals
    ensures var row := t.withdrawals[id];
      && var done := Apply(t, Disbursement(id, Paid));
      && done == Some(t.(withdrawals := t.withdrawals[id := Withdrawal(row.wallet, row.amount, Paid)]))
      && var failed := Apply(t, Disbursement(id, Failed));
      && (failed.None? <==> row.wallet !in t.wallets)
      && (failed.Some? ==>
            && failed.value.withdrawals == t.withdrawals[id := Withdrawal(row.wallet, row.amount, Failed)]
            && OnlyWallet(t.(withdrawals := failed.value.withdrawals), failed.value, row.wallet,
                          t.wallets[row.wallet].balance, t.wallets[row.wallet].locked - row.amount))
  {
  }

  // ---------- reading a notification ----------

  /** external_id.split("_"). */
  function Split(s: string): (parts: seq<string>)
    ensures |parts| > 0
  {
    if s == "" then [""]
    else
      var rest := Split(s[1..]);
      if s[0] == '_' then [""] + rest else [[s[0]] + rest[0]] + rest[1..]
  }

  lemma {:induction false} SplitAtFirst(head: string, rest: string)
    requires '_' !in head
    ensures Split(head) == [head] && Split(head + "_" + rest) == [head] + Split(rest)
  {
    if head == "" {
      assert head + "_" + rest == "_" + rest && ("_" + rest)[1..] == rest;
    } else {
      SplitAtFirst(head[1..], rest);
      assert (head + "_" + rest)[1..] == head[1..] + "_" + rest;
      assert [head[0]] + head[1..] == head;
    }
  }

  function InvoiceStatus(status: string): PaymentStatus {
    if status == "PAID" || status == "SETTLED" then Paid
    else if status == "EXPIRED" || status == "FAILED" then Failed
    else Other
  }

  /** processXenditPayment's routing; an order needs its row even for a status that changes nothing. */
  function InvoicePayload(externalId: string, status: PaymentStatus, amount: real, paidAmount: Option<real>): Payload {
    var parts := Split(externalId);
    if parts[0] == "topup" then
      if |parts| > 1 then TopUp(parts[1], status, amount, paidAmount)
      else if status == Paid then Broken
      else Unrelated
    else if parts[0] == "order" then
      if |parts| > 1 then OrderPayment(parts[1], status) else Broken
    else Unrelated
  }

  function DisbursementPayload(externalId: string, status: string): Payload {
    var parts := Split(externalId);
    var outcome := if status == "COMPLETED" then Paid else if status == "FAILED" then Failed else Other;
    if parts[0] != "withdrawal" then Unrelated
    else if |parts| > 1 then Disbursement(parts[1], outcome)
    else if outcome != Other then Broken
    else Unrelated
  }

  /** processMidtransPayment: the fraud verdict and the status table decide before the same routing. */
  function MidtransPayload(orderId: string, transactionStatus: string, fraud: Option<string>, amount: real): Payload {
    var isPaid := transactionStatus in {"capture", "settlement"} && (fraud.None? || fraud.value == "" || fraud.value == "accept");
    var isFailed := transactionStatus in {"deny", "cancel", "expire"};
    if fraud == Some("deny") then Unrelated
    else if isPaid then InvoicePayload(orderId, Paid, amount, None)
    else if isFailed && Split(orderId)[0] == "order" then InvoicePayload(orderId, Failed, amount, None)
    else Unrelated
  }

  /** The documented id formats lead to their rows, whatever follows the id. */
  lemma DocumentedIdsRoute(id: string, rest: string, status: PaymentStatus, amount: real, paidAmount: Option<real>)
    requires '_' !in id
    ensures InvoicePayload("topup" + "_" + (id + "_" + rest), status, amount, paidAmount) == TopUp(id, status, amount, paidAmount)
    ensures InvoicePayload("order" + "_" + id, status, amount, paidAmount) == OrderPayment(id, status)
    ensures DisbursementPayload("withdrawal" + "_" + id, "COMPLETED") == Disbursement(id, Paid)
    ensures DisbursementPayload("withdrawal" + "_" + id, "FAILED") == Disbursement(id, Failed)
  {
    hide Split;
    SplitAtFirst(id, rest);
    SplitAtFirst("topup", id + "_" + rest);
    SplitAtFirst("order", id);
    SplitAtFirst("withdrawal", id);
  }

  /** An id without underscores, such as the wallet service gives its own top-ups, credits no wallet. */
  lemma UnseparatedIdsCreditNothing(externalId: string, status: PaymentStatus, amount: real, paidAmount: Option<real>)
    requires '_' !in externalId
    ensures !InvoicePayload(externalId, status, amount, paidAmount).TopUp?
    ensures externalId != "topup" && externalId != "order" ==> InvoicePayload(externalId, status, amount, paidAmount) == Unrelated
  {
    SplitAtFirst(externalId, "");
  }

  /** A Midtrans notification credits a wallet exactly for a captured or settled top-up that no fraud check objects to. */
  lemma MidtransCreditsExactly(orderId: string, transactionStatus: string, fraud: Option<string>, amount: real)
    ensures var p := MidtransPayload(orderId, transactionStatus, fraud, amount);
      (p.TopUp? && p.status == Paid) <==> (
        && |Split(orderId)| > 1 && Split(orderId)[0] == "topup"
        && (transactionStatus == "capture" || transactionStatus == "settlement")
        && (fraud.Some? ==> fraud.value == "" || fraud.value == "accept"))
    ensures var p := MidtransPayload(orderId, transactionStatus, fraud, amount);
      p.TopUp? ==> p == TopUp(Split(orderId)[1], Paid, amount, None)
  {
    hide Split;
  }

  /** It pays an order under the same verdict, and cancels one exactly for a denied, cancelled or expired transaction not denied for fraud. */
  lemma MidtransOrdersFollow(order: string, transactionStatus: string, fraud: Option<string>, amount: real)
    requires '_' !in order
    ensures var p := MidtransPayload("order" + "_" + order, transactionStatus, fraud, amount);
      && (p == OrderPayment(order, Paid) <==>
            transactionStatus in {"capture", "settlement"} && (fraud.Some? ==> fraud.value == "" || fraud.value == "accept"))
      && (p == OrderPayment(order, Failed) <==> transactionStatus in {"deny", "cancel", "expire"} && fraud != Some("deny"))
      && (p == Unrelated || p == OrderPayment(order, Paid) || p == OrderPayment(order, Failed))
  {
    SplitAtFirst("order", order);
    SplitAtFirst(order, "");
    hide Split;
  }

  /**
   From the fields of a notification to the row: a top-up of a documented id that is PAID or SETTLED credits
   its wallet with the paid amount in minor units, and with any other status nobody.
   */
  lemma PaidNotificationCredits(t: Tables, wallet: string, rest: string, status: string, amount: real, paid: real, minor: int)
    requires '_' !in wallet && wallet in t.wallets && paid != 0.0 && Rounds(minor, paid)
    ensures var p := InvoicePayload("topup" + "_" + (wallet + "_" + rest), InvoiceStatus(status), amount, Some(paid));
      && Apply(t, p).Some?
      && (status == "PAID" || status == "SETTLED" ==>
            OnlyWallet(t, Apply(t, p).value, wallet, t.wallets[wallet].balance + minor, t.wallets[wallet].locked))
      && (status != "PAID" && status != "SETTLED" ==> Apply(t, p) == Some(t))
  {
    hide InvoicePayload, Split, OnlyWallet, Rounds;
    DocumentedIdsRoute(wallet, rest, InvoiceStatus(status), amount, Some(paid));
    TopUpCredits(t, wallet, paid, minor);
    PaidAmountDecides(t, wallet, amount, amount, paid);
    OtherTopUpsCreditNothing(t, wallet, InvoiceStatus(status), amount, Some(paid));
    hide Apply;
  }

  /** An order notification that is PAID or SETTLED pays the order, one that is EXPIRED or FAILED cancels it, any other leaves it. */
  lemma NotifiedOrderFollows(t: Tables, order: string, status: string, amount: real, paidAmount: Option<real>)
    requires '_' !in order && order in t.orders
    ensures var after := Apply(t, InvoicePayload("order" + "_" + order, InvoiceStatus(status), amount, paidAmount));
      && after.Some? && order in after.value.orders
      && (status in {"PAID", "SETTLED"} ==> after.value.orders[order] == OrderPaid)
      && (status in {"EXPIRED", "FAILED"} ==> after.value.orders[order] == OrderCancelled)
      && (status !in {"PAID", "SETTLED", "EXPIRED", "FAILED"} ==> after.value == t)
  {
    hide InvoicePayload, Split;
    DocumentedIdsRoute(order, "", InvoiceStatus(status), amount, paidAmount);
    OrderPaymentSets(t, order, InvoiceStatus(status));
    assert InvoiceStatus(status) == Other ==> Apply(t, OrderPayment(order, Other)) == Some(t);
  }

  // ---------- the protocol ----------

  datatype Event =
    | Receive(key: Key, wellFormed: bool, payload: Payload)
    | Claim(d: nat)
    | Process(d: nat, databaseUp: bool)
    | Mark(d: nat, stored: bool)
    | Release(d: nat, deleted: bool)
    | Crash(d: nat)
    | Wait(time: nat)

  predicate Live(s: State, key: Key) {
    key in s.cache && s.now < s.cache[key]
  }

  predicate Possible(s: State, e: Event) {
    match e
    case Receive(_, _, _) => true
    case Claim(d) => d < |s.deliveries| && s.deliveries[d].stage == Arrived
    case Process(d, _) => d < |s.deliveries| && s.deliveries[d].stage == Working
    case Mark(d, _) => d < |s.deliveries| && s.deliveries[d].stage == Applied
    case Release(d, _) => d < |s.deliveries| && s.deliveries[d].stage == Refused
    case Crash(d) => d < |s.deliveries| && s.deliveries[d].stage != Answered
    case Wait(_) => true
  }

  function AtStage(s: State, d: nat, stage: Stage): State
    requires d < |s.deliveries|
  {
    s.(deliveries := s.deliveries[d := s.deliveries[d].(stage := stage)])
  }

  function After(ttl: Lifetimes, s: State, e: Event): State
    requires Possible(s, e)
  {
    match e
    case Receive(key, wellFormed, payload) =>
      s.(deliveries := s.deliveries + [Delivery(key, wellFormed, payload, Arrived, false, 0)])
    case Claim(d) =>
      var key := s.deliveries[d].key;
      if Live(s, key) then AtStage(s, d, Answered)
      // A malformed payload is refused with the key left in place.
      else
        var claimed := s.deliveries[d].(stage := if s.deliveries[d].wellFormed then Working else Answered, claimedAt := s.now);
        s.(cache := s.cache[key := s.now + ttl.claim], deliveries := s.deliveries[d := claimed])
    case Process(d, databaseUp) =>
      var result := Apply(s.tables, s.deliveries[d].payload);
      if !databaseUp || result.None? then AtStage(s, d, Refused)
      else s.(tables := result.value, deliveries := s.deliveries[d := s.deliveries[d].(stage := Applied, applied := true)])
    case Mark(d, stored) =>
      AtStage(if stored then s.(cache := s.cache[s.deliveries[d].key := s.now + ttl.mark]) else s, d, Answered)
    case Release(d, deleted) =>
      AtStage(if deleted then s.(cache := s.cache - {s.deliveries[d].key}) else s, d, Answered)
    case Crash(d) => AtStage(s, d, Crashed)
    case Wait(time) => s.(now := s.now + time)
  }

  predicate IsRun(ttl: Lifetimes, s: State, events: seq<Event>)
    decreases |events|, 0
  {
    events == []
    || (IsRun(ttl, s, events[..|events| - 1])
        && Possible(EndOf(ttl, s, events[..|events| - 1]), events[|events| - 1]))
  }

  function EndOf(ttl: Lifetimes, s: State, events: seq<Event>): State
    requires IsRun(ttl, s, events)
    decreases |events|, 1
  {
    if events == [] then s else After(ttl, EndOf(ttl, s, events[..|events| - 1]), events[|events| - 1])
  }

  // ---------- what the wallets must show ----------

  function BalanceEffect(p: Payload, wallet: string): int {
    if p.TopUp? && p.status == Paid && p.wallet == wallet then TopUpMinor(p.amount, p.paidAmount) else 0
  }

  function LockedEffect(t: Tables, p: Payload, wallet: string): int {
    if p.Disbursement? && p.status == Failed && p.withdrawal in t.withdrawals && t.withdrawals[p.withdrawal].wallet == wallet
    then -t.withdrawals[p.withdrawal].amount else 0
  }

  /** The total the applied deliveries add to a wallet's balance. */
  function AppliedBalance(ds: seq<Delivery>, wallet: string): int {
    if ds == [] then 0
    else
      var last := ds[|ds| - 1];
      AppliedBalance(ds[..|ds| - 1], wallet) + if last.applied then BalanceEffect(last.payload, wallet) else 0
  }

  function AppliedLocked(t: Tables, ds: seq<Delivery>, wallet: string): int {
    if ds == [] then 0
    else
      var last := ds[|ds| - 1];
      AppliedLocked(t, ds[..|ds| - 1], wallet) + if last.applied then LockedEffect(t, last.payload, wallet) else 0
  }

  lemma {:induction false} AppliedUpdate(t: Tables, ds: seq<Delivery>, d: nat, after: Delivery, wallet: string)
    requires d < |ds| && after.payload == ds[d].payload
    ensures var change := (if after.applied then 1 else 0) - (if ds[d].applied then 1 else 0);
      && AppliedBalance(ds[d := after], wallet) == AppliedBalance(ds, wallet) + change * BalanceEffect(after.payload, wallet)
      && AppliedLocked(t, ds[d := after], wallet) == AppliedLocked(t, ds, wallet) + change * LockedEffect(t, after.payload, wallet)
  {
    var n := |ds| - 1;
    if d == n {
      assert ds[d := after][..n] == ds[..n];
    } else {
      assert ds[d := after][..n] == ds[..n][d := after];
      AppliedUpdate(t, ds[..n], d, after, wallet);
    }
  }

  /** Withdrawals keep their wallet and amount. */
  ghost predicate SameWithdrawals(a: Tables, b: Tables) {
    && a.withdrawals.Keys == b.withdrawals.Keys
    && forall i :: i in a.withdrawals ==> a.withdrawals[i].wallet == b.withdrawals[i].wallet && a.withdrawals[i].amount == b.withdrawals[i].amount
  }

  ghost predicate WalletsShowApplied(t0: Tables, s: State) {
    && s.tables.wallets.Keys == t0.wallets.Keys && SameWithdrawals(t0, s.tables)
    && forall w :: w in t0.wallets ==>
         && s.tables.wallets[w].balance == t0.wallets[w].balance + AppliedBalance(s.deliveries, w)
         && s.tables.wallets[w].locked == t0.wallets[w].locked + AppliedLocked(t0, s.deliveries, w)
  }

  lemma ApplyEffect(t0: Tables, t: Tables, p: Payload, w: string)
    requires SameWithdrawals(t0, t) && Apply(t, p).Some? && w in t.wallets
    ensures var after := Apply(t, p).value;
      && after.wallets.Keys == t.wallets.Keys && SameWithdrawals(t0, after)
      && after.wallets[w].balance == t.wallets[w].balance + BalanceEffect(p, w)
      && after.wallets[w].locked == t.wallets[w].locked + LockedEffect(t0, p, w)
  {
  }

  lemma ProcessShowsApplied(ttl: Lifetimes, t0: Tables, s: State, e: Event)
    requires WalletsShowApplied(t0, s) && Possible(s, e) && e.Process? && !s.deliveries[e.d].applied
    ensures WalletsShowApplied(t0, After(ttl, s, e))
  {
    var (after, p) := (After(ttl, s, e), s.deliveries[e.d].payload);
    assert Apply(s.tables, p).Some? ==> Apply(s.tables, p).value.wallets.Keys == s.tables.wallets.Keys && SameWithdrawals(t0, Apply(s.tables, p).value);
    forall w | w in t0.wallets
      ensures after.tables.wallets.Keys == t0.wallets.Keys
      ensures after.tables.wallets[w].balance == t0.wallets[w].balance + AppliedBalance(after.deliveries, w)
      ensures after.tables.wallets[w].locked == t0.wallets[w].locked + AppliedLocked(t0, after.deliveries, w)
    {
      AppliedUpdate(t0, s.deliveries, e.d, after.deliveries[e.d], w);
      if after.deliveries[e.d].applied {
        ApplyEffect(t0, s.tables, p, w);
      }
    }
  }

  lemma StepShowsApplied(ttl: Lifetimes, t0: Tables, s: State, e: Event)
    requires WalletsShowApplied(t0, s) && Possible(s, e)
    requires forall d :: 0 <= d < |s.deliveries| && s.deliveries[d].stage == Working ==> !s.deliveries[d].applied
    ensures WalletsShowApplied(t0, After(ttl, s, e))
  {
    hide Apply, SameWithdrawals;
    var after := After(ttl, s, e);
    if e.Process? {
      ProcessShowsApplied(ttl, t0, s, e);
    } else if e.Receive? {
      assert after.deliveries[..|s.deliveries|] == s.deliveries;
    } else if !e.Wait? {
      forall w {:trigger AppliedBalance(after.deliveries, w)} | w in t0.wallets
        ensures AppliedBalance(after.deliveries, w) == AppliedBalance(s.deliveries, w)
        ensures AppliedLocked(t0, after.deliveries, w) == AppliedLocked(t0, s.deliveries, w)
      {
        AppliedUpdate(t0, s.deliveries, e.d, after.deliveries[e.d], w);
      }
    }
  }

  // ---------- at most once ----------

  /** The delivery has taken effect, or may still do so. */
  predicate Claimant(d: Delivery) {
    d.applied || d.stage == Working || d.stage == Applied || d.stage == Refused
  }

  ghost predicate StagesMakeSense(s: State) {
    forall d :: 0 <= d < |s.deliveries| ==>
      && (s.deliveries[d].applied ==> s.deliveries[d].stage in {Applied, Answered, Crashed})
      && (s.deliveries[d].stage == Applied ==> s.deliveries[d].applied)
      && (Claimant(s.deliveries[d]) ==> s.deliveries[d].claimedAt <= s.now)
  }

  /** A key with a claimant is in the cache until the gap after that claim has passed, and nobody else claims it. */
  ghost predicate Claimed(s: State, gap: int) {
    && (forall d :: 0 <= d < |s.deliveries| && Claimant(s.deliveries[d]) ==>
          s.deliveries[d].key in s.cache && s.cache[s.deliveries[d].key] >= s.deliveries[d].claimedAt + gap)
    && (forall d, c :: 0 <= d < c < |s.deliveries| && Claimant(s.deliveries[d]) && Claimant(s.deliveries[c])
          ==> s.deliveries[d].key != s.deliveries[c].key)
  }

  ghost predicate AtMostOnce(s: State) {
    forall d, c :: 0 <= d < c < |s.deliveries| && s.deliveries[d].applied && s.deliveries[c].applied
      ==> s.deliveries[d].key != s.deliveries[c].key
  }

  /** When a notification is claimed, a delivery of it that has taken or may still take effect was claimed less than the gap before. */
  ghost predicate InTime(s: State, e: Event, gap: int)
    requires Possible(s, e)
  {
    e.Claim? ==> forall d :: 0 <= d < |s.deliveries| && Claimant(s.deliveries[d]) && s.deliveries[d].key == s.deliveries[e.d].key
                   ==> s.now < s.deliveries[d].claimedAt + gap
  }

  /** Every redelivery of the run comes in time. It bounds no key's first delivery, no other key, and not the run. */
  ghost predicate Redelivered(ttl: Lifetimes, s0: State, events: seq<Event>, gap: int)
    requires IsRun(ttl, s0, events)
  {
    events == []
    || (Redelivered(ttl, s0, events[..|events| - 1], gap)
        && InTime(EndOf(ttl, s0, events[..|events| - 1]), events[|events| - 1], gap))
  }

  lemma StepKeepsStages(ttl: Lifetimes, s: State, e: Event)
    requires StagesMakeSense(s) && Possible(s, e)
    ensures StagesMakeSense(After(ttl, s, e))
  {
  }

  lemma StepKeepsClaims(ttl: Lifetimes, s: State, e: Event, gap: int)
    requires StagesMakeSense(s) && Claimed(s, gap) && Possible(s, e) && InTime(s, e, gap)
    requires gap <= ttl.claim && gap <= ttl.mark
    ensures Claimed(After(ttl, s, e), gap)
  {
    hide Apply;
    var after := After(ttl, s, e);
    if e.Receive? {
      assert forall d :: 0 <= d < |s.deliveries| ==> after.deliveries[d] == s.deliveries[d];
    }
  }

  /** Any tables and any cache, before the first delivery. */
  predicate Initial(s: State) {
    s.deliveries == []
  }

  ghost predicate Invariant(ttl: Lifetimes, s0: State, s: State, gap: int) {
    StagesMakeSense(s) && WalletsShowApplied(s0.tables, s) && Claimed(s, gap)
  }

  lemma StepKeepsInvariant(ttl: Lifetimes, s0: State, s: State, e: Event, gap: int)
    requires Invariant(ttl, s0, s, gap) && Possible(s, e) && InTime(s, e, gap)
    requires gap <= ttl.claim && gap <= ttl.mark
    ensures Invariant(ttl, s0, After(ttl, s, e), gap)
  {
    hide StagesMakeSense, WalletsShowApplied, Claimed, After;
    StepKeepsStages(ttl, s, e);
    WorkingIsNotApplied(s);
    StepShowsApplied(ttl, s0.tables, s, e);
    StepKeepsClaims(ttl, s, e, gap);
  }

  lemma WorkingIsNotApplied(s: State)
    requires StagesMakeSense(s)
    ensures forall d :: 0 <= d < |s.deliveries| && s.deliveries[d].stage == Working ==> !s.deliveries[d].applied
  {
  }

  lemma {:induction false} RunInvariant(ttl: Lifetimes, s0: State, events: seq<Event>, gap: int)
    requires Initial(s0) && IsRun(ttl, s0, events) && Redelivered(ttl, s0, events, gap)
    requires gap <= ttl.claim && gap <= ttl.mark
    ensures Invariant(ttl, s0, EndOf(ttl, s0, events), gap)
    decreases |events|
  {
    if events != [] {
      RunInvariant(ttl, s0, events[..|events| - 1], gap);
      hide Invariant, After, Possible, InTime;
      StepKeepsInvariant(ttl, s0, EndOf(ttl, s0, events[..|events| - 1]), events[|events| - 1], gap);
    }
  }

  /** The total over the distinct notifications that took effect, each counted once. */
  function DistinctBalance(ds: seq<Delivery>, wallet: string): int {
    if ds == [] then 0
    else
      var front, last := ds[..|ds| - 1], ds[|ds| - 1];
      DistinctBalance(front, wallet) + if last.applied && !TookEffect(front, last.key) then BalanceEffect(last.payload, wallet) else 0
  }

  predicate TookEffect(ds: seq<Delivery>, key: Key) {
    exists d :: 0 <= d < |ds| && ds[d].applied && ds[d].key == key
  }

  lemma {:induction false} AppliedOnceIsDistinct(s: State, n: nat, wallet: string)
    requires AtMostOnce(s) && n <= |s.deliveries|
    ensures AppliedBalance(s.deliveries[..n], wallet) == DistinctBalance(s.deliveries[..n], wallet)
  {
    if n > 0 {
      AppliedOnceIsDistinct(s, n - 1, wallet);
      assert s.deliveries[..n][..n - 1] == s.deliveries[..n - 1];
    }
  }

  /** The wallet shows its initial balance plus every notification that took effect, once. */
  ghost predicate CreditedOnce(s0: State, s: State, wallet: string) {
    wallet in s0.tables.wallets && wallet in s.tables.wallets
    && s.tables.wallets[wallet].balance == s0.tables.wallets[wallet].balance + DistinctBalance(s.deliveries, wallet)
  }

  lemma InvariantCreditsOnce(ttl: Lifetimes, s0: State, s: State, gap: int, wallet: string)
    requires Invariant(ttl, s0, s, gap) && wallet in s0.tables.wallets
    ensures AtMostOnce(s) && WalletsShowApplied(s0.tables, s) && CreditedOnce(s0, s, wallet)
  {
    hide StagesMakeSense, SameWithdrawals, AppliedBalance, AppliedLocked, DistinctBalance;
    assert s.deliveries[..|s.deliveries|] == s.deliveries;
    AppliedOnceIsDistinct(s, |s.deliveries|, wallet);
  }

  /**
   On every run, however long, under every interleaving of repeated, failing and crashing deliveries whose
   redeliveries come within both key lifetimes: each notification takes effect at most once, and every
   wallet shows its initial amounts plus exactly what the distinct notifications that took effect add.
   */
  lemma AtMostOnceOverRuns(ttl: Lifetimes, s0: State, events: seq<Event>, gap: int, wallet: string)
    requires Initial(s0) && IsRun(ttl, s0, events) && Redelivered(ttl, s0, events, gap)
    requires gap <= ttl.claim && gap <= ttl.mark && wallet in s0.tables.wallets
    ensures AtMostOnce(EndOf(ttl, s0, events)) && WalletsShowApplied(s0.tables, EndOf(ttl, s0, events))
    ensures CreditedOnce(s0, EndOf(ttl, s0, events), wallet)
  {
    hide *;
    RunInvariant(ttl, s0, events, gap);
    InvariantCreditsOnce(ttl, s0, EndOf(ttl, s0, events), gap, wallet);
  }

  // ---------- what a single delivery gets ----------

  /** While the key lives, a delivery is answered as a duplicate and changes neither cache nor tables. */
  lemma DuplicateIsAnswered(ttl: Lifetimes, s: State, d: nat)
    requires Possible(s, Claim(d)) && Live(s, s.deliveries[d].key)
    ensures After(ttl, s, Claim(d)) == s.(deliveries := s.deliveries[d := s.deliveries[d].(stage := Answered)])
  {
  }

  /** A well-formed first delivery that the database takes applies its payload, once, and is done. */
  lemma FreshDeliveryApplies(ttl: Lifetimes, s: State, d: nat)
    requires Possible(s, Claim(d)) && s.deliveries[d].wellFormed && !Live(s, s.deliveries[d].key)
    requires Apply(s.tables, s.deliveries[d].payload).Some?
    ensures var claimed := After(ttl, s, Claim(d));
      && Possible(claimed, Process(d, true)) && claimed.tables == s.tables
      && var done := After(ttl, claimed, Process(d, true));
      && Some(done.tables) == Apply(s.tables, s.deliveries[d].payload) && done.deliveries[d].applied
      && Possible(done, Mark(d, true)) && After(ttl, done, Mark(d, true)).tables == done.tables
      && (ttl.mark > 0 ==> Live(After(ttl, done, Mark(d, true)), s.deliveries[d].key))
  {
    hide Apply;
  }

  /** A delivery that failed, by the database or by its payload, and whose key was deleted changes nothing and leaves the way free for its repetition. */
  lemma FailedDeliveryFreesKey(ttl: Lifetimes, s: State, d: nat, databaseUp: bool)
    requires Possible(s, Claim(d)) && s.deliveries[d].wellFormed && !Live(s, s.deliveries[d].key)
    requires !databaseUp || Apply(s.tables, s.deliveries[d].payload).None?
    ensures var refused := After(ttl, After(ttl, s, Claim(d)), Process(d, databaseUp));
      && Possible(refused, Release(d, true))
      && var freed := After(ttl, refused, Release(d, true));
      && freed.tables == s.tables && !Live(freed, s.deliveries[d].key) && freed.deliveries[d].stage == Answered
      && freed.deliveries[d].applied == s.deliveries[d].applied
      && forall key :: key != s.deliveries[d].key ==> (Live(freed, key) <==> Live(s, key))
  {
    hide Apply;
  }

  /** A malformed delivery keeps the key: its well-formed repetition is a duplicate until the key expires. */
  lemma MalformedDeliveryBlocks(ttl: Lifetimes, s: State, d: nat, wait: nat)
    requires Possible(s, Claim(d)) && !s.deliveries[d].wellFormed && !Live(s, s.deliveries[d].key)
    ensures var refused := After(ttl, s, Claim(d));
      && refused.tables == s.tables && refused.deliveries[d].stage == Answered
      && (Live(After(ttl, refused, Wait(wait)), s.deliveries[d].key) <==> wait < ttl.claim)
  {
  }

  /**
   Keys do not tell the statuses of one Midtrans transaction apart: once its pending notification has been
   processed and marked, its settlement is answered as a duplicate until the mark expires, and credits nobody.
   */
  lemma PendingSwallowsSettlement(ttl: Lifetimes, s: State, d: nat, c: nat, wait: nat, order: string, amount: real)
    requires d != c && Possible(s, Claim(d)) && Possible(s, Claim(c)) && s.deliveries[c].key == s.deliveries[d].key
    requires s.deliveries[d].wellFormed && !Live(s, s.deliveries[d].key) && wait < ttl.mark
    requires s.deliveries[d].payload == MidtransPayload(order, "pending", None, amount)
    requires s.deliveries[c].payload == MidtransPayload(order, "settlement", None, amount)
    ensures var marked := After(ttl, After(ttl, After(ttl, s, Claim(d)), Process(d, true)), Mark(d, true));
      var later := After(ttl, marked, Wait(wait));
      && Possible(later, Claim(c))
      && var answered := After(ttl, later, Claim(c));
      answered.tables == s.tables && answered.deliveries[c].stage == Answered && !Possible(answered, Process(c, true))
  {
    assert MidtransPayload(order, "pending", None, amount) == Unrelated;
    hide MidtransPayload;
  }

  // ---------- the gap is exact ----------

  /** Extends a run by one event that comes in time. */
  lemma Extend(ttl: Lifetimes, s0: State, events: seq<Event>, s: State, e: Event, gap: int) returns (longer: seq<Event>, t: State)
    requires IsRun(ttl, s0, events) && Redelivered(ttl, s0, events, gap) && EndOf(ttl, s0, events) == s
    requires Possible(s, e) && InTime(s, e, gap)
    ensures t == After(ttl, s, e) && IsRun(ttl, s0, longer) && Redelivered(ttl, s0, longer, gap) && EndOf(ttl, s0, longer) == t
  {
    longer, t := events + [e], After(ttl, s, e);
    assert longer[..|longer| - 1] == events;
  }

  function Shorter(ttl: Lifetimes): int {
    if ttl.claim < ttl.mark then ttl.claim else ttl.mark
  }

  /** A first delivery takes effect, and its key lives for the shorter lifetime. */
  lemma FirstDelivery(ttl: Lifetimes, s0: State, key: Key, p: Payload, gap: int) returns (events: seq<Event>, s: State)
    requires Initial(s0) && !Live(s0, key) && ttl.claim > 0 && ttl.mark > 0 && Apply(s0.tables, p).Some?
    ensures IsRun(ttl, s0, events) && Redelivered(ttl, s0, events, gap) && EndOf(ttl, s0, events) == s && s.now == s0.now
    ensures exists stage :: stage in {Applied, Answered} && s.deliveries == [Delivery(key, true, p, stage, true, s0.now)]
    ensures s.tables == Apply(s0.tables, p).value && key in s.cache && s.cache[key] == s0.now + Shorter(ttl)
  {
    events, s := [], s0;
    hide Apply;
    assert IsRun(ttl, s0, events) && Redelivered(ttl, s0, events, gap) && EndOf(ttl, s0, events) == s;
    hide IsRun, EndOf, Redelivered;
    events, s := Extend(ttl, s0, events, s, Receive(key, true, p), gap);
    events, s := Extend(ttl, s0, events, s, Claim(0), gap);
    events, s := Extend(ttl, s0, events, s, Process(0, true), gap);
    if ttl.mark < ttl.claim {
      events, s := Extend(ttl, s0, events, s, Mark(0, true), gap);
    }
  }

  /** The same notification once more, claimed the moment its key has expired, takes effect again. */
  lemma SecondDeliveryAfterExpiry(ttl: Lifetimes, s0: State, key: Key, p: Payload, gap: int) returns (events: seq<Event>)
    requires Initial(s0) && !Live(s0, key) && ttl.claim > 0 && ttl.mark > 0 && gap > Shorter(ttl)
    requires Apply(s0.tables, p).Some? && Apply(Apply(s0.tables, p).value, p).Some?
    ensures IsRun(ttl, s0, events) && Redelivered(ttl, s0, events, gap) && !AtMostOnce(EndOf(ttl, s0, events))
    ensures var s := EndOf(ttl, s0, events);
      && s.tables == Apply(Apply(s0.tables, p).value, p).value
      && |s.deliveries| == 2 && forall d :: d in s.deliveries ==> d.applied && d.key == key && d.payload == p
  {
    var s;
    events, s := FirstDelivery(ttl, s0, key, p, gap);
    var wait := Shorter(ttl);
    assert wait >= 0;
    hide Apply, IsRun, EndOf, Redelivered, Shorter;
    events, s := Extend(ttl, s0, events, s, Receive(key, true, p), gap);
    events, s := Extend(ttl, s0, events, s, Wait(wait), gap);
    events, s := Extend(ttl, s0, events, s, Claim(1), gap);
    events, s := Extend(ttl, s0, events, s, Process(1, true), gap);
    assert s.deliveries[0].applied && s.deliveries[1].applied && s.deliveries[0].key == s.deliveries[1].key;
  }

  /** A paid top-up of one unit, redelivered too late, is credited twice. */
  lemma LateTopUpIsCreditedTwice(ttl: Lifetimes, s0: State, wallet: string, key: Key, gap: int) returns (events: seq<Event>)
    requires Initial(s0) && !Live(s0, key) && ttl.claim > 0 && ttl.mark > 0 && gap > Shorter(ttl)
    requires wallet in s0.tables.wallets
    ensures IsRun(ttl, s0, events) && Redelivered(ttl, s0, events, gap)
    ensures !AtMostOnce(EndOf(ttl, s0, events)) && !CreditedOnce(s0, EndOf(ttl, s0, events), wallet)
  {
    var p := TopUp(wallet, Paid, 1.0, None);
    assert TopUpMinor(1.0, None) == 100;
    events := SecondDeliveryAfterExpiry(ttl, s0, key, p, gap);
    var s := EndOf(ttl, s0, events);
    hide IsRun, EndOf, Redelivered, TopUpMinor;
    assert s.tables.wallets[wallet].balance == s0.tables.wallets[wallet].balance + 200;
    assert DistinctBalance(s.deliveries, wallet) == 100 by {
      var ds := s.deliveries;
      assert ds[0] in ds && ds[1] in ds;
      assert ds[..1][0] == ds[0] && TookEffect(ds[..1], key);
      assert DistinctBalance(ds[..1][..0], wallet) == 0;
      assert DistinctBalance(ds[..1], wallet) == 100;
    }
  }

  /** Every run whose redeliveries come within the gap applies each notification at most once. */
  ghost predicate GapIsSafe(ttl: Lifetimes, s0: State, gap: int) {
    forall events :: IsRun(ttl, s0, events) && Redelivered(ttl, s0, events, gap) ==> AtMostOnce(EndOf(ttl, s0, events))
  }

  ghost predicate GapCreditsOnce(ttl: Lifetimes, s0: State, gap: int, wallet: string) {
    forall events :: IsRun(ttl, s0, events) && Redelivered(ttl, s0, events, gap) ==> CreditedOnce(s0, EndOf(ttl, s0, events), wallet)
  }

  /**
   Over runs of any length, a redelivery gap is safe exactly when both key lifetimes cover it, and exactly
   then does a wallet show every notification that took effect just once.
   */
  lemma AtMostOnceExactly(ttl: Lifetimes, s0: State, gap: int, wallet: string)
    requires Initial(s0) && s0.cache == map[] && ttl.claim > 0 && ttl.mark > 0 && wallet in s0.tables.wallets
    ensures GapIsSafe(ttl, s0, gap) <==> gap <= ttl.claim && gap <= ttl.mark
    ensures GapCreditsOnce(ttl, s0, gap, wallet) <==> gap <= ttl.claim && gap <= ttl.mark
  {
    hide CreditedOnce, AtMostOnce, IsRun, EndOf, Redelivered;
    if gap <= ttl.claim && gap <= ttl.mark {
      forall events | IsRun(ttl, s0, events) && Redelivered(ttl, s0, events, gap)
        ensures AtMostOnce(EndOf(ttl, s0, events)) && CreditedOnce(s0, EndOf(ttl, s0, events), wallet)
      {
        AtMostOnceOverRuns(ttl, s0, events, gap, wallet);
      }
    } else {
      var events := LateTopUpIsCreditedTwice(ttl, s0, wallet, Key(XenditInvoice, "1"), gap);
    }
  }

  // ---------- the controller ----------

  /** The cache and tables the handlers share, and the handler steps that change them. */
  class WebhookController {
    const ttl: Lifetimes
    var now: int
    var cache: map<Key, int>
    var tables: Tables
    var deliveries: seq<Delivery>

    constructor (ttl: Lifetimes, tables: Tables)
      ensures View() == State(0, map[], tables, []) && this.ttl == ttl
    {
      this.ttl, this.tables := ttl, tables;
      now, cache, deliveries := 0, map[], [];
    }

    function View(): State
      reads this
    {
      State(now, cache, tables, deliveries)
    }

    /** CacheService.setnx. */
    method SetIfAbsent(key: Key, lifetime: int) returns (acquired: bool)
      modifies this`cache
      ensures acquired <==> !Live(old(View()), key)
      ensures cache == if acquired then old(cache)[key := now + lifetime] else old(cache)
    {
      if key in cache && now < cache[key] {
        return false;
      }
      cache := cache[key := now + lifetime];
      acquired := true;
    }

    method SetStage(d: nat, stage: Stage)
      requires d < |deliveries|
      modifies this`deliveries
      ensures deliveries == old(deliveries)[d := old(deliveries)[d].(stage := stage)]
    {
      deliveries := deliveries[d := deliveries[d].(stage := stage)];
    }

    /** The idempotency check and the payload check of a handler. */
    method ClaimDelivery(d: nat)
      requires Possible(View(), Claim(d))
      modifies this
      ensures View() == After(ttl, old(View()), Claim(d))
    {
      var acquired := SetIfAbsent(deliveries[d].key, ttl.claim);
      if !acquired {
        SetStage(d, Answered);
      } else {
        deliveries := deliveries[d := deliveries[d].(claimedAt := now)];
        SetStage(d, if deliveries[d].wellFormed then Working else Answered);
      }
    }

    method ProcessTopUp(wallet: string, status: PaymentStatus, amount: real, paidAmount: Option<real>) returns (ok: bool)
      modifies this`tables
      ensures ok <==> Apply(old(tables), TopUp(wallet, status, amount, paidAmount)).Some?
      ensures tables == if ok then Apply(old(tables), TopUp(wallet, status, amount, paidAmount)).value else old(tables)
    {
      if status == Paid {
        if wallet !in tables.wallets {
          return false;
        }
        var row := tables.wallets[wallet];
        var credited := row.(balance := row.balance + TopUpMinor(amount, paidAmount));
        tables := tables.(wallets := tables.wallets[wallet := credited]);
      }
      return true;
    }

    method ProcessOrder(order: string, status: PaymentStatus) returns (ok: bool)
      modifies this`tables
      ensures ok && Some(tables) == Apply(old(tables), OrderPayment(order, status))
    {
      ok := true;
      if order in tables.orders {
        if status == Paid {
          tables := tables.(orders := tables.orders[order := OrderPaid]);
        } else if status == Failed {
          tables := tables.(orders := tables.orders[order := OrderCancelled]);
        }
      }
    }

    /** A failed disbursement marks the row and unlocks the amount in one transaction, which rolls back without the wallet. */
    method ProcessDisbursement(id: string, status: PaymentStatus) returns (ok: bool)
      modifies this`tables
      ensures ok <==> Apply(old(tables), Disbursement(id, status)).Some?
      ensures tables == if ok then Apply(old(tables), Disbursement(id, status)).value else old(tables)
    {
      if status == Paid {
        if id !in tables.withdrawals {
          return false;
        }
        tables := tables.(withdrawals := tables.withdrawals[id := tables.withdrawals[id].(status := Paid)]);
      } else if status == Failed && id in tables.withdrawals {
        var saved, row := tables, tables.withdrawals[id];
        tables := tables.(withdrawals := tables.withdrawals[id := row.(status := Failed)]);
        if row.wallet !in tables.wallets {
          tables := saved;
          return false;
        }
        var wallet := tables.wallets[row.wallet];
        tables := tables.(wallets := tables.wallets[row.wallet := wallet.(locked := wallet.locked - row.amount)]);
      }
      return true;
    }

    /** Processing in the handler's try block: done and applied, or refused with the tables as they were. */
    method ProcessDelivery(d: nat, databaseUp: bool)
      requires Possible(View(), Process(d, databaseUp))
      modifies this
      ensures View() == After(ttl, old(View()), Process(d, databaseUp))
    {
      var ok := false;
      if databaseUp {
        match deliveries[d].payload
        case TopUp(wallet, status, amount, paidAmount) => ok := ProcessTopUp(wallet, status, amount, paidAmount);
        case OrderPayment(order, status) => ok := ProcessOrder(order, status);
        case Disbursement(id, status) => ok := ProcessDisbursement(id, status);
        case Unrelated => ok := true;
        case Broken =>
      }
      if ok {
        deliveries := deliveries[d := deliveries[d].(stage := Applied, applied := true)];
      } else {
        SetStage(d, Refused);
      }
    }

    /** The success path marks the key once more; the failure path deletes it. Neither ever raises. */
    method SettleKey(d: nat, cacheUp: bool)
      requires d < |deliveries| && deliveries[d].stage in {Applied, Refused}
      modifies this
      ensures View() == After(ttl, old(View()), if old(deliveries)[d].stage == Applied then Mark(d, cacheUp) else Release(d, cacheUp))
    {
      var key := deliveries[d].key;
      if cacheUp {
        if deliveries[d].stage == Applied {
          cache := cache[key := now + ttl.mark];
        } else {
          cache := cache - {key};
        }
      }
      SetStage(d, Answered);
    }
  }
}
