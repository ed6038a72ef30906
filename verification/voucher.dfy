/**
 Vouchers: validation, the discount preview, application with a usage record, and the list of available
 vouchers. Amounts are in minor units, percentages in hundredths. A voucher's or promo's id is its
 place in its table.
 */
module Vouchers {
  import opened Common

  datatype Promo = Promo(maxPerUser: int, maxTotal: Option<int>, currentUsages: int)

  datatype Voucher = Voucher(
    code: string, promo: Option<nat>, percentage: bool,
    percentHundredths: Option<int>, discountMinor: Option<int>, maxDiscountMinor: Option<int>,
    maxUsages: int, currentUsages: int, minPurchaseMinor: Option<int>, categories: Option<seq<string>>,
    validFrom: int, validUntil: int, active: bool, assignedTo: Option<nat>)

  datatype Usage = Usage(voucher: nat, user: nat, order: Option<nat>, original: int, discount: int, final: int, key: Option<string>)

  datatype State = State(vouchers: seq<Voucher>, promos: seq<Promo>, usages: seq<Usage>)

  datatype Problem = NotFound | NotActive | NotYetValid | Expired | LimitReached | NotAssigned | BelowMinimum
                   | WrongCategory | AlreadyUsed | DuplicateKey

  datatype Outcome<T> = Accepted(value: T) | Rejected(problem: Problem)

  // ---------- lookups ----------

  function Upper(s: string): string {
    seq(|s|, i requires 0 <= i < |s| => if 'a' <= s[i] <= 'z' then (s[i] as int - 32) as char else s[i])
  }

  function FindCode(vouchers: seq<Voucher>, code: string): (i: Option<nat>)
    ensures i.Some? ==> i.value < |vouchers| && vouchers[i.value].code == code
    ensures i.None? ==> forall k :: 0 <= k < |vouchers| ==> vouchers[k].code != code
  {
    if vouchers == [] then None
    else if vouchers[|vouchers| - 1].code == code then Some(|vouchers| - 1)
    else FindCode(vouchers[..|vouchers| - 1], code)
  }

  function FindKey(usages: seq<Usage>, key: string): (i: Option<nat>)
    ensures i.Some? ==> i.value < |usages| && usages[i.value].key == Some(key)
    ensures i.None? ==> forall k :: 0 <= k < |usages| ==> usages[k].key != Some(key)
  {
    if usages == [] then None
    else if usages[|usages| - 1].key == Some(key) then Some(|usages| - 1)
    else FindKey(usages[..|usages| - 1], key)
  }

  function UsesOf(usages: seq<Usage>, voucher: nat): nat {
    if usages == [] then 0
    else UsesOf(usages[..|usages| - 1], voucher) + if usages[|usages| - 1].voucher == voucher then 1 else 0
  }

  function UsesBy(usages: seq<Usage>, voucher: nat, user: nat): nat {
    if usages == [] then 0
    else
      var last := usages[|usages| - 1];
      UsesBy(usages[..|usages| - 1], voucher, user) + if last.voucher == voucher && last.user == user then 1 else 0
  }

  /** The usages counted on the vouchers of one promo. */
  function UsesOfPromo(vouchers: seq<Voucher>, promo: nat): int {
    if vouchers == [] then 0
    else
      var last := vouchers[|vouchers| - 1];
      UsesOfPromo(vouchers[..|vouchers| - 1], promo) + if last.promo == Some(promo) then last.currentUsages else 0
  }

  function UserLimit(s: State, v: Voucher): int {
    if v.promo.Some? && v.promo.value < |s.promos| then s.promos[v.promo.value].maxPerUser else 1
  }

  /** A column that is null or zero sets no bound. */
  predicate Given(x: Option<int>) {
    x.Some? && x.value != 0
  }

  // ---------- validation, discount, application ----------

  function Validate(s: State, code: string, user: nat, amount: int, category: Option<string>, now: int): Outcome<nat> {
    var found := FindCode(s.vouchers, Upper(code));
    if found.None? then Rejected(NotFound)
    else
      var i := found.value;
      var v := s.vouchers[i];
      if !v.active then Rejected(NotActive)
      else if now < v.validFrom then Rejected(NotYetValid)
      else if now > v.validUntil then Rejected(Expired)
      else if v.currentUsages >= v.maxUsages then Rejected(LimitReached)
      else if v.assignedTo.Some? && v.assignedTo.value != user then Rejected(NotAssigned)
      else if Given(v.minPurchaseMinor) && amount < v.minPurchaseMinor.value then Rejected(BelowMinimum)
      else if v.categories.Some? && category.Some? && category.value != "" && category.value !in v.categories.value then Rejected(WrongCategory)
      else if UsesBy(s.usages, i, user) >= UserLimit(s, v) then Rejected(AlreadyUsed)
      else Accepted(i)
  }

  /** Bigint division drops the fraction, also below zero. */
  function DivideTruncating(a: int, b: int): int
    requires b > 0
  {
    if a >= 0 then a / b else -(-a / b)
  }

  function RawDiscount(v: Voucher, amount: int): int {
    if v.percentage then
      var share := DivideTruncating(amount * (if v.percentHundredths.Some? then v.percentHundredths.value else 0), 10000);
      if Given(v.maxDiscountMinor) && share > v.maxDiscountMinor.value then v.maxDiscountMinor.value else share
    else if v.discountMinor.Some? then v.discountMinor.value
    else 0
  }

  function Discount(v: Voucher, amount: int): int {
    if RawDiscount(v, amount) > amount then amount else RawDiscount(v, amount)
  }

  datatype Applied = Applied(voucher: nat, code: string, discount: int, original: int, final: int)
  datatype Application = Application(code: string, user: nat, amount: int, order: Option<nat>, key: Option<string>, now: int)

  /** The state in which one application has been recorded and counted. */
  function Recorded(s: State, i: nat, a: Application): State
    requires i < |s.vouchers|
  {
    var v := s.vouchers[i];
    var discount := Discount(v, a.amount);
    State(s.vouchers[i := v.(currentUsages := v.currentUsages + 1)],
          if v.promo.Some? && v.promo.value < |s.promos| then
            var p := s.promos[v.promo.value];
            s.promos[v.promo.value := p.(currentUsages := p.currentUsages + 1)]
          else s.promos,
          s.usages + [Usage(i, a.user, a.order, a.amount, discount, a.amount - discount, a.key)])
  }

  /** The usage an earlier request with the same key left; an empty key is not looked up. */
  function Earlier(s: State, key: Option<string>): Option<nat> {
    if key.Some? && key.value != "" then FindKey(s.usages, key.value) else None
  }

  function Apply(s: State, a: Application): (State, Outcome<Applied>) {
    var earlier := Earlier(s, a.key);
    if earlier.Some? then
      var u := s.usages[earlier.value];
      (s, Accepted(Applied(u.voucher, a.code, u.discount, u.original, u.final)))
    else
      var found := FindCode(s.vouchers, Upper(a.code));
      if found.None? then (s, Rejected(NotFound))
      else
        var i := found.value;
        var v := s.vouchers[i];
        if !v.active then (s, Rejected(NotActive))
        else if a.now < v.validFrom then (s, Rejected(NotYetValid))
        else if a.now > v.validUntil then (s, Rejected(Expired))
        else if v.currentUsages >= v.maxUsages then (s, Rejected(LimitReached))
        else if v.assignedTo.Some? && v.assignedTo.value != a.user then (s, Rejected(NotAssigned))
        else if Given(v.minPurchaseMinor) && a.amount < v.minPurchaseMinor.value then (s, Rejected(BelowMinimum))
        else if UsesBy(s.usages, i, a.user) >= UserLimit(s, v) then (s, Rejected(AlreadyUsed))
        // The unique key column refuses a second empty key.
        else if a.key.Some? && FindKey(s.usages, a.key.value).Some? then (s, Rejected(DuplicateKey))
        else
          var discount := Discount(v, a.amount);
          (Recorded(s, i, a), Accepted(Applied(i, v.code, discount, a.amount, a.amount - discount)))
  }

  function Run(s: State, requests: seq<Application>): State {
    if requests == [] then s else Apply(Run(s, requests[..|requests| - 1]), requests[|requests| - 1]).0
  }

  // ---------- the books of the vouchers ----------

  /** Codes are unique and upper case, and promo references lead to promos, as the schema demands. */
  ghost predicate Linked(s: State) {
    && (forall i, j :: 0 <= i < j < |s.vouchers| ==> s.vouchers[i].code != s.vouchers[j].code)
    && (forall i :: 0 <= i < |s.vouchers| ==> CodeIsUpper(s.vouchers[i]))
    && (forall i :: 0 <= i < |s.vouchers| && s.vouchers[i].promo.Some? ==> s.vouchers[i].promo.value < |s.promos|)
  }

  predicate CodeIsUpper(v: Voucher) {
    Upper(v.code) == v.code
  }

  /** The voucher's counter is its number of usage records, within both limits. */
  ghost predicate Counted(s: State, i: nat)
    requires i < |s.vouchers|
  {
    var v := s.vouchers[i];
    && v.currentUsages == UsesOf(s.usages, i)
    && (v.currentUsages > 0 ==> v.currentUsages <= v.maxUsages)
    && (forall user :: UsesBy(s.usages, i, user) > 0 ==> UsesBy(s.usages, i, user) <= UserLimit(s, v))
  }

  /** A usage record splits the order amount by its voucher's terms and leaves nothing negative to pay. */
  ghost predicate RecordRight(s: State, u: Usage) {
    && u.voucher < |s.vouchers|
    && u.original == u.discount + u.final && u.final >= 0
    && u.discount == Discount(s.vouchers[u.voucher], u.original)
    && (s.vouchers[u.voucher].assignedTo.Some? ==> s.vouchers[u.voucher].assignedTo == Some(u.user))
  }

  ghost predicate Accounts(s: State) {
    && Linked(s)
    && (forall i :: 0 <= i < |s.vouchers| ==> Counted(s, i))
    && (forall p :: 0 <= p < |s.promos| ==> s.promos[p].currentUsages == UsesOfPromo(s.vouchers, p))
    && (forall k :: 0 <= k < |s.usages| ==> RecordRight(s, s.usages[k]))
    && (forall k, l :: 0 <= k < l < |s.usages| && s.usages[k].key.Some? ==> s.usages[k].key != s.usages[l].key)
  }

  lemma {:induction false} PromoSumMoves(vouchers: seq<Voucher>, i: nat, promo: nat)
    requires i < |vouchers|
    ensures var v := vouchers[i];
            UsesOfPromo(vouchers[i := v.(currentUsages := v.currentUsages + 1)], promo) ==
            UsesOfPromo(vouchers, promo) + if v.promo == Some(promo) then 1 else 0
  {
    var n := |vouchers| - 1;
    var after := vouchers[i := vouchers[i].(currentUsages := vouchers[i].currentUsages + 1)];
    if i == n {
      assert after[..n] == vouchers[..n];
    } else {
      PromoSumMoves(vouchers[..n], i, promo);
      assert after[..n] == vouchers[..n][i := vouchers[i].(currentUsages := vouchers[i].currentUsages + 1)];
    }
  }

  /** What stays fixed about a voucher: everything but its counter. */
  predicate SameTerms(v: Voucher, w: Voucher) {
    v.(currentUsages := 0) == w.(currentUsages := 0)
  }

  lemma SameTermsSameDiscount(v: Voucher, w: Voucher, amount: int)
    requires SameTerms(v, w)
    ensures Discount(v, amount) == Discount(w, amount)
  {
  }

  lemma FinalIsNotNegative(v: Voucher, amount: int)
    ensures amount - Discount(v, amount) >= 0
  {
  }

  /** What admission guarantees about the request. */
  predicate Admitted(s: State, i: nat, a: Application) {
    && i < |s.vouchers|
    && s.vouchers[i].currentUsages < s.vouchers[i].maxUsages
    && (s.vouchers[i].assignedTo.Some? ==> s.vouchers[i].assignedTo == Some(a.user))
    && UsesBy(s.usages, i, a.user) < UserLimit(s, s.vouchers[i])
    && (a.key.Some? ==> FindKey(s.usages, a.key.value).None?)
  }

  /** An application leaves everything as it was, or records the admitted voucher's use. */
  lemma ApplyRecordsOrLeaves(s: State, a: Application) returns (i: nat)
    ensures var after := Apply(s, a).0;
            after == s || (Admitted(s, i, a) && after == Recorded(s, i, a))
  {
    hide Recorded, Discount, UsesBy, UserLimit, Upper;
    var outcome := Apply(s, a).1;
    i := if outcome.Accepted? then outcome.value.voucher else 0;
  }

  lemma RecordedKeepsCounts(s: State, i: nat, a: Application, j: nat)
    requires Accounts(s) && Admitted(s, i, a) && j < |s.vouchers|
    ensures Counted(Recorded(s, i, a), j)
  {
    hide Discount, CodeIsUpper, Accounts, UsesOfPromo;
    assert Counted(s, j) by { AccountsCount(s, j); }
    var after := Recorded(s, i, a);
    assert after.usages[..|after.usages| - 1] == s.usages;
    var limit := UserLimit(s, s.vouchers[j]);
    assert UserLimit(after, after.vouchers[j]) == limit;
    forall user: nat | UsesBy(after.usages, j, user) > 0
      ensures UsesBy(after.usages, j, user) <= limit
    {
      assert UsesBy(after.usages, j, user) == UsesBy(s.usages, j, user) + if i == j && user == a.user then 1 else 0;
    }
  }

  lemma AccountsCount(s: State, j: nat)
    requires Accounts(s) && j < |s.vouchers|
    ensures Counted(s, j) && Linked(s)
  {
  }

  lemma RecordedKeepsPromos(s: State, i: nat, a: Application, p: nat)
    requires Accounts(s) && Admitted(s, i, a) && p < |s.promos|
    ensures Recorded(s, i, a).promos[p].currentUsages == UsesOfPromo(Recorded(s, i, a).vouchers, p)
  {
    hide Discount, Counted, RecordRight, UsesBy;
    PromoSumMoves(s.vouchers, i, p);
  }

  lemma RecordedKeepsRecords(s: State, i: nat, a: Application, k: nat)
    requires Accounts(s) && Admitted(s, i, a) && k <= |s.usages|
    ensures RecordRight(Recorded(s, i, a), Recorded(s, i, a).usages[k])
  {
    hide Discount, Counted, UsesBy, UsesOfPromo;
    var after := Recorded(s, i, a);
    FinalIsNotNegative(s.vouchers[i], a.amount);
    var j := after.usages[k].voucher;
    SameTermsSameDiscount(s.vouchers[j], after.vouchers[j], after.usages[k].original);
  }

  lemma RecordedKeepsAccounts(s: State, i: nat, a: Application)
    requires Accounts(s) && Admitted(s, i, a)
    ensures Accounts(Recorded(s, i, a))
  {
    hide Discount, Counted, UsesBy, UsesOfPromo, RecordRight, UserLimit;
    var after := Recorded(s, i, a);
    forall j | 0 <= j < |after.vouchers|
      ensures Counted(after, j)
    {
      RecordedKeepsCounts(s, i, a, j);
    }
    forall p | 0 <= p < |after.promos|
      ensures after.promos[p].currentUsages == UsesOfPromo(after.vouchers, p)
    {
      RecordedKeepsPromos(s, i, a, p);
    }
    forall k | 0 <= k < |after.usages|
      ensures RecordRight(after, after.usages[k])
    {
      RecordedKeepsRecords(s, i, a, k);
    }
  }

  /** Applying a voucher keeps the books in order. */
  lemma ApplyKeepsAccounts(s: State, a: Application)
    requires Accounts(s)
    ensures Accounts(Apply(s, a).0)
  {
    hide Apply, Recorded, Accounts;
    var i := ApplyRecordsOrLeaves(s, a);
    if Apply(s, a).0 != s {
      RecordedKeepsAccounts(s, i, a);
    }
  }

  /** Nothing has been used and every counter stands at zero. */
  ghost predicate Unused(s: State) {
    && Linked(s) && s.usages == []
    && (forall i :: 0 <= i < |s.vouchers| ==> s.vouchers[i].currentUsages == 0)
    && (forall p :: 0 <= p < |s.promos| ==> s.promos[p].currentUsages == 0)
  }

  lemma {:induction false} NoUsesNoSum(vouchers: seq<Voucher>, promo: nat)
    requires forall i :: 0 <= i < |vouchers| ==> vouchers[i].currentUsages == 0
    ensures UsesOfPromo(vouchers, promo) == 0
  {
    if vouchers != [] {
      NoUsesNoSum(vouchers[..|vouchers| - 1], promo);
    }
  }

  /** From unused vouchers, every run of applications keeps counters, limits, promo sums and records in agreement. */
  lemma {:induction false} EveryRunIsAccounted(s: State, requests: seq<Application>)
    requires Unused(s)
    ensures Accounts(Run(s, requests))
  {
    if requests == [] {
      forall p | 0 <= p < |s.promos|
        ensures s.promos[p].currentUsages == UsesOfPromo(s.vouchers, p)
      {
        NoUsesNoSum(s.vouchers, p);
      }
    } else {
      EveryRunIsAccounted(s, requests[..|requests| - 1]);
      ApplyKeepsAccounts(Run(s, requests[..|requests| - 1]), requests[|requests| - 1]);
    }
  }

  // ---------- discounts ----------

  /** The voucher's terms give no negative discount for the amount. */
  predicate PaysOut(v: Voucher, amount: int) {
    if v.percentage then
      && amount * (if v.percentHundredths.Some? then v.percentHundredths.value else 0) > -10000
      && (v.maxDiscountMinor.Some? ==> v.maxDiscountMinor.value >= 0)
    else v.discountMinor.Some? ==> v.discountMinor.value >= 0
  }

  lemma ShareIsNegative(a: int)
    ensures DivideTruncating(a, 10000) < 0 <==> a <= -10000
  {
  }

  /** The amount to pay lies between nothing and the order amount exactly for an order and terms that are not negative. */
  lemma FinalWithinOrderExactly(v: Voucher, amount: int)
    ensures var final := amount - Discount(v, amount);
            0 <= final <= amount <==> (amount >= 0 && PaysOut(v, amount))
  {
    var share := amount * (if v.percentHundredths.Some? then v.percentHundredths.value else 0);
    ShareIsNegative(share);
  }

  /** A discount is never more than a positive cap, nor more than the order. */
  lemma DiscountRespectsCap(v: Voucher, amount: int)
    ensures Discount(v, amount) <= amount
    ensures v.percentage && Given(v.maxDiscountMinor) ==> Discount(v, amount) <= v.maxDiscountMinor.value
    ensures v.percentage && !Given(v.maxDiscountMinor) && v.percentHundredths.Some? && 0 <= v.percentHundredths.value <= 10000 && amount >= 0
      ==> 10000 * Discount(v, amount) <= amount * v.percentHundredths.value < 10000 * (Discount(v, amount) + 1)
  {
    if v.percentHundredths.Some? && 0 <= v.percentHundredths.value <= 10000 && amount >= 0 {
      var p := v.percentHundredths.value;
      ProductsAreOrdered(amount, p, 10000);
    }
  }

  lemma {:induction false} ProductsAreOrdered(n: nat, a: nat, b: nat)
    requires a <= b
    ensures 0 <= n * a <= n * b
  {
    if n > 0 {
      ProductsAreOrdered(n - 1, a, b);
      assert n * a == (n - 1) * a + a && n * b == (n - 1) * b + b;
    }
  }

  // ---------- repeated keys ----------

  lemma {:induction false} KeyIsUnique(usages: seq<Usage>, k: nat)
    requires forall i, j :: 0 <= i < j < |usages| && usages[i].key.Some? ==> usages[i].key != usages[j].key
    requires k < |usages| && usages[k].key.Some?
    ensures FindKey(usages, usages[k].key.value) == Some(k)
  {
    if usages[|usages| - 1].key == usages[k].key {
      assert k == |usages| - 1;
    } else {
      KeyIsUnique(usages[..|usages| - 1], k);
    }
  }

  lemma {:induction false} RunAppends(s: State, requests: seq<Application>)
    ensures s.usages <= Run(s, requests).usages
  {
    hide Apply, Recorded, Admitted;
    if requests != [] {
      var before := Run(s, requests[..|requests| - 1]);
      RunAppends(s, requests[..|requests| - 1]);
      ApplyAppends(before, requests[|requests| - 1]);
    }
  }

  lemma ApplyAppends(s: State, a: Application)
    ensures s.usages <= Apply(s, a).0.usages
  {
    hide Apply, Discount;
    var i := ApplyRecordsOrLeaves(s, a);
  }

  lemma {:induction false} RunKeepsAccounts(s: State, requests: seq<Application>)
    requires Accounts(s)
    ensures Accounts(Run(s, requests))
  {
    if requests != [] {
      hide Accounts, Apply;
      RunKeepsAccounts(s, requests[..|requests| - 1]);
      ApplyKeepsAccounts(Run(s, requests[..|requests| - 1]), requests[|requests| - 1]);
    }
  }

  /**
   Once a usage carries a non-empty key, a request with that key, at any later time and whatever else it
   asks for, changes nothing and is answered with that usage.
   */
  lemma RepeatedKeyChangesNothing(s: State, k: nat, requests: seq<Application>, again: Application)
    requires Accounts(s) && k < |s.usages| && s.usages[k].key.Some? && s.usages[k].key.value != ""
    requires again.key == s.usages[k].key
    ensures var later := Run(s, requests);
            var u := s.usages[k];
            Apply(later, again) == (later, Accepted(Applied(u.voucher, again.code, u.discount, u.original, u.final)))
  {
    hide Run, Counted, RecordRight, Linked;
    RunAppends(s, requests);
    RunKeepsAccounts(s, requests);
    KeyIsUnique(Run(s, requests).usages, k);
  }

  /** An empty key is not looked up first; a second one is refused where the first would have been repeated. */
  lemma SecondEmptyKeyIsRefused(s: State, a: Application, k: nat)
    requires k < |s.usages| && s.usages[k].key == Some("") && a.key == Some("")
    ensures Apply(s, a).0 == s && Apply(s, a).1.Rejected?
    ensures Validate(s, a.code, a.user, a.amount, None, a.now).Accepted? ==> Apply(s, a).1 == Rejected(DuplicateKey)
  {
    hide UsesBy, UserLimit, Upper, FindCode, Discount;
  }

  // ---------- validation, preview, list and application agree ----------

  /** A key no usage carries, or none. */
  predicate FreshKey(s: State, key: Option<string>) {
    key.Some? ==> FindKey(s.usages, key.value).None?
  }

  /** With a fresh key, application accepts exactly what validation accepts without a category, refuses for the same reason, and grants the previewed discount. */
  lemma ApplyAgreesWithValidate(s: State, a: Application)
    requires FreshKey(s, a.key)
    ensures match Validate(s, a.code, a.user, a.amount, None, a.now)
            case Rejected(problem) => Apply(s, a) == (s, Rejected(problem))
            case Accepted(i) =>
              && i < |s.vouchers|
              && var preview := Discount(s.vouchers[i], a.amount);
                 Apply(s, a) == (Recorded(s, i, a), Accepted(Applied(i, s.vouchers[i].code, preview, a.amount, a.amount - preview)))
  {
    hide Recorded, Discount, UsesBy, UserLimit, Upper;
  }

  /** A category only ever restricts validation, so whatever was validated with one applies at the previewed discount. */
  lemma ValidatedVouchersApply(s: State, a: Application, category: Option<string>)
    requires FreshKey(s, a.key) && Validate(s, a.code, a.user, a.amount, category, a.now).Accepted?
    ensures var i := Validate(s, a.code, a.user, a.amount, category, a.now).value;
            && i < |s.vouchers|
            && Apply(s, a).1 ==
               Accepted(Applied(i, s.vouchers[i].code, Discount(s.vouchers[i], a.amount), a.amount, a.amount - Discount(s.vouchers[i], a.amount)))
  {
    hide Recorded, Discount, UsesBy, UserLimit, Upper, Apply;
    ApplyAgreesWithValidate(s, a);
  }

  /** Application does not look at categories: a voucher refused for its category applies unless the user's uses are spent. */
  lemma ApplyIgnoresCategories(s: State, a: Application, category: string)
    requires FreshKey(s, a.key) && Validate(s, a.code, a.user, a.amount, Some(category), a.now) == Rejected(WrongCategory)
    ensures var i := FindCode(s.vouchers, Upper(a.code)).value;
            && i < |s.vouchers|
            && (Apply(s, a).1.Accepted? <==> UsesBy(s.usages, i, a.user) < UserLimit(s, s.vouchers[i]))
  {
    hide Recorded, Discount, UsesBy, UserLimit, Upper;
  }

  predicate Sufficient(v: Voucher, amount: int) {
    Given(v.minPurchaseMinor) ==> amount >= v.minPurchaseMinor.value
  }

  /** The rows of the list query: active, in their period, public or the user's own. */
  predicate Queried(v: Voucher, user: nat, now: int) {
    v.active && v.validFrom <= now <= v.validUntil && (v.assignedTo.None? || v.assignedTo == Some(user))
  }

  predicate Available(s: State, i: nat, user: nat, now: int) {
    && i < |s.vouchers| && Queried(s.vouchers[i], user, now)
    && UsesBy(s.usages, i, user) < UserLimit(s, s.vouchers[i])
    && s.vouchers[i].currentUsages < s.vouchers[i].maxUsages
  }

  lemma {:induction false} CodeIsUnique(vouchers: seq<Voucher>, i: nat)
    requires forall j, k :: 0 <= j < k < |vouchers| ==> vouchers[j].code != vouchers[k].code
    requires i < |vouchers|
    ensures FindCode(vouchers, vouchers[i].code) == Some(i)
  {
    if i < |vouchers| - 1 {
      CodeIsUnique(vouchers[..|vouchers| - 1], i);
    }
  }

  /** A voucher is listed exactly when validation accepts it, without a category, for every sufficient amount. */
  lemma ListedExactlyWhenValid(s: State, i: nat, user: nat, now: int)
    requires Linked(s) && i < |s.vouchers|
    ensures Available(s, i, user, now) <==>
            (forall amount :: Sufficient(s.vouchers[i], amount) ==>
              Validate(s, s.vouchers[i].code, user, amount, None, now) == Accepted(i))
  {
    hide UsesBy, UserLimit, Upper;
    var v := s.vouchers[i];
    CodeIsUnique(s.vouchers, i);
    assert CodeIsUpper(v);
    var enough := if v.minPurchaseMinor.Some? then v.minPurchaseMinor.value else 0;
    assert Sufficient(v, enough);
    if Validate(s, v.code, user, enough, None, now) == Accepted(i) {
      assert Available(s, i, user, now);
    }
  }

  /** A promo's total limit binds nobody: each of its vouchers counts only against its own. */
  lemma PromoTotalIsNotChecked(s: State, p: nat, a: Application)
    requires p < |s.promos| && s.promos[p].maxTotal.Some? && s.promos[p].currentUsages >= s.promos[p].maxTotal.value
    requires FreshKey(s, a.key) && Validate(s, a.code, a.user, a.amount, None, a.now).Accepted?
    requires s.vouchers[Validate(s, a.code, a.user, a.amount, None, a.now).value].promo == Some(p)
    ensures Apply(s, a).1.Accepted? && Apply(s, a).0.promos[p].currentUsages > s.promos[p].maxTotal.value
  {
    hide Validate, Accounts, Discount, UsesBy, UserLimit, Apply;
    ApplyAgreesWithValidate(s, a);
  }

  // ---------- what the answers mean for the rows ----------

  /** A code counts in capitals: each of the letters a to z as its capital, any other character as it is. */
  lemma UpperCapitalises(s: string, k: nat)
    requires k < |s|
    ensures |Upper(s)| == |s|
    ensures 'a' <= s[k] <= 'z' ==> 'A' <= Upper(s)[k] <= 'Z' && Upper(s)[k] as int - 'A' as int == s[k] as int - 'a' as int
    ensures !('a' <= s[k] <= 'z') ==> Upper(s)[k] == s[k]
  {
  }

  /** The usage records of one user for one voucher. */
  ghost function RecordsOf(usages: seq<Usage>, voucher: nat, user: nat): set<nat> {
    set k | 0 <= k < |usages| && usages[k].voucher == voucher && usages[k].user == user
  }

  lemma {:induction false} UsesAreRecords(usages: seq<Usage>, voucher: nat, user: nat)
    ensures UsesBy(usages, voucher, user) == |RecordsOf(usages, voucher, user)|
  {
    if usages != [] {
      var n := |usages| - 1;
      UsesAreRecords(usages[..n], voucher, user);
      var before, now := RecordsOf(usages[..n], voucher, user), RecordsOf(usages, voucher, user);
      assert now == before + if usages[n].voucher == voucher && usages[n].user == user then {n} else {};
    }
  }

  ghost function RecordsOfVoucher(usages: seq<Usage>, voucher: nat): set<nat> {
    set k | 0 <= k < |usages| && usages[k].voucher == voucher
  }

  lemma {:induction false} CountsAreRecords(usages: seq<Usage>, voucher: nat)
    ensures UsesOf(usages, voucher) == |RecordsOfVoucher(usages, voucher)|
  {
    if usages != [] {
      var n := |usages| - 1;
      CountsAreRecords(usages[..n], voucher);
      var before, now := RecordsOfVoucher(usages[..n], voucher), RecordsOfVoucher(usages, voucher);
      assert now == before + if usages[n].voucher == voucher then {n} else {};
    }
  }

  /** The conditions of validation, each under the answer it has when it fails. */
  ghost predicate Fails(s: State, code: string, user: nat, amount: int, category: Option<string>, now: int, i: nat, problem: Problem)
    requires i < |s.vouchers|
  {
    var v := s.vouchers[i];
    match problem
    case NotFound => v.code != Upper(code)
    case NotActive => !v.active
    case NotYetValid => now < v.validFrom
    case Expired => v.validUntil < now
    case LimitReached => v.maxUsages <= v.currentUsages
    case NotAssigned => v.assignedTo.Some? && v.assignedTo != Some(user)
    case BelowMinimum => v.minPurchaseMinor.Some? && v.minPurchaseMinor != Some(0) && amount < v.minPurchaseMinor.value
    case WrongCategory => v.categories.Some? && category.Some? && category != Some("") && category.value !in v.categories.value
    case AlreadyUsed =>
      |RecordsOf(s.usages, i, user)| >= if v.promo.Some? && v.promo.value < |s.promos| then s.promos[v.promo.value].maxPerUser else 1
    case DuplicateKey => false
  }

  /** The order in which the conditions are checked. */
  const LADDER := [NotActive, NotYetValid, Expired, LimitReached, NotAssigned, BelowMinimum, WrongCategory, AlreadyUsed]

  /** A code no voucher has is not found. */
  lemma UnknownCodeIsNotFound(s: State, code: string, user: nat, amount: int, category: Option<string>, now: int)
    requires forall i :: 0 <= i < |s.vouchers| ==> s.vouchers[i].code != Upper(code)
    ensures Validate(s, code, user, amount, category, now) == Rejected(NotFound)
  {
  }

  /** The conditions in their order, one by one. */
  lemma ValidatesInOrder(s: State, code: string, user: nat, amount: int, category: Option<string>, now: int, i: nat)
    requires Linked(s) && i < |s.vouchers| && s.vouchers[i].code == Upper(code)
    ensures var fails := (problem: Problem) => Fails(s, code, user, amount, category, now, i, problem);
      Validate(s, code, user, amount, category, now) ==
      if fails(NotActive) then Rejected(NotActive)
      else if fails(NotYetValid) then Rejected(NotYetValid)
      else if fails(Expired) then Rejected(Expired)
      else if fails(LimitReached) then Rejected(LimitReached)
      else if fails(NotAssigned) then Rejected(NotAssigned)
      else if fails(BelowMinimum) then Rejected(BelowMinimum)
      else if fails(WrongCategory) then Rejected(WrongCategory)
      else if fails(AlreadyUsed) then Rejected(AlreadyUsed)
      else Accepted(i)
  {
    CodeIsUnique(s.vouchers, i);
    UsesAreRecords(s.usages, i, user);
    hide UsesBy, Upper, FindCode, RecordsOf, Linked;
  }

  /** A voucher is accepted exactly when none of its conditions fails, and refused for the first that does. */
  lemma ValidatesExactly(s: State, code: string, user: nat, amount: int, category: Option<string>, now: int, i: nat)
    requires Linked(s) && i < |s.vouchers| && s.vouchers[i].code == Upper(code)
    ensures Validate(s, code, user, amount, category, now) == Accepted(i)
      <==> (forall k :: 0 <= k < |LADDER| ==> !Fails(s, code, user, amount, category, now, i, LADDER[k]))
    ensures forall k :: 0 <= k < |LADDER| ==> (Validate(s, code, user, amount, category, now) == Rejected(LADDER[k])
      <==> Fails(s, code, user, amount, category, now, i, LADDER[k])
           && forall j :: 0 <= j < k ==> !Fails(s, code, user, amount, category, now, i, LADDER[j]))
  {
    ValidatesInOrder(s, code, user, amount, category, now, i);
    hide Validate, Fails, Upper, Linked;
    assert LADDER[0] == NotActive && LADDER[1] == NotYetValid && LADDER[2] == Expired && LADDER[3] == LimitReached;
    assert LADDER[4] == NotAssigned && LADDER[5] == BelowMinimum && LADDER[6] == WrongCategory && LADDER[7] == AlreadyUsed;
  }

  /** One more use of the voucher and of its promo, and no other change of a row. */
  ghost predicate CountsUse(s: State, after: State, i: nat)
    requires i < |s.vouchers|
  {
    && |after.vouchers| == |s.vouchers| && |after.promos| == |s.promos|
    && (forall k :: 0 <= k < |s.vouchers| ==>
          after.vouchers[k] == if k == i then s.vouchers[k].(currentUsages := s.vouchers[k].currentUsages + 1) else s.vouchers[k])
    && (forall p :: 0 <= p < |s.promos| ==>
          after.promos[p] == if s.vouchers[i].promo == Some(p) then s.promos[p].(currentUsages := s.promos[p].currentUsages + 1) else s.promos[p])
  }

  /** An accepted new application records who used what for which order, answers with what it recorded, and counts the use. */
  lemma AcceptedApplicationRecords(s: State, a: Application)
    requires FreshKey(s, a.key) && Apply(s, a).1.Accepted?
    ensures var (after, granted) := (Apply(s, a).0, Apply(s, a).1.value);
      && granted.voucher < |s.vouchers| && s.vouchers[granted.voucher].code == granted.code == Upper(a.code)
      && granted.original == a.amount == granted.discount + granted.final
      && after.usages == s.usages + [Usage(granted.voucher, a.user, a.order, a.amount, granted.discount, granted.final, a.key)]
      && CountsUse(s, after, granted.voucher)
  {
    hide Discount, UsesBy, UserLimit, Upper, FindKey;
  }

  /** A fixed voucher grants its face value, or the whole order when that is less, and nothing without a value. */
  lemma FixedVoucherGrants(s: State, a: Application)
    requires FreshKey(s, a.key) && Apply(s, a).1.Accepted?
    requires !s.vouchers[AcceptedRow(s, a)].percentage
    ensures var (v, granted) := (s.vouchers[AcceptedRow(s, a)], Apply(s, a).1.value);
      && (v.discountMinor.Some? ==> granted.discount == Least(v.discountMinor.value, a.amount))
      && (v.discountMinor.None? ==> granted.discount == Least(0, a.amount))
  {
    hide UsesBy, UserLimit, Upper, FindKey;
  }

  function Least(x: int, y: int): int {
    if x <= y then x else y
  }

  /** The voucher row of an accepted application. */
  function AcceptedRow(s: State, a: Application): (i: nat)
    requires FreshKey(s, a.key) && Apply(s, a).1.Accepted?
    ensures i < |s.vouchers|
  {
    AcceptedApplicationRecords(s, a);
    Apply(s, a).1.value.voucher
  }

  /** The share of the order in whole minor units, what is left over dropped. */
  predicate IsShare(share: int, amount: int, percentHundredths: int) {
    var product := amount * percentHundredths;
    if product >= 0 then 10000 * share <= product < 10000 * (share + 1) else 10000 * (share - 1) < product <= 10000 * share
  }

  lemma ShareIsTruncated(share: int, amount: int, percentHundredths: int)
    requires IsShare(share, amount, percentHundredths)
    ensures DivideTruncating(amount * percentHundredths, 10000) == share
  {
  }

  /** A percentage voucher grants its share of the order; a cap it exceeds takes its place, and the order is the most. */
  lemma PercentageVoucherGrants(s: State, a: Application, share: int)
    requires FreshKey(s, a.key) && Apply(s, a).1.Accepted?
    requires s.vouchers[AcceptedRow(s, a)].percentage
    requires IsShare(share, a.amount, s.vouchers[AcceptedRow(s, a)].percentHundredths.GetOr(0))
    ensures var (v, granted) := (s.vouchers[AcceptedRow(s, a)], Apply(s, a).1.value);
      && (v.maxDiscountMinor.None? || v.maxDiscountMinor == Some(0) ==> granted.discount == Least(share, a.amount))
      && (v.maxDiscountMinor.Some? && v.maxDiscountMinor != Some(0) ==>
            granted.discount == Least(Least(share, v.maxDiscountMinor.value), a.amount))
  {
    ShareIsTruncated(share, a.amount, s.vouchers[AcceptedRow(s, a)].percentHundredths.GetOr(0));
    hide UsesBy, UserLimit, Upper, FindKey, DivideTruncating, IsShare;
  }

  /** What a voucher is worth for an order, by its terms. */
  ghost predicate Grants(v: Voucher, amount: int, discount: int) {
    if v.percentage then
      exists share :: IsShare(share, amount, v.percentHundredths.GetOr(0))
                      && discount == Least(amount, if Given(v.maxDiscountMinor) then Least(share, v.maxDiscountMinor.value) else share)
    else discount == Least(amount, v.discountMinor.GetOr(0))
  }

  lemma DiscountIsGranted(v: Voucher, amount: int)
    ensures Grants(v, amount, Discount(v, amount))
  {
    if v.percentage {
      var share := DivideTruncating(amount * v.percentHundredths.GetOr(0), 10000);
      assert IsShare(share, amount, v.percentHundredths.GetOr(0));
      hide DivideTruncating, IsShare;
    }
  }

  /** The records of the first n vouchers that belong to a promo. */
  ghost function RecordsOfPromo(s: State, n: nat, p: nat): set<nat>
    requires n <= |s.vouchers|
  {
    set k | 0 <= k < |s.usages| && s.usages[k].voucher < n && s.vouchers[s.usages[k].voucher].promo == Some(p)
  }

  /** The n-th voucher adds its own records, and its use counts for no other voucher. */
  lemma OneMoreVoucher(s: State, n: nat, p: nat)
    requires n < |s.vouchers|
    ensures |RecordsOfPromo(s, n + 1, p)| == |RecordsOfPromo(s, n, p)| + if s.vouchers[n].promo == Some(p) then UsesOf(s.usages, n) else 0
  {
    CountsAreRecords(s.usages, n);
    hide UsesOf;
    var mine := RecordsOfVoucher(s.usages, n);
    var before := RecordsOfPromo(s, n, p);
    if s.vouchers[n].promo == Some(p) {
      assert RecordsOfPromo(s, n + 1, p) == before + mine && before !! mine;
    } else {
      assert RecordsOfPromo(s, n + 1, p) == before;
    }
  }

  lemma {:induction false} PromoSumIsRecords(s: State, n: nat, p: nat)
    requires n <= |s.vouchers| && forall i :: 0 <= i < |s.vouchers| ==> s.vouchers[i].currentUsages == UsesOf(s.usages, i)
    ensures UsesOfPromo(s.vouchers[..n], p) == |RecordsOfPromo(s, n, p)|
  {
    if n > 0 {
      PromoSumIsRecords(s, n - 1, p);
      OneMoreVoucher(s, n - 1, p);
      hide RecordsOfPromo, UsesOf;
      assert s.vouchers[..n][..n - 1] == s.vouchers[..n - 1];
    }
  }

  /** On sound books a promo's counter is the number of usage records its vouchers have. */
  lemma PromoCounterIsRecords(s: State, p: nat)
    requires Accounts(s) && p < |s.promos|
    ensures s.promos[p].currentUsages == |RecordsOfPromo(s, |s.vouchers|, p)|
  {
    forall i | 0 <= i < |s.vouchers|
      ensures s.vouchers[i].currentUsages == UsesOf(s.usages, i)
    {
      AccountsCount(s, i);
    }
    hide RecordsOfPromo, UsesOf, Counted;
    PromoSumIsRecords(s, |s.vouchers|, p);
    assert s.vouchers[..|s.vouchers|] == s.vouchers;
  }

  // ---------- the service ----------

  /** One row of the list, with what is left of both limits. */
  datatype Listing = Listing(voucher: nat, remaining: int, userRemaining: int)

  /** The list query's answer: the matching rows, each once, the earliest end first. */
  ghost predicate QueryAnswer(s: State, rows: seq<nat>, user: nat, now: int) {
    && (forall k :: 0 <= k < |rows| ==> rows[k] < |s.vouchers| && Queried(s.vouchers[rows[k]], user, now))
    && (forall i :: 0 <= i < |s.vouchers| && Queried(s.vouchers[i], user, now) ==> i in rows)
    && (forall k, l :: 0 <= k < l < |rows| ==> rows[k] != rows[l] && s.vouchers[rows[k]].validUntil <= s.vouchers[rows[l]].validUntil)
  }

  predicate ListedRight(s: State, row: Listing, user: nat, now: int) {
    && Available(s, row.voucher, user, now)
    && var v := s.vouchers[row.voucher];
       row == Listing(row.voucher, v.maxUsages - v.currentUsages, UserLimit(s, v) - UsesBy(s.usages, row.voucher, user))
  }

  ghost predicate Lists(rows: seq<Listing>, i: nat) {
    exists k :: 0 <= k < |rows| && rows[k].voucher == i
  }

  predicate InListOrder(s: State, first: Listing, second: Listing) {
    && first.voucher != second.voucher && first.voucher < |s.vouchers| && second.voucher < |s.vouchers|
    && s.vouchers[first.voucher].validUntil <= s.vouchers[second.voucher].validUntil
  }

  /** The list made from the first rows of the query's answer. */
  ghost predicate ListsFirst(s: State, rows: seq<nat>, r: nat, result: seq<Listing>, user: nat, now: int)
    requires r <= |rows|
  {
    && (forall k :: 0 <= k < |result| ==> ListedRight(s, result[k], user, now) && result[k].voucher in rows[..r])
    && (forall q :: 0 <= q < r && Available(s, rows[q], user, now) ==> Lists(result, rows[q]))
    && (forall k, l :: 0 <= k < l < |result| ==> InListOrder(s, result[k], result[l]))
  }

  lemma LongerListLists(result: seq<Listing>, row: Listing, i: nat)
    requires Lists(result, i) || row.voucher == i
    ensures Lists(result + [row], i)
  {
    if Lists(result, i) {
      var k :| 0 <= k < |result| && result[k].voucher == i;
      assert (result + [row])[k].voucher == i;
    } else {
      assert (result + [row])[|result|].voucher == i;
    }
  }

  lemma RowIsQueried(s: State, rows: seq<nat>, r: nat, user: nat, now: int)
    requires QueryAnswer(s, rows, user, now) && r < |rows|
    ensures rows[r] < |s.vouchers| && Queried(s.vouchers[rows[r]], user, now)
  {
  }

  lemma EveryRowIsQueried(s: State, rows: seq<nat>, user: nat, now: int)
    requires QueryAnswer(s, rows, user, now)
    ensures forall i :: Available(s, i, user, now) ==> exists q :: 0 <= q < |rows| && rows[q] == i
  {
  }

  lemma RowIsListed(s: State, rows: seq<nat>, r: nat, result: seq<Listing>, row: Listing, user: nat, now: int)
    requires QueryAnswer(s, rows, user, now) && r < |rows| && ListsFirst(s, rows, r, result, user, now)
    requires ListedRight(s, row, user, now) && row.voucher == rows[r]
    ensures ListsFirst(s, rows, r + 1, result + [row], user, now)
  {
    hide Lists, ListedRight, Queried, Available;
    assert row.voucher < |s.vouchers| && row.voucher in rows[..r + 1];
    forall q | 0 <= q < r + 1 && Available(s, rows[q], user, now)
      ensures Lists(result + [row], rows[q])
    {
      LongerListLists(result, row, rows[q]);
    }
    forall k | 0 <= k < |result|
      ensures InListOrder(s, result[k], row) && result[k].voucher in rows[..r + 1]
    {
      var q :| 0 <= q < r && rows[q] == result[k].voucher;
    }
  }

  /** The discount the validation endpoint shows. */
  method PreviewDiscount(v: Voucher, orderAmountMinor: int) returns (discountMinor: int)
    ensures discountMinor == Discount(v, orderAmountMinor)
    ensures Grants(v, orderAmountMinor, discountMinor)
  {
    DiscountIsGranted(v, orderAmountMinor);
    hide Grants;
    if v.percentage {
      var percent := if v.percentHundredths.Some? then v.percentHundredths.value else 0;
      discountMinor := DivideTruncating(orderAmountMinor * percent, 10000);
      if Given(v.maxDiscountMinor) && discountMinor > v.maxDiscountMinor.value {
        discountMinor := v.maxDiscountMinor.value;
      }
    } else {
      discountMinor := if v.discountMinor.Some? then v.discountMinor.value else 0;
    }
    if discountMinor > orderAmountMinor {
      discountMinor := orderAmountMinor;
    }
  }

  class PromoService {
    var vouchers: seq<Voucher>
    var promos: seq<Promo>
    var usages: seq<Usage>

    constructor (vouchers: seq<Voucher>, promos: seq<Promo>)
      requires Unused(State(vouchers, promos, []))
      ensures View() == State(vouchers, promos, []) && Valid()
    {
      this.vouchers, this.promos, usages := vouchers, promos, [];
      new;
      EveryRunIsAccounted(View(), []);
    }

    function View(): State
      reads this
    {
      State(vouchers, promos, usages)
    }

    ghost predicate Valid()
      reads this
    {
      Accounts(View())
    }

    method CountUsages(voucher: nat, user: nat) returns (count: nat)
      ensures count == UsesBy(usages, voucher, user)
    {
      count := 0;
      for k := 0 to |usages|
        invariant count == UsesBy(usages[..k], voucher, user)
      {
        assert usages[..k + 1][..k] == usages[..k];
        if usages[k].voucher == voucher && usages[k].user == user {
          count := count + 1;
        }
      }
      assert usages[..|usages|] == usages;
    }

    method MaxUsagePerUser(v: Voucher) returns (limit: int)
      ensures limit == UserLimit(View(), v)
    {
      limit := 1;
      if v.promo.Some? && v.promo.value < |promos| {
        limit := promos[v.promo.value].maxPerUser;
      }
    }

    /** Applies a voucher in one transaction; a refusal or a repeated key leaves every table as it was. */
    method ApplyVoucher(a: Application) returns (outcome: Outcome<Applied>)
      requires Valid()
      modifies this
      ensures Valid()
      ensures View() == Apply(old(View()), a).0
      ensures outcome == Apply(old(View()), a).1
    {
      hide UsesBy, UserLimit, Accounts, Discount, Upper;
      ghost var before := View();
      ApplyKeepsAccounts(before, a);
      if a.key.Some? && a.key.value != "" {
        var existing := FindKey(usages, a.key.value);
        if existing.Some? {
          var u := usages[existing.value];
          return Accepted(Applied(u.voucher, a.code, u.discount, u.original, u.final));
        }
      }
      var locked := FindCode(vouchers, Upper(a.code));
      if locked.None? { return Rejected(NotFound); }
      var i := locked.value;
      var voucher := vouchers[i];
      if !voucher.active { return Rejected(NotActive); }
      if a.now < voucher.validFrom { return Rejected(NotYetValid); }
      if a.now > voucher.validUntil { return Rejected(Expired); }
      if voucher.currentUsages >= voucher.maxUsages { return Rejected(LimitReached); }
      if voucher.assignedTo.Some? && voucher.assignedTo.value != a.user { return Rejected(NotAssigned); }
      if Given(voucher.minPurchaseMinor) && a.amount < voucher.minPurchaseMinor.value { return Rejected(BelowMinimum); }
      var userUsageCount := CountUsages(i, a.user);
      var maxUsagePerUser := MaxUsagePerUser(voucher);
      if userUsageCount >= maxUsagePerUser { return Rejected(AlreadyUsed); }
      var discountMinor := PreviewDiscount(voucher, a.amount);
      var finalMinor := a.amount - discountMinor;
      if a.key.Some? && FindKey(usages, a.key.value).Some? { return Rejected(DuplicateKey); }
      usages := usages + [Usage(i, a.user, a.order, a.amount, discountMinor, finalMinor, a.key)];
      vouchers := vouchers[i := voucher.(currentUsages := voucher.currentUsages + 1)];
      if voucher.promo.Some? && voucher.promo.value < |promos| {
        var promo := promos[voucher.promo.value];
        promos := promos[voucher.promo.value := promo.(currentUsages := promo.currentUsages + 1)];
      }
      return Accepted(Applied(i, voucher.code, discountMinor, a.amount, finalMinor));
    }

    method ValidateVoucher(code: string, user: nat, amount: int, category: Option<string>, now: int) returns (outcome: Outcome<nat>)
      ensures outcome == Validate(View(), code, user, amount, category, now)
    {
      var found := FindCode(vouchers, Upper(code));
      if found.None? { return Rejected(NotFound); }
      var i := found.value;
      var voucher := vouchers[i];
      if !voucher.active { return Rejected(NotActive); }
      if now < voucher.validFrom { return Rejected(NotYetValid); }
      if now > voucher.validUntil { return Rejected(Expired); }
      if voucher.currentUsages >= voucher.maxUsages { return Rejected(LimitReached); }
      if voucher.assignedTo.Some? && voucher.assignedTo.value != user { return Rejected(NotAssigned); }
      if Given(voucher.minPurchaseMinor) && amount < voucher.minPurchaseMinor.value { return Rejected(BelowMinimum); }
      if voucher.categories.Some? && category.Some? && category.value != "" && category.value !in voucher.categories.value {
        return Rejected(WrongCategory);
      }
      var userUsageCount := CountUsages(i, user);
      var maxUsagePerUser := MaxUsagePerUser(voucher);
      if userUsageCount >= maxUsagePerUser { return Rejected(AlreadyUsed); }
      return Accepted(i);
    }

    /** Exactly the available vouchers, in the query's order, each with what is left of it. */
    method GetAvailableVouchersForUser(rows: seq<nat>, user: nat, now: int) returns (result: seq<Listing>)
      requires QueryAnswer(View(), rows, user, now)
      ensures forall k :: 0 <= k < |result| ==> ListedRight(View(), result[k], user, now) && result[k].remaining > 0 && result[k].userRemaining > 0
      ensures forall i :: Available(View(), i, user, now) ==> Lists(result, i)
      ensures forall k, l :: 0 <= k < l < |result| ==> InListOrder(View(), result[k], result[l])
    {
      hide UsesBy, UserLimit, Lists, FindKey, FindCode, QueryAnswer, InListOrder;
      result := [];
      for r := 0 to |rows|
        invariant ListsFirst(View(), rows, r, result, user, now)
      {
        assert rows[r] < |vouchers| && Queried(vouchers[rows[r]], user, now) by {
          RowIsQueried(View(), rows, r, user, now);
        }
        var voucher := vouchers[rows[r]];
        var userUsageCount := CountUsages(rows[r], user);
        var maxUsagePerUser := MaxUsagePerUser(voucher);
        if userUsageCount < maxUsagePerUser && voucher.currentUsages < voucher.maxUsages {
          var row := Listing(rows[r], voucher.maxUsages - voucher.currentUsages, maxUsagePerUser - userUsageCount);
          RowIsListed(View(), rows, r, result, row, user, now);
          result := result + [row];
        } else {
          assert rows[..r + 1] == rows[..r] + [rows[r]];
        }
      }
      EveryRowIsQueried(View(), rows, user, now);
    }
  }
}
