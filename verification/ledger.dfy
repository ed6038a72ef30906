/**
 The double-entry ledger: accounts, journals and entries as database rows, and the
 service that posts to them. Row ids are positions in the tables; an entry also carries
 the (createdAt, id) stamp the database gave it, because running balances are defined by
 the order of those stamps and not by the order of insertion.
 */
module Ledger {
  import opened Common

  datatype AccountType = ASSET | LIABILITY | EQUITY | REVENUE | EXPENSE
  datatype Currency = IDR | USD
  datatype Owner = WalletOwner(wallet: nat) | PlatformOwner(platformKey: string)
  datatype Account = Account(owner: Owner, kind: AccountType, currency: Currency)

  datatype JournalType = ADJUSTMENT | DEPOSIT | WITHDRAWAL | ESCROW_LOCK | ESCROW_RELEASE | REFUND

  /** The one-to-one links of a journal; each carries a uniqueness constraint. */
  datatype Link = DepositLink(id: nat) | WithdrawalLink(id: nat) | DisputeLink(id: nat)

  datatype Journal = Journal(kind: JournalType, amount: int, key: Option<string>, link: Option<Link>, order: Option<nat>)

  /** Entries of an account are ordered by creation time, then by id. */
  datatype Stamp = Stamp(createdAt: int, id: int)

  datatype Line = Line(account: nat, amount: int)
  datatype Entry = Entry(journal: nat, account: nat, amount: int, stamp: Stamp, running: Option<int>)
  datatype Request = Request(head: Journal, lines: seq<Line>)

  datatype Books = Books(accounts: seq<Account>, journals: seq<Journal>, entries: seq<Entry>)

  datatype PostResult =
    | Created(journal: nat)
    | Replayed(journal: nat)
    | Unbalanced(sum: int)
    | UniqueViolation
    | ForeignKeyViolation

  predicate Before(a: Stamp, b: Stamp) {
    a.createdAt < b.createdAt || (a.createdAt == b.createdAt && a.id < b.id)
  }

  predicate UpTo(a: Stamp, b: Stamp) {
    Before(a, b) || a == b
  }

  // ---------- sums over lines and entries ----------

  function LinesTotal(lines: seq<Line>): int {
    if lines == [] then 0 else LinesTotal(lines[..|lines| - 1]) + lines[|lines| - 1].amount
  }

  function LinesOn(lines: seq<Line>, account: nat): int {
    if lines == [] then 0
    else
      var last := lines[|lines| - 1];
      LinesOn(lines[..|lines| - 1], account) + if last.account == account then last.amount else 0
  }

  /** What getAccountBalance aggregates. */
  function Balance(es: seq<Entry>, account: nat): int {
    if es == [] then 0
    else
      var last := es[|es| - 1];
      Balance(es[..|es| - 1], account) + if last.account == account then last.amount else 0
  }

  function JournalSum(es: seq<Entry>, journal: nat): int {
    if es == [] then 0
    else
      var last := es[|es| - 1];
      JournalSum(es[..|es| - 1], journal) + if last.journal == journal then last.amount else 0
  }

  /** The account's total over every entry stamped no later than the given stamp. */
  function Prefix(es: seq<Entry>, account: nat, stamp: Stamp): int {
    if es == [] then 0
    else
      var last := es[|es| - 1];
      Prefix(es[..|es| - 1], account, stamp)
      + if last.account == account && UpTo(last.stamp, stamp) then last.amount else 0
  }

  lemma {:induction false} BalanceConcat(a: seq<Entry>, b: seq<Entry>, account: nat)
    ensures Balance(a + b, account) == Balance(a, account) + Balance(b, account)
  {
    if b == [] {
      assert a + b == a;
    } else {
      assert (a + b)[..|a + b| - 1] == a + b[..|b| - 1];
      BalanceConcat(a, b[..|b| - 1], account);
    }
  }

  lemma {:induction false} JournalSumConcat(a: seq<Entry>, b: seq<Entry>, journal: nat)
    ensures JournalSum(a + b, journal) == JournalSum(a, journal) + JournalSum(b, journal)
  {
    if b == [] {
      assert a + b == a;
    } else {
      assert (a + b)[..|a + b| - 1] == a + b[..|b| - 1];
      JournalSumConcat(a, b[..|b| - 1], journal);
    }
  }

  lemma {:induction false} PrefixConcat(a: seq<Entry>, b: seq<Entry>, account: nat, stamp: Stamp)
    ensures Prefix(a + b, account, stamp) == Prefix(a, account, stamp) + Prefix(b, account, stamp)
  {
    if b == [] {
      assert a + b == a;
    } else {
      assert (a + b)[..|a + b| - 1] == a + b[..|b| - 1];
      PrefixConcat(a, b[..|b| - 1], account, stamp);
    }
  }

  /** Entries that differ at most in their running balance. */
  ghost predicate SameRows(a: seq<Entry>, b: seq<Entry>) {
    |a| == |b| && forall i :: 0 <= i < |a| ==> a[i] == b[i].(running := a[i].running)
  }

  lemma {:induction false} SumsIgnoreRunning(a: seq<Entry>, b: seq<Entry>)
    requires SameRows(a, b)
    ensures forall account, stamp :: Prefix(a, account, stamp) == Prefix(b, account, stamp)
    ensures forall account :: Balance(a, account) == Balance(b, account)
    ensures forall journal :: JournalSum(a, journal) == JournalSum(b, journal)
  {
    if a != [] {
      SumsIgnoreRunning(a[..|a| - 1], b[..|b| - 1]);
    }
  }

  // ---------- the rows of one account in stamp order ----------

  function Insert(rows: seq<Entry>, e: Entry): (r: seq<Entry>) {
    if rows == [] || Before(rows[|rows| - 1].stamp, e.stamp) then rows + [e]
    else Insert(rows[..|rows| - 1], e) + [rows[|rows| - 1]]
  }

  /** The account's entries ordered by (createdAt, id), as updateRunningBalance reads them. */
  function AccountRows(es: seq<Entry>, account: nat): (rows: seq<Entry>) {
    if es == [] then []
    else
      var rest := AccountRows(es[..|es| - 1], account);
      if es[|es| - 1].account == account then Insert(rest, es[|es| - 1]) else rest
  }

  ghost predicate StampOrdered(rows: seq<Entry>) {
    forall i, j :: 0 <= i < j < |rows| ==> Before(rows[i].stamp, rows[j].stamp)
  }

  ghost predicate DistinctStamps(es: seq<Entry>) {
    forall i, j :: 0 <= i < j < |es| ==> es[i].stamp.id != es[j].stamp.id
  }

  lemma SameIdSameRow(es: seq<Entry>, e: Entry, i: nat)
    requires DistinctStamps(es) && e in es && i < |es| && e.stamp.id == es[i].stamp.id
    ensures e == es[i]
  {
    var k :| 0 <= k < |es| && es[k] == e;
  }

  lemma SameRowsDistinct(a: seq<Entry>, b: seq<Entry>)
    requires SameRows(a, b) && DistinctStamps(a)
    ensures DistinctStamps(b)
  {
    assert forall i :: 0 <= i < |b| ==> b[i].stamp == a[i].stamp;
  }

  function PartialSum(rows: seq<Entry>, n: nat): int
    requires n <= |rows|
  {
    if n == 0 then 0 else PartialSum(rows, n - 1) + rows[n - 1].amount
  }

  lemma {:induction false} InsertMembers(rows: seq<Entry>, e: Entry)
    ensures forall x :: x in Insert(rows, e) <==> x in rows || x == e
  {
    if rows != [] && !Before(rows[|rows| - 1].stamp, e.stamp) {
      var front := rows[..|rows| - 1];
      InsertMembers(front, e);
      assert rows == front + [rows[|rows| - 1]];
    }
  }

  lemma {:induction false} InsertKeepsOrder(rows: seq<Entry>, e: Entry)
    requires StampOrdered(rows)
    requires forall r :: r in rows ==> r.stamp.id != e.stamp.id
    ensures StampOrdered(Insert(rows, e))
  {
    if rows != [] && !Before(rows[|rows| - 1].stamp, e.stamp) {
      var front, last := rows[..|rows| - 1], rows[|rows| - 1];
      InsertKeepsOrder(front, e);
      InsertMembers(front, e);
      var r := Insert(front, e);
      forall i | 0 <= i < |r|
        ensures Before(r[i].stamp, last.stamp)
      {
        assert r[i] in r;
      }
    }
  }

  lemma {:induction false} InsertKeepsPrefix(rows: seq<Entry>, e: Entry, account: nat, stamp: Stamp)
    ensures Prefix(Insert(rows, e), account, stamp) == Prefix(rows, account, stamp) + Prefix([e], account, stamp)
  {
    if rows == [] || Before(rows[|rows| - 1].stamp, e.stamp) {
      PrefixConcat(rows, [e], account, stamp);
    } else {
      var front, last := rows[..|rows| - 1], rows[|rows| - 1];
      InsertKeepsPrefix(front, e, account, stamp);
      PrefixConcat(Insert(front, e), [last], account, stamp);
      PrefixConcat(front, [last], account, stamp);
      assert rows == front + [last];
    }
  }

  lemma {:induction false} AccountRowsSorted(es: seq<Entry>, account: nat)
    requires DistinctStamps(es)
    ensures StampOrdered(AccountRows(es, account))
    ensures forall e :: e in AccountRows(es, account) <==> e in es && e.account == account
    ensures forall stamp :: Prefix(AccountRows(es, account), account, stamp) == Prefix(es, account, stamp)
  {
    if es != [] {
      var front, last := es[..|es| - 1], es[|es| - 1];
      AccountRowsSorted(front, account);
      assert es == front + [last];
      var rest := AccountRows(front, account);
      if last.account == account {
        InsertMembers(rest, last);
        InsertKeepsOrder(rest, last);
        forall stamp
          ensures Prefix(Insert(rest, last), account, stamp) == Prefix(es, account, stamp)
        {
          InsertKeepsPrefix(rest, last, account, stamp);
          PrefixConcat(front, [last], account, stamp);
        }
      }
    }
  }

  /** Along the ordered rows, the accumulated sum is the prefix total at each row's stamp. */
  lemma {:induction false} PartialSumIsPrefix(rows: seq<Entry>, account: nat, k: nat)
    requires StampOrdered(rows) && k < |rows|
    requires forall e :: e in rows ==> e.account == account
    ensures PartialSum(rows, k + 1) == Prefix(rows, account, rows[k].stamp)
  {
    var front := rows[..|rows| - 1];
    if k == |rows| - 1 {
      WholePrefix(front, account, rows[k].stamp);
      PartialSumFront(rows, k);
    } else {
      PartialSumIsPrefix(front, account, k);
      PartialSumFront(rows, k + 1);
    }
  }

  lemma {:induction false} PartialSumFront(rows: seq<Entry>, n: nat)
    requires n < |rows|
    ensures PartialSum(rows, n) == PartialSum(rows[..|rows| - 1], n)
  {
    if n > 0 {
      PartialSumFront(rows, n - 1);
    }
  }

  lemma {:induction false} WholePrefix(rows: seq<Entry>, account: nat, stamp: Stamp)
    requires forall e :: e in rows ==> e.account == account && UpTo(e.stamp, stamp)
    ensures Prefix(rows, account, stamp) == PartialSum(rows, |rows|)
  {
    if rows != [] {
      WholePrefix(rows[..|rows| - 1], account, stamp);
      PartialSumFront(rows, |rows| - 1);
    }
  }

  // ---------- posting ----------

  function KeyUsed(journals: seq<Journal>, key: string): (used: bool) {
    exists i :: 0 <= i < |journals| && journals[i].key == Some(key)
  }

  function LinkUsed(journals: seq<Journal>, link: Link): (used: bool) {
    exists i :: 0 <= i < |journals| && journals[i].link == Some(link)
  }

  /** The idempotency lookup: skipped for a missing or empty key. */
  predicate Replays(b: Books, key: Option<string>) {
    key.Some? && key.value != "" && KeyUsed(b.journals, key.value)
  }

  /** What the database refuses when the journal row is inserted. */
  predicate Conflicts(b: Books, head: Journal) {
    (head.key.Some? && KeyUsed(b.journals, head.key.value)) || (head.link.Some? && LinkUsed(b.journals, head.link.value))
  }

  function IndexOfKey(journals: seq<Journal>, key: string): (i: nat)
    requires KeyUsed(journals, key)
    ensures i < |journals| && journals[i].key == Some(key)
  {
    if journals[|journals| - 1].key == Some(key) then |journals| - 1 else IndexOfKey(journals[..|journals| - 1], key)
  }

  function NewEntries(journal: nat, lines: seq<Line>, stamps: seq<Stamp>): (es: seq<Entry>)
    requires |lines| == |stamps|
    ensures |es| == |lines|
  {
    seq(|lines|, i requires 0 <= i < |lines| => Entry(journal, lines[i].account, lines[i].amount, stamps[i], None))
  }

  /** The inserted rows with every running balance from the n-th row on filled in. */
  function WithRunning(es: seq<Entry>, n: nat): (r: seq<Entry>)
    requires n <= |es|
    ensures |r| == |es|
  {
    seq(|es|, i requires 0 <= i < |es| =>
      if i < n then es[i] else es[i].(running := Some(Prefix(es, es[i].account, es[i].stamp))))
  }

  predicate LinesResolve(b: Books, lines: seq<Line>) {
    forall i :: 0 <= i < |lines| ==> lines[i].account < |b.accounts|
  }

  /** createJournal as one atomic step on the tables; the stamps are the database's choice. */
  function Post(b: Books, req: Request, stamps: seq<Stamp>): (r: (Books, PostResult))
    requires |stamps| == |req.lines|
  {
    if LinesTotal(req.lines) != 0 then (b, Unbalanced(LinesTotal(req.lines)))
    else if Replays(b, req.head.key) then (b, Replayed(IndexOfKey(b.journals, req.head.key.value)))
    else if Conflicts(b, req.head) then (b, UniqueViolation)
    else if !LinesResolve(b, req.lines) then (b, ForeignKeyViolation)
    else
      var inserted := b.entries + NewEntries(|b.journals|, req.lines, stamps);
      (b.(journals := b.journals + [req.head], entries := WithRunning(inserted, |b.entries|)), Created(|b.journals|))
  }

  ghost predicate FreshStamps(b: Books, stamps: seq<Stamp>) {
    && (forall i, j :: 0 <= i < j < |stamps| ==> stamps[i].id != stamps[j].id)
    && (forall i, k :: 0 <= i < |stamps| && 0 <= k < |b.entries| ==> stamps[i].id != b.entries[k].stamp.id)
  }

  /** Every state of the tables that posting can reach. */
  ghost predicate Sound(b: Books) {
    && (forall i, j :: 0 <= i < j < |b.accounts| ==> b.accounts[i] != b.accounts[j])
    && (forall i :: 0 <= i < |b.entries| ==> b.entries[i].account < |b.accounts| && b.entries[i].journal < |b.journals|)
    && DistinctStamps(b.entries)
    && (forall i, j :: 0 <= i < j < |b.journals| && b.journals[i].key.Some? ==> b.journals[i].key != b.journals[j].key)
    && (forall i, j :: 0 <= i < j < |b.journals| && b.journals[i].link.Some? ==> b.journals[i].link != b.journals[j].link)
    && (forall j :: 0 <= j < |b.journals| ==> JournalSum(b.entries, j) == 0)
  }

  lemma {:induction false} NewEntriesSums(journal: nat, lines: seq<Line>, stamps: seq<Stamp>)
    requires |lines| == |stamps|
    ensures JournalSum(NewEntries(journal, lines, stamps), journal) == LinesTotal(lines)
    ensures forall j :: j != journal ==> JournalSum(NewEntries(journal, lines, stamps), j) == 0
    ensures forall account :: Balance(NewEntries(journal, lines, stamps), account) == LinesOn(lines, account)
  {
    if lines != [] {
      var n := |lines| - 1;
      NewEntriesSums(journal, lines[..n], stamps[..n]);
      assert NewEntries(journal, lines, stamps)[..n] == NewEntries(journal, lines[..n], stamps[..n]);
    }
  }

  lemma {:induction false} NoEntriesOfLaterJournal(es: seq<Entry>, journal: nat)
    requires forall i :: 0 <= i < |es| ==> es[i].journal != journal
    ensures JournalSum(es, journal) == 0
  {
    if es != [] {
      NoEntriesOfLaterJournal(es[..|es| - 1], journal);
    }
  }

  /** The balances after an accepted journal: each account moves by exactly its own lines. */
  lemma PostMovesBalances(b: Books, req: Request, stamps: seq<Stamp>)
    requires |stamps| == |req.lines| && Post(b, req, stamps).1.Created?
    ensures forall account :: Balance(Post(b, req, stamps).0.entries, account) == Balance(b.entries, account) + LinesOn(req.lines, account)
    ensures forall journal ::
      (JournalSum(Post(b, req, stamps).0.entries, journal)
       == JournalSum(b.entries, journal) + (if journal == |b.journals| then LinesTotal(req.lines) else 0))
  {
    var added := NewEntries(|b.journals|, req.lines, stamps);
    var inserted := b.entries + added;
    SumsIgnoreRunning(inserted, WithRunning(inserted, |b.entries|));
    NewEntriesSums(|b.journals|, req.lines, stamps);
    forall account {
      BalanceConcat(b.entries, added, account);
    }
    forall journal {
      JournalSumConcat(b.entries, added, journal);
    }
  }

  /** Posting keeps every table constraint and every journal balanced. */
  lemma PostKeepsSound(b: Books, req: Request, stamps: seq<Stamp>)
    requires Sound(b) && |stamps| == |req.lines| && FreshStamps(b, stamps)
    ensures Sound(Post(b, req, stamps).0)
  {
    var (after, result) := Post(b, req, stamps);
    if result.Created? {
      PostMovesBalances(b, req, stamps);
      NoEntriesOfLaterJournal(b.entries, |b.journals|);
      var n := |b.entries|;
      assert forall i :: 0 <= i < n ==> after.entries[i] == b.entries[i];
      assert forall i :: n <= i < |after.entries| ==>
        after.entries[i].stamp == stamps[i - n] && after.entries[i].account == req.lines[i - n].account && after.entries[i].journal == |b.journals|;
    }
  }

  // ---------- running balances ----------

  /** Every stored running balance is the account's total up to that entry. */
  ghost predicate RunningCorrect(es: seq<Entry>) {
    forall i :: 0 <= i < |es| ==> es[i].running == Some(Prefix(es, es[i].account, es[i].stamp))
  }

  /** The new entries stamped no later than an older entry of the same account cancel out. */
  ghost predicate LateStampsCancel(old_: seq<Entry>, added: seq<Entry>) {
    forall i :: 0 <= i < |old_| ==> Prefix(added, old_[i].account, old_[i].stamp) == 0
  }

  /** Exactly when one accepted journal leaves every running balance correct. */
  lemma RunningBalancesExact(b: Books, req: Request, stamps: seq<Stamp>)
    requires |stamps| == |req.lines| && RunningCorrect(b.entries) && Post(b, req, stamps).1.Created?
    ensures RunningCorrect(Post(b, req, stamps).0.entries)
      <==> LateStampsCancel(b.entries, NewEntries(|b.journals|, req.lines, stamps))
  {
    var added := NewEntries(|b.journals|, req.lines, stamps);
    var inserted := b.entries + added;
    var after := WithRunning(inserted, |b.entries|);
    SumsIgnoreRunning(inserted, after);
    forall i | 0 <= i < |b.entries|
      ensures after[i].running == Some(Prefix(after, after[i].account, after[i].stamp))
        <==> Prefix(added, b.entries[i].account, b.entries[i].stamp) == 0
    {
      PrefixConcat(b.entries, added, b.entries[i].account, b.entries[i].stamp);
      assert after[i] == b.entries[i];
    }
    if RunningCorrect(after) {
      forall i | 0 <= i < |b.entries|
        ensures Prefix(added, b.entries[i].account, b.entries[i].stamp) == 0
      {
        assert after[i].running == Some(Prefix(after, after[i].account, after[i].stamp));
      }
    }
  }

  /** The new stamps come after every older stamp of the same account. */
  ghost predicate StampsFollow(b: Books, lines: seq<Line>, stamps: seq<Stamp>)
    requires |lines| == |stamps|
  {
    forall i, k :: 0 <= i < |lines| && 0 <= k < |b.entries| && b.entries[k].account == lines[i].account
      ==> Before(b.entries[k].stamp, stamps[i])
  }

  lemma {:induction false} NothingUpTo(es: seq<Entry>, account: nat, stamp: Stamp)
    requires forall i :: 0 <= i < |es| && es[i].account == account ==> Before(stamp, es[i].stamp)
    ensures Prefix(es, account, stamp) == 0
  {
    if es != [] {
      NothingUpTo(es[..|es| - 1], account, stamp);
    }
  }

  datatype Posting = Posting(req: Request, stamps: seq<Stamp>)

  function PostAll(b: Books, posts: seq<Posting>): (after: Books)
    requires forall p :: p in posts ==> |p.stamps| == |p.req.lines|
  {
    if posts == [] then b
    else
      var last := posts[|posts| - 1];
      Post(PostAll(b, posts[..|posts| - 1]), last.req, last.stamps).0
  }

  /** Each posting's stamps are fresh and follow its accounts' older entries at the time it is made. */
  ghost predicate ClockMonotone(b: Books, posts: seq<Posting>)
    requires forall p :: p in posts ==> |p.stamps| == |p.req.lines|
  {
    posts == []
    || (var before, last := PostAll(b, posts[..|posts| - 1]), posts[|posts| - 1];
        && ClockMonotone(b, posts[..|posts| - 1])
        && FreshStamps(before, last.stamps) && StampsFollow(before, last.req.lines, last.stamps))
  }

  /**
   After any run of createJournal calls made under a monotone clock, the tables are sound and,
   for every account, the k-th row in stamp order stores the sum of the first k amounts and the
   last row stores the balance the account aggregates to.
   */
  lemma {:induction false} RunningBalancesOverRuns(b: Books, posts: seq<Posting>, account: nat)
    requires forall p :: p in posts ==> |p.stamps| == |p.req.lines|
    requires Sound(b) && RunningCorrect(b.entries) && ClockMonotone(b, posts)
    ensures var after := PostAll(b, posts);
      var rows := AccountRows(after.entries, account);
      && Sound(after) && RunningCorrect(after.entries)
      && (forall k :: 0 <= k < |rows| ==> rows[k].running == Some(PartialSum(rows, k + 1)))
      && (rows != [] ==> rows[|rows| - 1].running == Some(Balance(after.entries, account)))
  {
    if posts != [] {
      var front, last := posts[..|posts| - 1], posts[|posts| - 1];
      RunningBalancesOverRuns(b, front, account);
      OnePostingKeepsRunning(PostAll(b, front), last.req, last.stamps);
    }
    RowsShowPrefixSums(PostAll(b, posts), account);
  }

  lemma OnePostingKeepsRunning(b: Books, req: Request, stamps: seq<Stamp>)
    requires |stamps| == |req.lines| && Sound(b) && RunningCorrect(b.entries)
    requires FreshStamps(b, stamps) && StampsFollow(b, req.lines, stamps)
    ensures Sound(Post(b, req, stamps).0) && RunningCorrect(Post(b, req, stamps).0.entries)
  {
    PostKeepsSound(b, req, stamps);
    if Post(b, req, stamps).1.Created? {
      var added := NewEntries(|b.journals|, req.lines, stamps);
      forall i | 0 <= i < |b.entries|
        ensures Prefix(added, b.entries[i].account, b.entries[i].stamp) == 0
      {
        NothingUpTo(added, b.entries[i].account, b.entries[i].stamp);
      }
      RunningBalancesExact(b, req, stamps);
    }
  }

  lemma RowsShowPrefixSums(b: Books, account: nat)
    requires Sound(b) && RunningCorrect(b.entries)
    ensures var rows := AccountRows(b.entries, account);
      && (forall k :: 0 <= k < |rows| ==> rows[k].running == Some(PartialSum(rows, k + 1)))
      && (rows != [] ==> rows[|rows| - 1].running == Some(Balance(b.entries, account)))
  {
    var rows := AccountRows(b.entries, account);
    AccountRowsSorted(b.entries, account);
    forall k | 0 <= k < |rows|
      ensures rows[k].running == Some(PartialSum(rows, k + 1))
    {
      PartialSumIsPrefix(rows, account, k);
      assert rows[k] in rows;
    }
    if rows != [] {
      var top := rows[|rows| - 1].stamp;
      forall e | e in b.entries && e.account == account
        ensures UpTo(e.stamp, top)
      {
        assert e in rows;
      }
      PrefixOfAll(b.entries, account, top);
      PartialSumIsPrefix(rows, account, |rows| - 1);
    }
  }

  lemma {:induction false} PrefixOfAll(es: seq<Entry>, account: nat, stamp: Stamp)
    requires forall e :: e in es && e.account == account ==> UpTo(e.stamp, stamp)
    ensures Prefix(es, account, stamp) == Balance(es, account)
  {
    if es != [] {
      PrefixOfAll(es[..|es| - 1], account, stamp);
    }
  }

  /** A late stamp with a nonzero amount does leave a stale running balance behind. */
  lemma LateStampBreaksRunning()
    ensures exists b: Books, req: Request, stamps: seq<Stamp> ::
      && |stamps| == |req.lines| && Sound(b) && RunningCorrect(b.entries) && FreshStamps(b, stamps)
      && Post(b, req, stamps).1.Created? && !RunningCorrect(Post(b, req, stamps).0.entries)
  {
    var accounts := [Account(WalletOwner(0), ASSET, IDR), Account(PlatformOwner("ESCROW_HOLDING"), LIABILITY, IDR)];
    var head := Journal(DEPOSIT, 5, None, None, None);
    var old_ := Entry(0, 0, 0, Stamp(10, 1), Some(0));
    var b := Books(accounts, [head], [old_]);
    var req, stamps := Request(head, [Line(0, 5), Line(1, -5)]), [Stamp(9, 2), Stamp(9, 3)];
    assert [old_][..0] == [];
    assert Sound(b) && RunningCorrect(b.entries) && FreshStamps(b, stamps);
    var added := NewEntries(1, req.lines, stamps);
    assert added == [Entry(1, 0, 5, Stamp(9, 2), None)] + [Entry(1, 1, -5, Stamp(9, 3), None)];
    PrefixConcat([Entry(1, 0, 5, Stamp(9, 2), None)], [Entry(1, 1, -5, Stamp(9, 3), None)], 0, Stamp(10, 1));
    assert Prefix(added, 0, Stamp(10, 1)) == 5;
    LinesConcat([Line(0, 5)], [Line(1, -5)]);
    LinesOfOne(Line(0, 5));
    LinesOfOne(Line(1, -5));
    assert req.lines == [Line(0, 5)] + [Line(1, -5)];
    assert Post(b, req, stamps).1.Created?;
    assert !LateStampsCancel([old_], added) by {
      assert Prefix(added, [old_][0].account, [old_][0].stamp) == 5;
    }
    RunningBalancesExact(b, req, stamps);
  }

  // ---------- replays ----------

  lemma PostKeepsKeys(b: Books, req: Request, stamps: seq<Stamp>, key: string)
    requires |stamps| == |req.lines| && KeyUsed(b.journals, key)
    ensures KeyUsed(Post(b, req, stamps).0.journals, key)
  {
    var i :| 0 <= i < |b.journals| && b.journals[i].key == Some(key);
    assert Post(b, req, stamps).0.journals[i].key == Some(key);
  }

  lemma {:induction false} PostAllKeepsKeys(b: Books, posts: seq<Posting>, key: string)
    requires forall p :: p in posts ==> |p.stamps| == |p.req.lines|
    requires KeyUsed(b.journals, key)
    ensures KeyUsed(PostAll(b, posts).journals, key)
  {
    if posts != [] {
      var front, last := posts[..|posts| - 1], posts[|posts| - 1];
      PostAllKeepsKeys(b, front, key);
      PostKeepsKeys(PostAll(b, front), last.req, last.stamps, key);
    }
  }

  lemma {:induction false} PostAllConcat(b: Books, xs: seq<Posting>, ys: seq<Posting>)
    requires forall p :: p in xs + ys ==> |p.stamps| == |p.req.lines|
    requires forall p :: p in xs || p in ys ==> |p.stamps| == |p.req.lines|
    ensures PostAll(b, xs + ys) == PostAll(PostAll(b, xs), ys)
  {
    if ys == [] {
      assert xs + ys == xs;
    } else {
      var front := ys[..|ys| - 1];
      assert (xs + ys)[..|xs + ys| - 1] == xs + front;
      PostAllConcat(b, xs, front);
    }
  }

  /**
   A retry of an accepted keyed request, whatever else was posted in between and whatever the
   retry itself carries, changes nothing: neither the books nor anything posted after it.
   */
  lemma RetryIsInvisible(b: Books, before: seq<Posting>, first: Posting, between: seq<Posting>, retry: Posting, rest: seq<Posting>)
    requires forall p :: p in before + [first] + between + [retry] + rest ==> |p.stamps| == |p.req.lines|
    requires forall p :: p in before + [first] + between + rest ==> |p.stamps| == |p.req.lines|
    requires forall p :: p in before || p == first || p in between || p == retry || p in rest ==> |p.stamps| == |p.req.lines|
    requires Post(PostAll(b, before), first.req, first.stamps).1.Created?
    requires first.req.head.key.Some? && retry.req.head.key == first.req.head.key
    ensures PostAll(b, before + [first] + between + [retry] + rest) == PostAll(b, before + [first] + between + rest)
  {
    var key := first.req.head.key.value;
    var upTo := before + [first] + between;
    var mid := PostAll(b, before);
    assert (before + [first])[..|before|] == before;
    var posted := PostAll(b, before + [first]);
    assert posted == Post(mid, first.req, first.stamps).0;
    assert posted.journals[|mid.journals|].key == Some(key);
    PostAllKeepsKeys(posted, between, key);
    PostAllConcat(b, before + [first], between);
    assert (upTo + [retry])[..|upTo|] == upTo;
    assert PostAll(b, upTo + [retry]) == PostAll(b, upTo);
    PostAllConcat(b, upTo + [retry], rest);
    PostAllConcat(b, upTo, rest);
  }

  /** The postings that created a journal, in order. */
  function Accepted(b: Books, posts: seq<Posting>): (kept: seq<Posting>)
    requires forall p :: p in posts ==> |p.stamps| == |p.req.lines|
    ensures forall p :: p in kept ==> p in posts
  {
    if posts == [] then []
    else
      var front, last := posts[..|posts| - 1], posts[|posts| - 1];
      Accepted(b, front) + if Post(PostAll(b, front), last.req, last.stamps).1.Created? then [last] else []
  }

  lemma {:induction false} AcceptedKeysStayUsed(b: Books, posts: seq<Posting>)
    requires forall p :: p in posts ==> |p.stamps| == |p.req.lines|
    ensures forall p :: p in Accepted(b, posts) && p.req.head.key.Some? ==> KeyUsed(PostAll(b, posts).journals, p.req.head.key.value)
  {
    if posts != [] {
      var front, last := posts[..|posts| - 1], posts[|posts| - 1];
      AcceptedKeysStayUsed(b, front);
      var here := PostAll(b, front);
      forall p | p in Accepted(b, posts) && p.req.head.key.Some?
        ensures KeyUsed(PostAll(b, posts).journals, p.req.head.key.value)
      {
        if p in Accepted(b, front) {
          PostKeepsKeys(here, last.req, last.stamps, p.req.head.key.value);
        } else {
          assert PostAll(b, posts).journals[|here.journals|] == p.req.head;
        }
      }
    }
  }

  lemma {:induction false} AcceptedKeysDiffer(b: Books, posts: seq<Posting>, i: nat, j: nat)
    requires forall p :: p in posts ==> |p.stamps| == |p.req.lines|
    requires i < j < |Accepted(b, posts)| && Accepted(b, posts)[i].req.head.key.Some?
    ensures Accepted(b, posts)[i].req.head.key != Accepted(b, posts)[j].req.head.key
  {
    var front := posts[..|posts| - 1];
    var kept := Accepted(b, front);
    if j < |kept| {
      AcceptedKeysDiffer(b, front, i, j);
    } else {
      AcceptedKeysStayUsed(b, front);
      assert kept[i] in kept;
    }
  }

  /** Replaying only the accepted requests rebuilds the same books. */
  lemma {:induction false} AcceptedRebuildsBooks(b: Books, posts: seq<Posting>)
    requires forall p :: p in posts ==> |p.stamps| == |p.req.lines|
    ensures PostAll(b, Accepted(b, posts)) == PostAll(b, posts)
  {
    hide Post;
    if posts != [] {
      var front, last := posts[..|posts| - 1], posts[|posts| - 1];
      AcceptedRebuildsBooks(b, front);
      var kept := Accepted(b, front);
      if Post(PostAll(b, front), last.req, last.stamps).1.Created? {
        assert Accepted(b, posts) == kept + [last];
        assert (kept + [last])[..|kept|] == kept;
        assert PostAll(b, kept + [last]) == Post(PostAll(b, kept), last.req, last.stamps).0;
      } else {
        RefusedPostChangesNothing(PostAll(b, front), last.req, last.stamps);
        assert Accepted(b, posts) == kept;
      }
    }
  }

  lemma RefusedPostChangesNothing(b: Books, req: Request, stamps: seq<Stamp>)
    requires |stamps| == |req.lines|
    ensures !Post(b, req, stamps).1.Created? ==> Post(b, req, stamps).0 == b
  {
  }

  // ---------- zero sums ----------

  function SumOfBalances(es: seq<Entry>, accounts: nat): int {
    if accounts == 0 then 0 else SumOfBalances(es, accounts - 1) + Balance(es, accounts - 1)
  }

  function SumOfJournals(es: seq<Entry>, journals: nat): int {
    if journals == 0 then 0 else SumOfJournals(es, journals - 1) + JournalSum(es, journals - 1)
  }

  /** The total verifyPlatformBalance reports for the first n accounts. */
  function PlatformTotal(b: Books, n: nat): int
    requires n <= |b.accounts|
  {
    if n == 0 then 0
    else PlatformTotal(b, n - 1) + if b.accounts[n - 1].owner.PlatformOwner? then Balance(b.entries, n - 1) else 0
  }

  function UserTotal(b: Books, n: nat): int
    requires n <= |b.accounts|
  {
    if n == 0 then 0
    else UserTotal(b, n - 1) + if b.accounts[n - 1].owner.WalletOwner? then Balance(b.entries, n - 1) else 0
  }

  lemma {:induction n} OneEntrySum(es: seq<Entry>, n: nat)
    requires es != []
    ensures SumOfBalances(es, n) == SumOfBalances(es[..|es| - 1], n) + if es[|es| - 1].account < n then es[|es| - 1].amount else 0
    ensures SumOfJournals(es, n) == SumOfJournals(es[..|es| - 1], n) + if es[|es| - 1].journal < n then es[|es| - 1].amount else 0
  {
  }

  lemma {:induction false} SumByJournalIsSumByAccount(es: seq<Entry>, accounts: nat, journals: nat)
    requires forall i :: 0 <= i < |es| ==> es[i].account < accounts && es[i].journal < journals
    ensures SumOfBalances(es, accounts) == SumOfJournals(es, journals)
  {
    if es == [] {
      EmptySums(accounts);
      EmptySums(journals);
    } else {
      SumByJournalIsSumByAccount(es[..|es| - 1], accounts, journals);
      OneEntrySum(es, accounts);
      OneEntrySum(es, journals);
    }
  }

  lemma {:induction n} EmptySums(n: nat)
    ensures SumOfBalances([], n) == 0 && SumOfJournals([], n) == 0
  {
  }

  lemma {:induction n} ZeroJournals(es: seq<Entry>, n: nat)
    requires forall j :: 0 <= j < n ==> JournalSum(es, j) == 0
    ensures SumOfJournals(es, n) == 0
  {
  }

  lemma {:induction n} TotalsSplit(b: Books, n: nat)
    requires n <= |b.accounts|
    ensures PlatformTotal(b, n) + UserTotal(b, n) == SumOfBalances(b.entries, n)
  {
  }

  /**
   In every sound ledger the platform total is the exact negation of what the users hold, so the
   platform accounts net to zero only when the users' balances do.
   */
  lemma PlatformMirrorsUsers(b: Books)
    requires Sound(b)
    ensures PlatformTotal(b, |b.accounts|) == -UserTotal(b, |b.accounts|)
  {
    TotalsSplit(b, |b.accounts|);
    SumByJournalIsSumByAccount(b.entries, |b.accounts|, |b.journals|);
    ZeroJournals(b.entries, |b.journals|);
  }

  // ---------- the journals of the escrow life cycle ----------

  function HoldLines(buyer: nat, holding: nat, amount: int): seq<Line> {
    [Line(buyer, -amount), Line(holding, amount)]
  }

  function ReleaseLines(holding: nat, seller: nat, fees: nat, amount: int, fee: int): seq<Line> {
    [Line(holding, -amount), Line(seller, amount - fee), Line(fees, fee)]
  }

  function RefundLines(holding: nat, buyer: nat, amount: int): seq<Line> {
    [Line(holding, -amount), Line(buyer, amount)]
  }

  /** Only the positive parts of a split are entered. */
  function SplitLines(holding: nat, buyer: nat, seller: nat, fees: nat, refund: int, payout: int, fee: int): (lines: seq<Line>) {
    [Line(holding, -(refund + payout + fee))]
    + (if refund > 0 then [Line(buyer, refund)] else [])
    + (if payout > 0 then [Line(seller, payout)] else [])
    + (if fee > 0 then [Line(fees, fee)] else [])
  }

  lemma {:induction false} LinesConcat(a: seq<Line>, b: seq<Line>)
    ensures LinesTotal(a + b) == LinesTotal(a) + LinesTotal(b)
    ensures forall account :: LinesOn(a + b, account) == LinesOn(a, account) + LinesOn(b, account)
  {
    if b == [] {
      assert a + b == a;
    } else {
      assert (a + b)[..|a + b| - 1] == a + b[..|b| - 1];
      LinesConcat(a, b[..|b| - 1]);
    }
  }

  lemma LinesOfOne(line: Line)
    ensures LinesTotal([line]) == line.amount
    ensures forall account :: LinesOn([line], account) == if line.account == account then line.amount else 0
  {
    assert [line][..0] == [];
  }

  lemma EmptyLines()
    ensures LinesTotal([]) == 0 && forall account :: LinesOn([], account) == 0
  {
  }

  /** What one line, or no line, adds. */
  function Part(account: nat, amount: int, on: nat): int {
    if account == on then amount else 0
  }

  lemma HoldEffect(buyer: nat, holding: nat, amount: int)
    ensures LinesTotal(HoldLines(buyer, holding, amount)) == 0
    ensures forall a :: LinesOn(HoldLines(buyer, holding, amount), a) == Part(buyer, -amount, a) + Part(holding, amount, a)
  {
    LinesOfOne(Line(buyer, -amount));
    LinesOfOne(Line(holding, amount));
    LinesConcat([Line(buyer, -amount)], [Line(holding, amount)]);
    assert HoldLines(buyer, holding, amount) == [Line(buyer, -amount)] + [Line(holding, amount)];
  }

  lemma RefundEffect(holding: nat, buyer: nat, amount: int)
    ensures LinesTotal(RefundLines(holding, buyer, amount)) == 0
    ensures forall a :: LinesOn(RefundLines(holding, buyer, amount), a) == Part(holding, -amount, a) + Part(buyer, amount, a)
  {
    LinesOfOne(Line(holding, -amount));
    LinesOfOne(Line(buyer, amount));
    LinesConcat([Line(holding, -amount)], [Line(buyer, amount)]);
    assert RefundLines(holding, buyer, amount) == [Line(holding, -amount)] + [Line(buyer, amount)];
  }

  lemma ReleaseEffect(holding: nat, seller: nat, fees: nat, amount: int, fee: int)
    ensures LinesTotal(ReleaseLines(holding, seller, fees, amount, fee)) == 0
    ensures forall a :: (LinesOn(ReleaseLines(holding, seller, fees, amount, fee), a)
                         == Part(holding, -amount, a) + Part(seller, amount - fee, a) + Part(fees, fee, a))
  {
    LinesOfOne(Line(holding, -amount));
    LinesOfOne(Line(seller, amount - fee));
    LinesOfOne(Line(fees, fee));
    LinesConcat([Line(holding, -amount)], [Line(seller, amount - fee)]);
    LinesConcat([Line(holding, -amount)] + [Line(seller, amount - fee)], [Line(fees, fee)]);
    assert ReleaseLines(holding, seller, fees, amount, fee)
      == [Line(holding, -amount)] + [Line(seller, amount - fee)] + [Line(fees, fee)];
  }

  function PositivePart(amount: int): int {
    if amount > 0 then amount else 0
  }

  /** A split balances exactly when none of its three parts is negative. */
  lemma SplitEffect(holding: nat, buyer: nat, seller: nat, fees: nat, refund: int, payout: int, fee: int)
    ensures LinesTotal(SplitLines(holding, buyer, seller, fees, refund, payout, fee)) == 0
      <==> refund >= 0 && payout >= 0 && fee >= 0
    ensures forall a :: (LinesOn(SplitLines(holding, buyer, seller, fees, refund, payout, fee), a)
                         == Part(holding, -(refund + payout + fee), a) + Part(buyer, PositivePart(refund), a)
                            + Part(seller, PositivePart(payout), a) + Part(fees, PositivePart(fee), a))
  {
    hide LinesTotal, LinesOn;
    EmptyLines();
    var p0 := [Line(holding, -(refund + payout + fee))];
    var p1 := if refund > 0 then [Line(buyer, refund)] else [];
    var p2 := if payout > 0 then [Line(seller, payout)] else [];
    var p3 := if fee > 0 then [Line(fees, fee)] else [];
    LinesOfOne(p0[0]);
    LinesOfOne(Line(buyer, refund));
    LinesOfOne(Line(seller, payout));
    LinesOfOne(Line(fees, fee));
    LinesConcat(p0, p1);
    LinesConcat(p0 + p1, p2);
    LinesConcat(p0 + p1 + p2, p3);
  }

  // ---------- accounts ----------

  /** The first account row for a key, or the table's length when there is none. */
  function IndexOf(accounts: seq<Account>, key: Account): (i: nat)
    ensures i <= |accounts|
    ensures i < |accounts| ==> accounts[i] == key
    ensures forall k :: 0 <= k < i ==> accounts[k] != key
  {
    if accounts == [] then 0
    else if accounts[0] == key then 0
    else 1 + IndexOf(accounts[1..], key)
  }

  function EnsureAccount(b: Books, key: Account): Books {
    if IndexOf(b.accounts, key) < |b.accounts| then b else b.(accounts := b.accounts + [key])
  }

  /** The balance an account key shows; a key without an account row has none. */
  function KeyBalance(b: Books, key: Account): int {
    if IndexOf(b.accounts, key) < |b.accounts| then Balance(b.entries, IndexOf(b.accounts, key)) else 0
  }

  lemma {:induction false} NoEntriesOnAccount(es: seq<Entry>, account: nat)
    requires forall i :: 0 <= i < |es| ==> es[i].account != account
    ensures Balance(es, account) == 0
  {
    if es != [] {
      NoEntriesOnAccount(es[..|es| - 1], account);
    }
  }

  /** Opening an account keeps the books sound, moves no balance and never yields a second row for a key. */
  lemma EnsureAccountIsNeutral(b: Books, key: Account)
    requires Sound(b)
    ensures var after := EnsureAccount(b, key);
      && Sound(after) && after.journals == b.journals && after.entries == b.entries && |after.accounts| >= |b.accounts|
      && IndexOf(after.accounts, key) < |after.accounts|
      && (forall k :: KeyBalance(after, k) == KeyBalance(b, k))
      && (forall k :: IndexOf(b.accounts, k) < |b.accounts| ==> IndexOf(after.accounts, k) == IndexOf(b.accounts, k))
  {
    var after := EnsureAccount(b, key);
    if IndexOf(b.accounts, key) == |b.accounts| {
      assert after.accounts[|b.accounts|] == key;
    }
    forall k
      ensures IndexOf(b.accounts, k) < |b.accounts| ==> IndexOf(after.accounts, k) == IndexOf(b.accounts, k)
      ensures KeyBalance(after, k) == KeyBalance(b, k)
    {
      var i, j := IndexOf(b.accounts, k), IndexOf(after.accounts, k);
      if i < |b.accounts| {
        assert after.accounts[i] == k;
        assert j <= i;
        assert after.accounts[j] == b.accounts[j];
      } else {
        NoEntriesOnAccount(b.entries, |b.accounts|);
      }
    }
  }

  // ---------- the service ----------

  /** A later platform account of the same key comes after this one, among the first n. */
  predicate Overwritten(accounts: seq<Account>, a: nat, n: nat)
    requires a < n <= |accounts|
  {
    exists c :: a < c < n && accounts[c].owner == accounts[a].owner
  }

  /** The key is one of the first n accounts'. */
  predicate HasKey(accounts: seq<Account>, key: string, n: nat)
    requires n <= |accounts|
  {
    exists a :: 0 <= a < n && accounts[a].owner == PlatformOwner(key)
  }

  /** Exactly the keys of the first n accounts' platform accounts, each with the balance of its last account: equal keys overwrite. */
  ghost predicate ListsPlatform(b: Books, balances: map<string, int>, n: nat)
    requires n <= |b.accounts|
  {
    && (forall key :: key in balances <==> HasKey(b.accounts, key, n))
    && (forall a: nat :: a < n && b.accounts[a].owner.PlatformOwner? && !Overwritten(b.accounts, a, n)
          ==> b.accounts[a].owner.platformKey in balances && balances[b.accounts[a].owner.platformKey] == Balance(b.entries, a))
  }

  lemma NothingListed(b: Books)
    ensures ListsPlatform(b, map[], 0)
  {
  }

  lemma OneMoreKey(accounts: seq<Account>, key: string, n: nat)
    requires n < |accounts|
    ensures HasKey(accounts, key, n + 1) <==> HasKey(accounts, key, n) || accounts[n].owner == PlatformOwner(key)
  {
  }

  lemma OneMoreOwner(accounts: seq<Account>, a: nat, n: nat)
    requires a < n < |accounts|
    ensures Overwritten(accounts, a, n + 1) <==> Overwritten(accounts, a, n) || accounts[n].owner == accounts[a].owner
  {
  }

  lemma OneMoreListed(b: Books, balances: map<string, int>, n: nat)
    requires n < |b.accounts| && b.accounts[n].owner.PlatformOwner? && ListsPlatform(b, balances, n)
    ensures ListsPlatform(b, balances[b.accounts[n].owner.platformKey := Balance(b.entries, n)], n + 1)
  {
    hide Balance, HasKey, Overwritten;
    var longer := balances[b.accounts[n].owner.platformKey := Balance(b.entries, n)];
    forall key
      ensures key in longer <==> HasKey(b.accounts, key, n + 1)
    {
      OneMoreKey(b.accounts, key, n);
    }
    forall a: nat | a < n + 1 && b.accounts[a].owner.PlatformOwner? && !Overwritten(b.accounts, a, n + 1)
      ensures b.accounts[a].owner.platformKey in longer && longer[b.accounts[a].owner.platformKey] == Balance(b.entries, a)
    {
      if a < n {
        OneMoreOwner(b.accounts, a, n);
      }
    }
  }

  lemma UserNotListed(b: Books, balances: map<string, int>, n: nat)
    requires n < |b.accounts| && !b.accounts[n].owner.PlatformOwner? && ListsPlatform(b, balances, n)
    ensures ListsPlatform(b, balances, n + 1)
  {
    hide Balance, HasKey, Overwritten;
    forall key
      ensures HasKey(b.accounts, key, n + 1) <==> HasKey(b.accounts, key, n)
    {
      OneMoreKey(b.accounts, key, n);
    }
    forall a: nat | a < n && b.accounts[a].owner.PlatformOwner?
      ensures Overwritten(b.accounts, a, n + 1) <==> Overwritten(b.accounts, a, n)
    {
      OneMoreOwner(b.accounts, a, n);
    }
  }

  lemma {:induction false} NoRowsNoBalance(es: seq<Entry>, account: nat)
    ensures AccountRows(es, account) == [] ==> Balance(es, account) == 0
  {
    if es != [] {
      NoRowsNoBalance(es[..|es| - 1], account);
    }
  }

  class LedgerService {
    var accounts: seq<Account>
    var journals: seq<Journal>
    var entries: seq<Entry>

    constructor ()
      ensures View() == Books([], [], []) && Sound(View())
    {
      accounts, journals, entries := [], [], [];
    }

    function View(): Books
      reads this
    {
      Books(accounts, journals, entries)
    }

    /** Puts the tables back to a saved state when the enclosing transaction fails. */
    method Rollback(saved: Books)
      modifies this
      ensures View() == saved
    {
      accounts, journals, entries := saved.accounts, saved.journals, saved.entries;
    }

    /** getOrCreateUserAccount and getOrCreatePlatformAccount, which differ only in the kind of key. */
    method GetOrCreateAccount(key: Account) returns (id: nat)
      modifies this`accounts
      ensures View() == EnsureAccount(old(View()), key)
      ensures id == IndexOf(accounts, key) && id < |accounts| && accounts[id] == key
    {
      id := IndexOf(accounts, key);
      if id == |accounts| {
        accounts := accounts + [key];
        assert accounts[id] == key && forall k :: 0 <= k < id ==> accounts[k] != key;
        assert IndexOf(accounts, key) == id;
      }
    }

    /** On sound books with correct running balances, the aggregate is what the account's last row shows. */
    method GetAccountBalance(account: nat) returns (balance: int)
      ensures balance == Balance(entries, account)
      ensures var rows := AccountRows(entries, account);
        Sound(View()) && RunningCorrect(entries) ==> if rows == [] then balance == 0 else rows[|rows| - 1].running == Some(balance)
    {
      hide Sound, Prefix;
      balance := 0;
      for i := 0 to |entries|
        invariant balance == Balance(entries[..i], account)
      {
        assert entries[..i + 1][..i] == entries[..i];
        if entries[i].account == account {
          balance := balance + entries[i].amount;
        }
      }
      assert entries[..|entries|] == entries;
      NoRowsNoBalance(entries, account);
      if Sound(View()) && RunningCorrect(entries) {
        RowsShowPrefixSums(View(), account);
      }
    }

    /** Walks the account's rows in stamp order up to the entry and stores the sum reached there. */
    method UpdateRunningBalance(account: nat, entry: nat)
      requires DistinctStamps(entries) && entry < |entries| && entries[entry].account == account
      modifies this`entries
      ensures entries == old(entries)[entry := old(entries)[entry].(running := Some(Prefix(old(entries), account, old(entries)[entry].stamp)))]
    {
      hide AccountRows, Insert, Prefix, Balance, JournalSum, StampOrdered, DistinctStamps;
      var rows := AccountRows(entries, account);
      AccountRowsSorted(entries, account);
      assert entries[entry] in rows;
      var runningBalance, k := 0, 0;
      while k < |rows|
        invariant 0 <= k <= |rows|
        invariant runningBalance == PartialSum(rows, k)
        invariant entries == old(entries)
        invariant forall j :: 0 <= j < k ==> rows[j] != entries[entry]
      {
        runningBalance := runningBalance + rows[k].amount;
        assert rows[k] in rows;
        if rows[k].stamp.id == entries[entry].stamp.id {
          SameIdSameRow(entries, rows[k], entry);
          PartialSumIsPrefix(rows, account, k);
          entries := entries[entry := entries[entry].(running := Some(runningBalance))];
          return;
        }
        k := k + 1;
      }
      assert false;
    }

    /** The loop over the new rows: each gets its running balance while the later ones are already inserted. */
    method FillRunningBalances(n: nat)
      requires DistinctStamps(entries) && n <= |entries|
      modifies this`entries
      ensures entries == WithRunning(old(entries), n)
    {
      hide Prefix, Balance, JournalSum, DistinctStamps;
      var inserted, k := entries, n;
      while k < |inserted|
        invariant n <= k <= |inserted| == |entries|
        invariant SameRows(inserted, entries)
        invariant forall e :: 0 <= e < n || k <= e < |inserted| ==> entries[e] == inserted[e]
        invariant forall e :: n <= e < k ==> entries[e] == WithRunning(inserted, n)[e]
      {
        SumsIgnoreRunning(inserted, entries);
        SameRowsDistinct(inserted, entries);
        UpdateRunningBalance(entries[k].account, k);
        k := k + 1;
      }
      assert entries == WithRunning(inserted, n);
    }

    /** createJournal. */
    method CreateJournal(req: Request, stamps: seq<Stamp>) returns (result: PostResult)
      requires |stamps| == |req.lines| && Sound(View()) && FreshStamps(View(), stamps)
      modifies this
      ensures View() == Post(old(View()), req, stamps).0 && result == Post(old(View()), req, stamps).1
      ensures Sound(View())
    {
      PostKeepsSound(View(), req, stamps);
      var sum, i := 0, 0;
      while i < |req.lines|
        invariant 0 <= i <= |req.lines|
        invariant sum == LinesTotal(req.lines[..i])
      {
        assert req.lines[..i + 1][..i] == req.lines[..i];
        sum := sum + req.lines[i].amount;
        i := i + 1;
      }
      assert req.lines[..i] == req.lines;
      if sum != 0 {
        return Unbalanced(sum);
      }
      if Replays(View(), req.head.key) {
        return Replayed(IndexOfKey(journals, req.head.key.value));
      }
      if Conflicts(View(), req.head) {
        return UniqueViolation;
      }
      if !LinesResolve(View(), req.lines) {
        return ForeignKeyViolation;
      }
      hide Prefix;
      var journal, n := |journals|, |entries|;
      var inserted := entries + NewEntries(journal, req.lines, stamps);
      journals := journals + [req.head];
      entries := inserted;
      assert DistinctStamps(entries) by {
        assert forall e :: n <= e < |inserted| ==> inserted[e].stamp == stamps[e - n];
      }
      FillRunningBalances(n);
      var postSum := JournalSum(entries, journal);
      PostMovesBalances(old(View()), req, stamps);
      NoEntriesOfLaterJournal(old(entries), journal);
      assert postSum == 0;
      result := Created(journal);
    }

    /** recordDisputeResolution: pushes the positive parts after the holding line. */
    method RecordDisputeResolution(holding: nat, buyer: nat, seller: nat, fees: nat,
                                   refund: int, payout: int, fee: int, head: Journal, stamps: seq<Stamp>)
      returns (result: PostResult)
      requires |stamps| == |SplitLines(holding, buyer, seller, fees, refund, payout, fee)|
      requires Sound(View()) && FreshStamps(View(), stamps)
      modifies this
      ensures var req := Request(head, SplitLines(holding, buyer, seller, fees, refund, payout, fee));
        View() == Post(old(View()), req, stamps).0 && result == Post(old(View()), req, stamps).1
      ensures result.Unbalanced? <==> refund < 0 || payout < 0 || fee < 0
      ensures Sound(View())
    {
      var lines := [Line(holding, -(refund + payout + fee))];
      if refund > 0 {
        lines := lines + [Line(buyer, refund)];
      }
      if payout > 0 {
        lines := lines + [Line(seller, payout)];
      }
      if fee > 0 {
        lines := lines + [Line(fees, fee)];
      }
      SplitEffect(holding, buyer, seller, fees, refund, payout, fee);
      assert lines == SplitLines(holding, buyer, seller, fees, refund, payout, fee);
      result := CreateJournal(Request(head, lines), stamps);
    }

    /** Lists exactly the journals whose entries do not sum to zero. */
    method VerifyAllJournalsBalanced() returns (total: nat, unbalanced: seq<nat>, healthy: bool)
      ensures total == |journals|
      ensures forall j :: j in unbalanced <==> 0 <= j < |journals| && JournalSum(entries, j) != 0
      ensures healthy <==> forall j :: 0 <= j < |journals| ==> JournalSum(entries, j) == 0
      ensures Sound(View()) ==> healthy
    {
      unbalanced := [];
      var j := 0;
      while j < |journals|
        invariant 0 <= j <= |journals|
        invariant forall k :: k in unbalanced <==> 0 <= k < j && JournalSum(entries, k) != 0
      {
        if JournalSum(entries, j) != 0 {
          unbalanced := unbalanced + [j];
        }
        j := j + 1;
      }
      total, healthy := |journals|, |unbalanced| == 0;
      if healthy {
        assert forall k :: 0 <= k < |journals| && JournalSum(entries, k) != 0 ==> k in unbalanced;
      } else {
        assert unbalanced[0] in unbalanced;
      }
    }

    /** Sums the platform accounts and lists them by key; on sound books the sum is minus what the users hold. */
    method VerifyPlatformBalance() returns (totalBalance: int, isBalanced: bool, accountBalances: map<string, int>)
      ensures totalBalance == PlatformTotal(View(), |accounts|)
      ensures Sound(View()) ==> totalBalance == -UserTotal(View(), |accounts|)
      ensures isBalanced <==> totalBalance == 0
      ensures ListsPlatform(View(), accountBalances, |accounts|)
    {
      hide ListsPlatform, Balance, Sound;
      totalBalance, accountBalances := 0, map[];
      NothingListed(View());
      var a := 0;
      while a < |accounts|
        invariant 0 <= a <= |accounts|
        invariant totalBalance == PlatformTotal(View(), a)
        invariant ListsPlatform(View(), accountBalances, a)
      {
        if accounts[a].owner.PlatformOwner? {
          var balance := GetAccountBalance(a);
          OneMoreListed(View(), accountBalances, a);
          accountBalances := accountBalances[accounts[a].owner.platformKey := balance];
          totalBalance := totalBalance + balance;
        } else {
          UserNotListed(View(), accountBalances, a);
        }
        a := a + 1;
      }
      isBalanced := totalBalance == 0;
      if Sound(View()) {
        PlatformMirrorsUsers(View());
      }
    }
  }
}
