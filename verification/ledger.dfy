/**
 * The ledger entities and the values the application derives from them on
 * every render: the all-time account balances and net balance, the
 * transactions of the selected period with their income and expense totals,
 * the type-filtered date-descending list, the drill-down lists, the expense
 * categories shown in the trend chart, and the rows of the exports.
 *
 * Amounts are integers in minor units; a transaction's `YYYY-MM-DD` date is
 * held as the calendar day it names (IsoDate relates the two and shows that
 * comparing the strings orders the days as DateKey does).
 */
module Ledger {
  import opened SeqUtil
  import opened Calendar
  import opened IsoDate
  import opened Period

  // ---------------------------------------------------------------- entities

  /** The `type` of a transaction; the form offers only income and expense, restored data may hold anything. */
  datatype TxnType = Income | Expense | OtherType(name: string)

  /** A transaction; `subCatId` is `null` when absent. */
  datatype Txn = Txn(id: string, date: Date, kind: TxnType, accountId: string, catId: string,
                     subCatId: Option<string>, amount: int, note: string)

  datatype Account = Account(id: string, name: string, icon: string, color: string)

  datatype SubCat = SubCat(id: string, name: string)

  /** An expense category owns its sub-categories. */
  datatype ExpCat = ExpCat(id: string, name: string, icon: string, color: string, sub: seq<SubCat>)

  /** Income categories have no sub-categories. */
  datatype IncCat = IncCat(id: string, name: string, icon: string, color: string)

  function TxnId(t: Txn): string { t.id }
  function AccountId(a: Account): string { a.id }
  function ExpCatId(c: ExpCat): string { c.id }
  function IncCatId(c: IncCat): string { c.id }
  function SubCatId(s: SubCat): string { s.id }

  /** A selection held in UI state is acted on only when it is truthy: neither `null` nor `""`. */
  predicate Truthy(o: Option<string>) {
    o.Some? && o.value != ""
  }

  function Amount(t: Txn): int { t.amount }

  /** The effect of a transaction on its account: income adds, every other type subtracts. */
  function Signed(t: Txn): int {
    if t.kind == Income then t.amount else -t.amount
  }

  /** The date-descending sort key of a transaction. */
  function TxnKey(t: Txn): int { DateKey(t.date) }

  function OfKind(kind: TxnType): Txn -> bool {
    (t: Txn) => t.kind == kind
  }

  function OnAccount(k: string): Txn -> bool {
    (t: Txn) => t.accountId == k
  }

  // ---------------------------------------------------------------- keyed accumulation

  /**
   * The loop `accBal` and the breakdowns share: each transaction that has a
   * key creates the key's entry at zero if it is missing and then adds its
   * contribution `f(t)` to it. `keys` records the entries in the order they
   * were created, after those of `start`.
   */
  /**
   * The keys of `items` in the order of their first occurrence, leaving out
   * those already in `seen`: the order in which the loop below creates entries.
   */
  function NewKeys(items: seq<Txn>, key: Txn -> Option<string>, seen: seq<string>): seq<string> {
    if items == [] then []
    else
      var prev := NewKeys(items[..|items| - 1], key, seen);
      var k := key(items[|items| - 1]);
      if k.Some? && k.value !in seen && k.value !in prev then prev + [k.value] else prev
  }

  method Accumulate(start: map<string, int>, startKeys: seq<string>, items: seq<Txn>,
                    key: Txn -> Option<string>, f: Txn -> int) returns (m: map<string, int>, keys: seq<string>)
    requires Distinct(startKeys) && (forall k :: k in start <==> k in startKeys)
    requires forall k :: k in start ==> start[k] == 0
    ensures Distinct(keys) && (forall k :: k in m <==> k in keys)
    ensures keys == startKeys + NewKeys(items, key, startKeys)
    ensures |startKeys| <= |keys| && keys[..|startKeys|] == startKeys
    ensures m.Keys == start.Keys + KeysOf(items, key)
    ensures forall k :: k in m ==> m[k] == SumWhere(items, key, k, f)
  {
    m, keys := start, startKeys;
    for i := 0 to |items|
      invariant TallyKeys(startKeys, items, key, i, m, keys)
      invariant TallySums(start, items, key, f, i, m)
    {
      var t := items[i];
      ghost var m0, keys0 := m, keys;
      if key(t).Some? {
        var k := key(t).value;
        if k !in m {
          m := m[k := 0];
          keys := keys + [k];
        }
        m := m[k := m[k] + f(t)];
      }
      KeysStep(startKeys, items, key, i, m0, keys0, m, keys);
      SumsStep(start, items, key, f, i, m0, m);
    }
    assert items[..|items|] == items;
  }

  lemma NewKeysStep(items: seq<Txn>, key: Txn -> Option<string>, seen: seq<string>, i: int)
    requires 0 <= i < |items|
    ensures var prev := NewKeys(items[..i], key, seen);
            var k := key(items[i]);
            NewKeys(items[..i + 1], key, seen) ==
            if k.Some? && k.value !in seen && k.value !in prev then prev + [k.value] else prev
  {
    assert items[..i + 1][..i] == items[..i];
  }

  /** The entries of the accumulation after the first `i` items, in the order they were created. */
  ghost predicate TallyKeys(startKeys: seq<string>, items: seq<Txn>, key: Txn -> Option<string>, i: int,
                            m: map<string, int>, keys: seq<string>)
    requires 0 <= i <= |items|
  {
    && Distinct(keys)
    && (forall k :: k in m <==> k in keys)
    && keys == startKeys + NewKeys(items[..i], key, startKeys)
  }

  /** The totals of the accumulation after the first `i` items. */
  ghost predicate TallySums(start: map<string, int>, items: seq<Txn>, key: Txn -> Option<string>, f: Txn -> int,
                            i: int, m: map<string, int>)
    requires 0 <= i <= |items|
  {
    && m.Keys == start.Keys + KeysOf(items[..i], key)
    && (forall k :: k in m ==> m[k] == (if k in start then start[k] else 0) + SumWhere(items[..i], key, k, f))
  }

  /** One item appends its key to the entries exactly when the key is new. */
  lemma KeysStep(startKeys: seq<string>, items: seq<Txn>, key: Txn -> Option<string>, i: int,
                 m0: map<string, int>, keys0: seq<string>, m: map<string, int>, keys: seq<string>)
    requires 0 <= i < |items| && TallyKeys(startKeys, items, key, i, m0, keys0)
    requires key(items[i]).None? ==> m.Keys == m0.Keys && keys == keys0
    requires key(items[i]).Some? ==>
               var k := key(items[i]).value;
               m.Keys == m0.Keys + {k} && keys == if k in m0 then keys0 else keys0 + [k]
    ensures TallyKeys(startKeys, items, key, i + 1, m, keys)
  {
    NewKeysStep(items, key, startKeys, i);
    if key(items[i]).Some? && key(items[i]).value !in m0 {
      AppendFresh(keys0, key(items[i]).value);
    }
  }

  /** One item adds its contribution to its key's total, starting a new key at zero. */
  lemma SumsStep(start: map<string, int>, items: seq<Txn>, key: Txn -> Option<string>, f: Txn -> int, i: int,
                 m0: map<string, int>, m: map<string, int>)
    requires 0 <= i < |items| && TallySums(start, items, key, f, i, m0)
    requires key(items[i]).None? ==> m == m0
    requires key(items[i]).Some? ==>
               var k := key(items[i]).value;
               var z := if k in m0 then m0 else m0[k := 0];
               m == z[k := z[k] + f(items[i])]
    ensures TallySums(start, items, key, f, i + 1, m)
  {
    var t := items[i];
    KeysOfStep(items, key, i);
    forall k ensures SumWhere(items[..i + 1], key, k, f) == SumWhere(items[..i], key, k, f) + (if key(t) == Some(k) then f(t) else 0) {
      SumWhereStep(items, key, k, f, i);
    }
    if key(t).Some? && key(t).value !in m0 {
      SumWhereAbsent(items[..i], key, key(t).value, f);
    }
  }

  // ---------------------------------------------------------------- account balances

  function AccountKey(t: Txn): Option<string> { Some(t.accountId) }

  /** What the transactions on account `k` add up to. */
  function AccountNet(txns: seq<Txn>, k: string): int {
    SumWhere(txns, AccountKey, k, Signed)
  }

  /** The ids of the listed accounts. */
  function AccountIds(accounts: seq<Account>): set<string> {
    set a | a in accounts :: a.id
  }

  /** The accounts the transactions name. */
  ghost function NamedAccounts(txns: seq<Txn>): set<string> {
    KeysOf(txns, AccountKey)
  }

  /** The first pass of `accBal`: an entry of zero for every listed account, in list order. */
  method OpenAccounts(accounts: seq<Account>) returns (bal: map<string, int>, keys: seq<string>)
    ensures Distinct(keys)
    ensures forall k :: k in bal <==> k in keys
    ensures bal.Keys == AccountIds(accounts)
    ensures forall k :: k in bal ==> bal[k] == 0
  {
    bal, keys := map[], [];
    for i := 0 to |accounts|
      invariant Distinct(keys)
      invariant forall k :: k in bal <==> k in keys
      invariant bal.Keys == AccountIds(accounts[..i])
      invariant forall k :: k in bal ==> bal[k] == 0
    {
      var id := accounts[i].id;
      assert accounts[..i + 1] == accounts[..i] + [accounts[i]];
      if id !in bal {
        AppendFresh(keys, id);
        keys := keys + [id];
      }
      bal := bal[id := 0];
    }
    assert accounts[..|accounts|] == accounts;
  }

  /**
   * `accBal`: an entry for every listed account and for every other account
   * a transaction names, each the signed total of that account's
   * transactions. `keys` lists the entries in the order they were created,
   * the listed accounts first.
   */
  method AccountBalances(accounts: seq<Account>, txns: seq<Txn>) returns (bal: map<string, int>, keys: seq<string>)
    ensures Distinct(keys)
    ensures forall k :: k in bal <==> k in keys
    ensures bal.Keys == AccountIds(accounts) + NamedAccounts(txns)
    ensures forall k :: k in bal ==> bal[k] == AccountNet(txns, k)
  {
    bal, keys := OpenAccounts(accounts);
    bal, keys := Accumulate(bal, keys, txns, AccountKey, Signed);
  }

  /** An account no transaction names has balance zero. */
  lemma IdleAccountIsZero(txns: seq<Txn>, k: string)
    requires k !in NamedAccounts(txns)
    ensures AccountNet(txns, k) == 0
  {
    SumWhereAbsent(txns, AccountKey, k, Signed);
  }

  /** An account's balance is its income minus everything else booked on it. */
  lemma AccountNetSplit(txns: seq<Txn>, k: string)
    ensures var on := Filter(txns, OnAccount(k));
            AccountNet(txns, k) ==
            SumBy(Filter(on, OfKind(Income)), Amount) - SumBy(Filter(on, Not(OfKind(Income))), Amount)
  {
    var on := Filter(txns, OnAccount(k));
    SumWhereFiltered(txns, AccountKey, k, Signed);
    forall i | 0 <= i < |txns| ensures KeyIs(AccountKey, Some(k))(txns[i]) == OnAccount(k)(txns[i]) {
      assert AccountKey(txns[i]) == Some(txns[i].accountId);
    }
    FilterCongruence(txns, KeyIs(AccountKey, Some(k)), OnAccount(k));
    SumByPartition(on, OfKind(Income), Signed);
    SumByCongruence(Filter(on, OfKind(Income)), Signed, Amount);
    NegatedSum(Filter(on, Not(OfKind(Income))));
  }

  lemma {:induction false} NegatedSum(s: seq<Txn>)
    requires forall i :: 0 <= i < |s| ==> s[i].kind != Income
    ensures SumBy(s, Signed) == -SumBy(s, Amount)
  {
    if s != [] {
      NegatedSum(s[..|s| - 1]);
    }
  }

  /** `netBal`: the entries of `accBal` added up in the order they were created. */
  function NetBalance(bal: map<string, int>, keys: seq<string>): int
    requires forall i :: 0 <= i < |keys| ==> keys[i] in bal
  {
    SumOver(keys, bal)
  }

  /**
   * The net balance is the signed total of every transaction, including those
   * whose account is no longer listed.
   */
  lemma NetBalanceIsTotal(txns: seq<Txn>, bal: map<string, int>, keys: seq<string>)
    requires Distinct(keys)
    requires forall k :: k in bal <==> k in keys
    requires NamedAccounts(txns) <= bal.Keys
    requires forall k :: k in bal ==> bal[k] == AccountNet(txns, k)
    ensures NetBalance(bal, keys) == SumBy(txns, Signed)
  {
    SumOverSums(keys, bal, txns, AccountKey, Signed);
    SumsOverTotal(keys, txns, AccountKey, Signed);
    FilterAll(txns, IsKeyed(AccountKey));
  }

  // ---------------------------------------------------------------- period scoping

  function InPeriod(r: Option<Range>): Txn -> bool {
    (t: Txn) => InRange(t.date, r)
  }

  /** `periodTxns`: the transactions dated inside the active range, in list order. */
  function PeriodTxns(txns: seq<Txn>, period: string, cFrom: string, cTo: string, today: Date): (r: seq<Txn>)
    requires ValidDate(today)
    ensures forall t :: t in r <==> t in txns && InRange(t.date, ActiveRange(period, cFrom, cTo, today))
  {
    FilterMembers(txns, InPeriod(ActiveRange(period, cFrom, cTo, today)));
    Filter(txns, InPeriod(ActiveRange(period, cFrom, cTo, today)))
  }

  /**
   * Exactly the transactions dated in the range are kept, each as often as it
   * occurs, and the order of the list is kept.
   */
  lemma PeriodTxnsExact(txns: seq<Txn>, more: seq<Txn>, period: string, cFrom: string, cTo: string, today: Date)
    requires ValidDate(today)
    ensures var r := ActiveRange(period, cFrom, cTo, today);
            forall t :: multiset(PeriodTxns(txns, period, cFrom, cTo, today))[t] ==
                        if InRange(t.date, r) then multiset(txns)[t] else 0
    ensures PeriodTxns(txns + more, period, cFrom, cTo, today) ==
            PeriodTxns(txns, period, cFrom, cTo, today) + PeriodTxns(more, period, cFrom, cTo, today)
  {
    var p := InPeriod(ActiveRange(period, cFrom, cTo, today));
    FilterCount(txns, p);
    FilterConcat(txns, more, p);
  }

  /** A custom range that ends before it starts, or whose dates do not read as dates, selects nothing. */
  lemma EmptyCustomPeriod(txns: seq<Txn>, cFrom: string, cTo: string, today: Date)
    requires ValidDate(today)
    requires ParseYMD(cFrom).None? || ParseYMD(cTo).None? ||
             DateKey(ParseYMD(cTo).value) < DateKey(ParseYMD(cFrom).value)
    ensures PeriodTxns(txns, "custom", cFrom, cTo, today) == []
  {
    forall i | 0 <= i < |txns| ensures !InRange(txns[i].date, CustomRange(cFrom, cTo)) {
      if ParseYMD(cFrom).Some? && ParseYMD(cTo).Some? {
        InvertedCustomRangeIsEmpty(cFrom, cTo, txns[i].date);
      }
    }
    FilterNone(txns, InPeriod(CustomRange(cFrom, cTo)));
  }

  // ---------------------------------------------------------------- period totals

  /** The total of one type is zero when no transaction has that type, and never negative when no amount is. */
  lemma KindTotalSigns(ptx: seq<Txn>, kind: TxnType)
    ensures (forall i :: 0 <= i < |ptx| ==> ptx[i].kind != kind) ==> SumBy(Filter(ptx, OfKind(kind)), Amount) == 0
    ensures (forall i :: 0 <= i < |ptx| ==> ptx[i].amount >= 0) ==> SumBy(Filter(ptx, OfKind(kind)), Amount) >= 0
  {
    var f := Filter(ptx, OfKind(kind));
    if forall i :: 0 <= i < |ptx| ==> ptx[i].kind != kind {
      FilterNone(ptx, OfKind(kind));
    }
    if forall i :: 0 <= i < |ptx| ==> ptx[i].amount >= 0 {
      FilterMembers(ptx, OfKind(kind));
      forall i | 0 <= i < |f| ensures Amount(f[i]) >= 0 {
        assert f[i] in ptx;
      }
      SumByNonNegative(f, Amount);
    }
  }

  /** `pIncome`: the amounts of the income transactions of the period. */
  function PIncome(ptx: seq<Txn>): (r: int)
    ensures (forall i :: 0 <= i < |ptx| ==> ptx[i].kind != Income) ==> r == 0
    ensures (forall i :: 0 <= i < |ptx| ==> ptx[i].amount >= 0) ==> r >= 0
  {
    KindTotalSigns(ptx, Income);
    SumBy(Filter(ptx, OfKind(Income)), Amount)
  }

  /** `pExpense`: the amounts of the expense transactions of the period. */
  function PExpense(ptx: seq<Txn>): (r: int)
    ensures (forall i :: 0 <= i < |ptx| ==> ptx[i].kind != Expense) ==> r == 0
    ensures (forall i :: 0 <= i < |ptx| ==> ptx[i].amount >= 0) ==> r >= 0
  {
    KindTotalSigns(ptx, Expense);
    SumBy(Filter(ptx, OfKind(Expense)), Amount)
  }

  /** When every transaction is income or expense, the two totals share out the whole amount. */
  lemma IncomeExpenseCoverAll(ptx: seq<Txn>)
    requires forall i :: 0 <= i < |ptx| ==> ptx[i].kind == Income || ptx[i].kind == Expense
    ensures PIncome(ptx) + PExpense(ptx) == SumBy(ptx, Amount)
  {
    SumByPartition(ptx, OfKind(Income), Amount);
    FilterCongruence(ptx, Not(OfKind(Income)), OfKind(Expense));
  }

  /** The period totals split over any division of the transaction list. */
  lemma PeriodTotalsSplit(a: seq<Txn>, b: seq<Txn>)
    ensures PIncome(a + b) == PIncome(a) + PIncome(b)
    ensures PExpense(a + b) == PExpense(a) + PExpense(b)
  {
    FilterConcat(a, b, OfKind(Income));
    SumByConcat(Filter(a, OfKind(Income)), Filter(b, OfKind(Income)), Amount);
    FilterConcat(a, b, OfKind(Expense));
    SumByConcat(Filter(a, OfKind(Expense)), Filter(b, OfKind(Expense)), Amount);
  }

  // ---------------------------------------------------------------- filtered view

  /** `txnFilter`: `"all"` or one transaction type. */
  datatype TypeFilter = AllTypes | OnlyType(kind: TxnType)

  function Shows(f: TypeFilter): Txn -> bool {
    (t: Txn) => f.AllTypes? || t.kind == f.kind
  }

  /** `filtered`: the period's transactions newest first, then cut down to the selected type. */
  function Filtered(ptx: seq<Txn>, f: TypeFilter): (r: seq<Txn>)
    ensures SortedDesc(r, TxnKey)
    ensures forall t :: t in r <==> t in ptx && (f.AllTypes? || t.kind == f.kind)
  {
    FilterSorted(SortDesc(ptx, TxnKey), TxnKey, Shows(f));
    FilterMembers(SortDesc(ptx, TxnKey), Shows(f));
    SortDescMembers(ptx, TxnKey);
    Filter(SortDesc(ptx, TxnKey), Shows(f))
  }

  /**
   * The list is newest first and holds each transaction of the selected type
   * as often as the period does; sorting first and filtering after gives the
   * same list as the other way round, "all" shows the whole period, and the
   * transactions of one day keep their list order.
   */
  lemma FilteredView(ptx: seq<Txn>, f: TypeFilter, day: int)
    ensures SortedDesc(Filtered(ptx, f), TxnKey)
    ensures forall t :: multiset(Filtered(ptx, f))[t] == if Shows(f)(t) then multiset(ptx)[t] else 0
    ensures Filtered(ptx, f) == SortDesc(Filter(ptx, Shows(f)), TxnKey)
    ensures f.AllTypes? ==> Filtered(ptx, f) == SortDesc(ptx, TxnKey)
    ensures Filter(Filtered(ptx, f), KeyIs(TxnKey, day)) == Filter(Filter(ptx, Shows(f)), KeyIs(TxnKey, day))
  {
    SortFilterCommute(ptx, TxnKey, Shows(f));
    FilterCount(Filter(ptx, Shows(f)), Shows(f));
    FilterCount(ptx, Shows(f));
    if f.AllTypes? {
      FilterAll(SortDesc(ptx, TxnKey), Shows(f));
    }
    SortStable(Filter(ptx, Shows(f)), TxnKey, day);
  }

  // ---------------------------------------------------------------- drill-downs

  function ExpenseInSub(sel: Option<string>): Txn -> bool {
    (t: Txn) => t.kind == Expense && t.subCatId == sel
  }

  function IncomeInCat(sel: Option<string>): Txn -> bool {
    (t: Txn) => t.kind == Income && Some(t.catId) == sel
  }

  /** `drillExp`: the period's expenses in the selected sub-category, newest first; nothing without a selection. */
  function DrillExp(ptx: seq<Txn>, subCatSel: Option<string>): (r: seq<Txn>)
    ensures SortedDesc(r, TxnKey)
    ensures forall t :: t in r <==> Truthy(subCatSel) && t in ptx && t.kind == Expense && t.subCatId == subCatSel
  {
    FilterMembers(ptx, ExpenseInSub(subCatSel));
    SortDescMembers(Filter(ptx, ExpenseInSub(subCatSel)), TxnKey);
    if Truthy(subCatSel) then SortDesc(Filter(ptx, ExpenseInSub(subCatSel)), TxnKey) else []
  }

  /** `drillInc`: the period's income in the selected category, newest first; nothing without a selection. */
  function DrillInc(ptx: seq<Txn>, incCatSel: Option<string>): (r: seq<Txn>)
    ensures SortedDesc(r, TxnKey)
    ensures forall t :: t in r <==> Truthy(incCatSel) && t in ptx && t.kind == Income && Some(t.catId) == incCatSel
  {
    FilterMembers(ptx, IncomeInCat(incCatSel));
    SortDescMembers(Filter(ptx, IncomeInCat(incCatSel)), TxnKey);
    if Truthy(incCatSel) then SortDesc(Filter(ptx, IncomeInCat(incCatSel)), TxnKey) else []
  }

  /**
   * With a selection, a drill-down is newest first, holds exactly the
   * matching transactions of the period, and is the newest-first list cut
   * down to them; without one it is empty.
   */
  lemma DrillExpView(ptx: seq<Txn>, subCatSel: Option<string>)
    ensures !Truthy(subCatSel) ==> DrillExp(ptx, subCatSel) == []
    ensures Truthy(subCatSel) ==>
            && SortedDesc(DrillExp(ptx, subCatSel), TxnKey)
            && DrillExp(ptx, subCatSel) == Filter(SortDesc(ptx, TxnKey), ExpenseInSub(subCatSel))
            && forall t :: multiset(DrillExp(ptx, subCatSel))[t] ==
                           if t.kind == Expense && t.subCatId == subCatSel then multiset(ptx)[t] else 0
  {
    SortFilterCommute(ptx, TxnKey, ExpenseInSub(subCatSel));
    FilterCount(ptx, ExpenseInSub(subCatSel));
  }

  lemma DrillIncView(ptx: seq<Txn>, incCatSel: Option<string>)
    ensures !Truthy(incCatSel) ==> DrillInc(ptx, incCatSel) == []
    ensures Truthy(incCatSel) ==>
            && SortedDesc(DrillInc(ptx, incCatSel), TxnKey)
            && DrillInc(ptx, incCatSel) == Filter(SortDesc(ptx, TxnKey), IncomeInCat(incCatSel))
            && forall t :: multiset(DrillInc(ptx, incCatSel))[t] ==
                           if t.kind == Income && Some(t.catId) == incCatSel then multiset(ptx)[t] else 0
  {
    SortFilterCommute(ptx, TxnKey, IncomeInCat(incCatSel));
    FilterCount(ptx, IncomeInCat(incCatSel));
  }

  // ---------------------------------------------------------------- trend categories

  function UsedBy(txns: seq<Txn>): ExpCat -> bool {
    (c: ExpCat) => exists t :: t in txns && t.kind == Expense && t.catId == c.id
  }

  /** `trendCats`: the expense categories some expense transaction uses, in list order. */
  function TrendCats(txns: seq<Txn>, expCats: seq<ExpCat>): (r: seq<ExpCat>)
    ensures forall c :: c in r <==> c in expCats && exists t :: t in txns && t.kind == Expense && t.catId == c.id
  {
    FilterMembers(expCats, UsedBy(txns));
    Filter(expCats, UsedBy(txns))
  }

  /** A category is listed, as often as it occurs, exactly when an expense uses it; list order is kept. */
  lemma TrendCatsExact(txns: seq<Txn>, expCats: seq<ExpCat>, more: seq<ExpCat>)
    ensures forall c :: multiset(TrendCats(txns, expCats))[c] ==
                        if exists t :: t in txns && t.kind == Expense && t.catId == c.id then multiset(expCats)[c] else 0
    ensures TrendCats(txns, expCats + more) == TrendCats(txns, expCats) + TrendCats(txns, more)
  {
    FilterCount(expCats, UsedBy(txns));
    FilterConcat(expCats, more, UsedBy(txns));
  }

  // ---------------------------------------------------------------- export rows

  /** One row of the exports; the date is formatted for display when written out. */
  datatype ExportRow = ExportRow(date: Date, amount: int, category: string, remarks: string, typeLabel: string)

  function RowAmount(r: ExportRow): int { r.amount }
  function RowKey(r: ExportRow): int { DateKey(r.date) }

  /**
   * The category column: the category's name, followed by " / " and the
   * sub-category's name when the transaction's sub-category belongs to it;
   * empty when the category is not found. Expenses look in the expense
   * categories, every other type in the income categories.
   */
  function CategoryLabel(t: Txn, expCats: seq<ExpCat>, incCats: seq<IncCat>): (r: string)
    ensures t.kind == Expense && (forall c :: c in expCats ==> c.id != t.catId) ==> r == ""
    ensures t.kind != Expense && (forall c :: c in incCats ==> c.id != t.catId) ==> r == ""
    ensures t.kind == Expense && r != "" ==> exists c :: c in expCats && c.id == t.catId && c.name <= r
    ensures t.kind != Expense && r != "" ==> exists c :: c in incCats && c.id == t.catId && c.name == r
  {
    if t.kind == Expense then
      var i := FirstIndex(expCats, ExpCatId, t.catId);
      if i < 0 then "" else
        var c := expCats[i];
        var j := if t.subCatId.Some? then FirstIndex(c.sub, SubCatId, t.subCatId.value) else -1;
        if j < 0 then c.name else c.name + " / " + c.sub[j].name
    else
      var i := FirstIndex(incCats, IncCatId, t.catId);
      if i < 0 then "" else incCats[i].name
  }

  /**
   * A row carries its transaction's date, note and signed amount, and its
   * type column reads "Income" only for income.
   */
  function RowOf(t: Txn, expCats: seq<ExpCat>, incCats: seq<IncCat>): (r: ExportRow)
    ensures r.date == t.date && r.remarks == t.note && r.category == CategoryLabel(t, expCats, incCats)
    ensures r.amount == (if t.kind == Income then t.amount else -t.amount)
    ensures r.typeLabel == "Income" <==> t.kind == Income
    ensures r.typeLabel == "Income" || r.typeLabel == "Expense"
  {
    ExportRow(t.date, Signed(t), CategoryLabel(t, expCats, incCats), t.note,
              if t.kind == Income then "Income" else "Expense")
  }

  /** `.map(...)` of the row projection. */
  function Rows(s: seq<Txn>, expCats: seq<ExpCat>, incCats: seq<IncCat>): (r: seq<ExportRow>)
    ensures |r| == |s|
    ensures forall k :: 0 <= k < |s| ==> r[k] == RowOf(s[k], expCats, incCats)
  {
    if s == [] then [] else Rows(s[..|s| - 1], expCats, incCats) + [RowOf(s[|s| - 1], expCats, incCats)]
  }

  function RowFn(expCats: seq<ExpCat>, incCats: seq<IncCat>): Txn -> ExportRow {
    (t: Txn) => RowOf(t, expCats, incCats)
  }

  /** The rows are the projection of every transaction by `RowOf`. */
  lemma RowsAreMap(s: seq<Txn>, expCats: seq<ExpCat>, incCats: seq<IncCat>)
    ensures Rows(s, expCats, incCats) == Map(s, RowFn(expCats, incCats))
  {
  }

  /** `buildExportRows`: the transactions newest first, one row each. */
  function ExportRows(txns: seq<Txn>, expCats: seq<ExpCat>, incCats: seq<IncCat>): (r: seq<ExportRow>)
    ensures |r| == |txns|
    ensures SortedDesc(r, RowKey)
    ensures multiset(r) == multiset(Rows(txns, expCats, incCats))
  {
    RowsAreMap(txns, expCats, incCats);
    RowsAreMap(SortDesc(txns, TxnKey), expCats, incCats);
    MapSortDesc(txns, TxnKey, RowFn(expCats, incCats));
    var s := SortDesc(txns, TxnKey);
    var r := Rows(s, expCats, incCats);
    assert forall k :: 0 <= k < |r| ==> RowKey(r[k]) == TxnKey(s[k]);
    r
  }

  /** The category column is empty exactly when the transaction's category is not in the list it is looked up in. */
  lemma CategoryLabelFound(t: Txn, expCats: seq<ExpCat>, incCats: seq<IncCat>)
    requires forall i :: 0 <= i < |expCats| ==> expCats[i].name != ""
    requires forall i :: 0 <= i < |incCats| ==> incCats[i].name != ""
    ensures CategoryLabel(t, expCats, incCats) == "" <==>
            if t.kind == Expense then forall i :: 0 <= i < |expCats| ==> expCats[i].id != t.catId
            else forall i :: 0 <= i < |incCats| ==> incCats[i].id != t.catId
  {
    if t.kind == Expense {
      var i := FirstIndex(expCats, ExpCatId, t.catId);
      if i >= 0 {
        var c := expCats[i];
        var j := if t.subCatId.Some? then FirstIndex(c.sub, SubCatId, t.subCatId.value) else -1;
        if j >= 0 {
          assert |c.name + " / " + c.sub[j].name| > 0;
        }
      }
    }
  }

  lemma {:induction false} RowsSum(s: seq<Txn>, expCats: seq<ExpCat>, incCats: seq<IncCat>)
    ensures SumBy(Rows(s, expCats, incCats), RowAmount) == SumBy(s, Signed)
  {
    if s != [] {
      var init, last := s[..|s| - 1], s[|s| - 1];
      RowsSum(init, expCats, incCats);
      var ri := Rows(init, expCats, incCats);
      var r := ri + [RowOf(last, expCats, incCats)];
      assert r[..|r| - 1] == ri;
      assert SumBy(r, RowAmount) == SumBy(ri, RowAmount) + Signed(last);
    }
  }

  /** The Amount column adds up to the net balance of the exported transactions. */
  lemma ExportRowsSum(txns: seq<Txn>, expCats: seq<ExpCat>, incCats: seq<IncCat>)
    ensures SumBy(ExportRows(txns, expCats, incCats), RowAmount) == SumBy(txns, Signed)
  {
    var s := SortDesc(txns, TxnKey);
    assert ExportRows(txns, expCats, incCats) == Rows(s, expCats, incCats);
    RowsSum(s, expCats, incCats);
    SumBySortDesc(txns, TxnKey, Signed);
  }

  /** Every row is the projection of one of the transactions, and every transaction is projected. */
  lemma ExportRowsCover(txns: seq<Txn>, expCats: seq<ExpCat>, incCats: seq<IncCat>)
    ensures var r := ExportRows(txns, expCats, incCats);
            && (forall k :: 0 <= k < |r| ==> exists t :: t in txns && r[k] == RowOf(t, expCats, incCats))
            && (forall t :: t in txns ==> RowOf(t, expCats, incCats) in r)
  {
    RowsAreMap(txns, expCats, incCats);
    MapCover(ExportRows(txns, expCats, incCats), txns, RowFn(expCats, incCats));
  }
}
