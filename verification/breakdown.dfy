/**
 * The category breakdowns of the selected period: `expByCat` and `incByCat`
 * (one row per listed category with transactions, largest first) and
 * `subCatD` (the same by expense sub-category). Each builds a dictionary in
 * one pass over the period's transactions and then sorts its values.
 */
module Breakdown {
  import opened SeqUtil
  import opened Ledger

  // ---------------------------------------------------------------- categories

  /** The fields of a category a breakdown row copies. */
  datatype CatHead = CatHead(id: string, name: string, icon: string)

  function HeadId(c: CatHead): string { c.id }

  /** The heads of the expense categories, in list order. */
  function ExpHeads(cats: seq<ExpCat>): (r: seq<CatHead>)
    ensures |r| == |cats|
    ensures forall i :: 0 <= i < |cats| ==> r[i] == CatHead(cats[i].id, cats[i].name, cats[i].icon)
  {
    seq(|cats|, i requires 0 <= i < |cats| => CatHead(cats[i].id, cats[i].name, cats[i].icon))
  }

  /**
   * The heads of the income categories, in list order. The same projection
   * as `ExpHeads`, written again because `IncCat` and `ExpCat` are different
   * types with no common supertype to project from.
   */
  function IncHeads(cats: seq<IncCat>): (r: seq<CatHead>)
    ensures |r| == |cats|
    ensures forall i :: 0 <= i < |cats| ==> r[i] == CatHead(cats[i].id, cats[i].name, cats[i].icon)
  {
    seq(|cats|, i requires 0 <= i < |cats| => CatHead(cats[i].id, cats[i].name, cats[i].icon))
  }

  predicate Listed(cats: seq<CatHead>, id: string) {
    FirstIndex(cats, HeadId, id) >= 0
  }

  /** Some row of a breakdown is the row of category `k`. */
  predicate HasRow(rows: seq<CatTotal>, k: string) {
    exists j :: 0 <= j < |rows| && rows[j].catId == k
  }

  /** Category `k` is listed and some transaction of type `kind` uses it: such a category gets a row. */
  predicate UsedListed(ptx: seq<Txn>, kind: TxnType, cats: seq<CatHead>, k: string) {
    Listed(cats, k) && exists t :: t in ptx && t.kind == kind && t.catId == k
  }

  /** A row of `expByCat` or `incByCat`. */
  datatype CatTotal = CatTotal(name: string, catId: string, icon: string, value: int)

  function CatValue(r: CatTotal): int { r.value }
  function CatTotalId(r: CatTotal): string { r.catId }

  /** The transactions of type `kind` in category `id`. */
  function InCategory(kind: TxnType, id: string): Txn -> bool {
    (t: Txn) => t.kind == kind && t.catId == id
  }

  /** The entry a transaction adds to: its category, when it has type `kind` and its category is listed. */
  function CatKey(kind: TxnType, cats: seq<CatHead>): Txn -> Option<string> {
    (t: Txn) => if t.kind == kind && Listed(cats, t.catId) then Some(t.catId) else None
  }

  /** The row of a category with running total `v`. */
  function CatRow(cats: seq<CatHead>, id: string, v: int): (r: CatTotal)
    requires Listed(cats, id)
    ensures r.catId == id && r.value == v
  {
    var c := cats[FirstIndex(cats, HeadId, id)];
    CatTotal(c.name, c.id, c.icon, v)
  }

  lemma CatKeysListed(ptx: seq<Txn>, kind: TxnType, cats: seq<CatHead>)
    ensures forall k :: k in KeysOf(ptx, CatKey(kind, cats)) <==>
                        Listed(cats, k) && exists t :: t in ptx && t.kind == kind && t.catId == k
  {
    forall k | Listed(cats, k) && exists t :: t in ptx && t.kind == kind && t.catId == k
      ensures k in KeysOf(ptx, CatKey(kind, cats))
    {
      var t :| t in ptx && t.kind == kind && t.catId == k;
      assert CatKey(kind, cats)(t) == Some(k);
    }
  }

  /** The entry of a listed category is the sum of the amounts of its transactions. */
  lemma CatEntryIsCategorySum(ptx: seq<Txn>, kind: TxnType, cats: seq<CatHead>, k: string)
    requires Listed(cats, k)
    ensures SumWhere(ptx, CatKey(kind, cats), k, Amount) == SumBy(Filter(ptx, InCategory(kind, k)), Amount)
  {
    SumWhereFiltered(ptx, CatKey(kind, cats), k, Amount);
    FilterCongruence(ptx, KeyIs(CatKey(kind, cats), Some(k)), InCategory(kind, k));
  }

  /** `Object.values(m)`: the rows in the order their entries were created. */
  function CatRows(cats: seq<CatHead>, keys: seq<string>, totals: map<string, int>): (r: seq<CatTotal>)
    requires forall i :: 0 <= i < |keys| ==> Listed(cats, keys[i]) && keys[i] in totals
    ensures |r| == |keys|
    ensures forall i :: 0 <= i < |keys| ==> r[i] == CatRow(cats, keys[i], totals[keys[i]])
  {
    seq(|keys|, i requires 0 <= i < |keys| => CatRow(cats, keys[i], totals[keys[i]]))
  }

  /** What the accumulation over the category keys delivers. */
  ghost predicate CatEntries(ptx: seq<Txn>, kind: TxnType, cats: seq<CatHead>, totals: map<string, int>, keys: seq<string>) {
    && Distinct(keys)
    && (forall k :: k in totals <==> k in keys)
    && totals.Keys == KeysOf(ptx, CatKey(kind, cats))
    && (forall k :: k in totals ==> totals[k] == SumWhere(ptx, CatKey(kind, cats), k, Amount))
  }

  lemma EntriesListed(ptx: seq<Txn>, kind: TxnType, cats: seq<CatHead>, totals: map<string, int>, keys: seq<string>)
    requires CatEntries(ptx, kind, cats, totals, keys)
    ensures forall i :: 0 <= i < |keys| ==> Listed(cats, keys[i]) && keys[i] in totals
  {
    CatKeysListed(ptx, kind, cats);
    assert forall i :: 0 <= i < |keys| ==> keys[i] in totals;
  }

  /** `unsorted` holds the row of each key, in key order. */
  ghost predicate RowsOfKeys(cats: seq<CatHead>, keys: seq<string>, totals: map<string, int>, unsorted: seq<CatTotal>) {
    && |unsorted| == |keys|
    && (forall i :: 0 <= i < |keys| ==> Listed(cats, keys[i]) && keys[i] in totals)
    && (forall i :: 0 <= i < |keys| ==> unsorted[i] == CatRow(cats, keys[i], totals[keys[i]]))
  }

  /** The category rows of the keys are keyed by those keys and valued by their totals. */
  lemma CatRowsOf(cats: seq<CatHead>, keys: seq<string>, totals: map<string, int>, unsorted: seq<CatTotal>)
    requires RowsOfKeys(cats, keys, totals, unsorted)
    ensures RowsOf(keys, totals, unsorted, CatTotalId, CatValue)
  {
    forall i | 0 <= i < |keys|
      ensures keys[i] in totals && CatTotalId(unsorted[i]) == keys[i] && CatValue(unsorted[i]) == totals[keys[i]]
    {
      var r := CatRow(cats, keys[i], totals[keys[i]]);
      assert unsorted[i] == r;
    }
  }

  /** Sorting rows built from distinct keys names each category once. */
  lemma CatRowsDistinct(ptx: seq<Txn>, kind: TxnType, cats: seq<CatHead>, totals: map<string, int>, keys: seq<string>,
                        unsorted: seq<CatTotal>, rows: seq<CatTotal>)
    requires CatEntries(ptx, kind, cats, totals, keys) && RowsOfKeys(cats, keys, totals, unsorted)
    requires rows == SortDesc(unsorted, CatValue)
    ensures forall i, j :: 0 <= i < j < |rows| ==> rows[i].catId != rows[j].catId
  {
    CatRowsOf(cats, keys, totals, unsorted);
    KeyedRows(keys, totals, unsorted, CatTotalId, CatValue, rows);
    assert forall i, j :: 0 <= i < j < |rows| ==> CatTotalId(rows[i]) != CatTotalId(rows[j]);
  }

  /**
   * There is a row for a category exactly when it is listed and has a
   * transaction of the type (`Listed` written out, so that the quantifier
   * has a trigger in goals where `Listed` is unfolded).
   */
  lemma CatRowsCover(ptx: seq<Txn>, kind: TxnType, cats: seq<CatHead>, totals: map<string, int>, keys: seq<string>,
                     unsorted: seq<CatTotal>, rows: seq<CatTotal>)
    requires Distinct(keys) && RowsOf(keys, totals, unsorted, CatTotalId, CatValue)
    requires forall k :: k in keys <==> FirstIndex(cats, HeadId, k) >= 0 && exists t :: t in ptx && t.kind == kind && t.catId == k
    requires rows == SortDesc(unsorted, CatValue)
    ensures forall k :: HasRow(rows, k) <==> UsedListed(ptx, kind, cats, k)
  {
    CatRowIds(keys, totals, unsorted, rows);
    forall k ensures HasRow(rows, k) <==> UsedListed(ptx, kind, cats, k) {
      if HasRow(rows, k) {
        assert k in keys;
      }
      if UsedListed(ptx, kind, cats, k) {
        assert k in keys;
      }
    }
  }


  /** The sorted rows carry exactly the keys, each once. */
  lemma CatRowIds(keys: seq<string>, totals: map<string, int>, unsorted: seq<CatTotal>, rows: seq<CatTotal>)
    requires Distinct(keys) && RowsOf(keys, totals, unsorted, CatTotalId, CatValue)
    requires rows == SortDesc(unsorted, CatValue)
    ensures forall k :: (exists j :: 0 <= j < |rows| && rows[j].catId == k) <==> k in keys
  {
    KeyedRows(keys, totals, unsorted, CatTotalId, CatValue, rows);
    forall k | exists j :: 0 <= j < |rows| && rows[j].catId == k ensures k in keys {
      var j :| 0 <= j < |rows| && rows[j].catId == k;
      assert CatTotalId(rows[j]) == k;
    }
    forall k | k in keys ensures exists j :: 0 <= j < |rows| && rows[j].catId == k {
      var j :| 0 <= j < |rows| && CatTotalId(rows[j]) == k;
      assert rows[j].catId == k;
    }
  }

  /** The accumulated keys are the listed categories some transaction of the kind uses. */
  lemma CatKeysAre(ptx: seq<Txn>, kind: TxnType, cats: seq<CatHead>, totals: map<string, int>, keys: seq<string>)
    requires CatEntries(ptx, kind, cats, totals, keys)
    ensures forall k :: k in keys <==> FirstIndex(cats, HeadId, k) >= 0 && exists t :: t in ptx && t.kind == kind && t.catId == k
  {
    CatKeysListed(ptx, kind, cats);
    assert forall k :: k in keys <==> k in KeysOf(ptx, CatKey(kind, cats));
  }


  /** Each row, in any order, is its category's row with the category's total. */
  lemma CatRowsContent(ptx: seq<Txn>, kind: TxnType, cats: seq<CatHead>, totals: map<string, int>, keys: seq<string>,
                       unsorted: seq<CatTotal>, rows: seq<CatTotal>)
    requires CatEntries(ptx, kind, cats, totals, keys) && RowsOfKeys(cats, keys, totals, unsorted)
    requires rows == SortDesc(unsorted, CatValue)
    ensures forall j :: 0 <= j < |rows| ==>
              Listed(cats, rows[j].catId) &&
              rows[j] == CatRow(cats, rows[j].catId, SumBy(Filter(ptx, InCategory(kind, rows[j].catId)), Amount))
  {
    SortDescMembers(unsorted, CatValue);
    forall j | 0 <= j < |rows|
      ensures Listed(cats, rows[j].catId) &&
              rows[j] == CatRow(cats, rows[j].catId, SumBy(Filter(ptx, InCategory(kind, rows[j].catId)), Amount))
    {
      assert rows[j] in unsorted;
      var i :| 0 <= i < |unsorted| && rows[j] == unsorted[i];
      assert keys[i] in totals;
      CatEntryIsCategorySum(ptx, kind, cats, keys[i]);
    }
  }

  /** The rows, in any order, add up to the total of the transactions whose category is listed. */
  lemma CatRowsTotal(ptx: seq<Txn>, kind: TxnType, cats: seq<CatHead>, totals: map<string, int>, keys: seq<string>,
                     unsorted: seq<CatTotal>, rows: seq<CatTotal>)
    requires CatEntries(ptx, kind, cats, totals, keys) && RowsOfKeys(cats, keys, totals, unsorted)
    requires rows == SortDesc(unsorted, CatValue)
    ensures SumBy(rows, CatValue) == SumBy(Filter(ptx, IsKeyed(CatKey(kind, cats))), Amount)
  {
    CatRowsOf(cats, keys, totals, unsorted);
    KeyedRows(keys, totals, unsorted, CatTotalId, CatValue, rows);
    assert forall i :: 0 <= i < |keys| ==> totals[keys[i]] == SumWhere(ptx, CatKey(kind, cats), keys[i], Amount);
    SumOverSums(keys, totals, ptx, CatKey(kind, cats), Amount);
    assert KeysOf(ptx, CatKey(kind, cats)) <= set k | k in keys;
    SumsOverTotal(keys, ptx, CatKey(kind, cats), Amount);
  }

  /** The sorted rows of the accumulated keys: each listed category with a transaction of the type, once, with its name, icon and total. */
  lemma CatRowsSpec(ptx: seq<Txn>, kind: TxnType, cats: seq<CatHead>, totals: map<string, int>, keys: seq<string>,
                    unsorted: seq<CatTotal>, rows: seq<CatTotal>)
    requires CatEntries(ptx, kind, cats, totals, keys) && RowsOfKeys(cats, keys, totals, unsorted)
    requires rows == SortDesc(unsorted, CatValue)
    ensures forall i, j :: 0 <= i < j < |rows| ==> rows[i].catId != rows[j].catId
    ensures forall k :: HasRow(rows, k) <==> UsedListed(ptx, kind, cats, k)
    ensures forall j :: 0 <= j < |rows| ==>
              Listed(cats, rows[j].catId) &&
              rows[j] == CatRow(cats, rows[j].catId, SumBy(Filter(ptx, InCategory(kind, rows[j].catId)), Amount))
    ensures SumBy(rows, CatValue) == SumBy(Filter(ptx, IsKeyed(CatKey(kind, cats))), Amount)
  {
    CatRowsDistinct(ptx, kind, cats, totals, keys, unsorted, rows);
    CatRowsOf(cats, keys, totals, unsorted);
    CatKeysAre(ptx, kind, cats, totals, keys);
    CatRowsCover(ptx, kind, cats, totals, keys, unsorted, rows);
    CatRowsContent(ptx, kind, cats, totals, keys, unsorted, rows);
    CatRowsTotal(ptx, kind, cats, totals, keys, unsorted, rows);
  }

  /** The dictionary pass of `expByCat` and `incByCat`: the total of each listed category with transactions of type `kind`. */
  method CatTally(ptx: seq<Txn>, kind: TxnType, cats: seq<CatHead>) returns (totals: map<string, int>, keys: seq<string>)
    ensures CatEntries(ptx, kind, cats, totals, keys)
  {
    totals, keys := Accumulate(map[], [], ptx, CatKey(kind, cats), Amount);
  }

  /**
   * `expByCat` and `incByCat` for transactions of type `kind` and the
   * categories `cats`: one row per listed category that has a transaction
   * of that type, holding the category's name and icon and the sum of those
   * transactions' amounts; largest first; the values add up to the total of
   * the transactions whose category is listed.
   */
  method CategoryTotals(ptx: seq<Txn>, kind: TxnType, cats: seq<CatHead>) returns (rows: seq<CatTotal>)
    ensures SortedDesc(rows, CatValue)
    ensures forall i, j :: 0 <= i < j < |rows| ==> rows[i].catId != rows[j].catId
    ensures forall k :: HasRow(rows, k) <==> UsedListed(ptx, kind, cats, k)
    ensures forall j :: 0 <= j < |rows| ==>
              Listed(cats, rows[j].catId) &&
              rows[j] == CatRow(cats, rows[j].catId, SumBy(Filter(ptx, InCategory(kind, rows[j].catId)), Amount))
    ensures SumBy(rows, CatValue) == SumBy(Filter(ptx, IsKeyed(CatKey(kind, cats))), Amount)
  {
    var totals, keys := CatTally(ptx, kind, cats);
    EntriesListed(ptx, kind, cats, totals, keys);
    var unsorted := CatRows(cats, keys, totals);
    assert RowsOfKeys(cats, keys, totals, unsorted);
    rows := SortDesc(unsorted, CatValue);
    CatRowsSpec(ptx, kind, cats, totals, keys, unsorted, rows);
  }

  /** `expByCat`: the expense breakdown of the period over the expense categories. */
  method ExpenseByCategory(ptx: seq<Txn>, expCats: seq<ExpCat>) returns (rows: seq<CatTotal>)
    ensures SortedDesc(rows, CatValue)
    ensures forall i, j :: 0 <= i < j < |rows| ==> rows[i].catId != rows[j].catId
    ensures forall k :: HasRow(rows, k) <==> UsedListed(ptx, Expense, ExpHeads(expCats), k)
    ensures forall j :: 0 <= j < |rows| ==>
              Listed(ExpHeads(expCats), rows[j].catId) &&
              rows[j] == CatRow(ExpHeads(expCats), rows[j].catId, SumBy(Filter(ptx, InCategory(Expense, rows[j].catId)), Amount))
    ensures SumBy(rows, CatValue) == SumBy(Filter(ptx, IsKeyed(CatKey(Expense, ExpHeads(expCats)))), Amount)
  {
    rows := CategoryTotals(ptx, Expense, ExpHeads(expCats));
  }

  /** `incByCat`: the income breakdown of the period over the income categories. */
  method IncomeByCategory(ptx: seq<Txn>, incCats: seq<IncCat>) returns (rows: seq<CatTotal>)
    ensures SortedDesc(rows, CatValue)
    ensures forall i, j :: 0 <= i < j < |rows| ==> rows[i].catId != rows[j].catId
    ensures forall k :: HasRow(rows, k) <==> UsedListed(ptx, Income, IncHeads(incCats), k)
    ensures forall j :: 0 <= j < |rows| ==>
              Listed(IncHeads(incCats), rows[j].catId) &&
              rows[j] == CatRow(IncHeads(incCats), rows[j].catId, SumBy(Filter(ptx, InCategory(Income, rows[j].catId)), Amount))
    ensures SumBy(rows, CatValue) == SumBy(Filter(ptx, IsKeyed(CatKey(Income, IncHeads(incCats)))), Amount)
  {
    rows := CategoryTotals(ptx, Income, IncHeads(incCats));
  }

  /** A listed category is found in the head list exactly when it is in the category list. */
  lemma ListedExp(expCats: seq<ExpCat>, k: string)
    ensures Listed(ExpHeads(expCats), k) <==> exists c :: c in expCats && c.id == k
  {
    if exists c :: c in expCats && c.id == k {
      var c :| c in expCats && c.id == k;
      var i :| 0 <= i < |expCats| && expCats[i] == c;
      assert HeadId(ExpHeads(expCats)[i]) == k;
    }
  }

  /**
   * When every transaction of type `kind` has a listed category, the
   * breakdown accounts for the whole period total of that type, so the
   * expense breakdown adds up to `pExpense` and the income one to `pIncome`.
   */
  lemma CategoryTotalsReconcile(ptx: seq<Txn>, kind: TxnType, cats: seq<CatHead>)
    requires forall i :: 0 <= i < |ptx| && ptx[i].kind == kind ==> Listed(cats, ptx[i].catId)
    ensures SumBy(Filter(ptx, IsKeyed(CatKey(kind, cats))), Amount) == SumBy(Filter(ptx, OfKind(kind)), Amount)
    ensures kind == Expense ==> SumBy(Filter(ptx, IsKeyed(CatKey(kind, cats))), Amount) == PExpense(ptx)
    ensures kind == Income ==> SumBy(Filter(ptx, IsKeyed(CatKey(kind, cats))), Amount) == PIncome(ptx)
  {
    FilterCongruence(ptx, IsKeyed(CatKey(kind, cats)), OfKind(kind));
  }

  /** With positive amounts, no row of a breakdown is zero or negative. */
  lemma CategoryRowsPositive(ptx: seq<Txn>, kind: TxnType, k: string)
    requires forall i :: 0 <= i < |ptx| ==> ptx[i].amount > 0
    requires exists t :: t in ptx && t.kind == kind && t.catId == k
    ensures SumBy(Filter(ptx, InCategory(kind, k)), Amount) > 0
  {
    var t :| t in ptx && t.kind == kind && t.catId == k;
    FilterMembers(ptx, InCategory(kind, k));
    var f := Filter(ptx, InCategory(kind, k));
    assert t in f;
    FilterCount(ptx, InCategory(kind, k));
    forall i | 0 <= i < |f| ensures Amount(f[i]) > 0 {
      assert f[i] in multiset(f);
      assert f[i] in multiset(ptx);
      var j :| 0 <= j < |ptx| && ptx[j] == f[i];
    }
    SumByPositive(f, Amount);
  }

  // ---------------------------------------------------------------- sub-categories

  /**
   * The sub-category a transaction names, looked up among the sub-categories
   * of the expense category it names; nothing when either is not found.
   */
  function SubOf(expCats: seq<ExpCat>, t: Txn): (r: Option<SubCat>)
    ensures r.Some? ==> t.subCatId == Some(r.value.id) && exists c :: c in expCats && c.id == t.catId && r.value in c.sub
    ensures r.Some? ==> var i := FirstIndex(expCats, ExpCatId, t.catId); 0 <= i && r.value in expCats[i].sub
    ensures t.subCatId.None? || (forall c :: c in expCats ==> c.id != t.catId) ==> r.None?
    ensures var i := FirstIndex(expCats, ExpCatId, t.catId);
            0 <= i && t.subCatId.Some? && (exists s :: s in expCats[i].sub && s.id == t.subCatId.value) ==>
              r == Some(expCats[i].sub[FirstIndex(expCats[i].sub, SubCatId, t.subCatId.value)])
  {
    var i := FirstIndex(expCats, ExpCatId, t.catId);
    if i < 0 || t.subCatId.None? then None
    else
      var j := FirstIndex(expCats[i].sub, SubCatId, t.subCatId.value);
      if j < 0 then None else Some(expCats[i].sub[j])
  }

  /**
   * The export's Category column looks a transaction up the way `subCatD`
   * does: the first category with its id, then the first sub-category of
   * that category with its sub-category id.
   */
  lemma CategoryLabelOf(t: Txn, expCats: seq<ExpCat>, incCats: seq<IncCat>)
    ensures t.kind == Expense ==>
              var i := FirstIndex(expCats, ExpCatId, t.catId);
              && (i < 0 ==> CategoryLabel(t, expCats, incCats) == "")
              && (0 <= i && SubOf(expCats, t).Some? ==>
                    CategoryLabel(t, expCats, incCats) == expCats[i].name + " / " + SubOf(expCats, t).value.name)
              && (0 <= i && SubOf(expCats, t).None? ==> CategoryLabel(t, expCats, incCats) == expCats[i].name)
    ensures t.kind != Expense ==>
              var i := FirstIndex(incCats, IncCatId, t.catId);
              CategoryLabel(t, expCats, incCats) == if i < 0 then "" else incCats[i].name
  {
  }

  /**
   * A transaction counts towards `subCatD` when it is an expense with a
   * sub-category, belongs to the selected category when one is selected,
   * and its sub-category is found in its category.
   */
  predicate Contributes(expCats: seq<ExpCat>, sel: Option<string>, t: Txn) {
    t.kind == Expense && Truthy(t.subCatId) && (!Truthy(sel) || t.catId == sel.value) && SubOf(expCats, t).Some?
  }

  /** The contributing transactions of sub-category `s`. */
  function InSub(expCats: seq<ExpCat>, sel: Option<string>, s: string): Txn -> bool {
    (t: Txn) => Contributes(expCats, sel, t) && t.subCatId == Some(s)
  }

  /** Some transaction of the period contributes to sub-category `s`. */
  predicate HasContributor(ptx: seq<Txn>, expCats: seq<ExpCat>, sel: Option<string>, s: string) {
    exists t :: t in ptx && InSub(expCats, sel, s)(t)
  }

  /** The entry a transaction adds to: its sub-category, when it contributes. */
  function SubKey(expCats: seq<ExpCat>, sel: Option<string>): Txn -> Option<string> {
    (t: Txn) => if Contributes(expCats, sel, t) then t.subCatId else None
  }

  /** A row of `subCatD`. */
  datatype SubTotal = SubTotal(subId: string, catId: string, name: string, amount: int)

  function SubAmount(r: SubTotal): int { r.amount }
  function SubTotalId(r: SubTotal): string { r.subId }

  /**
   * The row of sub-category `k` with running total `v`: the entry is created
   * by the first contributing transaction, so the category and the name are
   * that transaction's (SubRowFirst).
   */
  function SubRow(ptx: seq<Txn>, expCats: seq<ExpCat>, sel: Option<string>, k: string, v: int): (r: SubTotal)
    requires FirstIndex(ptx, SubKey(expCats, sel), Some(k)) >= 0
    ensures r.subId == k && r.amount == v
  {
    var t := ptx[FirstIndex(ptx, SubKey(expCats, sel), Some(k))];
    SubTotal(k, t.catId, SubOf(expCats, t).value.name, v)
  }

  /** A row's category and name are those of the first transaction contributing to its sub-category. */
  lemma SubRowFirst(ptx: seq<Txn>, expCats: seq<ExpCat>, sel: Option<string>, k: string, v: int)
    requires FirstIndex(ptx, SubKey(expCats, sel), Some(k)) >= 0
    ensures var r := SubRow(ptx, expCats, sel, k, v);
            exists i :: 0 <= i < |ptx| && InSub(expCats, sel, k)(ptx[i]) &&
                        (forall h :: 0 <= h < i ==> !InSub(expCats, sel, k)(ptx[h])) &&
                        r.catId == ptx[i].catId && SubOf(expCats, ptx[i]) == Some(SubCat(k, r.name))
  {
    var i := FirstIndex(ptx, SubKey(expCats, sel), Some(k));
    FirstContributor(ptx, expCats, sel, k);
    var t := ptx[i];
    var sub := SubOf(expCats, t).value;
    assert t.subCatId == Some(sub.id);
    assert SubOf(expCats, t) == Some(SubCat(k, sub.name));
    assert SubRow(ptx, expCats, sel, k, v) == SubTotal(k, t.catId, sub.name, v);
  }

  /** The transaction at the first index keyed `k` is the first one contributing to sub-category `k`. */
  lemma FirstContributor(ptx: seq<Txn>, expCats: seq<ExpCat>, sel: Option<string>, k: string)
    requires FirstIndex(ptx, SubKey(expCats, sel), Some(k)) >= 0
    ensures var i := FirstIndex(ptx, SubKey(expCats, sel), Some(k));
            Contributes(expCats, sel, ptx[i]) && ptx[i].subCatId == Some(k) &&
            forall h :: 0 <= h < i ==> !InSub(expCats, sel, k)(ptx[h])
  {
    var i := FirstIndex(ptx, SubKey(expCats, sel), Some(k));
    assert SubKey(expCats, sel)(ptx[i]) == Some(k);
    forall h | 0 <= h < i ensures !InSub(expCats, sel, k)(ptx[h]) {
      assert SubKey(expCats, sel)(ptx[h]) != Some(k);
    }
  }

  /** `Object.values(m)` of the sub-category dictionary. */
  function SubRows(ptx: seq<Txn>, expCats: seq<ExpCat>, sel: Option<string>, keys: seq<string>, totals: map<string, int>): (r: seq<SubTotal>)
    requires forall i :: 0 <= i < |keys| ==> FirstIndex(ptx, SubKey(expCats, sel), Some(keys[i])) >= 0 && keys[i] in totals
    ensures |r| == |keys|
    ensures forall i :: 0 <= i < |keys| ==> r[i] == SubRow(ptx, expCats, sel, keys[i], totals[keys[i]])
  {
    seq(|keys|, i requires 0 <= i < |keys| => SubRow(ptx, expCats, sel, keys[i], totals[keys[i]]))
  }

  /** What the accumulation over the sub-category keys delivers. */
  ghost predicate SubEntries(ptx: seq<Txn>, expCats: seq<ExpCat>, sel: Option<string>, totals: map<string, int>, keys: seq<string>) {
    && Distinct(keys)
    && (forall k :: k in totals <==> k in keys)
    && totals.Keys == KeysOf(ptx, SubKey(expCats, sel))
    && (forall k :: k in totals ==> totals[k] == SumWhere(ptx, SubKey(expCats, sel), k, Amount))
  }

  /** `unsorted` holds the row of each key, in key order. */
  ghost predicate SubRowsOfKeys(ptx: seq<Txn>, expCats: seq<ExpCat>, sel: Option<string>, keys: seq<string>,
                                totals: map<string, int>, unsorted: seq<SubTotal>) {
    && |unsorted| == |keys|
    && (forall i :: 0 <= i < |keys| ==> FirstIndex(ptx, SubKey(expCats, sel), Some(keys[i])) >= 0 && keys[i] in totals)
    && (forall i :: 0 <= i < |keys| ==> unsorted[i] == SubRow(ptx, expCats, sel, keys[i], totals[keys[i]]))
  }

  lemma SubEntriesFound(ptx: seq<Txn>, expCats: seq<ExpCat>, sel: Option<string>, totals: map<string, int>, keys: seq<string>)
    requires SubEntries(ptx, expCats, sel, totals, keys)
    ensures forall i :: 0 <= i < |keys| ==> FirstIndex(ptx, SubKey(expCats, sel), Some(keys[i])) >= 0 && keys[i] in totals
  {
    forall i | 0 <= i < |keys|
      ensures FirstIndex(ptx, SubKey(expCats, sel), Some(keys[i])) >= 0 && keys[i] in totals
    {
      assert keys[i] in totals;
      KeysOfFirstIndex(ptx, SubKey(expCats, sel), keys[i]);
    }
  }

  /** The entry of a sub-category is the sum of the amounts of its contributing transactions. */
  lemma SubEntryIsSubSum(ptx: seq<Txn>, expCats: seq<ExpCat>, sel: Option<string>, k: string)
    ensures SumWhere(ptx, SubKey(expCats, sel), k, Amount) == SumBy(Filter(ptx, InSub(expCats, sel, k)), Amount)
  {
    SumWhereFiltered(ptx, SubKey(expCats, sel), k, Amount);
    FilterCongruence(ptx, KeyIs(SubKey(expCats, sel), Some(k)), InSub(expCats, sel, k));
  }

  /** The sub-category rows of the keys are keyed by those keys and valued by their totals. */
  lemma SubRowsOf(ptx: seq<Txn>, expCats: seq<ExpCat>, sel: Option<string>, keys: seq<string>,
                  totals: map<string, int>, unsorted: seq<SubTotal>)
    requires SubRowsOfKeys(ptx, expCats, sel, keys, totals, unsorted)
    ensures RowsOf(keys, totals, unsorted, SubTotalId, SubAmount)
  {
    forall i | 0 <= i < |keys|
      ensures keys[i] in totals && SubTotalId(unsorted[i]) == keys[i] && SubAmount(unsorted[i]) == totals[keys[i]]
    {
      var r := SubRow(ptx, expCats, sel, keys[i], totals[keys[i]]);
      assert unsorted[i] == r;
    }
  }

  /** Sorting rows built from distinct keys names each sub-category once. */
  lemma SubRowsDistinct(ptx: seq<Txn>, expCats: seq<ExpCat>, sel: Option<string>, totals: map<string, int>, keys: seq<string>,
                        unsorted: seq<SubTotal>, rows: seq<SubTotal>)
    requires SubEntries(ptx, expCats, sel, totals, keys) && SubRowsOfKeys(ptx, expCats, sel, keys, totals, unsorted)
    requires rows == SortDesc(unsorted, SubAmount)
    ensures forall i, j :: 0 <= i < j < |rows| ==> rows[i].subId != rows[j].subId
  {
    SubRowsOf(ptx, expCats, sel, keys, totals, unsorted);
    KeyedRows(keys, totals, unsorted, SubTotalId, SubAmount, rows);
    assert forall i, j :: 0 <= i < j < |rows| ==> SubTotalId(rows[i]) != SubTotalId(rows[j]);
  }

  /** Every contributing transaction's sub-category has a row. */
  lemma SubRowsCover(ptx: seq<Txn>, expCats: seq<ExpCat>, sel: Option<string>, keys: seq<string>, rows: seq<SubTotal>)
    requires forall k :: k in keys ==> exists j :: 0 <= j < |rows| && rows[j].subId == k
    requires forall t :: t in ptx && Contributes(expCats, sel, t) ==> t.subCatId.value in keys
    ensures forall t :: t in ptx && Contributes(expCats, sel, t) ==>
              exists j :: 0 <= j < |rows| && Some(rows[j].subId) == t.subCatId
  {
    forall t | t in ptx && Contributes(expCats, sel, t)
      ensures exists j :: 0 <= j < |rows| && Some(rows[j].subId) == t.subCatId
    {
      var j :| 0 <= j < |rows| && rows[j].subId == t.subCatId.value;
      assert Some(rows[j].subId) == t.subCatId;
    }
  }

  /** The sorted rows carry exactly the keys, each once. */
  lemma SubRowIds(keys: seq<string>, totals: map<string, int>, unsorted: seq<SubTotal>, rows: seq<SubTotal>)
    requires Distinct(keys) && RowsOf(keys, totals, unsorted, SubTotalId, SubAmount)
    requires rows == SortDesc(unsorted, SubAmount)
    ensures forall j :: 0 <= j < |rows| ==> rows[j].subId in keys
    ensures forall k :: k in keys ==> exists j :: 0 <= j < |rows| && rows[j].subId == k
  {
    KeyedRows(keys, totals, unsorted, SubTotalId, SubAmount, rows);
    forall j | 0 <= j < |rows| ensures rows[j].subId in keys {
      assert SubTotalId(rows[j]) == rows[j].subId;
    }
    forall k | k in keys ensures exists j :: 0 <= j < |rows| && rows[j].subId == k {
      var j :| 0 <= j < |rows| && SubTotalId(rows[j]) == k;
      assert rows[j].subId == k;
    }
  }


  /** The accumulated keys are the sub-categories some transaction contributes to. */
  lemma SubKeysAre(ptx: seq<Txn>, expCats: seq<ExpCat>, sel: Option<string>, totals: map<string, int>, keys: seq<string>)
    requires SubEntries(ptx, expCats, sel, totals, keys)
    ensures forall k :: k in keys ==> HasContributor(ptx, expCats, sel, k)
    ensures forall t :: t in ptx && Contributes(expCats, sel, t) ==> t.subCatId.value in keys
  {
    forall k | k in keys ensures HasContributor(ptx, expCats, sel, k) {
      assert k in KeysOf(ptx, SubKey(expCats, sel));
      var t :| t in ptx && SubKey(expCats, sel)(t).Some? && SubKey(expCats, sel)(t).value == k;
      assert InSub(expCats, sel, k)(t);
    }
    forall t | t in ptx && Contributes(expCats, sel, t) ensures t.subCatId.value in keys {
      assert SubKey(expCats, sel)(t) == t.subCatId;
      assert t.subCatId.value in KeysOf(ptx, SubKey(expCats, sel));
    }
  }



  /** Each row, in any order, is its sub-category's row with the sub-category's total. */
  lemma SubRowsContent(ptx: seq<Txn>, expCats: seq<ExpCat>, sel: Option<string>, totals: map<string, int>, keys: seq<string>,
                       unsorted: seq<SubTotal>, rows: seq<SubTotal>)
    requires SubEntries(ptx, expCats, sel, totals, keys) && SubRowsOfKeys(ptx, expCats, sel, keys, totals, unsorted)
    requires rows == SortDesc(unsorted, SubAmount)
    ensures forall j :: 0 <= j < |rows| ==>
              FirstIndex(ptx, SubKey(expCats, sel), Some(rows[j].subId)) >= 0 &&
              rows[j] == SubRow(ptx, expCats, sel, rows[j].subId, SumBy(Filter(ptx, InSub(expCats, sel, rows[j].subId)), Amount))
  {
    SortDescMembers(unsorted, SubAmount);
    forall j | 0 <= j < |rows|
      ensures FirstIndex(ptx, SubKey(expCats, sel), Some(rows[j].subId)) >= 0 &&
              rows[j] == SubRow(ptx, expCats, sel, rows[j].subId, SumBy(Filter(ptx, InSub(expCats, sel, rows[j].subId)), Amount))
    {
      assert rows[j] in unsorted;
      var i :| 0 <= i < |unsorted| && rows[j] == unsorted[i];
      assert keys[i] in totals;
      SubEntryIsSubSum(ptx, expCats, sel, keys[i]);
    }
  }

  /** The rows, in any order, add up to the total of the contributing transactions. */
  lemma SubRowsTotal(ptx: seq<Txn>, expCats: seq<ExpCat>, sel: Option<string>, totals: map<string, int>, keys: seq<string>,
                     unsorted: seq<SubTotal>, rows: seq<SubTotal>)
    requires SubEntries(ptx, expCats, sel, totals, keys) && SubRowsOfKeys(ptx, expCats, sel, keys, totals, unsorted)
    requires rows == SortDesc(unsorted, SubAmount)
    ensures SumBy(rows, SubAmount) == SumBy(Filter(ptx, IsKeyed(SubKey(expCats, sel))), Amount)
  {
    SubRowsOf(ptx, expCats, sel, keys, totals, unsorted);
    KeyedRows(keys, totals, unsorted, SubTotalId, SubAmount, rows);
    assert forall i :: 0 <= i < |keys| ==> totals[keys[i]] == SumWhere(ptx, SubKey(expCats, sel), keys[i], Amount);
    SumOverSums(keys, totals, ptx, SubKey(expCats, sel), Amount);
    assert KeysOf(ptx, SubKey(expCats, sel)) <= set k | k in keys;
    SumsOverTotal(keys, ptx, SubKey(expCats, sel), Amount);
  }

  /**
   * `subCatD`: one row per sub-category that a transaction of the period
   * contributes to (an expense with a sub-category found in its category,
   * of the selected category when one is selected), holding the sum of those
   * transactions' amounts and the category and name seen first; largest
   * first; the amounts add up to the total of the contributing transactions.
   */
  method SubCategoryBreakdown(ptx: seq<Txn>, expCats: seq<ExpCat>, expCatSel: Option<string>) returns (rows: seq<SubTotal>)
    ensures SortedDesc(rows, SubAmount)
    ensures forall i, j :: 0 <= i < j < |rows| ==> rows[i].subId != rows[j].subId
    ensures forall j :: 0 <= j < |rows| ==> HasContributor(ptx, expCats, expCatSel, rows[j].subId)
    ensures forall t :: t in ptx && Contributes(expCats, expCatSel, t) ==>
              exists j :: 0 <= j < |rows| && Some(rows[j].subId) == t.subCatId
    ensures forall j :: 0 <= j < |rows| ==>
              FirstIndex(ptx, SubKey(expCats, expCatSel), Some(rows[j].subId)) >= 0 &&
              rows[j] == SubRow(ptx, expCats, expCatSel, rows[j].subId, SumBy(Filter(ptx, InSub(expCats, expCatSel, rows[j].subId)), Amount))
    ensures SumBy(rows, SubAmount) == SumBy(Filter(ptx, IsKeyed(SubKey(expCats, expCatSel))), Amount)
  {
    var totals, keys := Accumulate(map[], [], ptx, SubKey(expCats, expCatSel), Amount);
    assert SubEntries(ptx, expCats, expCatSel, totals, keys);
    SubEntriesFound(ptx, expCats, expCatSel, totals, keys);
    var unsorted := SubRows(ptx, expCats, expCatSel, keys, totals);
    assert SubRowsOfKeys(ptx, expCats, expCatSel, keys, totals, unsorted);
    rows := SortDesc(unsorted, SubAmount);
    SubRowsDistinct(ptx, expCats, expCatSel, totals, keys, unsorted, rows);
    SubRowsOf(ptx, expCats, expCatSel, keys, totals, unsorted);
    SubKeysAre(ptx, expCats, expCatSel, totals, keys);
    SubRowIds(keys, totals, unsorted, rows);
    SubRowsCover(ptx, expCats, expCatSel, keys, rows);
    SubRowsContent(ptx, expCats, expCatSel, totals, keys, unsorted, rows);
    SubRowsTotal(ptx, expCats, expCatSel, totals, keys, unsorted, rows);
  }

  /**
   * With a category selected whose every expense of the period names a
   * sub-category found in it, the sub-category rows add up to that
   * category's row in `expByCat`.
   */
  lemma SubTotalsReconcile(ptx: seq<Txn>, expCats: seq<ExpCat>, expCatSel: Option<string>)
    requires Truthy(expCatSel)
    requires forall i :: 0 <= i < |ptx| && ptx[i].kind == Expense && ptx[i].catId == expCatSel.value ==>
               Truthy(ptx[i].subCatId) && SubOf(expCats, ptx[i]).Some?
    ensures SumBy(Filter(ptx, IsKeyed(SubKey(expCats, expCatSel))), Amount) ==
            SumBy(Filter(ptx, InCategory(Expense, expCatSel.value)), Amount)
  {
    forall t | t in ptx ensures IsKeyed(SubKey(expCats, expCatSel))(t) == InCategory(Expense, expCatSel.value)(t) {
      var i :| 0 <= i < |ptx| && ptx[i] == t;
    }
    FilterCongruence(ptx, IsKeyed(SubKey(expCats, expCatSel)), InCategory(Expense, expCatSel.value));
  }
}
