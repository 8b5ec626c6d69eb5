/**
 * The store handlers `saveTxn` … `delIC` (src/App.jsx:930-939): the four
 * lists the application keeps in state, and the updates the forms and the
 * delete buttons make to them. The confirmation dialog's answer is a
 * parameter, and a new record arrives with its id already chosen.
 */
module Handlers {
  import opened SeqUtil
  import opened Ledger

  /** The merge of `saveTxn`, `saveIC` and `saveSC`: the new record replaces the old one. */
  function Overwrite<T>(prior: T, x: T): T { x }

  /**
   * The merge of `saveAcc`: `{...old, ...a}`. The account form always sends
   * every field of an account, so the new record wins on each.
   */
  function MergeAccount(prior: Account, a: Account): (r: Account)
    ensures r == a
  {
    Account(a.id, a.name, a.icon, a.color)
  }

  /** The merge of `saveEC`: the new fields over the old record, keeping the old sub-category list. */
  function KeepSub(prior: ExpCat, c: ExpCat): (r: ExpCat)
    ensures r.sub == prior.sub && r.(sub := c.sub) == c
  {
    ExpCat(c.id, c.name, c.icon, c.color, prior.sub)
  }

  /** `txns.some(t => t.catId === id)`. */
  predicate UsesCategory(txns: seq<Txn>, id: string) {
    exists i :: 0 <= i < |txns| && txns[i].catId == id
  }

  /** `txns.some(t => t.subCatId === sid)`: any transaction, whatever its category. */
  predicate UsesSubCategory(txns: seq<Txn>, sid: string) {
    exists i :: 0 <= i < |txns| && txns[i].subCatId == Some(sid)
  }

  /** The elements whose key is not `k`: what `filter(x => x.id !== id)` keeps. */
  function Without<T(!new), K(==)>(s: seq<T>, key: T -> K, k: K): seq<T> {
    Filter(s, Not(KeyIs(key, k)))
  }

  /** `saveSC`'s `map`: the categories with id `pid` get `s` upserted into their sub-category list. */
  function WithSub(cats: seq<ExpCat>, pid: string, s: SubCat): (r: seq<ExpCat>)
    ensures |r| == |cats|
    ensures forall j :: 0 <= j < |cats| && cats[j].id != pid ==> r[j] == cats[j]
    ensures forall j :: 0 <= j < |cats| && cats[j].id == pid ==>
              r[j] == cats[j].(sub := Upsert(cats[j].sub, s, SubCatId, Overwrite))
  {
    seq(|cats|, j requires 0 <= j < |cats| =>
      if cats[j].id == pid then cats[j].(sub := Upsert(cats[j].sub, s, SubCatId, Overwrite)) else cats[j])
  }

  /** `delSC`'s `map`: the categories with id `pid` lose the sub-categories with id `sid`. */
  function WithoutSub(cats: seq<ExpCat>, pid: string, sid: string): (r: seq<ExpCat>)
    ensures |r| == |cats|
    ensures forall j :: 0 <= j < |cats| && cats[j].id != pid ==> r[j] == cats[j]
    ensures forall j :: 0 <= j < |cats| && cats[j].id == pid ==>
              r[j] == cats[j].(sub := Without(cats[j].sub, SubCatId, sid))
  {
    seq(|cats|, j requires 0 <= j < |cats| =>
      if cats[j].id == pid then cats[j].(sub := Without(cats[j].sub, SubCatId, sid)) else cats[j])
  }

  class Store {
    var txns: seq<Txn>
    var accounts: seq<Account>
    var expCats: seq<ExpCat>
    var incCats: seq<IncCat>

    constructor(txns0: seq<Txn>, accounts0: seq<Account>, expCats0: seq<ExpCat>, incCats0: seq<IncCat>)
      ensures txns == txns0 && accounts == accounts0 && expCats == expCats0 && incCats == incCats0
    {
      txns, accounts, expCats, incCats := txns0, accounts0, expCats0, incCats0;
    }

    /** `saveTxn`: replace the transaction with `t`'s id at its index, or append `t`. */
    method SaveTxn(t: Txn)
      modifies this
      ensures txns == Upsert(old(txns), t, TxnId, Overwrite)
      ensures accounts == old(accounts) && expCats == old(expCats) && incCats == old(incCats)
    {
      var i := FirstIndex(txns, TxnId, t.id);
      if i >= 0 {
        txns := txns[i := t];
      } else {
        txns := txns + [t];
      }
    }

    /** `delTxn`: when confirmed, drop the transactions with that id. */
    method DelTxn(id: string, confirmed: bool)
      modifies this
      ensures txns == if confirmed then Without(old(txns), TxnId, id) else old(txns)
      ensures accounts == old(accounts) && expCats == old(expCats) && incCats == old(incCats)
    {
      if confirmed {
        txns := Without(txns, TxnId, id);
      }
    }

    /** `saveAcc`: merge `a` over the account with its id at that index, or append `a`. */
    method SaveAcc(a: Account)
      modifies this
      ensures accounts == Upsert(old(accounts), a, AccountId, MergeAccount)
      ensures txns == old(txns) && expCats == old(expCats) && incCats == old(incCats)
    {
      var i := FirstIndex(accounts, AccountId, a.id);
      if i >= 0 {
        accounts := accounts[i := MergeAccount(accounts[i], a)];
      } else {
        accounts := accounts + [a];
      }
    }

    /** `delAcc`: when confirmed, drop the accounts with that id; the transactions stay. */
    method DelAcc(id: string, confirmed: bool)
      modifies this
      ensures accounts == if confirmed then Without(old(accounts), AccountId, id) else old(accounts)
      ensures txns == old(txns) && expCats == old(expCats) && incCats == old(incCats)
    {
      if confirmed {
        accounts := Without(accounts, AccountId, id);
      }
    }

    /** `saveEC`: merge `c` over the category with its id, keeping that category's sub-categories, or append `c`. */
    method SaveEC(c: ExpCat)
      modifies this
      ensures expCats == Upsert(old(expCats), c, ExpCatId, KeepSub)
      ensures txns == old(txns) && accounts == old(accounts) && incCats == old(incCats)
    {
      var i := FirstIndex(expCats, ExpCatId, c.id);
      if i >= 0 {
        expCats := expCats[i := KeepSub(expCats[i], c)];
      } else {
        expCats := expCats + [c];
      }
    }

    /** `delEC`: refused while a transaction names the category; otherwise drop the categories with that id. */
    method DelEC(id: string) returns (deleted: bool)
      modifies this
      ensures deleted <==> !UsesCategory(old(txns), id)
      ensures expCats == if deleted then Without(old(expCats), ExpCatId, id) else old(expCats)
      ensures txns == old(txns) && accounts == old(accounts) && incCats == old(incCats)
    {
      if UsesCategory(txns, id) {
        return false;
      }
      expCats := Without(expCats, ExpCatId, id);
      return true;
    }

    /** `saveSC`: upsert `s` into the sub-categories of the categories with id `pid`. */
    method SaveSC(pid: string, s: SubCat)
      modifies this
      ensures expCats == WithSub(old(expCats), pid, s)
      ensures txns == old(txns) && accounts == old(accounts) && incCats == old(incCats)
    {
      expCats := WithSub(expCats, pid, s);
    }

    /**
     * `delSC`: refused while any transaction names the sub-category id,
     * whatever its category; otherwise drop it from the categories with id `pid`.
     */
    method DelSC(pid: string, sid: string) returns (deleted: bool)
      modifies this
      ensures deleted <==> !UsesSubCategory(old(txns), sid)
      ensures expCats == if deleted then WithoutSub(old(expCats), pid, sid) else old(expCats)
      ensures txns == old(txns) && accounts == old(accounts) && incCats == old(incCats)
    {
      if UsesSubCategory(txns, sid) {
        return false;
      }
      expCats := WithoutSub(expCats, pid, sid);
      return true;
    }

    /** `saveIC`: replace the income category with `c`'s id at its index, or append `c`. */
    method SaveIC(c: IncCat)
      modifies this
      ensures incCats == Upsert(old(incCats), c, IncCatId, Overwrite)
      ensures txns == old(txns) && accounts == old(accounts) && expCats == old(expCats)
    {
      var i := FirstIndex(incCats, IncCatId, c.id);
      if i >= 0 {
        incCats := incCats[i := c];
      } else {
        incCats := incCats + [c];
      }
    }

    /** `delIC`: refused while a transaction names the category; otherwise drop the categories with that id. */
    method DelIC(id: string) returns (deleted: bool)
      modifies this
      ensures deleted <==> !UsesCategory(old(txns), id)
      ensures incCats == if deleted then Without(old(incCats), IncCatId, id) else old(incCats)
      ensures txns == old(txns) && accounts == old(accounts) && expCats == old(expCats)
    {
      if UsesCategory(txns, id) {
        return false;
      }
      incCats := Without(incCats, IncCatId, id);
      return true;
    }
  }

  // ---------------------------------------------------------------- properties of the updates

  /**
   * After a save that overwrites, the record found by the saved id is the
   * saved record, the other records keep their order, and the list grows
   * only when the id was new.
   */
  lemma SaveOverwrites<T(!new), K>(s: seq<T>, x: T, key: T -> K)
    ensures var r := Upsert(s, x, key, Overwrite);
            && FirstIndex(r, key, key(x)) >= 0 && r[FirstIndex(r, key, key(x))] == x
            && Without(r, key, key(x)) == Without(s, key, key(x))
            && |r| == (if FirstIndex(s, key, key(x)) >= 0 then |s| else |s| + 1)
  {
    UpsertLookup(s, x, key, Overwrite);
    UpsertKeepsOthers(s, x, key, Overwrite);
  }

  /**
   * After `saveEC` the category found by `c`'s id has `c`'s name, icon and
   * colour, and the sub-categories it had before (`c`'s own for a new one).
   */
  lemma SaveECKeepsSub(cats: seq<ExpCat>, c: ExpCat)
    ensures var r := Upsert(cats, c, ExpCatId, KeepSub);
            var i := FirstIndex(cats, ExpCatId, c.id);
            && FirstIndex(r, ExpCatId, c.id) >= 0
            && r[FirstIndex(r, ExpCatId, c.id)] == c.(sub := if i >= 0 then cats[i].sub else c.sub)
  {
    UpsertLookup(cats, c, ExpCatId, KeepSub);
  }

  /** `saveEC` leaves the categories with other ids as they were, in order. */
  lemma SaveECKeepsOthers(cats: seq<ExpCat>, c: ExpCat)
    ensures Without(Upsert(cats, c, ExpCatId, KeepSub), ExpCatId, c.id) == Without(cats, ExpCatId, c.id)
  {
    UpsertKeepsOthers(cats, c, ExpCatId, KeepSub);
  }

  /** A delete keeps, in order, exactly the elements with another key; with no element of that key it changes nothing. */
  lemma DeleteExactly<T(!new), K>(s: seq<T>, more: seq<T>, key: T -> K, k: K)
    ensures forall x :: x in Without(s, key, k) <==> x in s && key(x) != k
    ensures forall x :: x in s && key(x) != k ==> multiset(Without(s, key, k))[x] == multiset(s)[x]
    ensures (forall i :: 0 <= i < |s| ==> key(s[i]) != k) ==> Without(s, key, k) == s
    ensures Without(s + more, key, k) == Without(s, key, k) + Without(more, key, k)
  {
    FilterConcat(s, more, Not(KeyIs(key, k)));
    FilterMembers(s, Not(KeyIs(key, k)));
    FilterCount(s, Not(KeyIs(key, k)));
    if forall i :: 0 <= i < |s| ==> key(s[i]) != k {
      FilterAll(s, Not(KeyIs(key, k)));
    }
  }

  /** After `saveSC` every category with id `pid` finds `s` by its id; nothing else changes. */
  lemma SaveSCFinds(cats: seq<ExpCat>, pid: string, s: SubCat, j: int)
    requires 0 <= j < |cats| && cats[j].id == pid
    ensures var sub := WithSub(cats, pid, s)[j].sub;
            FirstIndex(sub, SubCatId, s.id) >= 0 && sub[FirstIndex(sub, SubCatId, s.id)] == s
    ensures WithSub(cats, pid, s)[j] == cats[j].(sub := WithSub(cats, pid, s)[j].sub)
  {
    UpsertLookup(cats[j].sub, s, SubCatId, Overwrite);
  }
}
