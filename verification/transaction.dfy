/**
 * The transaction record (src/models/Transaction.ts) and the amount arithmetic
 * every consumer shares: an amount is carried as a string and read with
 * `Number(amount) || 0` wherever it is added up.
 */
module TransactionModel {
  import opened Seqs
  import opened JsText

  /** The closed choice `"income" | "expense"`. */
  datatype TxType = Income | Expense

  /** Exactly the five declared fields; `id` is the key used for update and removal. */
  datatype Transaction = Transaction(
    id: string,
    date: string,
    transactionType: TxType,
    transactionAmount: string,
    transactionCategory: string)

  /** The amount as the totals and the chart read it: `Number(amount) || 0`. */
  function AmountOf(t: Transaction): real
  {
    NumberOrZero(t.transactionAmount)
  }

  /** Sum of the amounts of the transactions selected by `p`, accumulated first to last. */
  function SumIf(s: seq<Transaction>, p: Transaction -> bool): real
  {
    if s == [] then 0.0
    else SumIf(s[..|s| - 1], p) + (if p(s[|s| - 1]) then AmountOf(s[|s| - 1]) else 0.0)
  }

  function Everything(): Transaction -> bool
  {
    t => true
  }

  /** Sum of all amounts. */
  function SumAmounts(s: seq<Transaction>): real
  {
    SumIf(s, Everything())
  }

  lemma {:induction false} SumIfConcat(a: seq<Transaction>, b: seq<Transaction>, p: Transaction -> bool)
    ensures SumIf(a + b, p) == SumIf(a, p) + SumIf(b, p)
  {
    if b == [] {
      assert a + b == a;
    } else {
      var n := |b| - 1;
      assert (a + b)[..|a + b| - 1] == a + b[..n];
      SumIfConcat(a, b[..n], p);
    }
  }

  /** Peeling off the first element. */
  lemma SumIfCons(x: Transaction, s: seq<Transaction>, p: Transaction -> bool)
    ensures SumIf([x] + s, p) == (if p(x) then AmountOf(x) else 0.0) + SumIf(s, p)
  {
    SumIfConcat([x], s, p);
    assert [x][..0] == [];
  }

  /** Appending one element adds its amount when it is selected. */
  lemma SumIfSnoc(s: seq<Transaction>, x: Transaction, p: Transaction -> bool)
    ensures SumIf(s + [x], p) == SumIf(s, p) + (if p(x) then AmountOf(x) else 0.0)
  {
    assert (s + [x])[..|s|] == s;
  }

  lemma {:induction false} SumIfNoneSelected(s: seq<Transaction>, p: Transaction -> bool)
    requires forall i :: 0 <= i < |s| ==> !p(s[i])
    ensures SumIf(s, p) == 0.0
  {
    if s != [] {
      SumIfNoneSelected(s[..|s| - 1], p);
    }
  }

  /** Selects the counted transactions whose key is `k`. */
  function KeyedBy(keyOf: Transaction -> string, counted: Transaction -> bool, k: string): Transaction -> bool
  {
    t => counted(t) && keyOf(t) == k
  }

  /** Some counted transaction of `s` has key `k`. */
  predicate HasKey(s: seq<Transaction>, keyOf: Transaction -> string, counted: Transaction -> bool, k: string)
  {
    exists i :: 0 <= i < |s| && counted(s[i]) && keyOf(s[i]) == k
  }

  /**
   * The record a `forEach` builds by adding the amount of each counted
   * transaction to the entry for its key, visiting `s` first to last.
   */
  function TotalsBy(s: seq<Transaction>, keyOf: Transaction -> string, counted: Transaction -> bool): map<string, real>
  {
    if s == [] then map[]
    else
      var m := TotalsBy(s[..|s| - 1], keyOf, counted);
      var t := s[|s| - 1];
      var k := keyOf(t);
      if counted(t) then m[k := (if k in m then m[k] else 0.0) + AmountOf(t)] else m
  }

  /** The keys of the counted transactions in visiting order, repeats included. */
  function KeysOf(s: seq<Transaction>, keyOf: Transaction -> string, counted: Transaction -> bool): seq<string>
  {
    if s == [] then []
    else KeysOf(s[..|s| - 1], keyOf, counted) + (if counted(s[|s| - 1]) then [keyOf(s[|s| - 1])] else [])
  }

  /** One more transaction: its amount goes to its own key's entry, and its key is listed last. */
  lemma TotalsBySnoc(p: seq<Transaction>, x: Transaction, keyOf: Transaction -> string, counted: Transaction -> bool)
    ensures var m := TotalsBy(p, keyOf, counted);
            var k := keyOf(x);
            TotalsBy(p + [x], keyOf, counted)
            == if counted(x) then m[k := (if k in m then m[k] else 0.0) + AmountOf(x)] else m
    ensures KeysOf(p + [x], keyOf, counted)
         == KeysOf(p, keyOf, counted) + (if counted(x) then [keyOf(x)] else [])
  {
    assert (p + [x])[..|p|] == p;
  }

  /** The first-arrival order of keys gains the visited key exactly when it had no entry yet. */
  lemma KeyArrivalSnoc(p: seq<Transaction>, x: Transaction, keyOf: Transaction -> string, counted: Transaction -> bool)
    ensures var k := keyOf(x);
            FirstAppearances(KeysOf(p + [x], keyOf, counted))
            == if counted(x) && k !in TotalsBy(p, keyOf, counted)
               then FirstAppearances(KeysOf(p, keyOf, counted)) + [k]
               else FirstAppearances(KeysOf(p, keyOf, counted))
  {
    var ks := KeysOf(p, keyOf, counted);
    var k := keyOf(x);
    TotalsBySnoc(p, x, keyOf, counted);
    if counted(x) {
      assert KeysOf(p + [x], keyOf, counted) == ks + [k];
      TotalsByKeys(p, keyOf, counted, k);
      assert k in TotalsBy(p, keyOf, counted) <==> k in ks;
      FirstAppearancesSnoc(ks, k);
    } else {
      assert KeysOf(p + [x], keyOf, counted) == ks;
    }
  }

  lemma HasKeySnoc(p: seq<Transaction>, x: Transaction, keyOf: Transaction -> string, counted: Transaction -> bool, k: string)
    ensures HasKey(p + [x], keyOf, counted, k) <==> HasKey(p, keyOf, counted, k) || (counted(x) && keyOf(x) == k)
  {
    var s := p + [x];
    if HasKey(p, keyOf, counted, k) {
      var i :| 0 <= i < |p| && counted(p[i]) && keyOf(p[i]) == k;
      assert s[i] == p[i];
    }
    if counted(x) && keyOf(x) == k {
      assert s[|p|] == x;
    }
    if HasKey(s, keyOf, counted, k) {
      var i :| 0 <= i < |s| && counted(s[i]) && keyOf(s[i]) == k;
      if i < |p| {
        assert p[i] == s[i];
      }
    }
  }

  /** The record has an entry for a key exactly when some counted transaction carries it, and the key list agrees. */
  lemma {:induction false} TotalsByKeys(s: seq<Transaction>, keyOf: Transaction -> string, counted: Transaction -> bool, k: string)
    ensures k in TotalsBy(s, keyOf, counted) <==> HasKey(s, keyOf, counted, k)
    ensures k in KeysOf(s, keyOf, counted) <==> HasKey(s, keyOf, counted, k)
  {
    if s != [] {
      var n := |s| - 1;
      var p, x := s[..n], s[n];
      assert s == p + [x];
      TotalsBySnoc(p, x, keyOf, counted);
      HasKeySnoc(p, x, keyOf, counted, k);
      TotalsByKeys(p, keyOf, counted, k);
    }
  }

  /** Each entry is the sum of the amounts of the counted transactions with that key. */
  lemma {:induction false} TotalsByValue(s: seq<Transaction>, keyOf: Transaction -> string, counted: Transaction -> bool, k: string)
    requires k in TotalsBy(s, keyOf, counted)
    ensures TotalsBy(s, keyOf, counted)[k] == SumIf(s, KeyedBy(keyOf, counted, k))
  {
    var n := |s| - 1;
    var p, x := s[..n], s[n];
    assert s == p + [x];
    var m := TotalsBy(p, keyOf, counted);
    TotalsBySnoc(p, x, keyOf, counted);
    SumIfSnoc(p, x, KeyedBy(keyOf, counted, k));
    if k in m {
      TotalsByValue(p, keyOf, counted, k);
    } else {
      TotalsByKeys(p, keyOf, counted, k);
      assert forall i :: 0 <= i < |p| ==> !KeyedBy(keyOf, counted, k)(p[i]);
      SumIfNoneSelected(p, KeyedBy(keyOf, counted, k));
    }
  }

  /** The sum of the values of a map, taken in any order. */
  ghost function MapSum(m: map<string, real>): real
    decreases |m|
  {
    if m == map[] then 0.0
    else
      var k :| k in m;
      assert |m - {k}| < |m| by {
        assert m.Keys == (m - {k}).Keys + {k};
      }
      m[k] + MapSum(m - {k})
  }

  /** Any key may be taken out first: the sum does not depend on the order. */
  lemma MapSumRemove(m: map<string, real>, k: string)
    requires k in m
    ensures MapSum(m) == m[k] + MapSum(m - {k})
    decreases |m|
  {
    var j :| j in m && MapSum(m) == m[j] + MapSum(m - {j});
    if j != k {
      var mj, mk := m - {j}, m - {k};
      assert |mj| < |m| by { assert m.Keys == mj.Keys + {j}; }
      assert |mk| < |m| by { assert m.Keys == mk.Keys + {k}; }
      MapSumRemove(mj, k);
      MapSumRemove(mk, j);
      assert mj - {k} == mk - {j};
    }
  }

  lemma MapSumUpdate(m: map<string, real>, k: string, v: real)
    ensures MapSum(m[k := v]) == MapSum(m) - (if k in m then m[k] else 0.0) + v
  {
    var u := m[k := v];
    MapSumRemove(u, k);
    if k in m {
      MapSumRemove(m, k);
      assert u - {k} == m - {k};
    } else {
      assert u - {k} == m;
    }
  }

  /** The entries together add up to the sum over every counted transaction. */
  lemma {:induction false} TotalsBySum(s: seq<Transaction>, keyOf: Transaction -> string, counted: Transaction -> bool)
    ensures MapSum(TotalsBy(s, keyOf, counted)) == SumIf(s, counted)
  {
    if s != [] {
      var n := |s| - 1;
      var p, x := s[..n], s[n];
      assert s == p + [x];
      var m := TotalsBy(p, keyOf, counted);
      var k := keyOf(x);
      TotalsBySnoc(p, x, keyOf, counted);
      SumIfSnoc(p, x, counted);
      TotalsBySum(p, keyOf, counted);
      if counted(x) {
        MapSumUpdate(m, k, (if k in m then m[k] else 0.0) + AmountOf(x));
      }
    }
  }

  predicate UniqueIds(s: seq<Transaction>)
  {
    forall i, j :: 0 <= i < j < |s| ==> s[i].id != s[j].id
  }

  predicate HasId(s: seq<Transaction>, id: string)
  {
    exists i :: 0 <= i < |s| && s[i].id == id
  }
}
