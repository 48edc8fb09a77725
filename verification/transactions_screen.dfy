/**
 * The derived view of src/screens/TransactionsScreen.tsx: the effect that
 * filters, sorts, pages and totals the store's list, the infinite-scroll
 * `loadMore`, the category list offered by the filter modal, and the sort
 * toggle.
 */
module TransactionsScreen {
  import opened Seqs
  import opened JsText
  import opened Sorting
  import opened TransactionModel
  import opened TransactionsContext
  import Api = TransactionsApi

  const PageSize: nat := 5
  const AllCategory := "All"
  const Uncategorized := "Uncategorized"

  datatype SortOrder = Desc | Asc

  function Min(a: int, b: int): int
  {
    if a <= b then a else b
  }

  /** `toggleSort`: desc becomes asc and asc becomes desc. */
  function Toggled(o: SortOrder): (r: SortOrder)
    ensures r != o
  {
    if o == Desc then Asc else Desc
  }

  lemma ToggleTwiceIsIdentity(o: SortOrder)
    ensures Toggled(Toggled(o)) == o
  {
  }

  function CategoryIs(cat: string): Transaction -> bool
  {
    (t: Transaction) => t.transactionCategory == cat
  }

  /** The category filter: everything under "All", otherwise an exact, case-sensitive match. */
  function Filtered(txs: seq<Transaction>, selected: string): (r: seq<Transaction>)
    ensures selected == AllCategory ==> r == txs
    ensures selected != AllCategory ==> forall i :: 0 <= i < |r| ==> r[i].transactionCategory == selected
  {
    if selected == AllCategory then txs
    else
      var r := Filter(txs, CategoryIs(selected));
      assert forall i :: 0 <= i < |r| ==> r[i] in r;
      r
  }

  /** The filter keeps every occurrence of each matching transaction and nothing else. */
  lemma FilteredCount(txs: seq<Transaction>, selected: string, t: Transaction)
    ensures multiset(Filtered(txs, selected))[t]
         == if selected == AllCategory || t.transactionCategory == selected then multiset(txs)[t] else 0
  {
    if selected != AllCategory {
      FilterCount(txs, CategoryIs(selected), t);
    }
  }

  /**
   * The effect's sort key: the time of an undeclared `transaction_date` field
   * when a row carries one (`datedAt`), otherwise `Number(id)`.
   */
  function EffectKey(datedAt: Transaction -> Option<int>): Transaction -> real
  {
    (t: Transaction) =>
      match datedAt(t)
      case Some(ms) => ms as real
      case None => NumberOrZero(t.id)
  }

  /** `[...filtered].sort(...)`: a sorted copy, newest first under `Desc`. */
  function EffectOrder(filtered: seq<Transaction>, order: SortOrder, datedAt: Transaction -> Option<int>): (r: seq<Transaction>)
    ensures multiset(r) == multiset(filtered)
    ensures SortedBy(r, EffectKey(datedAt), order == Desc)
  {
    SortBy(filtered, EffectKey(datedAt), order == Desc)
  }

  /** `sortedFiltered.slice(0, PAGE_SIZE)`. */
  function FirstPage(sorted: seq<Transaction>): (r: seq<Transaction>)
    ensures |r| == Min(PageSize, |sorted|)
    ensures r <= sorted
  {
    sorted[..Min(PageSize, |sorted|)]
  }

  /** `t.transaction_category || "Uncategorized"`. */
  function CategoryKey(t: Transaction): (r: string)
    ensures r != ""
  {
    if t.transactionCategory == "" then Uncategorized else t.transactionCategory
  }

  /** The `totals` record after the `forEach` has visited every element of `s`. */
  function CategoryTotals(s: seq<Transaction>): map<string, real>
  {
    TotalsBy(s, CategoryKey, Everything())
  }

  predicate HasCategoryKey(s: seq<Transaction>, c: string)
  {
    HasKey(s, CategoryKey, Everything(), c)
  }

  function KeyedAs(c: string): Transaction -> bool
  {
    KeyedBy(CategoryKey, Everything(), c)
  }

  /**
   * Each category key present in the list has an entry and no other key does;
   * each entry is the sum of that category's amounts; and the entries add up
   * to the sum of all amounts.
   */
  lemma CategoryTotalsSpec(s: seq<Transaction>)
    ensures forall c :: c in CategoryTotals(s) <==> HasCategoryKey(s, c)
    ensures forall c :: c in CategoryTotals(s) ==> CategoryTotals(s)[c] == SumIf(s, KeyedAs(c))
    ensures MapSum(CategoryTotals(s)) == SumAmounts(s)
  {
    forall c ensures c in CategoryTotals(s) <==> HasCategoryKey(s, c) {
      TotalsByKeys(s, CategoryKey, Everything(), c);
    }
    forall c | c in CategoryTotals(s) ensures CategoryTotals(s)[c] == SumIf(s, KeyedAs(c)) {
      TotalsByValue(s, CategoryKey, Everything(), c);
    }
    TotalsBySum(s, CategoryKey, Everything());
  }

  lemma {:induction false} SumIfInsert(x: Transaction, s: seq<Transaction>, key: Transaction -> real, desc: bool, p: Transaction -> bool)
    ensures SumIf(Insert(x, s, key, desc), p) == SumIf([x] + s, p)
  {
    if s != [] && !InOrder(key(x), key(s[0]), desc) {
      SumIfInsert(x, s[1..], key, desc, p);
      SumIfCons(s[0], Insert(x, s[1..], key, desc), p);
      SumIfCons(x, s[1..], p);
      SumIfCons(x, s, p);
      SumIfCons(s[0], s[1..], p);
      assert s == [s[0]] + s[1..];
    }
  }

  /** Sorting does not change any sum: totals over the sorted copy are totals over the filtered list. */
  lemma {:induction false} SumIfSorted(s: seq<Transaction>, key: Transaction -> real, desc: bool, p: Transaction -> bool)
    ensures SumIf(SortBy(s, key, desc), p) == SumIf(s, p)
  {
    if s != [] {
      SumIfSorted(s[1..], key, desc, p);
      SumIfInsert(s[0], SortBy(s[1..], key, desc), key, desc, p);
      SumIfCons(s[0], SortBy(s[1..], key, desc), p);
      SumIfCons(s[0], s[1..], p);
      assert s == [s[0]] + s[1..];
    }
  }

  /** The sorted copy has the same category keys, category sums and grand total as the list it sorts. */
  lemma SortKeepsTotals(s: seq<Transaction>, key: Transaction -> real, desc: bool, c: string)
    ensures HasCategoryKey(SortBy(s, key, desc), c) <==> HasCategoryKey(s, c)
    ensures SumIf(SortBy(s, key, desc), KeyedAs(c)) == SumIf(s, KeyedAs(c))
    ensures SumAmounts(SortBy(s, key, desc)) == SumAmounts(s)
  {
    var sorted := SortBy(s, key, desc);
    SumIfSorted(s, key, desc, KeyedAs(c));
    if HasCategoryKey(s, c) {
      var i :| 0 <= i < |s| && Everything()(s[i]) && CategoryKey(s[i]) == c;
      assert s[i] in multiset(sorted);
    }
    if HasCategoryKey(sorted, c) {
      var i :| 0 <= i < |sorted| && Everything()(sorted[i]) && CategoryKey(sorted[i]) == c;
      assert sorted[i] in multiset(s);
    }
    SumIfSorted(s, key, desc, Everything());
  }

  /** Totals taken over the sorted copy are the totals of the list it sorts. */
  lemma TotalsOfSortedCopy(s: seq<Transaction>, key: Transaction -> real, desc: bool)
    ensures CategoryTotals(SortBy(s, key, desc)) == CategoryTotals(s)
    ensures SumAmounts(SortBy(s, key, desc)) == SumAmounts(s)
  {
    var sorted := SortBy(s, key, desc);
    CategoryTotalsSpec(s);
    CategoryTotalsSpec(sorted);
    forall c
      ensures c in CategoryTotals(sorted) <==> c in CategoryTotals(s)
      ensures c in CategoryTotals(s) ==> CategoryTotals(sorted)[c] == CategoryTotals(s)[c]
    {
      SortKeepsTotals(s, key, desc, c);
    }
    SortKeepsTotals(s, key, desc, AllCategory);
  }

  /** Sorting before totalling changes neither the record nor the grand total. */
  lemma EffectOrderKeepsTotals(filtered: seq<Transaction>, order: SortOrder, datedAt: Transaction -> Option<int>)
    ensures CategoryTotals(EffectOrder(filtered, order, datedAt)) == CategoryTotals(filtered)
    ensures SumAmounts(EffectOrder(filtered, order, datedAt)) == SumAmounts(filtered)
  {
    TotalsOfSortedCopy(filtered, EffectKey(datedAt), order == Desc);
  }


  /** The `forEach` of the effect: per-category totals and the running grand total. */
  method ComputeTotals(s: seq<Transaction>) returns (totals: map<string, real>, sum: real)
    ensures totals == CategoryTotals(s) && sum == SumAmounts(s)
    ensures sum == MapSum(totals)
  {
    totals := map[];
    sum := 0.0;
    var i := 0;
    while i < |s|
      invariant i <= |s|
      invariant totals == CategoryTotals(s[..i])
      invariant sum == SumAmounts(s[..i])
    {
      var t := s[i];
      var cat := CategoryKey(t);
      var amount := AmountOf(t);
      assert s[..i + 1] == s[..i] + [t];
      TotalsBySnoc(s[..i], t, CategoryKey, Everything());
      SumIfSnoc(s[..i], t, Everything());
      totals := totals[cat := (if cat in totals then totals[cat] else 0.0) + amount];
      sum := sum + amount;
      i := i + 1;
    }
    assert s[..i] == s;
    TotalsBySum(s, CategoryKey, Everything());
  }

  /**
   * The names a plain object `{}` already answers through `Object.prototype`:
   * reading one of them from `totals` before it has an entry of its own gives a
   * function, or for `__proto__` the prototype object, instead of `undefined`.
   */
  const InheritedNames: set<string> := {
    "constructor", "hasOwnProperty", "isPrototypeOf", "propertyIsEnumerable",
    "toString", "toLocaleString", "valueOf", "__proto__",
    "__defineGetter__", "__defineSetter__", "__lookupGetter__", "__lookupSetter__"}

  const ProtoName := "__proto__"

  /** An own property of the `totals` object: a number, or the string `+` builds from an inherited function. */
  datatype Entry = Amount(value: real) | Concatenated

  /**
   * `totals[cat] = (totals[cat] || 0) + amount` on the plain object, as written.
   * An entry of its own adds up as a number (or stays a string). An inherited
   * function is truthy, so `+` concatenates it with the amount into a string.
   * For `__proto__` the read gives the prototype and the write of the
   * resulting string is ignored by the `__proto__` setter, so no entry appears.
   */
  function ObjectStep(totals: map<string, Entry>, cat: string, amount: real): map<string, Entry>
  {
    if cat == ProtoName then totals
    else if cat in totals then
      totals[cat := match totals[cat] case Amount(v) => Amount(v + amount) case Concatenated => Concatenated]
    else if cat in InheritedNames then totals[cat := Concatenated]
    else totals[cat := Amount(amount)]
  }

  /** The `totals` object after the `forEach` has visited every element of `s`, as written. */
  function ObjectTotals(s: seq<Transaction>): map<string, Entry>
  {
    if s == [] then map[]
    else
      var t := s[|s| - 1];
      ObjectStep(ObjectTotals(s[..|s| - 1]), CategoryKey(t), AmountOf(t))
  }

  /** No category key of `s` is a name the prototype answers. */
  predicate OwnKeysOnly(s: seq<Transaction>)
  {
    forall i :: 0 <= i < |s| ==> CategoryKey(s[i]) !in InheritedNames
  }

  /**
   * While no category is named after a member of `Object.prototype`, the object
   * as written holds exactly the entries of the dictionary `CategoryTotals`.
   */
  lemma {:induction false} ObjectTotalsAgree(s: seq<Transaction>)
    requires OwnKeysOnly(s)
    ensures forall k :: k in ObjectTotals(s) <==> k in CategoryTotals(s)
    ensures forall k :: k in ObjectTotals(s) ==> ObjectTotals(s)[k] == Amount(CategoryTotals(s)[k])
  {
    if s != [] {
      var p := s[..|s| - 1];
      var t := s[|s| - 1];
      assert OwnKeysOnly(p) by {
        forall i | 0 <= i < |p| ensures CategoryKey(p[i]) !in InheritedNames {
          assert p[i] == s[i];
        }
      }
      ObjectTotalsAgree(p);
      assert s == p + [t];
      TotalsBySnoc(p, t, CategoryKey, Everything());
      assert CategoryKey(t) != ProtoName;
    }
  }

  /**
   * A transaction in the category "__proto__" gets no entry, yet its amount is
   * still added to `sum`: the entries no longer add up to the grand total.
   */
  lemma ProtoCategoryDropped(t: Transaction)
    requires t.transactionCategory == ProtoName
    ensures ObjectTotals([t]) == map[]
    ensures SumAmounts([t]) == AmountOf(t)
  {
    assert ObjectTotals([t]) == map[] by {
      assert [t][..0] == [];
    }
    assert SumAmounts([t]) == AmountOf(t) by {
      SumIfSnoc([], t, Everything());
      assert [] + [t] == [t];
    }
  }

  /** With an amount of 10 the grand total is 10 while the object has no entry at all. */
  lemma ProtoCategoryWitness(t: Transaction)
    requires t.transactionCategory == ProtoName && t.transactionAmount == "10"
    ensures ObjectTotals([t]) == map[] && SumAmounts([t]) == 10.0
    ensures CategoryTotals([t]) == map[ProtoName := 10.0]
  {
    assert ParseNumber("10") == Some(10.0) by {
      assert AllDigits("10");
      ParseDigits("10");
    }
    assert AmountOf(t) == 10.0;
    ProtoCategoryDropped(t);
    TotalsBySnoc([], t, CategoryKey, Everything());
    assert [] + [t] == [t];
  }

  /**
   * A category named after an inherited method (say "constructor" or
   * "toString") gets a string entry, not a number.
   */
  lemma InheritedCategoryConcatenated(t: Transaction)
    requires t.transactionCategory in InheritedNames && t.transactionCategory != ProtoName
    ensures ObjectTotals([t]) == map[t.transactionCategory := Concatenated]
  {
    assert [t][..0] == [];
  }

  /** `transactions.map(t => t.transaction_category)`. */
  function CategoryNames(txs: seq<Transaction>): (r: seq<string>)
    ensures |r| == |txs| && forall i :: 0 <= i < |txs| ==> r[i] == txs[i].transactionCategory
  {
    seq(|txs|, i requires 0 <= i < |txs| => txs[i].transactionCategory)
  }

  function NonEmpty(): string -> bool
  {
    (c: string) => c != ""
  }

  /** The non-empty categories, each once, in the order of the transactions that first carry them. */
  function DistinctCategories(txs: seq<Transaction>): seq<string>
  {
    FirstAppearances(Filter(CategoryNames(txs), NonEmpty()))
  }

  lemma DistinctCategoriesCover(txs: seq<Transaction>)
    ensures forall i :: 0 <= i < |txs| && txs[i].transactionCategory != "" ==> txs[i].transactionCategory in DistinctCategories(txs)
  {
    var names := CategoryNames(txs);
    forall i | 0 <= i < |txs| && txs[i].transactionCategory != "" ensures txs[i].transactionCategory in DistinctCategories(txs) {
      FilterMember(names, NonEmpty(), names[i]);
      FirstAppearancesMember(Filter(names, NonEmpty()), names[i]);
    }
  }

  lemma DistinctCategoriesOccur(txs: seq<Transaction>)
    ensures forall j :: 0 <= j < |DistinctCategories(txs)| ==>
      DistinctCategories(txs)[j] != "" && exists i :: 0 <= i < |txs| && txs[i].transactionCategory == DistinctCategories(txs)[j]
  {
    var names := CategoryNames(txs);
    var distinct := DistinctCategories(txs);
    forall j | 0 <= j < |distinct| ensures distinct[j] != "" && exists i :: 0 <= i < |txs| && txs[i].transactionCategory == distinct[j] {
      FilterMember(names, NonEmpty(), distinct[j]);
      var i :| 0 <= i < |names| && names[i] == distinct[j];
    }
  }

  lemma DistinctCategoriesOrdered(txs: seq<Transaction>)
    ensures forall a, b :: 0 <= a < b < |DistinctCategories(txs)| ==>
      IndexOf(CategoryNames(txs), DistinctCategories(txs)[a]) < IndexOf(CategoryNames(txs), DistinctCategories(txs)[b])
  {
    var names := CategoryNames(txs);
    var nonEmpty := Filter(names, NonEmpty());
    var distinct := DistinctCategories(txs);
    forall a, b | 0 <= a < b < |distinct| ensures IndexOf(names, distinct[a]) < IndexOf(names, distinct[b]) {
      FirstAppearancesOrdered(nonEmpty, a, b);
      FilterKeepsFirstOccurrenceOrder(names, NonEmpty(), distinct[a], distinct[b]);
    }
  }

  /**
   * The category list of the filter modal: "All", then each non-empty category
   * once, in the order of the transactions that first carry them.
   */
  function Categories(txs: seq<Transaction>): (r: seq<string>)
    ensures |r| >= 1 && r[0] == AllCategory
    ensures NoDups(r[1..])
    ensures forall i :: 0 <= i < |txs| && txs[i].transactionCategory != "" ==> txs[i].transactionCategory in r[1..]
    ensures forall j :: 1 <= j < |r| ==> r[j] != "" && exists i :: 0 <= i < |txs| && txs[i].transactionCategory == r[j]
    ensures forall a, b :: 1 <= a < b < |r| ==> IndexOf(CategoryNames(txs), r[a]) < IndexOf(CategoryNames(txs), r[b])
  {
    var distinct := DistinctCategories(txs);
    var r := [AllCategory] + distinct;
    assert r[1..] == distinct;
    DistinctCategoriesCover(txs);
    DistinctCategoriesOccur(txs);
    DistinctCategoriesOrdered(txs);
    assert forall j :: 1 <= j < |r| ==> r[j] == distinct[j - 1];
    r
  }

  /** `loadMore`'s ordering: always by `date`, newest first, whatever the sort toggle says. */
  function DateKey(timeOf: string -> int): Transaction -> real
  {
    (t: Transaction) => timeOf(t.date) as real
  }

  function LoadMoreOrder(txs: seq<Transaction>, selected: string, timeOf: string -> int): (r: seq<Transaction>)
    ensures multiset(r) == multiset(Filtered(txs, selected))
    ensures SortedBy(r, DateKey(timeOf), true)
  {
    SortBy(Filtered(txs, selected), DateKey(timeOf), true)
  }

  /** The append step of `loadMore`: the next slice from the current length, if any is left. */
  function LoadMorePage(visible: seq<Transaction>, sorted: seq<Transaction>): (r: seq<Transaction>)
    ensures visible <= r
    ensures |visible| < |sorted| ==> |r| == |visible| + Min(PageSize, |sorted| - |visible|)
    ensures |visible| >= |sorted| ==> r == visible
    ensures forall i :: |visible| <= i < |r| ==> r[i] == sorted[i]
  {
    var start := |visible|;
    if start < |sorted| then visible + sorted[start..Min(start + PageSize, |sorted|)] else visible
  }

  /**
   * When the visible list really is a prefix of the order `loadMore` uses, each
   * step shows the next page with no gap and no repeat.
   */
  lemma PagingWithoutGaps(sorted: seq<Transaction>, k: nat)
    requires k <= |sorted|
    ensures LoadMorePage(sorted[..k], sorted) == sorted[..Min(k + PageSize, |sorted|)]
  {
    if k < |sorted| {
      assert sorted[..k] + sorted[k..Min(k + PageSize, |sorted|)] == sorted[..Min(k + PageSize, |sorted|)];
    }
  }

  function NoExtraDate(): Transaction -> Option<int>
  {
    (t: Transaction) => None
  }

  /**
   * Rows stored oldest first, with ids that read as increasing creation times
   * and one shared date, as a fetched list may be. Rows the app adds itself
   * are stored newest first instead (`SameDayNewestStored`).
   */
  predicate SameDayOldestFirst(store: seq<Transaction>)
  {
    (forall i, j :: 0 <= i < j < |store| ==> NumberOrZero(store[i].id) < NumberOrZero(store[j].id))
    && (forall i :: 0 <= i < |store| ==> store[i].date == store[0].date)
  }

  /** With no other date, newest first is storage order reversed. */
  lemma SameDayNewestFirst(store: seq<Transaction>)
    requires SameDayOldestFirst(store)
    ensures EffectOrder(store, Desc, NoExtraDate()) == Reverse(store)
  {
    SortAgainstOrderReverses(store, EffectKey(NoExtraDate()), true);
  }

  /** Paging storage order after a first page taken from the reversed order. */
  lemma ReversedThenStoragePaging(store: seq<Transaction>)
    requires |store| == 6
    requires forall i :: 1 <= i < 6 ==> store[i] != store[0]
    ensures var next := LoadMorePage(FirstPage(Reverse(store)), store);
            |next| == 6 && next[5] == next[0] && store[0] !in next
  {
    var page := FirstPage(Reverse(store));
    var next := LoadMorePage(page, store);
    assert next == page + [store[5]];
    forall k | 0 <= k < 6 ensures next[k] != store[0] {
      if k < 5 {
        assert next[k] == store[5 - k];
      }
    }
  }

  /**
   * The effect shows the first page newest-first by id, but `loadMore` re-sorts
   * by date; with one shared date that order is the storage order, so for six
   * rows stored oldest first the appended slice repeats the first visible
   * transaction and the oldest one is never shown.
   */
  lemma PagingCanRepeatAndSkip(store: seq<Transaction>, timeOf: string -> int)
    requires |store| == 6 && SameDayOldestFirst(store)
    ensures var page := FirstPage(EffectOrder(Filtered(store, AllCategory), Desc, NoExtraDate()));
            var next := LoadMorePage(page, LoadMoreOrder(store, AllCategory, timeOf));
            |next| == 6 && next[5] == next[0] && store[0] !in next
  {
    assert Filtered(store, AllCategory) == store;
    assert FirstPage(EffectOrder(store, Desc, NoExtraDate())) == FirstPage(Reverse(store)) by {
      SameDayNewestFirst(store);
    }
    assert LoadMoreOrder(store, AllCategory, timeOf) == store by {
      assert SortedBy(store, DateKey(timeOf), true);
      SortSortedIsIdentity(store, DateKey(timeOf), true);
    }
    assert forall i :: 1 <= i < 6 ==> store[i] != store[0];
    ReversedThenStoragePaging(store);
  }

  /** Rows stored newest first, as the reducer's ADD leaves them: ids read as non-increasing times, one shared date. */
  predicate SameDayNewestStored(store: seq<Transaction>)
  {
    (forall i, j :: 0 <= i < j < |store| ==> NumberOrZero(store[i].id) >= NumberOrZero(store[j].id))
    && (forall i :: 0 <= i < |store| ==> store[i].date == store[0].date)
  }

  /**
   * Adding through the store, at a time no earlier than any stored id and on
   * the same day, keeps the list newest first.
   */
  lemma AddKeepsNewestStored(state: StoreState, tx: Transaction, nowMs: nat)
    requires SameDayNewestStored(state.transactions)
    requires forall i :: 0 <= i < |state.transactions| ==> NumberOrZero(state.transactions[i].id) <= nowMs as real
    requires state.transactions != [] ==> tx.date == state.transactions[0].date
    ensures SameDayNewestStored(Reducer(state, Add(Api.AddTransaction(tx, nowMs))).transactions)
  {
    var added := Api.AddTransaction(tx, nowMs);
    var r := Reducer(state, Add(added)).transactions;
    assert NumberOrZero(added.id) == nowMs as real by {
      NumberOfNatToString(nowMs);
    }
    forall i, j | 0 <= i < j < |r| ensures NumberOrZero(r[i].id) >= NumberOrZero(r[j].id) {
      assert r[j] == state.transactions[j - 1];
      if i > 0 {
        assert r[i] == state.transactions[i - 1];
      }
    }
    forall i | 0 <= i < |r| ensures r[i].date == r[0].date {
      if i > 0 {
        assert r[i] == state.transactions[i - 1];
      }
    }
  }

  /**
   * For rows stored newest first both orders are the storage order, so the
   * first page and the page `loadMore` appends are the first ten rows, with no
   * repeat and no gap.
   */
  lemma NewestStoredPagesWithoutGaps(store: seq<Transaction>, timeOf: string -> int)
    requires SameDayNewestStored(store)
    ensures var page := FirstPage(EffectOrder(Filtered(store, AllCategory), Desc, NoExtraDate()));
            LoadMorePage(page, LoadMoreOrder(store, AllCategory, timeOf)) == store[..Min(2 * PageSize, |store|)]
  {
    assert Filtered(store, AllCategory) == store;
    assert EffectOrder(store, Desc, NoExtraDate()) == store by {
      assert SortedBy(store, EffectKey(NoExtraDate()), true);
      SortSortedIsIdentity(store, EffectKey(NoExtraDate()), true);
    }
    assert LoadMoreOrder(store, AllCategory, timeOf) == store by {
      assert SortedBy(store, DateKey(timeOf), true);
      SortSortedIsIdentity(store, DateKey(timeOf), true);
    }
    PagingWithoutGaps(store, Min(PageSize, |store|));
  }

  /** An expense of 10 for "Food" on 2025-01-01, created at time `n`. */
  function SameDayRow(n: nat): Transaction
  {
    Transaction(NatToString(n), "2025-01-01", Expense, "10", "Food")
  }

  /** Six rows created at times 1 to 6 on one day meet the conditions above. */
  lemma SameDaySixQualifies(store: seq<Transaction>)
    requires |store| == 6 && forall i :: 0 <= i < 6 ==> store[i] == SameDayRow(i + 1)
    ensures SameDayOldestFirst(store)
  {
    forall i | 0 <= i < 6 {
      NumberOfNatToString(i + 1);
    }
  }

  /** The screen's own state, next to the store it reads. */
  class TransactionsScreen {
    var visibleData: seq<Transaction>
    var loadingMore: bool
    var selectedCategory: string
    var sortOrder: SortOrder
    var categoryTotals: map<string, real>
    var grandTotal: real

    /** The `useState` initial values. */
    constructor ()
      ensures visibleData == [] && !loadingMore && selectedCategory == AllCategory
      ensures sortOrder == Desc && categoryTotals == map[] && grandTotal == 0.0
    {
      visibleData := [];
      loadingMore := false;
      selectedCategory := AllCategory;
      sortOrder := Desc;
      categoryTotals := map[];
      grandTotal := 0.0;
    }

    method ToggleSort()
      modifies this`sortOrder
      ensures sortOrder == Toggled(old(sortOrder))
    {
      sortOrder := Toggled(sortOrder);
    }

    /** Picking an entry in the filter modal. */
    method SelectCategory(cat: string)
      modifies this`selectedCategory
      ensures selectedCategory == cat
    {
      selectedCategory := cat;
    }

    /**
     * The filter/sort/page/totals effect: the first page of a sorted copy of the
     * filtered list, and totals over the whole filtered list.
     */
    method RecomputeView(transactions: seq<Transaction>, datedAt: Transaction -> Option<int>)
      modifies this`visibleData, this`categoryTotals, this`grandTotal
      ensures visibleData == FirstPage(EffectOrder(Filtered(transactions, selectedCategory), sortOrder, datedAt))
      ensures categoryTotals == CategoryTotals(Filtered(transactions, selectedCategory))
      ensures grandTotal == SumAmounts(Filtered(transactions, selectedCategory))
      ensures grandTotal == MapSum(categoryTotals)
    {
      var selected, order := selectedCategory, sortOrder;
      var filtered := Filtered(transactions, selected);
      var sorted := EffectOrder(filtered, order, datedAt);
      var totals, sum := ComputeTotals(sorted);
      EffectOrderKeepsTotals(filtered, order, datedAt);
      visibleData, categoryTotals, grandTotal := FirstPage(sorted), totals, sum;
      assert selectedCategory == selected && sortOrder == order;
    }

    /**
     * `loadMore`, with its timer collapsed into one step: unless a load is in
     * flight, sort the filtered list by date in place (under "All" that is the
     * store's own list) and append the next page to the visible list.
     */
    method LoadMore(store: TransactionStore, timeOf: string -> int)
      modifies this`visibleData, store`transactions
      ensures old(loadingMore) ==> visibleData == old(visibleData) && store.transactions == old(store.transactions)
      ensures !old(loadingMore) ==>
                var sorted := LoadMoreOrder(old(store.transactions), selectedCategory, timeOf);
                visibleData == LoadMorePage(old(visibleData), sorted) &&
                store.transactions == if selectedCategory == AllCategory then sorted else old(store.transactions)
      ensures old(visibleData) <= visibleData
    {
      if loadingMore {
        return;
      }
      var sorted := LoadMoreOrder(store.transactions, selectedCategory, timeOf);
      if selectedCategory == AllCategory {
        store.transactions := sorted;
      }
      visibleData := LoadMorePage(visibleData, sorted);
    }

    /** The form's `onSubmit`: update when editing, add otherwise. */
    method SubmitForm(store: TransactionStore, editing: bool, tx: Transaction, nowMs: nat)
      modifies store
      ensures store.loading == old(store.loading)
      ensures editing ==> store.transactions == ReplaceById(old(store.transactions), tx)
      ensures !editing ==> store.transactions == [Api.AddTransaction(tx, nowMs)] + old(store.transactions)
    {
      if editing {
        store.UpdateTransaction(tx);
      } else {
        var _ := store.AddTransaction(tx, nowMs);
      }
    }
  }
}
