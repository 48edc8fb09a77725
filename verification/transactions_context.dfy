/**
 * The transaction store (src/context/TransactionsContext.tsx): a reducer over
 * `{ transactions, loading }` with five actions, and a provider whose four
 * operations call the gateway and then dispatch actions in a fixed order.
 */
module TransactionsContext {
  import opened Seqs
  import opened TransactionModel
  import Api = TransactionsApi

  datatype StoreState = StoreState(transactions: seq<Transaction>, loading: bool)

  datatype Action =
    | SetTransactions(list: seq<Transaction>)
    | Add(tx: Transaction)
    | Update(tx: Transaction)
    | Remove(id: string)
    | SetLoading(flag: bool)

  const InitialState := StoreState([], false)

  /** `transactions.map(t => t.id === tx.id ? tx : t)`. */
  function ReplaceById(s: seq<Transaction>, tx: Transaction): (r: seq<Transaction>)
    ensures |r| == |s|
    ensures forall i :: 0 <= i < |s| ==> r[i] == if s[i].id == tx.id then tx else s[i]
  {
    if s == [] then []
    else [if s[0].id == tx.id then tx else s[0]] + ReplaceById(s[1..], tx)
  }

  function IdIsNot(id: string): Transaction -> bool
  {
    (t: Transaction) => t.id != id
  }

  /** `transactions.filter(t => t.id !== id)`. */
  function RemoveById(s: seq<Transaction>, id: string): (r: seq<Transaction>)
    ensures |r| <= |s|
    ensures forall x :: x in r ==> x in s && x.id != id
  {
    Filter(s, IdIsNot(id))
  }

  function Reducer(state: StoreState, action: Action): (r: StoreState)
    ensures action.SetLoading? ==> r.transactions == state.transactions && r.loading == action.flag
    ensures !action.SetLoading? ==> r.loading == state.loading
    ensures action.SetTransactions? ==> r.transactions == action.list
    ensures action.Add? ==>
      |r.transactions| == |state.transactions| + 1 &&
      r.transactions[0] == action.tx && r.transactions[1..] == state.transactions
    ensures action.Update? ==> r.transactions == ReplaceById(state.transactions, action.tx)
    ensures action.Remove? ==> r.transactions == RemoveById(state.transactions, action.id)
  {
    match action
    case SetTransactions(list) => state.(transactions := list)
    case Add(tx) => state.(transactions := [tx] + state.transactions)
    case Update(tx) => state.(transactions := ReplaceById(state.transactions, tx))
    case Remove(id) => state.(transactions := RemoveById(state.transactions, id))
    case SetLoading(flag) => state.(loading := flag)
  }

  /** The state after dispatching `actions` in order. */
  function Run(state: StoreState, actions: seq<Action>): StoreState
    decreases |actions|
  {
    if actions == [] then state else Run(Reducer(state, actions[0]), actions[1..])
  }

  /** The dispatch sequence of `fetchAll` for a given gateway outcome. */
  function FetchAllActions(outcome: Api.FetchOutcome): (r: seq<Action>)
    ensures |r| == if outcome.Responded? then 3 else 2
    ensures r[0] == SetLoading(true) && r[|r| - 1] == SetLoading(false)
    ensures forall i :: 0 < i < |r| - 1 ==> r[i].SetTransactions?
    ensures outcome.Responded? ==> r[1] == SetTransactions(Api.FetchTransactions(outcome.json))
  {
    [SetLoading(true)]
    + (if outcome.Responded? then [SetTransactions(Api.FetchTransactions(outcome.json))] else [])
    + [SetLoading(false)]
  }

  /** `fetchAll` raises the flag first, replaces the list only when a body arrived, and always lowers the flag. */
  lemma FetchAllEffect(state: StoreState, outcome: Api.FetchOutcome)
    ensures Run(state, FetchAllActions(outcome)[..1]).loading
    ensures Run(state, FetchAllActions(outcome)).loading == false
    ensures Run(state, FetchAllActions(outcome)).transactions
         == if outcome.Responded? then Api.FetchTransactions(outcome.json) else state.transactions
  {
    var acts := FetchAllActions(outcome);
    assert acts[..1][1..] == [];
    var s1 := Reducer(state, SetLoading(true));
    if outcome.Responded? {
      var s2 := Reducer(s1, acts[1]);
      assert acts[1..][1..][1..] == [];
      assert Run(state, acts) == Run(s2, [SetLoading(false)]);
    } else {
      assert acts == [SetLoading(true), SetLoading(false)];
      assert acts[1..] == [SetLoading(false)] && acts[1..][1..] == [];
      assert Run(state, acts) == Run(s1, [SetLoading(false)]);
    }
  }

  /** A response whose status is not "success" empties the list; a thrown error keeps it. */
  lemma FetchFailureModes(state: StoreState, json: Api.Envelope)
    requires json.status != "success"
    ensures Run(state, FetchAllActions(Api.Responded(json))).transactions == []
    ensures Run(state, FetchAllActions(Api.Failed)).transactions == state.transactions
  {
    FetchAllEffect(state, Api.Responded(json));
    FetchAllEffect(state, Api.Failed);
  }

  /** Fetching again with the same outcome leaves the same list and flag. */
  lemma FetchAllIdempotent(state: StoreState, outcome: Api.FetchOutcome)
    ensures Run(Run(state, FetchAllActions(outcome)), FetchAllActions(outcome))
         == Run(state, FetchAllActions(outcome))
  {
    var once := Run(state, FetchAllActions(outcome));
    FetchAllEffect(state, outcome);
    FetchAllEffect(once, outcome);
    if outcome.Failed? {
      assert Run(once, FetchAllActions(outcome)) == StoreState(once.transactions, false);
    }
  }

  /** Updating an id that is not present leaves the list as it was. */
  lemma UpdateAbsentIsNoop(s: seq<Transaction>, tx: Transaction)
    requires !HasId(s, tx.id)
    ensures ReplaceById(s, tx) == s
  {
  }

  /** Removing keeps exactly the elements with a different id, each as often as before. */
  lemma RemoveKeepsOthers(s: seq<Transaction>, id: string, t: Transaction)
    ensures multiset(RemoveById(s, id))[t] == if t.id != id then multiset(s)[t] else 0
    ensures forall i :: 0 <= i < |RemoveById(s, id)| ==> RemoveById(s, id)[i].id != id
  {
    FilterCount(s, IdIsNot(id), t);
    var r := RemoveById(s, id);
    forall i | 0 <= i < |r| ensures r[i].id != id {
      assert r[i] in r;
    }
  }

  /** Removing keeps the original relative order: it commutes with concatenation. */
  lemma RemoveKeepsOrder(a: seq<Transaction>, b: seq<Transaction>, id: string)
    ensures RemoveById(a + b, id) == RemoveById(a, id) + RemoveById(b, id)
  {
    FilterConcat(a, b, IdIsNot(id));
  }

  /** Removing an id that is not present leaves the list as it was; removal never grows the list. */
  lemma RemoveAbsentIsNoop(s: seq<Transaction>, id: string)
    ensures |RemoveById(s, id)| <= |s|
    ensures !HasId(s, id) ==> RemoveById(s, id) == s
  {
    if !HasId(s, id) {
      FilterKeepsAll(s, IdIsNot(id));
    }
  }

  lemma {:induction false} FilterKeepsUniqueIds(s: seq<Transaction>, p: Transaction -> bool)
    requires UniqueIds(s)
    ensures UniqueIds(Filter(s, p))
  {
    if s != [] {
      var tail := Filter(s[1..], p);
      FilterKeepsUniqueIds(s[1..], p);
      forall j | 0 <= j < |tail| ensures tail[j].id != s[0].id {
        assert tail[j] in s[1..];
      }
    }
  }

  /**
   * No action that keeps ids distinct can make them collide: update and remove
   * always preserve distinctness, add does when the new id is fresh, and a
   * replacement list must itself be distinct.
   */
  lemma ReducerKeepsUniqueIds(state: StoreState, action: Action)
    requires UniqueIds(state.transactions)
    requires action.Add? ==> !HasId(state.transactions, action.tx.id)
    requires action.SetTransactions? ==> UniqueIds(action.list)
    ensures UniqueIds(Reducer(state, action).transactions)
  {
    var r := Reducer(state, action).transactions;
    match action
    case Add(tx) =>
      forall i, j | 0 <= i < j < |r| ensures r[i].id != r[j].id {
        if i == 0 {
          assert r[j] == state.transactions[j - 1];
        } else {
          assert r[i] == state.transactions[i - 1] && r[j] == state.transactions[j - 1];
        }
      }
    case Remove(id) =>
      FilterKeepsUniqueIds(state.transactions, IdIsNot(id));
    case _ =>
  }

  /**
   * The freshness an add needs is not guaranteed: the gateway stamps ids with
   * `Date.now()`, so two adds within one millisecond put the same id in the
   * list twice, even when the list was empty.
   */
  lemma SameMillisecondAddsCollide(state: StoreState, t1: Transaction, t2: Transaction, nowMs: nat)
    ensures var s := Run(state, [Add(Api.AddTransaction(t1, nowMs)), Add(Api.AddTransaction(t2, nowMs))]).transactions;
            |s| >= 2 && s[0].id == s[1].id && !UniqueIds(s)
  {
    var a1, a2 := Api.AddTransaction(t1, nowMs), Api.AddTransaction(t2, nowMs);
    var s1 := Reducer(state, Add(a1));
    assert [Add(a1), Add(a2)][1..] == [Add(a2)];
    assert Run(state, [Add(a1), Add(a2)]) == Run(s1, [Add(a2)]);
    assert Run(s1, [Add(a2)]) == Reducer(s1, Add(a2));
  }

  /**
   * The provider's state. Each operation awaits the gateway and then dispatches
   * through the reducer; the field values are always those of `Snapshot()`.
   */
  class TransactionStore {
    var transactions: seq<Transaction>
    var loading: bool

    function Snapshot(): StoreState
      reads this
    {
      StoreState(transactions, loading)
    }

    /** `useReducer(reducer, initialState)`. */
    constructor ()
      ensures Snapshot() == InitialState
    {
      transactions := [];
      loading := false;
    }

    method Dispatch(action: Action)
      modifies this
      ensures Snapshot() == Reducer(old(Snapshot()), action)
    {
      var next := Reducer(Snapshot(), action);
      transactions := next.transactions;
      loading := next.loading;
    }

    /** `fetchAll`: SET_LOADING true, then SET_TRANSACTIONS if a body arrived, and SET_LOADING false in `finally`. */
    method FetchAll(outcome: Api.FetchOutcome) returns (dispatched: seq<Action>)
      modifies this
      ensures dispatched == FetchAllActions(outcome)
      ensures Snapshot() == Run(old(Snapshot()), dispatched)
      ensures !loading
      ensures transactions
           == if outcome.Responded? then Api.FetchTransactions(outcome.json) else old(transactions)
    {
      ghost var before := Snapshot();
      Dispatch(SetLoading(true));
      dispatched := [SetLoading(true)];
      if outcome.Responded? {
        var data := Api.FetchTransactions(outcome.json);
        Dispatch(SetTransactions(data));
        dispatched := dispatched + [SetTransactions(data)];
      }
      Dispatch(SetLoading(false));
      dispatched := dispatched + [SetLoading(false)];
      FetchAllEffect(before, outcome);
      assert Snapshot() == Run(before, dispatched) by {
        if outcome.Responded? {
          assert dispatched[1..][1..][1..] == [];
        } else {
          assert dispatched[1..][1..] == [];
        }
      }
    }

    /** `addTransaction`: prepends the gateway's copy (fresh id), not the caller's transaction. */
    method AddTransaction(tx: Transaction, nowMs: nat) returns (added: Transaction)
      modifies this
      ensures added == Api.AddTransaction(tx, nowMs)
      ensures Snapshot() == Reducer(old(Snapshot()), Add(added))
      ensures transactions == [added] + old(transactions) && loading == old(loading)
    {
      added := Api.AddTransaction(tx, nowMs);
      Dispatch(Add(added));
      assert transactions == [added] + transactions[1..];
    }

    /** `updateTransaction`: replaces every entry carrying the acknowledged id. */
    method UpdateTransaction(tx: Transaction)
      modifies this
      ensures Snapshot() == Reducer(old(Snapshot()), Update(tx))
      ensures transactions == ReplaceById(old(transactions), tx) && loading == old(loading)
    {
      var updated := Api.UpdateTransaction(tx);
      Dispatch(Update(updated));
    }

    /** `removeTransaction`: removes exactly the given id once the gateway acknowledges it. */
    method RemoveTransaction(id: string)
      modifies this
      ensures Snapshot() == Reducer(old(Snapshot()), Remove(id))
      ensures transactions == RemoveById(old(transactions), id) && loading == old(loading)
    {
      var _ := Api.DeleteTransaction(id);
      Dispatch(Remove(id));
    }
  }
}
