/**
 * The "Add New Transaction" panel (src/components/TransactionActions.tsx): a
 * second entry form with a category picker. Its check is weaker than the
 * modal form's (only emptiness), it stamps the full ISO timestamp as the date,
 * and a successful submit hides and clears the form.
 */
module TransactionActions {
  import opened Seqs
  import opened JsText
  import opened TransactionModel
  import Form = TransactionForm
  import Chart = TransactionChart
  import Screen = TransactionsScreen

  const AllTransactionEntry := "All Transaction"
  const ErrorTitle := "Error"
  const MissingMessage := "Please enter amount and select category"

  /** What one press of Save does: an alert, or `onAddTransaction(tx)`. */
  datatype Event = Alert(title: string, message: string) | Added(tx: Transaction)

  function NotAllTransaction(): string -> bool
  {
    c => c != AllTransactionEntry
  }

  /** `categories.filter(c => c !== "All Transaction")`: the picker's choices. */
  function ValidCategories(categories: seq<string>): (r: seq<string>)
    ensures AllTransactionEntry !in r
    ensures |r| <= |categories|
  {
    Filter(categories, NotAllTransaction())
  }

  /**
   * Exactly the entries equal to "All Transaction" go; every other entry stays
   * as often as it occurred, and the order is kept across any split of the list.
   */
  lemma ValidCategoriesSpec(categories: seq<string>, c: string, front: seq<string>, back: seq<string>)
    requires categories == front + back
    ensures c in ValidCategories(categories) <==> c in categories && c != AllTransactionEntry
    ensures multiset(ValidCategories(categories))[c] == if c == AllTransactionEntry then 0 else multiset(categories)[c]
    ensures ValidCategories(categories) == ValidCategories(front) + ValidCategories(back)
  {
    FilterMember(categories, NotAllTransaction(), c);
    FilterCount(categories, NotAllTransaction(), c);
    FilterConcat(front, back, NotAllTransaction());
  }

  /** The picker keeps a list without the sentinel as it is. */
  lemma ValidCategoriesWithoutSentinel(categories: seq<string>)
    requires AllTransactionEntry !in categories
    ensures ValidCategories(categories) == categories
  {
    FilterKeepsAll(categories, NotAllTransaction());
  }

  /**
   * The sentinel removed here is not the one the transactions screen puts at
   * the head of its category list. The screen does not render this panel, so
   * the two are not wired together; were the screen's list passed in as
   * `categories`, its "All" would stay a choice.
   */
  lemma ScreenSentinelSurvives(txs: seq<Transaction>)
    ensures Screen.AllCategory in ValidCategories(Screen.Categories(txs))
  {
    var cats := Screen.Categories(txs);
    assert cats[0] in cats;
    FilterMember(cats, NotAllTransaction(), Screen.AllCategory);
  }

  /** `!amount || !category` is false: both strings are non-empty. */
  predicate Accepted(amount: string, category: string)
  {
    amount != "" && category != ""
  }

  /** Whatever the modal form accepts, this panel accepts too. */
  lemma FormAcceptanceImpliesPanelAcceptance(amount: string, category: string)
    requires Form.AmountAccepted(amount) && Form.CategoryAccepted(category)
    ensures Accepted(amount, category)
  {
    NotBlankIsNonEmpty(amount);
    NotBlankIsNonEmpty(category);
  }

  /** The panel takes amounts the modal form refuses: negative, non-numeric and blank ones. */
  lemma PanelAcceptsWhatFormRefuses()
    ensures Accepted("-5", "Food") && !Form.AmountAccepted("-5")
    ensures Accepted("abc", "Food") && !Form.AmountAccepted("abc")
    ensures Accepted(" ", "Food") && !Form.AmountAccepted(" ")
  {
    Form.NonPositiveAmountsRejected();
    Form.NonNumericAmountsRejected();
  }

  /** The transaction Save emits: a time-based id and the full ISO timestamp as its date. */
  function Built(amount: string, category: string, txType: TxType, nowMs: nat, isoNow: string): Transaction
  {
    Transaction(NatToString(nowMs), isoNow, txType, amount, category)
  }

  /** A timestamp's date part is the `YYYY-MM-DD` before the `T`, which the chart labels `DD/MM`. */
  lemma FormDateLabel(y: string, m: string, d: string, time: string)
    requires '-' !in y && '-' !in m && '-' !in d
    requires 'T' !in y && 'T' !in m && 'T' !in d
    ensures Chart.DayLabel(Form.DatePart(y + "-" + m + "-" + d + "T" + time)) == d + "/" + m
  {
    var day := y + "-" + m + "-" + d;
    assert y + "-" + m + "-" + d + "T" + time == day + "T" + time;
    assert 'T' !in day;
    Form.DatePartOfTimestamp(day, time);
    Chart.DayLabelOfIsoDate(y, m, d);
  }

  /** The whole timestamp keeps the time inside the day part of its label. */
  lemma TimestampLabel(y: string, m: string, d: string, time: string)
    requires '-' !in y && '-' !in m && '-' !in d && '-' !in time
    ensures Chart.DayLabel(y + "-" + m + "-" + d + "T" + time) == d + "T" + time + "/" + m
  {
    var dt := d + "T" + time;
    assert '-' !in dt;
    assert y + "-" + m + "-" + d + "T" + time == y + "-" + m + "-" + dt;
    Chart.DayLabelOfIsoDate(y, m, dt);
  }

  /**
   * A day entered here and the same day entered in the modal form get two
   * different chart bars: this panel keeps the time after the day, and the
   * chart's `split("-")` leaves that time inside the day part of the label.
   */
  lemma TimestampLabelsDifferFromFormDates(y: string, m: string, d: string, time: string,
                                           amount: string, category: string, txType: TxType, nowMs: nat)
    requires '-' !in y && '-' !in m && '-' !in d && '-' !in time
    requires 'T' !in y && 'T' !in m && 'T' !in d
    ensures var iso := y + "-" + m + "-" + d + "T" + time;
            var panel := Built(amount, category, txType, nowMs, iso);
            var form := Form.Built(None, category, amount, txType, nowMs, iso);
            Chart.LabelOf(form) == d + "/" + m &&
            Chart.LabelOf(panel) == d + "T" + time + "/" + m &&
            Chart.LabelOf(panel) != Chart.LabelOf(form)
  {
    FormDateLabel(y, m, d, time);
    TimestampLabel(y, m, d, time);
    assert |d + "T" + time + "/" + m| > |d + "/" + m|;
  }

  /** The panel's state: whether the form is shown and what its inputs hold. */
  class ActionsPanel {
    var formVisible: bool
    var category: string
    var amount: string
    var txType: TxType

    /** Hidden, empty, and set to income. */
    constructor ()
      ensures !formVisible && category == "" && amount == "" && txType == Income
    {
      formVisible := false;
      category := "";
      amount := "";
      txType := Income;
    }

    /** The "Add New Transaction" card shows the form and leaves the inputs as they were. */
    method ShowForm()
      modifies this
      ensures formVisible
      ensures category == old(category) && amount == old(amount) && txType == old(txType)
    {
      formVisible := true;
    }

    /**
     * `handleSubmit`: an empty amount or category raises the alert and changes
     * nothing; otherwise one transaction built from the inputs is emitted and
     * the form is hidden and cleared back to an empty income entry.
     */
    method HandleSubmit(nowMs: nat, isoNow: string) returns (events: seq<Event>)
      modifies this
      ensures !Accepted(old(amount), old(category)) ==>
                events == [Alert(ErrorTitle, MissingMessage)] &&
                formVisible == old(formVisible) && category == old(category) &&
                amount == old(amount) && txType == old(txType)
      ensures Accepted(old(amount), old(category)) ==>
                events == [Added(Built(old(amount), old(category), old(txType), nowMs, isoNow))] &&
                !formVisible && amount == "" && category == "" && txType == Income
    {
      if amount == "" || category == "" {
        return [Alert(ErrorTitle, MissingMessage)];
      }
      var newTx := Built(amount, category, txType, nowMs, isoNow);
      events := [Added(newTx)];
      formVisible := false;
      amount := "";
      category := "";
      txType := Income;
    }
  }

  /** An emitted transaction carries the inputs as they stood and a fresh time-based id. */
  lemma AddedCarriesInputs(amount: string, category: string, txType: TxType, nowMs: nat, isoNow: string)
    requires Accepted(amount, category)
    ensures var tx := Built(amount, category, txType, nowMs, isoNow);
            tx.transactionAmount == amount && tx.transactionCategory == category &&
            tx.transactionType == txType && tx.date == isoNow &&
            ParseNumber(tx.id) == Some(nowMs as real) && tx.transactionCategory != ""
  {
    NumberOfNatToString(nowMs);
  }
}
