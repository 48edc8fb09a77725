/**
 * The add/edit modal (src/components/TransactionForm.tsx). Its three fields
 * are reset from the `initial` transaction whenever that prop changes, and
 * Save either raises one validation alert or submits a transaction built from
 * the fields and then closes. `Date.now()` and `new Date().toISOString()` are
 * passed in as `nowMs` and `isoNow`.
 */
module TransactionForm {
  import opened Seqs
  import opened JsText
  import opened TransactionModel

  /** What one press of Save does, in order: an alert, or `onSubmit(tx)` followed by `onClose()`. */
  datatype Event = Alert(title: string, message: string) | Submitted(tx: Transaction) | Closed

  const ValidationTitle := "Validation Error"
  const CategoryMessage := "Category cannot be empty"
  const AmountMessage := "Enter a valid amount greater than 0"

  /** `category.trim()` is non-empty. */
  predicate CategoryAccepted(category: string)
  {
    !IsBlank(category)
  }

  /** Neither `!amount.trim()` nor `isNaN(Number(amount))` nor `Number(amount) <= 0`. */
  predicate AmountAccepted(amount: string)
  {
    !IsBlank(amount) && ParseNumber(amount).Some? && ParseNumber(amount).value > 0.0
  }

  /** `iso.split("T")[0]`: everything before the first `T`. */
  function DatePart(iso: string): (r: string)
    ensures 'T' !in r
    ensures iso == r || (|r| < |iso| && iso[..|r| + 1] == r + "T")
  {
    var parts := Split(iso, 'T');
    assert iso == Join(parts, 'T');
    parts[0]
  }

  /** An ISO timestamp `YYYY-MM-DDThh:mm:ss.sssZ` keeps its calendar date. */
  lemma DatePartOfTimestamp(day: string, time: string)
    requires 'T' !in day
    ensures DatePart(day + "T" + time) == day
  {
    SplitHead(day, 'T', time);
  }

  /**
   * The transaction Save submits: the edited transaction's id, or the current
   * time in decimal for a new one; today's date; the fields as entered.
   */
  function Built(initial: Option<Transaction>, category: string, amount: string, txType: TxType,
                 nowMs: nat, isoNow: string): (r: Transaction)
    ensures 'T' !in r.date && r.date <= isoNow && r.date == DatePart(isoNow)
    ensures r.transactionType == txType && r.transactionAmount == amount && r.transactionCategory == category
    ensures initial.Some? ==> r.id == initial.value.id
    ensures initial.None? ==> r.id == NatToString(nowMs)
  {
    Transaction(
      if initial.Some? then initial.value.id else NatToString(nowMs),
      DatePart(isoNow),
      txType,
      amount,
      category)
  }

  /** A new transaction's id reads back as the time it was saved. */
  lemma NewIdIsSaveTime(category: string, amount: string, txType: TxType, nowMs: nat, isoNow: string)
    ensures ParseNumber(Built(None, category, amount, txType, nowMs, isoNow).id) == Some(nowMs as real)
  {
    NumberOfNatToString(nowMs);
  }

  /** An accepted amount counts with its own positive value in every total. */
  lemma AcceptedAmountCounts(initial: Option<Transaction>, category: string, amount: string, txType: TxType,
                             nowMs: nat, isoNow: string)
    requires AmountAccepted(amount)
    ensures AmountOf(Built(initial, category, amount, txType, nowMs, isoNow)) == ParseNumber(amount).value
    ensures AmountOf(Built(initial, category, amount, txType, nowMs, isoNow)) > 0.0
  {
  }

  /** Whitespace-only and empty categories are turned away; a single visible character suffices. */
  lemma CategoryBoundary()
    ensures !CategoryAccepted("") && !CategoryAccepted("  ")
    ensures CategoryAccepted("Food") && CategoryAccepted(" Food ")
  {
    assert Trim("  ") == "" by {
      assert TrimStart("  ") == "";
    }
    assert Trim("Food") == "Food" by {
      TrimUnpadded("Food");
    }
    assert Trim(" Food ") != "" by {
      var t := Trim(" Food ");
      var u := TrimStart(" Food ");
      assert u[|u| - 1] == ' ';
      assert t == TrimEnd(u);
      assert u == " Food "[1..];
      assert 'F' in u;
    }
  }

  /** A positive whole amount is accepted. */
  lemma WholeAmountAccepted()
    ensures AmountAccepted("12")
  {
    assert AllDigits("12");
    ParseDigits("12");
    TrimUnpadded("12");
  }

  /** A positive fractional amount is accepted. */
  lemma FractionalAmountAccepted()
    ensures AmountAccepted("0.5")
  {
    assert ParseNumber("0.5") == Some(0.5) by {
      assert "0.5"[..1] == "0" && "0.5"[2..] == "5";
      assert IndexOf("0.5", '.') == 1;
    }
    TrimUnpadded("0.5");
  }

  /** Zero and negative amounts are turned away although they are numbers. */
  lemma NonPositiveAmountsRejected()
    ensures !AmountAccepted("0") && !AmountAccepted("-5")
  {
    assert ParseNumber("0") == Some(0.0) by {
      assert AllDigits("0");
      ParseDigits("0");
    }
    assert ParseNumber("-5") == Some(-5.0) by {
      assert "-5"[1..] == "5";
      assert AllDigits("5");
    }
  }

  /** Non-numeric and blank amounts are turned away. */
  lemma NonNumericAmountsRejected()
    ensures !AmountAccepted("abc") && !AmountAccepted(" ")
  {
    assert ParseNumber("abc") == None by {
      assert "abc"[0] == 'a' && !IsDigit('a');
      assert !AllDigits("abc");
    }
    assert IsBlank(" ") by {
      assert TrimStart(" ") == "";
    }
  }

  /** The component's state: what the three inputs currently hold. */
  class FormFields {
    var category: string
    var amount: string
    var txType: TxType

    /** The fields the reset effect writes for a given `initial`. */
    static function ResetValues(initial: Option<Transaction>): (string, string, TxType)
    {
      if initial.Some? then (initial.value.transactionCategory, initial.value.transactionAmount, initial.value.transactionType)
      else ("", "", Expense)
    }

    function Values(): (string, string, TxType)
      reads this
    {
      (category, amount, txType)
    }

    /** `useState(initial?.x ?? default)`: the same values the effect assigns. */
    constructor (initial: Option<Transaction>)
      ensures Values() == ResetValues(initial)
    {
      if initial.Some? {
        category := initial.value.transactionCategory;
        amount := initial.value.transactionAmount;
        txType := initial.value.transactionType;
      } else {
        category := "";
        amount := "";
        txType := Expense;
      }
    }

    /** The effect on `[initial]`: copy the edited transaction's fields, or clear to an empty expense. */
    method Reset(initial: Option<Transaction>)
      modifies this
      ensures initial.Some? ==>
                category == initial.value.transactionCategory &&
                amount == initial.value.transactionAmount &&
                txType == initial.value.transactionType
      ensures initial.None? ==> category == "" && amount == "" && txType == Expense
    {
      if initial.Some? {
        category := initial.value.transactionCategory;
        amount := initial.value.transactionAmount;
        txType := initial.value.transactionType;
      } else {
        category := "";
        amount := "";
        txType := Expense;
      }
    }

    /**
     * `handleSave`: the category is checked before the amount, each failure
     * raises its own alert and stops; otherwise exactly one transaction is
     * submitted and the modal is closed. The fields are left as they are.
     */
    method HandleSave(initial: Option<Transaction>, nowMs: nat, isoNow: string) returns (events: seq<Event>)
      ensures !CategoryAccepted(category) ==> events == [Alert(ValidationTitle, CategoryMessage)]
      ensures CategoryAccepted(category) && !AmountAccepted(amount) ==> events == [Alert(ValidationTitle, AmountMessage)]
      ensures CategoryAccepted(category) && AmountAccepted(amount) ==>
                events == [Submitted(Built(initial, category, amount, txType, nowMs, isoNow)), Closed]
    {
      if IsBlank(category) {
        return [Alert(ValidationTitle, CategoryMessage)];
      }
      if IsBlank(amount) || ParseNumber(amount).None? || ParseNumber(amount).value <= 0.0 {
        return [Alert(ValidationTitle, AmountMessage)];
      }
      var newTx := Built(initial, category, amount, txType, nowMs, isoNow);
      events := [Submitted(newTx), Closed];
    }
  }

  /** Save submits at most once, and only a transaction whose category and amount passed the checks. */
  lemma SubmittedIsValid(events: seq<Event>, category: string, amount: string, initial: Option<Transaction>,
                         txType: TxType, nowMs: nat, isoNow: string, i: nat)
    requires !CategoryAccepted(category) ==> events == [Alert(ValidationTitle, CategoryMessage)]
    requires CategoryAccepted(category) && !AmountAccepted(amount) ==> events == [Alert(ValidationTitle, AmountMessage)]
    requires CategoryAccepted(category) && AmountAccepted(amount) ==>
               events == [Submitted(Built(initial, category, amount, txType, nowMs, isoNow)), Closed]
    requires i < |events| && events[i].Submitted?
    ensures i == 0 && |events| == 2 && events[1] == Closed
    ensures CategoryAccepted(events[i].tx.transactionCategory) && AmountAccepted(events[i].tx.transactionAmount)
    ensures AmountOf(events[i].tx) > 0.0
  {
  }

  /** Saving an unchanged edit resubmits the edited transaction with only its date moved to today. */
  lemma UnchangedEditKeepsRecord(t: Transaction, nowMs: nat, isoNow: string)
    ensures var (c, a, ty) := FormFields.ResetValues(Some(t));
            Built(Some(t), c, a, ty, nowMs, isoNow) == t.(date := DatePart(isoNow))
  {
  }
}
