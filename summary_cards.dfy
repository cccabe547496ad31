/** The three summary cards (frontend/src/components/SummaryCards.tsx):
    total expenses over the rows given, the balance derived from the
    stored initial balance, the budget bar, and the handlers that edit the
    balance on the server and the budget in the browser's storage. */
module SummaryCards {
  import opened Common
  import Dashboard

  /** `transactions.reduce((acc, curr) => acc + curr.amount, 0)`: a left
      fold, so the last row is added last. */
  function TotalExpenses(ts: seq<Transaction>): real
  {
    if ts == [] then 0.0 else TotalExpenses(ts[..|ts| - 1]) + ts[|ts| - 1].amount
  }

  /** The total of two lists placed one after the other is the sum of
      their totals. */
  lemma {:induction false} TotalExpensesAppend(xs: seq<Transaction>, ys: seq<Transaction>)
    ensures TotalExpenses(xs + ys) == TotalExpenses(xs) + TotalExpenses(ys)
    decreases |ys|
  {
    if ys == [] {
      assert xs + ys == xs;
    } else {
      assert (xs + ys)[..|xs + ys| - 1] == xs + ys[..|ys| - 1];
      TotalExpensesAppend(xs, ys[..|ys| - 1]);
    }
  }

  /** The dashboard hands the cards its list newest first; the total is the
      same as over the server's order. */
  lemma {:induction false} TotalExpensesReversed(ts: seq<Transaction>)
    ensures TotalExpenses(Dashboard.Reversed(ts)) == TotalExpenses(ts)
    decreases |ts|
  {
    if ts != [] {
      var init := ts[..|ts| - 1];
      assert Dashboard.Reversed(ts) == [ts[|ts| - 1]] + Dashboard.Reversed(init);
      TotalExpensesAppend([ts[|ts| - 1]], Dashboard.Reversed(init));
      assert TotalExpenses([ts[|ts| - 1]]) == ts[|ts| - 1].amount by {
        assert [ts[|ts| - 1]][..0] == [];
      }
      TotalExpensesReversed(init);
    }
  }

  /** With no negative amounts the total is not negative either. */
  lemma {:induction false} TotalExpensesNonNegative(ts: seq<Transaction>)
    requires forall k :: 0 <= k < |ts| ==> ts[k].amount >= 0.0
    ensures TotalExpenses(ts) >= 0.0
    decreases |ts|
  {
    if ts != [] {
      TotalExpensesNonNegative(ts[..|ts| - 1]);
    }
  }

  /** `Math.min((totalExpenses / budget) * 100, 100)`; a zero budget (and a
      NaN one, which the caller does not pass here) is excluded. */
  function Progress(total: real, budget: real): (p: real)
    requires budget != 0.0
    ensures p <= 100.0
  {
    var ratio := (total / budget) * 100.0;
    if ratio < 100.0 then ratio else 100.0
  }

  /** For a positive budget the bar is full exactly when the total has
      reached the budget, shows the percentage spent below that, and is
      never negative while the total is not. */
  lemma ProgressMeaning(total: real, budget: real)
    requires budget > 0.0
    ensures Progress(total, budget) == 100.0 <==> total >= budget
    ensures total < budget ==> Progress(total, budget) * budget == total * 100.0
    ensures total >= 0.0 ==> Progress(total, budget) >= 0.0
  {
    var q := total / budget;
    assert q * budget == total;
    if total >= budget {
      assert q >= 1.0;
    } else {
      assert q < 1.0;
    }
  }

  /** `totalExpenses > budget`; a NaN budget (None) compares false. */
  predicate IsOverBudget(total: real, budget: Option<real>) {
    budget.Some? && total > budget.value
  }

  /** Over budget means a full bar; a full bar does not mean over budget,
      since spending exactly the budget fills it too. */
  lemma OverBudgetFillsBar(total: real, budget: real)
    requires budget > 0.0
    ensures IsOverBudget(total, Some(budget)) ==> Progress(total, budget) == 100.0
    ensures Progress(budget, budget) == 100.0 && !IsOverBudget(budget, Some(budget))
  {
    ProgressMeaning(total, budget);
    ProgressMeaning(budget, budget);
  }

  /** The key the budget is kept under in the browser's storage. */
  const BudgetKey: string := "monthly_budget"

  /** `val.toString()` of a parsed budget: NaN prints as "NaN". */
  function StoredText(value: Option<real>, show: real -> string): string
  {
    if value.Some? then show(value.value) else "NaN"
  }

  /** What the loading effect leaves as the budget: the parsed stored text
      when the key holds a non-empty text, otherwise the budget as it was. */
  function LoadedBudget(storage: map<string, string>, parseFloat: string -> Option<real>, current: Option<real>): (b: Option<real>)
    ensures BudgetKey !in storage ==> b == current
    ensures BudgetKey in storage && storage[BudgetKey] != "" ==> b == parseFloat(storage[BudgetKey])
  {
    if BudgetKey in storage && storage[BudgetKey] != "" then parseFloat(storage[BudgetKey]) else current
  }

  /** A budget written by the change handler is read back unchanged by the
      loading effect, whatever the budget was before, provided the number
      printing and parsing round-trip and "NaN" parses as NaN. */
  lemma BudgetSurvivesReload(storage: map<string, string>, value: Option<real>, current: Option<real>,
                             parseFloat: string -> Option<real>, show: real -> string)
    requires value.Some? ==> show(value.value) != "" && parseFloat(show(value.value)) == value
    requires parseFloat("NaN") == None
    ensures LoadedBudget(storage[BudgetKey := StoredText(value, show)], parseFloat, current) == value
  {
  }

  /** The `initial_balance` that `saveBalance` sends: the typed total plus
      the current expenses, or nothing at all when the text does not parse. */
  function SaveRequest(editText: string, parseFloat: string -> Option<real>, ts: seq<Transaction>): (r: Option<real>)
    ensures r.None? <==> parseFloat(editText).None?
    ensures r.Some? ==> r.value - TotalExpenses(ts) == parseFloat(editText).value
  {
    match parseFloat(editText)
    case None => None
    case Some(v) => Some(v + TotalExpenses(ts))
  }

  class Cards {
    /** The rows as the dashboard passed them. */
    const transactions: seq<Transaction>
    /** None stands for NaN. */
    var budget: Option<real>
    var initialBalance: real
    var isEditingBalance: bool
    var editBalanceValue: string
    var isLoadingBalance: bool
    /** The browser's local storage. */
    var storage: map<string, string>

    /** `initialBalance - totalExpenses` */
    function Balance(): real
      reads this
    {
      initialBalance - TotalExpenses(transactions)
    }

    constructor (transactions: seq<Transaction>, storage: map<string, string>)
      ensures this.transactions == transactions && this.storage == storage
      ensures budget == Some(1000.0) && initialBalance == 5000.0
      ensures !isEditingBalance && editBalanceValue == "" && isLoadingBalance
    {
      this.transactions := transactions;
      this.storage := storage;
      budget := Some(1000.0);
      initialBalance := 5000.0;
      isEditingBalance := false;
      editBalanceValue := "";
      isLoadingBalance := true;
    }

    /** The profile effect: an ok response sets the initial balance from
        the body; a failed response or an error keeps the default; the
        spinner stops in every case. */
    method FetchProfile(response: Response<real>)
      modifies this`initialBalance, this`isLoadingBalance
      ensures !isLoadingBalance
      ensures response.Ok? ==> initialBalance == response.body
      ensures !response.Ok? ==> initialBalance == old(initialBalance)
    {
      if response.Ok? {
        initialBalance := response.body;
      }
      isLoadingBalance := false;
    }

    /** The budget effect: a non-empty stored text replaces the budget with
        its parse. */
    method LoadBudget(parseFloat: string -> Option<real>)
      modifies this`budget
      ensures budget == LoadedBudget(storage, parseFloat, old(budget))
    {
      if BudgetKey in storage {
        var saved := storage[BudgetKey];
        if saved != "" {
          budget := parseFloat(saved);
        }
      }
    }

    /** `handleBudgetChange`: the same parsed value goes to the state and,
        printed, to the storage key; nothing else in the storage changes. */
    method HandleBudgetChange(text: string, parseFloat: string -> Option<real>, show: real -> string)
      modifies this`budget, this`storage
      ensures budget == parseFloat(text)
      ensures storage == old(storage)[BudgetKey := StoredText(parseFloat(text), show)]
    {
      var value := parseFloat(text);
      budget := value;
      storage := storage[BudgetKey := StoredText(value, show)];
    }

    /** `startEditingBalance`: the field is seeded with the current balance
        as `toFixed(2)` prints it, and editing starts. */
    method StartEditingBalance(toFixed2: real -> string)
      modifies this`editBalanceValue, this`isEditingBalance
      ensures editBalanceValue == toFixed2(Balance()) && isEditingBalance
    {
      editBalanceValue := toFixed2(Balance());
      isEditingBalance := true;
    }

    /** `cancelEditingBalance`: editing ends and the field is cleared. */
    method CancelEditingBalance()
      modifies this`editBalanceValue, this`isEditingBalance
      ensures editBalanceValue == "" && !isEditingBalance
    {
      isEditingBalance := false;
      editBalanceValue := "";
    }

    method SetEditBalanceValue(text: string)
      modifies this`editBalanceValue
      ensures editBalanceValue == text
    {
      editBalanceValue := text;
    }

    /** `saveBalance`. Text that does not parse sends nothing and changes
        nothing. Otherwise the typed total plus the current expenses is
        PUT; an ok response takes the returned initial balance and leaves
        editing, a failed response or an error changes nothing and stays
        in editing. When the server echoes the value sent, the balance
        shown afterwards is exactly the typed value. */
    method SaveBalance(parseFloat: string -> Option<real>, response: Response<real>)
      returns (request: Option<real>)
      modifies this`initialBalance, this`isEditingBalance
      ensures request == SaveRequest(editBalanceValue, parseFloat, transactions)
      ensures request.None? ==>
        (initialBalance == old(initialBalance) && isEditingBalance == old(isEditingBalance))
      ensures request.Some? && response.Ok? ==>
        (initialBalance == response.body && !isEditingBalance)
      ensures request.Some? && !response.Ok? ==>
        (initialBalance == old(initialBalance) && isEditingBalance == old(isEditingBalance))
      ensures request.Some? && response == Ok(request.value) ==>
        Balance() == parseFloat(editBalanceValue).value
    {
      var newTotal := parseFloat(editBalanceValue);
      if newTotal.None? {
        return None;
      }
      request := Some(newTotal.value + TotalExpenses(transactions));
      if response.Ok? {
        initialBalance := response.body;
        isEditingBalance := false;
      }
    }
  }
}
