/**
 * The state held by GlobalProvider: the cached incomes and expenses and the
 * last error message, with the operations the provider hands to the
 * application. The HTTP calls are not modelled; what they return or how they
 * fail is passed to each operation as its outcome.
 */
module GlobalStore {
  import opened Records
  import opened History

  datatype Option<T> = None | Some(value: T)

  /** What a GET of a whole collection came back with. */
  datatype Fetch =
    | Fetched(records: seq<Transaction>)  // the response body: the server's collection
    | FetchFailed                         // the request threw; nothing after the await runs

  /** What a POST of a new record came back with. */
  datatype Post =
    | Accepted(refetch: Fetch)            // the server took it; the collection is fetched again
    | Rejected(message: Option<string>)   // the server answered with an error body (`data.message`, maybe absent)
    | NoResponse                          // no response at all: reading `err.response.data` throws inside the catch

  /** What a DELETE came back with. */
  datatype Delete =
    | Deleted(refetch: Fetch)             // the server answered; the collection is fetched again
    | DeleteFailed                        // the request threw before the re-fetch

  class Store {
    var incomes: seq<Transaction>
    var expenses: seq<Transaction>
    var error: Option<string>

    /** Both collections start empty and there is no error. */
    constructor ()
      ensures incomes == [] && expenses == [] && error == None
    {
      incomes, expenses, error := [], [], None;
    }

    /** getIncomes: a successful fetch replaces the incomes wholesale. */
    method GetIncomes(response: Fetch)
      modifies this
      ensures response.Fetched? ==> incomes == response.records
      ensures response.FetchFailed? ==> incomes == old(incomes)
      ensures expenses == old(expenses) && error == old(error)
    {
      if response.Fetched? {
        incomes := response.records;
      }
    }

    /** getExpenses: a successful fetch replaces the expenses wholesale. */
    method GetExpenses(response: Fetch)
      modifies this
      ensures response.Fetched? ==> expenses == response.records
      ensures response.FetchFailed? ==> expenses == old(expenses)
      ensures incomes == old(incomes) && error == old(error)
    {
      if response.Fetched? {
        expenses := response.records;
      }
    }

    /** addIncome: on success the incomes are fetched again; a server error
        stores its message and leaves both collections alone. */
    method AddIncome(outcome: Post)
      modifies this
      ensures outcome.Accepted? && outcome.refetch.Fetched? ==> incomes == outcome.refetch.records
      ensures outcome.Accepted? && outcome.refetch.FetchFailed? ==> incomes == old(incomes)
      ensures !outcome.Accepted? ==> incomes == old(incomes)
      ensures expenses == old(expenses)
      ensures error == if outcome.Rejected? then outcome.message else old(error)
    {
      match outcome
      case Accepted(refetch) => GetIncomes(refetch);
      case Rejected(message) => error := message;
      case NoResponse =>
    }

    /** addExpense: as addIncome, for the expenses. */
    method AddExpense(outcome: Post)
      modifies this
      ensures outcome.Accepted? && outcome.refetch.Fetched? ==> expenses == outcome.refetch.records
      ensures outcome.Accepted? && outcome.refetch.FetchFailed? ==> expenses == old(expenses)
      ensures !outcome.Accepted? ==> expenses == old(expenses)
      ensures incomes == old(incomes)
      ensures error == if outcome.Rejected? then outcome.message else old(error)
    {
      match outcome
      case Accepted(refetch) => GetExpenses(refetch);
      case Rejected(message) => error := message;
      case NoResponse =>
    }

    /** deleteIncome: after the server answers, the incomes are fetched again;
        the error is never touched. */
    method DeleteIncome(outcome: Delete)
      modifies this
      ensures outcome.Deleted? && outcome.refetch.Fetched? ==> incomes == outcome.refetch.records
      ensures !(outcome.Deleted? && outcome.refetch.Fetched?) ==> incomes == old(incomes)
      ensures expenses == old(expenses) && error == old(error)
    {
      if outcome.Deleted? {
        GetIncomes(outcome.refetch);
      }
    }

    /** deleteExpense: as deleteIncome, for the expenses. */
    method DeleteExpense(outcome: Delete)
      modifies this
      ensures outcome.Deleted? && outcome.refetch.Fetched? ==> expenses == outcome.refetch.records
      ensures !(outcome.Deleted? && outcome.refetch.Fetched?) ==> expenses == old(expenses)
      ensures incomes == old(incomes) && error == old(error)
    {
      if outcome.Deleted? {
        GetExpenses(outcome.refetch);
      }
    }

    /** setError, handed to the application as is: the only way to clear it. */
    method SetError(message: Option<string>)
      modifies this
      ensures error == message
      ensures incomes == old(incomes) && expenses == old(expenses)
    {
      error := message;
    }

    /** totalIncome: the sum of the income amounts (0 when there are none). */
    method TotalIncome() returns (total: int)
      ensures total == Sum(incomes)
    {
      total := Total(incomes);
    }

    /** totalExpenses: the sum of the expense amounts (0 when there are none). */
    method TotalExpenses() returns (total: int)
      ensures total == Sum(expenses)
    {
      total := Total(expenses);
    }

    /** totalBalance: income total minus expense total, in every state. */
    method TotalBalance() returns (balance: int)
      ensures balance == Sum(incomes) - Sum(expenses)
    {
      var earned := TotalIncome();
      var spent := TotalExpenses();
      balance := earned - spent;
    }

    /** transactionHistory: copies the incomes and then the expenses into a
        fresh array, sorts that array newest first with a stable sort, and
        returns its first five records. The method modifies nothing, so the
        store's collections are left as they were. */
    method TransactionHistory() returns (history: seq<Transaction>)
      ensures history == Recent(incomes, expenses)
      ensures |history| == Min(HistoryLimit, |incomes| + |expenses|)
      ensures NewestFirst(history)
    {
      var merged := incomes + expenses;
      var a := new Transaction[|merged|](k requires 0 <= k < |merged| => merged[k]);
      assert a[..] == merged;
      SortInPlace(a);
      history := a[..Min(HistoryLimit, a.Length)];
      RecentIsNewestFirst(incomes, expenses);
    }
  }

  /** A client of the store: one income of 100 and one expense of 40 leave a
      balance of 60, and a rejected add keeps both collections. */
  method BalanceScenario()
  {
    var store := new Store();
    var salary := Transaction("1", "salary", 100, 1000);
    var rent := Transaction("2", "rent", 40, 2000);
    store.GetIncomes(Fetched([salary]));
    store.GetExpenses(Fetched([rent]));
    var balance := store.TotalBalance();
    assert balance == 60;
    store.AddExpense(Rejected(Some("Amount must be positive")));
    assert store.expenses == [rent] && store.error == Some("Amount must be positive");
    var history := store.TransactionHistory();
    assert |history| == 2;
  }
}
