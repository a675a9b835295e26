# Expense tracker global store, modelled in Dafny

The expense tracker's front end keeps one global store (`GlobalProvider` in
`frontend/src/context/globalContext.js`). It holds the cached incomes, the
cached expenses and the last error message. It passes the application
operations that fetch, add and delete records, and four derived values:

- total income
- total expenses
- the balance
- the five most recent transactions

This project models that store and proves what the derived values mean.

- `records.dfy`, module `Records`: the record type `Transaction`, which has an
  integer `amount` and an integer `createdAt`. Also `Sum`, the sum of the
  amounts, with its lemmas, and `Total`, the accumulating loop that
  `totalIncome` and `totalExpenses` both run.
- `history.dfy`, module `History`: the stable newest-first sort as a function
  (`SortNewestFirst`, an insertion sort), the in-place array sort
  (`SortInPlace`) proved equal to it, and `Recent`, which is what
  `transactionHistory` returns. It also holds lemmas proving that the sort is
  sorted, is a permutation and is stable, and that it is the ONLY stable
  newest-first order. That last fact is why an insertion sort can stand in for
  the engine's own stable `Array.prototype.sort`: any stable sort with the
  comparator `b.createdAt - a.createdAt` returns the same sequence.
- `store.dfy`, module `GlobalStore`: class `Store`, with fields `incomes`,
  `expenses` and `error`. Its methods model how the HTTP outcomes change the
  state, and how the totals, the balance and the history are read from it.
  `BalanceScenario` is a client that walks through one sequence of calls:
  an income of 100 and an expense of 40 give a balance of 60.

The network is not modelled. Each store operation takes what the request
returned, or how it failed, as a parameter:

- `Fetch`: the records came back, or the request threw.
- `Post`: the server accepted the record and the collection was fetched again,
  or the server rejected it with a body that may carry a `message`, or there
  was no response at all.
- `Delete`: the server answered and the collection was fetched again, or the
  request threw.

In the source, reading `err.response.data.message` with no response throws
inside the catch block. So `setError` is never reached, and `NoResponse`
leaves the store unchanged. A rejection whose body has no `message` passes
`undefined` to `setError`, which clears any earlier error. The model writes
this as `error := None`.

`TransactionHistory` has no `modifies` clause, so Dafny guarantees it leaves
`incomes`, `expenses` and `error` unchanged. The array it sorts is freshly
allocated, as the spread copy at line 84 of the source is.

## Model

| member | source | states |
|---|---|---|
| Records.Total | frontend/src/context/globalContext.js:43-47 | the forEach accumulation starting at 0 returns exactly the sum of the amounts of the collection (0 for an empty one) |
| Records.SumConcat | frontend/src/context/globalContext.js:44-46 | the total of a concatenation is the total of the first part plus the total of the second |
| Records.SumPermutation | frontend/src/context/globalContext.js:44-46 | any two collections holding the same records, in any order, have the same total |
| GlobalStore.Store.TotalIncome | frontend/src/context/globalContext.js:42-48 | returns the sum of the amounts of the cached incomes |
| GlobalStore.Store.TotalExpenses | frontend/src/context/globalContext.js:74-80 | returns the sum of the amounts of the cached expenses |
| GlobalStore.Store.TotalBalance | frontend/src/context/globalContext.js:92-94 | in every state, the balance is the income total minus the expense total |
| GlobalStore.Store.TransactionHistory | frontend/src/context/globalContext.js:83-89 | returns min(5, number of incomes + number of expenses) records, newest first, equal to the first five of the stable newest-first sort of incomes followed by expenses; it changes no field of the store |
| History.SortInPlace | frontend/src/context/globalContext.js:85-87 | after sorting the array in place, its contents are the stable newest-first sort of its old contents |
| History.InsertStep | frontend/src/context/globalContext.js:85-87 | one insertion step moves the next record left past the strictly older ones only, and leaves the unsorted tail alone |
| History.SortIsNewestFirst | frontend/src/context/globalContext.js:85-87 | the sorted sequence is non-increasing by createdAt |
| History.SortIsPermutation | frontend/src/context/globalContext.js:85-87 | the sorted sequence holds exactly the records of the input, with the same multiplicities |
| History.SortIsStable | frontend/src/context/globalContext.js:85-87 | for every timestamp, the records created at that time appear in the same order before and after the sort |
| History.StableOrderIsUnique | frontend/src/context/globalContext.js:85-87 | two newest-first orders that agree, for every timestamp, on the order of that timestamp's records are equal, so every stable sort with this comparator gives the same result |
| History.SortCharacterised | frontend/src/context/globalContext.js:85-87 | a sequence is the stable newest-first sort of the input if and only if it is newest first and keeps each timestamp's records in input order |
| History.RecentIsNewestFirst | frontend/src/context/globalContext.js:84-88 | the history is non-increasing by createdAt |
| History.RecentIsDrawnFromStore | frontend/src/context/globalContext.js:84-88 | as a multiset, the history is contained in the incomes plus the expenses |
| History.RecentKeepsNewest | frontend/src/context/globalContext.js:85-88 | no record of the two collections that is left out of the history is strictly newer than a record in it |
| History.RecentKeepsMergeOrder | frontend/src/context/globalContext.js:84-88 | for every timestamp, the history's records of that time are a prefix of that time's incomes followed by that time's expenses, so on a tie incomes come first and keep their order |
| GlobalStore.Store.constructor | frontend/src/context/globalContext.js:13-15 | the store starts with no incomes, no expenses and no error |
| GlobalStore.Store.GetIncomes | frontend/src/context/globalContext.js:29-33 | a fetched collection replaces the incomes wholesale; a failed fetch changes nothing; expenses and error are unchanged |
| GlobalStore.Store.GetExpenses | frontend/src/context/globalContext.js:61-65 | a fetched collection replaces the expenses wholesale; a failed fetch changes nothing; incomes and error are unchanged |
| GlobalStore.Store.AddIncome | frontend/src/context/globalContext.js:18-25 | an accepted post re-fetches the incomes; a rejected one sets error to the server's message and leaves both collections; no response changes nothing |
| GlobalStore.Store.AddExpense | frontend/src/context/globalContext.js:51-58 | an accepted post re-fetches the expenses; a rejected one sets error to the server's message and leaves both collections; no response changes nothing |
| GlobalStore.Store.DeleteIncome | frontend/src/context/globalContext.js:36-39 | after a delete the server answered, the incomes are re-fetched; otherwise nothing changes; expenses and error are never touched |
| GlobalStore.Store.DeleteExpense | frontend/src/context/globalContext.js:68-71 | after a delete the server answered, the expenses are re-fetched; otherwise nothing changes; incomes and error are never touched |
| GlobalStore.Store.SetError | frontend/src/context/globalContext.js:15 | setError replaces the error and nothing else |

## Left out

- The axios requests and the base URL (lines 5, 20, 30, 37, 53, 62, 69) are network I/O. Only their outcomes are modelled, passed in as parameters.
- The record passed to `addIncome`/`addExpense` and the id passed to `deleteIncome`/`deleteExpense` go only to the server, so the model's methods do not take them.
- The re-fetch in the add and delete operations (lines 21, 38, 54, 70) is started but not awaited. The model applies its outcome within the same call. Interleavings and races between in-flight requests are not modelled; for example, a stale fetch could arrive last.
- The React context, the provider's JSX and `useGlobalContext` (lines 8, 96-123) are UI wiring.
- `console.log` (lines 32, 64) has no effect on the state.
- Amounts are JavaScript numbers, which are floating point. The model uses unbounded integers, so rounding and string concatenation of non-numeric amounts are not modelled.
- `new Date(createdAt)` is modelled as a timestamp that is already an integer. Invalid dates, which give `NaN` and an inconsistent comparator, are not modelled.
- The engine's sort algorithm is not modelled step by step. The model uses an insertion sort instead. `History.StableOrderIsUnique` shows that every stable sort with this comparator returns the same sequence.
- `null` and `undefined` as values of `error` are both modelled as `None`.
