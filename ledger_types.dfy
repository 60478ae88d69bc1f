/** The records the rent ledger keeps: housemates, expenses and monthly ledgers.
    Money is counted in whole cents. */
module LedgerTypes {

  datatype Option<+T> = None | Some(value: T)

  /** The two states of the server: expenses may be recorded only while `Active`;
      `Disabled` means the household is settling up before the month closes. */
  datatype State = Active | Disabled

  /** A housemate from the server configuration, with the base rent they owe. */
  datatype Mate = Mate(name: string, rent: int)

  /** One shared expense. `portions[i]` is what the i-th configured mate owes of
      `amount`; `date` is the day it was spent (a larger number is more recent);
      a deleted expense stays in the list and can be restored. */
  datatype Expense = Expense(whoPaid: string, amount: int, portions: seq<int>, date: int, deleted: bool)

  /** A month's ledger as it is stored: its "YYYY-MM" key and its expenses. */
  datatype Ledger = Ledger(date: string, list: seq<Expense>)

  /** A ledger together with the rent figures derived from it. */
  datatype ComputedLedger = ComputedLedger(
    date: string,
    list: seq<Expense>,
    baseRent: map<string, int>,
    totalRent: int,
    balancedRent: map<string, int>)

  /** No two configured mates share a name. */
  ghost predicate DistinctNames(mates: seq<Mate>)
  {
    forall i, j :: 0 <= i < |mates| && 0 <= j < |mates| && mates[i].name == mates[j].name ==> i == j
  }

  /** The list with the deleted flag of expense `k` set to `flag`. */
  function WithDeleted(list: seq<Expense>, k: nat, flag: bool): (r: seq<Expense>)
    requires k < |list|
    ensures |r| == |list| && r[k].deleted == flag
    ensures r[k] == list[k].(deleted := flag)
    ensures forall i :: 0 <= i < |list| && i != k ==> r[i] == list[i]
  {
    list[k := list[k].(deleted := flag)]
  }

  /** The sum of the first `n` amounts of `s`. */
  function SumTo(s: seq<int>, n: nat): int
    requires n <= |s|
  {
    if n == 0 then 0 else SumTo(s, n - 1) + s[n - 1]
  }
}
