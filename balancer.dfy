/** The rent balancer: each mate's base rent, the household total, and each
    mate's balance once the month's expenses are redistributed. */
module RentBalancer {
  import opened LedgerTypes

  /** The first `n` mates' names mapped to their base rents; when two mates
      share a name, the later one's rent is the one kept. */
  function BaseRent(mates: seq<Mate>, n: nat): (m: map<string, int>)
    requires n <= |mates|
    ensures forall j :: 0 <= j < n ==> mates[j].name in m
  {
    if n == 0 then map[] else BaseRent(mates, n - 1)[mates[n - 1].name := mates[n - 1].rent]
  }

  /** A name the balancer knows: a key of `baseRent`, so one of the mates'. */
  predicate IsMate(mates: seq<Mate>, name: string)
  {
    name in BaseRent(mates, |mates|)
  }

  /** `m` has an entry for every configured mate. */
  predicate Covers(mates: seq<Mate>, m: map<string, int>)
  {
    forall j :: 0 <= j < |mates| ==> mates[j].name in m
  }

  /** An expense the balancer can apply without producing an undefined
      balance: its payer is a mate and there is a portion for every mate. */
  predicate Fits(mates: seq<Mate>, e: Expense)
  {
    IsMate(mates, e.whoPaid) && |e.portions| >= |mates|
  }

  /** Every expense still counted (not deleted) fits the configuration. */
  predicate LiveFit(mates: seq<Mate>, list: seq<Expense>)
  {
    forall i :: 0 <= i < |list| && !list[i].deleted ==> Fits(mates, list[i])
  }

  /** Every expense, deleted or not, fits the configuration. */
  predicate AllFit(mates: seq<Mate>, list: seq<Expense>)
  {
    forall i :: 0 <= i < |list| ==> Fits(mates, list[i])
  }

  /** The sum of the first `n` configured rents. */
  function TotalRent(mates: seq<Mate>, n: nat): int
    requires n <= |mates|
  {
    if n == 0 then 0 else TotalRent(mates, n - 1) + mates[n - 1].rent
  }

  /** `rent` after the first `n` mates have each been charged their portion. */
  function AddPortions(rent: map<string, int>, mates: seq<Mate>, portions: seq<int>, n: nat): (r: map<string, int>)
    requires n <= |mates| && n <= |portions| && Covers(mates, rent)
    ensures forall key :: key in r <==> key in rent
  {
    if n == 0 then rent
    else
      var prev := AddPortions(rent, mates, portions, n - 1);
      var name := mates[n - 1].name;
      prev[name := prev[name] + portions[n - 1]]
  }

  /** The balances once expense `e` is applied to `prev`: a deleted expense
      changes nothing; otherwise the payer is credited the amount, then every
      mate is charged their portion. */
  function Apply(mates: seq<Mate>, prev: map<string, int>, e: Expense): (r: map<string, int>)
    requires Covers(mates, prev) && (!e.deleted ==> Fits(mates, e) && e.whoPaid in prev)
    ensures forall key :: key in r <==> key in prev
  {
    if e.deleted then prev
    else AddPortions(prev[e.whoPaid := prev[e.whoPaid] - e.amount], mates, e.portions, |mates|)
  }

  /** Each mate's balance after the first `n` expenses of `list`, applied in
      list order starting from the base rents. */
  function Balanced(mates: seq<Mate>, list: seq<Expense>, n: nat): (r: map<string, int>)
    requires n <= |list| && LiveFit(mates, list)
    ensures Covers(mates, r) && forall key :: IsMate(mates, key) ==> key in r
  {
    if n == 0 then BaseRent(mates, |mates|)
    else Apply(mates, Balanced(mates, list, n - 1), list[n - 1])
  }

  /** The computed ledger of `ledger`: its date and expenses, the base rents,
      the total rent and the balances. */
  function Computed(mates: seq<Mate>, ledger: Ledger): ComputedLedger
    requires LiveFit(mates, ledger.list)
  {
    ComputedLedger(ledger.date, ledger.list, BaseRent(mates, |mates|), TotalRent(mates, |mates|),
                   Balanced(mates, ledger.list, |ledger.list|))
  }

  /** Builds the computed ledger: base rents, total rent and balances, leaving
      the given ledger's date and expense list as they are. */
  method ComputeLedger(mates: seq<Mate>, ledger: Ledger) returns (r: ComputedLedger)
    requires LiveFit(mates, ledger.list)
    ensures r.date == ledger.date && r.list == ledger.list
    ensures r.baseRent == BaseRent(mates, |mates|) && r.totalRent == TotalRent(mates, |mates|)
    ensures r.balancedRent == Balanced(mates, ledger.list, |ledger.list|)
    ensures r == Computed(mates, ledger)
  {
    var baseRent: map<string, int> := map[];
    var sum := 0;
    for i := 0 to |mates|
      invariant baseRent == BaseRent(mates, i)
      invariant sum == TotalRent(mates, i)
    {
      baseRent := baseRent[mates[i].name := mates[i].rent];
      sum := sum + mates[i].rent;
    }

    var rent := baseRent;
    var list := ledger.list;
    for i := 0 to |list|
      invariant rent == Balanced(mates, list, i)
    {
      var e := list[i];
      if e.deleted {
        continue;
      }
      rent := rent[e.whoPaid := rent[e.whoPaid] - e.amount];
      rent := ChargePortions(rent, mates, e.portions);
    }
    r := ComputedLedger(ledger.date, ledger.list, baseRent, sum, rent);
  }

  /** The inner loop of the balancer: every mate is charged its portion of one
      expense. */
  method ChargePortions(rent: map<string, int>, mates: seq<Mate>, portions: seq<int>) returns (r: map<string, int>)
    requires |portions| >= |mates| && Covers(mates, rent)
    ensures r == AddPortions(rent, mates, portions, |mates|)
  {
    r := rent;
    for j := 0 to |mates|
      invariant r == AddPortions(rent, mates, portions, j)
    {
      var mate := mates[j].name;
      r := r[mate := r[mate] + portions[j]];
    }
  }

  // ---------------------------------------------------------------------------
  // What one mate sees

  /** With distinct names, a mate's base rent is its configured rent. */
  lemma {:induction false} BaseRentOf(mates: seq<Mate>, n: nat, j: nat)
    requires DistinctNames(mates) && j < n <= |mates|
    ensures BaseRent(mates, n)[mates[j].name] == mates[j].rent
  {
    if j < n - 1 {
      BaseRentOf(mates, n - 1, j);
    }
  }

  /** Charging the first `n` portions raises mate `j` by its portion when
      `j < n` and leaves it alone otherwise. */
  lemma {:induction false} AddPortionsAt(rent: map<string, int>, mates: seq<Mate>, portions: seq<int>, n: nat, j: nat)
    requires n <= |mates| && n <= |portions| && Covers(mates, rent)
    requires DistinctNames(mates) && j < |mates|
    ensures AddPortions(rent, mates, portions, n)[mates[j].name]
         == rent[mates[j].name] + (if j < n then portions[j] else 0)
  {
    if n > 0 {
      AddPortionsAt(rent, mates, portions, n - 1, j);
    }
  }

  /** A live expense lowers its payer's balance by the amount and raises mate
      `j`'s balance by the j-th portion; a deleted one changes nothing. */
  lemma ExpenseEffect(mates: seq<Mate>, list: seq<Expense>, n: nat, j: nat)
    requires LiveFit(mates, list) && n < |list|
    requires DistinctNames(mates) && j < |mates|
    ensures Balanced(mates, list, n + 1)[mates[j].name]
         == Balanced(mates, list, n)[mates[j].name]
            + (if list[n].deleted then 0
               else list[n].portions[j] - (if mates[j].name == list[n].whoPaid then list[n].amount else 0))
  {
    var e := list[n];
    if !e.deleted {
      var prev := Balanced(mates, list, n);
      AddPortionsAt(prev[e.whoPaid := prev[e.whoPaid] - e.amount], mates, e.portions, |mates|, j);
    }
  }

  // ---------------------------------------------------------------------------
  // Deleting and restoring an expense

  /** `list` without its k-th expense. */
  function Without(list: seq<Expense>, k: nat): (r: seq<Expense>)
    requires k < |list|
    ensures |r| == |list| - 1
    ensures forall i :: 0 <= i < k ==> r[i] == list[i]
    ensures forall i :: k <= i < |r| ==> r[i] == list[i + 1]
  {
    list[..k] + list[k + 1..]
  }

  /** Marking an expense deleted, or dropping it, keeps every live expense fitting. */
  lemma DeleteKeepsFit(mates: seq<Mate>, list: seq<Expense>, k: nat)
    requires LiveFit(mates, list) && k < |list|
    ensures LiveFit(mates, WithDeleted(list, k, true)) && LiveFit(mates, Without(list, k))
  {
    var rest := Without(list, k);
    forall i | 0 <= i < |rest| && !rest[i].deleted
      ensures Fits(mates, rest[i])
    {
      if i >= k {
        assert rest[i] == list[i + 1];
      }
    }
  }

  /** When `b` is `a` with its deleted expense `k` left out, the balances
      after `n` expenses of `a` are those after the matching prefix of `b`. */
  lemma {:induction false} SkipDeleted(mates: seq<Mate>, a: seq<Expense>, b: seq<Expense>, k: nat, n: nat)
    requires LiveFit(mates, a) && LiveFit(mates, b)
    requires k < |a| && |b| == |a| - 1 && n <= |a| && a[k].deleted
    requires forall i :: 0 <= i < k ==> a[i] == b[i]
    requires forall i :: k <= i < |b| ==> a[i + 1] == b[i]
    ensures Balanced(mates, a, n) == Balanced(mates, b, if n <= k then n else n - 1)
  {
    if n == 0 {
    } else if n - 1 < k {
      SkipDeleted(mates, a, b, k, n - 1);
      assert a[n - 1] == b[n - 1];
    } else if n - 1 == k {
      SkipDeleted(mates, a, b, k, n - 1);
    } else {
      SkipDeleted(mates, a, b, k, n - 1);
      assert a[n - 1] == b[n - 2];
    }
  }

  /** Once expense `k` is marked deleted, the balances after the first `n`
      expenses are those of the list that never held it. */
  lemma DeletedIsInvisible(mates: seq<Mate>, list: seq<Expense>, k: nat, n: nat)
    requires LiveFit(mates, list) && k < |list| && n <= |list|
    ensures LiveFit(mates, WithDeleted(list, k, true)) && LiveFit(mates, Without(list, k))
    ensures Balanced(mates, WithDeleted(list, k, true), n)
         == Balanced(mates, Without(list, k), if n <= k then n else n - 1)
  {
    DeleteKeepsFit(mates, list, k);
    SkipDeleted(mates, WithDeleted(list, k, true), Without(list, k), k, n);
  }

  /** Marking a live expense deleted gives the balances of the list without it,
      and undoing the deletion restores both the list and its balances. */
  lemma DeleteThenUndo(mates: seq<Mate>, list: seq<Expense>, k: nat)
    requires LiveFit(mates, list) && k < |list| && !list[k].deleted
    ensures LiveFit(mates, WithDeleted(list, k, true)) && LiveFit(mates, Without(list, k))
    ensures Balanced(mates, WithDeleted(list, k, true), |list|)
         == Balanced(mates, Without(list, k), |list| - 1)
    ensures WithDeleted(WithDeleted(list, k, true), k, false) == list
  {
    DeletedIsInvisible(mates, list, k, |list|);
    assert WithDeleted(WithDeleted(list, k, true), k, false) == list;
  }

  // ---------------------------------------------------------------------------
  // Conservation of money

  /** The sum, over the first `n` configured mates, of their entries in `m`. */
  function MateSum(mates: seq<Mate>, m: map<string, int>, n: nat): int
    requires n <= |mates| && (forall j :: 0 <= j < n ==> mates[j].name in m)
  {
    if n == 0 then 0 else MateSum(mates, m, n - 1) + m[mates[n - 1].name]
  }

  /** An expense whose portions, one per mate, add up to its amount. */
  predicate SplitsExactly(mates: seq<Mate>, e: Expense)
    requires |e.portions| >= |mates|
  {
    SumTo(e.portions, |mates|) == e.amount
  }

  /** Changing the entry of a name none of the first `n` mates carries leaves
      their sum alone. */
  lemma {:induction false} MateSumOther(mates: seq<Mate>, m: map<string, int>, n: nat, key: string, v: int)
    requires n <= |mates| && (forall j :: 0 <= j < n ==> mates[j].name in m) && key !in BaseRent(mates, n)
    ensures MateSum(mates, m[key := v], n) == MateSum(mates, m, n)
  {
    if n > 0 {
      MateSumOther(mates, m, n - 1, key, v);
    }
  }

  /** Every name among the first `n` mates belongs to one of them. */
  lemma {:induction false} NameOwner(mates: seq<Mate>, n: nat, name: string) returns (i: nat)
    requires n <= |mates| && name in BaseRent(mates, n)
    ensures i < n && mates[i].name == name
  {
    if mates[n - 1].name == name {
      i := n - 1;
    } else {
      i := NameOwner(mates, n - 1, name);
    }
  }

  /** With distinct names, the n-th mate's name is not among the first `n`. */
  lemma LastNameIsNew(mates: seq<Mate>, n: nat)
    requires DistinctNames(mates) && n < |mates|
    ensures mates[n].name !in BaseRent(mates, n)
  {
    if mates[n].name in BaseRent(mates, n) {
      var i := NameOwner(mates, n, mates[n].name);
      assert false;
    }
  }

  /** With distinct names, raising one mate's entry by `d` raises the sum by `d`. */
  lemma {:induction false} MateSumBump(mates: seq<Mate>, m: map<string, int>, n: nat, key: string, d: int)
    requires n <= |mates| && (forall j :: 0 <= j < n ==> mates[j].name in m)
    requires DistinctNames(mates) && key in BaseRent(mates, n) && key in m
    ensures MateSum(mates, m[key := m[key] + d], n) == MateSum(mates, m, n) + d
  {
    if key == mates[n - 1].name {
      LastNameIsNew(mates, n - 1);
      MateSumOther(mates, m, n - 1, key, m[key] + d);
    } else {
      MateSumBump(mates, m, n - 1, key, d);
    }
  }

  lemma {:induction false} MateSumAddPortions(rent: map<string, int>, mates: seq<Mate>, portions: seq<int>, n: nat)
    requires n <= |mates| && n <= |portions| && Covers(mates, rent) && DistinctNames(mates)
    ensures MateSum(mates, AddPortions(rent, mates, portions, n), |mates|)
         == MateSum(mates, rent, |mates|) + SumTo(portions, n)
  {
    if n > 0 {
      MateSumAddPortions(rent, mates, portions, n - 1);
      MateSumBump(mates, AddPortions(rent, mates, portions, n - 1), |mates|, mates[n - 1].name, portions[n - 1]);
    }
  }

  /** With distinct names, the base rents of the first `n` mates add up to
      their total rent. */
  lemma {:induction false} BaseRentSum(mates: seq<Mate>, n: nat)
    requires DistinctNames(mates) && n <= |mates|
    ensures MateSum(mates, BaseRent(mates, n), n) == TotalRent(mates, n)
  {
    if n > 0 {
      LastNameIsNew(mates, n - 1);
      BaseRentSum(mates, n - 1);
      MateSumOther(mates, BaseRent(mates, n - 1), n - 1, mates[n - 1].name, mates[n - 1].rent);
    }
  }

  /** Money is conserved: when mate names are distinct and every live expense
      is paid by a mate and split exactly among the mates, the balances add up
      to the total rent, after any number of expenses. */
  lemma {:induction false} Conservation(mates: seq<Mate>, list: seq<Expense>, n: nat)
    requires DistinctNames(mates) && LiveFit(mates, list) && n <= |list|
    requires forall i :: 0 <= i < |list| && !list[i].deleted ==> SplitsExactly(mates, list[i])
    ensures MateSum(mates, Balanced(mates, list, n), |mates|) == TotalRent(mates, |mates|)
  {
    if n == 0 {
      BaseRentSum(mates, |mates|);
    } else {
      var e := list[n - 1];
      Conservation(mates, list, n - 1);
      if !e.deleted {
        var prev := Balanced(mates, list, n - 1);
        MateSumBump(mates, prev, |mates|, e.whoPaid, -e.amount);
        MateSumAddPortions(prev[e.whoPaid := prev[e.whoPaid] - e.amount], mates, e.portions, |mates|);
      }
    }
  }
}
