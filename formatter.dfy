/** The list part of the ledger formatter: deleted expenses are spliced out,
    each survivor is stamped with its position in the unfiltered list (the
    position the delete and undo requests name), and the survivors are sorted
    most recent first. */
module Formatter {
  import opened LedgerTypes

  /** An expense on its way to the page: `Pending` before the formatting loop
      reaches it, `Shown` once it carries the position it had in the stored list. */
  datatype Entry = Pending(expense: Expense) | Shown(expense: Expense, index: nat)

  /** The survivors among the first `n` stored expenses, in list order, each
      stamped with its stored position. */
  function Survivors(list: seq<Expense>, n: nat): seq<Entry>
    requires n <= |list|
  {
    if n == 0 then []
    else Survivors(list, n - 1) + (if list[n - 1].deleted then [] else [Shown(list[n - 1], n - 1)])
  }

  /** `x` is a row the page may show for `list`: a live expense stamped with
      the position it holds in `list`. */
  predicate RowOf(list: seq<Expense>, x: Entry)
  {
    x.Shown? && x.index < |list| && list[x.index] == x.expense && !x.expense.deleted
  }

  /** `a` goes above `b` on the page: it is more recent, or as recent and
      earlier in the stored list. */
  predicate Before(a: Entry, b: Entry)
  {
    a.Shown? && b.Shown?
    && (a.expense.date > b.expense.date || (a.expense.date == b.expense.date && a.index < b.index))
  }

  /** Every row of `s` goes above every later row. */
  predicate NewestFirst(s: seq<Entry>)
  {
    forall a, b :: 0 <= a < b < |s| ==> Before(s[a], s[b])
  }

  /** Stamped positions grow along `s`. */
  predicate IndexOrdered(s: seq<Entry>)
  {
    (forall a :: 0 <= a < |s| ==> s[a].Shown?)
    && forall a, b :: 0 <= a < b < |s| ==> s[a].index < s[b].index
  }

  // ---------------------------------------------------------------------------
  // The sort: a stable sort by descending date, as the comparator
  // `(a, b) => date(b) - date(a)` gives it

  /** `x` placed before the first entry of `s` that is no more recent. */
  function Insert(x: Entry, s: seq<Entry>): (r: seq<Entry>)
    ensures multiset(r) == multiset(s) + multiset{x}
  {
    if s == [] then [x]
    else if s[0].expense.date <= x.expense.date then [x] + s
    else
      assert s == [s[0]] + s[1..];
      [s[0]] + Insert(x, s[1..])
  }

  /** `s` sorted most recent first, keeping list order among equal dates. */
  function SortNewestFirst(s: seq<Entry>): (r: seq<Entry>)
    ensures multiset(r) == multiset(s)
  {
    if s == [] then []
    else
      assert s == [s[0]] + s[1..];
      Insert(s[0], SortNewestFirst(s[1..]))
  }

  /** The rows of the page for a stored list. */
  function Format(list: seq<Expense>): seq<Entry>
  {
    SortNewestFirst(Survivors(list, |list|))
  }

  // ---------------------------------------------------------------------------
  // The formatting loop

  /** The expenses from position `n` on, not yet reached by the loop. */
  function PendFrom(list: seq<Expense>, n: nat): (r: seq<Entry>)
    requires n <= |list|
    ensures |r| == |list| - n
    ensures forall t :: 0 <= t < |r| ==> r[t] == Pending(list[n + t])
  {
    seq(|list| - n, t requires 0 <= t < |list| - n => Pending(list[n + t]))
  }

  /** The list in the middle of the loop, once `n` stored expenses were reached. */
  function Walked(list: seq<Expense>, n: nat): seq<Entry>
    requires n <= |list|
  {
    Survivors(list, n) + PendFrom(list, n)
  }

  /** The formatter's list pass: deleted expenses are dropped, the others
      stamped, and the result sorted most recent first. */
  method FormatList(list: seq<Expense>) returns (rows: seq<Entry>)
    ensures rows == Format(list)
  {
    rows := DropDeleted(list);
    rows := SortNewestFirst(rows);
  }

  /** Walks the list as the formatter does: `index` advances on every
      iteration, a deleted expense is spliced out and the walk steps back one
      place, any other expense is stamped with `index`. */
  method DropDeleted(list: seq<Expense>) returns (rows: seq<Entry>)
    ensures rows == Survivors(list, |list|)
  {
    rows := PendFrom(list, 0);
    NothingWalked(list);
    var index := -1;
    var i: int := 0;
    while i < |rows|
      invariant -1 <= index < |list|
      invariant rows == Walked(list, index + 1)
      invariant i == |Survivors(list, index + 1)|
      decreases |rows| - i
    {
      index := index + 1;
      NextIsPending(list, index);
      var expense := rows[i].expense;
      if expense.deleted {
        SpliceStep(list, index);
        rows := rows[..i] + rows[i + 1..];
        i := i - 1;
      } else {
        StampStep(list, index);
        rows := rows[i := Shown(expense, index)];
      }
      i := i + 1;
    }
    assert index + 1 == |list|;
    WalkedAll(list);
  }

  /** Before the loop nothing was reached. */
  lemma NothingWalked(list: seq<Expense>)
    ensures PendFrom(list, 0) == Walked(list, 0)
  {
    assert Survivors(list, 0) == [];
  }

  /** Once every expense was reached, only the survivors are left. */
  lemma WalkedAll(list: seq<Expense>)
    ensures Walked(list, |list|) == Survivors(list, |list|)
  {
    assert PendFrom(list, |list|) == [];
  }

  /** In the middle of the loop the next pending expense sits right after the
      survivors. */
  lemma NextIsPending(list: seq<Expense>, n: nat)
    requires n < |list|
    ensures |Survivors(list, n)| < |Walked(list, n)|
    ensures Walked(list, n)[|Survivors(list, n)|] == Pending(list[n])
  {
    assert Walked(list, n)[|Survivors(list, n)|] == PendFrom(list, n)[0];
  }

  /** Splicing out the next expense when it is deleted moves the loop one
      expense further on without a new survivor. */
  lemma SpliceStep(list: seq<Expense>, n: nat)
    requires n < |list| && list[n].deleted
    ensures var s := Walked(list, n); var i := |Survivors(list, n)|;
      i < |s| && s[..i] + s[i + 1..] == Walked(list, n + 1) && |Survivors(list, n + 1)| == i
  {
    var s := Walked(list, n);
    var i := |Survivors(list, n)|;
    assert s[..i] == Survivors(list, n + 1);
    assert s[i + 1..] == PendFrom(list, n + 1);
  }

  /** Stamping the next expense when it is live moves the loop one expense
      further on with one more survivor. */
  lemma StampStep(list: seq<Expense>, n: nat)
    requires n < |list| && !list[n].deleted
    ensures var s := Walked(list, n); var i := |Survivors(list, n)|;
      i < |s| && s[i := Shown(list[n], n)] == Walked(list, n + 1) && |Survivors(list, n + 1)| == i + 1
  {
    var s := Walked(list, n);
    var i := |Survivors(list, n)|;
    assert s[i := Shown(list[n], n)] == Survivors(list, n + 1) + PendFrom(list, n + 1);
  }

  // ---------------------------------------------------------------------------
  // What the page shows

  /** The survivors are exactly the live expenses, stamped with their positions. */
  lemma {:induction false} SurvivorsAreRows(list: seq<Expense>, n: nat, x: Entry)
    requires n <= |list|
    ensures x in Survivors(list, n) <==> RowOf(list, x) && x.index < n
  {
    if n > 0 {
      SurvivorsAreRows(list, n - 1, x);
    }
  }

  /** The survivors' stamped positions grow along the list. */
  lemma {:induction false} SurvivorsIndexOrdered(list: seq<Expense>, n: nat)
    requires n <= |list|
    ensures IndexOrdered(Survivors(list, n))
    ensures forall a :: 0 <= a < |Survivors(list, n)| ==> Survivors(list, n)[a].Shown? && Survivors(list, n)[a].index < n
  {
    if n > 0 {
      SurvivorsIndexOrdered(list, n - 1);
    }
  }

  /** Inserting a row that precedes, in list order, every row of a sorted
      sequence keeps it sorted. */
  lemma {:induction false} InsertNewestFirst(x: Entry, s: seq<Entry>)
    requires x.Shown? && NewestFirst(s)
    requires forall y :: y in s ==> y.Shown? && x.index < y.index
    ensures NewestFirst(Insert(x, s))
  {
    if s == [] {
    } else if s[0].expense.date <= x.expense.date {
      var r := [x] + s;
      forall a, b | 0 <= a < b < |r|
        ensures Before(r[a], r[b])
      {
        if a == 0 {
          assert r[b] == s[b - 1] && s[b - 1] in s;
          if b > 1 {
            assert Before(s[0], s[b - 1]);
          }
        } else {
          assert r[a] == s[a - 1] && r[b] == s[b - 1];
        }
      }
    } else {
      InsertNewestFirst(x, s[1..]);
      var t := Insert(x, s[1..]);
      var r := [s[0]] + t;
      forall a, b | 0 <= a < b < |r|
        ensures Before(r[a], r[b])
      {
        if a == 0 {
          var y := t[b - 1];
          assert y in multiset(t);
          if y != x {
            assert y in multiset(s[1..]);
            var j :| 0 <= j < |s[1..]| && s[1..][j] == y;
            assert s[j + 1] == y;
          }
        } else {
          assert r[a] == t[a - 1] && r[b] == t[b - 1];
        }
      }
    }
  }

  /** Sorting a sequence whose stamped positions grow gives the rows newest first. */
  lemma {:induction false} SortIsNewestFirst(s: seq<Entry>)
    requires IndexOrdered(s)
    ensures NewestFirst(SortNewestFirst(s))
  {
    if s != [] {
      var tail := s[1..];
      assert IndexOrdered(tail) by {
        forall a | 0 <= a < |tail|
          ensures tail[a].Shown?
        {
          assert tail[a] == s[a + 1];
        }
        forall a, b | 0 <= a < b < |tail|
          ensures tail[a].index < tail[b].index
        {
          assert tail[a] == s[a + 1] && tail[b] == s[b + 1];
        }
      }
      SortIsNewestFirst(tail);
      var sorted := SortNewestFirst(tail);
      forall y | y in sorted
        ensures y.Shown? && s[0].index < y.index
      {
        assert y in multiset(tail);
        var j :| 0 <= j < |tail| && tail[j] == y;
        assert s[j + 1] == y;
      }
      InsertNewestFirst(s[0], sorted);
    }
  }

  /** The page shows exactly the live expenses of the stored list, each with
      its stored position: a row appears if and only if it is one of them. */
  lemma ShowsExactlyLive(list: seq<Expense>, x: Entry)
    ensures x in Format(list) <==> RowOf(list, x)
  {
    SurvivorsAreRows(list, |list|, x);
    assert x in Format(list) <==> x in multiset(Format(list));
  }

  /** The page lists its rows most recent first, ties in stored order. */
  lemma FormatNewestFirst(list: seq<Expense>)
    ensures NewestFirst(Format(list))
  {
    SurvivorsIndexOrdered(list, |list|);
    SortIsNewestFirst(Survivors(list, |list|));
  }

  /** No two rows of the page carry the same position: a shared position
      would name a single expense, hence a single date, and rows of equal
      date are ordered by position. */
  lemma DistinctPositions(list: seq<Expense>, a: nat, b: nat)
    requires a < b < |Format(list)|
    ensures Format(list)[a].Shown? && Format(list)[b].Shown?
    ensures Format(list)[a].index != Format(list)[b].index
  {
    var rows := Format(list);
    FormatNewestFirst(list);
    assert rows[a] in rows && rows[b] in rows;
    ShowsExactlyLive(list, rows[a]);
    ShowsExactlyLive(list, rows[b]);
    assert Before(rows[a], rows[b]);
  }

  /** Every row's position names its own expense in the stored list, so a
      delete or undo request carrying it reaches that expense. */
  lemma RowIndexNamesItsExpense(list: seq<Expense>, x: Entry)
    requires x in Format(list)
    ensures x.Shown? && x.index < |list| && list[x.index] == x.expense
  {
    ShowsExactlyLive(list, x);
  }

  /** Marking the expense behind a row deleted removes that row from the page
      and keeps every other row. */
  lemma DeletingRowHidesIt(list: seq<Expense>, k: nat, x: Entry)
    requires k < |list|
    ensures x in Format(WithDeleted(list, k, true)) <==> x.Shown? && x in Format(list) && x.index != k
  {
    ShowsExactlyLive(list, x);
    ShowsExactlyLive(WithDeleted(list, k, true), x);
  }
}
