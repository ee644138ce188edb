/** The "newest first" ordering both pages apply to expenses:
    `sort((a, b) => time(b.date) - time(a.date))`. JavaScript's `Array.prototype.sort`
    is stable, so expenses with the same date keep their relative order; the model
    is an insertion sort with the same comparator and the same stability. */
module Chronology {
  import opened Seqs
  import opened LedgerTypes

  /** Dates never increase from front to back. */
  predicate NewestFirst(es: seq<Expense>) {
    forall i, j :: 0 <= i < j < |es| ==> es[i].date >= es[j].date
  }

  /** Put `e` before the first element that is not strictly newer than it. */
  function InsertByDate(e: Expense, es: seq<Expense>): (r: seq<Expense>)
    ensures multiset(r) == multiset(es) + multiset{e}
    ensures |r| == |es| + 1
  {
    if es == [] || e.date >= es[0].date then [e] + es
    else assert es == [es[0]] + es[1..]; [es[0]] + InsertByDate(e, es[1..])
  }

  /** The stable sort of `es` by descending date. */
  function SortNewestFirst(es: seq<Expense>): (r: seq<Expense>)
    ensures multiset(r) == multiset(es)
    ensures |r| == |es|
  {
    if es == [] then []
    else assert es == [es[0]] + es[1..]; InsertByDate(es[0], SortNewestFirst(es[1..]))
  }

  lemma {:induction false} InsertKeepsOrder(e: Expense, es: seq<Expense>)
    requires NewestFirst(es)
    ensures NewestFirst(InsertByDate(e, es))
  {
    if es != [] && e.date < es[0].date {
      var h, t := es[0], es[1..];
      assert NewestFirst(t) by {
        forall i, j | 0 <= i < j < |t| ensures t[i].date >= t[j].date {
          assert t[i] == es[i + 1] && t[j] == es[j + 1];
        }
      }
      InsertKeepsOrder(e, t);
      var tail := InsertByDate(e, t);
      assert InsertByDate(e, es) == [h] + tail;
      forall k | 0 <= k < |tail| ensures h.date >= tail[k].date {
        NoNewerThanHead(e, h, t, tail[k]);
      }
    }
  }

  /** An element of `t` with `e` inserted is no newer than `h`, when `h` leads `t` in
      date order and is strictly newer than `e`. */
  lemma NoNewerThanHead(e: Expense, h: Expense, t: seq<Expense>, x: Expense)
    requires h.date > e.date
    requires forall j :: 0 <= j < |t| ==> h.date >= t[j].date
    requires x in multiset(InsertByDate(e, t))
    ensures h.date >= x.date
  {
    if x != e {
      assert x in multiset(t);
      var j :| 0 <= j < |t| && t[j] == x;
    }
  }

  /** The result is ordered newest first. */
  lemma {:induction false} SortIsNewestFirst(es: seq<Expense>)
    ensures NewestFirst(SortNewestFirst(es))
  {
    if es != [] {
      SortIsNewestFirst(es[1..]);
      InsertKeepsOrder(es[0], SortNewestFirst(es[1..]));
    }
  }

  /** The expenses of `es` dated exactly `d`, in order. */
  function DatedAt(d: int): Expense -> bool {
    (e: Expense) => e.date == d
  }

  /** Inserting `e` passes over strictly newer expenses only, so among the expenses of
      any one date `e` lands in front. */
  lemma {:induction false} InsertIsStable(e: Expense, es: seq<Expense>, d: int)
    ensures Filter(InsertByDate(e, es), DatedAt(d)) == Filter([e], DatedAt(d)) + Filter(es, DatedAt(d))
  {
    if es == [] {
      assert [e] + es == [e];
    } else if e.date >= es[0].date {
      FilterConcat([e], es, DatedAt(d));
    } else {
      var h, t := es[0], es[1..];
      var rest := InsertByDate(e, t);
      assert InsertByDate(e, es) == [h] + rest;
      assert es == [h] + t;
      InsertIsStable(e, t, d);
      PassNewer(e, h, t, rest, d);
    }
  }

  /** The step past an expense `h` strictly newer than `e`: `h` does not share `e`'s
      date, so it cannot come between `e` and the others of that date. */
  lemma PassNewer(e: Expense, h: Expense, t: seq<Expense>, rest: seq<Expense>, d: int)
    requires h.date > e.date
    requires Filter(rest, DatedAt(d)) == Filter([e], DatedAt(d)) + Filter(t, DatedAt(d))
    ensures Filter([h] + rest, DatedAt(d)) == Filter([e], DatedAt(d)) + Filter([h] + t, DatedAt(d))
  {
    var p := DatedAt(d);
    FilterConcat([h], rest, p);
    FilterConcat([h], t, p);
    if e.date == d {
      assert Filter([h], p) == [];
    } else {
      assert Filter([e], p) == [];
    }
  }

  /** Stability: for every date, the expenses with that date appear in the sorted list
      exactly as they appear in the input. Together with `SortIsNewestFirst` this
      determines the result uniquely. */
  lemma {:induction false} SortIsStable(es: seq<Expense>, d: int)
    ensures Filter(SortNewestFirst(es), DatedAt(d)) == Filter(es, DatedAt(d))
  {
    if es != [] {
      var h, t := es[0], es[1..];
      SortIsStable(t, d);
      StableStep(h, t, SortNewestFirst(t), d);
      assert [h] + t == es;
    }
  }

  /** One step of the stability proof: inserting `h` into a list whose expenses of
      date `d` are those of `t` gives the expenses of date `d` of `[h] + t`. */
  lemma StableStep(h: Expense, t: seq<Expense>, rest: seq<Expense>, d: int)
    requires Filter(rest, DatedAt(d)) == Filter(t, DatedAt(d))
    ensures Filter(InsertByDate(h, rest), DatedAt(d)) == Filter([h] + t, DatedAt(d))
  {
    InsertIsStable(h, rest, d);
    FilterConcat([h], t, DatedAt(d));
  }

  /** An expense occurs in the sorted list exactly when it occurs in the input. */
  lemma SortMembership(es: seq<Expense>, e: Expense)
    ensures e in SortNewestFirst(es) <==> e in es
  {
    assert e in multiset(SortNewestFirst(es)) <==> e in multiset(es);
  }

  lemma {:induction false} InsertTotal(e: Expense, es: seq<Expense>)
    ensures TotalAmount(InsertByDate(e, es)) == e.amount + TotalAmount(es)
  {
    if es == [] || e.date >= es[0].date {
      TotalAmountCons(e, es);
    } else {
      InsertTotal(e, es[1..]);
      TotalAmountCons(es[0], InsertByDate(e, es[1..]));
      TotalAmountCons(es[0], es[1..]);
      assert [es[0]] + es[1..] == es;
    }
  }

  /** Reordering does not change the total amount. */
  lemma {:induction false} SortKeepsTotal(es: seq<Expense>)
    ensures TotalAmount(SortNewestFirst(es)) == TotalAmount(es)
  {
    if es != [] {
      var h, t := es[0], es[1..];
      SortKeepsTotal(t);
      TotalStep(h, t, SortNewestFirst(t));
      assert [h] + t == es;
    }
  }

  lemma TotalStep(h: Expense, t: seq<Expense>, rest: seq<Expense>)
    requires TotalAmount(rest) == TotalAmount(t)
    ensures TotalAmount(InsertByDate(h, rest)) == TotalAmount([h] + t)
  {
    InsertTotal(h, rest);
    TotalAmountCons(h, t);
  }
}
