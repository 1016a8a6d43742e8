/** The summaries the Dashboard component derives from the user's transactions
    (src/components/Dashboard.tsx): income and expense totals, the recent slice,
    the month selector, per-category spending with its pie chart, and the
    per-month trend series. */
module Dashboard {
  import opened Seqs
  import opened Ledger

  // ---------------------------------------------------------------------------
  // Totals

  /** `totalIncome`: the magnitudes of all credits. */
  function TotalIncome(ts: seq<Transaction>): (r: real)
    ensures r >= 0.0
  {
    SumMagnitudes(Filter(IsCredit, ts))
  }

  /** `totalExpenses`: the magnitudes of all debits. */
  function TotalExpenses(ts: seq<Transaction>): (r: real)
    ensures r >= 0.0
  {
    SumMagnitudes(Filter(IsDebit, ts))
  }

  /** `netWorth` */
  function NetWorth(ts: seq<Transaction>): real {
    TotalIncome(ts) - TotalExpenses(ts)
  }

  /** Income and expenses partition the magnitudes of the list, and the net
      is the signed sum of the amounts (credits positive, debits negative). */
  lemma TotalsPartition(ts: seq<Transaction>)
    ensures TotalIncome(ts) + TotalExpenses(ts) == SumMagnitudes(ts)
    ensures NetWorth(ts) == SignedTotal(ts)
  {
    CreditDebitPartition(ts);
  }

  function Sample(id: int, description: string, amount: real, k: TxType, category: string, date: string): Transaction {
    Transaction(id, date, description, amount, k, category, "", "", None)
  }

  /** The summary-card scenario: a salary of 5000 and two food debits. */
  lemma SummaryExample()
    ensures var ts := [Sample(1, "Salary", 5000.0, Credit, "Income", "2024-01-15"),
                       Sample(2, "Grocery Store", 150.0, Debit, "Food", "2024-01-14"),
                       Sample(3, "Coffee Shop", 25.0, Debit, "Food", "2024-01-13")];
            TotalIncome(ts) == 5000.0 && TotalExpenses(ts) == 175.0 && NetWorth(ts) == 4825.0
  {
    var a := Sample(1, "Salary", 5000.0, Credit, "Income", "2024-01-15");
    var b := Sample(2, "Grocery Store", 150.0, Debit, "Food", "2024-01-14");
    var c := Sample(3, "Coffee Shop", 25.0, Debit, "Food", "2024-01-13");
    var ts := [a, b, c];
    assert ts[..2] == [a, b] && [a, b][..1] == [a] && [a][..0] == [];
    assert Filter(IsCredit, [a]) == [a];
    assert Filter(IsCredit, [a, b]) == [a];
    assert Filter(IsCredit, ts) == [a];
    assert Filter(IsDebit, [a]) == [];
    assert Filter(IsDebit, [a, b]) == [b];
    assert Filter(IsDebit, ts) == [b, c];
    assert [b, c][..1] == [b] && [b][..0] == [];
    assert SumMagnitudes([a]) == 5000.0;
    assert SumMagnitudes([b]) == 150.0;
  }

  // ---------------------------------------------------------------------------
  // Recent transactions

  /** `recentTransactions = transactions.slice(0, 5)` */
  function RecentTransactions(ts: seq<Transaction>): (r: seq<Transaction>)
    ensures |r| == if |ts| < 5 then |ts| else 5
    ensures r <= ts
  {
    if |ts| <= 5 then ts else ts[..5]
  }

  // ---------------------------------------------------------------------------
  // Month selector

  function MonthKeys(ts: seq<Transaction>): seq<string> {
    seq(|ts|, i requires 0 <= i < |ts| => MonthKey(ts[i].date))
  }

  /** `availableMonths`: the distinct month keys, sorted, then reversed. */
  function AvailableMonths(ts: seq<Transaction>): seq<string> {
    Reverse(SortStrings(Dedup(MonthKeys(ts))))
  }

  /** Each month key of the list appears exactly once, newest first. */
  lemma AvailableMonthsSpec(ts: seq<Transaction>)
    ensures StrictlyDescending(AvailableMonths(ts))
    ensures Distinct(AvailableMonths(ts))
    ensures forall m :: m in AvailableMonths(ts) <==> m in MonthKeys(ts)
  {
    var keys := Dedup(MonthKeys(ts));
    SortedSet(keys);
    ReverseAscending(SortStrings(keys));
    DescendingDistinct(AvailableMonths(ts));
    ReverseMembers(SortStrings(keys));
    DedupMembers(MonthKeys(ts));
  }

  /** The month a selector entry stands for. */
  function InMonth(selectedMonth: string): Transaction -> bool {
    (t: Transaction) => MonthKey(t.date) == selectedMonth
  }

  /** `filteredTransactions`: everything for 'all', otherwise that month only. */
  function MonthFilter(ts: seq<Transaction>, selectedMonth: string): seq<Transaction> {
    if selectedMonth == "all" then ts else Filter(InMonth(selectedMonth), ts)
  }

  /** 'all' is the identity; any other selection keeps exactly the
      transactions of that month, each as often as it occurs, in order. */
  lemma MonthFilterSpec(ts: seq<Transaction>, selectedMonth: string)
    ensures selectedMonth == "all" ==> MonthFilter(ts, selectedMonth) == ts
    ensures IsSubseq(MonthFilter(ts, selectedMonth), ts)
    ensures selectedMonth != "all" ==>
      forall t :: multiset(MonthFilter(ts, selectedMonth))[t] ==
        if MonthKey(t.date) == selectedMonth then multiset(ts)[t] else 0
  {
    if selectedMonth == "all" {
      SubseqRefl(ts);
    } else {
      FilterIsSubseq(InMonth(selectedMonth), ts);
      FilterCount(InMonth(selectedMonth), ts);
    }
  }

  // ---------------------------------------------------------------------------
  // Spending by category

  /** The `categoryTotals` accumulator after folding over `ts`; credits leave
      it unchanged. */
  function CategoryTotalsOf(ts: seq<Transaction>): map<string, real> {
    if ts == [] then map[]
    else
      var acc, t := CategoryTotalsOf(ts[..|ts| - 1]), ts[|ts| - 1];
      if IsDebit(t) then
        acc[t.category := (if t.category in acc then acc[t.category] else 0.0) + Abs(t.amount)]
      else acc
  }

  /** The keys of `categoryTotals` in insertion order (the order
      `Object.entries` lists them in). */
  function DebitCategories(ts: seq<Transaction>): seq<string> {
    if ts == [] then []
    else
      var d, t := DebitCategories(ts[..|ts| - 1]), ts[|ts| - 1];
      if IsDebit(t) && t.category !in d then d + [t.category] else d
  }

  /** Reference definition: what the debits of category `c` add up to. */
  function CategorySpend(ts: seq<Transaction>, c: string): (r: real)
    ensures r >= 0.0
  {
    if ts == [] then 0.0
    else
      var t := ts[|ts| - 1];
      CategorySpend(ts[..|ts| - 1], c) + if IsDebit(t) && t.category == c then Abs(t.amount) else 0.0
  }

  /** `categoryTotals` has exactly the keys `DebitCategories` lists, each once. */
  lemma {:induction false} CategoryKeys(ts: seq<Transaction>)
    ensures Distinct(DebitCategories(ts))
    ensures forall c :: c in CategoryTotalsOf(ts) <==> c in DebitCategories(ts)
  {
    if ts != [] {
      var init, t := ts[..|ts| - 1], ts[|ts| - 1];
      CategoryKeys(init);
      var d := DebitCategories(init);
      if IsDebit(t) && t.category !in d {
        assert Distinct(d + [t.category]);
      }
    }
  }

  /** The categories listed are exactly those of the debits in the list. */
  lemma {:induction false} DebitCategoriesMembers(ts: seq<Transaction>)
    ensures forall c :: c in DebitCategories(ts) <==>
      exists i :: 0 <= i < |ts| && IsDebit(ts[i]) && ts[i].category == c
  {
    if ts != [] {
      var init, t := ts[..|ts| - 1], ts[|ts| - 1];
      DebitCategoriesMembers(init);
      forall c
        ensures c in DebitCategories(ts) <==> exists i :: 0 <= i < |ts| && IsDebit(ts[i]) && ts[i].category == c
      {
        if c in DebitCategories(init) {
          var i :| 0 <= i < |init| && IsDebit(init[i]) && init[i].category == c;
          assert ts[i] == init[i];
        }
        if exists i :: 0 <= i < |ts| && IsDebit(ts[i]) && ts[i].category == c {
          var i :| 0 <= i < |ts| && IsDebit(ts[i]) && ts[i].category == c;
          if i < |init| {
            assert init[i] == ts[i];
          }
        }
      }
    }
  }

  /** Every value of `categoryTotals` is that category's debit sum, and a
      category without a key has spent nothing. */
  lemma {:induction false} CategoryTotalsValues(ts: seq<Transaction>)
    ensures forall c :: c in CategoryTotalsOf(ts) ==> CategoryTotalsOf(ts)[c] == CategorySpend(ts, c)
    ensures forall c :: c !in CategoryTotalsOf(ts) ==> CategorySpend(ts, c) == 0.0
  {
    if ts != [] {
      CategoryTotalsValues(ts[..|ts| - 1]);
    }
  }

  /** Sum of the values of `m` at the listed keys. */
  function SumAt(keys: seq<string>, m: map<string, real>): real
    requires forall k :: k in keys ==> k in m
  {
    if keys == [] then 0.0 else SumAt(keys[..|keys| - 1], m) + m[keys[|keys| - 1]]
  }

  lemma {:induction false} SumAtFrame(keys: seq<string>, m: map<string, real>, m': map<string, real>)
    requires forall k :: k in keys ==> k in m && k in m' && m[k] == m'[k]
    ensures SumAt(keys, m) == SumAt(keys, m')
  {
    if keys != [] {
      SumAtFrame(keys[..|keys| - 1], m, m');
    }
  }

  lemma {:induction false} SumAtBump(keys: seq<string>, m: map<string, real>, c: string, a: real)
    requires Distinct(keys) && c in keys
    requires forall k :: k in keys ==> k in m
    ensures SumAt(keys, m[c := m[c] + a]) == SumAt(keys, m) + a
  {
    var init, last := keys[..|keys| - 1], keys[|keys| - 1];
    if last == c {
      assert c !in init by {
        forall i | 0 <= i < |init| ensures init[i] != c {
          assert init[i] == keys[i];
        }
      }
      SumAtFrame(init, m, m[c := m[c] + a]);
    } else {
      assert c in init by {
        var i :| 0 <= i < |keys| && keys[i] == c;
        assert init[i] == c;
      }
      SumAtBump(init, m, c, a);
    }
  }

  /** The category totals add up to the debit total (`filteredExpenses`). */
  lemma {:induction false} CategoryTotalsSum(ts: seq<Transaction>)
    ensures forall k :: k in DebitCategories(ts) ==> k in CategoryTotalsOf(ts)
    ensures SumAt(DebitCategories(ts), CategoryTotalsOf(ts)) == TotalExpenses(ts)
  {
    CategoryKeys(ts);
    if ts != [] {
      var init, t := ts[..|ts| - 1], ts[|ts| - 1];
      CategoryTotalsSum(init);
      if IsDebit(t) {
        TotalExpensesStep(ts);
        assert ts == init + [t];
        CategorySumStep(init, t);
      }
    }
  }

  lemma TotalExpensesStep(ts: seq<Transaction>)
    requires ts != [] && IsDebit(ts[|ts| - 1])
    ensures TotalExpenses(ts) == TotalExpenses(ts[..|ts| - 1]) + Abs(ts[|ts| - 1].amount)
  {
    SumMagnitudesSnoc(Filter(IsDebit, ts[..|ts| - 1]), ts[|ts| - 1]);
  }

  /** Appending one debit adds its magnitude to its category's total,
      creating the key when the category is new. */
  lemma CategoryTotalsSnoc(ts: seq<Transaction>, t: Transaction)
    requires IsDebit(t)
    ensures var m := CategoryTotalsOf(ts);
      CategoryTotalsOf(ts + [t]) == m[t.category := (if t.category in m then m[t.category] else 0.0) + Abs(t.amount)]
    ensures DebitCategories(ts + [t]) ==
      if t.category in DebitCategories(ts) then DebitCategories(ts) else DebitCategories(ts) + [t.category]
  {
    assert (ts + [t])[..|ts|] == ts;
  }

  /** A debit appended to the list adds its magnitude to the sum of the
      category totals. */
  lemma CategorySumStep(init: seq<Transaction>, t: Transaction)
    requires IsDebit(t)
    ensures forall k :: k in DebitCategories(init) ==> k in CategoryTotalsOf(init)
    ensures SumAt(DebitCategories(init + [t]), CategoryTotalsOf(init + [t]))
      == SumAt(DebitCategories(init), CategoryTotalsOf(init)) + Abs(t.amount)
  {
    CategoryKeys(init);
    CategoryTotalsSnoc(init, t);
    BumpOrAdd(DebitCategories(init), CategoryTotalsOf(init), DebitCategories(init + [t]), CategoryTotalsOf(init + [t]),
              t.category, Abs(t.amount));
  }

  /** Adding `a` under key `c`, to an existing key or a new last one, adds
      `a` to the sum over the keys. */
  lemma BumpOrAdd(keys: seq<string>, m: map<string, real>, keys': seq<string>, m': map<string, real>, c: string, a: real)
    requires Distinct(keys)
    requires forall k :: k in m <==> k in keys
    requires m' == m[c := (if c in m then m[c] else 0.0) + a]
    requires keys' == if c in keys then keys else keys + [c]
    ensures forall k :: k in keys' ==> k in m'
    ensures SumAt(keys', m') == SumAt(keys, m) + a
  {
    if c in keys {
      SumAtBump(keys, m, c, a);
    } else {
      assert m' == m[c := a];
      SumAtNew(keys, m, c, a);
    }
  }

  lemma SumAtNew(keys: seq<string>, m: map<string, real>, c: string, a: real)
    requires c !in m
    requires forall k :: k in keys ==> k in m
    ensures SumAt(keys + [c], m[c := a]) == SumAt(keys, m) + a
  {
    var keys' := keys + [c];
    assert keys'[..|keys|] == keys;
    SumAtFrame(keys, m, m[c := a]);
  }

  /** Credits never reach the accumulator, so folding over the debits alone
      gives the same totals and the same key order. */
  lemma {:induction false} CategoryTotalsOfDebits(ts: seq<Transaction>)
    ensures CategoryTotalsOf(Filter(IsDebit, ts)) == CategoryTotalsOf(ts)
    ensures DebitCategories(Filter(IsDebit, ts)) == DebitCategories(ts)
  {
    if ts != [] {
      var init, t := ts[..|ts| - 1], ts[|ts| - 1];
      CategoryTotalsOfDebits(init);
      var f := Filter(IsDebit, init);
      if IsDebit(t) {
        assert (f + [t])[..|f|] == f;
      }
    }
  }

  /** `categoryTotals`: the `reduce` over the debits that updates the
      accumulator in place; `keys` is the accumulator's key order. */
  method CategoryTotals(filtered: seq<Transaction>) returns (totals: map<string, real>, keys: seq<string>)
    ensures totals == CategoryTotalsOf(filtered)
    ensures keys == DebitCategories(filtered)
  {
    var debits := Filter(IsDebit, filtered);
    totals, keys := map[], [];
    var i := 0;
    while i < |debits|
      invariant 0 <= i <= |debits|
      invariant totals == CategoryTotalsOf(debits[..i])
      invariant keys == DebitCategories(debits[..i])
    {
      var t := debits[i];
      assert debits[..i + 1][..i] == debits[..i];
      CategoryKeys(debits[..i]);
      var previous := if t.category in totals then totals[t.category] else 0.0;
      if t.category !in totals {
        keys := keys + [t.category];
      }
      totals := totals[t.category := previous + Abs(t.amount)];
      i := i + 1;
    }
    assert debits[..i] == debits;
    CategoryTotalsOfDebits(filtered);
  }

  // ---------------------------------------------------------------------------
  // Pie chart

  datatype PieSlice = PieSlice(name: string, value: real, percentage: real)

  /** `filteredExpenses > 0 ? amount / filteredExpenses * 100 : 0` */
  function Percentage(amount: real, expenses: real): real {
    if expenses > 0.0 then amount / expenses * 100.0 else 0.0
  }

  function Slices(keys: seq<string>, totals: map<string, real>, expenses: real): seq<PieSlice>
    requires forall k :: k in keys ==> k in totals
  {
    seq(|keys|, i requires 0 <= i < |keys| =>
      PieSlice(keys[i], totals[keys[i]], Percentage(totals[keys[i]], expenses)))
  }

  /** Stable insertion of `x` in front of the first slice whose value is not larger. */
  function InsertSlice(x: PieSlice, s: seq<PieSlice>): seq<PieSlice> {
    if s == [] then [x]
    else if s[0].value > x.value then [s[0]] + InsertSlice(x, s[1..])
    else [x] + s
  }

  /** `.sort((a, b) => b.value - a.value)` */
  function SortSlices(s: seq<PieSlice>): seq<PieSlice> {
    if s == [] then [] else InsertSlice(s[0], SortSlices(s[1..]))
  }

  predicate ByValueDescending(s: seq<PieSlice>) {
    forall i, j :: 0 <= i < j < |s| ==> s[i].value >= s[j].value
  }

  lemma {:induction false} InsertSlicePerm(x: PieSlice, s: seq<PieSlice>)
    ensures multiset(InsertSlice(x, s)) == multiset(s) + multiset{x}
  {
    if s != [] && s[0].value > x.value {
      assert s == [s[0]] + s[1..];
      InsertSlicePerm(x, s[1..]);
    }
  }

  lemma {:induction false} InsertSliceSorted(x: PieSlice, s: seq<PieSlice>)
    requires ByValueDescending(s)
    ensures ByValueDescending(InsertSlice(x, s))
  {
    if s != [] && s[0].value > x.value {
      var tail := s[1..];
      assert ByValueDescending(tail) by {
        forall i, j | 0 <= i < j < |tail| ensures tail[i].value >= tail[j].value {
          assert tail[i] == s[i + 1] && tail[j] == s[j + 1];
        }
      }
      InsertSliceSorted(x, tail);
      InsertSlicePerm(x, tail);
      var r := InsertSlice(x, tail);
      forall j | 0 <= j < |r|
        ensures s[0].value >= r[j].value
      {
        assert r[j] in multiset(r);
        if r[j] != x {
          assert r[j] in multiset(tail);
          var k :| 0 <= k < |tail| && tail[k] == r[j];
          assert s[k + 1] == r[j];
        }
      }
      assert InsertSlice(x, s) == [s[0]] + r;
    } else if s != [] {
      forall j | 0 <= j < |s| ensures x.value >= s[j].value {
        assert s[0].value >= s[j].value || j == 0;
      }
    }
  }

  /** The pie slices come out sorted by value, largest first, as a
      permutation of the unsorted slices. */
  lemma {:induction false} SortSlicesCorrect(s: seq<PieSlice>)
    ensures multiset(SortSlices(s)) == multiset(s)
    ensures ByValueDescending(SortSlices(s))
  {
    if s != [] {
      assert s == [s[0]] + s[1..];
      SortSlicesCorrect(s[1..]);
      InsertSlicePerm(s[0], SortSlices(s[1..]));
      InsertSliceSorted(s[0], SortSlices(s[1..]));
    }
  }

  function SumPercent(s: seq<PieSlice>): real {
    if s == [] then 0.0 else s[0].percentage + SumPercent(s[1..])
  }

  lemma {:induction false} SumPercentSnoc(s: seq<PieSlice>, x: PieSlice)
    ensures SumPercent(s + [x]) == SumPercent(s) + x.percentage
  {
    if s != [] {
      assert (s + [x])[1..] == s[1..] + [x];
      SumPercentSnoc(s[1..], x);
    }
  }

  lemma {:induction false} SumPercentSort(s: seq<PieSlice>)
    ensures SumPercent(SortSlices(s)) == SumPercent(s)
  {
    if s != [] {
      SumPercentSort(s[1..]);
      SumPercentInsert(s[0], SortSlices(s[1..]));
    }
  }

  lemma {:induction false} SumPercentInsert(x: PieSlice, s: seq<PieSlice>)
    ensures SumPercent(InsertSlice(x, s)) == x.percentage + SumPercent(s)
  {
    if s != [] && s[0].value > x.value {
      SumPercentInsert(x, s[1..]);
    }
  }

  lemma {:induction false} SumPercentSlices(keys: seq<string>, totals: map<string, real>, expenses: real)
    requires forall k :: k in keys ==> k in totals
    requires expenses > 0.0
    ensures SumPercent(Slices(keys, totals, expenses)) == SumAt(keys, totals) / expenses * 100.0
  {
    if keys != [] {
      var init, last := keys[..|keys| - 1], keys[|keys| - 1];
      var s := Slices(keys, totals, expenses);
      assert s == Slices(init, totals, expenses) + [s[|keys| - 1]];
      SumPercentSlices(init, totals, expenses);
      SumPercentSnoc(Slices(init, totals, expenses), s[|keys| - 1]);
      var a, v := SumAt(init, totals), totals[last];
      assert a / expenses * 100.0 + v / expenses * 100.0 == (a + v) / expenses * 100.0;
    }
  }

  /** `pieChartData` for the month-filtered list. */
  function PieChartData(filtered: seq<Transaction>): seq<PieSlice> {
    CategoryKeys(filtered);
    SortSlices(Slices(DebitCategories(filtered), CategoryTotalsOf(filtered), TotalExpenses(filtered)))
  }

  /** The pie data is a reordering of one slice per debit category. */
  lemma PieChartPermutation(filtered: seq<Transaction>)
    ensures forall k :: k in DebitCategories(filtered) ==> k in CategoryTotalsOf(filtered)
    ensures multiset(PieChartData(filtered)) ==
      multiset(Slices(DebitCategories(filtered), CategoryTotalsOf(filtered), TotalExpenses(filtered)))
    ensures ByValueDescending(PieChartData(filtered))
  {
    CategoryKeys(filtered);
    SortSlicesCorrect(Slices(DebitCategories(filtered), CategoryTotalsOf(filtered), TotalExpenses(filtered)));
  }

  /** Sorted by value, largest first; one slice per debit category, carrying
      that category's total and its share of `filteredExpenses`. */
  lemma PieChartSpec(filtered: seq<Transaction>)
    ensures ByValueDescending(PieChartData(filtered))
    ensures |PieChartData(filtered)| == |DebitCategories(filtered)|
    ensures forall c :: c in CategoryTotalsOf(filtered) ==>
      exists i :: 0 <= i < |PieChartData(filtered)| && PieChartData(filtered)[i].name == c
    ensures forall s :: s in PieChartData(filtered) ==>
      s.name in CategoryTotalsOf(filtered) && s.value == CategorySpend(filtered, s.name) &&
      s.percentage == Percentage(s.value, TotalExpenses(filtered))
  {
    PieChartPermutation(filtered);
    CategoryKeys(filtered);
    CategoryTotalsValues(filtered);
    var keys, totals, e := DebitCategories(filtered), CategoryTotalsOf(filtered), TotalExpenses(filtered);
    var unsorted := Slices(keys, totals, e);
    var r := PieChartData(filtered);
    assert |r| == |unsorted| by {
      assert |multiset(r)| == |multiset(unsorted)|;
    }
    forall s | s in r
      ensures s.name in totals && s.value == CategorySpend(filtered, s.name) && s.percentage == Percentage(s.value, e)
    {
      assert s in multiset(unsorted);
      var k :| 0 <= k < |unsorted| && unsorted[k] == s;
    }
    forall c | c in totals
      ensures exists i :: 0 <= i < |r| && r[i].name == c
    {
      var k :| 0 <= k < |keys| && keys[k] == c;
      assert unsorted[k] in multiset(r);
      var i :| 0 <= i < |r| && r[i] == unsorted[k];
      assert r[i].name == c;
    }
  }

  /** When anything was spent the shares add up to exactly 100 (under exact
      arithmetic). With nothing spent every share is 0 (PieChartSpec). */
  lemma PiePercentagesSum(filtered: seq<Transaction>)
    ensures TotalExpenses(filtered) > 0.0 ==> SumPercent(PieChartData(filtered)) == 100.0
  {
    var e := TotalExpenses(filtered);
    if e > 0.0 {
      CategoryTotalsSum(filtered);
      SharesOfWhole(DebitCategories(filtered), CategoryTotalsOf(filtered), e);
    }
  }

  /** Slices whose values add up to the divisor have shares adding up to 100,
      in any order. */
  lemma SharesOfWhole(keys: seq<string>, totals: map<string, real>, expenses: real)
    requires forall k :: k in keys ==> k in totals
    requires expenses > 0.0 && SumAt(keys, totals) == expenses
    ensures SumPercent(SortSlices(Slices(keys, totals, expenses))) == 100.0
  {
    SumPercentSort(Slices(keys, totals, expenses));
    SumPercentSlices(keys, totals, expenses);
    assert expenses / expenses == 1.0;
  }

  // ---------------------------------------------------------------------------
  // Monthly trend

  /** The accumulator entry `{ month, income, expenses }`. */
  datatype MonthBucket = MonthBucket(month: string, income: real, expenses: real)

  /** `monthlyData` after folding over `ts`: every transaction that is not a
      credit counts as an expense. */
  function MonthlyDataOf(ts: seq<Transaction>): map<string, MonthBucket> {
    if ts == [] then map[]
    else
      var acc, t := MonthlyDataOf(ts[..|ts| - 1]), ts[|ts| - 1];
      var k := MonthKey(t.date);
      var b := if k in acc then acc[k] else MonthBucket(k, 0.0, 0.0);
      acc[k := if IsCredit(t) then b.(income := b.income + Abs(t.amount))
               else b.(expenses := b.expenses + Abs(t.amount))]
  }

  /** Reference definitions: a month's income and expenses. */
  function MonthIncome(ts: seq<Transaction>, m: string): (r: real)
    ensures r >= 0.0
  {
    if ts == [] then 0.0
    else
      var t := ts[|ts| - 1];
      MonthIncome(ts[..|ts| - 1], m) + if MonthKey(t.date) == m && IsCredit(t) then Abs(t.amount) else 0.0
  }

  function MonthExpenses(ts: seq<Transaction>, m: string): (r: real)
    ensures r >= 0.0
  {
    if ts == [] then 0.0
    else
      var t := ts[|ts| - 1];
      MonthExpenses(ts[..|ts| - 1], m) + if MonthKey(t.date) == m && !IsCredit(t) then Abs(t.amount) else 0.0
  }

  /** `monthlyData` has a bucket exactly for the months that occur, and each
      bucket holds that month's income and expenses. */
  lemma {:induction false} MonthlyDataSpec(ts: seq<Transaction>)
    ensures forall m :: m in MonthlyDataOf(ts) <==> m in MonthKeys(ts)
    ensures forall m :: m in MonthlyDataOf(ts) ==>
      MonthlyDataOf(ts)[m] == MonthBucket(m, MonthIncome(ts, m), MonthExpenses(ts, m))
  {
    if ts != [] {
      var init, t := ts[..|ts| - 1], ts[|ts| - 1];
      MonthlyDataSpec(init);
      assert MonthKeys(ts) == MonthKeys(init) + [MonthKey(t.date)];
      forall m | m !in MonthlyDataOf(init)
        ensures MonthIncome(init, m) == 0.0 && MonthExpenses(init, m) == 0.0
      {
        MonthTotalsAbsent(init, m);
      }
    }
  }

  lemma {:induction false} MonthTotalsAbsent(ts: seq<Transaction>, m: string)
    requires m !in MonthKeys(ts)
    ensures MonthIncome(ts, m) == 0.0 && MonthExpenses(ts, m) == 0.0
  {
    if ts != [] {
      var init := ts[..|ts| - 1];
      assert MonthKeys(ts) == MonthKeys(init) + [MonthKey(ts[|ts| - 1].date)];
      MonthTotalsAbsent(init, m);
    }
  }

  /** `monthlyData`: the `reduce` that creates a bucket on a month's first
      transaction and adds to it in place. */
  method MonthlyData(ts: seq<Transaction>) returns (acc: map<string, MonthBucket>)
    ensures acc == MonthlyDataOf(ts)
  {
    acc := map[];
    var i := 0;
    while i < |ts|
      invariant 0 <= i <= |ts|
      invariant acc == MonthlyDataOf(ts[..i])
    {
      var t := ts[i];
      assert ts[..i + 1][..i] == ts[..i];
      var key := MonthKey(t.date);
      if key !in acc {
        acc := acc[key := MonthBucket(key, 0.0, 0.0)];
      }
      if t.txType == Credit {
        acc := acc[key := acc[key].(income := acc[key].income + Abs(t.amount))];
      } else {
        acc := acc[key := acc[key].(expenses := acc[key].expenses + Abs(t.amount))];
      }
      i := i + 1;
    }
    assert ts[..i] == ts;
  }

  /** One point of `monthlyTrendData`. */
  datatype TrendPoint = TrendPoint(month: string, income: real, expenses: real, net: real, expensesNegative: real)

  function ToPoint(b: MonthBucket): TrendPoint {
    TrendPoint(b.month, b.income, b.expenses, b.income - b.expenses, -b.expenses)
  }

  /** `monthlyTrendData`: the buckets ordered by month key. */
  function MonthlyTrendData(ts: seq<Transaction>): seq<TrendPoint> {
    var data := MonthlyDataOf(ts);
    var months := SortStrings(Dedup(MonthKeys(ts)));
    MonthlyDataSpec(ts);
    SortedSet(Dedup(MonthKeys(ts)));
    DedupMembers(MonthKeys(ts));
    assert forall i :: 0 <= i < |months| ==> months[i] in data;
    seq(|months|, i requires 0 <= i < |months| => ToPoint(data[months[i]]))
  }

  /** Point `i` describes the `i`-th month key in sorted order. */
  lemma MonthlyTrendShape(ts: seq<Transaction>)
    ensures |MonthlyTrendData(ts)| == |SortStrings(Dedup(MonthKeys(ts)))|
    ensures forall i :: 0 <= i < |MonthlyTrendData(ts)| ==>
      var m := SortStrings(Dedup(MonthKeys(ts)))[i];
      MonthlyTrendData(ts)[i] ==
        TrendPoint(m, MonthIncome(ts, m), MonthExpenses(ts, m),
                   MonthIncome(ts, m) - MonthExpenses(ts, m), -MonthExpenses(ts, m))
  {
    var months := SortStrings(Dedup(MonthKeys(ts)));
    var data := MonthlyDataOf(ts);
    MonthlyDataSpec(ts);
    SortedSet(Dedup(MonthKeys(ts)));
    DedupMembers(MonthKeys(ts));
    forall i | 0 <= i < |months| ensures months[i] in data {
      assert months[i] in months;
    }
  }

  /** The points are in ascending month order. */
  lemma MonthlyTrendOrder(ts: seq<Transaction>)
    ensures forall i, j :: 0 <= i < j < |MonthlyTrendData(ts)| ==>
      StrLess(MonthlyTrendData(ts)[i].month, MonthlyTrendData(ts)[j].month)
  {
    MonthlyTrendShape(ts);
    SortedSet(Dedup(MonthKeys(ts)));
  }

  /** There is a point for a month exactly when some transaction falls in it. */
  lemma MonthlyTrendMonths(ts: seq<Transaction>)
    ensures forall m :: m in MonthKeys(ts) <==>
      exists i :: 0 <= i < |MonthlyTrendData(ts)| && MonthlyTrendData(ts)[i].month == m
  {
    var keys := Dedup(MonthKeys(ts));
    var months := SortStrings(keys);
    var r := MonthlyTrendData(ts);
    MonthlyTrendShape(ts);
    SortedSet(keys);
    DedupMembers(MonthKeys(ts));
    forall m
      ensures m in MonthKeys(ts) <==> exists i :: 0 <= i < |r| && r[i].month == m
    {
      if m in MonthKeys(ts) {
        var i :| 0 <= i < |months| && months[i] == m;
        assert r[i].month == m;
      }
      if exists i :: 0 <= i < |r| && r[i].month == m {
        var i :| 0 <= i < |r| && r[i].month == m;
        assert months[i] in months;
      }
    }
  }

  /** Each point holds its month's income, its expenses and their difference. */
  lemma MonthlyTrendValues(ts: seq<Transaction>)
    ensures forall p :: p in MonthlyTrendData(ts) ==>
      p.income == MonthIncome(ts, p.month) && p.expenses == MonthExpenses(ts, p.month) &&
      p.net == p.income - p.expenses
  {
    MonthlyTrendShape(ts);
  }
}
