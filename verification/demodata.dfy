/** The demo-mode data source (src/services/demoDataService.ts): a fixed list
    of sample transactions, served with signed amounts, summarised as one
    synthetic checking account, filtered by date range, and grouped into
    per-category spending the same way the Dashboard groups live data. */
module DemoData {
  import opened Seqs
  import opened Ledger
  import opened Dashboard

  /** One transaction with the sign of its amount taken from its type. */
  function WithSign(t: Transaction): (r: Transaction)
    ensures r.amount == Signed(t)
    ensures r.(amount := t.amount) == t
  {
    t.(amount := Signed(t))
  }

  /** Plain sum of the amounts as stored. */
  function SumAmounts(ts: seq<Transaction>): real {
    if ts == [] then 0.0 else SumAmounts(ts[..|ts| - 1]) + ts[|ts| - 1].amount
  }

  datatype DemoAccount = DemoAccount(id: string, name: string, kind: string, balance: real)

  /** Sum of the balances (the `reduce` in `getDemoNetWorth`). */
  function SumBalances(accounts: seq<DemoAccount>): real {
    if accounts == [] then 0.0 else SumBalances(accounts[..|accounts| - 1]) + accounts[|accounts| - 1].balance
  }

  /** `start <= date <= end`, both ends included. */
  function InRange(start: string, end: string): Transaction -> bool {
    (t: Transaction) => StrLessEq(start, t.date) && StrLessEq(t.date, end)
  }

  class DemoDataService {
    /** The bundled sample data; no method changes it. */
    const transactions: seq<Transaction>

    /** The service over the bundled transactions file's contents. */
    constructor(data: seq<Transaction>)
      ensures transactions == data
    {
      transactions := data;
    }

    /** `getDemoTransactions`: the same transactions in the same order, each
        amount given the sign of its type and nothing else changed. */
    function GetDemoTransactions(): (r: seq<Transaction>)
      ensures |r| == |transactions|
      ensures forall i :: 0 <= i < |r| ==>
        && r[i].(amount := transactions[i].amount) == transactions[i]
        && Abs(r[i].amount) == Abs(transactions[i].amount)
        && (IsCredit(r[i]) ==> r[i].amount >= 0.0)
        && (IsDebit(r[i]) ==> r[i].amount <= 0.0)
    {
      seq(|transactions|, i requires 0 <= i < |transactions| => WithSign(transactions[i]))
    }

    /** `getDemoAccounts`: one checking account whose balance is the credits'
        magnitudes minus the debits' magnitudes. */
    function GetDemoAccounts(): (r: seq<DemoAccount>)
      ensures |r| == 1
      ensures r[0].id == "checking_001" && r[0].name == "Demo Checking Account" && r[0].kind == "depository"
      ensures r[0].balance == TotalIncome(transactions) - TotalExpenses(transactions)
    {
      TotalsPartition(transactions);
      [DemoAccount("checking_001", "Demo Checking Account", "depository", SignedTotal(transactions))]
    }

    /** `getDemoNetWorth`: the total over the accounts, which is the one
        account's balance. */
    function GetDemoNetWorth(): (r: real)
      ensures r == GetDemoAccounts()[0].balance
    {
      var accounts := GetDemoAccounts();
      assert SumBalances(accounts) == SumBalances(accounts[..0]) + accounts[0].balance;
      assert accounts[..0] == [];
      SumBalances(accounts)
    }

    /** `getTransactionsByDateRange` on ISO date strings. */
    function GetTransactionsByDateRange(start: string, end: string): (r: seq<Transaction>)
      ensures |r| <= |transactions|
    {
      Filter(InRange(start, end), GetDemoTransactions())
    }

    /** `getCategorySpending`: fills the `spending` dictionary while walking
        the debits of the demo transactions. */
    method GetCategorySpending() returns (spending: map<string, real>)
      ensures spending == CategoryTotalsOf(transactions)
    {
      var signed := GetDemoTransactions();
      var debits := Filter(IsDebit, signed);
      spending := map[];
      var i := 0;
      while i < |debits|
        invariant 0 <= i <= |debits|
        invariant spending == CategoryTotalsOf(debits[..i])
      {
        var t := debits[i];
        DebitStep(debits, i, spending);
        var previous := if t.category in spending then spending[t.category] else 0.0;
        spending := spending[t.category := previous + Abs(t.amount)];
        i := i + 1;
      }
      assert debits[..i] == debits;
      ServedSpending(this);
    }
  }

  /** One step of the `getCategorySpending` walk over the debits. */
  lemma DebitStep(debits: seq<Transaction>, i: nat, spending: map<string, real>)
    requires i < |debits| && IsDebit(debits[i])
    requires spending == CategoryTotalsOf(debits[..i])
    ensures var t := debits[i];
      CategoryTotalsOf(debits[..i + 1]) ==
        spending[t.category := (if t.category in spending then spending[t.category] else 0.0) + Abs(t.amount)]
  {
    assert debits[..i + 1] == debits[..i] + [debits[i]];
    CategoryTotalsSnoc(debits[..i], debits[i]);
  }

  /** The demo amounts add up to the account balance. */
  lemma {:induction false} SignedSum(ts: seq<Transaction>, signed: seq<Transaction>)
    requires |signed| == |ts|
    requires forall i :: 0 <= i < |ts| ==> signed[i].amount == Signed(ts[i])
    ensures SumAmounts(signed) == SignedTotal(ts)
  {
    if ts != [] {
      SignedSum(ts[..|ts| - 1], signed[..|signed| - 1]);
    }
  }

  /** Signing the amounts changes no category total, since those only read
      the type, the category and the magnitude. */
  lemma {:induction false} SignedTotalsAgree(ts: seq<Transaction>, signed: seq<Transaction>)
    requires |signed| == |ts|
    requires forall i :: 0 <= i < |ts| ==> signed[i] == WithSign(ts[i])
    ensures CategoryTotalsOf(signed) == CategoryTotalsOf(ts)
  {
    if ts != [] {
      SignedTotalsAgree(ts[..|ts| - 1], signed[..|signed| - 1]);
    }
  }

  /** Walking the debits of the served transactions builds the same
      accumulator as the Dashboard's fold over the stored ones. */
  lemma DemoCategoryTotals(ts: seq<Transaction>, signed: seq<Transaction>)
    requires |signed| == |ts|
    requires forall i :: 0 <= i < |ts| ==> signed[i] == WithSign(ts[i])
    ensures CategoryTotalsOf(Filter(IsDebit, signed)) == CategoryTotalsOf(ts)
  {
    CategoryTotalsOfDebits(signed);
    SignedTotalsAgree(ts, signed);
  }

  /** Grouping the debits of the served transactions gives the Dashboard's
      totals over the stored ones. */
  lemma ServedSpending(service: DemoDataService)
    ensures CategoryTotalsOf(Filter(IsDebit, service.GetDemoTransactions())) == CategoryTotalsOf(service.transactions)
  {
    DemoCategoryTotals(service.transactions, service.GetDemoTransactions());
  }

  /** What `getCategorySpending` returns: one key per debit category, each
      mapped to that category's debit magnitudes (never negative), credits
      contributing nothing, and the values adding up to the total debit
      magnitude. */
  lemma SpendingFacts(ts: seq<Transaction>)
    ensures var m := CategoryTotalsOf(ts);
      && (forall c :: c in m <==> c in DebitCategories(ts))
      && (forall c :: c in m ==> m[c] == CategorySpend(ts, c) && m[c] >= 0.0)
      && m == CategoryTotalsOf(Filter(IsDebit, ts))
      && SumAt(DebitCategories(ts), m) == TotalExpenses(ts)
  {
    CategoryKeys(ts);
    CategoryTotalsValues(ts);
    CategoryTotalsOfDebits(ts);
    CategoryTotalsSum(ts);
  }

  /** The account balance equals the sum of the served (signed) amounts and
      the Dashboard's net worth over the same data, and so does the demo net
      worth. */
  lemma DemoBalance(service: DemoDataService)
    ensures service.GetDemoAccounts()[0].balance == SumAmounts(service.GetDemoTransactions())
    ensures service.GetDemoNetWorth() == NetWorth(service.transactions)
  {
    SignedSum(service.transactions, service.GetDemoTransactions());
    TotalsPartition(service.transactions);
  }

  /** The date-range filter keeps, in order, exactly the served transactions
      dated from `start` to `end` inclusive; with `end` before `start` it
      keeps nothing. */
  lemma DateRangeSpec(service: DemoDataService, start: string, end: string)
    ensures var r := service.GetTransactionsByDateRange(start, end);
      && IsSubseq(r, service.GetDemoTransactions())
      && (forall t :: multiset(r)[t] ==
            if StrLessEq(start, t.date) && StrLessEq(t.date, end) then multiset(service.GetDemoTransactions())[t] else 0)
      && (StrLess(end, start) ==> r == [])
  {
    var p, all := InRange(start, end), service.GetDemoTransactions();
    var r := Filter(p, all);
    FilterIsSubseq(p, all);
    FilterCount(p, all);
    if StrLess(end, start) && r != [] {
      var d := r[0].date;
      assert StrLessEq(start, d) && StrLessEq(d, end);
      if d == start {
        StrLessAsym(end, start);
      } else if d == end {
        StrLessAsym(end, start);
      } else {
        StrLessTrans(start, d, end);
        StrLessAsym(end, start);
      }
    }
  }
}
