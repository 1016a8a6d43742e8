/** The application's one domain entity, the Transaction record of
    src/types/index.ts, and the folds over transaction lists that several
    components share. Amounts are exact reals instead of JavaScript numbers. */
module Ledger {
  import opened Seqs

  /** `type: 'credit' | 'debit'` */
  datatype TxType = Credit | Debit

  datatype Transaction = Transaction(
    id: int,
    date: string,           // ISO 8601, "YYYY-MM-DD"
    description: string,
    amount: real,
    txType: TxType,
    category: string,
    subcategory: string,
    accountId: string,
    userId: Option<string>)

  /** The string the source compares `type` against. */
  function TypeName(k: TxType): string {
    match k
    case Credit => "credit"
    case Debit => "debit"
  }

  /** `Math.abs` */
  function Abs(x: real): (r: real)
    ensures r >= 0.0
    ensures r == x || r == -x
  {
    if x < 0.0 then -x else x
  }

  predicate IsCredit(t: Transaction) {
    t.txType == Credit
  }

  predicate IsDebit(t: Transaction) {
    t.txType == Debit
  }

  /** The "YYYY-MM" key a date belongs to: the first seven characters of the
      ISO date string. */
  function MonthKey(date: string): (k: string)
    ensures |date| >= 7 ==> |k| == 7
    ensures k <= date
  {
    if |date| >= 7 then date[..7] else date
  }

  /** `ts.reduce((sum, t) => sum + Math.abs(t.amount), 0)` */
  function SumMagnitudes(ts: seq<Transaction>): (r: real)
    ensures r >= 0.0
  {
    if ts == [] then 0.0
    else SumMagnitudes(ts[..|ts| - 1]) + Abs(ts[|ts| - 1].amount)
  }

  lemma SumMagnitudesSnoc(ts: seq<Transaction>, t: Transaction)
    ensures SumMagnitudes(ts + [t]) == SumMagnitudes(ts) + Abs(t.amount)
  {
    assert (ts + [t])[..|ts|] == ts;
  }

  /** A transaction's amount with the sign its type gives it: positive for a
      credit, negative for a debit. */
  function Signed(t: Transaction): (r: real)
    ensures Abs(r) == Abs(t.amount)
    ensures IsCredit(t) ==> r >= 0.0
    ensures IsDebit(t) ==> r <= 0.0
  {
    if t.txType == Credit then Abs(t.amount) else -Abs(t.amount)
  }

  /** `ts.reduce((sum, t) => sum + (t.type === 'credit' ? |t.amount| : -|t.amount|), 0)` */
  function SignedTotal(ts: seq<Transaction>): real {
    if ts == [] then 0.0 else SignedTotal(ts[..|ts| - 1]) + Signed(ts[|ts| - 1])
  }

  /** Splitting a list into its credits and its debits splits the magnitude
      sum: the two partial sums add up to the whole, and their difference is
      the signed sum. */
  lemma {:induction false} CreditDebitPartition(ts: seq<Transaction>)
    ensures SumMagnitudes(Filter(IsCredit, ts)) + SumMagnitudes(Filter(IsDebit, ts)) == SumMagnitudes(ts)
    ensures SumMagnitudes(Filter(IsCredit, ts)) - SumMagnitudes(Filter(IsDebit, ts)) == SignedTotal(ts)
  {
    if ts != [] {
      var init, t := ts[..|ts| - 1], ts[|ts| - 1];
      CreditDebitPartition(init);
      if IsCredit(t) {
        SumMagnitudesSnoc(Filter(IsCredit, init), t);
      } else {
        SumMagnitudesSnoc(Filter(IsDebit, init), t);
      }
    }
  }
}
