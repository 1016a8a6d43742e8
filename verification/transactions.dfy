/** The Transactions page (src/components/Transactions.tsx): the search,
    category and type filters applied together, and the category dropdown. */
module Transactions {
  import opened Seqs
  import opened Ledger

  /** `toLowerCase` on one character; only the ASCII letters A-Z change. */
  function LowerChar(c: char): char {
    if 'A' <= c <= 'Z' then (c as int + 32) as char else c
  }

  function ToLower(s: string): string {
    seq(|s|, i requires 0 <= i < |s| => LowerChar(s[i]))
  }

  /** The search box matches the description or the category, ignoring case. */
  predicate MatchesSearch(t: Transaction, term: string) {
    Contains(ToLower(t.description), ToLower(term)) || Contains(ToLower(t.category), ToLower(term))
  }

  function SearchHit(term: string): Transaction -> bool {
    (t: Transaction) => MatchesSearch(t, term)
  }

  function InCategory(category: string): Transaction -> bool {
    (t: Transaction) => t.category == category
  }

  function OfType(typeFilter: string): Transaction -> bool {
    (t: Transaction) => TypeName(t.txType) == typeFilter
  }

  /** The filter effect: up to three `filter` calls on `filtered`, each only
      when its control is set. */
  function ApplyFilters(ts: seq<Transaction>, searchTerm: string, categoryFilter: string, typeFilter: string): seq<Transaction> {
    var afterSearch := if searchTerm != "" then Filter(SearchHit(searchTerm), ts) else ts;
    var afterCategory := if categoryFilter != "all" then Filter(InCategory(categoryFilter), afterSearch) else afterSearch;
    if typeFilter != "all" then Filter(OfType(typeFilter), afterCategory) else afterCategory
  }

  /** Reference definition: a transaction is shown when it passes every
      active control. */
  predicate Shown(t: Transaction, searchTerm: string, categoryFilter: string, typeFilter: string) {
    && (searchTerm == "" || MatchesSearch(t, searchTerm))
    && (categoryFilter == "all" || t.category == categoryFilter)
    && (typeFilter == "all" || TypeName(t.txType) == typeFilter)
  }

  /** One optional `filter` stage: what it keeps is an order-preserving part
      of `s` that keeps exactly the elements passing `p` when active. */
  lemma Stage(p: Transaction -> bool, active: bool, s: seq<Transaction>, ts: seq<Transaction>)
    requires IsSubseq(s, ts)
    ensures IsSubseq(if active then Filter(p, s) else s, ts)
    ensures forall t ::
      multiset(if active then Filter(p, s) else s)[t] == if !active || p(t) then multiset(s)[t] else 0
  {
    if active {
      FilterIsSubseq(p, s);
      SubseqTrans(Filter(p, s), s, ts);
      FilterCount(p, s);
    }
  }

  /** The shown list is an order-preserving subsequence of the transactions
      that keeps exactly those passing every active control (AND), each as
      often as it occurs; with all controls at their defaults it is the whole
      list. */
  lemma ApplyFiltersSpec(ts: seq<Transaction>, searchTerm: string, categoryFilter: string, typeFilter: string)
    ensures IsSubseq(ApplyFilters(ts, searchTerm, categoryFilter, typeFilter), ts)
    ensures forall t ::
      multiset(ApplyFilters(ts, searchTerm, categoryFilter, typeFilter))[t] ==
      if Shown(t, searchTerm, categoryFilter, typeFilter) then multiset(ts)[t] else 0
    ensures |ApplyFilters(ts, searchTerm, categoryFilter, typeFilter)| <= |ts|
    ensures searchTerm == "" && categoryFilter == "all" && typeFilter == "all" ==>
      ApplyFilters(ts, searchTerm, categoryFilter, typeFilter) == ts
  {
    SubseqRefl(ts);
    var s1 := if searchTerm != "" then Filter(SearchHit(searchTerm), ts) else ts;
    Stage(SearchHit(searchTerm), searchTerm != "", ts, ts);
    var s2 := if categoryFilter != "all" then Filter(InCategory(categoryFilter), s1) else s1;
    Stage(InCategory(categoryFilter), categoryFilter != "all", s1, ts);
    Stage(OfType(typeFilter), typeFilter != "all", s2, ts);
    var r := ApplyFilters(ts, searchTerm, categoryFilter, typeFilter);
    assert |r| <= |ts| by {
      SubseqLength(r, ts);
    }
  }

  function Categories(ts: seq<Transaction>): seq<string> {
    seq(|ts|, i requires 0 <= i < |ts| => ts[i].category)
  }

  /** `uniqueCategories`: the distinct categories, sorted. */
  function UniqueCategories(ts: seq<Transaction>): seq<string> {
    SortStrings(Dedup(Categories(ts)))
  }

  /** The dropdown lists every category present exactly once, in ascending
      order, and nothing else. */
  lemma UniqueCategoriesSpec(ts: seq<Transaction>)
    ensures StrictlyAscending(UniqueCategories(ts))
    ensures forall c :: c in UniqueCategories(ts) <==> c in Categories(ts)
  {
    SortedSet(Dedup(Categories(ts)));
    DedupMembers(Categories(ts));
  }

  // The search example from the component's tests: "grocery" over four
  // transactions keeps only the grocery purchase.

  function Grocery(): Transaction { Transaction(1, "2024-01-15", "Grocery Store Purchase", 150.0, Debit, "Food", "", "", None) }
  function Salary(): Transaction { Transaction(2, "2024-01-14", "Salary Payment", 5000.0, Credit, "Income", "", "", None) }
  function Coffee(): Transaction { Transaction(3, "2024-01-13", "Coffee Shop", 25.0, Debit, "Food", "", "", None) }
  function Rent(): Transaction { Transaction(4, "2024-01-12", "Rent Payment", 1200.0, Debit, "Housing", "", "", None) }

  /** A field none of whose characters lower-cases to the `k`-th letter of
      "grocery" cannot match that search. */
  lemma NotGrocery(s: string, k: nat)
    requires k < 7 && forall i :: 0 <= i < |s| ==> LowerChar(s[i]) != "grocery"[k]
    ensures !Contains(ToLower(s), ToLower("grocery"))
  {
    assert ToLower("grocery") == "grocery";
    assert "grocery"[k] !in ToLower(s);
    MissingChar(ToLower(s), "grocery", k);
  }

  lemma GroceryHit()
    ensures MatchesSearch(Grocery(), "grocery")
  {
    assert ToLower("grocery") == "grocery";
    assert ToLower("Grocery Store Purchase") == "grocery store purchase";
    assert StartsWith("grocery store purchase", "grocery");
  }

  lemma SalaryMiss()
    ensures !MatchesSearch(Salary(), "grocery")
  {
    NotGrocery("Salary Payment", 0);
    NotGrocery("Income", 0);
  }

  lemma CoffeeMiss()
    ensures !MatchesSearch(Coffee(), "grocery")
  {
    NotGrocery("Coffee Shop", 0);
    NotGrocery("Food", 0);
  }

  lemma RentMiss()
    ensures !MatchesSearch(Rent(), "grocery")
  {
    NotGrocery("Rent Payment", 0);
    NotGrocery("Housing", 1);
  }

  lemma FilterFirstOfFour<T>(p: T -> bool, a: T, b: T, c: T, d: T)
    requires p(a) && !p(b) && !p(c) && !p(d)
    ensures Filter(p, [a, b, c, d]) == [a]
  {
    assert [a, b, c, d][..3] == [a, b, c] && [a, b, c][..2] == [a, b] && [a, b][..1] == [a] && [a][..0] == [];
    assert Filter(p, [a]) == [a];
    assert Filter(p, [a, b]) == [a];
    assert Filter(p, [a, b, c]) == [a];
  }

  /** Searching "grocery" shows one of the four transactions. */
  lemma SearchExample()
    ensures ApplyFilters([Grocery(), Salary(), Coffee(), Rent()], "grocery", "all", "all") == [Grocery()]
  {
    GroceryHit();
    SalaryMiss();
    CoffeeMiss();
    RentMiss();
    FilterFirstOfFour(SearchHit("grocery"), Grocery(), Salary(), Coffee(), Rent());
  }
}
