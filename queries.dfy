/** The list views of the tracker: the quick search of the expenses tab, the
    advanced search, the console keyword search, and the sorts by date. */
module Queries {
  import opened Wrappers
  import opened Text
  import opened Numbers
  import opened Seqs
  import opened Records

  // ------------------------------------------------------------ quick search

  /** The quick search keeps an expense when the lowercased search text occurs
      in its lowercased date, category or description, or in str() of its amount. */
  predicate MatchesTerm(e: Expense, text: string)
  {
    var t := Lower(text);
    Contains(Lower(e.date), t) || Contains(Lower(e.category), t)
    || Contains(Lower(e.description), t) || Contains(FormatAmount(e.amount), t)
  }

  /** The rows the quick search shows, in list order. */
  function FilterByTerm(es: seq<Expense>, text: string): seq<Expense>
  {
    Filter(es, e => MatchesTerm(e, text))
  }

  /** The quick search keeps the list order and keeps exactly the matching
      expenses, each as often as it occurs. */
  lemma FilterByTermSpec(es: seq<Expense>, text: string, e: Expense)
    ensures IsSubsequence(FilterByTerm(es, text), es)
    ensures e in FilterByTerm(es, text) <==> e in es && MatchesTerm(e, text)
    ensures multiset(FilterByTerm(es, text))[e] == if MatchesTerm(e, text) then multiset(es)[e] else 0
  {
    FilterIsSubsequence(es, e => MatchesTerm(e, text));
    FilterMultiset(es, e => MatchesTerm(e, text), e);
  }

  /** An empty search box shows every expense. */
  lemma EmptyTermKeepsAll(es: seq<Expense>)
    ensures FilterByTerm(es, "") == es
  {
    forall i | 0 <= i < |es| ensures MatchesTerm(es[i], "") {
      ContainsEmpty(Lower(es[i].date));
    }
    FilterAll(es, e => MatchesTerm(e, ""));
  }

  // ---------------------------------------------------------- keyword search

  /** The console search looks for the stripped, lowercased keyword in the
      lowercased date, category and description (not in the amount). */
  function Keyword(input: string): string
  {
    Lower(Strip(input))
  }

  predicate MatchesKeyword(e: Expense, keyword: string)
  {
    Contains(Lower(e.date), keyword) || Contains(Lower(e.category), keyword)
    || Contains(Lower(e.description), keyword)
  }

  /** None when the keyword is empty (the search is refused), otherwise the
      matching expenses in list order. */
  function SearchResults(input: string, es: seq<Expense>): Option<seq<Expense>>
  {
    var k := Keyword(input);
    if k == [] then None else Some(Filter(es, e => MatchesKeyword(e, k)))
  }

  /** The search is refused exactly when the input is blank; otherwise it keeps
      the order and exactly the expenses that mention the keyword, each as
      often as it occurs. */
  lemma SearchResultsSpec(input: string, es: seq<Expense>, e: Expense)
    ensures SearchResults(input, es).None? <==> Strip(input) == []
    ensures SearchResults(input, es).Some? ==>
      IsSubsequence(SearchResults(input, es).value, es)
      && (e in SearchResults(input, es).value <==> e in es && MatchesKeyword(e, Keyword(input)))
      && multiset(SearchResults(input, es).value)[e]
         == if MatchesKeyword(e, Keyword(input)) then multiset(es)[e] else 0
  {
    var k := Keyword(input);
    if k != [] {
      FilterIsSubsequence(es, e => MatchesKeyword(e, k));
      FilterMembership(es, e => MatchesKeyword(e, k), e);
      FilterMultiset(es, e => MatchesKeyword(e, k), e);
    }
  }

  /** Every console hit is also a quick-search hit for the stripped input. */
  lemma KeywordHitIsTermHit(e: Expense, input: string)
    requires MatchesKeyword(e, Keyword(input))
    ensures MatchesTerm(e, Strip(input))
  {
    LowerIdempotent(Strip(input));
  }

  // --------------------------------------------------------- advanced search

  /** The five fields of the advanced search form. */
  datatype Criteria = Criteria(dateFrom: string, dateTo: string, category: string,
                               amountMin: string, amountMax: string)

  /** The form as first shown: no bounds and every category. */
  const NoCriteria := Criteria("", "", "All", "", "")

  /** An expense passes when it is not before a non-empty "from" date, not after
      a non-empty "to" date (string comparison), in the chosen category unless
      that is "All", and within each amount bound that float() accepts. */
  predicate InRange(e: Expense, c: Criteria)
  {
    && !(c.dateFrom != [] && Less(e.date, c.dateFrom))
    && !(c.dateTo != [] && Less(c.dateTo, e.date))
    && !(c.category != "All" && e.category != c.category)
    && !(c.amountMin != [] && ParseNumber(c.amountMin).Some? && e.amount < ParseNumber(c.amountMin).value)
    && !(c.amountMax != [] && ParseNumber(c.amountMax).Some? && e.amount > ParseNumber(c.amountMax).value)
  }

  function AdvancedResults(es: seq<Expense>, c: Criteria): seq<Expense>
  {
    Filter(es, e => InRange(e, c))
  }

  lemma ParseEmpty()
    ensures ParseNumber("") == None
  {
    StripAllSpace("");
  }

  /** The same test stated positively: date bounds are inclusive, and a bound
      that does not parse imposes nothing. */
  lemma InRangeSpec(e: Expense, c: Criteria)
    ensures InRange(e, c) <==>
      && (c.dateFrom == [] || LessEq(c.dateFrom, e.date))
      && (c.dateTo == [] || LessEq(e.date, c.dateTo))
      && (c.category == "All" || e.category == c.category)
      && (ParseNumber(c.amountMin).Some? ==> ParseNumber(c.amountMin).value <= e.amount)
      && (ParseNumber(c.amountMax).Some? ==> e.amount <= ParseNumber(c.amountMax).value)
  {
    LessTotal(e.date, c.dateFrom);
    LessTotal(e.date, c.dateTo);
    LessIrreflexive(e.date);
    if Less(c.dateFrom, e.date) { LessAsymmetric(c.dateFrom, e.date); }
    if Less(e.date, c.dateTo) { LessAsymmetric(e.date, c.dateTo); }
    ParseEmpty();
  }

  /** The advanced search keeps the list order and exactly the expenses in
      range, each as often as it occurs. */
  lemma AdvancedResultsSpec(es: seq<Expense>, c: Criteria, e: Expense)
    ensures IsSubsequence(AdvancedResults(es, c), es)
    ensures e in AdvancedResults(es, c) <==> e in es && InRange(e, c)
    ensures multiset(AdvancedResults(es, c))[e] == if InRange(e, c) then multiset(es)[e] else 0
  {
    FilterIsSubsequence(es, e => InRange(e, c));
    FilterMembership(es, e => InRange(e, c), e);
    FilterMultiset(es, e => InRange(e, c), e);
  }

  /** Empty bounds and the category "All" restrict nothing. */
  lemma NoCriteriaKeepsAll(es: seq<Expense>)
    ensures AdvancedResults(es, NoCriteria) == es
  {
    FilterAll(es, e => InRange(e, NoCriteria));
  }

  /** Each amount bound that float() rejects is ignored on its own, as if it
      were empty, whatever the other bound holds. */
  lemma MalformedBoundsIgnored(es: seq<Expense>, c: Criteria)
    ensures ParseNumber(c.amountMin).None? ==>
      AdvancedResults(es, c) == AdvancedResults(es, c.(amountMin := ""))
    ensures ParseNumber(c.amountMax).None? ==>
      AdvancedResults(es, c) == AdvancedResults(es, c.(amountMax := ""))
  {
    if ParseNumber(c.amountMin).None? {
      var c' := c.(amountMin := "");
      FilterCongruent(es, e => InRange(e, c), e => InRange(e, c'));
    }
    if ParseNumber(c.amountMax).None? {
      var c' := c.(amountMax := "");
      FilterCongruent(es, e => InRange(e, c), e => InRange(e, c'));
    }
  }

  // --------------------------------------------------------------- sort by date

  /** `a` goes strictly before `b` when sorting by date, ascending or (desc) descending. */
  predicate Precedes(a: Expense, b: Expense, desc: bool)
  {
    if desc then Less(b.date, a.date) else Less(a.date, b.date)
  }

  lemma NotLessTransitive(a: string, b: string, c: string)
    requires !Less(a, b) && !Less(b, c)
    ensures !Less(a, c)
  {
    LessTotal(a, b);
    LessTotal(b, c);
    if Less(a, c) {
      if a == b {
      } else if b == c {
      } else {
        LessTransitive(c, b, a);
        LessAsymmetric(a, c);
      }
    }
  }

  lemma NotPrecedesTransitive(a: Expense, b: Expense, c: Expense, desc: bool)
    requires !Precedes(a, b, desc) && !Precedes(b, c, desc)
    ensures !Precedes(a, c, desc)
  {
    if desc {
      NotLessTransitive(c.date, b.date, a.date);
    } else {
      NotLessTransitive(a.date, b.date, c.date);
    }
  }

  /** No expense goes strictly before one that comes earlier in the list. */
  predicate SortedByDate(s: seq<Expense>, desc: bool)
  {
    forall i, j :: 0 <= i < j < |s| ==> !Precedes(s[j], s[i], desc)
  }

  /** Stable insertion: `x` goes after every element it does not strictly precede. */
  function Insert(s: seq<Expense>, x: Expense, desc: bool): (r: seq<Expense>)
    ensures |r| == |s| + 1
    decreases |s|
  {
    if s == [] then [x]
    else if Precedes(x, s[|s| - 1], desc) then Insert(s[..|s| - 1], x, desc) + [s[|s| - 1]]
    else s + [x]
  }

  /** Python's stable sort by date: `list.sort(key=date)` (ascending) or
      `sorted(..., key=date, reverse=True)` (descending). */
  function SortByDate(s: seq<Expense>, desc: bool): (r: seq<Expense>)
    ensures |r| == |s|
    decreases |s|
  {
    if s == [] then [] else Insert(SortByDate(s[..|s| - 1], desc), s[|s| - 1], desc)
  }

  /** Insertion adds `x` and loses nothing. */
  lemma {:induction false} InsertPermutation(s: seq<Expense>, x: Expense, desc: bool)
    ensures multiset(Insert(s, x, desc)) == multiset(s) + multiset{x}
    decreases |s|
  {
    if s != [] && Precedes(x, s[|s| - 1], desc) {
      assert s == s[..|s| - 1] + [s[|s| - 1]];
      InsertPermutation(s[..|s| - 1], x, desc);
    }
  }

  /** The sort is a permutation. */
  lemma {:induction false} SortPermutation(s: seq<Expense>, desc: bool)
    ensures multiset(SortByDate(s, desc)) == multiset(s)
    decreases |s|
  {
    if s != [] {
      assert s == s[..|s| - 1] + [s[|s| - 1]];
      SortPermutation(s[..|s| - 1], desc);
      InsertPermutation(SortByDate(s[..|s| - 1], desc), s[|s| - 1], desc);
    }
  }

  /** The expenses dated `d`, in their order. */
  function OnDate(s: seq<Expense>, d: string): seq<Expense>
  {
    Filter(s, HasDate(d))
  }

  function HasDate(d: string): Expense -> bool
  {
    (e: Expense) => e.date == d
  }

  /** What insertion gives holds only `x` and what was there. */
  lemma InsertMember(s: seq<Expense>, x: Expense, desc: bool, y: Expense)
    requires y in Insert(s, x, desc)
    ensures y == x || y in s
  {
    InsertPermutation(s, x, desc);
    assert y in multiset(Insert(s, x, desc));
  }

  lemma {:induction false} InsertSorted(s: seq<Expense>, x: Expense, desc: bool)
    requires SortedByDate(s, desc)
    ensures SortedByDate(Insert(s, x, desc), desc)
    decreases |s|
  {
    if s != [] {
      var init, last := s[..|s| - 1], s[|s| - 1];
      if Precedes(x, last, desc) {
        InsertSorted(init, x, desc);
        var t := Insert(init, x, desc);
        forall i | 0 <= i < |t| ensures !Precedes(last, t[i], desc) {
          InsertMember(init, x, desc, t[i]);
          if t[i] == x {
            if desc { LessAsymmetric(last.date, x.date); } else { LessAsymmetric(x.date, last.date); }
          } else {
            assert t[i] in init;
            var k :| 0 <= k < |init| && init[k] == t[i];
            assert s[k] == t[i];
          }
        }
      } else {
        forall i | 0 <= i < |s| ensures !Precedes(x, s[i], desc) {
          if i < |s| - 1 {
            NotPrecedesTransitive(x, last, s[i], desc);
          }
        }
      }
    }
  }

  /** The sort orders by date. */
  lemma {:induction false} SortSorted(s: seq<Expense>, desc: bool)
    ensures SortedByDate(SortByDate(s, desc), desc)
    decreases |s|
  {
    if s != [] {
      SortSorted(s[..|s| - 1], desc);
      InsertSorted(SortByDate(s[..|s| - 1], desc), s[|s| - 1], desc);
    }
  }

  lemma {:induction false} InsertOnDate(s: seq<Expense>, x: Expense, desc: bool, d: string)
    ensures OnDate(Insert(s, x, desc), d) == OnDate(s, d) + (if x.date == d then [x] else [])
    decreases |s|
  {
    if s == [] {
      assert OnDate([x], d) == OnDate([], d) + (if x.date == d then [x] else []);
    } else {
      var init, last := s[..|s| - 1], s[|s| - 1];
      if Precedes(x, last, desc) {
        InsertOnDate(init, x, desc, d);
        var t := Insert(init, x, desc);
        assert (t + [last])[..|t|] == t;
        if x.date == d {
          assert last.date != d by {
            if desc { LessIrreflexive(x.date); } else { LessIrreflexive(x.date); }
          }
        }
      } else {
        assert (s + [x])[..|s|] == s;
      }
    }
  }

  /** The sort is stable: the expenses of any one date keep their relative order. */
  lemma {:induction false} SortStable(s: seq<Expense>, desc: bool, d: string)
    ensures OnDate(SortByDate(s, desc), d) == OnDate(s, d)
    decreases |s|
  {
    if s != [] {
      var init := s[..|s| - 1];
      SortStable(init, desc, d);
      InsertOnDate(SortByDate(init, desc), s[|s| - 1], desc, d);
    }
  }

  /** Inserting behind a run of elements that `x` strictly precedes: the run
      stays after `x`. */
  lemma {:induction false} InsertBehind(s: seq<Expense>, x: Expense, desc: bool, j: nat)
    requires j <= |s|
    requires forall k :: j <= k < |s| ==> Precedes(x, s[k], desc)
    ensures Insert(s, x, desc) == Insert(s[..j], x, desc) + s[j..]
    decreases |s| - j
  {
    if j < |s| {
      var init := s[..|s| - 1];
      InsertBehind(init, x, desc, j);
      assert init[..j] == s[..j];
      assert init[j..] + [s[|s| - 1]] == s[j..];
    } else {
      assert s[..j] == s;
    }
  }

  // ----------------------------------------------------------- recent expenses

  /** The report's "last 10": the first ten of the list sorted by date, newest first. */
  function Recent(es: seq<Expense>): seq<Expense>
  {
    var sorted := SortByDate(es, true);
    sorted[..if |sorted| < 10 then |sorted| else 10]
  }

  /** At most ten expenses, newest first, all taken from the list, and none of
      those left out is newer than any that were shown. */
  lemma RecentSpec(es: seq<Expense>)
    ensures |Recent(es)| == if |es| < 10 then |es| else 10
    ensures SortedByDate(Recent(es), true)
    ensures multiset(Recent(es)) <= multiset(es)
    ensures forall i, j :: 0 <= i < |Recent(es)| <= j < |es| ==>
      LessEq(SortByDate(es, true)[j].date, Recent(es)[i].date)
  {
    var sorted := SortByDate(es, true);
    var n := if |sorted| < 10 then |sorted| else 10;
    SortSorted(es, true);
    SortPermutation(es, true);
    assert |sorted| == |multiset(sorted)| == |es|;
    assert sorted == sorted[..n] + sorted[n..];
    forall i, j | 0 <= i < n <= j < |es| ensures LessEq(sorted[j].date, sorted[i].date) {
      LessTotal(sorted[j].date, sorted[i].date);
    }
  }

  /** Expenses of the same date appear in the recent list in their original
      order: the recent list holds a leading run of each date's expenses. */
  lemma RecentStable(es: seq<Expense>, d: string)
    ensures OnDate(Recent(es), d) <= OnDate(es, d)
  {
    var sorted := SortByDate(es, true);
    var n := if |sorted| < 10 then |sorted| else 10;
    SortStable(es, true, d);
    FilterPrefix(sorted, n, HasDate(d));
  }
}
