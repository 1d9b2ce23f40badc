/** What both front ends compute before printing a report: totals by category
    in first-appearance order, the overall total, remaining amounts, usage
    percentages and the warnings. */
module Reports {
  import opened Wrappers
  import opened Seqs
  import opened Dicts
  import opened Records
  import opened Queries

  // ------------------------------------------------------------------ totals

  /** `sum(exp['amount'] for exp in es)`. */
  function Total(es: seq<Expense>): real
    decreases |es|
  {
    if es == [] then 0.0 else Total(es[..|es| - 1]) + es[|es| - 1].amount
  }

  lemma {:induction false} TotalInsert(s: seq<Expense>, x: Expense, desc: bool)
    ensures Total(Insert(s, x, desc)) == Total(s) + x.amount
    decreases |s|
  {
    if s != [] && Precedes(x, s[|s| - 1], desc) {
      var t := Insert(s[..|s| - 1], x, desc);
      TotalInsert(s[..|s| - 1], x, desc);
      assert (t + [s[|s| - 1]])[..|t|] == t;
    } else if s != [] {
      assert (s + [x])[..|s|] == s;
    }
  }

  /** Sorting by date does not change the total. */
  lemma {:induction false} TotalSorted(s: seq<Expense>, desc: bool)
    ensures Total(SortByDate(s, desc)) == Total(s)
    decreases |s|
  {
    if s != [] {
      TotalSorted(s[..|s| - 1], desc);
      TotalInsert(SortByDate(s[..|s| - 1], desc), s[|s| - 1], desc);
    }
  }

  function InCategory(c: string): Expense -> bool
  {
    (e: Expense) => e.category == c
  }

  /** What was spent in one category. */
  function CategorySum(es: seq<Expense>, c: string): real
  {
    Total(Filter(es, InCategory(c)))
  }

  /** The category of each expense, in list order. */
  function CategoryList(es: seq<Expense>): (cs: seq<string>)
    ensures |cs| == |es| && forall i :: 0 <= i < |es| ==> cs[i] == es[i].category
    decreases |es|
  {
    if es == [] then [] else CategoryList(es[..|es| - 1]) + [es[|es| - 1].category]
  }

  /** Where `c` first occurs in `cs`. */
  function FirstIndex(cs: seq<string>, c: string): (i: nat)
    requires c in cs
    ensures i < |cs| && cs[i] == c && forall j :: 0 <= j < i ==> cs[j] != c
    decreases |cs|
  {
    if cs[0] == c then 0 else 1 + FirstIndex(cs[1..], c)
  }

  /** The report loop: a category is added with 0 the first time it is met,
      then each expense's amount is added to its category. */
  function CategoryTotals(es: seq<Expense>): Dict<real>
    decreases |es|
  {
    if es == [] then [] else AddAmount(CategoryTotals(es[..|es| - 1]), es[|es| - 1])
  }

  /** One turn of that loop. */
  function AddAmount(d: Dict<real>, e: Expense): Dict<real>
  {
    AddTo(d, e.category, e.amount)
  }

  lemma CategorySumStep(es: seq<Expense>, c: string)
    requires es != []
    ensures CategorySum(es, c) ==
      CategorySum(es[..|es| - 1], c) + (if es[|es| - 1].category == c then es[|es| - 1].amount else 0.0)
  {
    var init, x := es[..|es| - 1], es[|es| - 1];
    var f := Filter(init, InCategory(c));
    assert Filter(es, InCategory(c)) == f + (if InCategory(c)(x) then [x] else []);
    if x.category == c {
      assert (f + [x])[..|f|] == f;
      assert Total(f + [x]) == Total(f) + x.amount;
    } else {
      assert Filter(es, InCategory(c)) == f;
    }
  }

  /** A category nobody spent in has no expenses. */
  lemma FilterAbsent(es: seq<Expense>, c: string)
    requires c !in CategoryList(es)
    ensures Filter(es, InCategory(c)) == []
  {
    var f := Filter(es, InCategory(c));
    if f != [] {
      FilterMembership(es, InCategory(c), f[0]);
      assert false;
    }
  }

  lemma {:induction false} CategoryTotalsDistinct(es: seq<Expense>)
    ensures DistinctKeys(CategoryTotals(es))
    decreases |es|
  {
    if es != [] {
      CategoryTotalsDistinct(es[..|es| - 1]);
      AddToDistinct(CategoryTotals(es[..|es| - 1]), es[|es| - 1].category, es[|es| - 1].amount);
    }
  }

  /** The totals have an entry for exactly the categories spent in. */
  lemma {:induction false} CategoryTotalsKeys(es: seq<Expense>, c: string)
    ensures c in Keys(CategoryTotals(es)) <==> c in CategoryList(es)
    decreases |es|
  {
    if es != [] {
      var init := es[..|es| - 1];
      CategoryTotalsKeys(init, c);
      AddToKeys(CategoryTotals(init), es[|es| - 1].category, es[|es| - 1].amount);
      assert CategoryList(es) == CategoryList(init) + [es[|es| - 1].category];
    }
  }

  lemma CategoryListStep(es: seq<Expense>, c: string)
    requires es != []
    ensures c in CategoryList(es) <==> c in CategoryList(es[..|es| - 1]) || c == es[|es| - 1].category
  {
    assert CategoryList(es) == CategoryList(es[..|es| - 1]) + [es[|es| - 1].category];
  }

  /** Each category's total is what was spent in it; a category nobody spent
      in has no entry. */
  lemma {:induction false} CategoryTotalsValue(es: seq<Expense>, c: string)
    ensures Get(CategoryTotals(es), c) == if c in CategoryList(es) then Some(CategorySum(es, c)) else None
    decreases |es|
  {
    if es != [] {
      var init, e := es[..|es| - 1], es[|es| - 1];
      var spentBefore := c in CategoryList(init);
      var sumBefore := CategorySum(init, c);
      CategoryTotalsValue(init, c);
      if !spentBefore {
        FilterAbsent(init, c);
      }
      AddAmountStep(CategoryTotals(init), e, c, spentBefore, sumBefore);
      CategorySumStep(es, c);
      CategoryListStep(es, c);
    }
  }

  /** One turn of the report loop seen from one category. */
  lemma AddAmountStep(d: Dict<real>, e: Expense, c: string, spent: bool, sum: real)
    requires Get(d, c) == if spent then Some(sum) else None
    requires !spent ==> sum == 0.0
    ensures Get(AddAmount(d, e), c) ==
      if spent || c == e.category then Some(sum + if c == e.category then e.amount else 0.0) else None
  {
    AddToGet(d, e.category, e.amount, c);
  }

  /** The category totals add up to the total spent. */
  lemma {:induction false} CategoryTotalsSum(es: seq<Expense>)
    ensures SumValues(CategoryTotals(es)) == Total(es)
    decreases |es|
  {
    if es != [] {
      var init := es[..|es| - 1];
      var d := CategoryTotals(init);
      var c := es[|es| - 1].category;
      CategoryTotalsSum(init);
      AddToSum(d, c, es[|es| - 1].amount);
    }
  }

  lemma FirstIndexAppend(cs: seq<string>, x: string, c: string)
    requires c in cs
    ensures FirstIndex(cs + [x], c) == FirstIndex(cs, c)
  {
    var i := FirstIndex(cs, c);
    var j := FirstIndex(cs + [x], c);
    assert (cs + [x])[i] == c;
  }

  /** Every category in the totals was spent in. */
  lemma CategoryTotalsKeyAt(es: seq<Expense>, i: nat)
    requires i < |CategoryTotals(es)|
    ensures CategoryTotals(es)[i].0 in CategoryList(es)
  {
    var r := CategoryTotals(es);
    assert Keys(r)[i] == r[i].0;
    CategoryTotalsKeys(es, r[i].0);
  }

  /** Categories appear in the order in which the list first mentions them. */
  lemma {:induction false} CategoryTotalsOrder(es: seq<Expense>)
    ensures forall i, j :: 0 <= i < j < |CategoryTotals(es)| ==>
      && CategoryTotals(es)[i].0 in CategoryList(es) && CategoryTotals(es)[j].0 in CategoryList(es)
      && FirstIndex(CategoryList(es), CategoryTotals(es)[i].0) < FirstIndex(CategoryList(es), CategoryTotals(es)[j].0)
    decreases |es|
  {
    var r := CategoryTotals(es);
    if es != [] {
      var init, e := es[..|es| - 1], es[|es| - 1];
      var d := CategoryTotals(init);
      var cs := CategoryList(init);
      CategoryTotalsOrder(init);
      assert CategoryList(es) == cs + [e.category];
      assert r == AddTo(d, e.category, e.amount);
      AddToKeys(d, e.category, e.amount);
      forall i, j | 0 <= i < j < |r|
        ensures r[i].0 in CategoryList(es) && r[j].0 in CategoryList(es)
        ensures FirstIndex(CategoryList(es), r[i].0) < FirstIndex(CategoryList(es), r[j].0)
      {
        CategoryTotalsKeyAt(es, i);
        CategoryTotalsKeyAt(es, j);
        OrderStep(init, e, i, j);
      }
    }
  }

  /** The order of two categories after one more turn of the report loop. */
  lemma OrderStep(init: seq<Expense>, e: Expense, i: nat, j: nat)
    requires i < j < |AddAmount(CategoryTotals(init), e)|
    requires j < |CategoryTotals(init)| ==>
      && CategoryTotals(init)[i].0 in CategoryList(init) && CategoryTotals(init)[j].0 in CategoryList(init)
      && FirstIndex(CategoryList(init), CategoryTotals(init)[i].0) < FirstIndex(CategoryList(init), CategoryTotals(init)[j].0)
    ensures var r := AddAmount(CategoryTotals(init), e);
      var cs := CategoryList(init) + [e.category];
      r[i].0 in cs && r[j].0 in cs && FirstIndex(cs, r[i].0) < FirstIndex(cs, r[j].0)
  {
    var d := CategoryTotals(init);
    var r := AddAmount(d, e);
    var cs := CategoryList(init);
    AddToKeys(d, e.category, e.amount);
    assert Keys(r)[i] == r[i].0 && Keys(r)[j] == r[j].0 && Keys(d)[i] == d[i].0;
    assert r[i].0 == d[i].0;
    CategoryTotalsKeyAt(init, i);
    FirstIndexAppend(cs, e.category, d[i].0);
    if j < |d| {
      assert Keys(d)[j] == d[j].0;
      CategoryTotalsKeyAt(init, j);
      FirstIndexAppend(cs, e.category, d[j].0);
    } else {
      assert r[j].0 == e.category;
      CategoryTotalsKeys(init, e.category);
      assert FirstIndex(cs + [e.category], e.category) == |cs|;
    }
  }

  // -------------------------------------------------------- grouping by category

  /** The console's grouping loop: each expense is appended to its category's
      list, a category's list being created the first time it is met. */
  function Groups(es: seq<Expense>): Dict<seq<Expense>>
    decreases |es|
  {
    if es == [] then [] else AddToGroup(Groups(es[..|es| - 1]), es[|es| - 1])
  }

  /** One turn of that loop. */
  function AddToGroup(g: Dict<seq<Expense>>, e: Expense): Dict<seq<Expense>>
  {
    AppendTo(g, e.category, e)
  }

  /** The groups have the categories of the totals, in the same order. */
  lemma {:induction false} GroupsKeys(es: seq<Expense>)
    ensures Keys(Groups(es)) == Keys(CategoryTotals(es))
    decreases |es|
  {
    if es != [] {
      var init, e := es[..|es| - 1], es[|es| - 1];
      GroupsKeys(init);
      AppendToKeys(Groups(init), e.category, e);
      AddToKeys(CategoryTotals(init), e.category, e.amount);
    }
  }

  /** Each group holds exactly its category's expenses, in list order; a
      category nobody spent in has no group. */
  lemma {:induction false} GroupsGet(es: seq<Expense>, c: string)
    ensures Get(Groups(es), c) == if c in CategoryList(es) then Some(Filter(es, InCategory(c))) else None
    decreases |es|
  {
    if es != [] {
      var init, e := es[..|es| - 1], es[|es| - 1];
      var g := Groups(init);
      AppendToGet(g, e.category, e, c);
      CategoryListStep(es, c);
      if c == e.category {
        GroupsGet(init, c);
        if c !in CategoryList(init) {
          FilterAbsent(init, c);
        }
        assert GetOr(g, c, []) == Filter(init, InCategory(c));
        assert Filter(es, InCategory(c)) == Filter(init, InCategory(c)) + [e];
      } else {
        GroupsGet(init, c);
        assert Filter(es, InCategory(c)) == Filter(init, InCategory(c));
      }
    }
  }

  // ----------------------------------------------------------- report lines

  /** A category's line of a report: what was spent, its budget (0 when the
      budget has no such category), what remains and the percentage used. */
  datatype CategoryLine = CategoryLine(category: string, spent: real, budget: real, remaining: real, usage: real)

  /** A line of the console's budget analysis: a budgeted category, what was
      spent in it, its budget and what remains (no percentage). */
  datatype BudgetRow = BudgetRow(category: string, spent: real, budget: real, remaining: real)

  /** `spent / budget * 100` guarded against a budget that is not positive. */
  function Usage(spent: real, budget: real): (u: real)
    ensures budget <= 0.0 ==> u == 0.0
    ensures budget > 0.0 ==> u * budget == spent * 100.0
  {
    if budget > 0.0 then spent / budget * 100.0 else 0.0
  }

  function LineFor(category: string, spent: real, budgets: Budget): CategoryLine
  {
    var b := GetOr(budgets, category, 0.0);
    CategoryLine(category, spent, b, b - spent, Usage(spent, b))
  }

  /** One line per category total, in the totals' order. */
  function CategoryLines(totals: Dict<real>, budgets: Budget): (ls: seq<CategoryLine>)
    ensures |ls| == |totals|
    ensures forall i :: 0 <= i < |totals| ==> ls[i] == LineFor(totals[i].0, totals[i].1, budgets)
    decreases |totals|
  {
    if totals == [] then []
    else
      var n := |totals| - 1;
      CategoryLines(totals[..n], budgets) + [LineFor(totals[n].0, totals[n].1, budgets)]
  }

  /** A budget line of the console's grouped view: for each budgeted category,
      what was spent in it and what remains. */
  function BudgetAnalysis(es: seq<Expense>, budget: Budget): (ls: seq<BudgetRow>)
    ensures |ls| == |budget|
    decreases |budget|
  {
    if budget == [] then []
    else
      var n := |budget| - 1;
      var (c, b) := budget[n];
      BudgetAnalysis(es, budget[..n]) + [BudgetRow(c, CategorySum(es, c), b, b - CategorySum(es, c))]
  }

  /** Every budgeted category is analysed in the budget's order, with what was
      spent in it, its budget and the difference. */
  lemma {:induction false} BudgetAnalysisSpec(es: seq<Expense>, budget: Budget)
    ensures forall i :: 0 <= i < |budget| ==>
      && BudgetAnalysis(es, budget)[i].category == budget[i].0
      && BudgetAnalysis(es, budget)[i].spent == CategorySum(es, budget[i].0)
      && BudgetAnalysis(es, budget)[i].budget == budget[i].1
      && BudgetAnalysis(es, budget)[i].remaining == budget[i].1 - CategorySum(es, budget[i].0)
    decreases |budget|
  {
    if budget != [] {
      BudgetAnalysisSpec(es, budget[..|budget| - 1]);
    }
  }

  /** The lines of a report: one per category spent in, in the totals' order. */
  function ReportLines(es: seq<Expense>, budgets: Budget): seq<CategoryLine>
  {
    CategoryLines(CategoryTotals(es), budgets)
  }

  /** Each line of a report is a category spent in, with its total, its budget
      (0 when missing), the remainder and the percentage of the budget used
      (0 unless the budget is positive). */
  lemma ReportLineAt(es: seq<Expense>, budgets: Budget, i: nat)
    requires i < |CategoryTotals(es)|
    ensures var l := ReportLines(es, budgets)[i];
      && l.category in CategoryList(es)
      && l.spent == CategorySum(es, l.category)
      && l.budget == GetOr(budgets, l.category, 0.0)
      && l.remaining == l.budget - l.spent
      && l.usage == Usage(l.spent, l.budget)
  {
    var d := CategoryTotals(es);
    assert Keys(d)[i] == d[i].0;
    CategoryTotalsKeys(es, d[i].0);
    CategoryTotalsDistinct(es);
    GetEntry(d, i);
    CategoryTotalsValue(es, d[i].0);
  }

  /** Every category spent in has a line. */
  lemma ReportLineFor(es: seq<Expense>, budgets: Budget, c: string)
    requires c in CategoryList(es)
    ensures exists i :: 0 <= i < |CategoryTotals(es)| && ReportLines(es, budgets)[i].category == c
  {
    var d := CategoryTotals(es);
    CategoryTotalsKeys(es, c);
    var i :| 0 <= i < |d| && Keys(d)[i] == c;
    assert ReportLines(es, budgets)[i].category == c;
  }

  /** The lines of a report: exactly the categories spent in, each once, with
      its total, its budget (0 when missing), the remainder and the percentage
      of the budget used. */
  lemma ReportLinesSpec(es: seq<Expense>, budgets: Budget)
    ensures var ls := ReportLines(es, budgets);
      && (forall c :: (exists i :: 0 <= i < |ls| && ls[i].category == c) <==> c in CategoryList(es))
      && (forall i, j :: 0 <= i < j < |ls| ==> ls[i].category != ls[j].category)
      && (forall i :: 0 <= i < |ls| ==>
            && ls[i].spent == CategorySum(es, ls[i].category)
            && ls[i].budget == GetOr(budgets, ls[i].category, 0.0)
            && ls[i].remaining == ls[i].budget - ls[i].spent
            && ls[i].usage == Usage(ls[i].spent, ls[i].budget))
  {
    var d := CategoryTotals(es);
    var ls := ReportLines(es, budgets);
    forall c ensures (exists i :: 0 <= i < |ls| && ls[i].category == c) <==> c in CategoryList(es) {
      if c in CategoryList(es) {
        ReportLineFor(es, budgets, c);
      }
      if i :| 0 <= i < |ls| && ls[i].category == c {
        ReportLineAt(es, budgets, i);
      }
    }
    forall i, j | 0 <= i < j < |ls| ensures ls[i].category != ls[j].category {
      CategoryTotalsDistinct(es);
      assert ls[i].category == d[i].0 && ls[j].category == d[j].0;
    }
    forall i | 0 <= i < |ls|
      ensures ls[i].spent == CategorySum(es, ls[i].category)
      ensures ls[i].budget == GetOr(budgets, ls[i].category, 0.0)
      ensures ls[i].remaining == ls[i].budget - ls[i].spent
      ensures ls[i].usage == Usage(ls[i].spent, ls[i].budget)
    {
      ReportLineAt(es, budgets, i);
    }
  }

  // ------------------------------------------------------------------ reports

  /** A per-category warning: the category and by how much it went over. */
  datatype Overrun = Overrun(category: string, excess: real)

  /** The categories whose spending is above their budget, in line order. */
  function Overruns(ls: seq<CategoryLine>): seq<Overrun>
    decreases |ls|
  {
    if ls == [] then []
    else
      var l := ls[|ls| - 1];
      Overruns(ls[..|ls| - 1]) + (if l.spent > l.budget then [Overrun(l.category, l.spent - l.budget)] else [])
  }

  /** The window's report, or the single message shown when there is nothing
      to report. */
  datatype GuiReport =
    | NoExpensesToReport
    | GuiReport(totalSpent: real, totalBudget: real, remaining: real, usage: real,
                lines: seq<CategoryLine>, recent: seq<Expense>,
                totalExceeded: bool, overruns: seq<Overrun>, allWithin: bool)

  /** Neither the overall remainder nor any category's remainder is negative. */
  predicate AllWithin(remaining: real, ls: seq<CategoryLine>)
  {
    !(remaining < 0.0 || exists i :: 0 <= i < |ls| && ls[i].remaining < 0.0)
  }

  function GuiReportOf(es: seq<Expense>, budgets: Budget): GuiReport
  {
    if es == [] then NoExpensesToReport
    else
      var spent := Total(es);
      var budget := SumValues(budgets);
      var ls := ReportLines(es, budgets);
      GuiReport(spent, budget, budget - spent, Usage(spent, budget), ls, Recent(es),
                budget - spent < 0.0, Overruns(ls), AllWithin(budget - spent, ls))
  }

  /** A line whose spending is above its budget. */
  predicate IsOver(l: CategoryLine)
  {
    l.spent > l.budget
  }

  /** The warning `o` is the one line `l` calls for. */
  predicate Explains(l: CategoryLine, o: Overrun)
  {
    l.category == o.category && o.excess == l.spent - l.budget && IsOver(l)
  }

  /** Every warning is called for by some line. */
  lemma {:induction false} OverrunsSound(ls: seq<CategoryLine>, k: nat)
    requires k < |Overruns(ls)|
    ensures exists i :: 0 <= i < |ls| && Explains(ls[i], Overruns(ls)[k])
    decreases |ls|
  {
    var init := ls[..|ls| - 1];
    var o := Overruns(init);
    if k < |o| {
      assert Overruns(ls)[k] == o[k];
      OverrunsSound(init, k);
      var i :| 0 <= i < |init| && Explains(init[i], o[k]);
      assert ls[i] == init[i];
    } else {
      assert Explains(ls[|ls| - 1], Overruns(ls)[k]);
    }
  }

  /** A category has a warning exactly when one of its lines is over budget. */
  lemma {:induction false} OverrunsComplete(ls: seq<CategoryLine>, c: string)
    ensures (exists k :: 0 <= k < |Overruns(ls)| && Overruns(ls)[k].category == c)
      <==> exists i :: 0 <= i < |ls| && ls[i].category == c && IsOver(ls[i])
    decreases |ls|
  {
    if ls != [] {
      var init := ls[..|ls| - 1];
      OverrunsComplete(init, c);
      var o := Overruns(init);
      var r := Overruns(ls);
      assert forall k :: 0 <= k < |o| ==> r[k] == o[k];
      assert forall i :: 0 <= i < |init| ==> ls[i] == init[i];
      if exists i :: 0 <= i < |ls| && ls[i].category == c && IsOver(ls[i]) {
        var i :| 0 <= i < |ls| && ls[i].category == c && IsOver(ls[i]);
        if i == |init| {
          assert r[|o|].category == c;
        }
      }
      if exists k :: 0 <= k < |r| && r[k].category == c {
        var k :| 0 <= k < |r| && r[k].category == c;
        if k == |o| {
          assert ls[|init|].category == c && IsOver(ls[|init|]);
        }
      }
    }
  }

  lemma OverrunFor(es: seq<Expense>, budgets: Budget, c: string)
    ensures (exists k :: 0 <= k < |Overruns(ReportLines(es, budgets))| && Overruns(ReportLines(es, budgets))[k].category == c)
      <==> c in CategoryList(es) && CategorySum(es, c) > GetOr(budgets, c, 0.0)
  {
    var ls := ReportLines(es, budgets);
    OverrunsComplete(ls, c);
    if exists i :: 0 <= i < |ls| && ls[i].category == c && IsOver(ls[i]) {
      var i :| 0 <= i < |ls| && ls[i].category == c && IsOver(ls[i]);
      ReportLineAt(es, budgets, i);
    }
    if c in CategoryList(es) && CategorySum(es, c) > GetOr(budgets, c, 0.0) {
      ReportLineFor(es, budgets, c);
      var i :| 0 <= i < |ls| && ls[i].category == c;
      ReportLineAt(es, budgets, i);
      assert IsOver(ls[i]);
    }
  }

  lemma OverrunExcess(es: seq<Expense>, budgets: Budget, k: nat)
    requires k < |Overruns(ReportLines(es, budgets))|
    ensures var o := Overruns(ReportLines(es, budgets))[k];
      o.excess == CategorySum(es, o.category) - GetOr(budgets, o.category, 0.0)
  {
    var ls := ReportLines(es, budgets);
    OverrunsSound(ls, k);
    var i :| 0 <= i < |ls| && Explains(ls[i], Overruns(ls)[k]);
    ReportLineAt(es, budgets, i);
  }

  /** An "exceeded" warning is given for a category exactly when it was spent
      in and its spending is above its budget (a missing budget counting as 0);
      each warning gives the excess. */
  lemma OverrunWarnings(es: seq<Expense>, budgets: Budget, c: string)
    requires es != []
    ensures var r := GuiReportOf(es, budgets);
      && ((exists k :: 0 <= k < |r.overruns| && r.overruns[k].category == c)
          <==> c in CategoryList(es) && CategorySum(es, c) > GetOr(budgets, c, 0.0))
      && (forall k :: 0 <= k < |r.overruns| ==>
            r.overruns[k].excess == CategorySum(es, r.overruns[k].category) - GetOr(budgets, r.overruns[k].category, 0.0))
  {
    var os := GuiReportOf(es, budgets).overruns;
    assert os == Overruns(ReportLines(es, budgets));
    OverrunFor(es, budgets, c);
    forall k | 0 <= k < |os|
      ensures os[k].excess == CategorySum(es, os[k].category) - GetOr(budgets, os[k].category, 0.0)
    {
      OverrunExcess(es, budgets, k);
    }
  }

  lemma {:induction false} OverrunsEmpty(ls: seq<CategoryLine>)
    requires forall i :: 0 <= i < |ls| ==> ls[i].remaining == ls[i].budget - ls[i].spent
    ensures Overruns(ls) == [] <==> forall i :: 0 <= i < |ls| ==> ls[i].remaining >= 0.0
    decreases |ls|
  {
    if ls != [] {
      OverrunsEmpty(ls[..|ls| - 1]);
    }
  }

  /** "All budgets are within limits" is shown exactly when no warning is: the
      total budget is not exceeded and no category is over its budget. */
  lemma AllWithinIffNoWarnings(es: seq<Expense>, budgets: Budget)
    requires es != []
    ensures var r := GuiReportOf(es, budgets);
      r.allWithin <==> !r.totalExceeded && r.overruns == []
  {
    var r := GuiReportOf(es, budgets);
    ReportLinesSpec(es, budgets);
    OverrunsEmpty(r.lines);
  }

  /** The report's figures: the lines' spending adds up to the total spent,
      the overall remainder is the budget total minus that, and usage is the
      percentage of the budget total spent, 0 unless that total is positive. */
  lemma GuiReportTotals(es: seq<Expense>, budgets: Budget)
    ensures GuiReportOf(es, budgets).NoExpensesToReport? <==> es == []
    ensures es != [] ==> var r := GuiReportOf(es, budgets);
      && SumSpent(r.lines) == r.totalSpent == Total(es)
      && r.totalBudget == SumValues(budgets)
      && r.remaining == r.totalBudget - r.totalSpent
      && (r.totalExceeded <==> r.totalSpent > r.totalBudget)
      && (r.totalBudget <= 0.0 ==> r.usage == 0.0)
      && r.usage == Usage(r.totalSpent, r.totalBudget)
  {
    if es != [] {
      CategoryTotalsSum(es);
      SumSpentLines(CategoryTotals(es), budgets);
    }
  }

  /** The spending of a list of lines, added up. */
  function SumSpent(ls: seq<CategoryLine>): real
    decreases |ls|
  {
    if ls == [] then 0.0 else ls[0].spent + SumSpent(ls[1..])
  }

  lemma {:induction false} SumSpentLines(totals: Dict<real>, budgets: Budget)
    ensures SumSpent(CategoryLines(totals, budgets)) == SumValues(totals)
    decreases |totals|
  {
    if totals != [] {
      var ls := CategoryLines(totals, budgets);
      SumSpentLines(totals[1..], budgets);
      assert ls[1..] == CategoryLines(totals[1..], budgets);
    }
  }

  /** The console report: per-category lines and the overall figures with
      one warning, or nothing to report. */
  datatype CliReport =
    | NoExpenses
    | CliReport(totalSpent: real, totalBudget: real, remaining: real, usage: real,
                lines: seq<CategoryLine>, totalExceeded: bool)

  function CliReportOf(es: seq<Expense>, budget: Budget): CliReport
  {
    if es == [] then NoExpenses
    else
      var spent := Total(es);
      var total := SumValues(budget);
      CliReport(spent, total, total - spent, Usage(spent, total),
                ReportLines(es, budget), total - spent < 0.0)
  }

  /** The console and the window report the same figures and lines. */
  lemma CliMatchesGui(es: seq<Expense>, budget: Budget)
    requires es != []
    ensures var c := CliReportOf(es, budget);
      var g := GuiReportOf(es, budget);
      && c.totalSpent == g.totalSpent && c.totalBudget == g.totalBudget
      && c.remaining == g.remaining && c.lines == g.lines
      && c.usage == g.usage && c.totalExceeded == g.totalExceeded
  {
  }
}
