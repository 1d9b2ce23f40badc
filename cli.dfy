/** The console front end: functions that read the expense and budget files,
    change what they read and write it back, and the grouped, sorted, searched
    and summarised views of the expense list. */
module Cli {
  import opened Wrappers
  import opened Seqs
  import opened Text
  import opened Numbers
  import opened Dicts
  import opened Records
  import opened Queries
  import opened Reports
  import Dates

  /** The budget written when there is no budget file: Food, Transportation
      and Entertainment. */
  const DefaultBudget: Budget := [("Food", 1000.0), ("Transportation", 500.0), ("Entertainment", 300.0)]

  // ------------------------------------------------------------ expense file

  /** read_expenses over the file's text (None when there is no file): the
      records in file order, or the float() error that ends the whole read. */
  function LoadExpenses(file: Option<string>): Result<seq<Expense>, LoadError>
  {
    if file.None? then Ok([])
    else
      var loaded := DecodeLines(FileLines(file.value));
      if loaded.failed then Err(InvalidNumber) else Ok(loaded.expenses)
  }

  /** Writing well-formed records and reading the file back gives them back;
      a file with a bad amount gives no records at all. */
  lemma LoadExpensesSpec(es: seq<Expense>, text: string)
    requires forall i :: 0 <= i < |es| ==> WellFormed(es[i])
    ensures LoadExpenses(Some(EncodeExpenses(es))) == Ok(es)
    ensures LoadExpenses(Some(text)).Err? <==> DecodeLines(FileLines(text)).failed
  {
    SaveLoadExpenses(es);
  }

  /** read_expenses, line by line. */
  method ReadExpenses(file: Option<string>) returns (r: Result<seq<Expense>, LoadError>)
    ensures r == LoadExpenses(file)
  {
    if file.None? {
      return Ok([]);
    }
    var loaded := ReadRecords(FileLines(file.value));
    if loaded.failed {
      return Err(InvalidNumber);
    }
    r := Ok(loaded.expenses);
  }

  /** write_expenses: the text of the new file. */
  method WriteExpenses(expenses: seq<Expense>) returns (text: string)
    ensures text == EncodeExpenses(expenses)
  {
    text := [];
    var i := 0;
    while i < |expenses|
      invariant 0 <= i <= |expenses|
      invariant text == EncodeExpenses(expenses[..i])
    {
      EncodeExpensesStep(expenses, i);
      var e := expenses[i];
      text := text + (e.date + "\t" + e.category + "\t" + FormatAmount(e.amount) + "\t" + e.description) + "\n";
      i := i + 1;
    }
    assert expenses[..i] == expenses;
  }

  // ------------------------------------------------------------- budget file

  /** read_budget over the file's text: the dictionary the lines give, or the
      error that ends the read; with no file, the default budget. */
  function LoadBudget(file: Option<string>): Result<Budget, LoadError>
  {
    if file.None? then Ok(DefaultBudget) else DecodeBudget(FileLines(file.value))
  }

  /** read_budget, line by line. With no file the default budget is returned
      and written out: `written` is the new file's text. */
  method ReadBudget(file: Option<string>) returns (r: Result<Budget, LoadError>, written: Option<string>)
    ensures r == LoadBudget(file)
    ensures written == if file.None? then Some(EncodeBudget(DefaultBudget)) else None
  {
    if file.None? {
      var text := WriteBudget(DefaultBudget);
      return Ok(DefaultBudget), Some(text);
    }
    r := DecodeBudgetFile(FileLines(file.value));
    written := None;
  }

  /** The lines of an existing budget file, read in order until one fails. */
  method DecodeBudgetFile(lines: seq<string>) returns (r: Result<Budget, LoadError>)
    ensures r == DecodeBudget(lines)
  {
    var budget: Budget := [];
    var i := 0;
    while i < |lines|
      invariant 0 <= i <= |lines|
      invariant DecodeBudget(lines[..i]) == Ok(budget)
    {
      DecodeBudgetStep(lines, i);
      var entry := ReadBudgetLine(lines[i]);
      match entry {
        case BadLine(e) =>
          DecodeBudgetStopped(lines, i + 1);
          return Err(e);
        case Entry(category, amount) =>
          budget := Put(budget, category, amount);
        case NoEntry =>
      }
      i := i + 1;
    }
    assert lines[..i] == lines;
    r := Ok(budget);
  }

  /** The body of the reading loop for one line of the budget file, written
      as the source's statements and proved to give what DecodeBudgetLine
      specifies: blank lines and lines without ':' are skipped, a line must
      split into exactly two parts around ':', and the second must be a
      number. */
  method ReadBudgetLine(text: string) returns (entry: BudgetLineResult)
    ensures entry == DecodeBudgetLine(text)
  {
    var line := Strip(text);
    if line == [] || ':' !in line {
      return NoEntry;
    }
    var parts := Split(line, ':');
    if |parts| != 2 {
      return BadLine(TooManyValues);
    }
    var amount := ParseNumber(Strip(parts[1]));
    if amount.None? {
      return BadLine(InvalidNumber);
    }
    entry := Entry(Strip(parts[0]), amount.value);
  }

  /** write_budget: the text of the new file. */
  method WriteBudget(budget: Budget) returns (text: string)
    ensures text == EncodeBudget(budget)
  {
    text := [];
    var i := 0;
    while i < |budget|
      invariant 0 <= i <= |budget|
      invariant text == EncodeBudget(budget[..i])
    {
      EncodeBudgetStep(budget, i);
      var (category, amount) := budget[i];
      text := text + (category + ":" + FormatAmount(amount)) + "\n";
      i := i + 1;
    }
    assert budget[..i] == budget;
  }

  /** The default budget is written so that reading it back gives it again. */
  lemma DefaultBudgetRoundTrip()
    ensures LoadBudget(Some(EncodeBudget(DefaultBudget))) == LoadBudget(None)
  {
    DefaultBudgetWellFormed();
    SaveLoadBudget(DefaultBudget);
  }

  lemma DefaultBudgetWellFormed()
    ensures BudgetWellFormed(DefaultBudget)
  {
    EntriesWellFormed(DefaultBudget);
  }

  /** Distinct keys without ':', line breaks or surrounding whitespace, and
      whole-cent amounts, make a budget that survives a save and a load. */
  lemma EntriesWellFormed(b: Budget)
    requires DistinctKeys(b)
    requires forall i :: 0 <= i < |b| ==>
      var k := b[i].0;
      k != [] && !IsSpace(k[0]) && !IsSpace(k[|k| - 1]) && ':' !in k && '\n' !in k && '\r' !in k
    requires forall i :: 0 <= i < |b| ==> IsCents(b[i].1)
    ensures BudgetWellFormed(b)
  {
    forall i | 0 <= i < |b| ensures CategoryKeyOk(b[i].0) {
      StripUnchanged(b[i].0);
    }
  }

  // ------------------------------------------------------------- new expense

  /** Which prompt of add_expense would ask again. */
  datatype InputError = BadDate | BadChoice | AmountRejected

  /** The categories offered by add_expense's menu, in menu order. */
  const MenuCategories: seq<string> := ["Food", "Transportation", "Entertainment", "Other"]

  /** The menu choices of add_expense: "1" to "4" pick a category in menu
      order; anything else is refused. */
  function CategoryOfChoice(choice: string): (c: Option<string>)
    ensures c.Some? <==> choice in ["1", "2", "3", "4"]
    ensures c.Some? ==> c.value in MenuCategories
  {
    if choice == "1" then Some(MenuCategories[0])
    else if choice == "2" then Some(MenuCategories[1])
    else if choice == "3" then Some(MenuCategories[2])
    else if choice == "4" then Some(MenuCategories[3])
    else None
  }

  /** The record add_expense builds from the answers to its prompts, each
      answer stripped first: a valid date, a menu choice 1-4, a positive amount;
      an empty description becomes "No description". */
  function NewExpense(date: string, choice: string, amount: string, description: string): Result<Expense, InputError>
  {
    var d := Strip(date);
    var c := CategoryOfChoice(Strip(choice));
    var a := Strip(amount);
    var text := Strip(description);
    if !Dates.ValidateDate(d) then Err(BadDate)
    else if c.None? then Err(BadChoice)
    else if !ValidateAmount(a) then Err(AmountRejected)
    else Ok(Expense(d, c.value, ParseNumber(a).value, if text == [] then "No description" else text))
  }

  /** A new record holds the stripped answers: the date, the chosen menu
      category, the amount float() reads, and the description unless that was
      blank. It has a valid date, one of the four menu categories, a positive
      amount and a non-empty description. The prompt asked again is the first
      whose check fails. */
  lemma NewExpenseSpec(date: string, choice: string, amount: string, description: string)
    ensures var r := NewExpense(date, choice, amount, description);
      r.Ok? ==>
        && r.value == Expense(Strip(date), CategoryOfChoice(Strip(choice)).value,
                              ParseNumber(Strip(amount)).value,
                              if Strip(description) == [] then "No description" else Strip(description))
        && Dates.ValidateDate(r.value.date)
        && r.value.category in MenuCategories
        && r.value.amount > 0.0
        && r.value.description != []
        && (r.value.description == "No description" <==> Strip(description) == [] || Strip(description) == "No description")
    ensures NewExpense(date, choice, amount, description).Err? <==>
      !Dates.ValidateDate(Strip(date)) || CategoryOfChoice(Strip(choice)).None? || !ValidateAmount(Strip(amount))
    ensures var r := NewExpense(date, choice, amount, description);
      && (r == Err(BadDate) <==> !Dates.ValidateDate(Strip(date)))
      && (r == Err(BadChoice) <==> Dates.ValidateDate(Strip(date)) && CategoryOfChoice(Strip(choice)).None?)
      && (r == Err(AmountRejected) <==>
            Dates.ValidateDate(Strip(date)) && CategoryOfChoice(Strip(choice)).Some? && !ValidateAmount(Strip(amount)))
  {
  }

  /** add_expense after its prompts: read the file, append the record, and
      give the text written back (or the read's error). */
  method AddExpense(file: Option<string>, e: Expense) returns (r: Result<string, LoadError>)
    ensures LoadExpenses(file).Err? ==> r == Err(LoadExpenses(file).error)
    ensures LoadExpenses(file).Ok? ==> r == Ok(EncodeExpenses(LoadExpenses(file).value + [e]))
  {
    var read := ReadExpenses(file);
    if read.Err? {
      return Err(read.error);
    }
    var expenses := read.value + [e];
    var text := WriteExpenses(expenses);
    r := Ok(text);
  }

  /** Adding a well-formed record to a file of well-formed records: reading
      the new file gives the old records, unchanged and in order, then the
      new one. */
  lemma AddExpenseAppends(es: seq<Expense>, e: Expense)
    requires forall i :: 0 <= i < |es| ==> WellFormed(es[i])
    requires WellFormed(e)
    ensures LoadExpenses(Some(EncodeExpenses(es + [e]))) == Ok(es + [e])
    ensures (es + [e])[..|es|] == es
  {
    var all := es + [e];
    assert forall i :: 0 <= i < |all| ==> WellFormed(all[i]);
    SaveLoadExpenses(all);
  }

  // ------------------------------------------------------------ edit budgets

  /** Why edit_budgets would ask again. */
  datatype EditError = ChoiceOutOfRange | NotANumber | NegativeBudget

  /** edit_budgets after its prompts: the category at position `choice`
      (counting from 1) of the budget's keys gets the amount typed, which must
      be a number that is not negative. */
  function EditBudget(b: Budget, choice: int, amountText: string): Result<Budget, EditError>
  {
    if !(1 <= choice <= |b|) then Err(ChoiceOutOfRange)
    else
      match ParseNumber(amountText)
      case None => Err(NotANumber)
      case Some(v) =>
        if v >= 0.0 then Ok(Put(b, Keys(b)[choice - 1], v)) else Err(NegativeBudget)
  }

  /** Editing changes only the chosen category's value, to a value that is not
      negative; every other entry and the order of the keys stay as they were. */
  lemma EditBudgetSpec(b: Budget, choice: int, amountText: string)
    requires DistinctKeys(b)
    ensures var r := EditBudget(b, choice, amountText);
      && (r.Ok? <==> 1 <= choice <= |b| && ParseNumber(amountText).Some? && ParseNumber(amountText).value >= 0.0)
      && (r.Ok? ==>
            && |r.value| == |b|
            && r.value[choice - 1] == (b[choice - 1].0, ParseNumber(amountText).value)
            && (forall i :: 0 <= i < |b| && i != choice - 1 ==> r.value[i] == b[i])
            && r.value[choice - 1].1 >= 0.0)
  {
    var r := EditBudget(b, choice, amountText);
    if r.Ok? {
      PutExisting(b, choice - 1, ParseNumber(amountText).value);
    }
  }

  // ------------------------------------------------------------ views

  /** What the grouped view shows: the expenses grouped by category, the
      total spent, and one line per budget entry with what was spent in it. */
  datatype CategoryView = CategoryView(groups: Dict<seq<Expense>>, total: real, analysis: seq<BudgetRow>)

  /** categorize_and_display_expenses: nothing for an empty list, otherwise
      the grouped view. */
  method CategorizeExpenses(expenses: seq<Expense>, budget: Budget) returns (r: Option<CategoryView>)
    ensures r.None? <==> expenses == []
    ensures r.Some? ==> r.value == CategoryView(Groups(expenses), Total(expenses), BudgetAnalysis(expenses, budget))
  {
    if expenses == [] {
      return None;
    }
    var groups: Dict<seq<Expense>> := [];
    var total := 0.0;
    var i := 0;
    while i < |expenses|
      invariant 0 <= i <= |expenses|
      invariant groups == Groups(expenses[..i])
      invariant total == Total(expenses[..i])
    {
      assert expenses[..i + 1][..i] == expenses[..i];
      groups := AppendTo(groups, expenses[i].category, expenses[i]);
      total := total + expenses[i].amount;
      i := i + 1;
    }
    assert expenses[..i] == expenses;
    var analysis := AnalyseBudget(expenses, budget);
    r := Some(CategoryView(groups, total, analysis));
  }

  /** The budget comparison under the grouped view: for each budget entry,
      what was spent in its category and what remains. */
  method AnalyseBudget(expenses: seq<Expense>, budget: Budget) returns (analysis: seq<BudgetRow>)
    ensures analysis == BudgetAnalysis(expenses, budget)
  {
    analysis := [];
    var j := 0;
    while j < |budget|
      invariant 0 <= j <= |budget|
      invariant analysis == BudgetAnalysis(expenses, budget[..j])
    {
      assert budget[..j + 1][..j] == budget[..j];
      var (category, amount) := budget[j];
      var spent := CategorySum(expenses, category);
      analysis := analysis + [BudgetRow(category, spent, amount, amount - spent)];
      j := j + 1;
    }
    assert budget[..j] == budget;
  }

  /** The grouped view shows every expense once, under its own category, with
      each group's total being what was spent in that category. */
  lemma CategorizeSpec(es: seq<Expense>, c: string)
    ensures Keys(Groups(es)) == Keys(CategoryTotals(es))
    ensures c in CategoryList(es) ==>
      Get(Groups(es), c) == Some(Filter(es, InCategory(c)))
      && Total(Get(Groups(es), c).value) == CategorySum(es, c)
    ensures c !in CategoryList(es) ==> Get(Groups(es), c) == None
  {
    GroupsKeys(es);
    GroupsGet(es, c);
  }

  /** view_expenses: the list sorted in place by date (stably, oldest first)
      and its total. */
  method ViewExpenses(a: array<Expense>) returns (total: real)
    modifies a
    ensures a[..] == SortByDate(old(a[..]), false)
    ensures total == Total(old(a[..]))
  {
    SortInPlace(a);
    total := ListTotal(a[..]);
    TotalSorted(old(a[..]), false);
  }

  /** The listing loop of view_expenses and search_expenses: each row is
      shown and its amount added to the running total. */
  method ListTotal(rows: seq<Expense>) returns (total: real)
    ensures total == Total(rows)
  {
    total := 0.0;
    var i := 0;
    while i < |rows|
      invariant 0 <= i <= |rows|
      invariant total == Total(rows[..i])
    {
      assert rows[..i + 1][..i] == rows[..i];
      total := total + rows[i].amount;
      i := i + 1;
    }
    assert rows[..i] == rows;
  }

  /** `list.sort(key=date)`: a stable sort by date, done in place by insertion. */
  method SortInPlace(a: array<Expense>)
    modifies a
    ensures a[..] == SortByDate(old(a[..]), false)
  {
    ghost var orig := a[..];
    var i := 0;
    while i < a.Length
      invariant 0 <= i <= a.Length
      invariant a[..i] == SortByDate(orig[..i], false)
      invariant a[i..] == orig[i..]
    {
      ghost var prefix := a[..i];
      ghost var rest := a[i + 1..];
      assert a[i] == orig[i] && rest == orig[i + 1..] by {
        assert a[i..][0] == a[i] && a[i..][1..] == rest;
      }
      InsertInPlace(a, i);
      SortStep(orig, i);
      assert a[..i + 1] == SortByDate(orig[..i + 1], false);
      assert a[i + 1..] == orig[i + 1..];
      i := i + 1;
    }
    assert orig[..a.Length] == orig;
  }

  lemma SortStep(s: seq<Expense>, i: nat)
    requires i < |s|
    ensures SortByDate(s[..i + 1], false) == Insert(SortByDate(s[..i], false), s[i], false)
  {
    assert s[..i + 1][..i] == s[..i];
  }

  /** One step of the insertion sort: `a[i]` moves left past every element of
      the sorted prefix it strictly precedes. */
  method InsertInPlace(a: array<Expense>, i: nat)
    requires i < a.Length
    modifies a
    ensures a[..i + 1] == Insert(old(a[..i]), old(a[i]), false)
    ensures a[i + 1..] == old(a[i + 1..])
  {
    ghost var sorted := a[..i];
    ghost var x := a[i];
    ghost var rest := a[i + 1..];
    var j := ShiftIntoPlace(a, i);
    assert sorted[..j] == old(a[..j]) && sorted[j..] == old(a[j..i]);
    InsertAt(sorted, x, j);
    assert a[..] == Insert(sorted, x, false) + rest;
    assert a[..i + 1] == a[..][..i + 1] && a[i + 1..] == a[..][i + 1..];
  }

  /** The inner loop: `a[i]` swaps places with each element before it that it
      strictly precedes, and stops at `j`. */
  method ShiftIntoPlace(a: array<Expense>, i: nat) returns (j: nat)
    requires i < a.Length
    modifies a
    ensures j <= i
    ensures a[..] == old(a[..j]) + [old(a[i])] + old(a[j..i]) + old(a[i + 1..])
    ensures forall k :: j <= k < i ==> Precedes(old(a[i]), old(a[k]), false)
    ensures j == 0 || !Precedes(old(a[i]), old(a[j - 1]), false)
  {
    ghost var s := a[..];
    var x := a[i];
    j := i;
    assert s == s[..i] + [x] + s[i..i] + s[i + 1..];
    while j > 0 && Less(x.date, a[j - 1].date)
      invariant 0 <= j <= i
      invariant a[..] == s[..j] + [x] + s[j..i] + s[i + 1..]
      invariant forall k :: j <= k < i ==> Precedes(x, s[k], false)
    {
      SwapStep(s, x, i, j);
      a[j - 1], a[j] := x, a[j - 1];
      j := j - 1;
    }
  }

  /** Swapping `x` with the element just before it moves the gap one left. */
  lemma SwapStep(s: seq<Expense>, x: Expense, i: nat, j: nat)
    requires 0 < j <= i < |s|
    ensures var t := s[..j] + [x] + s[j..i] + s[i + 1..];
      t[j - 1] == s[j - 1] && t[j] == x
      && t[j - 1 := x][j := s[j - 1]] == s[..j - 1] + [x] + s[j - 1..i] + s[i + 1..]
  {
    var t := s[..j] + [x] + s[j..i] + s[i + 1..];
    var u := s[..j - 1] + [x] + s[j - 1..i] + s[i + 1..];
    assert |t| == |u|;
    forall k | 0 <= k < |t| ensures t[j - 1 := x][j := s[j - 1]][k] == u[k] {
      if k < j - 1 {
        assert t[k] == s[k] && u[k] == s[k];
      } else if k > j {
        assert t[k] == u[k];
      }
    }
  }

  /** Where the inner loop stops, `x` goes. */
  lemma InsertAt(sorted: seq<Expense>, x: Expense, j: nat)
    requires j <= |sorted|
    requires forall k :: j <= k < |sorted| ==> Precedes(x, sorted[k], false)
    requires j == 0 || !Precedes(x, sorted[j - 1], false)
    ensures Insert(sorted, x, false) == sorted[..j] + [x] + sorted[j..]
  {
    InsertBehind(sorted, x, false, j);
  }

  /** search_expenses: None when the keyword is blank, otherwise the matching
      expenses and their total. */
  method SearchExpenses(input: string, expenses: seq<Expense>) returns (found: Option<seq<Expense>>, total: real)
    ensures found == SearchResults(input, expenses)
    ensures found.Some? ==> total == Total(found.value)
  {
    var keyword := Lower(Strip(input));
    if keyword == [] {
      return None, 0.0;
    }
    var hits := MatchingExpenses(keyword, expenses);
    found := Some(hits);
    total := ListTotal(hits);
  }

  /** The expenses whose date, category or description holds the keyword. */
  method MatchingExpenses(keyword: string, expenses: seq<Expense>) returns (hits: seq<Expense>)
    ensures hits == Filter(expenses, e => MatchesKeyword(e, keyword))
  {
    ghost var matches := e => MatchesKeyword(e, keyword);
    hits := [];
    var i := 0;
    while i < |expenses|
      invariant 0 <= i <= |expenses|
      invariant hits == Filter(expenses[..i], matches)
    {
      var e := expenses[i];
      assert expenses[..i + 1][..i] == expenses[..i];
      assert Filter(expenses[..i + 1], matches) == hits + if MatchesKeyword(e, keyword) then [e] else [];
      if Contains(Lower(e.date), keyword) || Contains(Lower(e.category), keyword)
        || Contains(Lower(e.description), keyword) {
        hits := hits + [e];
      }
      i := i + 1;
    }
    assert expenses[..i] == expenses;
  }

  /** generate_report: nothing to report for an empty list; otherwise the
      category totals, the overall figures and the total-budget warning. */
  method GenerateReport(expenses: seq<Expense>, budget: Budget) returns (r: CliReport)
    ensures r == CliReportOf(expenses, budget)
  {
    if expenses == [] {
      return NoExpenses;
    }
    var totals: Dict<real> := [];
    var spent := 0.0;
    var i := 0;
    while i < |expenses|
      invariant 0 <= i <= |expenses|
      invariant totals == CategoryTotals(expenses[..i])
      invariant spent == Total(expenses[..i])
    {
      assert expenses[..i + 1][..i] == expenses[..i];
      totals := AddTo(totals, expenses[i].category, expenses[i].amount);
      spent := spent + expenses[i].amount;
      i := i + 1;
    }
    assert expenses[..i] == expenses;
    var total := SumValues(budget);
    r := CliReport(spent, total, total - spent, Usage(spent, total),
                   CategoryLines(totals, budget), total - spent < 0.0);
  }

  /** The console report: the category totals add up to the total spent, each
      line holds its budget (0 when missing), its remainder and the percentage
      of that budget used; the overall usage is the percentage of the budget
      total spent, 0 unless that total is positive; and the warning is given
      exactly when the total spent is above the total budget. */
  lemma CliReportSpec(es: seq<Expense>, budget: Budget)
    requires es != []
    ensures var r := CliReportOf(es, budget);
      && SumSpent(r.lines) == r.totalSpent == Total(es)
      && (forall i :: 0 <= i < |r.lines| ==>
            && r.lines[i].budget == GetOr(budget, r.lines[i].category, 0.0)
            && r.lines[i].remaining == r.lines[i].budget - r.lines[i].spent
            && r.lines[i].usage == Usage(r.lines[i].spent, r.lines[i].budget))
      && (r.totalBudget <= 0.0 ==> r.usage == 0.0)
      && r.usage == Usage(r.totalSpent, r.totalBudget)
      && (r.totalExceeded <==> Total(es) > SumValues(budget))
  {
    CategoryTotalsSum(es);
    SumSpentLines(CategoryTotals(es), budget);
    ReportLinesSpec(es, budget);
  }
}
