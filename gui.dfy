/** The window front end: an ExpenseTracker object holding the expense list
    and the budget dictionary, whose buttons change them in place and write
    them to the expense and budget files. */
module Gui {
  import opened Wrappers
  import opened Seqs
  import opened Text
  import opened Numbers
  import opened Dicts
  import opened Records
  import opened Queries
  import opened Reports
  import Dates

  /** The window's budgets before any change: Food, Transportation,
      Entertainment and Other. */
  const DefaultBudgets: Budget :=
    [("Food", 1000.0), ("Transportation", 500.0), ("Entertainment", 300.0), ("Other", 200.0)]

  // ------------------------------------------------------------ adding

  /** Why the window refuses a new expense, in the order the checks are made. */
  datatype AddError = MissingField | InvalidAmount | NotPositive | InvalidDate

  /** The checks of the "add" button: date, amount and description filled in,
      the amount a number above zero, the date a `%Y-%m-%d` date. The category
      comes from the drop-down list and is not checked. */
  function NewExpense(date: string, category: string, amountText: string, description: string): Result<Expense, AddError>
  {
    if date == [] || amountText == [] || description == [] then Err(MissingField)
    else
      match ParseNumber(amountText)
      case None => Err(InvalidAmount)
      case Some(v) =>
        if v <= 0.0 then Err(NotPositive)
        else if !Dates.ValidateDate(date) then Err(InvalidDate)
        else Ok(Expense(date, category, v, description))
  }

  /** A new expense is accepted exactly when every check passes, and then it
      holds the form's fields with the parsed amount; otherwise the first
      failing check is reported. */
  lemma NewExpenseSpec(date: string, category: string, amountText: string, description: string)
    ensures var r := NewExpense(date, category, amountText, description);
      && (r.Ok? <==>
            date != [] && amountText != [] && description != []
            && ValidateAmount(amountText) && Dates.ValidateDate(date))
      && (r.Ok? ==> r.value == Expense(date, category, ParseNumber(amountText).value, description)
                    && r.value.amount > 0.0)
      && (r == Err(MissingField) <==> date == [] || amountText == [] || description == [])
      && (r == Err(InvalidAmount) <==>
            date != [] && amountText != [] && description != [] && ParseNumber(amountText).None?)
      && (r == Err(NotPositive) <==>
            date != [] && amountText != [] && description != []
            && ParseNumber(amountText).Some? && ParseNumber(amountText).value <= 0.0)
      && (r == Err(InvalidDate) <==>
            date != [] && amountText != [] && description != []
            && ValidateAmount(amountText) && !Dates.ValidateDate(date))
  {
  }

  // ------------------------------------------------------------ deleting

  /** A row of the expense table: date, category, amount shown as `$x.yz`,
      description. */
  datatype Row = Row(date: string, category: string, amount: string, description: string)

  /** The row the table shows for an expense. */
  function DisplayRow(e: Expense): Row
  {
    Row(e.date, e.category, "$" + FormatFixed2(e.amount), e.description)
  }

  function NotDollar(c: char): bool
  {
    c != '$'
  }

  /** The amount read back from a row: every '$' removed, then stripped and
      given to float(). */
  function RowAmount(row: Row): Option<real>
  {
    ParseNumber(Strip(Filter(row.amount, NotDollar)))
  }

  /** The expense a row stands for, given its amount. */
  function RowExpense(row: Row, amount: real): Expense
  {
    Expense(row.date, row.category, amount, row.description)
  }

  /** A run of ASCII digits, with single underscores allowed only between two
      digits: the body int() accepts in base 10. */
  predicate DigitRun(t: string)
  {
    && t != [] && IsDigit(t[0]) && IsDigit(t[|t| - 1])
    && forall i :: 0 <= i < |t| ==>
         IsDigit(t[i]) || (t[i] == '_' && 0 < i < |t| - 1 && IsDigit(t[i - 1]) && IsDigit(t[i + 1]))
  }

  /** The texts int() accepts: surrounding whitespace, an optional sign, then
      a digit run (leading zeros allowed). */
  predicate IntText(s: string)
  {
    var t := Strip(s);
    t != [] && DigitRun(if t[0] == '+' || t[0] == '-' then t[1..] else t)
  }

  /** The table hands a selected row's cells back through int() whenever
      int() accepts them, so a date, category or description cell that looks
      like a whole number comes back as an int and is never equal to the text
      field of a record. */
  predicate CellsStayText(row: Row)
  {
    !IntText(row.date) && !IntText(row.category) && !IntText(row.description)
  }

  /** The records the delete button's search loop finds equal to a row read
      back with the given amount. */
  predicate RowMatches(e: Expense, row: Row, amount: real)
  {
    CellsStayText(row) && e == RowExpense(row, amount)
  }

  /** The list after the delete button's search loop: the first record equal
      to the row goes, unless a text cell came back as an int, when none
      matches and the list stays as it was. */
  function AfterDelete(es: seq<Expense>, row: Row, amount: real): seq<Expense>
  {
    if CellsStayText(row) then RemoveFirst(es, RowExpense(row, amount)) else es
  }

  /** The list with the first occurrence of `x` deleted (the list itself when
      there is none). */
  function RemoveFirst(es: seq<Expense>, x: Expense): seq<Expense>
    decreases |es|
  {
    if es == [] then []
    else if es[0] == x then es[1..]
    else [es[0]] + RemoveFirst(es[1..], x)
  }

  /** Deleting removes exactly one copy of `x` when there is one and changes
      nothing otherwise. */
  lemma {:induction false} RemoveFirstMultiset(es: seq<Expense>, x: Expense)
    ensures multiset(RemoveFirst(es, x)) == multiset(es) - multiset{x}
    decreases |es|
  {
    if es != [] {
      assert es == [es[0]] + es[1..];
      if es[0] != x {
        RemoveFirstMultiset(es[1..], x);
      }
    }
  }

  /** Deleting keeps the others in their order. */
  lemma {:induction false} RemoveFirstOrder(es: seq<Expense>, x: Expense)
    ensures IsSubsequence(RemoveFirst(es, x), es)
    decreases |es|
  {
    if es != [] {
      assert es == [es[0]] + es[1..];
      if es[0] == x {
        SubsequenceTail(es[0], es[1..]);
      } else {
        RemoveFirstOrder(es[1..], x);
        SubsequenceCons(es[0], RemoveFirst(es[1..], x), es[1..]);
      }
    }
  }

  /** With no copy of `x`, deleting changes nothing. */
  lemma {:induction false} RemoveFirstAbsent(es: seq<Expense>, x: Expense)
    requires x !in es
    ensures RemoveFirst(es, x) == es
    decreases |es|
  {
    if es != [] {
      assert es[0] != x;
      RemoveFirstAbsent(es[1..], x);
      assert es == [es[0]] + es[1..];
    }
  }

  /** When `i` is the first position holding `x`, deleting the first `x` is
      deleting position `i`. */
  lemma {:induction false} RemoveFirstAt(es: seq<Expense>, x: Expense, i: nat)
    requires i < |es| && es[i] == x && forall j :: 0 <= j < i ==> es[j] != x
    ensures RemoveFirst(es, x) == es[..i] + es[i + 1..]
    decreases i
  {
    if i > 0 {
      RemoveFirstAt(es[1..], x, i - 1);
      assert es[..i] == [es[0]] + es[1..][..i - 1];
      assert es[i + 1..] == es[1..][i..];
    }
  }

  /** `:.2f` writes only digits, a point and perhaps a leading minus. */
  lemma FormatFixed2Plain(x: real)
    ensures var s := FormatFixed2(x);
      && s != [] && !IsSpace(s[0]) && !IsSpace(s[|s| - 1]) && '$' !in s
  {
    var s := FormatFixed2(x);
    var t := TwoDigits(Cents(x) % 100);
    assert s[|s| - 1] == t[1];
    assert s[|s| - 1] == Fixed2Digits(Cents(x))[|Fixed2Digits(Cents(x))| - 1];
    var n := NatToString(Cents(x) / 100);
    assert forall i :: 0 <= i < |n| ==> IsDigit(n[i]);
    assert s == (if x < 0.0 then "-" else "") + n + "." + t;
  }

  /** The row shown for a whole-cent expense reads back as that expense; its
      amount cell, which starts with '$', is never taken for an int. */
  lemma DisplayRowReadsBack(e: Expense)
    requires IsCents(e.amount)
    ensures RowAmount(DisplayRow(e)) == Some(e.amount)
    ensures RowExpense(DisplayRow(e), e.amount) == e
    ensures !IntText(DisplayRow(e).amount)
  {
    var f := FormatFixed2(e.amount);
    FormatFixed2Plain(e.amount);
    DollarNotInt(f);
    assert Filter("$" + f, NotDollar) == f by {
      FilterConcat("$", f, NotDollar);
      FilterAll(f, NotDollar);
      assert Filter("$", NotDollar) == [];
    }
    StripUnchanged(f);
    ParseFormatFixed2(e.amount);
  }

  /** Deleting the row shown for a whole-cent record whose text cells stay
      text removes exactly one copy of that record and keeps the others in
      order. */
  lemma DeleteDisplayedRow(es: seq<Expense>, e: Expense)
    requires IsCents(e.amount) && CellsStayText(DisplayRow(e))
    ensures var rest := AfterDelete(es, DisplayRow(e), e.amount);
      && multiset(rest) == multiset(es) - multiset{e}
      && IsSubsequence(rest, es)
  {
    DisplayRowReadsBack(e);
    RemoveFirstMultiset(es, e);
    RemoveFirstOrder(es, e);
  }

  /** A record whose description is "42" is never deleted from the table:
      its row reads back with the right amount, but the description cell
      comes back as the int 42, so the list stays as it was even when the
      record is in it. */
  lemma NumericDescriptionKept(es: seq<Expense>, e: Expense)
    requires IsCents(e.amount) && e.description == "42"
    ensures RowAmount(DisplayRow(e)) == Some(e.amount)
    ensures AfterDelete(es, DisplayRow(e), e.amount) == es
  {
    DisplayRowReadsBack(e);
    FortyTwoIsInt();
  }

  /** A text that starts with '$' is not taken for an int. */
  lemma DollarNotInt(f: string)
    requires f != [] && !IsSpace(f[|f| - 1])
    ensures !IntText("$" + f)
  {
    StripUnchanged("$" + f);
    assert ("$" + f)[0] == '$';
  }

  lemma FortyTwoIsInt()
    ensures IntText("42")
  {
    StripUnchanged("42");
    assert DigitRun("42");
  }

  // ------------------------------------------------------------ budgets form

  /** The budget form after "update": the budgets so far and whether every
      amount was accepted. */
  datatype Applied = Applied(budgets: Budget, ok: bool)

  /** The update loop over the form's (category, text) pairs, with `parse`
      converting the text (the window uses float(), that is ParseNumber): each
      accepted amount is stored at once; the first rejected one stops the loop,
      and what was stored before it stays stored. */
  function ApplyEntries(b: Budget, entries: seq<(string, string)>, parse: string -> Option<real>): Applied
    decreases |entries|
  {
    if entries == [] then Applied(b, true)
    else ApplyEntry(ApplyEntries(b, entries[..|entries| - 1], parse), entries[|entries| - 1], parse)
  }

  /** One turn of that loop. */
  function ApplyEntry(a: Applied, entry: (string, string), parse: string -> Option<real>): Applied
  {
    if !a.ok then a
    else
      match parse(entry.1)
      case None => Applied(a.budgets, false)
      case Some(v) => Applied(Put(a.budgets, entry.0, v), true)
  }

  /** The update succeeds exactly when every amount is accepted. */
  lemma ApplyEntriesOk(b: Budget, entries: seq<(string, string)>, parse: string -> Option<real>)
    ensures ApplyEntries(b, entries, parse).ok <==> forall i :: 0 <= i < |entries| ==> parse(entries[i].1).Some?
  {
    ApplyEntriesOkPrefix(b, entries, parse, |entries|);
    assert entries[..|entries|] == entries;
  }

  /** The same for the first `k` entries. */
  lemma {:induction false} ApplyEntriesOkPrefix(b: Budget, entries: seq<(string, string)>, parse: string -> Option<real>, k: nat)
    requires k <= |entries|
    ensures ApplyEntries(b, entries[..k], parse).ok <==> forall i :: 0 <= i < k ==> parse(entries[i].1).Some?
    decreases k
  {
    if k > 0 {
      ApplyEntriesOkPrefix(b, entries, parse, k - 1);
      ApplyEntriesStep(b, entries, parse, k - 1);
      var before := ApplyEntries(b, entries[..k - 1], parse);
      assert ApplyEntries(b, entries[..k], parse).ok == (before.ok && parse(entries[k - 1].1).Some?);
      var all := forall i :: 0 <= i < k ==> parse(entries[i].1).Some?;
      var allBefore := forall i :: 0 <= i < k - 1 ==> parse(entries[i].1).Some?;
      if allBefore && parse(entries[k - 1].1).Some? {
        forall i | 0 <= i < k ensures parse(entries[i].1).Some? {
        }
      }
      assert all <==> allBefore && parse(entries[k - 1].1).Some?;
    }
  }

  /** A rejected amount leaves the budgets as the entries before it made
      them: the earlier entries are not rolled back. */
  lemma ApplyEntriesPartial(b: Budget, entries: seq<(string, string)>, parse: string -> Option<real>, j: nat)
    requires j < |entries| && parse(entries[j].1).None?
    requires forall i :: 0 <= i < j ==> parse(entries[i].1).Some?
    ensures ApplyEntries(b, entries, parse) == Applied(ApplyEntries(b, entries[..j], parse).budgets, false)
  {
    ApplyEntriesOkPrefix(b, entries, parse, j);
    ApplyEntriesStep(b, entries, parse, j);
    ApplyEntriesStopped(b, entries, parse, j + 1);
  }

  /** The loop after one more entry. */
  lemma ApplyEntriesStep(b: Budget, entries: seq<(string, string)>, parse: string -> Option<real>, i: nat)
    requires i < |entries|
    ensures ApplyEntries(b, entries[..i + 1], parse) == ApplyEntry(ApplyEntries(b, entries[..i], parse), entries[i], parse)
  {
    assert entries[..i + 1][..i] == entries[..i];
  }

  /** Once an entry is rejected, the later entries change nothing. */
  lemma {:induction false} ApplyEntriesStopped(b: Budget, entries: seq<(string, string)>, parse: string -> Option<real>, i: nat)
    requires i <= |entries| && !ApplyEntries(b, entries[..i], parse).ok
    ensures ApplyEntries(b, entries, parse) == ApplyEntries(b, entries[..i], parse)
    decreases |entries| - i
  {
    if i < |entries| {
      assert entries[..i + 1][..i] == entries[..i];
      ApplyEntriesStopped(b, entries, parse, i + 1);
    } else {
      assert entries[..i] == entries;
    }
  }

  /** Entries for categories the budget already has keep its categories and
      their order. */
  lemma {:induction false} ApplyEntriesKeys(b: Budget, entries: seq<(string, string)>, parse: string -> Option<real>)
    requires forall i :: 0 <= i < |entries| ==> entries[i].0 in Keys(b)
    ensures Keys(ApplyEntries(b, entries, parse).budgets) == Keys(b)
    decreases |entries|
  {
    if entries != [] {
      ApplyEntriesKeys(b, entries[..|entries| - 1], parse);
    }
  }

  /** After a successful update a category of the form holds the amount typed
      at its last entry. */
  lemma {:induction false} ApplyEntriesLast(b: Budget, entries: seq<(string, string)>, parse: string -> Option<real>, i: nat)
    requires ApplyEntries(b, entries, parse).ok
    requires i < |entries| && forall j :: i < j < |entries| ==> entries[j].0 != entries[i].0
    ensures Get(ApplyEntries(b, entries, parse).budgets, entries[i].0) == parse(entries[i].1)
    decreases |entries|
  {
    var n := |entries| - 1;
    var a := ApplyEntries(b, entries[..n], parse);
    if i < n {
      ApplyEntriesLast(b, entries[..n], parse, i);
    }
    PutGet(a.budgets, entries[n].0, parse(entries[n].1).value, entries[i].0);
  }

  /** A category the form does not name keeps its value. */
  lemma {:induction false} ApplyEntriesOthers(b: Budget, entries: seq<(string, string)>, parse: string -> Option<real>, k: string)
    requires forall j :: 0 <= j < |entries| ==> entries[j].0 != k
    ensures Get(ApplyEntries(b, entries, parse).budgets, k) == Get(b, k)
    decreases |entries|
  {
    if entries != [] {
      var n := |entries| - 1;
      var a := ApplyEntries(b, entries[..n], parse);
      ApplyEntriesOthers(b, entries[..n], parse, k);
      if a.ok && parse(entries[n].1).Some? {
        PutGet(a.budgets, entries[n].0, parse(entries[n].1).value, k);
      }
    }
  }

  /** The form's text for each budget: `:.2f` of the amount. */
  function FormEntries(b: Budget): (entries: seq<(string, string)>)
    ensures |entries| == |b|
    ensures forall i :: 0 <= i < |b| ==> entries[i] == (b[i].0, FormatFixed2(b[i].1))
    decreases |b|
  {
    if b == [] then [] else FormEntries(b[..|b| - 1]) + [(b[|b| - 1].0, FormatFixed2(b[|b| - 1].1))]
  }

  /** Storing in a category the value it already holds changes nothing. */
  lemma ApplySameValue(a: Applied, entry: (string, string), parse: string -> Option<real>, i: nat)
    requires a.ok && DistinctKeys(a.budgets) && i < |a.budgets|
    requires entry.0 == a.budgets[i].0 && parse(entry.1) == Some(a.budgets[i].1)
    ensures ApplyEntry(a, entry, parse) == a
  {
    var b := a.budgets;
    PutExisting(b, i, b[i].1);
    assert b[i := (b[i].0, b[i].1)] == b;
  }

  /** Pressing "update" on the form as first shown changes nothing: each
      amount shown with two decimals reads back as itself. */
  lemma {:induction false} UnchangedFormKeepsBudgets(b: Budget, n: nat)
    requires DistinctKeys(b) && n <= |b|
    requires forall i :: 0 <= i < |b| ==> IsCents(b[i].1)
    ensures ApplyEntries(b, FormEntries(b)[..n], ParseNumber) == Applied(b, true)
    decreases n
  {
    if n > 0 {
      var form := FormEntries(b);
      UnchangedFormKeepsBudgets(b, n - 1);
      ApplyEntriesStep(b, form, ParseNumber, n - 1);
      ParseFormatFixed2(b[n - 1].1);
      ApplySameValue(Applied(b, true), form[n - 1], ParseNumber, n - 1);
    }
  }

  // ------------------------------------------------------------ the window

  class ExpenseTracker {
    /** The expense list, in the order the records were read and added. */
    var expenses: seq<Expense>
    /** Budget limits by category. */
    var budgets: Budget

    /** A new window: the default budgets and the records of the expense file
      (None when there is no such file). The budget file is never read. */
    constructor (file: Option<string>)
      ensures budgets == DefaultBudgets
      ensures expenses == if file.None? then [] else DecodeLines(FileLines(file.value)).expenses
    {
      expenses := [];
      budgets := DefaultBudgets;
      new;
      var _ := LoadData(file);
    }

    /** Reads the expense file line by line, appending each record. A bad
      amount stops the read with an error; the records appended before it
      stay. A missing file adds nothing. */
    method LoadData(file: Option<string>) returns (failed: bool)
      modifies this
      ensures budgets == old(budgets)
      ensures file.None? ==> expenses == old(expenses) && !failed
      ensures file.Some? ==>
        expenses == old(expenses) + DecodeLines(FileLines(file.value)).expenses
        && failed == DecodeLines(FileLines(file.value)).failed
    {
      failed := false;
      if file.Some? {
        var loaded := ReadRecords(FileLines(file.value));
        expenses := expenses + loaded.expenses;
        failed := loaded.failed;
      }
    }

    /** The expense file as save_data writes it: one line per record. */
    method SaveData() returns (text: string)
      ensures text == EncodeExpenses(expenses)
    {
      text := [];
      var i := 0;
      while i < |expenses|
        invariant 0 <= i <= |expenses|
        invariant text == EncodeExpenses(expenses[..i])
      {
        EncodeExpensesStep(expenses, i);
        var e := expenses[i];
        text := text + (e.date + "\t" + e.category + "\t" + FormatAmount(e.amount) + "\t" + e.description) + "\n";
        i := i + 1;
      }
      assert expenses[..i] == expenses;
    }

    /** The budget file as save_budgets writes it: one `category:amount` line
      per entry, in the dictionary's order. */
    method SaveBudgets() returns (text: string)
      ensures text == EncodeBudget(budgets)
    {
      text := [];
      var i := 0;
      while i < |budgets|
        invariant 0 <= i <= |budgets|
        invariant text == EncodeBudget(budgets[..i])
      {
        EncodeBudgetStep(budgets, i);
        var (category, amount) := budgets[i];
        text := text + (category + ":" + FormatAmount(amount)) + "\n";
        i := i + 1;
      }
      assert budgets[..i] == budgets;
    }

    /** The "add" button: a refused expense changes nothing; an accepted one
      is appended and the list is saved. Returns the saved file. */
    method AddExpense(date: string, category: string, amountText: string, description: string)
      returns (r: Result<string, AddError>)
      modifies this
      ensures budgets == old(budgets)
      ensures var n := NewExpense(date, category, amountText, description);
        && (n.Err? ==> r == Err(n.error) && expenses == old(expenses))
        && (n.Ok? ==> expenses == old(expenses) + [n.value] && r == Ok(EncodeExpenses(expenses)))
    {
      if date == [] || amountText == [] || description == [] {
        return Err(MissingField);
      }
      var amount := ParseNumber(amountText);
      if amount.None? {
        return Err(InvalidAmount);
      }
      if amount.value <= 0.0 {
        return Err(NotPositive);
      }
      if !Dates.ValidateDate(date) {
        return Err(InvalidDate);
      }
      expenses := expenses + [Expense(date, category, amount.value, description)];
      var text := SaveData();
      r := Ok(text);
    }

    /** The "delete" button on a selected row: an amount cell that came back
      as an int (no `replace`) or that float() rejects changes nothing;
      otherwise the search loop removes the first record equal to the row
      (none when nothing matches, in particular when a text cell came back
      as an int) and the list is saved either way. Returns the saved file,
      or None for the rejected amount. */
    method DeleteExpense(row: Row) returns (r: Option<string>)
      modifies this
      ensures budgets == old(budgets)
      ensures r.None? <==> IntText(row.amount) || RowAmount(row).None?
      ensures r.None? ==> expenses == old(expenses)
      ensures r.Some? ==>
        expenses == AfterDelete(old(expenses), row, RowAmount(row).value)
        && r.value == EncodeExpenses(expenses)
    {
      if IntText(row.amount) {
        return None;
      }
      var amount := RowAmount(row);
      if amount.None? {
        return None;
      }
      expenses := RemoveRecord(expenses, row, amount.value);
      var text := SaveData();
      r := Some(text);
    }

    /** The search loop of the delete button: the first record equal to the
      row read back with `amount` is deleted, and nothing when none is. */
    static method RemoveRecord(es: seq<Expense>, row: Row, amount: real) returns (rest: seq<Expense>)
      ensures rest == AfterDelete(es, row, amount)
    {
      var i := 0;
      while i < |es| && !RowMatches(es[i], row, amount)
        invariant 0 <= i <= |es|
        invariant forall j :: 0 <= j < i ==> !RowMatches(es[j], row, amount)
      {
        i := i + 1;
      }
      var target := RowExpense(row, amount);
      if i < |es| {
        RemoveFirstAt(es, target, i);
        rest := es[..i] + es[i + 1..];
      } else {
        if CellsStayText(row) {
          RemoveFirstAbsent(es, target);
        }
        rest := es;
      }
    }

    /** The quick search: the rows to show for the search box's text. */
    method FilterExpenses(text: string) returns (rows: seq<Expense>)
      ensures rows == FilterByTerm(expenses, text)
    {
      var term := Lower(text);
      rows := [];
      var i := 0;
      while i < |expenses|
        invariant 0 <= i <= |expenses|
        invariant rows == FilterByTerm(expenses[..i], text)
      {
        var e := expenses[i];
        assert expenses[..i + 1][..i] == expenses[..i];
        assert FilterByTerm(expenses[..i + 1], text) == rows + if MatchesTerm(e, text) then [e] else [];
        if Contains(Lower(e.date), term) || Contains(Lower(e.category), term)
          || Contains(Lower(e.description), term) || Contains(FormatAmount(e.amount), term) {
          rows := rows + [e];
        }
        i := i + 1;
      }
      assert expenses[..i] == expenses;
    }

    /** The advanced search over the form's five fields. */
    method AdvancedSearch(c: Criteria) returns (found: seq<Expense>)
      ensures found == AdvancedResults(expenses, c)
    {
      found := [];
      var i := 0;
      while i < |expenses|
        invariant 0 <= i <= |expenses|
        invariant found == AdvancedResults(expenses[..i], c)
      {
        var e := expenses[i];
        assert expenses[..i + 1][..i] == expenses[..i];
        i := i + 1;
        if c.dateFrom != [] && Less(e.date, c.dateFrom) {
          continue;
        }
        if c.dateTo != [] && Less(c.dateTo, e.date) {
          continue;
        }
        if c.category != "All" && e.category != c.category {
          continue;
        }
        if c.amountMin != [] {
          var low := ParseNumber(c.amountMin);
          if low.Some? && e.amount < low.value {
            continue;
          }
        }
        if c.amountMax != [] {
          var high := ParseNumber(c.amountMax);
          if high.Some? && e.amount > high.value {
            continue;
          }
        }
        found := found + [e];
      }
      assert expenses[..i] == expenses;
    }

    /** The "update budgets" button over the form's (category, text) pairs:
      each accepted amount is stored in turn; a rejected one stops the loop
      with an error, keeps what was stored before it and saves nothing.
      Returns the saved budget file on success. */
    method UpdateBudgets(entries: seq<(string, string)>) returns (r: Option<string>)
      modifies this
      ensures expenses == old(expenses)
      ensures budgets == ApplyEntries(old(budgets), entries, ParseNumber).budgets
      ensures r.Some? <==> ApplyEntries(old(budgets), entries, ParseNumber).ok
      ensures r.Some? ==> r.value == EncodeBudget(budgets)
    {
      var i := 0;
      var ok := true;
      while i < |entries| && ok
        invariant 0 <= i <= |entries|
        invariant expenses == old(expenses)
        invariant ApplyEntries(old(budgets), entries[..i], ParseNumber) == Applied(budgets, ok)
      {
        ApplyEntriesStep(old(budgets), entries, ParseNumber, i);
        var amount := ParseNumber(entries[i].1);
        if amount.None? {
          ok := false;
        } else {
          budgets := Put(budgets, entries[i].0, amount.value);
        }
        assert Applied(budgets, ok) == ApplyEntry(ApplyEntries(old(budgets), entries[..i], ParseNumber), entries[i], ParseNumber);
        i := i + 1;
      }
      if !ok {
        ApplyEntriesStopped(old(budgets), entries, ParseNumber, i);
        return None;
      }
      assert entries[..i] == entries;
      var text := SaveBudgets();
      r := Some(text);
    }

    /** The report tab: nothing to report for an empty list; otherwise the
      totals by category, the overall figures, the last ten expenses and
      the warnings. */
    method GenerateReport() returns (r: GuiReport)
      ensures r == GuiReportOf(expenses, budgets)
    {
      if expenses == [] {
        return NoExpensesToReport;
      }
      var es := expenses;
      var spent := Total(es);
      var totals: Dict<real> := [];
      var i := 0;
      while i < |es|
        invariant 0 <= i <= |es|
        invariant totals == CategoryTotals(es[..i])
      {
        assert es[..i + 1][..i] == es[..i];
        totals := AddTo(totals, es[i].category, es[i].amount);
        i := i + 1;
      }
      assert es[..i] == es;
      var budget := SumValues(budgets);
      var remaining := budget - spent;
      var lines := CategoryLines(totals, budgets);
      assert lines == ReportLines(es, budgets);
      r := GuiReport(spent, budget, remaining, Usage(spent, budget), lines, Recent(es),
                     remaining < 0.0, Overruns(lines), AllWithin(remaining, lines));
    }
  }
}
