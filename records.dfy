/** Expense and budget records and the two text files that hold them:
    `date\tcategory\tamount\tdescription` lines and `category:amount` lines. */
module Records {
  import opened Wrappers
  import opened Text
  import opened Numbers
  import opened Dicts

  datatype Expense = Expense(date: string, category: string, amount: real, description: string)

  /** Budget limits by category, in the dictionary's order. */
  type Budget = Dict<real>

  /** Why a whole load is abandoned: float() rejected an amount, or a budget
      line held more than one ':' (too many values to unpack). */
  datatype LoadError = InvalidNumber | TooManyValues

  // ---------------------------------------------------------------- expenses

  /** The line save_data / write_expenses writes for one expense. */
  function EncodeExpense(e: Expense): string
  {
    e.date + "\t" + e.category + "\t" + FormatAmount(e.amount) + "\t" + e.description
  }

  /** One line per expense, in list order. */
  function ExpenseLines(es: seq<Expense>): (lines: seq<string>)
    ensures |lines| == |es| && forall i :: 0 <= i < |es| ==> lines[i] == EncodeExpense(es[i])
    decreases |es|
  {
    if es == [] then [] else ExpenseLines(es[..|es| - 1]) + [EncodeExpense(es[|es| - 1])]
  }

  /** The whole expense file as written. */
  function EncodeExpenses(es: seq<Expense>): string
  {
    Unlines(ExpenseLines(es))
  }

  /** Writing one more expense appends its line. */
  lemma EncodeExpensesStep(es: seq<Expense>, i: nat)
    requires i < |es|
    ensures EncodeExpenses(es[..i + 1]) == EncodeExpenses(es[..i]) + EncodeExpense(es[i]) + "\n"
  {
    assert es[..i + 1][..i] == es[..i];
    var lines := ExpenseLines(es[..i + 1]);
    assert lines[..i] == ExpenseLines(es[..i]);
  }

  /** What reading one line gives: nothing, a record, or a float() error. */
  datatype LineResult = Skipped | Parsed(expense: Expense) | BadAmount

  /** One line of the expense file: strip it; a blank line or one with fewer
      than four tab-separated fields is skipped; fields after the fourth are
      ignored; an amount float() rejects is an error. */
  function DecodeExpenseLine(line: string): LineResult
  {
    var l := Strip(line);
    if l == [] then Skipped
    else
      var parts := Split(l, '\t');
      if |parts| < 4 then Skipped
      else
        match ParseNumber(parts[2])
        case None => BadAmount
        case Some(v) => Parsed(Expense(parts[0], parts[1], v, parts[3]))
  }

  /** Reading the expense file line by line; the first bad amount stops it. */
  method ReadRecords(lines: seq<string>) returns (loaded: Loaded)
    ensures loaded == DecodeLines(lines)
  {
    var expenses: seq<Expense> := [];
    var i := 0;
    while i < |lines|
      invariant 0 <= i <= |lines|
      invariant DecodeLines(lines[..i]) == Loaded(expenses, false)
    {
      DecodeLinesStep(lines, i);
      var r := ReadExpenseLine(lines[i]);
      match r {
        case BadAmount =>
          DecodeLinesStopped(lines, i + 1);
          return Loaded(expenses, true);
        case Parsed(e) =>
          expenses := expenses + [e];
        case Skipped =>
      }
      i := i + 1;
    }
    assert lines[..i] == lines;
    loaded := Loaded(expenses, false);
  }

  /** The body of the reading loop for one line of the expense file, written
      as the source's statements and proved to give what DecodeExpenseLine
      specifies. */
  method ReadExpenseLine(text: string) returns (r: LineResult)
    ensures r == DecodeExpenseLine(text)
  {
    var line := Strip(text);
    if line == [] {
      return Skipped;
    }
    var parts := Split(line, '\t');
    if |parts| < 4 {
      return Skipped;
    }
    var amount := ParseNumber(parts[2]);
    if amount.None? {
      return BadAmount;
    }
    r := Parsed(Expense(parts[0], parts[1], amount.value, parts[3]));
  }

  /** The records read before the first bad amount, in file order, and whether
      a bad amount stopped the read. */
  datatype Loaded = Loaded(expenses: seq<Expense>, failed: bool)

  /** What each line of the file gives, line by line. */
  function LineResults(lines: seq<string>): (rs: seq<LineResult>)
    ensures |rs| == |lines| && forall i :: 0 <= i < |lines| ==> rs[i] == DecodeExpenseLine(lines[i])
    decreases |lines|
  {
    if lines == [] then [] else LineResults(lines[..|lines| - 1]) + [DecodeExpenseLine(lines[|lines| - 1])]
  }

  /** The outcome of a read that meets these line results in this order. */
  function Collect(rs: seq<LineResult>): Loaded
    decreases |rs|
  {
    if rs == [] then Loaded([], false) else LoadStep(Collect(rs[..|rs| - 1]), rs[|rs| - 1])
  }

  /** Reading the lines of an expense file. */
  function DecodeLines(lines: seq<string>): Loaded
  {
    Collect(LineResults(lines))
  }

  /** The effect of one more line on a read so far. */
  function LoadStep(prev: Loaded, r: LineResult): Loaded
  {
    if prev.failed then prev
    else
      match r
      case Skipped => prev
      case Parsed(e) => Loaded(prev.expenses + [e], false)
      case BadAmount => Loaded(prev.expenses, true)
  }

  /** An expense that survives a save and a load: no field holds a tab or a
      line break, the line neither starts nor ends with whitespace (so the
      date and the description are not empty), and the amount is whole cents. */
  predicate WellFormed(e: Expense)
  {
    && '\t' !in e.date && '\n' !in e.date && '\r' !in e.date
    && '\t' !in e.category && '\n' !in e.category && '\r' !in e.category
    && '\t' !in e.description && '\n' !in e.description && '\r' !in e.description
    && e.date != [] && !IsSpace(e.date[0])
    && e.description != [] && !IsSpace(e.description[|e.description| - 1])
    && IsCents(e.amount)
  }

  lemma NoSeparatorInAmount(x: real)
    ensures var s := FormatAmount(x);
      '\t' !in s && '\n' !in s && '\r' !in s && ':' !in s && s != []
      && !IsSpace(s[0]) && !IsSpace(s[|s| - 1])
  {
    FormatAmountCharacters(x);
  }

  lemma SplitFour(a: string, b: string, c: string, d: string, sep: char)
    requires sep !in a && sep !in b && sep !in c
    ensures Split(a + [sep] + b + [sep] + c + [sep] + d, sep) == [a, b, c] + Split(d, sep)
  {
    var r2 := c + [sep] + d;
    var r1 := b + [sep] + r2;
    assert a + [sep] + b + [sep] + c + [sep] + d == a + [sep] + r1;
    SplitPiece(c, d, sep);
    SplitPiece(b, r2, sep);
    SplitPiece(a, r1, sep);
  }

  /** A stripped line whose fields are known decodes to those fields. */
  lemma DecodeFields(line: string, v: real)
    requires line != [] && Strip(line) == line
    requires var parts := Split(line, '\t'); |parts| >= 4 && ParseNumber(parts[2]) == Some(v)
    ensures var parts := Split(line, '\t');
      DecodeExpenseLine(line) == Parsed(Expense(parts[0], parts[1], v, parts[3]))
  {
  }

  /** Reading back the line written for a well-formed expense gives that expense. */
  lemma DecodeEncodeExpense(e: Expense)
    requires WellFormed(e)
    ensures DecodeExpenseLine(EncodeExpense(e)) == Parsed(e)
  {
    NoSeparatorInAmount(e.amount);
    ParseFormatAmount(e.amount);
    SplitNoSeparator(e.description, '\t');
    DecodeLastField(e, FormatAmount(e.amount), e.description);
  }

  /** Fields after the fourth are ignored. */
  lemma ExtraFieldsIgnored(e: Expense, rest: string)
    requires WellFormed(e)
    requires rest != [] && !IsSpace(rest[|rest| - 1])
    ensures DecodeExpenseLine(EncodeExpense(e) + "\t" + rest) == Parsed(e)
  {
    var amount := FormatAmount(e.amount);
    NoSeparatorInAmount(e.amount);
    ParseFormatAmount(e.amount);
    var d := e.description + "\t" + rest;
    SplitPiece(e.description, rest, '\t');
    DecodeLastField(e, amount, d);
    AppendLastPart(e.date, e.category, amount, e.description, rest);
  }

  /** Appending a field to a tab-joined line extends its last part. */
  lemma AppendLastPart(a: string, b: string, c: string, x: string, y: string)
    ensures (a + "\t" + b + "\t" + c + "\t" + x) + "\t" + y == a + "\t" + b + "\t" + c + "\t" + (x + "\t" + y)
  {
    var t := "\t";
    assert (a + t + b + t + c + t + x) + t + y == (a + t + b + t + c + t) + (x + t + y);
  }

  /** A line holding an expense's date, category and amount text, then a last
      part whose first field is the description, reads as that expense. */
  lemma DecodeLastField(e: Expense, amount: string, d: string)
    requires '\t' !in e.date && '\t' !in e.category && e.date != [] && !IsSpace(e.date[0])
    requires '\t' !in amount && ParseNumber(amount) == Some(e.amount)
    requires d != [] && !IsSpace(d[|d| - 1]) && Split(d, '\t')[0] == e.description
    ensures DecodeExpenseLine(e.date + "\t" + e.category + "\t" + amount + "\t" + d) == Parsed(e)
  {
    var line := e.date + "\t" + e.category + "\t" + amount + "\t" + d;
    LineFields(e.date, e.category, amount, d);
    DecodeFields(line, e.amount);
  }

  /** Three tab-free fields and a last part, joined by tabs: the line is
      already stripped and splits into those fields and the last part's. */
  lemma LineFields(a: string, b: string, c: string, d: string)
    requires '\t' !in a && '\t' !in b && '\t' !in c && a != [] && !IsSpace(a[0])
    requires d != [] && !IsSpace(d[|d| - 1])
    ensures var line := a + "\t" + b + "\t" + c + "\t" + d;
      Strip(line) == line && Split(line, '\t') == [a, b, c] + Split(d, '\t')
  {
    var line := a + "\t" + b + "\t" + c + "\t" + d;
    assert line[0] == a[0];
    assert line[|line| - 1] == d[|d| - 1];
    SplitFour(a, b, c, d, '\t');
    StripUnchanged(line);
  }

  /** Once a bad amount has stopped the read, later lines change nothing. */
  lemma {:induction false} CollectAfterFailure(a: seq<LineResult>, b: seq<LineResult>)
    requires Collect(a).failed
    ensures Collect(a + b) == Collect(a)
    decreases |b|
  {
    if b != [] {
      var b' := b[..|b| - 1];
      assert (a + b)[..|a + b| - 1] == a + b';
      CollectAfterFailure(a, b');
    } else {
      assert a + b == a;
    }
  }

  /** Records are appended in file order: a read of two blocks of lines that
      does not fail gives the records of the first block, then those of the second. */
  lemma {:induction false} CollectConcat(a: seq<LineResult>, b: seq<LineResult>)
    requires !Collect(a + b).failed
    ensures !Collect(a).failed && !Collect(b).failed
    ensures Collect(a + b).expenses == Collect(a).expenses + Collect(b).expenses
    decreases |b|
  {
    if Collect(a).failed {
      CollectAfterFailure(a, b);
    }
    if b == [] {
      assert a + b == a;
    } else {
      var b' := b[..|b| - 1];
      assert (a + b)[..|a + b| - 1] == a + b';
      CollectConcat(a, b');
    }
  }

  /** The same two facts for the lines of a file. */
  lemma DecodeConcat(a: seq<string>, b: seq<string>)
    ensures DecodeLines(a).failed ==> DecodeLines(a + b) == DecodeLines(a)
    ensures !DecodeLines(a + b).failed ==>
      !DecodeLines(a).failed && !DecodeLines(b).failed
      && DecodeLines(a + b).expenses == DecodeLines(a).expenses + DecodeLines(b).expenses
  {
    assert LineResults(a + b) == LineResults(a) + LineResults(b);
    if DecodeLines(a).failed {
      CollectAfterFailure(LineResults(a), LineResults(b));
    }
    if !DecodeLines(a + b).failed {
      CollectConcat(LineResults(a), LineResults(b));
    }
  }

  /** Reading one more line of the file. */
  lemma DecodeLinesStep(lines: seq<string>, i: nat)
    requires i < |lines|
    ensures DecodeLines(lines[..i + 1]) == LoadStep(DecodeLines(lines[..i]), DecodeExpenseLine(lines[i]))
  {
    assert lines[..i + 1][..i] == lines[..i];
    assert LineResults(lines[..i + 1])[..i] == LineResults(lines[..i]);
  }

  /** A read that stopped at a bad amount is the read of the whole file. */
  lemma DecodeLinesStopped(lines: seq<string>, i: nat)
    requires i <= |lines| && DecodeLines(lines[..i]).failed
    ensures DecodeLines(lines) == DecodeLines(lines[..i])
  {
    DecodeConcat(lines[..i], lines[i..]);
    assert lines[..i] + lines[i..] == lines;
  }

  /** Lines that each decode to a record give those records, in order. */
  lemma {:induction false} CollectParsed(rs: seq<LineResult>, es: seq<Expense>)
    requires |rs| == |es|
    requires forall i :: 0 <= i < |rs| ==> rs[i] == Parsed(es[i])
    ensures Collect(rs) == Loaded(es, false)
    decreases |rs|
  {
    if rs != [] {
      var n := |rs| - 1;
      CollectParsed(rs[..n], es[..n]);
      assert es[..n] + [es[n]] == es;
    }
  }

  /** The lines written for well-formed expenses read back as those expenses. */
  lemma DecodeExpenseLines(es: seq<Expense>)
    requires forall i :: 0 <= i < |es| ==> WellFormed(es[i])
    ensures DecodeLines(ExpenseLines(es)) == Loaded(es, false)
  {
    var rs := LineResults(ExpenseLines(es));
    forall i | 0 <= i < |rs| ensures rs[i] == Parsed(es[i]) {
      DecodeEncodeExpense(es[i]);
    }
    CollectParsed(rs, es);
  }

  /** Saving the list and loading the file gives the list back, for
      well-formed expenses. */
  lemma SaveLoadExpenses(es: seq<Expense>)
    requires forall i :: 0 <= i < |es| ==> WellFormed(es[i])
    ensures DecodeLines(FileLines(EncodeExpenses(es))) == Loaded(es, false)
  {
    var lines := ExpenseLines(es);
    forall i | 0 <= i < |lines| ensures '\n' !in lines[i] && '\r' !in lines[i] {
      NoSeparatorInAmount(es[i].amount);
    }
    FileLinesUnlines(lines);
    DecodeExpenseLines(es);
  }

  // ----------------------------------------------------------------- budgets

  /** The line write_budget / save_budgets writes for one entry. */
  function EncodeBudgetEntry(category: string, amount: real): string
  {
    category + ":" + FormatAmount(amount)
  }

  function BudgetLines(b: Budget): (lines: seq<string>)
    ensures |lines| == |b| && forall i :: 0 <= i < |b| ==> lines[i] == EncodeBudgetEntry(b[i].0, b[i].1)
    decreases |b|
  {
    if b == [] then [] else BudgetLines(b[..|b| - 1]) + [EncodeBudgetEntry(b[|b| - 1].0, b[|b| - 1].1)]
  }

  /** The whole budget file as written, one line per entry in dictionary order. */
  function EncodeBudget(b: Budget): string
  {
    Unlines(BudgetLines(b))
  }

  /** Writing one more entry appends its line. */
  lemma EncodeBudgetStep(b: Budget, i: nat)
    requires i < |b|
    ensures EncodeBudget(b[..i + 1]) == EncodeBudget(b[..i]) + EncodeBudgetEntry(b[i].0, b[i].1) + "\n"
  {
    assert b[..i + 1][..i] == b[..i];
    var lines := BudgetLines(b[..i + 1]);
    assert lines[..i] == BudgetLines(b[..i]);
  }

  datatype BudgetLineResult = NoEntry | Entry(category: string, amount: real) | BadLine(error: LoadError)

  /** One line of the budget file: strip it; skip it unless it holds a ':';
      more than one ':' or an amount float() rejects is an error; category and
      amount are stripped. */
  function DecodeBudgetLine(line: string): BudgetLineResult
  {
    var l := Strip(line);
    if l == [] || ':' !in l then NoEntry
    else
      var parts := Split(l, ':');
      if |parts| != 2 then BadLine(TooManyValues)
      else
        match ParseNumber(Strip(parts[1]))
        case None => BadLine(InvalidNumber)
        case Some(v) => Entry(Strip(parts[0]), v)
  }

  /** read_budget over the lines of an existing file: entries go into the
      dictionary in order, a later line for a category overwrites the value
      but keeps the position; one bad line fails the whole read. */
  function DecodeBudget(lines: seq<string>): Result<Budget, LoadError>
    decreases |lines|
  {
    if lines == [] then Ok([])
    else BudgetStep(DecodeBudget(lines[..|lines| - 1]), DecodeBudgetLine(lines[|lines| - 1]))
  }

  /** The effect of one more line on a budget read so far. */
  function BudgetStep(prev: Result<Budget, LoadError>, r: BudgetLineResult): Result<Budget, LoadError>
  {
    match prev
    case Err(e) => Err(e)
    case Ok(b) =>
      match r
      case NoEntry => Ok(b)
      case Entry(k, v) => Ok(Put(b, k, v))
      case BadLine(e) => Err(e)
  }

  /** Reading one more line of the budget file. */
  lemma DecodeBudgetStep(lines: seq<string>, i: nat)
    requires i < |lines|
    ensures DecodeBudget(lines[..i + 1]) == BudgetStep(DecodeBudget(lines[..i]), DecodeBudgetLine(lines[i]))
  {
    assert lines[..i + 1][..i] == lines[..i];
  }

  /** Once a budget line has failed, the rest of the file changes nothing. */
  lemma {:induction false} DecodeBudgetStopped(lines: seq<string>, i: nat)
    requires i <= |lines| && DecodeBudget(lines[..i]).Err?
    ensures DecodeBudget(lines) == DecodeBudget(lines[..i])
    decreases |lines| - i
  {
    if i < |lines| {
      DecodeBudgetStep(lines, i);
      DecodeBudgetStopped(lines, i + 1);
    } else {
      assert lines[..i] == lines;
    }
  }

  /** A category name that survives a save and a load. */
  predicate CategoryKeyOk(k: string)
  {
    ':' !in k && '\n' !in k && '\r' !in k && Strip(k) == k
  }

  /** A budget that survives a save and a load. */
  predicate BudgetWellFormed(b: Budget)
  {
    DistinctKeys(b) && forall i :: 0 <= i < |b| ==> CategoryKeyOk(b[i].0) && IsCents(b[i].1)
  }

  /** Reading back the line written for an entry gives that entry. */
  lemma DecodeEncodeBudgetEntry(k: string, v: real)
    requires CategoryKeyOk(k) && IsCents(v)
    ensures DecodeBudgetLine(EncodeBudgetEntry(k, v)) == Entry(k, v)
  {
    var amount := FormatAmount(v);
    NoSeparatorInAmount(v);
    ParseFormatAmount(v);
    BudgetLineFields(k, amount);
    var line := k + ":" + amount;
    assert line[|k|] == ':';
  }

  /** A category and an amount text joined by ':': the line is already
      stripped and splits back into the two. */
  lemma BudgetLineFields(k: string, amount: string)
    requires ':' !in k && Strip(k) == k
    requires ':' !in amount && amount != [] && !IsSpace(amount[0]) && !IsSpace(amount[|amount| - 1])
    ensures var line := k + ":" + amount;
      Strip(line) == line && Split(line, ':') == [k, amount] && Strip(amount) == amount
  {
    var line := k + ":" + amount;
    SplitPiece(k, amount, ':');
    SplitNoSeparator(amount, ':');
    StripUnchanged(amount);
    if k != [] {
      StripSpec(k);
      assert line[0] == k[0];
    } else {
      assert line[0] == ':';
    }
    assert line[|line| - 1] == amount[|amount| - 1];
    StripUnchanged(line);
  }

  /** Lines that each decode to an entry of a dictionary with distinct keys
      give that dictionary, in order. */
  lemma {:induction false} DecodeAllEntries(lines: seq<string>, b: Budget)
    requires |lines| == |b| && DistinctKeys(b)
    requires forall i :: 0 <= i < |lines| ==> DecodeBudgetLine(lines[i]) == Entry(b[i].0, b[i].1)
    ensures DecodeBudget(lines) == Ok(b)
    decreases |lines|
  {
    if lines != [] {
      var n := |lines| - 1;
      var init := b[..n];
      assert init + [b[n]] == b;
      assert DistinctKeys(init);
      DecodeAllEntries(lines[..n], init);
      assert DecodeBudget(lines) == BudgetStep(Ok(init), Entry(b[n].0, b[n].1));
      LastKeyNew(b);
      PutNew(init, b[n].0, b[n].1);
    }
  }

  /** Saving a budget and loading the file gives the same dictionary, order
      included, when categories hold no ':' or line break and no surrounding
      whitespace. */
  lemma SaveLoadBudget(b: Budget)
    requires BudgetWellFormed(b)
    ensures DecodeBudget(FileLines(EncodeBudget(b))) == Ok(b)
  {
    var lines := BudgetLines(b);
    forall i | 0 <= i < |lines| ensures '\n' !in lines[i] && '\r' !in lines[i] {
      NoSeparatorInAmount(b[i].1);
    }
    FileLinesUnlines(lines);
    forall i | 0 <= i < |lines| ensures DecodeBudgetLine(lines[i]) == Entry(b[i].0, b[i].1) {
      DecodeEncodeBudgetEntry(b[i].0, b[i].1);
    }
    DecodeAllEntries(lines, b);
  }

  /** A later line for a category wins: its value replaces the earlier one,
      and the category keeps the place it was first given. */
  lemma LaterBudgetLineWins(lines: seq<string>, k: string, v: real, b: Budget)
    requires DecodeBudget(lines) == Ok(b)
    requires CategoryKeyOk(k) && IsCents(v)
    ensures DecodeBudget(lines + [EncodeBudgetEntry(k, v)]) == Ok(Put(b, k, v))
    ensures Get(Put(b, k, v), k) == Some(v)
    ensures k in Keys(b) ==> Keys(Put(b, k, v)) == Keys(b)
  {
    DecodeEncodeBudgetEntry(k, v);
    var all := lines + [EncodeBudgetEntry(k, v)];
    assert all[..|all| - 1] == lines;
    PutGet(b, k, v, k);
  }
}
