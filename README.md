# Personal expense tracker — a verified model of its expense and budget core

The personal expense tracker keeps a list of expenses and a dictionary of budget limits.
- Each expense has a date, a category, an amount and a description.
- The budget dictionary maps a category to its amount.

The tracker has two front ends over the same two text files:
- `expenses.txt` holds one `date<TAB>category<TAB>amount<TAB>description` line per expense.
- `budget.txt` holds one `category:amount` line per budget entry.

The two front ends are:
- a window (`ExpenseTrackerGUI` in `gui_app.py`), whose buttons change its expense list and budget dictionary in place;
- a console menu (`project.py`), whose functions read a file, change what they read and write it back.

This project models what both front ends compute and proves what they promise:
- date and amount validation;
- the line codec of both files and its save-then-load round trips;
- adding and deleting expenses;
- updating budgets;
- the quick, advanced and keyword searches;
- the stable sorts by date;
- the category totals and the report's figures and warnings.

Modules, one per concern:

| module | file | contents |
|---|---|---|
| `Wrappers` | wrappers.dfy | `Option` and `Result` |
| `Seqs` | seqs.dfy | order-preserving filters and subsequences |
| `Text` | text.dfy | `strip`, `lower`, `in`, `split`, string `<`, reading a file's lines |
| `Numbers` | numbers.dfy | `float()` on decimal text, `str()` and `:.2f` of amounts, `validate_amount` |
| `Dates` | dates.dfy | `strptime(s, '%Y-%m-%d')` and `validate_date`; ISO 8601 extended calendar dates (section 4.1.2.2 of ISO 8601:2004) |
| `Dicts` | dicts.dfy | insertion-ordered dictionaries: `d[k] = v`, `d.get`, `sum(d.values())` |
| `Records` | records.dfy | expenses, budgets and both file formats |
| `Queries` | queries.dfy | the three searches, the sort by date, the "last 10" list |
| `Reports` | reports.dfy | category totals, grouping, report lines, warnings |
| `Gui` | gui.dfy | class `ExpenseTracker`: the window's state and buttons |
| `Cli` | cli.dfy | the console functions; `view_expenses` sorts an array in place |

Design choices:
- **Amounts** are exact `real`s.
  - `float()` is modelled on decimal text: an optional sign, digits, and an optional point with digits. Surrounding whitespace is stripped.
  - `str()` of an amount is modelled for whole-cent values below 1e16 in magnitude, where it is the shortest form: `12.0`, `12.5`, `12.25`. From 1e16 up, `str()` writes exponent form (`1e+16`), which is not modelled.
  - The round trips are proved for whole-cent amounts.
- **Dictionaries** are sequences of `(key, value)` pairs.
  - Keys are distinct and in insertion order.
  - Assigning to an existing key keeps its position.
- **A file** is its text.
  - Reading it yields its lines after universal-newline translation.
  - A missing file is `None`.
- **The window** is a class with the two fields the source mutates: `expenses` and `budgets`.
  - Each button is a method whose `ensures` gives the new state as a function of the old one.
  - A button that saves returns the text written.
- **The loops of the source are loops here.** Examples:
  - the line-by-line reads of both files;
  - the search, filter and report loops;
  - the delete search;
  - the update loop over the budget form.

  Each loop is proved equal to a specification function defined one step at a time. The properties are proved about those functions.
- **`view_expenses` sorts in place**, so `Cli.ViewExpenses` sorts an `array` in place.
  - The sort is a stable insertion sort with swaps.
  - Its result is proved to be `SortByDate` of the old contents.
  - `SortByDate` is proved sorted, a permutation and stable.
- **The report's "last 10"** uses `sorted(..., reverse=True)`, which is stable.
  - Expenses of the same date therefore stay in list order; they are not in reverse insertion order.
  - `Queries.RecentStable` states this.
- **The delete button reads the selected row back from the table.**
  - The table hands back every cell that `int()` accepts as an `int`, such as a description "42", "007" or " 5".
  - Such a cell never equals the text field of a record. Nothing is deleted, yet the list is saved and success is reported.
  - `Gui.IntText` models what `int()` accepts, and `Gui.AfterDelete` gives the list after the search loop.
  - `Gui.NumericDescriptionKept` shows a record with description "42" that is never deleted.

## Model

| member | source | states |
|---|---|---|
| Numbers.ValidateAmount | project.py:19-25 | true exactly when float() accepts the text and the value is above zero; text that is not a number gives false, not an error |
| Numbers.ParseNumber | gui_app.py:395 | float() of a text, modelled on decimal text after stripping; `Numbers.ValidateAmount`, `Numbers.ParseFormatAmount` and `Numbers.ParseFormatFixed2` state what it reads |
| Numbers.FormatAmount | project.py:56 | `str()` of an amount; `Numbers.ParseFormatAmount`, `Numbers.FormatAmountCharacters` and `Numbers.CentsFraction` state what it writes |
| Numbers.FormatFixed2 | gui_app.py:514 | `:.2f` of an amount; `Numbers.ParseFormatFixed2`, `Numbers.TwoDigits` and `Gui.FormatFixed2Plain` state what it writes |
| Numbers.ValidateFormattedAmount | project.py:19-25 | the str() text of a whole-cent amount is accepted exactly when the amount is positive |
| Numbers.ParseFormatAmount | project.py:56 | float() of str() of a whole-cent amount gives the amount back |
| Numbers.ParseFormatFixed2 | gui_app.py:474-475 | float() of the two-decimal display form gives a whole-cent amount back |
| Numbers.FormatAmountCharacters | gui_app.py:908 | the model's writer for `str()` of an amount gives a non-empty text of digits, '.' and '-' with no whitespace at either end; this is what `str()` writes for amounts below 1e16 in magnitude |
| Numbers.CentsFraction | project.py:56 | the digits str() writes after the point denote the cents of the amount |
| Numbers.TwoDigits | gui_app.py:947 | the two digits `:.2f` writes after the point denote the cents |
| Numbers.NatToStringValue | project.py:56 | the decimal digits written for a number denote that number |
| Dates.ParseDate | project.py:13 | every date strptime accepts exists (years 1-9999, month 1-12, day within the month) |
| Dates.ValidateDate | project.py:10-16 | validate_date holds exactly when strptime accepts the text; its meaning is stated by `Dates.ParseFormatDate`, `Dates.LeapDay` and `Dates.ImpossibleDates` |
| Dates.ParseFormatDate | project.py:10-16 | a zero-padded YYYY-MM-DD text is accepted exactly when the date exists, and it reads back as that date |
| Dates.LeapDay | project.py:10-16 | February 29 passes validate_date exactly in leap years |
| Dates.ImpossibleDates | project.py:10-16 | month 13 and February 30 never pass validate_date |
| Dates.ParseLooseDate | project.py:13 | one-digit months and days are accepted too, and mean the same date |
| Dates.MonthFieldPadded | project.py:13 | a two-digit month field is read as its number exactly when that number is 1 to 12 |
| Dates.DayFieldPadded | project.py:13 | a two-digit day field is read as its number exactly when that number is 1 to 31 |
| Dates.DayFieldDigits | project.py:13 | the day field given as two digit characters reads as their value when that value is 1 to 31, and fails otherwise |
| Dates.PadTwoDigits | project.py:13 | a number below 100 written with two digits is its tens digit followed by its units digit |
| Dates.ParseDateFields | project.py:13 | strptime reads "YYYY-month-day" as the date its three fields give |
| Dates.PadDigitsLess | project.py:210 | zero-padded numbers of one width compare as strings exactly as they compare as numbers |
| Dates.LessFields | project.py:210 | comparing date strings whose fields have matching widths compares the year, then the month, then the day |
| Dates.CanonicalOrderIsChronological | gui_app.py:540-542 | for zero-padded dates, the string comparison of the date bounds is chronological order |
| Dates.CanonicalFormInjective | project.py:13 | different valid dates have different zero-padded forms |
| Dates.LooseDatesMisorder | gui_app.py:540-542 | two dates that strptime accepts, "2024-9-30" and "2024-10-01", compare as strings against their chronological order |
| Text.StripSpec | project.py:34 | strip() removes a run of whitespace at each end and nothing else: the result is the piece of the line between them, and it neither starts nor ends with whitespace |
| Text.Strip | project.py:34 | strip(); `Text.StripSpec`, `Text.StripUnchanged` and `Text.StripAllSpace` state it |
| Text.StripUnchanged | project.py:34 | a line with no whitespace at its ends is unchanged by strip() |
| Text.StripAllSpace | project.py:35 | a line of whitespace strips to the empty line, which is skipped |
| Text.Lower | gui_app.py:499 | lower() keeps the length and lowers each character |
| Text.LowerIdempotent | gui_app.py:507-509 | lowering an already lowered text changes nothing |
| Text.Contains | gui_app.py:507-510 | `t in s` holds exactly when `t` occurs in `s` at some position |
| Text.ContainsEmpty | gui_app.py:507-510 | the empty search text occurs in every field |
| Text.Split | project.py:36 | split() gives at least one part, and no part holds the separator |
| Text.JoinSplit | project.py:36 | joining the parts of a split with the separator gives the line back |
| Text.SplitJoin | project.py:36 | splitting separator-free pieces joined by the separator gives the pieces back |
| Text.LessIrreflexive | project.py:210 | no date text sorts before itself |
| Text.LessTransitive | project.py:210 | string order is transitive |
| Text.LessTotal | project.py:210 | two different date texts are always ordered one way or the other |
| Text.LessAsymmetric | project.py:210 | two texts never each sort before the other |
| Text.TranslateNewlines | gui_app.py:386 | after universal-newline translation no carriage return is left |
| Text.TranslateCrLf | gui_app.py:386 | a "\r\n" pair becomes one "\n", and the text before it is kept as it is |
| Text.TranslateLoneCr | gui_app.py:386 | a "\r" not followed by "\n" becomes "\n", and the text before it is kept as it is |
| Text.FileLines | project.py:33 | no line read from a file holds a line break |
| Text.FileLinesUnlines | project.py:33 | reading a file written one line at a time gives the same lines when no line holds a line break |
| Dicts.Keys | project.py:354 | the keys are listed in the dictionary's order |
| Dicts.GetSome | gui_app.py:627 | a category has a value exactly when it is a key |
| Dicts.GetEntry | gui_app.py:627 | with distinct keys, each entry is what a lookup of its key finds |
| Dicts.Put | project.py:72 | `d[k] = v` keeps the key order, appending `k` only when it is new |
| Dicts.PutGet | project.py:72 | after `d[k] = v`, `d[k]` is `v` and every other key reads as before |
| Dicts.PutDistinct | project.py:72 | assignment keeps the keys distinct |
| Dicts.PutExisting | project.py:375 | assigning to an existing key changes only that entry's value, in place |
| Dicts.PutNew | project.py:72 | assigning to a new key appends one entry |
| Dicts.SumValuesUpdate | project.py:430 | changing one value changes sum(values()) by the difference |
| Dicts.PutExistingSum | project.py:430 | after assigning to an existing key, the sum changes by the difference |
| Dicts.PutNewSum | project.py:430 | after assigning to a new key, the sum grows by the new value |
| Dicts.AddToKeys | project.py:407-409 | creating a missing category at 0 and adding to it keeps the keys, or appends the new one |
| Dicts.AddToGet | project.py:407-409 | after adding `x` to a category it reads as its old value (0 when missing) plus `x`; other categories are unchanged |
| Dicts.AddToSum | project.py:407-409 | adding `x` to one category adds `x` to the sum of the totals |
| Dicts.AddToDistinct | project.py:407-409 | adding to a category keeps the keys distinct |
| Dicts.AppendToKeys | project.py:172-174 | appending to a category's list keeps the keys, or appends the new category |
| Dicts.AppendToGet | project.py:172-174 | appending `x` to a category's list extends that list (empty when missing) by `x`; other categories are unchanged |
| Seqs.Filter | gui_app.py:506-516 | a filter never yields more rows than it was given |
| Seqs.FilterIsSubsequence | gui_app.py:506-516 | filtering yields an order-preserving subsequence |
| Seqs.FilterMultiset | gui_app.py:506-516 | filtering keeps every occurrence of a matching element and no other |
| Seqs.FilterMembership | gui_app.py:506-516 | an element is shown exactly when it is in the list and matches |
| Seqs.FilterAll | gui_app.py:506-516 | when every element matches, the filter yields the whole list |
| Seqs.FilterCongruent | gui_app.py:506-516 | two tests that agree on every element select the same rows |
| Seqs.FilterConcat | gui_app.py:506-516 | filtering two blocks of a list filters each block in turn |
| Seqs.FilterPrefix | gui_app.py:506-516 | the rows of a prefix of the list are a prefix of the rows of the whole list |
| Records.ExpenseLines | gui_app.py:907-908 | one line is written per expense, in list order, each the expense's tab-separated line |
| Records.EncodeExpense | gui_app.py:908 | the tab-separated line written for one expense; `Records.DecodeEncodeExpense` and `Records.NoSeparatorInAmount` state it |
| Records.EncodeExpensesStep | gui_app.py:907-908 | writing one more expense appends its line and a newline to the file |
| Records.ReadRecords | gui_app.py:386-397 | the line-by-line read appends the records in file order; the first bad amount stops it and keeps what came before |
| Records.DecodeLines | gui_app.py:386-397 | the read loop over a file's lines; `Records.DecodeLinesStep`, `Records.DecodeLinesStopped`, `Records.DecodeConcat` and `Records.DecodeExpenseLines` state it |
| Records.ReadExpenseLine | gui_app.py:388-397 | one line is stripped, split on tabs, skipped when blank or short, and read as a record unless float() rejects its amount |
| Records.DecodeExpenseLine | gui_app.py:388-397 | the reading of one expense line; `Records.DecodeFields`, `Records.DecodeEncodeExpense` and `Records.ExtraFieldsIgnored` state what it gives |
| Records.LineResults | project.py:33-43 | each line of the file is read on its own, in order |
| Records.NoSeparatorInAmount | gui_app.py:908 | the written amount holds no tab, colon or line break and has no whitespace at either end |
| Records.DecodeFields | gui_app.py:388-397 | a stripped line of four or more fields with a good amount reads as its first four fields |
| Records.DecodeEncodeExpense | gui_app.py:388-397 | the line written for a well-formed expense reads back as that expense |
| Records.ExtraFieldsIgnored | gui_app.py:390-397 | fields after the fourth are ignored |
| Records.DecodeLastField | gui_app.py:388-397 | a line with the date, category and amount text of an expense and a last part starting with its description reads as that expense |
| Records.LineFields | gui_app.py:388-390 | such a line is already stripped and splits into its fields |
| Records.CollectAfterFailure | project.py:41 | once a bad amount has stopped the read, later lines change nothing |
| Records.CollectConcat | gui_app.py:392 | a read that does not fail gives the records of the first block of lines followed by those of the second |
| Records.DecodeConcat | gui_app.py:387-397 | the same for the lines of a file, and a failed first block fails the whole read |
| Records.DecodeLinesStep | gui_app.py:387-397 | reading one more line applies that line's outcome to the read so far |
| Records.DecodeLinesStopped | gui_app.py:395 | a read that stopped at a bad amount is the read of the whole file |
| Records.CollectParsed | gui_app.py:392 | lines that each read as a record give those records, in order |
| Records.DecodeExpenseLines | gui_app.py:386-397 | the lines written for well-formed expenses read back as those expenses |
| Records.SaveLoadExpenses | gui_app.py:906-908 | saving a list of well-formed expenses and loading the file gives the list back, order included |
| Records.BudgetLines | project.py:88-89 | one `category:amount` line is written per entry, in the dictionary's order |
| Records.EncodeBudget | project.py:88-89 | the text write_budget writes; `Records.BudgetLines`, `Records.EncodeBudgetStep` and `Records.SaveLoadBudget` state it |
| Records.EncodeBudgetStep | project.py:88-89 | writing one more entry appends its line and a newline |
| Records.DecodeBudgetStep | project.py:68-72 | reading one more budget line applies its outcome to the dictionary so far |
| Records.DecodeBudget | project.py:67-72 | the budget read loop over a file's lines; `Records.DecodeBudgetStep`, `Records.DecodeBudgetStopped`, `Records.DecodeAllEntries` and `Records.LaterBudgetLineWins` state it |
| Records.DecodeBudgetLine | project.py:68-72 | the reading of one budget line; `Records.DecodeEncodeBudgetEntry` and `Cli.ReadBudgetLine` state what it gives |
| Records.DecodeBudgetStopped | project.py:71-72 | once a budget line has failed, the rest of the file changes nothing |
| Records.DecodeEncodeBudgetEntry | project.py:69-72 | the line written for an entry with a clean category and a whole-cent amount reads back as that entry |
| Records.BudgetLineFields | project.py:69-72 | a clean category and an amount text joined by ':' are already stripped and split back into the two |
| Records.DecodeAllEntries | project.py:68-72 | lines that each read as an entry of a dictionary with distinct keys give that dictionary, in order |
| Records.SaveLoadBudget | project.py:84-93 | write_budget followed by read_budget gives the same dictionary, order included, when categories hold no ':', no line break and no surrounding whitespace |
| Records.LaterBudgetLineWins | project.py:72 | a later line for a category overwrites its value and keeps the place it was first given |
| Queries.FilterByTermSpec | gui_app.py:506-516 | the quick search keeps the list order, and it keeps an expense (every copy of it) exactly when the lowered text occurs in its lowered date, category or description or in str() of its amount |
| Queries.FilterByTerm | gui_app.py:506-516 | the rows of the quick search; `Queries.FilterByTermSpec` and `Queries.EmptyTermKeepsAll` state it |
| Queries.EmptyTermKeepsAll | gui_app.py:499-510 | an empty search box shows every expense |
| Queries.MatchesTerm | gui_app.py:507-510 | the quick-search test; `Queries.FilterByTermSpec` and `Queries.KeywordHitIsTermHit` state it |
| Queries.SearchResultsSpec | project.py:226-241 | the keyword search is refused exactly when the stripped input is empty; otherwise it keeps the order and exactly the expenses whose date, category or description holds the keyword, each as often as it occurs |
| Queries.SearchResults | project.py:226-241 | the console keyword search; `Queries.SearchResultsSpec` states it |
| Queries.KeywordHitIsTermHit | project.py:238-240 | every console search hit is also a quick-search hit for the same text |
| Queries.InRangeSpec | gui_app.py:540-561 | an expense is in range exactly when it is within the inclusive date bounds, in the chosen category unless that is "All", and within each amount bound that float() accepts |
| Queries.InRange | gui_app.py:540-561 | the advanced-search test; `Queries.InRangeSpec` states it positively |
| Queries.AdvancedResultsSpec | gui_app.py:537-563 | the advanced search keeps the list order and exactly the expenses in range, each as often as it occurs |
| Queries.AdvancedResults | gui_app.py:537-563 | the rows of the advanced search; `Queries.AdvancedResultsSpec`, `Queries.NoCriteriaKeepsAll` and `Queries.MalformedBoundsIgnored` state it |
| Queries.NoCriteriaKeepsAll | gui_app.py:540-550 | empty bounds and the category "All" restrict nothing |
| Queries.MalformedBoundsIgnored | gui_app.py:550-561 | each amount bound that float() rejects is ignored on its own, as if it were empty, whatever the other bound holds |
| Queries.NotPrecedesTransitive | project.py:210 | "does not go strictly before" is transitive, in both sort directions |
| Queries.Insert | project.py:210 | inserting one expense makes the list one longer |
| Queries.SortByDate | project.py:210 | sorting keeps the length |
| Queries.InsertPermutation | project.py:210 | insertion adds the new expense and loses nothing |
| Queries.SortPermutation | project.py:210 | the sort by date is a permutation of the list |
| Queries.InsertMember | project.py:210 | after insertion the list holds only the new expense and what was there |
| Queries.InsertSorted | project.py:210 | inserting into a sorted list keeps it sorted |
| Queries.SortSorted | project.py:210 | the sort orders by date, ascending or (reverse) descending |
| Queries.InsertOnDate | project.py:210 | insertion puts the new expense after the expenses of its own date |
| Queries.SortStable | project.py:210 | the sort is stable: the expenses of one date keep their relative order |
| Queries.InsertBehind | project.py:210 | inserting in front of a run the new expense strictly precedes leaves that run after it |
| Queries.RecentSpec | gui_app.py:642-643 | the "last 10" list has at most ten expenses, newest first, taken from the list, and no expense left out is newer than one shown |
| Queries.RecentStable | gui_app.py:642-643 | expenses of the same date keep their original order in the "last 10" list |
| Queries.Recent | gui_app.py:642-643 | the "last 10" list; `Queries.RecentSpec` and `Queries.RecentStable` state it |
| Reports.TotalInsert | project.py:217-220 | inserting an expense adds its amount to the total |
| Reports.TotalSorted | project.py:217-220 | sorting does not change the total |
| Reports.Total | gui_app.py:597 | the total spent; `Reports.TotalInsert`, `Reports.TotalSorted` and `Reports.CategoryTotalsSum` state it |
| Reports.CategoryList | project.py:406 | the categories are listed in list order |
| Reports.FirstIndex | gui_app.py:601 | a category's first appearance precedes every other appearance |
| Reports.CategorySumStep | project.py:195 | a category's sum grows by the last expense's amount exactly when that expense is in the category |
| Reports.FilterAbsent | project.py:195 | a category nobody spent in has no expenses |
| Reports.CategoryTotalsDistinct | gui_app.py:598-603 | the totals hold each category once |
| Reports.CategoryTotalsKeys | gui_app.py:598-603 | the totals have an entry for exactly the categories spent in |
| Reports.CategoryTotalsKeyAt | gui_app.py:598-603 | every category in the totals was spent in |
| Reports.CategoryTotalsValue | gui_app.py:598-603 | each category's total is the sum of its expenses; a category nobody spent in has no entry |
| Reports.AddAmountStep | gui_app.py:600-603 | one turn of the totals loop, seen from one category |
| Reports.CategoryTotalsSum | gui_app.py:597-603 | the category totals add up to the total spent |
| Reports.CategoryTotalsOrder | gui_app.py:598-603 | categories appear in the order the list first mentions them |
| Reports.CategoryTotals | gui_app.py:598-603 | the category totals; `Reports.CategoryTotalsKeys`, `Reports.CategoryTotalsValue`, `Reports.CategoryTotalsDistinct`, `Reports.CategoryTotalsOrder` and `Reports.CategoryTotalsSum` state it |
| Reports.OrderStep | gui_app.py:598-603 | one more turn of the totals loop keeps first-appearance order |
| Reports.GroupsKeys | project.py:170-174 | the grouped view has the categories of the totals, in the same order |
| Reports.GroupsGet | project.py:170-181 | each group holds exactly its category's expenses, in list order; a category nobody spent in has no group |
| Reports.Groups | project.py:170-174 | the grouped view; `Reports.GroupsKeys` and `Reports.GroupsGet` state it |
| Reports.Usage | gui_app.py:613 | the usage is 0 unless the budget is positive, and otherwise spent/budget as a percentage |
| Reports.CategoryLines | gui_app.py:626-629 | one line per category total, in the totals' order, with its budget (0 when missing), remainder and usage |
| Reports.BudgetAnalysis | project.py:194-198 | one analysis row per budget entry |
| Reports.BudgetAnalysisSpec | project.py:194-198 | each budget entry is analysed in the budget's order, with what was spent in it, its budget and what remains |
| Reports.ReportLineAt | gui_app.py:626-629 | each report line is a category spent in, with its total, its budget (0 when missing), budget minus spent, and the usage percentage (0 unless the budget is positive) |
| Reports.ReportLineFor | gui_app.py:626-629 | every category spent in has a report line |
| Reports.ReportLinesSpec | gui_app.py:626-636 | the report lines name exactly the categories spent in, each once, with total, budget (0 when missing), remainder and usage percentage |
| Reports.ReportLines | gui_app.py:626-636 | the category lines of a report; `Reports.ReportLinesSpec`, `Reports.ReportLineAt` and `Reports.ReportLineFor` state it |
| Reports.OverrunsSound | gui_app.py:653-656 | every "exceeded" warning is called for by a line that is over budget, with the excess |
| Reports.OverrunsComplete | gui_app.py:653-656 | a category has a warning exactly when one of its lines is over budget |
| Reports.OverrunFor | gui_app.py:653-656 | a category has a warning exactly when it was spent in and its spending is above its budget |
| Reports.OverrunExcess | gui_app.py:656 | each warning gives the spending minus the budget |
| Reports.OverrunWarnings | gui_app.py:653-656 | an "exceeded" warning appears for a category exactly when spent > budget (a missing budget counting as 0), with the excess |
| Reports.Overruns | gui_app.py:653-656 | the per-category warnings; `Reports.OverrunsSound`, `Reports.OverrunsComplete` and `Reports.OverrunWarnings` state it |
| Reports.OverrunsEmpty | gui_app.py:658-660 | no category warning is given exactly when no category remainder is negative |
| Reports.AllWithinIffNoWarnings | gui_app.py:650-660 | "All budgets are within limits" appears exactly when neither the total warning nor any category warning does |
| Reports.AllWithin | gui_app.py:658-660 | the "within limits" test; `Reports.AllWithinIffNoWarnings` and `Reports.OverrunsEmpty` state it |
| Reports.GuiReportTotals | gui_app.py:591-620 | nothing is reported exactly for an empty list; otherwise the lines add up to the total spent, remaining is budget total minus spent, the total warning is given exactly when spent exceeds the budget total, and usage is the percentage of the budget total spent, 0 unless that total is positive |
| Reports.GuiReportOf | gui_app.py:589-664 | the window's report; `Reports.GuiReportTotals`, `Reports.ReportLinesSpec`, `Reports.OverrunWarnings` and `Reports.AllWithinIffNoWarnings` state it |
| Reports.SumSpentLines | gui_app.py:626-629 | the lines' spending adds up to the sum of the totals |
| Reports.CliMatchesGui | project.py:402-441 | the console and the window report the same figures, usage, lines and total warning |
| Reports.CliReportOf | project.py:388-443 | the console report; `Cli.CliReportSpec` and `Reports.CliMatchesGui` state it |
| Gui.NewExpenseSpec | gui_app.py:418-444 | the add form is accepted exactly when date, amount and description are filled in, the amount is a number above zero and the date passes strptime; the record then holds the form's fields; each refusal (missing field, bad amount, amount not above zero, bad date) is given exactly when its check is the first to fail |
| Gui.RemoveFirstMultiset | gui_app.py:478-484 | deleting removes exactly one copy of the record when there is one, and nothing otherwise |
| Gui.RemoveFirstOrder | gui_app.py:478-484 | deleting keeps the other records in their order |
| Gui.RemoveFirstAbsent | gui_app.py:478-484 | with no matching record the list is unchanged |
| Gui.RemoveFirstAt | gui_app.py:478-484 | the record deleted is the one at the first matching position |
| Gui.RemoveFirst | gui_app.py:478-484 | the list without its first copy of a record; `Gui.RemoveFirstMultiset`, `Gui.RemoveFirstOrder`, `Gui.RemoveFirstAbsent` and `Gui.RemoveFirstAt` state it |
| Gui.AfterDelete | gui_app.py:470-484 | the list after the delete search; `Gui.DeleteDisplayedRow` and `Gui.NumericDescriptionKept` state it |
| Gui.IntText | gui_app.py:470-471 | the cell texts the table hands back as ints; `Gui.FortyTwoIsInt` and `Gui.DollarNotInt` state it on examples |
| Gui.FormatFixed2Plain | gui_app.py:947 | the `:.2f` amount holds no '$' and no whitespace at its ends |
| Gui.DisplayRowReadsBack | gui_app.py:470-482 | the row shown for a whole-cent expense reads back with that expense's amount and fields, and its `$` amount cell is never taken for an int |
| Gui.DisplayRow | gui_app.py:511-515 | the table row shown for an expense; `Gui.DisplayRowReadsBack` states it |
| Gui.RowAmount | gui_app.py:474-475 | the amount read back from a row; `Gui.DisplayRowReadsBack` states it |
| Gui.DeleteDisplayedRow | gui_app.py:470-484 | deleting the row of a whole-cent record whose text cells are not int-like removes exactly one copy of that record and keeps the others in order |
| Gui.NumericDescriptionKept | gui_app.py:470-484 | a record with description "42" is never deleted: its description cell comes back as an int, so the list stays as it was |
| Gui.DollarNotInt | gui_app.py:474 | a cell starting with `$` is not one that int() accepts |
| Gui.FortyTwoIsInt | gui_app.py:470-471 | "42" is a text int() accepts |
| Gui.FormEntries | gui_app.py:207-222 | the budget form shows one entry per budget, in order, holding `:.2f` of the amount |
| Gui.ApplyEntriesOk | gui_app.py:579-587 | the budget update succeeds exactly when float() accepts every entry |
| Gui.ApplyEntriesOkPrefix | gui_app.py:579-581 | the same for the first entries of the form |
| Gui.ApplyEntriesPartial | gui_app.py:579-587 | a rejected entry leaves the budgets the earlier entries made; they are not rolled back |
| Gui.ApplyEntriesStep | gui_app.py:579-581 | one more turn of the update loop |
| Gui.ApplyEntriesStopped | gui_app.py:579-587 | after a rejected entry the later entries change nothing |
| Gui.ApplyEntriesKeys | gui_app.py:579-581 | entries for existing categories keep the categories and their order |
| Gui.ApplyEntriesLast | gui_app.py:579-581 | after a successful update a category holds the amount typed at its last entry |
| Gui.ApplyEntriesOthers | gui_app.py:579-581 | a category the form does not name keeps its value |
| Gui.ApplySameValue | gui_app.py:581 | storing the value a category already holds changes nothing |
| Gui.UnchangedFormKeepsBudgets | gui_app.py:579-581 | pressing update on the form as first shown leaves whole-cent budgets unchanged |
| Gui.ApplyEntries | gui_app.py:579-587 | the budget update loop; `Gui.ApplyEntriesOk`, `Gui.ApplyEntriesPartial`, `Gui.ApplyEntriesLast` and `Gui.ApplyEntriesOthers` state it |
| Gui.NewExpense | gui_app.py:418-444 | the add form's checks; `Gui.NewExpenseSpec` states them |
| Gui.ExpenseTracker.constructor | gui_app.py:23-34 | a new window holds the default budgets and the records of the expense file |
| Gui.ExpenseTracker.LoadData | gui_app.py:384-409 | loading appends the file's records in order; a bad amount stops it and keeps the records before it; a missing file adds nothing; budgets are untouched |
| Gui.ExpenseTracker.SaveData | gui_app.py:896-924 | the saved text is one tab-separated line per expense, in list order |
| Gui.ExpenseTracker.SaveBudgets | gui_app.py:926-935 | the saved text is one `category:amount` line per budget, in order |
| Gui.ExpenseTracker.AddExpense | gui_app.py:411-460 | a refused form leaves the list unchanged and reports why; an accepted one appends exactly one record at the end and saves the list |
| Gui.ExpenseTracker.DeleteExpense | gui_app.py:462-495 | an amount cell float() rejects (or one that came back as an int) changes nothing; otherwise the first record equal to the row is removed, none when nothing matches or a date, category or description cell came back as an int, and the list is saved either way |
| Gui.ExpenseTracker.RemoveRecord | gui_app.py:478-484 | the search loop deletes the first record equal to the row read back, and nothing when there is none or a text cell came back as an int |
| Gui.ExpenseTracker.FilterExpenses | gui_app.py:497-516 | the quick search's rows are the matching expenses, in list order |
| Gui.ExpenseTracker.AdvancedSearch | gui_app.py:523-574 | the advanced search's rows are the expenses in range, in list order |
| Gui.ExpenseTracker.UpdateBudgets | gui_app.py:576-587 | accepted amounts are stored in turn; a rejected one stops the loop, keeps earlier changes and saves nothing; on success the budgets are saved |
| Gui.ExpenseTracker.GenerateReport | gui_app.py:589-664 | the report is nothing-to-report for an empty list, otherwise the totals, the usage percentages, the lines, the recent list and the warnings of the current state |
| Cli.LoadExpensesSpec | project.py:28-48 | a file of well-formed records reads back as those records; a read fails exactly when a bad amount is met |
| Cli.LoadExpenses | project.py:28-48 | what read_expenses returns; `Cli.LoadExpensesSpec` states it |
| Cli.ReadExpenses | project.py:28-48 | read_expenses gives the records in file order, no records for a missing file, and an error for a bad amount |
| Cli.WriteExpenses | project.py:51-60 | write_expenses writes one line per expense, in list order |
| Cli.ReadBudget | project.py:63-81 | read_budget reads the file's dictionary; a missing file gives the default budget and writes it out |
| Cli.LoadBudget | project.py:63-81 | what read_budget returns; `Records.SaveLoadBudget` and `Cli.DefaultBudgetRoundTrip` state it |
| Cli.DecodeBudgetFile | project.py:67-72 | the budget lines are read in order until one fails |
| Cli.ReadBudgetLine | project.py:69-72 | a budget line is skipped when blank or without ':'; two parts give a stripped category and amount; otherwise it is an error |
| Cli.WriteBudget | project.py:84-93 | write_budget writes one `category:amount` line per entry, in order |
| Cli.DefaultBudgetWellFormed | project.py:75-79 | the default budget can be written and read back |
| Cli.DefaultBudgetRoundTrip | project.py:75-80 | the default budget written for a missing file reads back as the default budget |
| Cli.EntriesWellFormed | project.py:84-93 | distinct clean categories and whole-cent amounts make a budget that survives a save and a load |
| Cli.CategoryOfChoice | project.py:114-120 | a category is chosen exactly for the answers "1" to "4", and it is one of the four menu categories |
| Cli.NewExpenseSpec | project.py:100-141 | a new record holds the stripped answers (date, menu category, float() of the amount, and the description, or "No description" for a blank one); it has a valid date, a menu category, a positive amount and a non-empty description; each prompt asks again exactly when its check is the first to fail |
| Cli.NewExpense | project.py:100-141 | the checks of add_expense's prompts; `Cli.NewExpenseSpec` states them |
| Cli.AddExpense | project.py:143-148 | the new record is written after all the records read, or the read's error is returned |
| Cli.AddExpenseAppends | project.py:143-148 | reading back the new file gives the old records, unchanged and in order, then the new one |
| Cli.EditBudgetSpec | project.py:358-375 | editing succeeds exactly for a valid choice and a number that is not negative; it then changes only that category's value and keeps the others and the key order |
| Cli.EditBudget | project.py:358-375 | the edit of one budget; `Cli.EditBudgetSpec` states it |
| Cli.CategorizeExpenses | project.py:158-198 | nothing for an empty list; otherwise the groups, the total spent and the budget analysis |
| Cli.AnalyseBudget | project.py:194-198 | the analysis loop gives one row per budget entry, each with what was spent, the budget and the remainder |
| Cli.CategorizeSpec | project.py:166-181 | the groups have the categories of the totals; each holds exactly its category's expenses, and its total is what was spent there |
| Cli.ViewExpenses | project.py:201-223 | the list is sorted in place by date (stably, oldest first) and the total is the list's total |
| Cli.ListTotal | project.py:217-220 | the listing loop adds up every amount |
| Cli.SortInPlace | project.py:210 | the in-place sort leaves the array sorted by date, stably |
| Cli.SortStep | project.py:210 | sorting one more element inserts it into the sorted prefix |
| Cli.InsertInPlace | project.py:210 | one step of the in-place sort inserts the next element into the sorted prefix and leaves the rest alone |
| Cli.ShiftIntoPlace | project.py:210 | the element moves left past exactly the elements it strictly precedes, and the others keep their order |
| Cli.SwapStep | project.py:210 | one swap moves the element one place to the left |
| Cli.InsertAt | project.py:210 | where the shift stops is where insertion puts the element |
| Cli.SearchExpenses | project.py:226-258 | a blank keyword is refused; otherwise the hits and their total |
| Cli.MatchingExpenses | project.py:235-241 | the search loop keeps the expenses whose date, category or description holds the keyword, in list order |
| Cli.GenerateReport | project.py:388-443 | the console report is nothing-to-report for an empty list, otherwise its totals, usage percentages, lines and total warning |
| Cli.CliReportSpec | project.py:402-442 | the category totals add up to the total spent; each line holds its budget (0 when missing), budget minus spent and the percentage of that budget used; overall usage is the percentage of the budget total spent, 0 unless that total is positive; the warning is given exactly when spending exceeds the budget total |

## Left out

- The Tkinter window is left out: widgets, the Treeview, message boxes, clearing form fields, `update_display` and `clear_search`. The model keeps the state these read. What the Treeview hands back for a selected row is modelled only as far as the delete button depends on it: `Gui.CellsStayText` says which cells come back as text.
- The turtle charts (`show_budget_graph`, `show_expense_graph`, `show_pie_chart`, `draw_bar_chart`) are graphics and are left out.
- The console menu loop and the prompt loops are left out. This covers the loops inside `add_expense` and `edit_budgets`, including `int()` of the menu choice. `Cli.NewExpense`, `Cli.CategoryOfChoice` and `Cli.EditBudget` take the answers and say which prompt would ask again.
- Printed text is left out: the report's layout and emoji, `:<9.2f` column padding, and the "no expenses"/"not found" messages. Reports are structured values. An empty search result is an empty sequence.
- Real file I/O is left out.
  - A file is its text, and a missing file is `None`. A saving method returns the text it writes.
  - Write failures (`PermissionError`, the `False` return of `write_expenses`/`write_budget`) are not modelled.
  - The backup rename/remove in `save_data` is not modelled.
  - Creating an empty `expenses.txt` when it is missing is not modelled.
- The console views (`Cli.CategorizeExpenses`, `Cli.SearchExpenses`, `Cli.GenerateReport`) take the expense list and the budget that `read_expenses`/`read_budget` would return. They do not read the files themselves.
- Numbers.ParseNumber: Python's `float()` is modelled on decimal text only. Exponents, `inf`, `nan`, underscores and non-ASCII digits are treated as rejected.
- Numbers.FormatAmount: `str()` of an amount is exact only for whole-cent amounts below 1e16 in magnitude. Finer fractions are cut to cents. From 1e16 up, `str()` writes exponent form (`1e+16`), where the model writes all the digits and `.0`. This affects the text `save_data`, `write_expenses` and `write_budget` write, and the quick search's test on `str(amount)` (a search for "e+" matches such amounts in the source only). Amounts are exact reals, so float rounding is not modelled.
- Numbers.FormatFixed2: `:.2f` is exact for whole-cent amounts. Finer fractions are truncated, where Python rounds. This is why deleting a row whose amount is not whole cents can miss its record in the source.
- Queries.MatchesTerm: matching against `str(amount)` uses `Numbers.FormatAmount`, so it is exact only for whole-cent amounts below 1e16 in magnitude.
- Dates.ParseDate: `strptime`'s `%Y`, `%m` and `%d` also accept non-ASCII decimal digits (for example fullwidth "２０２４-01-05"). The model accepts ASCII digits only, so such dates are rejected here.
- Gui.ExpenseTracker.DeleteExpense: `Gui.IntText` follows `int()` on ASCII digits only. A cell of non-ASCII decimal digits, which `int()` also accepts, is treated as text, so the model deletes such a record where the source does not.
- Text.Lower: lowering covers only the letters A-Z. Python's Unicode case tables are not modelled.
- The window's default budgets are integers in the source (`1000`, not `1000.0`). They are reals here.
  - This matters only for the text `save_budgets` writes.
  - `save_budgets` is reached only after `update_budgets` has replaced every shown budget with a float, so the difference is never written.
- Gui.ApplyEntries: the budget form is given as its (category, text) pairs. The form's categories are the budget keys at the time the window was built.
- Cli.SortInPlace: Python's built-in sort (Timsort) is modelled as a stable insertion sort on the array. Only its result is specified, and that result is the same.

## Date order

One behaviour of the code as written is worth noting:
- `strptime` accepts months and days without a leading zero.
- Such dates then compare as strings against their chronological order, for example "2024-10-01" sorts before "2024-9-30" (`Dates.LooseDatesMisorder`). This affects the date bounds of the advanced search and the sorts by date.
- For zero-padded dates the string order is chronological (`Dates.CanonicalOrderIsChronological`).
