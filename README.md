# pepeye statistics table model in Dafny

This project models the table model of pepeye, a viewer for Python profiler
statistics (`pstats`), together with two helpers from its utilities module.

- **`StatRow`** (`statrow.dfy`, module `StatRows`) is one profiled function.
  It holds its location (path, line, function name), its call counts and times,
  and the derived fields the source computes: the base file name, the per-call
  ratios and the lower-cased texts. The nine sort keys are modelled as sequences
  of key parts, compared the way Python compares tuples.
- **`StatsTableModel`** (`statstablemodel.dfy`, module `TableModel`) is a class.
  Its fields are the sort column, the sort order, the filter text, the loaded
  statistics object, the master list (`_orgRows`) and the visible list
  (`_statRows`). Its methods are `setStats`, `sort`, `filterRows` and
  `_sortAndFilter`. They update those fields and are proved against the function
  `Rebuild`, which states what `_sortAndFilter` leaves behind. `rowCount`,
  `columnCount`, `data`, `headerData` and `itemAtIndex` are functions of the
  state. `findIndexForItem` is a linear search, proved to find the first
  occurrence.
- **`check_class` and `environment_var_to_bool`** (`utils.dfy`, module
  `Utils`).
- **Supporting modules.** `pystr.dfy` models the Python string operations the
  core uses: `str.lower`, `str.strip`, `in` on strings, `os.path.basename`,
  `str(int)` and `int(str)`. `pyorder.dfy` models tuple comparison.
  `listsort.dfy` models `list.sort(key=..., reverse=...)` as a stable sort.
  `pybase.dfy` holds `Option`, the Python exceptions that can be raised, and
  `Outcome`.

Python exceptions are values: `Outcome<T>` is `Ok(value)` or
`Raise(exception)`. The model covers these exceptions:

- `TypeError` from `check_class`.
- `ZeroDivisionError` from a row with a zero call count.
- `IndexError` from a sort column or header section outside [-9, 9).

The per-call divisions are unguarded (`libpepeye/statstablemodel.py:33-34`),
so a zero count raises `ZeroDivisionError` and aborts `setStats` after the
statistics object is stored and before any list is replaced.

## Model

| member | source | states |
|---|---|---|
| StatRows.StatRow.constructor | libpepeye/statstablemodel.py:28-38 | the row holds the entry's key and value fields, timePerCall = time / numCalls and cumTimePerCall = cumTime / numPrimCalls; the base name and lower-cased texts are derived from the path and function name |
| StatRows.NewStatRow | libpepeye/statstablemodel.py:28-34 | construction succeeds exactly when both call counts are non-zero, giving a fresh row built from the entry; otherwise it raises ZeroDivisionError |
| StatRows.FileNameIsPathTail | libpepeye/statstablemodel.py:31-38 | the lower-cased file name is a suffix of the lower-cased path and holds no '/' |
| StatRows.KeyPathAndLine | libpepeye/statstablemodel.py:44-46 | defines the key (lower-cased path, line, lower-cased function name); PathAndLineOrder states its order and EqualKeysSameLocation what equal keys share |
| StatRows.KeyFileAndLine | libpepeye/statstablemodel.py:48-50 | defines the key (lower-cased base name, line, lower-cased function name); FileAndLineOrder states its order |
| StatRows.KeyFunctionName | libpepeye/statstablemodel.py:52-54 | defines the key (lower-cased function name, lower-cased path, line); FunctionNameOrder states its order |
| StatRows.KeyNumCalls | libpepeye/statstablemodel.py:56-58 | defines the key (numCalls, then the path-and-line tie-breaker); NumericOrder states its order |
| StatRows.KeyTime | libpepeye/statstablemodel.py:60-62 | defines the key (time, then the path-and-line tie-breaker); NumericOrder states its order |
| StatRows.KeyTimePerCall | libpepeye/statstablemodel.py:64-66 | defines the key (timePerCall, then the path-and-line tie-breaker); NumericOrder states its order |
| StatRows.KeyNumPrimCalls | libpepeye/statstablemodel.py:68-70 | defines the key (numPrimCalls, then the path-and-line tie-breaker); NumericOrder states its order |
| StatRows.KeyCumTime | libpepeye/statstablemodel.py:72-74 | defines the key (cumTime, then the path-and-line tie-breaker); NumericOrder states its order |
| StatRows.KeyCumTimePerCall | libpepeye/statstablemodel.py:76-78 | defines the key (cumTimePerCall, then the path-and-line tie-breaker); NumericOrder states its order |
| StatRows.KeyFor | libpepeye/statstablemodel.py:108-118 | SORT_KEY_METHODS[col] applied to a row; the order lemmas above and EqualKeysSameLocation state what each column's key orders by |
| StatRows.PathAndLineOrder | libpepeye/statstablemodel.py:44-46 | keyPathAndLine orders by lower-cased path, then line, then lower-cased function name |
| StatRows.FileAndLineOrder | libpepeye/statstablemodel.py:48-50 | keyFileAndLine orders by lower-cased base name, then line, then lower-cased function name |
| StatRows.FunctionNameOrder | libpepeye/statstablemodel.py:52-54 | keyFunctionName orders by lower-cased function name, then lower-cased path, then line |
| StatRows.NumericOrder | libpepeye/statstablemodel.py:56-78 | a numeric key orders by the column's value, and equal values by the path-and-line key |
| StatRows.EqualKeysSameLocation | libpepeye/statstablemodel.py:40-78 | rows with equal keys in any column share the lower-cased function name, the line and the lower-cased path (the lower-cased base name for the file column) |
| PyOrder.KeyLessStrictTotal | libpepeye/statstablemodel.py:40-78 | tuple comparison of sort keys is irreflexive, transitive and total on distinct keys |
| PyOrder.KeyLessTriple | libpepeye/statstablemodel.py:44-54 | a three-part key compares lexicographically, part by part |
| PyStr.Lower | libpepeye/statstablemodel.py:36-38 | lower() keeps the length, maps each character through the ASCII lower-case map and leaves no upper-case letter |
| PyStr.LowerSuffix | libpepeye/statstablemodel.py:36-37 | lower-casing a suffix gives the same suffix of the lower-cased string |
| PyStr.Basename | libpepeye/statstablemodel.py:31 | basename is the suffix of the path after its last '/' and contains no '/' |
| PyStr.ContainsIff | libpepeye/statstablemodel.py:301-302 | `t in s` holds exactly when t occurs in s at some position |
| PyStr.Trim | libpepeye/utils.py:35-42 | removes exactly the leading and trailing white space of one kind, and the result starts and ends with a character of another kind; str.strip() (Strip) trims str.isspace() white space, int() only C's isspace() white space |
| PyStr.StripIdempotent | libpepeye/utils.py:42 | stripping twice is stripping once |
| PyStr.ParseInt | libpepeye/utils.py:35 | defines int() on a string: C white space around an optional sign and digits joined by single underscores, None for ValueError; IntToStrRoundTrip and ParseIntChars state its properties |
| PyStr.IntToStrRoundTrip | libpepeye/utils.py:35 | int(str(n)) == n |
| PyStr.ParseIntChars | libpepeye/utils.py:34-37 | int() rejects a string holding a character other than C white space, a digit, an underscore or a sign, so also one holding an information separator (0x1C to 0x1F) |
| ListSort.SortBy | libpepeye/statstablemodel.py:310 | defines the list after sort(key, reverse) as an insertion sort; it is a permutation of the input, and SortByOrdered, SortByStable and SortByIdempotent state the rest |
| ListSort.SortByOrdered | libpepeye/statstablemodel.py:310 | after sort(key, reverse) no element follows one whose key it must precede; keys ascend, or descend when reverse |
| ListSort.SortByStable | libpepeye/statstablemodel.py:310 | the sort is stable: the elements with any one key keep their original order, in either direction |
| ListSort.SortByIdempotent | libpepeye/statstablemodel.py:310 | sorting a sorted list with the same key and direction leaves it unchanged |
| Utils.EnvironmentVarToBool | libpepeye/utils.py:26-48 | defines the classification: an int by being non-zero, a string int() accepts by its value, any other string by its lower-cased, stripped form not being a substring of "false"; EnvStringFalse, EnvIntegerString, EnvWord and the example lemmas state its properties |
| Utils.CheckClass | libpepeye/utils.py:19-22 | returns exactly when the object is an instance of the class or is None with allow_none; raises TypeError otherwise |
| Utils.ContainsFalseIff | libpepeye/utils.py:43 | `t in "false"` holds exactly for the sixteen substrings of "false", the empty string included |
| Utils.EnvStringFalse | libpepeye/utils.py:41-46 | a string int() rejects is false exactly when its lower-cased, stripped form is a substring of "false" |
| Utils.EnvIntegerString | libpepeye/utils.py:34-40 | the text of an integer classifies as the integer does: true exactly when non-zero |
| Utils.EnvWord | libpepeye/utils.py:34-46 | a string holding a letter, which int() rejects, is true exactly when its lower-cased, stripped form is not a substring of "false" |
| Utils.EnvIntegerExamples | libpepeye/utils.py:34-40 | "0" and "00" are false, "7" and "-3" are true |
| Utils.EnvWordExamples | libpepeye/utils.py:41-46 | "FALSE", " false ", "", "f", "fal" and "als" are false; "no", "off" and "true" are true |
| Utils.EnvSeparatorZero | libpepeye/utils.py:34-46 | "\x1c0" is true: int() does not skip the information separator and raises, and str.strip() removes it, leaving "0", which is not a substring of "false" |
| TableModel.MatchingRows | libpepeye/statstablemodel.py:301-302 | defines the list comprehension that keeps the rows matching the text, in order; it holds no row more often than the master list, and MatchingRowsCount and MatchingRowsMatch state exactly which rows it keeps |
| TableModel.MatchingRowsCount | libpepeye/statstablemodel.py:299-302 | the filter keeps every occurrence of a row whose lower-cased path or function name contains the text, and drops every other row |
| TableModel.MatchingRowsMatch | libpepeye/statstablemodel.py:301-302 | every kept row contains the text in its lower-cased path or function name, and is a master row |
| TableModel.MatchingEmpty | libpepeye/statstablemodel.py:299-304 | the empty text keeps every row, so skipping the filter for it changes nothing but the list's identity |
| TableModel.VisibleRowsCount | libpepeye/statstablemodel.py:299-304 | the visible rows are the master rows matching the lower-cased filter text, or all of them for the empty text |
| TableModel.Rebuild | libpepeye/statstablemodel.py:291-311 | defines what _sortAndFilter leaves: the filtered list sorted by SORT_KEY_METHODS[col], which is also the master list when the filter is empty, or IndexError before the sort; the Rebuild lemmas below state its properties |
| TableModel.RebuildUnfilteredCount | libpepeye/statstablemodel.py:182-193 | with an empty filter the visible list has one row per master row, so after loading, rowCount is the number of entries |
| TableModel.RebuildEmpty | libpepeye/statstablemodel.py:176-187 | rebuilding from an empty master list leaves both lists empty and raises only for a column outside [-9, 9) |
| TableModel.RebuildOrdered | libpepeye/statstablemodel.py:308-310 | after a successful rebuild the visible rows are ordered by the sort key of the column the index selects (negative indices count from the end), descending for the descending order |
| TableModel.RebuildStable | libpepeye/statstablemodel.py:310 | for any column index in [-9, 9), rows with equal keys keep the order of the filtered master list |
| TableModel.RebuildIdempotent | libpepeye/statstablemodel.py:291-310 | rebuilding again with the same column, order and filter changes neither list |
| TableModel.NumericColumnOrder | libpepeye/statstablemodel.py:56-78 | after sorting on a numeric column (by a positive or negative index) its values ascend (descend when descending), and ties follow the path-and-line key in the same direction |
| TableModel.StatsTableModel.constructor | libpepeye/statstablemodel.py:126-139 | no statistics, both lists empty, column 0, ascending, empty filter |
| TableModel.StatsTableModel.SortAndFilter | libpepeye/statstablemodel.py:291-311 | the new master and visible lists and the outcome are those of Rebuild on the old master list; the master rows are kept and the invariant is restored |
| TableModel.StatsTableModel.BuildRows | libpepeye/statstablemodel.py:182 | one fresh row per entry, in order and without duplicates, built from that entry; ZeroDivisionError exactly when some entry has a zero count |
| TableModel.StatsTableModel.SetStats | libpepeye/statstablemodel.py:174-187 | a wrong type raises TypeError and changes nothing; None clears both lists; a statistics object is stored, then its rows are built and rebuilt, or a zero count raises ZeroDivisionError with the lists unchanged |
| TableModel.StatsTableModel.Clear | libpepeye/statstablemodel.py:176-187 | the None branch: no statistics, both lists empty, IndexError only for a bad column |
| TableModel.StatsTableModel.Load | libpepeye/statstablemodel.py:180-187 | the statistics branch: the object is stored; the lists become Rebuild of the fresh rows, or stay as they were on ZeroDivisionError |
| TableModel.StatsTableModel.RowCount | libpepeye/statstablemodel.py:190-193 | the row count is the number of master rows the filter keeps |
| TableModel.StatsTableModel.ColumnCount | libpepeye/statstablemodel.py:196-201 | nine columns, one per header label and per tool tip |
| TableModel.StatsTableModel.Data | libpepeye/statstablemodel.py:207-254 | a value exactly for a valid index inside the table and the alignment or display role; alignment by column, display text per column |
| TableModel.ColumnAlignment | libpepeye/statstablemodel.py:219-225 | columns 0 to 2 are left aligned, the others right aligned, all vertically centred |
| TableModel.StatsTableModel.HeaderData | libpepeye/statstablemodel.py:258-271 | a horizontal label with Python list indexing (IndexError outside [-9, 9)), a tool tip or "", the 1-based row number vertically, None otherwise |
| TableModel.RowNumberRoundTrip | libpepeye/statstablemodel.py:268-269 | the vertical header text parses back to the section plus one |
| TableModel.LocationTextRoundTrip | libpepeye/statstablemodel.py:231-235 | the "path:line" and "file:line" cells split at their last ':' into the path (or base name) and a text that parses to the line |
| TableModel.CountTextRoundTrip | libpepeye/statstablemodel.py:238-245 | the two count cells parse back to the counts |
| TableModel.DisplayValue | libpepeye/statstablemodel.py:227-249 | defines the display text of each column: "path:line", "file:line", the function name, the counts as str(), the times with three or seven decimals; LocationTextRoundTrip and CountTextRoundTrip state what the texts read back as |
| TableModel.StatsTableModel.Sort | libpepeye/statstablemodel.py:274-280 | records the column and order and changes no other parameter; the master rows are kept (same multiset); the lists and outcome are Rebuild of the master list with them |
| TableModel.StatsTableModel.FilterRows | libpepeye/statstablemodel.py:283-288 | records the filter text and changes no other parameter; the master rows are kept (same multiset); the lists and outcome are Rebuild of the master list with it |
| TableModel.StatsTableModel.ItemAtIndex | libpepeye/statstablemodel.py:315-326 | the visible row at the index's row exactly when the index is valid and in range, else None |
| TableModel.StatsTableModel.FindIndexForItem | libpepeye/statstablemodel.py:329-341 | index (first position, 0) exactly when the row is visible, and itemAtIndex of it gives the row back; an invalid index otherwise, in particular for None |

## Left out

- Qt itself is left out: model reset signals, `QModelIndex` (modelled as a datatype), roles and orientations (modelled as enumerations) and the parent arguments.
- Logging is left out.
- Loading `pstats` files is left out. A statistics object is modelled as its class chain plus the list of entries of its `stats` dictionary, in iteration order.
- The `callers` dictionary is carried in each row but never read, as in the source.
- Floating-point times are modelled as real numbers. The time cells, formatted with three or seven decimals, are modelled as the value plus its number of decimals; the rounded text is not modelled.
- TableModel.DisplayValue: the cell texts of the time columns are not produced, only their values and precisions (see above).
- PyStr.Lower: only ASCII letters are lower-cased. Python lower-cases all of Unicode.
- PyStr.IsSpace: recognises only the ASCII white space of str.strip and str.isspace. Other Unicode white space is not modelled.
- PyStr.IsIntSpace: recognises only the ASCII white space int() skips (tab, line feed, vertical tab, form feed, carriage return and space). int() also skips non-ASCII Unicode white space, which is not modelled.
- PyStr.ParseInt: int() on strings is modelled for base-10 ASCII digits. Non-ASCII digits are not modelled.
- PyStr.ParseInt: the limit on the length of integer strings (CPython 3.11 and later, 4300 digits by default, leading zeros included) is not modelled. Above it int() raises ValueError. So environment_var_to_bool classifies "0" repeated 5000 times as the word it is, true, while the model classifies it by its value, false. The limit is configurable and absent in earlier versions.
- PyStr.IntToStrRoundTrip: str() of an integer with more than 4300 digits raises ValueError under the same limit, so the round trip holds in CPython 3.11 and later only for integers below it. The call counts and line numbers it is used on are far smaller.
- Utils.EnvStringFalse: its premise is the model's int(), so a string of more than 4300 digits, which CPython 3.11 and later rejects, is not covered (see PyStr.ParseInt above).
- Utils.EnvironmentVarToBool: inputs other than an int (bool included) or a string are not modelled. Only ints and strings come from the environment.
- Utils.CheckClass: isinstance is modelled as membership of the class name in the object's class chain.
- `check_class(self._statRows, list)` at `libpepeye/statstablemodel.py:306` always passes on the lists this code builds, so it is left out.
- TableModel.StatsTableModel.FilterRows: the filter text is modelled as a string. Passing None is not modelled.
- ListSort.SortBy: the library's sorting algorithm is not modelled, only the list it produces.
- The model does not capture that `_statRows` is the same list object as `_orgRows` when the filter is empty. Lists are values, and both fields are set to the sorted list.
- TableModel.RebuildStable: stability is stated relative to the filtered master list, which is the order `sort()` starts from.
- The unused `_nRows` field and the `headerLabels` property are left out.
