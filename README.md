# Shark-attack incident cleaning, modelled in Dafny

This project models the cleaning step of a small analysis script over a spreadsheet of
shark-attack incidents (`helper_function.py`). It covers two parts:

- `categorize_time` turns a Time cell such as `"07h30"` into a part of the day: `Night`,
  `Morning`, `Afternoon` or `Evening`. It parses the text with `strptime(..., "%Hh%M")`
  and runs an if/elif chain on the hour. Any parse error gives `Night`.
- `clean_data` is a straight pipeline over the table of incident rows:
  1. drop all-empty rows and exact duplicates (keeping the first);
  2. remap Sex through a fixed table;
  3. drop rows without a Year;
  4. remap Type through a fixed table;
  5. keep rows whose Time text matches `^\d{1,2}h\d{2}$`;
  6. replace Time by its part of the day;
  7. keep the first 1000 rows.

Files:

- `options.dfy` (module `Options`): the `Option` type, used for NaN cells and failed parses.
- `sequences.dfy` (module `Sequences`): the table operations. These are boolean-mask
  selection (`Filter`), column maps (`Map`) and `drop_duplicates(keep='first')`
  (`DropDuplicates`), with their order and membership properties.
- `time_of_day.dfy` (module `TimeOfDay`): the `strptime("%Hh%M")` parse, the hour chain,
  `CategorizeTime` and the Time filter's regular expression.
- `incidents.dfy` (module `Incidents`): the row type and the Sex and Type tables.
- `cleaning.dfy` (module `Cleaning`): one function per stage and their composition
  `Clean`. `CleanData` is the method that rebinds the table stage by stage, as the source
  does. The lemmas state what the whole pipeline guarantees.

Some details follow the Python library behaviour the code relies on:

- The parse follows CPython's `strptime`. The hour is `2[0-3]|[0-1]\d|\d` and the minute is
  `[0-5]\d|\d`. The pattern ignores case, so `H` also works as the separator. Any text
  left after the minute is a `ValueError`. So `categorize_time` alone accepts
  `"7h5"` and `"07H30"`, but the pipeline's filter only lets through a lower-case `h`
  followed by two minute digits.
- The filter uses `re.match` with a `$` anchor. In Python, `$` also matches just before a
  final newline, so `"12h30\n"` is kept by the filter. `strptime` then fails on the
  leftover newline, and the row is labelled `Night` (`CategorizeNewlineTime`).
- `astype(str)` turns a missing Time into the text `"nan"`, which the filter drops.
- Hour 5 is in none of the explicit ranges. It reaches the final `else`, which also
  returns `Night`. So the classification equals "Night outside 6–20", and the gap is
  reproduced, not corrected.
- The row stages (helper_function.py:31-79), applied to their own output, select no row
  (`CleanTwiceIsEmpty`): the labels in the Time column never match the time pattern.
  `clean_data` itself cannot be called on its own output, because the column drop at
  line 29 raises KeyError (see "Left out").
- Most stages are idempotent on their own. Every row selection is
  (`FilterIdempotent`, `DropEmptyRowsIdempotent`), and so are duplicate removal
  (`DropDuplicatesIdempotent`), the Sex map (`NormalizeSexIdempotent`) and the
  1000-row prefix. The Type map is not: `"Others"` is not a key of its table, so a second
  map turns it into NaN (`NormalizeTypeTwice`). The part-of-day rewrite is not either.

## Model

| member | source | states |
|---|---|---|
| `TimeOfDay.MatchesTimeFilter` | helper_function.py:72 | `re.match(r'^\d{1,2}h\d{2}$')`: every string of the `\d{1,2}h\d{2}` shape passes, and so does one with a single trailing newline; whatever passes is 4 to 6 characters long and starts with a digit |
| `TimeOfDay.TimeFilterExamples` | helper_function.py:72 | "7h30", "07h30", "99h99" and "12h30\n" pass the filter; "123h00", "7h3", "07H30", "07:30", "nan" and "07h30 " do not |
| `TimeOfDay.ParseClock` | helper_function.py:154-157 | `strptime(s, "%Hh%M")`: a successful parse has an hour of at most 23 and a minute of at most 59; None stands for the ValueError |
| `TimeOfDay.ParseFormatClock` | helper_function.py:154-160 | every valid hour and minute, written zero-padded as `HHhMM`, parses back to the same hour and minute |
| `TimeOfDay.ParseShapedTime` | helper_function.py:157 | a string the filter's `\d{1,2}h\d{2}` accepts parses exactly when its hour digits are at most 23 and its minute digits at most 59, and then to those values |
| `TimeOfDay.HourLabel` | helper_function.py:162-174 | the if/elif chain: Morning iff 6 ≤ hour < 12, Afternoon iff 12 ≤ hour < 18, Evening iff 18 ≤ hour < 21, Night iff the hour is outside 6–20 (0–4, the uncovered 5, and 21–23) |
| `TimeOfDay.CategorizeTime` | helper_function.py:144-176 | total: every string gets one of the four labels, never an error; a string that fails to parse gets Night |
| `TimeOfDay.CategorizeFormattedTime` | helper_function.py:157-174 | for a valid time, the label is the hour's: Morning iff hour 6–11, Afternoon iff 12–17, Evening iff 18–20, Night iff 0–5 or 21–23 |
| `TimeOfDay.CategorizeShapedTime` | helper_function.py:152-176 | a pattern-shaped string is labelled by its hour when hour ≤ 23 and minute ≤ 59, and Night otherwise (the caught ValueError) |
| `TimeOfDay.CategorizeNewlineTime` | helper_function.py:72-75 | a pattern-shaped time with one trailing newline passes the filter but always gets Night |
| `TimeOfDay.LabelsFailTimeFilter` | helper_function.py:72-75 | none of the four labels passes the Time filter |
| `TimeOfDay.CategorizeExamples` | helper_function.py:152-176 | "07h30" → Morning, "14h05" → Afternoon, "19h45" → Evening; "23h59", "05h15", "24h00", "7h99" and "07h30 " → Night; "7h5" and "07H30" → Morning |
| `Incidents.NormalizeSex` | helper_function.py:38-48 | F iff the cell is one of "F", "lli", "."; M iff it is one of "M", "N", " M", "M x 2", "M "; any other value, NaN included, is unchanged |
| `Incidents.NormalizeSexIdempotent` | helper_function.py:38-48 | remapping Sex a second time changes nothing |
| `Incidents.NormalizeType` | helper_function.py:58-66 | Unprovoked and Provoked map to themselves; Invalid, Watercraft, Sea Disaster and Questionable map to Others; everything else, NaN included, becomes NaN |
| `Incidents.NormalizeTypeTwice` | helper_function.py:58-66 | remapping Type a second time turns Others into NaN and leaves the rest |
| `Incidents.NormalizeExamples` | helper_function.py:38-66 | "Sea Disaster" → Others, "Boat" → NaN, "lli" → F, "M x 2" → M, an unlisted Sex is unchanged |
| `Sequences.Filter` | helper_function.py:72 | boolean-mask selection: a row is in the result iff it is in the input and the mask holds for it; the result keeps the input order |
| `Sequences.FilterMultiplicity` | helper_function.py:72 | each row the mask selects occurs in the result as often as in the input, and a row it rejects not at all |
| `Sequences.FilterSnoc` | helper_function.py:72 | selection one appended row at a time: the new row is kept exactly when the mask holds for it, and the rows before it are selected as before |
| `Sequences.FilterFilter` | helper_function.py:54-72 | two selections in a row select the same rows as one selection by the conjunction of the masks |
| `Sequences.FilterDropDuplicates` | helper_function.py:35-72 | selecting rows before or after keep-first duplicate removal gives the same rows in the same order |
| `Sequences.DropDuplicatesFrom` | helper_function.py:35 | duplicate removal: the result keeps the input order, has no row twice, and holds exactly the input rows |
| `Sequences.DropDuplicatesSnoc` | helper_function.py:35 | keep-first: a row is kept exactly when no earlier row equals it |
| `Sequences.DropDuplicatesIdempotent` | helper_function.py:35 | a second `drop_duplicates` removes nothing |
| `Sequences.PrefixIsSubseq` | helper_function.py:79 | `iloc[:k]` keeps rows of the input in their order |
| `Cleaning.HasSomeValue` | helper_function.py:32 | the `dropna(how='all')` mask holds exactly for the rows that are not the all-NaN row of their width |
| `Cleaning.TimeText` | helper_function.py:69 | `astype(str)` on Time: a present text is kept, and a missing cell becomes text that fails the Time filter ("nan") |
| `Cleaning.Clean` | helper_function.py:31-79 | the row stages composed in source order; the result has at most 1000 rows, each with a Time |
| `Cleaning.DropEmptyRowsIdempotent` | helper_function.py:32 | a second `dropna(how='all')` removes nothing |
| `Cleaning.SelectionsBeforeRewrites` | helper_function.py:48-72 | the Year selection reads no cell the Sex map rewrites; the Time-pattern selection gives the same answer before and after the Time-text map, which only turns a missing Time into "nan", which fails the pattern either way; so both select the same rows before or after the Sex, Type and Time-text maps |
| `Cleaning.RewritesAreNormalizeRow` | helper_function.py:48-75 | the Sex, Type, Time-text and part-of-day rewrites, one after the other, rewrite each row on its own |
| `Cleaning.DropMissingTimeRemovesNothing` | helper_function.py:75-76 | after categorisation every Time is one of the four labels, so `dropna(subset=['Time'])` removes nothing |
| `Cleaning.SurvivorsAreSelectedInputRows` | helper_function.py:31-72 | the rows that survive the selections are exactly keep-first duplicate removal applied to the input rows that are not all-empty, have a Year and have a Time matching the pattern; so they are input rows in input order, none twice |
| `Cleaning.CleanIsNormalizedSurvivors` | helper_function.py:31-79 | the output is the first min(1000, n) survivors, each with Sex and Type remapped and Time replaced by its part of the day; no row is reordered or invented |
| `Cleaning.CleanRowsAreLabelled` | helper_function.py:54-79 | at most 1000 output rows, each with a Year and with a Time that is one of Night, Morning, Afternoon, Evening |
| `Cleaning.CleanTwiceIsEmpty` | helper_function.py:31-79 | the row stages, applied to their own output, select no row |
| `Cleaning.CleanData` | helper_function.py:19-84 | the stage-by-stage pipeline computes `Clean`, returns at most 1000 rows, and every row has a Year and a part-of-day label |

## Left out

- `imp_shark` (helper_function.py:7-17) reads the spreadsheet from a URL or path. This is I/O. The model takes the table as a parameter.
- `check_str` (helper_function.py:86-95) treats its argument as a regular expression for `re.search`. Modelling it would need a regex engine.
- `visualize_top5_countries`, `visualize_attacks_last_24_years`, `visualize_attacks_by_sex` and `visualize_attacks_by_time` (helper_function.py:97-142) only count values and plot them.
- The Age numeric coercion and mean fill (helper_function.py:80-82) use floating point. The Age column is then dropped, so these steps do not change the output. The `iloc[:1000]` slice at line 79 is modelled (`FirstRows`).
- The column drops (helper_function.py:29, 51, 82) are not modelled. A row keeps its other cells in `others`. They are read only by the all-NaN row drop and by duplicate removal, and both run before the Species, Location and Date drop. So looking at the wider row is what the code does.
- `clean_data` called on its own output raises KeyError at the column drop on helper_function.py:29, because those columns are already gone. The model has no column drops, so it does not capture this error. `CleanTwiceIsEmpty` is about the row stages only.
- The `astype(int)` of Year (helper_function.py:55) can fail on a non-numeric value. The model's Year is already an integer, so that error path is not modelled.
- Time cells that are not text (numbers, `datetime.time` values) are represented by the text that `str()` gives for them.
- `TimeOfDay.ParseClock`: Python's `\d` also matches non-ASCII decimal digits. Both the parse and the filter accept ASCII digits only.
- Row index labels, dtypes and pandas' copy-versus-view warnings are not modelled. A table is a sequence of rows.
