# Loan registry: a Dafny model

This project models the loan registry of a loan-document assistant. The
registry is the in-memory list of loan entries, one per uploaded document,
keyed by filename. The model covers the views built on it:

- `add_loan` turns a loosely typed extraction result into six display fields
  (borrower, lender, amount, interest, maturity and the filename) and upserts
  the entry by filename.
- `get_dataframe_data` builds the portfolio table and filters it with a
  case-insensitive search.
- `get_file_options` and `get_entry_by_filename` are the lookups the
  comparison dropdowns use.
- `truncate_text` and `get_truncated_data` cut every table cell except the
  filename to 30 characters.
- `compare_loans` compares two entries on amount, interest, maturity and
  lender.

Modules, one per concern:

- `Json` (json.dfy): the values `json.load` produces. It gives Python
  truthiness, `in` and `dict.get` on an object, `str()`/`repr()` as f-strings
  print them, and `==`. An object keeps its members in insertion order, as a
  Python dict does. A number carries its value and the text Python prints for
  it.
- `Text` (text.dfy): `str.strip()` with Python's whitespace set,
  `str.lower()`, `str.title()`, the substring test `q in s` and `sep.join`.
- `Seqs` (seqs.dfy): the positions of a sequence that a filter keeps, in
  order.
- `Data` (data.dfy): the entry record, the normaliser, the upsert, the table
  rows and the class `Registry`. `Registry` holds the module-level list as a
  field that `AddLoan` reassigns. Its invariant `Valid` says that filenames are
  unique and every stored JSON value is well formed. The constructor
  establishes it, `AddLoan` keeps it, and `CompareLoans` relies on it.
- `Tables` (tables.dfy) and `Comparison` (comparison.dfy).

The functions `Summarize`, `Upsert`, `DataframeRows` and `Changes` specify
what the source's loops and updates compute. The methods `BuildEntry`,
`Registry.AddLoan`, `Registry.GetDataframeData`, `GetTruncatedData` and
`CompareLoans` are proved against them, and lemmas state the properties.

## Model

| member | source | states |
|---|---|---|
| `Json.Find` | modules/data.py:39 | `dict.get` finds a value exactly when some member has the key, and the value found is that member's |
| `Json.PyEqReflexive` | modules/comparison.py:38 | every well-formed JSON value equals itself under Python's `==`, including nested lists and dicts |
| `Text.Strip` | modules/data.py:47 | `strip()` returns the input without a whitespace prefix and suffix, and starts and ends with a non-space; the result is empty exactly when the input is all whitespace |
| `Text.Lower` | modules/data.py:96 | `lower()` keeps the length, leaves no upper-case letter, keeps every character that is not an upper-case letter, and turns each upper-case letter into its lower-case form |
| `Text.LowerIdempotent` | modules/data.py:96 | lower-casing an already lower-cased text changes nothing |
| `Text.ContainsIff` | modules/data.py:106 | the substring test holds exactly when the query occurs at some position of the text |
| `Text.Title` | modules/comparison.py:39 | `title()` keeps the length; the first character and every character after a non-letter is upper-cased, every character after a letter is lower-cased, so non-letters are kept |
| `Text.Join` | modules/comparison.py:42 | joining no lines gives the empty string, and joining one line gives that line |
| `Text.JoinSnoc` | modules/comparison.py:42 | joining two or more lines joins all but the last, then adds the separator and the last line |
| `Text.JoinLength` | modules/comparison.py:42 | a join is as long as its parts together plus one separator between each two parts |
| `Data.FirstTruthy` | modules/data.py:36-40 | `get_field` returns the value of the first key, in list order, whose value is truthy, and the default when no key's value is truthy |
| `Data.GetField` | modules/data.py:36-40 | the loop over the keys returns exactly what `FirstTruthy` specifies |
| `Data.LenderPreference` | modules/data.py:43 | the lender is `lenders` when truthy, else `administrative_agent` when truthy, else `"Unknown"` |
| `Data.AmountText` | modules/data.py:45-47 | the amount is `"N/A"` when the amount value is falsy; otherwise it is `"<amount> <currency>"` with the outer whitespace stripped |
| `Data.MarginText` | modules/data.py:53-59 | the margin is non-empty exactly when margin is a dict with a truthy `min`; it is `"min-max%"` when `max` is also truthy and `"min%"` when not; a non-empty margin starts with `min` and ends with `%` |
| `Data.InterestText` | modules/data.py:61 | the interest is never empty and has no outer whitespace; it is `"N/A"` when the type-benchmark-margin join is all whitespace, and that join stripped otherwise |
| `Data.Summarize` | modules/data.py:30-74 | the summary succeeds exactly when the dict it reads (`core_loan_terms` if present) is a dict; the entry keeps filename, filepath and the original result as `full_json` |
| `Data.BuildEntry` | modules/data.py:30-63 | the normaliser, built step by step with `get_field`, returns exactly the summary `Summarize` specifies, or the AttributeError |
| `Data.NestedTermsSummariseAsFlat` | modules/data.py:31-33 | a result nesting its terms under `core_loan_terms` summarises as those terms alone would; only `full_json` keeps the outer result |
| `Data.OnlyCoreTermsMatter` | modules/data.py:31-33 | two results with the same `core_loan_terms` value give the same summary fields, whatever else they hold at top level |
| `Data.SummarizeWellFormed` | modules/data.py:65-74 | an entry built from well-formed JSON holds only well-formed JSON |
| `Data.FirstIndex` | modules/data.py:77 | the index search returns the first entry with the filename, and `None` exactly when no entry has it |
| `Data.Upsert` | modules/data.py:77-81 | when the filename is present, the first entry with it is overwritten and nothing else changes; when it is absent, the entry is appended |
| `Data.UpsertKeepsFilenamesUnique` | modules/data.py:77-81 | if filenames are unique before the upsert, they stay unique |
| `Data.UpsertThenFind` | modules/data.py:77-81 | after the upsert, looking up the entry's filename finds that entry |
| `Data.UpsertKeepsConsistent` | modules/data.py:77-81 | upserting a well-formed entry into a registry with unique filenames and well-formed entries keeps both properties |
| `Data.UpsertKeepsOtherLookups` | modules/data.py:77-81 | after the upsert, every other filename finds the same entry at the same index as before |
| `Data.DataframeRows` | modules/data.py:92-119 | there are no more rows than entries, and each row has 8 cells ending with the two action labels |
| `Data.DataframeRowsSelect` | modules/data.py:93-109 | rows correspond one to one, in registry order, to the entries the query keeps: all entries without a query, otherwise exactly those whose lower-cased visible field contains the lower-cased query |
| `Data.DataframeRowsAll` | modules/data.py:95 | with no query or an empty one, there is one row per entry, in registry order |
| `Data.Registry.constructor` | modules/data.py:24 | the registry starts empty, and so satisfies its invariant |
| `Data.Registry.GetEntryByFilename` | modules/data.py:125-126 | the lookup returns the first entry with the filename, or `None` exactly when there is none; in a valid registry the entry found holds well-formed JSON |
| `Data.Registry.GetFileOptions` | modules/data.py:121-123 | the options are every entry's filename, one per entry, in registry order; a name is listed exactly when the lookup finds it |
| `Data.Registry.AddLoan` | modules/data.py:26-84 | `add_loan` returns the summary, upserts it and leaves the list unchanged on error; afterwards the filename finds the new entry and every other filename finds what it found before; the registry invariant (unique filenames, well-formed entries) is kept |
| `Data.Registry.GetDataframeData` | modules/data.py:86-119 | the loop returns exactly the rows `DataframeRows` specifies |
| `Tables.TruncateText` | modules/tables.py:5-7 | a text of at most `limit` characters is unchanged; a longer one ends with `"..."`; for `limit >= 0` the result has at most `limit + 3` characters and starts with the text's first `min(len, limit)` characters, and a text longer than `limit` becomes exactly its first `limit` characters followed by `"..."`; the default limit is 30 |
| `Tables.TruncateIdempotent` | modules/tables.py:7 | truncating twice with the same non-negative limit gives the result of truncating once |
| `Tables.GetTruncatedData` | modules/tables.py:9-22 | one row per row of `get_dataframe_data` for the same query, each of the same width, with column 0 unchanged and every other cell truncated to 30 |
| `Comparison.ChangesSelect` | modules/comparison.py:33-39 | there is one change line per key whose values differ, in key order, and no other |
| `Comparison.AtMostFourChanges` | modules/comparison.py:34 | a report has at most four change lines |
| `Comparison.SelfComparisonHasNoChanges` | modules/comparison.py:35-39 | comparing a well-formed entry with itself produces no change line |
| `Comparison.CollectChanges` | modules/comparison.py:33-39 | the loop over the four keys leaves exactly the change lines `Changes` describes, one per differing key in key order |
| `Comparison.EndsWithIdentical` | modules/comparison.py:43-44 | a report with no change lines ends with `"#### Key fields are identical."` |
| `Comparison.Tail` | modules/comparison.py:41-44 | the tail of the report is `"#### Key fields are identical."` exactly when there are no change lines |
| `Comparison.CompareLoans` | modules/comparison.py:5-46 | a missing selection gives the select message and no JSON; a missing entry gives the loading error and no JSON; otherwise the result is the header, the differences (or the identical note) and both entries' `full_json`; comparing a file with itself ends with the identical note, for every registry that satisfies its invariant |

## Left out

- Persistence: `load_database`, `save_database` and loading `LOAN_DATABASE` from disk are file I/O and JSON (de)serialisation. The registry starts empty and lives in memory only.
- Because entries are built only by `add_loan`, every entry has every key. The `"N/A"` default of `entry.get(k, "N/A")` in `compare_loans` is modelled (`Comparison.FieldValue`) but never applies to the four compared keys.
- `compare_loans` computes `json_str_a` and `json_str_b` and never uses them. The model leaves them out.
- modules/loans.py, modules/pdf_viewer.py and app.py are not part of this model. They cover PDF text extraction, the language-model and speech calls, the regex fallback, file copying, and Gradio wiring, including the dataframe row lookup. The `create_tab` builders are left out too.
- `Text.Lower`: lower-cases ASCII letters only. Python's `str.lower()` is Unicode-aware.
- `Text.Title`: title-cases ASCII letters only. This is exact for the four fixed keys it is applied to.
- `Json.PyRepr`: always quotes a string with single quotes and does not escape it. Python switches to double quotes for strings holding a single quote, and escapes control characters and backslashes.
- `Data.Registry.AddLoan` requires its JSON argument to be well formed (unique keys in every dict). A Python dict cannot hold a key twice, so this excludes only sequences of pairs that stand for no Python value; the registry invariant `Registry.Valid` depends on it.
- `Json.PyEq`: compares dicts through first-match lookup. This agrees with Python's `==` only when keys are unique and no number is NaN. Unique keys hold for every dict `json.load` returns, and the model has no NaN (see the next line). `Json.PyEqReflexive` therefore requires well-formed values.
- `Comparison.SelfComparisonHasNoChanges` and `Comparison.CompareLoans`: a number's value is a `real`, so the model cannot hold the `NaN`, `Infinity` and `-Infinity` values that Python's `json.loads` accepts. In Python `nan != nan`. So when a file's top-level lender or maturity is NaN, comparing the file with itself reports a change for that key and does not end with the identical note. The self-comparison results hold only for the values the model can represent.
- JSON numbers are given by their value and their Python `str()` text. The model does not derive one from the other, so float formatting is not modelled.
- `Tables.TruncateText`: the length bound and the idempotence hold for non-negative limits only. A negative limit slices from the end, as in Python, and the source only uses the default of 30.
- Python exceptions other than the AttributeError from a non-dict summary source are not modelled. None occurs in these functions for JSON input.
