# aggregate_data: query composition and execution for ATSPM aggregations

This project models `aggregate_data` of the ATSPM aggregation package
(`src/atspm/data_aggregator.py`) in Dafny and proves what the function does.
The function takes an aggregation name, a `to_sql` flag and keyword arguments.
It renders the aggregation's SQL template and builds one SQL string in steps:

- an optional `NATURAL JOIN has_data` completeness filter;
- a `CREATE TABLE <name> AS ...` statement, or a special create statement for `split_failures`;
- four extra statements for `timeline`.

It then either returns that string or sends it to the DuckDB connection in a
single `conn.query` call. For `full_ped` with `return_volumes`, it issues two
more statements to rebuild the table with pedestrian volumes.

Modules:

- `Wrappers` (`wrappers.dfy`): `Option`, `Result` and `Outcome`. In this model they replace Python's exceptions.
- `PythonValues` (`python_values.dfy`): the keyword-argument values, with Python truthiness and the `str()` an f-string uses. For ints this is decimal text, proved to read back to the same integer.
- `DataAggregator` (`data_aggregator.dfy`):
  - `Compose` is the pure composition of lines 19-45, built from `FilterStep`, `CreateStep` and `TimelineStep`, one per step of the source.
  - `Execute` is the pure specification of the execution half. It gives the call's result and the statements it issues.
  - `Connection` is a class whose only state is `log`, the statements passed to `conn.query`.
  - `AggregateData` is the method that runs on a `Connection`. It is proved equal to `Execute`.
- `AggregatorProperties` (`aggregator_properties.dfy`): lemmas about `Compose` and `Execute`.

External collaborators become parameters:

- The template renderer is a function-typed argument `Renderer = (string, Kwargs) -> Option<string>`. `None` stands for any error Jinja raises while loading or rendering the template (missing template, syntax error, undefined variable), modelled as `RenderFailure(name)`. Rendering is therefore deterministic and otherwise unconstrained.
- `RenderQuery` is the call `render_query(aggregation_name, **kwargs)` of line 19 itself. A keyword argument named `query_name` clashes with that function's positional parameter, so Python raises TypeError before Jinja runs. The model gives `DuplicateArgument("query_name")`.
- The store's answer to a statement is a function `fails(history, statement)` held by the `Connection`. It may depend on everything already issued, which stands in for the store's state. `conn.query` logs every statement it is given, the failing one included, and raises `StoreFailure(statement)` when `fails` says so.

Details of the code that the model keeps:

- the main statement is `CREATE TABLE` (line 33), so on an existing table it is the store that rejects it;
- `split_failures` is in the exempt list of line 22 and reads `remove_incomplete` itself at line 28;
- the `unmatched_events` statement of lines 38-40 selects every row with a null EndTime, with no age filter;
- the delete of line 42 also removes rows with `Duration < min_duration`;
- the whole composed text, all statements together, goes to one `conn.query` call (line 51);
- errors are re-raised unchanged (line 72);
- `return_volumes` is read at line 55, after the main query has been issued;
- `str()` of `min_duration` at line 42 runs before the `try`, so its ValueError for an int of more than 4300 digits is raised with nothing issued.

## Model

| member | source | states |
|---|---|---|
| `PythonValues.Truthy` | src/atspm/data_aggregator.py:22-28 | Python truthiness as the `and` of line 22, the `if` of line 28 (and of line 55) use it: false exactly for None, False, 0 and the empty string |
| `PythonValues.Format` | src/atspm/data_aggregator.py:42 | the f-string text of a value; it fails exactly for an int with more than 4300 decimal digits (CPython's ValueError), and an int's text goes through `IntToDecimal`, so it is signed decimal text that reads back to the same int |
| `PythonValues.DecimalLength` | src/atspm/data_aggregator.py:42 | a natural number has more than `k` digits exactly when it is at least `10^k` |
| `PythonValues.IntStrLimit` | src/atspm/data_aggregator.py:42 | formatting an int raises exactly when its magnitude is at least `10^4300` |
| `PythonValues.NatToDecimal` | src/atspm/data_aggregator.py:42 | the digits interpolated for a non-negative value are a non-empty run of decimal digits with no leading zero |
| `PythonValues.NatDecimalRoundTrip` | src/atspm/data_aggregator.py:42 | reading the decimal text of a natural number gives that number back |
| `PythonValues.IntDecimalRoundTrip` | src/atspm/data_aggregator.py:42 | the text `str()` gives an int is well formed and reads back to the same int, sign included |
| `PythonValues.IntToDecimalInjective` | src/atspm/data_aggregator.py:42 | two different ints never format to the same text |
| `DataAggregator.Lookup` | src/atspm/data_aggregator.py:22 | `kwargs[key]` yields the stored value exactly when the key is present, and a KeyError for that key otherwise |
| `DataAggregator.RequiredKeys` | src/atspm/data_aggregator.py:22-42 | the keys composition reads: `remove_incomplete` exactly for names other than has_data, unmatched_events and timeline (line 22 for the filter, line 28 for split_failures), `min_duration` exactly for timeline (line 42), nothing else |
| `DataAggregator.RenderQuery` | src/atspm/data_aggregator.py:5-19 | the call of line 19 fails exactly when a `query_name` keyword clashes with the positional parameter (TypeError) or Jinja raises, with that error; otherwise it yields the rendered text |
| `DataAggregator.Interpolate` | src/atspm/data_aggregator.py:42 | interpolating a value fails exactly when `str()` raises, with the ValueError for that key, and otherwise yields the formatted text |
| `DataAggregator.FilterStep` | src/atspm/data_aggregator.py:21-24 | the completeness step raises exactly when the name is outside the exempt list and `remove_incomplete` is absent, and then raises the KeyError for that key |
| `DataAggregator.CreateStep` | src/atspm/data_aggregator.py:26-33 | the create step raises only for split_failures without `remove_incomplete`; otherwise its text starts with `CREATE TABLE <name> AS`, or for split_failures with the text it was given |
| `DataAggregator.TimelineStep` | src/atspm/data_aggregator.py:35-45 | the timeline step raises exactly when the name is timeline and `min_duration` is absent (KeyError) or unformattable (ValueError); it only appends, and for any other name it adds nothing |
| `DataAggregator.Compose` | src/atspm/data_aggregator.py:19-45 | composition fails exactly when the call of `render_query` fails (Jinja error or a `query_name` clash), a key it reads (`remove_incomplete` outside has_data/unmatched_events/timeline, `min_duration` for timeline) is absent, or the timeline threshold cannot be formatted, with the matching error; a successful text starts with `CREATE TABLE <name> AS`, or for split_failures with the rendered text itself |
| `DataAggregator.Execute` | src/atspm/data_aggregator.py:47-72 | `to_sql` issues nothing; a composition error is raised with nothing issued; the first issued statement is the composed text; only full_ped issues more, namely the read and replace of full_ped in that order; a text is returned exactly on the `to_sql` path; a store error names the last statement issued |
| `DataAggregator.Connection.Query` | src/atspm/data_aggregator.py:51 | one `conn.query` call appends its statement to the log and raises the store's error when the store rejects it |
| `DataAggregator.AggregateData` | src/atspm/data_aggregator.py:18-72 | the method returns what `Execute` gives and appends exactly the statements `Execute` says are issued, in that order, to the connection's log |
| `AggregatorProperties.CompletenessFilter` | src/atspm/data_aggregator.py:22-24 | outside the exempt names the result is `CREATE TABLE <name> AS SELECT * FROM (<rendered>) main_query NATURAL JOIN has_data ; ` when `remove_incomplete` is truthy and `CREATE TABLE <name> AS <rendered>; ` when it is not, with nothing after it |
| `AggregatorProperties.ComposeReadsOnlyRequiredKeys` | src/atspm/data_aggregator.py:22-45 | two keyword maps that render alike and agree on the keys composition reads give the same text or the same error |
| `AggregatorProperties.ExemptNamesIgnoreRemoveIncomplete` | src/atspm/data_aggregator.py:22 | for has_data, unmatched_events and timeline, adding, removing or changing `remove_incomplete` never changes the result, so its absence cannot raise |
| `AggregatorProperties.ExemptNamesNeverWrapped` | src/atspm/data_aggregator.py:22-33 | has_data and unmatched_events need no key and give just `CREATE TABLE <name> AS <rendered>; ` |
| `AggregatorProperties.SplitFailuresAppendsOneStatement` | src/atspm/data_aggregator.py:27-31 | split_failures keeps its rendered text and appends one `CREATE TABLE split_failures AS SELECT * FROM sf_final` statement, with `NATURAL JOIN has_data` exactly when `remove_incomplete` is truthy |
| `AggregatorProperties.SplitFailuresNeedsRemoveIncomplete` | src/atspm/data_aggregator.py:28 | split_failures without `remove_incomplete` raises the KeyError for that key |
| `AggregatorProperties.TimelineStatements` | src/atspm/data_aggregator.py:33-45 | timeline gives the unwrapped create statement followed by exactly four statements in order: create unmatched_events from null-EndTime rows, delete null-EndTime or shorter-than-`min_duration` rows, drop EventId, drop Parameter; when `min_duration` cannot be formatted it gives the ValueError instead |
| `AggregatorProperties.HugeThresholdRaises` | src/atspm/data_aggregator.py:42-51 | an int `min_duration` of magnitude at least `10^4300` makes timeline raise the ValueError, with nothing issued to the store and whatever `to_sql` says |
| `AggregatorProperties.TimelineDeterminesMinDuration` | src/atspm/data_aggregator.py:42 | two successful timeline compositions over the same rendered text are equal only if `min_duration` formats to the same text |
| `AggregatorProperties.TimelineDeterminesIntMinDuration` | src/atspm/data_aggregator.py:42 | for integer `min_duration` values, equal timeline texts mean equal thresholds |
| `AggregatorProperties.ToSqlTouchesNothing` | src/atspm/data_aggregator.py:48-49 | with `to_sql` the call issues nothing, returns the composed text or the composition error, and is the same whatever the store and its history |
| `AggregatorProperties.OneQueryPerAggregation` | src/atspm/data_aggregator.py:51-68 | for any name but full_ped, execution issues exactly the composed text once and returns None unless the store rejects it |
| `AggregatorProperties.ReturnVolumesReadAfterQuery` | src/atspm/data_aggregator.py:51-55 | for full_ped without `return_volumes`, the main query has already been issued when the KeyError is raised |
| `AggregatorProperties.FullPedVolumeStatements` | src/atspm/data_aggregator.py:51-68 | full_ped with a truthy `return_volumes` issues the main query, then `SELECT * FROM full_ped`, then the `CREATE OR REPLACE TABLE full_ped ... EXCLUDE (Estimated_Hourly)` statement, stopping at the first rejected one and taking nothing back; with a falsy one it issues only the main query; it returns None exactly when none is rejected |
| `AggregatorProperties.StoreErrorReraised` | src/atspm/data_aggregator.py:69-72 | a store error reaches the caller unchanged, naming the last issued statement, which the store rejected given everything issued before it |
| `AggregatorProperties.CompositionErrorsPrecedeStore` | src/atspm/data_aggregator.py:19-45 | a failing `render_query` call, a missing required key or an unformattable threshold is raised with nothing sent to the store |

## Left out

- Jinja2 environment setup and template lookup (lines 9-16): a foreign library over template files that are not part of this model. Only the renderer's result is kept, as a function argument.
- DuckDB semantics: which tables exist afterwards, what a natural join keeps, and whether `CREATE TABLE` on an existing table fails. The store is external. Only the log of issued statements and the store's accept-or-reject answer are modelled.
- The rows returned by `conn.query("SELECT * FROM full_ped").df()` and the pandas `groupby` / `undo_rolling_sum` step that computes `Estimated_Volumes` (lines 57-59): foreign dataframe code with a float-valued utility not in this model.
- `Execute`: assumes the pandas volume step between the read and the replace of full_ped raises nothing, because that code is foreign.
- The `print` diagnostics before the re-raise (lines 70-71): output only.
- Float keyword values (a fractional `min_duration`): Python's float-to-text algorithm is not modelled. Values are None, bool, int or str.
- `Format`: the digit limit is CPython's default of 4300. A limit changed with `sys.set_int_max_str_digits`, and Pythons older than 3.11 that have no limit, are not modelled.
- `RenderQuery`: Jinja's errors are not told apart. Every one is `RenderFailure(name)`.
- Concurrency and connection sharing: the source is single-threaded, and one call owns its connection.
