# gino-admin metadata extraction in Dafny

gino-admin builds an administration panel for the models of a Gino
application. Before it can show a model, it summarises the model's table in
`gino_admin/core.py`:

- `extract_column_data` walks the columns of one table in order. It builds:
  - `columns_data`: one record per derived column name, with its type, `len`, flags, foreign keys and database type;
  - `hashed_indexes`: the positions of the `_hash` columns;
  - the `required_columns`, `unique_columns` and `primary_keys` lists;
  - the `foreign_keys` map;
  - the `identity` columns.
- `extract_models_metadata` registers every model in `cfg.models` under its
  `__tablename__` and annotates each with its table summary. It then deletes
  the models whose summary has an empty `identity`.
- `HashColumn` is the marker type that `_hash` columns get.

The project models these in five modules:

- `Wrappers` holds `Option`.
- `PyStr` models the parts of Python `str` the code uses: `sub in s`,
  `s.split(sep)[k]` and `int(s)`. `int(s)` strips the characters
  `str.isspace()` accepts, except U+001C..U+001F, which it rejects. It then
  takes an optional sign and digits with single `_` between them; a failure is `None`.
- `PyDict` models Python's insertion-ordered `dict`: a list of keys in
  first-insertion order plus a map. It provides `d[k] = v`, `del d[k]` and
  the fill performed by a dict comprehension or a loop of assignments.
- `ColumnMeta` models `extract_column_data`:
  - `ColumnSummary` is the specification, a function from the table's columns to a `TableDetails` record or the exception raised;
  - the method `ExtractColumnData` runs the column loop and the nested foreign-key loop as the source writes them;
  - the method is proved equal to `ColumnSummary`, and lemmas state what the summary means.
- `ModelRegistry` models `extract_models_metadata`:
  - the class `AdminConfig` holds the global `cfg` with its `models` dict and the tables of `cfg.app.db`;
  - its method `ExtractModelsMetadata` performs the two loops in place;
  - it is proved equal to the function `MetadataPass`;
  - lemmas about the pass over a registry (`Outcome`) say which models survive, with what, and what an exception leaves behind.

Exceptions are values of `ColumnMeta.Error`:

- `BadLength(text)` is the ValueError of `int()` on the length text.
- `BadColspec(colspec)` is the IndexError of a foreign-key colspec without a `.`.
- `MissingTable(name)` is the KeyError of a table the database does not have.

Three details of the code decide what the summary holds:

- A column counts as a `_hash` column when its name contains `_hash` anywhere, not only at the end. Such a column is keyed by the text before the first occurrence (`gino_admin/core.py:37-38`).
- The length text is `split("(")[1].split(")")[0]`. It therefore ends at the next `(` as well as at the next `)` (`gino_admin/core.py:47-48`).
- `foreign_keys` maps the text before the first `.` of each colspec to (column, text between the first and second `.`). For a three-part colspec `schema.table.col`, the key is the schema (`gino_admin/core.py:64-70`).

`NUMERIC(10, 2)` has the length text `10, 2`, which `int()` rejects. Any table with such a column makes both functions raise (`ColumnMeta.NumericWithScaleFails`).

## Model

| member | source | states |
|---|---|---|
| PyStr.SplitHead | gino_admin/core.py:38 | `s.split(sep)[0]` is a prefix of `s` with no occurrence of `sep` before its end, and it ends at `sep` or at the end of `s` |
| PyStr.SplitHeadAtFind | gino_admin/core.py:38 | `s.split(sep)[0]` is `s` up to the position `s.find(sep)`, or all of `s` when `sep` is absent |
| PyStr.SplitHasSecondPart | gino_admin/core.py:47 | `len(s.split(sep)) > 1` exactly when `sep in s`, and then element 1 is the text after the first `sep` up to the next one |
| PyStr.ParseInt | gino_admin/core.py:48 | defines `int()` on the length text: strip, optional sign, digits with single `_` between them, `None` for ValueError |
| PyStr.ParseIntRejectsLeadingJunk | gino_admin/core.py:48 | a leading character that is not whitespace, a sign or a digit makes `int()` raise |
| PyStr.SeparatorNotStripped | gino_admin/core.py:48 | `int("\x1c5")` raises: U+001C is not stripped although `str.isspace()` accepts it |
| PyStr.ParseIntRoundTrip | gino_admin/core.py:48 | `int(str(n)) == n` for every integer `n`, with no limit on the number of digits |
| PyStr.ParseIntIgnoresPadding | gino_admin/core.py:48 | `int()` gives the same result with a whitespace character added on either side |
| PyDict.Put | gino_admin/core.py:51 | `d[k] = v` keeps the dict well formed, adds `k` to the keys and keeps the existing key order as a prefix |
| PyDict.PutSpec | gino_admin/core.py:51 | after `d[k] = v`, `k` maps to `v`, other keys keep their values, an existing key keeps its place and a new key goes last |
| PyDict.Remove | gino_admin/core.py:106 | `del d[k]` removes exactly `k`, keeps every other value and keeps the other keys in their order |
| PyDict.RemoveAll | gino_admin/core.py:101-106 | deleting distinct present keys in turn leaves exactly the other keys, with their values and in their order |
| PyDict.FromPairsDomain | gino_admin/core.py:89 | after a fill, the keys are exactly the keys of the pairs |
| PyDict.FromPairsOrder | gino_admin/core.py:89 | after a fill, the keys are in the order of their first occurrence among the pairs |
| PyDict.FromPairsLastWinsAt | gino_admin/core.py:89 | the value of a key is that of the last pair with that key |
| PyDict.FromPairsValues | gino_admin/core.py:51 | every value a fill leaves was written by one of its pairs under that key |
| ColumnMeta.DerivedName | gino_admin/core.py:37-42 | defines the key of a column: the text before the first `_hash`, or the whole name |
| ColumnMeta.TypeOf | gino_admin/core.py:37-46 | defines the `type` of a column: `HashColumn`, the `types_map` entry, or `str` |
| ColumnMeta.LengthOf | gino_admin/core.py:47-50 | defines the `len` of a column, or the ValueError of `int()` |
| ColumnMeta.Select | gino_admin/core.py:60-63 | a list comprehension over `columns_data` keeps exactly the names whose entry passes the filter |
| ColumnMeta.FkEntry | gino_admin/core.py:67-70 | defines the `foreign_keys` assignment for one (column, colspec) pair, or the IndexError of a colspec without `.` |
| ColumnMeta.ColumnSummary | gino_admin/core.py:31-84 | defines the dict `extract_column_data` returns, or the exception it raises; the lemmas below state its properties |
| ColumnMeta.ExtractColumnData | gino_admin/core.py:31-84 | the method with both loops returns exactly `ColumnSummary`, the summary or the first exception |
| ColumnMeta.ScanColumns | gino_admin/core.py:36-59 | the column loop completes exactly when every column's entry does; it then returns the dict filled with the entries in column order and the hashed positions, and otherwise the first column's exception |
| ColumnMeta.ColumnEntryOf | gino_admin/core.py:37-59 | one iteration computes the column's key and record, or the ValueError of its length |
| ColumnMeta.CollectForeignKeys | gino_admin/core.py:64-70 | the nested loop completes exactly when every visited colspec has a `.`; it then returns the dict filled with the entries in visiting order, and otherwise the first failing colspec's error |
| ColumnMeta.AddForeignKeys | gino_admin/core.py:66-70 | the inner loop over one column's colspecs puts their entries in order, or stops with the first colspec that has no `.` |
| ColumnMeta.HashedIndexesExact | gino_admin/core.py:36-40 | `hashed_indexes` is strictly increasing and holds exactly the positions of the columns whose name contains `_hash` |
| ColumnMeta.DerivedNameSpec | gino_admin/core.py:37-42 | a column whose name contains `_hash` is keyed by the text before the first `_hash`; any other column by its name |
| ColumnMeta.TypeOfSpec | gino_admin/core.py:27-46 | a `_hash` column gets `HashColumn`; any other column gets the `types_map` entry for its type string up to the first `(`, or `str` when there is none |
| ColumnMeta.LengthText | gino_admin/core.py:47-50 | `len` is None without a `(`; otherwise it is `int()` of the text after the first `(` up to the next parenthesis, and a ValueError when `int()` rejects that text |
| ColumnMeta.LengthOfParts | gino_admin/core.py:47-48 | for `pre(text)post` with no `(` before and no parenthesis inside, the length is `int(text)` or its ValueError |
| ColumnMeta.NumericWithScaleFails | gino_admin/core.py:48 | `NUMERIC(10, 2)` raises ValueError on the text `10, 2` |
| ColumnMeta.VarcharLength | gino_admin/core.py:48 | `VARCHAR(64)` has length 64 |
| ColumnMeta.ColumnsNamesInOrder | gino_admin/core.py:51-59 | `columns_names` holds every derived name once, in the order of its first column, and equals the keys of `columns_data` |
| ColumnMeta.ColumnsDataLastWins | gino_admin/core.py:51-59 | every length parses, and the entry of a derived name is the record of the last column with that name: type, length, flags, foreign keys and type string |
| ColumnMeta.ColumnsDataFromColumns | gino_admin/core.py:51-59 | every entry of `columns_data` is the record some column with that derived name produced |
| ColumnMeta.ColumnListsSpec | gino_admin/core.py:60-72 | required, unique and primary lists are duplicate-free, keep the order of `columns_names`, and hold exactly the names with `nullable is False or primary`, `unique is True` and `primary` respectively |
| ColumnMeta.IdentityChoice | gino_admin/core.py:81 | `identity` is `primary_keys` when some column is primary, otherwise `unique_columns`; it is empty exactly when no column is primary or unique |
| ColumnMeta.ForeignKeysSpec | gino_admin/core.py:64-70 | the loop visits exactly the (column, colspec) pairs of `columns_data`; every colspec has a `.`; `foreign_keys` is keyed by exactly the table parts, and the last colspec naming a table gives its (column, second part) |
| ColumnMeta.SummaryFirstBadLength | gino_admin/core.py:47-48 | the extraction raises the ValueError of the first column whose length text `int()` rejects |
| ColumnMeta.SummaryColspecOutcome | gino_admin/core.py:64-70 | when all lengths parse, the extraction succeeds if every colspec has a `.`; it can only fail with the IndexError of a dot-less colspec of one of the columns |
| ColumnMeta.CollectFirstError | gino_admin/core.py:36-59 | a loop that raises stops with the exception of its first failing step |
| ColumnMeta.CollectAllOk | gino_admin/core.py:36-59 | a loop completes exactly when none of its steps raises |
| ModelRegistry.InitialModels | gino_admin/core.py:89 | the `cfg.models` comprehension gives a well-formed dict |
| ModelRegistry.Step | gino_admin/core.py:95-99 | one pass of the first loop's body keeps the keys of `cfg.models` and their order |
| ModelRegistry.Annotate | gino_admin/core.py:94-99 | the first loop over a prefix of the keys keeps the keys of `cfg.models` and their order |
| ModelRegistry.Outcome | gino_admin/core.py:94-106 | defines the two loops over a registry and one extraction result per key: the exception, or the registry without the marked models |
| ModelRegistry.MetadataPass | gino_admin/core.py:87-106 | defines `extract_models_metadata` as `Outcome` applied to the `cfg.models` comprehension and each model's `extract_column_data` |
| ModelRegistry.InitialModelsSpec | gino_admin/core.py:89 | `cfg.models` starts with exactly the table names, in the order of their first model, each under the last model with that name |
| ModelRegistry.AdminConfig.ExtractModelsMetadata | gino_admin/core.py:87-106 | the method stores `db` and leaves `cfg.models` and the exception exactly as `MetadataPass` gives them |
| ModelRegistry.AdminConfig.AnnotateModels | gino_admin/core.py:94-99 | the first loop leaves `cfg.models`, `models_to_remove` and the exception as `Annotate` over all keys gives them |
| ModelRegistry.AdminConfig.AnnotateOne | gino_admin/core.py:95-99 | one pass of the first loop's body is `Step`: record the exception, mark the model for removal, or update its entry |
| ModelRegistry.AdminConfig.DetailsOf | gino_admin/core.py:35-36 | `extract_column_data(model_id)` is the summary of the table `get_table_name` names, or its KeyError |
| ModelRegistry.AdminConfig.RemoveModels | gino_admin/core.py:101-106 | the second loop deletes the marked models in turn |
| ModelRegistry.StepFacts | gino_admin/core.py:95-99 | one pass of the first loop's body keeps every model, changes no other entry, marks the model exactly when its identity is empty, and otherwise stores its details |
| ModelRegistry.AnnotateFailure | gino_admin/core.py:94-95 | the first loop's exception is that of the first key whose extraction raises, and there is none when no extraction raises |
| ModelRegistry.AnnotateStops | gino_admin/core.py:94-95 | once the first loop has raised, later keys change nothing |
| ModelRegistry.RemovedSpec | gino_admin/core.py:96-97 | `models_to_remove` is duplicate-free and holds exactly the keys whose identity is empty |
| ModelRegistry.OutcomeFailure | gino_admin/core.py:94-106 | the pass raises exactly when some extraction raises, and then with the exception of the first such model |
| ModelRegistry.OutcomeFailureState | gino_admin/core.py:94-99 | after an exception, `cfg.models` keeps every table name with its model; the first model whose extraction raised and every model after it are untouched, and every model before it whose table has an identity already carries its table details |
| ModelRegistry.OutcomeSuccess | gino_admin/core.py:89-106 | when nothing raises, `cfg.models` keeps, in order, exactly the models whose identity is non-empty, each with its model and its extracted details |

## Left out

- `add_admin_panel`, `create_admin_app` and `init_admin_app` (`gino_admin/core.py:109-184`) are left out: they are blueprint registration, JWT setup, template setup and `app.run`. So is the `custom_hash_method` rename in `add_admin_panel`.
- The `admin` blueprint and its static routes (`gino_admin/core.py:19-24`) are left out.
- The `logger` calls are left out. They only write messages: the missing `types_map` entry, and the warning for each removed model.
- `types_map` and `get_table_name` live in `gino_admin/utils`, which is not part of this model. They are parameters: `typesMap`, a map from type name to type, and `tableName`, a function.
- ORM objects are plain values:
  - a column is the record `Column`;
  - `str(column.type)` is the string `typeStr`;
  - the foreign-key objects are their `_colspec` strings;
  - `db_type` stores the type string;
  - `cfg.app.db` is reduced to its `tables`, a map from table name to columns.
- `column.foreign_keys` is a set in the ORM. The model visits it as a sequence in a fixed order. The last-writer rule in `ColumnMeta.ForeignKeysSpec` refers to that order.
- `cfg.models[model_id].update(column_details)` merges the summary's keys into the model's entry dict. The model stores the summary as a whole in `ModelEntry.details`.
- PyStr.ParseInt accepts only ASCII decimal digits. Python's `int()` also accepts other Unicode decimal digits.
- PyStr.ParseInt has no limit on the number of digits. CPython 3.11 and later, and the security releases 3.7.14, 3.8.14, 3.9.14 and 3.10.7, raise ValueError for a decimal string of more than 4300 digits (`sys.get_int_max_str_digits()`), and `str(n)` raises for such `n`. The limit depends on the interpreter's version and settings, so `PyStr.ParseIntRoundTrip` is stated for the unlimited conversion.
- Python's `str.split` with an empty separator raises ValueError. The model requires a non-empty separator, because every separator in the source is a non-empty constant.
- `gino_admin/routes/crud.py` and `gino_admin/users.py` are not part of this model. They are request handlers and ORM declarations.
