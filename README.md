# Plaid to PostgreSQL ETL and PostgreSQL to S3 export, modelled in Dafny

This project models three programs of a small data pipeline and proves properties of the model:

- `extrqct_upsert_accunt.py`. A batch job. It reads its settings from the environment, obtains a
  Plaid access token (exchanging a public token if needed), fetches accounts and transactions
  (paging the transactions), and upserts them into PostgreSQL with
  `INSERT … ON CONFLICT … DO UPDATE SET … RETURNING (xmax = 0)`. It reports how many rows were
  inserted and how many updated. On failure it rolls back, and it always closes the connection.
- `plaid_to_PostgreSQL_ETL_Detailed_Logging.py`. The same job with a generic `upsert_table`.
  That function derives the column list, the rows and the SET clause from the dicts it is given.
  The file also normalises an S3 prefix and names one S3 object per table.
- `postgres_to_s3.py`. An export utility. It copies each listed table as CSV into a spool
  through a UTF-8 writer adapter, uploads it as `<prefix><table>.<YYYYMMDDTHHMMSSZ>.csv`, and
  keeps a results dictionary that records each table's row count and key, or its error. The
  exit code is 2 without a bucket and 3 without a database connection.

The external collaborators become values:

- The Plaid API's replies are given sequences.
- The database is a value of type `Postgres.Db`: durable tables, the open transaction's tables,
  and the aborted and closed flags.
- A table is a map from natural key to row.
- The INSERT statement is given the semantics its SQL text asks for.
- S3 is a map from (bucket, key) to the stored bytes.
- Clock readings, the environment, the command line and the CSV chunks that COPY delivers are
  parameters.

Modules, one file each:

- `wrappers.dfy`: `Wrappers`, with `Option`, `Result` and the exceptions.
- `values.dfy`: `PyValues`. Python values, `str`, `safe_str`, `to_dict` and `json.dumps`.
- `environment.dfy`: `Environment`, with `os.getenv` and `env_or_fail`.
- `utf8.dfy`: `Utf8`, the encoding of RFC 3629.
- `upsert.dfy`: `Upsert`. The statement semantics and psycopg2's `execute_values` paging.
- `postgres.dfy`: `Postgres`, a connection as a class over `Db`.
- `records.dfy`: `Records`. `serialize_location`, `dict()`, and the tuples and dicts built from
  records.
- `extract.dfy`: `Extract`, the pagination loop.
- `sync_etl.dfy`: `SyncEtl`, the first file's class and its `run()`.
- `detailed_etl.dfy`: `DetailedEtl`, the second file.
- `export_keys.dfy`: `ExportKeys`. `timestamp_now`, the prefix and the key.
- `export.dfy`: `Export`. The spool, the writer, `export_table_to_s3`, `pg_connect` and `main`.

The model follows the code, including where it does less than one might expect:

- A re-run reports every conflicting row as updated, changed or not, because `DO UPDATE`
  touches every conflicting row.
- The first file's counts cover only the last page of 100 rows. See Findings.
- The pagination loop does not advance. See Findings.
- The second file's S3 key has no timestamp: `prefix + table + ".csv"`.
- The export's docstring promises unique S3 keys (postgres_to_s3.py:15). A key is unique only
  per clock second: the model proves that distinct readings give distinct keys, not that two
  exports never collide.
- The export's docstring promises a streaming COPY (postgres_to_s3.py:12). COPY fills a spool,
  and the spool is uploaded after COPY has finished, not while it fills.
- A failed table poisons the following tables of the export loop, so failures are not
  independent. See Findings.
- The second file's `REQUIRED_ENV` lists `AWS_S3_PREFIX`, but `__init__` reads it with a default
  of `""`; only the first eight names are required. The first file's `REQUIRED_ENV` is never
  used, but it is exactly the order of `__init__`'s checks.

## Model

| member | source | states |
|---|---|---|
| Environment.EnvOrFail | extrqct_upsert_accunt.py:32-36 | succeeds exactly when the variable is set and non-empty, with its value; otherwise it fails with EnvironmentError naming the variable |
| Environment.RequireAllFirstMissing | extrqct_upsert_accunt.py:27-36 | `env_or_fail` over a list succeeds iff every name is set and non-empty, and then gives their values in order; otherwise it fails with the error of the first missing name, all names before it being set |
| PyValues.SafeStr | extrqct_upsert_accunt.py:38-40 | the result is None exactly when the value is None; otherwise it is a string |
| PyValues.SafeStrKeepsText | plaid_to_PostgreSQL_ETL_Detailed_Logging.py:38-44 | `safe_str` keeps a string, gives an enum object its value, renders an integer so that `int()` reads it back, and applying it twice equals applying it once |
| PyValues.ReprTextPrintable | plaid_to_PostgreSQL_ETL_Detailed_Logging.py:38-44 | inside `str()` of a container, `repr()` of printable ASCII text without a backslash, holding at most one kind of quote, only adds quotes, and uses `"` exactly when the text holds a `'` |
| PyValues.ReprApostrophe | plaid_to_PostgreSQL_ETL_Detailed_Logging.py:38-44 | `repr("McDonald's")` is the name in double quotes |
| PyValues.LookupFound | extrqct_upsert_accunt.py:185-192 | `d.get(k)` finds a value exactly when k is one of the dict's keys |
| PyValues.ToPlainSerializable | extrqct_upsert_accunt.py:47 | `json.dumps` accepts `to_dict()` of a value exactly when nothing in it is a date or datetime: models become dicts and enums their value strings |
| Utf8.DecodeEncodeChar | postgres_to_s3.py:171-172 | the UTF-8 bytes of one character decode back to that character, whatever bytes follow, and the decoder consumes exactly those bytes |
| Utf8.DecodeEncode | postgres_to_s3.py:171-172 | decoding inverts `str.encode("utf-8")` |
| Utf8.EncodeAppend | postgres_to_s3.py:171-172 | encoding a concatenation gives the concatenation of the encodings |
| Utf8.EncodeAscii | postgres_to_s3.py:171-172 | ASCII text encodes to one byte per character, each equal to the code point |
| Utf8.EncodeInjective | postgres_to_s3.py:171-172 | two texts have the same encoding iff they are equal |
| Upsert.FirstViolationNone | extrqct_upsert_accunt.py:197-213 | the statement has no row-level error exactly when no key is NULL, none was seen before, and no two rows share a key |
| Upsert.ExecuteSucceeds | extrqct_upsert_accunt.py:197-213 | one statement is accepted iff its SET list is non-empty, its columns are distinct, its conflict column is the table's key, its tuples fit the column list, and its keys are non-NULL and pairwise distinct; it then processes every row in order |
| Upsert.RunFrame | extrqct_upsert_accunt.py:197-213 | afterwards the table's keys are the old keys plus the batch keys, every row outside the batch is unchanged, and there is one flag per row |
| Upsert.RunFlags | extrqct_upsert_accunt.py:211 | with distinct batch keys, the i-th `(xmax = 0)` flag is true exactly when the i-th key was absent beforehand |
| Upsert.RunValues | extrqct_upsert_accunt.py:198-210 | with distinct batch keys, a new key holds its proposed row, and an existing key holds its stored row with the SET columns overwritten |
| Upsert.RunCountsInserts | extrqct_upsert_accunt.py:211-215 | the number of true flags is the number of distinct batch keys absent beforehand, with no assumption on the batch |
| Upsert.MergeTwice | extrqct_upsert_accunt.py:201-210 | applying the SET list twice equals applying it once, and a row merged with itself is unchanged |
| Upsert.RunTwice | extrqct_upsert_accunt.py:211-216 | re-applying the same batch of distinct keys leaves the table as the first pass left it and reports every row as updated |
| Upsert.RunAppend | extrqct_upsert_accunt.py:213 | processing a + b is processing a, then b from the table a left, and the flags are concatenated |
| Upsert.ExecuteValuesRuns | extrqct_upsert_accunt.py:213 | across its pages of 100, a successful `execute_values` amounts to processing all tuples in order: the final table and the concatenated page flags are those of one pass over the whole batch |
| Upsert.OnePage | extrqct_upsert_accunt.py:213 | a batch of at most 100 tuples is a single statement: it succeeds iff the statement does, with one page of flags |
| Upsert.ExecuteValuesEffect | extrqct_upsert_accunt.py:197-213 | with distinct batch keys, each batch key holds its proposed row when new, and the stored row with the SET columns overwritten otherwise; every key outside the batch keeps its row |
| Upsert.MergeColumn | extrqct_upsert_accunt.py:201-210 | after SET, a listed column that the tuple supplies holds the proposed value, and every other column keeps its stored value |
| Upsert.CountTrueBounds | extrqct_upsert_accunt.py:215-216 | `inserted` is at most the number of rows; it equals it when all flags are true, and is 0 when none is |
| Upsert.ExecuteValuesPages | extrqct_upsert_accunt.py:213 | `execute_values` returns one page of flags per statement sent; every page is non-empty and holds at most 100 flags; there are no pages exactly when the batch is empty |
| Upsert.RunAllPresent | extrqct_upsert_accunt.py:211 | when every batch key is already stored, no row reports an insert |
| Postgres.Connection.constructor | extrqct_upsert_accunt.py:92-98 | a new connection sees the server's tables, in a usable transaction, with an empty log |
| Postgres.Connection.CreateTableIfNotExists | extrqct_upsert_accunt.py:103-134 | the connection's new state is that of CREATE TABLE IF NOT EXISTS, and one event is logged |
| Postgres.Connection.ExecuteUpsert | extrqct_upsert_accunt.py:213 | the new state and the pages are those of `execute_values`; nothing is logged for an empty list |
| Postgres.Connection.Count | postgres_to_s3.py:195-196 | `SELECT COUNT(*)`: the new state and the count, or the refusal |
| Postgres.Connection.Copy | postgres_to_s3.py:178-179 | COPY: the new state and the refusal, if any |
| Postgres.Connection.CommitWork | extrqct_upsert_accunt.py:217 | commit, with its new state and log |
| Postgres.Connection.RollbackWork | extrqct_upsert_accunt.py:290 | rollback, with its new state and log |
| Postgres.Connection.CloseConnection | extrqct_upsert_accunt.py:294 | close, with its new state and log |
| Postgres.AbortedRefusesAll | extrqct_upsert_accunt.py:287-291 | once a statement has failed, every later statement is refused with InFailedTransaction and changes nothing; commit and rollback both end with exactly the durable tables |
| Postgres.UpsertThenCommit | extrqct_upsert_accunt.py:213-217 | a successful upsert leaves the durable tables alone; commit then makes durable the open transaction's tables with only the upserted table replaced by `execute_values`' result |
| Postgres.FailureLeavesNothing | extrqct_upsert_accunt.py:287-291 | a failed upsert aborts the transaction; after commit or rollback the durable tables are those of before |
| Postgres.CloseKeepsCommitted | extrqct_upsert_accunt.py:292-295 | close keeps the committed tables, drops the rest, and refuses every later statement |
| Records.SerializeLocationStrict | extrqct_upsert_accunt.py:42-50 | None gives `{}`; any success is a dict; it raises exactly when the value is neither None nor a Plaid model and `dict()` of it raises, with `dict()`'s error |
| Records.SerializeLocation | plaid_to_PostgreSQL_ETL_Detailed_Logging.py:46-55 | total: never raises, always gives a dict, and gives `{}` for None |
| Records.SerializeLocationsAgree | plaid_to_PostgreSQL_ETL_Detailed_Logging.py:46-55 | the two files' versions agree where the first succeeds; where the first raises, the second gives `{}`; a dict is returned unchanged |
| Records.ModelLocationDumps | extrqct_upsert_accunt.py:237 | a Plaid model as the location always converts, and `json.dumps` writes it exactly when it holds no date or datetime; its enum fields become their value strings |
| Records.InsertLookup | extrqct_upsert_accunt.py:50 | `d[k] = v` makes k hold v, keeps every other key's value, and keeps the key order, a new key going last |
| Records.InsertValues | extrqct_upsert_accunt.py:50 | after `d[k] = v`, k holds v and every other key keeps its value |
| Records.InsertKeys | extrqct_upsert_accunt.py:50 | after `d[k] = v`, the keys keep their order, with k added last only if it was new |
| Records.InsertDistinct | extrqct_upsert_accunt.py:50 | assignment keeps a dict's keys distinct |
| Records.PairsToDictKeys | extrqct_upsert_accunt.py:50 | `dict()` of a sequence of pairs has distinct keys, keeps every earlier key, and holds every pair's key |
| Records.CollectAll | extrqct_upsert_accunt.py:182-196 | the comprehension succeeds iff every record maps; then it has one element per record, in input order; otherwise it raises the error of the first failing record |
| Records.ColumnsDistinct | extrqct_upsert_accunt.py:198-199 | neither INSERT column list names a column twice |
| Records.AccountTupleShape | extrqct_upsert_accunt.py:182-196 | an account tuple has one value per listed column; its key column is the record's `account_id`, its name is `safe_str` of the name, and both timestamps are the batch's reading |
| Records.TransactionTupleShape | extrqct_upsert_accunt.py:225-241 | a transaction tuple has one value per listed column; its key column is `transaction_id`, then comes `account_id`, and its location is the JSON text of the serialised location |
| Records.DictColumns | plaid_to_PostgreSQL_ETL_Detailed_Logging.py:225-238 | the second file's account and transaction dicts have exactly the first file's column lists, in the same order |
| Records.AccountDictColumns | plaid_to_PostgreSQL_ETL_Detailed_Logging.py:225-230 | an account dict's keys are the account column list |
| Records.TransactionDictColumns | plaid_to_PostgreSQL_ETL_Detailed_Logging.py:232-238 | a transaction dict's keys are the transaction column list |
| Records.FirstFileConflicts | extrqct_upsert_accunt.py:201-210 | on conflict both statements keep the stored `created_at`, the transaction statement also keeps `account_id`, and every listed column the tuple supplies is overwritten |
| Records.AccountConflicts | extrqct_upsert_accunt.py:201-210 | on conflict the account statement keeps `created_at` and overwrites its listed columns |
| Records.TransactionConflicts | extrqct_upsert_accunt.py:248-258 | on conflict the transaction statement keeps `created_at` and `account_id` and overwrites its listed columns |
| Extract.Window | extrqct_upsert_accunt.py:150-159 | a date the caller gives is passed on unchanged, and only a missing or empty one is computed; a computed end is today and a computed start 90 days back, so the default window spans exactly 90 days; the token is kept |
| Extract.Paginate | extrqct_upsert_accunt.py:160-172 | the loop's result and its number of calls are those of `Pages`, its error is `Pages`' error, and every request it sends is the same first request |
| Extract.NoTotalOnePage | extrqct_upsert_accunt.py:162 | without `total_transactions`, the result is the first page, after one call |
| Extract.ContinueExtends | extrqct_upsert_accunt.py:165-172 | each round only appends: the records held are a prefix of the result, which holds at least `total` records |
| Extract.PagesCoverTotal | extrqct_upsert_accunt.py:160-172 | on exit the first page is an unchanged prefix of the result, which holds at least the announced total |
| Extract.ContinueRepeatsFirstPage | extrqct_upsert_accunt.py:165-171 | against a server that serves what is asked, every record the loop adds comes from the first page |
| Extract.PagesRepeatFirstPage | extrqct_upsert_accunt.py:165-171 | as written, every record gathered comes from the first `count` records |
| Extract.HundredFiftyTransactions | extrqct_upsert_accunt.py:165-172 | with 150 transactions and pages of 100, two calls gather the first 100 twice and never transaction 149 |
| Extract.PaginateByOffset | extrqct_upsert_accunt.py:165-172 | corrected loop with an offset: it gathers exactly the server's records, in order |
| SyncEtl.Exchange | extrqct_upsert_accunt.py:79-88 | without a public token it raises ValueError; it succeeds iff the API answers with an access token, and then returns that token and the item id |
| SyncEtl.ReportAsWritten | extrqct_upsert_accunt.py:214-216 | the counts are those of the last page; inserted + updated equals the number of rows returned |
| SyncEtl.FullReport | extrqct_upsert_accunt.py:214-216 | corrected counts over every page; inserted + updated equals the number of rows returned |
| SyncEtl.Etl.constructor | extrqct_upsert_accunt.py:54-76 | takes the settings, starts from the access token read from the environment, and has no connection |
| SyncEtl.Etl.ExchangePublicToken | extrqct_upsert_accunt.py:79-88 | the result is `Exchange`'s; on success the access token is replaced, and otherwise the old one stays |
| SyncEtl.Etl.ConnectPostgres | extrqct_upsert_accunt.py:91-99 | a reachable server gives a fresh connection on its tables; otherwise ConnectionFailed, and the connection field is unchanged |
| SyncEtl.Etl.CreateTables | extrqct_upsert_accunt.py:101-139 | both CREATE TABLE statements, stopping at the first error, then commit; the log only grows, by those events |
| SyncEtl.Etl.Load | extrqct_upsert_accunt.py:213-219 | on success, `execute_values` then commit, and the report of the last page; on error the database's error, with no commit |
| SyncEtl.Etl.LoadAccounts | extrqct_upsert_accunt.py:178-219 | an empty list touches nothing; a failing row raises before any statement; otherwise the account statement runs, with its report or error; the new state and result are `LoadOutcome`'s: a failed statement leaves the durable tables alone, a successful one is committed |
| SyncEtl.Etl.LoadTransactions | extrqct_upsert_accunt.py:221-267 | the same for transactions |
| SyncEtl.Etl.Steps | extrqct_upsert_accunt.py:279-285 | an unreachable server leaves no connection and gives ConnectionFailed; otherwise the result and the connection's state are `TryOutcome`'s, i.e. both reports or the first failing step's error; no account write follows a transaction write, and nothing is rolled back or closed inside the try block |
| SyncEtl.Etl.Run | extrqct_upsert_accunt.py:270-295 | no token at all raises before connecting; a failed exchange raises before connecting; a connection once made is always closed last; on failure rollback comes right before the close, and on success there is no rollback; accounts are written before transactions; past the token check the result is the try block's (`TryOutcome`), re-raised on failure, and the closed connection keeps exactly what the try block committed |
| SyncEtl.Etl.Attempt | extrqct_upsert_accunt.py:278-294 | an unreachable server gives ConnectionFailed and no connection; otherwise the result is the try block's (`TryOutcome`) and the closed connection keeps what it committed, after a rollback exactly when it failed; the log ends in Closed, preceded by RolledBack on failure |
| SyncEtl.Etl.Conclude | extrqct_upsert_accunt.py:286-294 | a failure rolls back and then closes, a success only closes; the log grows by exactly those events |
| SyncEtl.CountInserted | extrqct_upsert_accunt.py:215 | the loop's sum is the number of true flags, at most the number of rows |
| SyncEtl.LoadCommitsOnlyOnSuccess | extrqct_upsert_accunt.py:213-218 | a failing loader leaves the durable tables as they were; a successful non-empty one leaves nothing uncommitted, and an empty list changes nothing; a loader never closes the connection |
| SyncEtl.TryOutcomeCommitted | extrqct_upsert_accunt.py:279-295 | the try block never closes the connection; when it succeeds everything it changed is committed; after rollback-on-failure and close, the durable tables are those the try block committed |
| SyncEtl.StepsLog | extrqct_upsert_accunt.py:281-285 | table creation, then account writes, then transaction writes leave a log with accounts first and no rollback or close |
| SyncEtl.SettingsNeedRequiredEnv | extrqct_upsert_accunt.py:27-66 | `__init__` succeeds iff every name of REQUIRED_ENV is set and non-empty, fails with the first missing one otherwise, and its values are those names' values in order |
| SyncEtl.FullReportCounts | extrqct_upsert_accunt.py:211-216 | corrected counts: total equals the number of tuples, and inserted equals the number of distinct batch keys absent beforehand |
| SyncEtl.OnePageReportIsFull | extrqct_upsert_accunt.py:213-216 | up to 100 rows, the counts as written equal the corrected ones |
| SyncEtl.LastPageUnderReports | extrqct_upsert_accunt.py:213-216 | over 100 rows, as written the total is at most 100 while 'rows sent' is more; with all keys new and distinct, the inserted count falls short too |
| SyncEtl.RerunInsertsNothing | extrqct_upsert_accunt.py:211-216 | loading the same batch again reports zero inserts, both as written and corrected |
| DetailedEtl.SettingsNeedEightVariables | plaid_to_PostgreSQL_ETL_Detailed_Logging.py:59-72 | `__init__` needs exactly the first eight names of REQUIRED_ENV, in order, with the first missing one's error; an unset AWS_S3_PREFIX reads as `""` |
| DetailedEtl.NormalizeTrailingProperties | plaid_to_PostgreSQL_ETL_Detailed_Logging.py:72-74 | the normalised prefix is empty or ends in '/'; it is empty iff the original was; it extends the original by at most one '/'; normalising twice changes nothing |
| DetailedEtl.DetailedEtl.constructor | plaid_to_PostgreSQL_ETL_Detailed_Logging.py:59-83 | the prefix field is the normalised prefix |
| DetailedEtl.DetailedEtl.ExtractAccounts | plaid_to_PostgreSQL_ETL_Detailed_Logging.py:146-153 | without a token, ValueError; otherwise the reply's accounts, a missing list read as empty |
| DetailedEtl.DetailedEtl.ExtractTransactions | plaid_to_PostgreSQL_ETL_Detailed_Logging.py:155-170 | without a token, ValueError and no request; otherwise the pagination result, with every request the same default-window request |
| DetailedEtl.DetailedEtl.BuildRows | plaid_to_PostgreSQL_ETL_Detailed_Logging.py:180-183 | the append loop builds exactly one row per dict, in order |
| DetailedEtl.DetailedEtl.UpsertTable | plaid_to_PostgreSQL_ETL_Detailed_Logging.py:173-190 | an empty list sends no statement and changes nothing; otherwise the generic statement over the first dict's columns runs through `execute_values`, then commit |
| DetailedEtl.DetailedEtl.UpsertPlaceholders | plaid_to_PostgreSQL_ETL_Detailed_Logging.py:240-241 | the five placeholder calls change neither the database nor the log |
| DetailedEtl.DetailedEtl.ExportTableToS3 | plaid_to_PostgreSQL_ETL_Detailed_Logging.py:193-209 | the read, then the upload under `prefix + table + ".csv"`, with the read's or the upload's error |
| DetailedEtl.ExportKeysDistinct | plaid_to_PostgreSQL_ETL_Detailed_Logging.py:207 | under one prefix, keys are equal iff the tables are; the key is prefix + table followed by ".csv" |
| DetailedEtl.MissingFieldIsEmptyPage | plaid_to_PostgreSQL_ETL_Detailed_Logging.py:164 | here a missing "transactions" or "accounts" field is an empty page; in the first file a missing "transactions" is a KeyError |
| DetailedEtl.UpdateColumnsMembers | plaid_to_PostgreSQL_ETL_Detailed_Logging.py:184 | `update_cols` holds exactly the columns other than the conflict column |
| DetailedEtl.UpdateColumnsAppend | plaid_to_PostgreSQL_ETL_Detailed_Logging.py:184 | filtering keeps the column order: filtering a concatenation concatenates the filtered parts |
| DetailedEtl.UpdateColumnsLength | plaid_to_PostgreSQL_ETL_Detailed_Logging.py:184 | with distinct columns, `update_cols` is one shorter when the conflict column is listed, and as long otherwise; its names are distinct |
| DetailedEtl.SetClauseShape | plaid_to_PostgreSQL_ETL_Detailed_Logging.py:185 | the SET clause is empty exactly when there is nothing to update, the case PostgreSQL rejects; one column gives `col=EXCLUDED.col` |
| DetailedEtl.SetClauseAppend | plaid_to_PostgreSQL_ETL_Detailed_Logging.py:185 | the clause of two non-empty lists is their two clauses joined by ", " |
| DetailedEtl.UpsertQueryStatement | plaid_to_PostgreSQL_ETL_Detailed_Logging.py:184-186 | the statement text ends with `DO UPDATE SET` and the assignments of exactly the columns the modelled statement overwrites |
| DetailedEtl.RowCells | plaid_to_PostgreSQL_ETL_Detailed_Logging.py:182 | a timestamp column holds the dict's value, or `now` when the dict lacks it; any other column holds `safe_str` of the value, NULL exactly when the value is missing or None |
| DetailedEtl.FirstRowIsFirstDict | plaid_to_PostgreSQL_ETL_Detailed_Logging.py:179-182 | the first dict's row is its own values in order, timestamps as given and the rest through `safe_str` |
| DetailedEtl.RowsShaped | plaid_to_PostgreSQL_ETL_Detailed_Logging.py:179-183 | the rows fit the INSERT column list |
| DetailedEtl.GenericConflictOverwrites | plaid_to_PostgreSQL_ETL_Detailed_Logging.py:184-186 | on conflict every supplied non-key column is overwritten, `created_at` included, and the key column keeps its value |
| DetailedEtl.GenericUpsertEffect | plaid_to_PostgreSQL_ETL_Detailed_Logging.py:184-187 | after a generic upsert with distinct keys, every batch row's non-key columns hold the batch's values, and keys outside the batch keep their rows |
| ExportKeys.TimestampShape | postgres_to_s3.py:117-122 | the timestamp is 16 characters: eight digits, 'T', six digits, 'Z' |
| ExportKeys.ParseTimestampNow | postgres_to_s3.py:117-122 | the timestamp reads back as the reading it was made from |
| ExportKeys.TimestampInjective | postgres_to_s3.py:117-122 | distinct readings give distinct timestamps, and only they do |
| ExportKeys.TimestampOrder | postgres_to_s3.py:117-122 | string order of timestamps is chronological order (the "sortable" format) |
| ExportKeys.ParsedOrder | postgres_to_s3.py:117-122 | two well-formed timestamps compare as strings as the readings they spell compare in time |
| ExportKeys.RStripProperties | postgres_to_s3.py:162 | `rstrip(c)` leaves a prefix of the string with no trailing c, removing only c's |
| ExportKeys.NormalizePrefixProperties | postgres_to_s3.py:162 | the result is empty exactly when the prefix is None or `""`; otherwise it ends in exactly one '/'; normalising again changes nothing |
| ExportKeys.PrefixExamples | postgres_to_s3.py:162 | `daily`, `daily/` and `daily///` all give `daily/` |
| ExportKeys.DocumentedKey | postgres_to_s3.py:44-48 | the documented example: prefix `daily/`, table `accounts` and 2025-02-13 12:13:55 give `daily/accounts.20250213T121355Z.csv` |
| ExportKeys.DocumentedStamp | postgres_to_s3.py:117-122 | 2025-02-13 12:13:55 formats as `20250213T121355Z` |
| ExportKeys.DistinctStampsDistinctKeys | postgres_to_s3.py:163 | for one prefix and table, distinct readings give distinct keys |
| Export.Spool.Write | postgres_to_s3.py:173 | a write appends its bytes to the spool |
| Export.Writer.Write | postgres_to_s3.py:170-173 | text is appended as its UTF-8 bytes, bytes unchanged |
| Export.CopyInto | postgres_to_s3.py:178-179 | after COPY's writes, the spool holds the old contents followed by every chunk's bytes, in order |
| Export.SpoolAppend | postgres_to_s3.py:168-173 | two runs of writes leave the first run's bytes followed by the second's |
| Export.TextSpool | postgres_to_s3.py:170-173 | text-only writes leave the UTF-8 encoding of the whole text, which decodes back to it |
| Export.ObjectStore.UploadFileobj | postgres_to_s3.py:187-192 | a refused upload changes nothing; an accepted one stores the spool's bytes as `text/csv` under (bucket, key) and nothing else |
| Export.ExportTableToS3 | postgres_to_s3.py:156-199 | the connection's new state and the result are `ExportTable`'s; the store changes only by that upload; the log holds the COPY, plus the count when the upload happened |
| Export.ExportTableCases | postgres_to_s3.py:156-199 | the export succeeds iff it uploads, which needs a usable transaction, an existing table, a bucket and an accepted upload; success reports the row count under the composed key; a missing bucket is reported after COPY and before any upload |
| Export.ExportTableReads | postgres_to_s3.py:156-199 | the export never changes the tables; a database error aborts the transaction, while a missing bucket or a refused upload leaves it usable |
| Export.PgConnect | postgres_to_s3.py:85-104 | EnvironmentError unless host, database, user and password are set and non-empty; then ConnectionFailed for an unreachable server, or a fresh connection |
| Export.PgSettingsChecks | postgres_to_s3.py:72-96 | `pg_connect` refuses unless the four names are set and non-empty; the port is not validated, is taken when set, and defaults to `5432` only when unset |
| Export.BucketPrecedence | postgres_to_s3.py:224 | `--bucket` wins over S3_BUCKET; an empty option falls back to the variable |
| Export.ProcessTable | postgres_to_s3.py:244-267 | one try block: a dry-run count with no key, or `export_table_to_s3`, with a Failed entry on any error |
| Export.RunMain | postgres_to_s3.py:224-269 | no bucket: exit code 2, no connection, no upload; a bad configuration or unreachable server: code 3; otherwise code 0, the loop's outcomes, and a closed connection |
| Export.ProcessTables | postgres_to_s3.py:241-267 | the loop processes every table over the one connection, and the results dictionary is the outcomes assigned in list order |
| Export.ResultOfKeys | postgres_to_s3.py:238-267 | a table has an entry exactly when it is among the dictionary's keys |
| Export.AssignSpec | postgres_to_s3.py:252 | `results[t] = r` makes t hold r and keeps every other entry; a new t goes last, and an existing one keeps its place |
| Export.FirstOccurrencesSpec | postgres_to_s3.py:241 | the listed tables without repetitions are distinct, and are exactly the listed tables |
| Export.CollectKeys | postgres_to_s3.py:241-267 | the dictionary has one entry per distinct listed table, in order of first listing |
| Export.CollectLast | postgres_to_s3.py:241-267 | a listed table's entry is the outcome of its last listing; an unlisted table has none |
| Export.TableOutcomeKey | postgres_to_s3.py:245-263 | a dry run uploads nothing and its entry has no key; a real run's successful entry carries the composed key |
| Export.DryRunUploadsNothing | postgres_to_s3.py:245-252 | a dry run leaves the store as it was |
| Export.OutcomeKeys | postgres_to_s3.py:241-263 | every successful entry of the loop has no key in a dry run, and otherwise its table's composed key |
| Export.AbortedPoisonsRest | postgres_to_s3.py:241-267 | as written, once a statement has failed every later table fails with InFailedTransaction, uploads nothing, and leaves the connection as it is |
| Export.MissingTablePoisonsNext | postgres_to_s3.py:241-267 | as written, a missing first table makes an existing second one fail too, though exported alone it would not fail that way |
| Export.TableOutcomeReads | postgres_to_s3.py:244-263 | one table's try block never changes the committed tables, and leaves the connection as it was unless it failed |
| Export.RecoveringOutcomes | postgres_to_s3.py:241-267 | corrected loop, with a rollback after each failed table: one entry per table (RecoveringIndependent says which) |
| Export.RecoveringIndependent | postgres_to_s3.py:241-267 | corrected: every table's entry is what exporting that table alone gives |
| Export.RecoveryRestores | postgres_to_s3.py:244-267 | on a fresh connection, one table and the rollback a failure calls for leave the connection fresh |
| Export.RecoveringMissingTable | postgres_to_s3.py:241-267 | corrected: in the two-table example, the existing table gets its own outcome |

## Left out

- Plaid API calls: they are network I/O. Their replies are given sequences.
- `datetime.now`: clock readings are parameters, at whole seconds. The microseconds of a reading
  are dropped from the stored `created_at` and `updated_at` and from `repr()` of a datetime.
  - One reading stands for each batch, where the first file reads the clock twice per record.
  - `%Y` is written with four digits.
- psycopg2 and PostgreSQL internals: connection set-up and cursors are foreign. `execute_values`
  is modelled by its documented page size of 100, and the statement by what its SQL text asks
  for.
- The REFERENCES check on `transactions.account_id`: PostgreSQL rejects an INSERT whose non-NULL
  `account_id` names no stored account and aborts the transaction. The model accepts such a row,
  so the success cases of `Upsert.ExecuteSucceeds`, `Upsert.ExecuteValuesEffect`,
  `DetailedEtl.GenericUpsertEffect`, `SyncEtl.Etl.LoadTransactions` and
  `DetailedEtl.DetailedEtl.UpsertTable` include inputs the server refuses. Only the call order is
  modelled: accounts are loaded before transactions (`SyncEtl.LoadsInOrder`).
- The two CREATE INDEX statements: they change no table's contents.
- Column types and the server's conversion of values to them. The model stores any value in any
  column, so it misses the server's type errors. In particular, the second file's `safe_str`
  turns a list such as `category` into its `str()` text (`['Food and Drink']`). The `TEXT[]`
  column refuses that text as a malformed array literal, which aborts that file's transaction
  upsert. The model stores the text.
- The DECIMAL, DATE and JSONB column types: amounts and balances are integer cents. No claim is
  made about numeric fidelity.
- The CSV text: PostgreSQL's COPY and `csv.writer` produce it, not this code. The CSV arrives
  as given chunks.
- `SpooledTemporaryFile`'s spilling to disk, `seek(0)`, and boto3's client creation and region:
  library internals. The spool is a byte sequence, and S3 a map.
- `export_table_to_s3` creating its own connection and S3 client when none is passed: `main`
  always passes both.
- `argparse`, `sys.exit` and every `print`, including `main`'s summary: the parsed arguments
  are a value, and the exit status is a returned code.
- The second file's `list_tables`, its `run()` sequencing, its `csv.writer` output file, and the
  `exchange_public_token` that its `run()` calls but its class does not define. Its
  placeholder upserts and each step are modelled.
- `generate_access_token.py` and `exchange_for_token.py`: one-shot credential requests.
- `Extract.Window`: one reading, `today`, stands for both default dates. Both files read the
  clock once for each date. So the model's default window always spans exactly 90 days, while
  the code's spans 91 when midnight UTC falls between its two reads.
- `Extract.Paginate`: running out of given replies stands for a loop that would never end.
  Termination against a real API is not modelled.
- `Export.RunMain`: an entry's error is kept as an `Error` value, not as the text `str(e)`.
- `PyValues.SafeStr`: the second file's `json.dumps` fallback is not modelled, because no
  modelled value makes `str()` raise.
- `Records.Pair`: dict keys are strings here. A pair whose key is another hashable value raises
  TypeError in the model, where Python accepts it. So for a location such as `[[1, "x"]]`,
  `Records.SerializeLocationStrict` fails, and with it the first file's transaction load, and
  `Records.SerializeLocation` gives `{}`. Python gives `{1: "x"}`, which `json.dumps` writes as
  `{"1": "x"}`.
- `PyValues.Str` and `PyValues.Repr`: a Plaid model's `str()` is its fields as a one-line dict
  in their stored order. Its `to_str()` is `pprint.pformat(self.to_dict())`, which sorts the keys,
  quotes an enum field as its value string, and wraps output longer than 80 columns. `repr()` of a
  string escapes only the backslash, the quote, `\n`, `\r`, `\t`, the control characters
  below U+0020, U+007F–U+00A0 and U+00AD. It keeps other characters Python counts as
  non-printable. These texts reach the database through the second file's `safe_str`.
- `DetailedEtl.DetailedEtl.ExportTableToS3`: the upload is a given outcome. The object store is
  not modelled for this file.

## Findings

| source | as written | input that shows it | evidently intended | confidence | as-written member | corrected member |
|---|---|---|---|---|---|---|
| extrqct_upsert_accunt.py:165-171 | the loop re-sends the first request unchanged (same token and dates, no offset), so every reply is the first page again | 150 transactions, with the API's default page of 100 records: two calls, 200 records, transactions 0-99 twice, 100-149 never | pass the number held as the request's offset, so each record is fetched once | not executed | Extract.HundredFiftyTransactions | Extract.PaginateByOffset |
| extrqct_upsert_accunt.py:213-216 | `fetchall()` after `execute_values` returns only the last page's RETURNING rows, so the counts cover the last 100-row page at most | 150 new accounts: reported "Accounts loaded: 50 (Inserted: 50, Updated: 0)" | `execute_values(..., fetch=True)` and counts over every page | not executed | SyncEtl.LastPageUnderReports | SyncEtl.FullReportCounts |
| postgres_to_s3.py:244-267 | the except branch records the error but does not roll back, so after a database error every later table fails with "current transaction is aborted" | `--tables missing accounts`, where `missing` does not exist: `accounts` fails too | `conn.rollback()` in the except branch, so each table's outcome is its own | not executed | Export.MissingTablePoisonsNext | Export.RecoveringIndependent |

The programs are modelled as written: `SyncEtl.Etl.Run`, `SyncEtl.Etl.Load` and
`Export.RunMain` use the loops and counts of the code. The corrected members stand beside them:

- `Extract.PaginateByOffset`;
- `SyncEtl.FullReport` with `SyncEtl.FullReportCounts`;
- `Export.RecoveringOutcomes` with `Export.RecoveringIndependent` and
  `Export.RecoveringMissingTable`.

Each corrected member has its intended property proved.
