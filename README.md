# warwick server configuration store, in Dafny

This project models `DatabaseInterface` from `database.py`. It is the
per-server configuration store of the warwick bot: one SQLite table,
`server_configs`, keyed by server id. The table holds each server's trigger
emoji, its emoji reaction threshold and the five credentials of the social
platform account it posts to. The model proves what the store's reads and
writes promise of one another.

The model keeps the names the source uses, including its spelling
"threshhold".

## Layout

- `wrappers.dfy`, module `Wrappers`: `Option` (Python's `T | None`) and
  `Result` (a value, or the exception Python would raise instead).
- `numerals.dfy`, module `Numerals`: decimal integer text. `IntToDecimal` is
  the text Python's `str(n)` writes. `PyStr` is `str(n)` itself: under
  CPython's default limit of 4300 digits for int-to-string conversion, it
  raises `ValueError` for an `n` with more digits. `IsIntegerLiteral` and
  `LiteralValue` are an optional sign followed by ASCII digits, a subset of
  the literals that SQLite's INTEGER affinity and Python's `int(s)` both
  accept.
- `schema.dfy`, module `Schema`: the closed `Column` enum and its names, and
  each column's type affinity. `SqlValue` is a stored value (TEXT, INTEGER, or
  REAL). `Coerce` says what SQLite stores when text is bound into a column.
  `Row` is one optional value per non-`id` column, and a table is
  `map<string, Row>`. It also holds Python's truthiness and `int()` of a fetched
  value.
- `x.dfy`, module `X`: the `AuthenticationBundle` record from `x.py`.
- `database.dfy`, module `Database`: the SQL statements as functions on the
  table (`Upsert` for `INSERT ... ON CONFLICT(id) DO UPDATE`, `Select` for
  `SELECT ... WHERE id = ?` plus `fetchone()`), and the getters as functions of
  the table. It also holds the lemmas that relate the statements and reads,
  and the class `DatabaseInterface`. That class has a `table` field, and its
  setters are methods that replace `table` with the result of their upsert.

## How the model reads the code

- **State.** The aiosqlite connection is the `table` field. Each setter
  commits before it returns, so a setter's effect is an assignment to `table`.
  The next read sees it.
- **Upsert.** `__set_column_value` inserts a row with only `id` and the target
  column; every other column is NULL. If the row already exists, only the
  target column is updated. `Upsert` does exactly this: it creates a missing
  row from `EmptyRow`, then `WithCell` sets the one column.
- **Type affinity.** The threshold column is declared `INTEGER`. SQLite turns
  the bound text `str(n)` back into the integer `n`. If `n` does not fit in 64
  bits, SQLite stores a REAL instead. So reading the threshold back runs
  `int(v) if v else None` on an integer. That makes 0 falsy: a stored
  threshold of 0 reads as `None`. `ThreshholdRoundTrip` states this exactly.
  TEXT columns keep bound text as it is. This is why a `Row` stores plain
  strings for those columns.
- **Reads.** `__get_column_value` returns `result[0] if result else None`. A
  fetched row is a one-element tuple, and such a tuple is truthy even when
  the cell it holds is NULL. So the result is `None` both when there is no row
  and when the cell is NULL.
- **The auth bundle.** `get_x_auth_bundle` selects five columns. It returns
  `None` if the row is missing or any of the five values is `None`. Otherwise
  it zips the columns with the values into a dict and builds the bundle from
  that dict. The model follows those steps (`Select`, `AnyNull`, `Zip`).
- **What database.py does not do.** It has no
  `reaction_observing_timeout_secs` column, no default of 300 and no close
  operation. `new` never calls `__create_table_if_needed`, so the model
  assumes the table already exists; the constructor receives its current
  contents.
- **Writing the threshold can fail.** `str(threshhold)` raises `ValueError`
  for an int of more than 4300 digits, before any SQL runs. The setter then
  returns that error and leaves the table as it was. Every 64-bit threshold
  is written.

## Model

| member | source | states |
|---|---|---|
| `Schema.NamesDistinct` | database.py:16-27 | distinct `Column` members have distinct string values, so each names its own column |
| `Schema.Coerce` | database.py:66-88 | a TEXT column keeps bound text. The INTEGER column stores a sign-and-digits literal as INTEGER within 64 bits and as REAL outside them, and anything else as TEXT |
| `Schema.WithCell` | database.py:84-89 | binding text into one column makes it hold what SQLite stores for that text, and leaves every other column as it was |
| `Schema.StoredDecimal` | database.py:68 | `str(n)` bound into the INTEGER threshold column is stored as the integer `n`, or as a REAL when `n` is outside 64 bits |
| `Numerals.IntToDecimal` | database.py:118 | the text `str(n)` writes is an integer literal with no plus sign, beginning with a minus sign exactly when `n` is negative |
| `Numerals.PyStr` | database.py:118 | `str(n)` succeeds exactly when `Abs(n)` is below `10 ** 4300`, and its text is then a literal denoting `n` |
| `Numerals.DecimalLength` | database.py:118 | `n` is written with at most `k` digits exactly when `n < 10 ** k` |
| `Numerals.Int64WithinStrDigits` | database.py:118 | `str` never raises for a 64-bit integer |
| `Numerals.DecimalRoundTrip` | database.py:115-119 | `str(n)` is an integer literal, and `int()` of that literal is `n` again |
| `Numerals.DecimalInjective` | database.py:118 | distinct thresholds are written as distinct texts |
| `Database.Select` | database.py:97-102 | the SELECT by id then `fetchone()` gives no row exactly when the id is absent, and otherwise one value per selected column, taken from that row |
| `Database.Upsert` | database.py:83-95 | the upsert adds the server id to the table's keys and sets the target column. Other columns keep the old row's values, or are NULL for a new row. Other servers' rows are unchanged |
| `Database.GetColumnValue` | database.py:97-105 | `None` for a missing row; otherwise that row's value of the column, NULL included |
| `Database.GetTriggerEmoji` | database.py:148-149 | the stored emoji when the row exists, `None` otherwise |
| `Schema.Truthy` | database.py:156 | the falsy fetched values are exactly `None`, the empty text and the integer 0 |
| `Schema.PyInt` | database.py:156 | `int()` of an INTEGER is that integer. `int()` of text succeeds exactly for a sign-and-ASCII-digits literal and gives its value. `int()` of a REAL is not computed |
| `Database.GetEmojiReactionThreshhold` | database.py:151-156 | `None` exactly when the stored value is falsy. Otherwise `int()` of the stored value: the number it gives, or exactly the error `PyInt` gives for it |
| `Database.AnyNull` | database.py:177 | `any(x is None ...)` is true exactly when some fetched value is `None` |
| `Database.Zip` | database.py:184 | the dict built from `zip` has exactly the zipped keys, and each key that is not repeated later maps to its own value |
| `Database.ZipAuthColumns` | database.py:160-166 | zipping the five credential columns puts each fetched value under its own column |
| `Database.SelectAuthColumns` | database.py:168-177 | selecting the credential columns of a stored row gives its five values, and one of them is `None` exactly when the row lacks a credential |
| `Database.GetXAuthBundle` | database.py:158-193 | `None` exactly when the row is missing or a credential is NULL. Otherwise a bundle whose five fields are the stored values |
| `Database.ReadAfterWrite` | database.py:83-105 | reading a column just written gives the value written, as its column stores it (the text itself for TEXT columns) |
| `Database.ColumnIsolation` | database.py:87-88 | writing one column leaves every other data column of that server unchanged |
| `Database.ImplicitCreation` | database.py:85-86 | a write for a server without a row creates a row where only `id` and the target column are set |
| `Database.ServerIsolation` | database.py:85-88 | a write keyed on one server id adds no row and changes no value any other server id can read |
| `Database.LastWriteWins` | database.py:87-88 | of two writes to the same column, the second determines the table |
| `Database.WriteIdempotent` | database.py:87-88 | repeating an identical write leaves the table as the first write left it |
| `Database.WriteOfStoredValue` | database.py:83-95 | writing the value a column already holds leaves the table unchanged |
| `Database.DistinctColumnWritesCommute` | database.py:84-89 | writes to two different columns of one server give the same table in either order, so neither clobbers the other |
| `Database.UpsertTwice` | database.py:83-95 | two upserts on one server id are two updates of its row, and nothing else changes |
| `Database.WithCellCommute` | database.py:87-88 | setting two different columns of a row in either order gives the same row |
| `Database.AbsentRow` | database.py:102-105 | for a server id without a row, every column read, the emoji, the threshold and the bundle are all `None` |
| `Database.TriggerEmojiRoundTrip` | database.py:107-108 | `set_trigger_emoji` then `get_trigger_emoji` gives back the emoji |
| `Database.ThreshholdRoundTrip` | database.py:110-119 | after `set_emoji_reaction_threshhold(n)`, the getter gives `n`. The exceptions are 0, which reads as `None`, and a number beyond 64 bits, which SQLite stored as a REAL |
| `Database.ThreshholdRoundTripNonzero` | database.py:151-156 | a nonzero threshold within 64 bits reads back as itself |
| `Database.AuthBundleRoundTrip` | database.py:121-146 | after writing all five credentials of a bundle, the bundle read back is exactly that bundle, whatever the row held before |
| `Database.OtherWritesKeepAuthBundle` | database.py:107-119 | writing the emoji or the threshold never changes the bundle read |
| `Database.TriggerAndThreshholdScenario` | database.py:148-156 | for a new server, an emoji and a threshold of 3 both read back |
| `Database.IncompleteThenCompleteBundleScenario` | database.py:177-193 | four credentials give no bundle; writing the fifth gives the bundle of the five values written |
| `Database.DatabaseInterface.constructor` | database.py:37-44 | the opened store remembers its path, and its table holds what the file already held |
| `Database.DatabaseInterface.SetColumnValue` | database.py:83-95 | the new table is the old table after the upsert |
| `Database.DatabaseInterface.SetTriggerEmoji` | database.py:107-108 | upserts the emoji column, and the emoji then reads back |
| `Database.DatabaseInterface.SetEmojiReactionThreshhold` | database.py:110-119 | fails exactly when `str(n)` raises, and then leaves the table unchanged; never fails for a 64-bit `n`. Otherwise upserts `str(n)` into the threshold column, and the getter then gives what `ThreshholdRoundTrip` states |
| `Database.DatabaseInterface.SetXBearerToken` | database.py:121-122 | upserts the bearer token. It then reads back, and any bundle read carries it |
| `Database.DatabaseInterface.SetXApiKey` | database.py:124-125 | upserts the API key. It then reads back, and any bundle read carries it |
| `Database.DatabaseInterface.SetXApiKeySecret` | database.py:127-132 | upserts the API key secret. It then reads back, and any bundle read carries it |
| `Database.DatabaseInterface.SetXAccessToken` | database.py:134-135 | upserts the access token. It then reads back, and any bundle read carries it |
| `Database.DatabaseInterface.SetXAccessTokenSecret` | database.py:137-146 | upserts the access token secret. It then reads back, and any bundle read carries it |

## Left out

- The aiosqlite connection, cursors, `commit`, and async/await (database.py:37-57, 90-104, 173-186). They are replaced by the `table` field. Storage I/O errors, which would propagate to the caller, are not modelled.
- Concurrency: each upsert is one atomic statement, so any interleaving of callers is a sequence of `Upsert`s. `DistinctColumnWritesCommute` covers the no-clobber case.
- `__create_table_if_needed` (database.py:59-81): the SQL schema text is not modelled. Only the column types are used, for their affinity. `new` never calls it, and the model assumes the table exists.
- Logging: the missing-file warning (database.py:51-55) and the incomplete-bundle error (database.py:178-181).
- The cursor that is not closed on the incomplete-bundle path (database.py:177-182). This is resource handling, not table contents.
- The unused `atexit` import (database.py:3).
- A `reaction_observing_timeout_secs` column with a default of 300, and closing the store. Neither exists in this `database.py`.
- `Account` in x.py (x.py:20-59): posting, username lookup, OAuth. These are calls into the tweepy SDK over the network. Only the `AuthenticationBundle` record (x.py:11-17) is modelled.
- main.py and media_streaming.py: logging bootstrap and an HTTP download.
- Database.DatabaseInterface.SetColumnValue: requires a column other than `id`. Every caller in the source passes a fixed data column. What SQLite does with `id` named twice in the INSERT is not modelled.
- Schema.Coerce: recognises only an optional sign followed by digits. SQLite also converts text with surrounding spaces, and real literals. Only `str(n)` reaches the INTEGER column through the public setters, so this does not matter there.
- Schema.PyInt: `int()` of text is modelled for an optional sign followed by ASCII digits only. Python also accepts surrounding whitespace (`" 7"`), underscores between digits (`"1_0"`) and non-ASCII decimal digits (`"٧"`, `"５"`), for which `PyInt` gives `ValueError`. Through the public setters the threshold column never holds text, because SQLite stores `str(n)` as an INTEGER or a REAL.
- Database.GetEmojiReactionThreshhold: Python's `int()` of a REAL is not computed; it reads as `Err(FloatNotModelled)`. Through the public setters, a REAL arises only from a threshold beyond 64 bits. A table the store opens may already hold another REAL, such as 2.5, whose `int()` is not computed either. For text, `int()` is modelled for sign-and-digits literals only. Python also accepts surrounding whitespace and underscores between digits. Such text can reach the column only through the private `__set_column_value`.
- BLOB values are not modelled: no setter ever binds bytes.
- Numerals.PyStr: the digit limit is CPython's default of 4300. A program can change it with `sys.set_int_max_str_digits`, `-X int_max_str_digits` or `PYTHONINTMAXSTRDIGITS`, and database.py does not. Python versions before 3.11 have no limit.
