/**
 * `DatabaseInterface`: the per-server configuration store. The SQLite table is
 * the `table` field of the class; each SQL statement the class issues is a
 * function on that table, the setters are methods that replace the table by
 * the result of their upsert, and the getters are functions of the table.
 */
module Database {
  import opened Wrappers
  import opened Numerals
  import opened Schema
  import X

  /** The value column `c` has in the row stored under `serverId`. */
  function Field(serverId: string, row: Row, c: Column): Option<SqlValue> {
    if c == Id then Some(Text(serverId)) else Cell(row, c)
  }

  /**
   * `SELECT cols FROM server_configs WHERE id = ?` followed by `fetchone()`:
   * no row at all, or one row holding one value per selected column.
   */
  function Select(t: Table, serverId: string, cols: seq<Column>): (r: Option<seq<Option<SqlValue>>>)
    ensures r.Some? <==> serverId in t
    ensures r.Some? ==> |r.value| == |cols|
    ensures r.Some? ==> forall i :: 0 <= i < |cols| ==> r.value[i] == Field(serverId, t[serverId], cols[i])
  {
    if serverId in t then
      Some(seq(|cols|, i requires 0 <= i < |cols| => Field(serverId, t[serverId], cols[i])))
    else
      None
  }

  /** The row stored under `serverId`, or the all-NULL row the upsert would insert. */
  function RowOf(t: Table, serverId: string): Row {
    if serverId in t then t[serverId] else EmptyRow
  }

  /**
   * `INSERT INTO server_configs (id, col) VALUES (?, ?) ON CONFLICT(id) DO UPDATE
   * SET col = excluded.col`: the row for `serverId` is created with every other
   * column NULL if it is missing, and otherwise only `col` is overwritten.
   */
  function Upsert(t: Table, serverId: string, col: Column, val: string): (r: Table)
    requires col != Id
    ensures r.Keys == t.Keys + {serverId}
    ensures Cell(r[serverId], col) == Some(Coerce(col, val))
    ensures forall c :: c != col ==> Cell(r[serverId], c) == Cell(RowOf(t, serverId), c)
    ensures forall s :: s in t && s != serverId ==> r[s] == t[s]
  {
    t[serverId := WithCell(RowOf(t, serverId), col, val)]
  }

  /** `__get_column_value`: the column's value, or `None` when there is no row or it is NULL. */
  function GetColumnValue(t: Table, serverId: string, col: Column): (r: Option<SqlValue>)
    ensures serverId !in t ==> r == None
    ensures serverId in t ==> r == Field(serverId, t[serverId], col)
  {
    var result := Select(t, serverId, [col]);
    if result.Some? then result.value[0] else None
  }

  /** `get_trigger_emoji`: the stored emoji, or `None` when there is no row or it is NULL. */
  function GetTriggerEmoji(t: Table, serverId: string): (r: Option<string>)
    ensures r == if serverId in t then t[serverId].triggerEmoji else None
  {
    match GetColumnValue(t, serverId, TriggerEmoji)
    case Some(Text(emoji)) => Some(emoji)
    case _ => None
  }

  /**
   * `get_emoji_reaction_threshhold`: `int(v) if v else None` on the stored value,
   * so a falsy value (no row, NULL, the integer 0) reads as `None`.
   */
  function GetEmojiReactionThreshhold(t: Table, serverId: string): (r: Result<Option<int>, IntError>)
    ensures r == Ok(None) <==> !Truthy(GetColumnValue(t, serverId, EmojiReactionThreshhold))
    ensures r.Err? ==> GetColumnValue(t, serverId, EmojiReactionThreshhold).Some? &&
                       PyInt(GetColumnValue(t, serverId, EmojiReactionThreshhold).value).Err?
    ensures r.Err? ==> r.error == PyInt(GetColumnValue(t, serverId, EmojiReactionThreshhold).value).error
    ensures r.Ok? && r.value.Some? ==>
              serverId in t && t[serverId].emojiReactionThreshhold.Some? &&
              PyInt(t[serverId].emojiReactionThreshhold.value) == Ok(r.value.value)
  {
    var v := GetColumnValue(t, serverId, EmojiReactionThreshhold);
    if Truthy(v) then
      match PyInt(v.value)
      case Ok(n) => Ok(Some(n))
      case Err(e) => Err(e)
    else
      Ok(None)
  }

  /** The credential columns, in the order `get_x_auth_bundle` selects them. */
  const AuthColumns: seq<Column> :=
    [XBearerToken, XApiKey, XApiKeySecret, XAccessToken, XAccessTokenSecret]

  /** The row holds a value in each of the five credential columns. */
  predicate HasAuthColumns(row: Row) {
    && row.xBearerToken.Some?
    && row.xApiKey.Some?
    && row.xApiKeySecret.Some?
    && row.xAccessToken.Some?
    && row.xAccessTokenSecret.Some?
  }

  /** Python's `any(x is None for x in cells)`. */
  function AnyNull(cells: seq<Option<SqlValue>>): (r: bool)
    ensures r <==> exists i :: 0 <= i < |cells| && cells[i].None?
  {
    if cells == [] then false
    else
      assert forall i :: 0 < i < |cells| ==> cells[i] == cells[1..][i - 1];
      cells[0].None? || AnyNull(cells[1..])
  }

  /** No key after position `i` repeats `keys[i]`, so a dict built from `keys` keeps its value. */
  predicate LastOccurrence(keys: seq<Column>, i: int)
    requires 0 <= i < |keys|
  {
    forall j :: i < j < |keys| ==> keys[j] != keys[i]
  }

  /** Python's `dict(zip(keys, vals, strict=True))`: a later key overrides an earlier one. */
  function Zip(keys: seq<Column>, vals: seq<Option<SqlValue>>): (m: map<Column, Option<SqlValue>>)
    requires |keys| == |vals|
    ensures m.Keys == set i | 0 <= i < |keys| :: keys[i]
    ensures forall i :: 0 <= i < |keys| ==> keys[i] in m
    ensures forall i :: 0 <= i < |keys| && LastOccurrence(keys, i) ==> m[keys[i]] == vals[i]
  {
    if keys == [] then map[]
    else
      var n := |keys| - 1;
      assert forall i :: 0 <= i < n ==> keys[..n][i] == keys[i];
      assert forall i :: 0 <= i < n && LastOccurrence(keys, i) ==> LastOccurrence(keys[..n], i);
      assert (set i | 0 <= i < |keys| :: keys[i]) == (set i | 0 <= i < n :: keys[..n][i]) + {keys[n]};
      Zip(keys[..n], vals[..n])[keys[n] := vals[n]]
  }

  /** Zipping the credential columns keeps every selected value under its own column. */
  lemma ZipAuthColumns(cells: seq<Option<SqlValue>>)
    requires |cells| == |AuthColumns|
    ensures AuthColumns[0] == XBearerToken && Zip(AuthColumns, cells)[XBearerToken] == cells[0]
    ensures AuthColumns[1] == XApiKey && Zip(AuthColumns, cells)[XApiKey] == cells[1]
    ensures AuthColumns[2] == XApiKeySecret && Zip(AuthColumns, cells)[XApiKeySecret] == cells[2]
    ensures AuthColumns[3] == XAccessToken && Zip(AuthColumns, cells)[XAccessToken] == cells[3]
    ensures AuthColumns[4] == XAccessTokenSecret && Zip(AuthColumns, cells)[XAccessTokenSecret] == cells[4]
  {
    assert LastOccurrence(AuthColumns, 0) && LastOccurrence(AuthColumns, 1) && LastOccurrence(AuthColumns, 2);
    assert LastOccurrence(AuthColumns, 3) && LastOccurrence(AuthColumns, 4);
  }

  /** The five credential values of a row, in the order of `AuthColumns`. */
  function AuthCells(row: Row): seq<Option<SqlValue>> {
    [TextCell(row.xBearerToken), TextCell(row.xApiKey), TextCell(row.xApiKeySecret),
     TextCell(row.xAccessToken), TextCell(row.xAccessTokenSecret)]
  }

  /** Selecting the credential columns of a stored row gives its five credential values. */
  lemma SelectAuthColumns(t: Table, serverId: string)
    requires serverId in t
    ensures Select(t, serverId, AuthColumns) == Some(AuthCells(t[serverId]))
    ensures AnyNull(AuthCells(t[serverId])) <==> !HasAuthColumns(t[serverId])
  {
    var cells := AuthCells(t[serverId]);
    assert Select(t, serverId, AuthColumns).value == cells;
    assert AnyNull(cells) <==> cells[0].None? || cells[1].None? || cells[2].None? || cells[3].None? || cells[4].None?;
  }

  /**
   * `get_x_auth_bundle`: all or nothing. `None` when the row is missing or any of
   * the five credential columns is NULL; otherwise the bundle of the stored values.
   */
  function GetXAuthBundle(t: Table, serverId: string): (r: Option<X.AuthenticationBundle>)
    ensures r.None? <==> serverId !in t || !HasAuthColumns(t[serverId])
    ensures r.Some? ==> r.value == X.AuthenticationBundle(
                          bearerToken := t[serverId].xBearerToken.value,
                          apiKey := t[serverId].xApiKey.value,
                          apiKeySecret := t[serverId].xApiKeySecret.value,
                          accessToken := t[serverId].xAccessToken.value,
                          accessTokenSecret := t[serverId].xAccessTokenSecret.value)
  {
    var result := Select(t, serverId, AuthColumns);
    if result.None? then
      None
    else
      SelectAuthColumns(t, serverId);
      if AnyNull(result.value) then
        None
      else
        var columnValues := Zip(AuthColumns, result.value);
        ZipAuthColumns(result.value);
        Some(X.AuthenticationBundle(
          bearerToken := columnValues[XBearerToken].value.text,
          apiKey := columnValues[XApiKey].value.text,
          apiKeySecret := columnValues[XApiKeySecret].value.text,
          accessToken := columnValues[XAccessToken].value.text,
          accessTokenSecret := columnValues[XAccessTokenSecret].value.text))
  }

  // ---------------------------------------------------------------------------
  // Properties of the upsert and the reads
  // ---------------------------------------------------------------------------

  /** Reading a column right after writing it gives the written value, as the column stores it. */
  lemma ReadAfterWrite(t: Table, serverId: string, col: Column, val: string)
    requires col != Id
    ensures GetColumnValue(Upsert(t, serverId, col, val), serverId, col) == Some(Coerce(col, val))
    ensures DeclaredAffinity(col) == TextAffinity ==>
              GetColumnValue(Upsert(t, serverId, col, val), serverId, col) == Some(Text(val))
  {
  }

  /** Writing one column of a server's row leaves every other column of that row as it was. */
  lemma ColumnIsolation(t: Table, serverId: string, col: Column, val: string, other: Column)
    requires col != Id && other != col && other != Id
    ensures GetColumnValue(Upsert(t, serverId, col, val), serverId, other) == GetColumnValue(t, serverId, other)
  {
  }

  /** A write to a server without a row creates one in which only the written column is set. */
  lemma ImplicitCreation(t: Table, serverId: string, col: Column, val: string)
    requires col != Id && serverId !in t
    ensures serverId in Upsert(t, serverId, col, val)
    ensures GetColumnValue(Upsert(t, serverId, col, val), serverId, Id) == Some(Text(serverId))
    ensures GetColumnValue(Upsert(t, serverId, col, val), serverId, col) == Some(Coerce(col, val))
    ensures forall other :: other != col && other != Id ==>
              GetColumnValue(Upsert(t, serverId, col, val), serverId, other) == None
  {
  }

  /** A write keyed on one server id changes nothing another server id can read. */
  lemma ServerIsolation(t: Table, serverId: string, col: Column, val: string, other: string)
    requires col != Id && other != serverId
    ensures other in Upsert(t, serverId, col, val) <==> other in t
    ensures forall c :: GetColumnValue(Upsert(t, serverId, col, val), other, c) == GetColumnValue(t, other, c)
  {
  }

  /** Of two writes to the same column, the second one wins. */
  lemma LastWriteWins(t: Table, serverId: string, col: Column, first: string, second: string)
    requires col != Id
    ensures Upsert(Upsert(t, serverId, col, first), serverId, col, second) == Upsert(t, serverId, col, second)
  {
    var lhs := Upsert(Upsert(t, serverId, col, first), serverId, col, second);
    var rhs := Upsert(t, serverId, col, second);
    CellsDetermineRow(lhs[serverId], rhs[serverId]);
  }

  /** Repeating a write changes nothing more. */
  lemma WriteIdempotent(t: Table, serverId: string, col: Column, val: string)
    requires col != Id
    ensures Upsert(Upsert(t, serverId, col, val), serverId, col, val) == Upsert(t, serverId, col, val)
  {
    LastWriteWins(t, serverId, col, val, val);
  }

  /** Writing to an existing row the value its column already holds leaves the table unchanged. */
  lemma WriteOfStoredValue(t: Table, serverId: string, col: Column, val: string)
    requires col != Id && serverId in t && Cell(t[serverId], col) == Some(Coerce(col, val))
    ensures Upsert(t, serverId, col, val) == t
  {
    CellsDetermineRow(Upsert(t, serverId, col, val)[serverId], t[serverId]);
  }

  /**
   * Writes to two different columns of one server do not clobber each other:
   * either order leaves the same table.
   */
  lemma DistinctColumnWritesCommute(t: Table, serverId: string, c1: Column, v1: string, c2: Column, v2: string)
    requires c1 != Id && c2 != Id && c1 != c2
    ensures Upsert(Upsert(t, serverId, c1, v1), serverId, c2, v2)
         == Upsert(Upsert(t, serverId, c2, v2), serverId, c1, v1)
  {
    UpsertTwice(t, serverId, c1, v1, c2, v2);
    UpsertTwice(t, serverId, c2, v2, c1, v1);
    WithCellCommute(RowOf(t, serverId), c1, v1, c2, v2);
  }

  /** Two upserts on one server id update its row twice and touch nothing else. */
  lemma UpsertTwice(t: Table, serverId: string, c1: Column, v1: string, c2: Column, v2: string)
    requires c1 != Id && c2 != Id
    ensures Upsert(Upsert(t, serverId, c1, v1), serverId, c2, v2)
         == t[serverId := WithCell(WithCell(RowOf(t, serverId), c1, v1), c2, v2)]
  {
    var t1 := Upsert(t, serverId, c1, v1);
    assert RowOf(t1, serverId) == WithCell(RowOf(t, serverId), c1, v1);
  }

  /** Setting two different columns of a row in either order gives the same row. */
  lemma WithCellCommute(row: Row, c1: Column, v1: string, c2: Column, v2: string)
    requires c1 != Id && c2 != Id && c1 != c2
    ensures WithCell(WithCell(row, c1, v1), c2, v2) == WithCell(WithCell(row, c2, v2), c1, v1)
  {
    var one := WithCell(WithCell(row, c1, v1), c2, v2);
    var other := WithCell(WithCell(row, c2, v2), c1, v1);
    forall c ensures Cell(one, c) == Cell(other, c) {
      if c == c1 {
        assert Cell(one, c) == Some(Coerce(c1, v1)) == Cell(other, c);
      } else if c == c2 {
        assert Cell(one, c) == Some(Coerce(c2, v2)) == Cell(other, c);
      } else {
        assert Cell(one, c) == Cell(row, c) == Cell(other, c);
      }
    }
    CellsDetermineRow(one, other);
  }

  /** Every read of a server id without a row comes back empty. */
  lemma AbsentRow(t: Table, serverId: string)
    requires serverId !in t
    ensures forall c :: GetColumnValue(t, serverId, c) == None
    ensures GetTriggerEmoji(t, serverId) == None
    ensures GetEmojiReactionThreshhold(t, serverId) == Ok(None)
    ensures GetXAuthBundle(t, serverId) == None
  {
  }

  /** `set_trigger_emoji` then `get_trigger_emoji` gives back the emoji. */
  lemma TriggerEmojiRoundTrip(t: Table, serverId: string, emoji: string)
    ensures GetTriggerEmoji(Upsert(t, serverId, TriggerEmoji, emoji), serverId) == Some(emoji)
  {
  }

  /**
   * What `get_emoji_reaction_threshhold` reads after `set_emoji_reaction_threshhold(n)`
   * stored `str(n)`: `n` itself, except that 0 is falsy and reads as `None`, and that
   * a number beyond 64 bits (but within the digit limit of `str`) was stored as a REAL.
   */
  function ThreshholdReadBack(n: int): Result<Option<int>, IntError> {
    if n == 0 then Ok(None)
    else if InInt64(n) then Ok(Some(n))
    else Err(FloatNotModelled)
  }

  lemma ThreshholdRoundTrip(t: Table, serverId: string, n: int)
    ensures GetEmojiReactionThreshhold(Upsert(t, serverId, EmojiReactionThreshhold, IntToDecimal(n)), serverId)
         == ThreshholdReadBack(n)
  {
    StoredDecimal(n);
  }

  /** A nonzero threshold within 64 bits survives the trip through the table. */
  lemma ThreshholdRoundTripNonzero(t: Table, serverId: string, n: int)
    requires n != 0 && InInt64(n)
    ensures GetEmojiReactionThreshhold(Upsert(t, serverId, EmojiReactionThreshhold, IntToDecimal(n)), serverId)
         == Ok(Some(n))
  {
    ThreshholdRoundTrip(t, serverId, n);
  }

  /** The table after writing all five credentials of `b`, in the order the setters are declared. */
  function WriteAuthBundle(t: Table, serverId: string, b: X.AuthenticationBundle): Table {
    var t1 := Upsert(t, serverId, XBearerToken, b.bearerToken);
    var t2 := Upsert(t1, serverId, XApiKey, b.apiKey);
    var t3 := Upsert(t2, serverId, XApiKeySecret, b.apiKeySecret);
    var t4 := Upsert(t3, serverId, XAccessToken, b.accessToken);
    Upsert(t4, serverId, XAccessTokenSecret, b.accessTokenSecret)
  }

  /** Once all five credentials are written, the bundle read back is exactly the one written. */
  lemma AuthBundleRoundTrip(t: Table, serverId: string, b: X.AuthenticationBundle)
    ensures GetXAuthBundle(WriteAuthBundle(t, serverId, b), serverId) == Some(b)
  {
  }

  /** Writing a column outside the credentials never changes the bundle read. */
  lemma OtherWritesKeepAuthBundle(t: Table, serverId: string, col: Column, val: string)
    requires col == TriggerEmoji || col == EmojiReactionThreshhold
    ensures GetXAuthBundle(Upsert(t, serverId, col, val), serverId) == GetXAuthBundle(t, serverId)
  {
  }

  /** Setting an emoji and a threshold of 3 for a fresh server reads both back. */
  lemma TriggerAndThreshholdScenario()
    ensures var t := Upsert(Upsert(map[], "guild-1", TriggerEmoji, "\U{1F525}"),
                            "guild-1", EmojiReactionThreshhold, IntToDecimal(3));
            && GetTriggerEmoji(t, "guild-1") == Some("\U{1F525}")
            && GetEmojiReactionThreshhold(t, "guild-1") == Ok(Some(3))
  {
    var t1 := Upsert(map[], "guild-1", TriggerEmoji, "\U{1F525}");
    ThreshholdRoundTrip(t1, "guild-1", 3);
  }

  /**
   * Four of the five credentials give no bundle; writing the fifth completes it
   * with the five values written.
   */
  lemma IncompleteThenCompleteBundleScenario()
    ensures var t4 := Upsert(Upsert(Upsert(Upsert(map[],
                        "guild-2", XBearerToken, "bearer"),
                        "guild-2", XApiKey, "key"),
                        "guild-2", XApiKeySecret, "key-secret"),
                        "guild-2", XAccessToken, "token");
            && GetXAuthBundle(t4, "guild-2") == None
            && GetXAuthBundle(Upsert(t4, "guild-2", XAccessTokenSecret, "token-secret"), "guild-2")
               == Some(X.AuthenticationBundle("bearer", "key", "key-secret", "token", "token-secret"))
  {
    AuthBundleRoundTrip(map[], "guild-2",
      X.AuthenticationBundle("bearer", "key", "key-secret", "token", "token-secret"));
  }

  // ---------------------------------------------------------------------------
  // The store object
  // ---------------------------------------------------------------------------

  /**
   * The store. `table` is the contents of `server_configs` as the connection
   * sees it; every setter commits its upsert before it returns, so the next
   * read sees the new table.
   */
  class DatabaseInterface {
    const dbPath: string
    var table: Table

    /** `new`: opens the store at `dbPath`, whose table already holds `existing`. */
    constructor (dbPath: string, existing: Table)
      ensures this.dbPath == dbPath && table == existing
    {
      this.dbPath := dbPath;
      table := existing;
    }

    /** `__set_column_value`: one upsert of `col` in the row of `serverId`. */
    method SetColumnValue(serverId: string, col: Column, val: string)
      requires col != Id
      modifies this
      ensures table == Upsert(old(table), serverId, col, val)
    {
      table := Upsert(table, serverId, col, val);
    }

    method SetTriggerEmoji(serverId: string, triggerEmoji: string)
      modifies this
      ensures table == Upsert(old(table), serverId, TriggerEmoji, triggerEmoji)
      ensures GetTriggerEmoji(table, serverId) == Some(triggerEmoji)
    {
      SetColumnValue(serverId, TriggerEmoji, triggerEmoji);
    }

    /**
     * Stores `str(threshhold)`; the INTEGER column turns it back into a number.
     * When `str` raises, nothing is written and the `ValueError` reaches the caller.
     */
    method SetEmojiReactionThreshhold(serverId: string, threshhold: int) returns (r: Result<(), StrError>)
      modifies this
      ensures r.Err? <==> PyStr(threshhold).Err?
      ensures InInt64(threshhold) ==> r.Ok?
      ensures r.Err? ==> table == old(table)
      ensures r.Ok? ==> table == Upsert(old(table), serverId, EmojiReactionThreshhold, IntToDecimal(threshhold))
      ensures r.Ok? ==> GetEmojiReactionThreshhold(table, serverId) == ThreshholdReadBack(threshhold)
    {
      if InInt64(threshhold) {
        Int64WithinStrDigits(threshhold);
      }
      match PyStr(threshhold)
      case Err(e) =>
        r := Err(e);
      case Ok(text) =>
        ThreshholdRoundTrip(table, serverId, threshhold);
        SetColumnValue(serverId, EmojiReactionThreshhold, text);
        r := Ok(());
    }

    method SetXBearerToken(serverId: string, xBearerToken: string)
      modifies this
      ensures table == Upsert(old(table), serverId, XBearerToken, xBearerToken)
      ensures GetColumnValue(table, serverId, XBearerToken) == Some(Text(xBearerToken))
      ensures GetXAuthBundle(table, serverId).Some? ==> GetXAuthBundle(table, serverId).value.bearerToken == xBearerToken
    {
      SetColumnValue(serverId, XBearerToken, xBearerToken);
    }

    method SetXApiKey(serverId: string, xApiKey: string)
      modifies this
      ensures table == Upsert(old(table), serverId, XApiKey, xApiKey)
      ensures GetColumnValue(table, serverId, XApiKey) == Some(Text(xApiKey))
      ensures GetXAuthBundle(table, serverId).Some? ==> GetXAuthBundle(table, serverId).value.apiKey == xApiKey
    {
      SetColumnValue(serverId, XApiKey, xApiKey);
    }

    method SetXApiKeySecret(serverId: string, xApiKeySecret: string)
      modifies this
      ensures table == Upsert(old(table), serverId, XApiKeySecret, xApiKeySecret)
      ensures GetColumnValue(table, serverId, XApiKeySecret) == Some(Text(xApiKeySecret))
      ensures GetXAuthBundle(table, serverId).Some? ==> GetXAuthBundle(table, serverId).value.apiKeySecret == xApiKeySecret
    {
      SetColumnValue(serverId, XApiKeySecret, xApiKeySecret);
    }

    method SetXAccessToken(serverId: string, xAccessToken: string)
      modifies this
      ensures table == Upsert(old(table), serverId, XAccessToken, xAccessToken)
      ensures GetColumnValue(table, serverId, XAccessToken) == Some(Text(xAccessToken))
      ensures GetXAuthBundle(table, serverId).Some? ==> GetXAuthBundle(table, serverId).value.accessToken == xAccessToken
    {
      SetColumnValue(serverId, XAccessToken, xAccessToken);
    }

    method SetXAccessTokenSecret(serverId: string, xAccessTokenSecret: string)
      modifies this
      ensures table == Upsert(old(table), serverId, XAccessTokenSecret, xAccessTokenSecret)
      ensures GetColumnValue(table, serverId, XAccessTokenSecret) == Some(Text(xAccessTokenSecret))
      ensures GetXAuthBundle(table, serverId).Some? ==>
                GetXAuthBundle(table, serverId).value.accessTokenSecret == xAccessTokenSecret
    {
      SetColumnValue(serverId, XAccessTokenSecret, xAccessTokenSecret);
    }
  }
}
