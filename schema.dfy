/**
 * The `server_configs` table: its closed set of columns, the values SQLite
 * stores in them and how Python sees those values when they are read back.
 */
module Schema {
  import opened Wrappers
  import opened Numerals

  /** The `Column` enum. `Id` is the primary key; the others are the per-server settings. */
  datatype Column =
    | Id
    | TriggerEmoji
    | EmojiReactionThreshhold
    | XBearerToken
    | XApiKey
    | XApiKeySecret
    | XAccessToken
    | XAccessTokenSecret

  /** The column's name in the table, which is also the enum member's string value. */
  function Name(c: Column): string {
    match c
    case Id => "id"
    case TriggerEmoji => "trigger_emoji"
    case EmojiReactionThreshhold => "emoji_reaction_threshhold"
    case XBearerToken => "x_bearer_token"
    case XApiKey => "x_api_key"
    case XApiKeySecret => "x_api_key_secret"
    case XAccessToken => "x_access_token"
    case XAccessTokenSecret => "x_access_token_secret"
  }

  /** The enum's values are distinct, so each member names its own column of the table. */
  lemma NamesDistinct(c1: Column, c2: Column)
    ensures Name(c1) == Name(c2) ==> c1 == c2
  {
  }

  /** The type affinity each column gets from its declared type in the table schema. */
  datatype Affinity = TextAffinity | IntegerAffinity

  function DeclaredAffinity(c: Column): Affinity {
    if c == EmojiReactionThreshhold then IntegerAffinity else TextAffinity
  }

  /**
   * A non-NULL value as SQLite stores it. `Real` stands for the REAL that SQLite
   * makes of an integer literal too large for 64 bits; it keeps that literal, since
   * the model does not compute binary floating point.
   */
  datatype SqlValue = Text(text: string) | Integer(value: int) | Real(literal: string)

  /**
   * What SQLite stores when the text `v` is bound into column `c`: a TEXT column
   * keeps the text, an INTEGER column turns an integer literal into an INTEGER,
   * or into a REAL when it is out of the 64-bit range.
   */
  function Coerce(c: Column, v: string): (r: SqlValue)
    ensures DeclaredAffinity(c) == TextAffinity ==> r == Text(v)
    ensures r.Integer? ==> IsIntegerLiteral(v) && LiteralValue(v) == r.value && InInt64(r.value)
    ensures r.Real? ==> IsIntegerLiteral(v) && !InInt64(LiteralValue(v)) && r.literal == v
    ensures r.Text? ==> r.text == v && (DeclaredAffinity(c) == IntegerAffinity ==> !IsIntegerLiteral(v))
  {
    if DeclaredAffinity(c) == IntegerAffinity && IsIntegerLiteral(v) then
      if InInt64(LiteralValue(v)) then Integer(LiteralValue(v)) else Real(v)
    else
      Text(v)
  }

  /** Storing `str(n)` in the threshold column gives back the integer `n` itself. */
  lemma StoredDecimal(n: int)
    ensures Coerce(EmojiReactionThreshhold, IntToDecimal(n))
         == if InInt64(n) then Integer(n) else Real(IntToDecimal(n))
  {
    DecimalRoundTrip(n);
  }

  /**
   * One row: the value of each non-`id` column, `None` for NULL. A TEXT column
   * holds text only, since TEXT affinity keeps bound text as it is; the INTEGER
   * threshold column holds whatever its affinity made of the text bound to it.
   */
  datatype Row = Row(
    triggerEmoji: Option<string>,
    emojiReactionThreshhold: Option<SqlValue>,
    xBearerToken: Option<string>,
    xApiKey: Option<string>,
    xApiKeySecret: Option<string>,
    xAccessToken: Option<string>,
    xAccessTokenSecret: Option<string>)

  /** The row the upsert inserts before it sets its one column: every column NULL. */
  const EmptyRow: Row := Row(None, None, None, None, None, None, None)

  /** The table, keyed by the primary key `id`, the server id. */
  type Table = map<string, Row>

  function TextCell(v: Option<string>): Option<SqlValue> {
    if v.Some? then Some(Text(v.value)) else None
  }

  /** The stored value of a non-`id` column (`id` is not one of the row's fields). */
  function Cell(row: Row, c: Column): Option<SqlValue> {
    match c
    case Id => None
    case TriggerEmoji => TextCell(row.triggerEmoji)
    case EmojiReactionThreshhold => row.emojiReactionThreshhold
    case XBearerToken => TextCell(row.xBearerToken)
    case XApiKey => TextCell(row.xApiKey)
    case XApiKeySecret => TextCell(row.xApiKeySecret)
    case XAccessToken => TextCell(row.xAccessToken)
    case XAccessTokenSecret => TextCell(row.xAccessTokenSecret)
  }

  /** The row with the text `v` bound into column `c`: `c` now holds what SQLite stores for `v`. */
  function WithCell(row: Row, c: Column, v: string): (r: Row)
    requires c != Id
    ensures Cell(r, c) == Some(Coerce(c, v))
    ensures forall other :: other != c ==> Cell(r, other) == Cell(row, other)
  {
    match c
    case TriggerEmoji => row.(triggerEmoji := Some(v))
    case EmojiReactionThreshhold => row.(emojiReactionThreshhold := Some(Coerce(c, v)))
    case XBearerToken => row.(xBearerToken := Some(v))
    case XApiKey => row.(xApiKey := Some(v))
    case XApiKeySecret => row.(xApiKeySecret := Some(v))
    case XAccessToken => row.(xAccessToken := Some(v))
    case XAccessTokenSecret => row.(xAccessTokenSecret := Some(v))
  }

  /** Two rows that agree on every column are the same row. */
  lemma CellsDetermineRow(a: Row, b: Row)
    requires forall c :: Cell(a, c) == Cell(b, c)
    ensures a == b
  {
    assert Cell(a, TriggerEmoji) == Cell(b, TriggerEmoji);
    assert Cell(a, EmojiReactionThreshhold) == Cell(b, EmojiReactionThreshhold);
    assert Cell(a, XBearerToken) == Cell(b, XBearerToken);
    assert Cell(a, XApiKey) == Cell(b, XApiKey);
    assert Cell(a, XApiKeySecret) == Cell(b, XApiKeySecret);
    assert Cell(a, XAccessToken) == Cell(b, XAccessToken);
    assert Cell(a, XAccessTokenSecret) == Cell(b, XAccessTokenSecret);
  }

  /**
   * Python's truthiness of a fetched value. A `Real` is never zero here, since it
   * only holds a literal beyond 64 bits.
   */
  function Truthy(v: Option<SqlValue>): (b: bool)
    ensures b <==> v != None && v != Some(Text("")) && v != Some(Integer(0))
  {
    match v
    case None => false
    case Some(Text(s)) => s != ""
    case Some(Integer(i)) => i != 0
    case Some(Real(_)) => true
  }

  /** Why Python's `int(v)` gives no int. */
  datatype IntError =
    | ValueError        // text that is not an integer literal
    | FloatNotModelled  // a REAL, which the model does not convert

  /** Python's `int(v)` applied to a value fetched from SQLite. */
  function PyInt(v: SqlValue): (r: Result<int, IntError>)
    ensures v.Integer? ==> r == Ok(v.value)
    ensures v.Text? ==> (r.Ok? <==> IsIntegerLiteral(v.text))
    ensures v.Text? && r.Ok? ==> r.value == LiteralValue(v.text)
    ensures v.Real? ==> r == Err(FloatNotModelled)
  {
    match v
    case Text(s) => if IsIntegerLiteral(s) then Ok(LiteralValue(s)) else Err(ValueError)
    case Integer(i) => Ok(i)
    case Real(_) => Err(FloatNotModelled)
  }
}
