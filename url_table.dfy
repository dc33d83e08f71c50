/**
  The `urls` table of backend/app.py, as the SQL statements the handlers run
  see it. The columns that the database fills in itself (the SERIAL id and
  the created_at timestamp) are not kept: a table is the map from short_code
  to long_url. Both columns are NOT NULL, so keys and values are strings;
  short_code is UNIQUE, so the map has at most one URL per code.
 */
module UrlTable {
  import opened Wrappers

  /** The declared width of the short_code column, VARCHAR(10). */
  const MaxCodeLength := 10

  /** The database either has no `urls` table yet, or has one with these rows. */
  datatype Db = NoTable | Table(urls: map<string, string>)

  /**
    The errors an INSERT or SELECT on `urls` can raise here. All but
    NulCharacter are psycopg2.Error; NulCharacter is the ValueError psycopg2
    raises on the client before sending a string that holds U+0000.
   */
  datatype DbError =
    | NulCharacter        // a string literal cannot contain NUL (0x00) characters
    | UndefinedTable      // relation "urls" does not exist
    | StringTooLong       // value too long for type character varying(10)
    | UniqueViolation     // duplicate key value violates unique constraint

  /** Whether a string holds U+0000, which no PostgreSQL text value can. */
  predicate ContainsNul(s: string)
  {
    '\0' in s
  }

  predicate AllSpaces(s: string)
  {
    forall k :: 0 <= k < |s| ==> s[k] == ' '
  }

  /**
    Whether VARCHAR(10) accepts a value: one of at most ten characters, or a
    longer one whose excess characters are all spaces.
   */
  predicate FitsColumn(code: string)
  {
    |code| <= MaxCodeLength || AllSpaces(code[MaxCodeLength..])
  }

  /** The value VARCHAR(10) stores: a longer value is cut to its first ten characters. */
  function StoredCode(code: string): (key: string)
    requires FitsColumn(code)
    ensures |key| <= MaxCodeLength && key <= code
    ensures |code| <= MaxCodeLength ==> key == code
    ensures |code| > MaxCodeLength ==> key == code[..MaxCodeLength]
    ensures forall k :: |key| <= k < |code| ==> code[k] == ' '
  {
    if |code| <= MaxCodeLength then code else code[..MaxCodeLength]
  }

  /** CREATE TABLE IF NOT EXISTS urls (...). */
  function CreateTableIfNotExists(db: Db): (db': Db)
    ensures db'.Table?
    ensures db.Table? ==> db' == db
    ensures db.NoTable? ==> db'.urls == map[]
  {
    match db
    case NoTable => Table(map[])
    case Table(_) => db
  }

  /** INSERT INTO urls (short_code, long_url) VALUES (code, url), as one atomic statement. */
  function Insert(db: Db, code: string, url: string): (r: Result<Db, DbError>)
    ensures ContainsNul(code) || ContainsNul(url) ==> r == Failure(NulCharacter)
    ensures r.Success? <==>
      db.Table? && !ContainsNul(code) && !ContainsNul(url) && FitsColumn(code) && StoredCode(code) !in db.urls
    ensures r.Success? ==> FitsColumn(code) && r.value.Table?
    ensures r.Success? ==> r.value.urls.Keys == db.urls.Keys + {StoredCode(code)}
    ensures r.Success? ==> r.value.urls[StoredCode(code)] == url
    ensures r.Success? ==> forall k :: k in db.urls ==> r.value.urls[k] == db.urls[k]
    ensures r.Failure? && db.Table? && !ContainsNul(code) && !ContainsNul(url) && FitsColumn(code) ==>
      r.error == UniqueViolation
  {
    if ContainsNul(code) || ContainsNul(url) then Failure(NulCharacter)
    else if db.NoTable? then Failure(UndefinedTable)
    else if !FitsColumn(code) then Failure(StringTooLong)
    else if StoredCode(code) in db.urls then Failure(UniqueViolation)
    else Success(Table(db.urls[StoredCode(code) := url]))
  }

  /**
    SELECT long_url FROM urls WHERE short_code = code, then fetchone(). The
    comparison is exact: trailing spaces of the parameter are not cut.
   */
  function Select(db: Db, code: string): (r: Result<Option<string>, DbError>)
    ensures r.Failure? <==> ContainsNul(code) || db.NoTable?
    ensures r.Success? ==> (r.value.Some? <==> code in db.urls)
    ensures r.Success? && r.value.Some? ==> r.value.value == db.urls[code]
  {
    if ContainsNul(code) then Failure(NulCharacter)
    else
      match db
      case NoTable => Failure(UndefinedTable)
      case Table(urls) => Success(if code in urls then Some(urls[code]) else None)
  }

  /** A successful insert adds one row and the table grows by exactly one. */
  lemma InsertGrowsByOne(db: Db, code: string, url: string)
    requires Insert(db, code, url).Success?
    ensures |Insert(db, code, url).value.urls| == |db.urls| + 1
  {
  }

  /** What was inserted is what a SELECT on the same code returns. */
  lemma SelectAfterInsert(db: Db, code: string, url: string, other: string)
    requires Insert(db, code, url).Success? && |code| <= MaxCodeLength
    ensures Select(Insert(db, code, url).value, code) == Success(Some(url))
    ensures other != code ==> Select(Insert(db, code, url).value, other) == Select(db, other)
  {
  }

  /** Creating the table when it exists changes nothing: the statement is idempotent. */
  lemma CreateTableIdempotent(db: Db)
    ensures CreateTableIfNotExists(CreateTableIfNotExists(db)) == CreateTableIfNotExists(db)
    ensures db.Table? ==> CreateTableIfNotExists(db).urls == db.urls
  {
  }

  /** A code longer than the column whose excess is spaces is stored cut to ten characters. */
  lemma TrailingSpacesTruncated()
    ensures Insert(Table(map[]), "abcdefghij  ", "u") == Success(Table(map["abcdefghij" := "u"]))
    ensures Insert(Table(map[]), "abcdefghijk", "u") == Failure(StringTooLong)
  {
    assert "abcdefghij  "[MaxCodeLength..] == "  ";
    assert "abcdefghij  "[..MaxCodeLength] == "abcdefghij";
    var long := "abcdefghijk";
    assert |long| == 11 && long[MaxCodeLength..] == "k";
    assert "k"[0] == 'k';
    assert !AllSpaces(long[MaxCodeLength..]);
  }

  /** A code or URL holding U+0000 is refused before anything reaches the table. */
  lemma NulRefused(db: Db, code: string, url: string)
    requires ContainsNul(code) || ContainsNul(url)
    ensures Insert(db, code, url) == Failure(NulCharacter)
    ensures Select(db, code) == Failure(NulCharacter) || !ContainsNul(code)
  {
  }
}
