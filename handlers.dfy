/**
  The decision logic of the two request handlers of backend/app.py,
  shorten_url and redirect_url, and of initialize_db, as functions of the
  request, of whether a database connection could be obtained, and of the
  database before the request. Each returns the response and, where the
  handler writes, the database after it.
 */
module Handlers {
  import opened Wrappers
  import opened ShortCode
  import opened UrlTable

  /** The responses the handlers produce. */
  datatype Response =
    | Created(shortCode: string)   // 201 {"short_code": ...}
    | Found(location: string)      // 302 redirect to the stored URL
    | BadRequest                   // 400 missing 'url' in the request body
    | NotFound                     // 404 short code not found
    | InternalError                // 500 database error
    | ServiceUnavailable           // 503 no database connection

  /** The HTTP status a response is sent with. */
  function StatusCode(r: Response): (status: int)
    ensures 200 <= status < 600
    ensures status < 400 <==> r.Created? || r.Found?
    ensures r.Created? ==> status == 201
    ensures r.Found? ==> status == 302
  {
    match r
    case Created(_) => 201
    case Found(_) => 302
    case BadRequest => 400
    case NotFound => 404
    case InternalError => 500
    case ServiceUnavailable => 503
  }

  /**
    Python truthiness of data.get('url'): a missing key, a JSON null and the
    empty string are all rejected; any other string is accepted as it is.
   */
  predicate HasUrl(url: Option<string>)
  {
    url.Some? && url.value != ""
  }

  /** A handler's response together with the database it leaves behind. */
  datatype Handled = Handled(response: Response, db: Db)

  /** initialize_db: when a connection is available, create the table if it is missing. */
  function Initialize(connected: bool, db: Db): (db': Db)
    ensures connected ==> db'.Table?
    ensures db.Table? || !connected ==> db' == db
  {
    if connected then CreateTableIfNotExists(db) else db
  }

  /**
    shorten_url: reject a missing url, give up without a connection, then
    generate one code and make a single INSERT attempt; commit on success,
    roll back and answer 500 on any database error.
   */
  function Shorten(url: Option<string>, connected: bool, draws: CodeDraws, db: Db): (h: Handled)
    ensures h.response.Created? || h.response == BadRequest ||
            h.response == InternalError || h.response == ServiceUnavailable
    ensures h.response.Created? ==>
      && HasUrl(url) && connected && db.Table?
      && h.response.shortCode == GenerateShortCode(ShortCodeLength, draws)
      && h.response.shortCode !in db.urls
      && h.db == Table(db.urls[h.response.shortCode := url.value])
    ensures !h.response.Created? ==> h.db == db
  {
    if !HasUrl(url) then Handled(BadRequest, db)
    else if !connected then Handled(ServiceUnavailable, db)
    else
      var code := GenerateShortCode(ShortCodeLength, draws);
      match Insert(db, code, url.value)
      case Success(db') => Handled(Created(code), db')
      case Failure(_) => Handled(InternalError, db)
  }

  /** redirect_url: look the code up and redirect, or answer 404, 500 or 503. */
  function Redirect(shortCode: string, connected: bool, db: Db): (r: Response)
    ensures r.Found? || r == NotFound || r == InternalError || r == ServiceUnavailable
    ensures r.Found? ==> connected && db.Table? && shortCode in db.urls && r.location == db.urls[shortCode]
    ensures r == NotFound ==> connected && db.Table? && shortCode !in db.urls
  {
    if !connected then ServiceUnavailable
    else
      match Select(db, shortCode)
      case Failure(_) => InternalError
      case Success(None) => NotFound
      case Success(Some(longUrl)) => Found(longUrl)
  }

  // ---------------------------------------------------------------------
  // shorten_url

  /** shorten_url answers only 201, 400, 500 or 503. */
  lemma ShortenStatuses(url: Option<string>, connected: bool, draws: CodeDraws, db: Db)
    ensures var s := StatusCode(Shorten(url, connected, draws, db).response);
      s == 201 || s == 400 || s == 500 || s == 503
  {
  }

  /** A missing or empty url is answered 400 before any connection is made. */
  lemma ShortenMissingUrl(url: Option<string>, connected: bool, draws: CodeDraws, db: Db)
    ensures Shorten(url, connected, draws, db).response == BadRequest <==> !HasUrl(url)
    ensures !HasUrl(url) ==> Shorten(url, connected, draws, db).db == db
  {
  }

  /** Without a connection a well-formed request is answered 503 and nothing is written. */
  lemma ShortenUnavailable(url: Option<string>, connected: bool, draws: CodeDraws, db: Db)
    requires HasUrl(url)
    ensures Shorten(url, connected, draws, db).response == ServiceUnavailable <==> !connected
    ensures !connected ==> Shorten(url, connected, draws, db).db == db
  {
  }

  /** The request succeeds exactly when the single generated code is free in an existing table. */
  lemma ShortenCreatedIff(url: Option<string>, connected: bool, draws: CodeDraws, db: Db)
    ensures Shorten(url, connected, draws, db).response.Created? <==>
      && HasUrl(url) && !ContainsNul(url.value) && connected && db.Table?
      && GenerateShortCode(ShortCodeLength, draws) !in db.urls
  {
    GeneratedCodeStorable(draws);
  }

  /** A generated code is stored as it is: it holds no U+0000 and fits VARCHAR(10) uncut. */
  lemma GeneratedCodeStorable(draws: CodeDraws)
    ensures var code := GenerateShortCode(ShortCodeLength, draws);
      !ContainsNul(code) && FitsColumn(code) && StoredCode(code) == code
  {
  }

  /**
    A url holding U+0000 is refused by psycopg2 before the INSERT is sent.
    The ValueError is not a psycopg2.Error, so no rollback runs, but nothing
    was committed and the request ends in 500.
   */
  lemma ShortenNulUrl(url: Option<string>, draws: CodeDraws, db: Db)
    requires HasUrl(url) && ContainsNul(url.value)
    ensures Shorten(url, true, draws, db) == Handled(InternalError, db)
  {
  }

  /**
    A successful shorten returns the generated code, which is six letters or
    digits and fits the VARCHAR(10) column, and adds exactly the one mapping
    from that code to the submitted URL, leaving every other row as it was.
   */
  lemma ShortenSuccess(url: Option<string>, connected: bool, draws: CodeDraws, db: Db)
    requires Shorten(url, connected, draws, db).response.Created?
    ensures var h := Shorten(url, connected, draws, db);
      var code := h.response.shortCode;
      && code == GenerateShortCode(ShortCodeLength, draws)
      && |code| == ShortCodeLength && |code| <= MaxCodeLength && IsShortCode(code)
      && db.Table? && code !in db.urls
      && h.db == Table(db.urls[code := url.value])
      && |h.db.urls| == |db.urls| + 1
  {
  }

  /** Every response but 201 leaves the database exactly as it was (rollback on 500). */
  lemma ShortenFailureLeavesTable(url: Option<string>, connected: bool, draws: CodeDraws, db: Db)
    requires !Shorten(url, connected, draws, db).response.Created?
    ensures Shorten(url, connected, draws, db).db == db
  {
  }

  /**
    A generated code that is already taken violates the UNIQUE constraint:
    the insert is rolled back and the answer is 500, with no second attempt.
   */
  lemma ShortenCollision(url: Option<string>, draws: CodeDraws, db: Db)
    requires HasUrl(url) && db.Table?
    requires GenerateShortCode(ShortCodeLength, draws) in db.urls
    ensures Shorten(url, true, draws, db) == Handled(InternalError, db)
  {
  }

  /** Before the table exists every insert fails, and the answer is 500. */
  lemma ShortenWithoutTable(url: Option<string>, draws: CodeDraws)
    requires HasUrl(url)
    ensures Shorten(url, true, draws, NoTable) == Handled(InternalError, NoTable)
  {
  }

  /** The code a successful shorten returns redirects to the submitted URL. */
  lemma ShortenThenRedirect(url: Option<string>, connected: bool, draws: CodeDraws, db: Db)
    requires Shorten(url, connected, draws, db).response.Created?
    ensures var h := Shorten(url, connected, draws, db);
      Redirect(h.response.shortCode, true, h.db) == Found(url.value)
  {
  }

  /** The database reports every row it commits: a changed table means a 201 for that row. */
  lemma CommittedRowIsReported(url: Option<string>, connected: bool, draws: CodeDraws, db: Db)
    requires Shorten(url, connected, draws, db).db != db
    ensures var h := Shorten(url, connected, draws, db);
      h.response.Created? && h.db.urls == db.urls[h.response.shortCode := url.value]
  {
  }

  // ---------------------------------------------------------------------
  // redirect_url

  /** redirect_url answers only 302, 404, 500 or 503. */
  lemma RedirectStatuses(shortCode: string, connected: bool, db: Db)
    ensures var s := StatusCode(Redirect(shortCode, connected, db));
      s == 302 || s == 404 || s == 500 || s == 503
  {
  }

  /**
    The outcome of a lookup, in each direction: a redirect to exactly the
    stored URL when the code is present (an exact, case-sensitive match),
    404 when the table has no such code, 500 when the table is missing or
    the code holds U+0000, 503 without a connection.
   */
  lemma RedirectOutcomes(shortCode: string, connected: bool, db: Db, longUrl: string)
    ensures Redirect(shortCode, connected, db) == Found(longUrl) <==>
      connected && !ContainsNul(shortCode) && db.Table? && shortCode in db.urls && db.urls[shortCode] == longUrl
    ensures Redirect(shortCode, connected, db) == NotFound <==>
      connected && !ContainsNul(shortCode) && db.Table? && shortCode !in db.urls
    ensures Redirect(shortCode, connected, db) == InternalError <==>
      connected && (ContainsNul(shortCode) || db.NoTable?)
    ensures Redirect(shortCode, connected, db) == ServiceUnavailable <==> !connected
  {
  }

  // ---------------------------------------------------------------------
  // initialize_db

  /** Running initialize_db twice is the same as running it once. */
  lemma InitializeIdempotent(connected: bool, db: Db)
    ensures Initialize(connected, Initialize(connected, db)) == Initialize(connected, db)
  {
  }

  /** initialize_db keeps every existing row, and with a connection leaves a table behind. */
  lemma InitializePreservesRows(connected: bool, db: Db)
    ensures db.Table? ==> Initialize(connected, db) == db
    ensures connected ==> Initialize(connected, db).Table?
    ensures db.NoTable? && connected ==> Initialize(connected, db) == Table(map[])
  {
  }

  // ---------------------------------------------------------------------
  // The rows of the table

  /**
    The rows the handlers can have written: every key is a generated code
    (six letters or digits, which fits VARCHAR(10)) and every URL is
    non-empty and free of U+0000.
   */
  predicate WellFormed(db: Db)
  {
    db.Table? ==>
      forall code :: code in db.urls ==>
        |code| == ShortCodeLength && IsShortCode(code)
        && db.urls[code] != "" && !ContainsNul(db.urls[code])
  }

  /** shorten_url and initialize_db keep the table well formed. */
  lemma HandlersPreserveWellFormed(url: Option<string>, connected: bool, draws: CodeDraws, db: Db)
    requires WellFormed(db)
    ensures WellFormed(Shorten(url, connected, draws, db).db)
    ensures WellFormed(Initialize(connected, db))
  {
  }

  /** Every row of a well-formed table fits the short_code column. */
  lemma WellFormedCodesFit(db: Db, code: string)
    requires WellFormed(db) && db.Table? && code in db.urls
    ensures |code| <= MaxCodeLength
  {
  }

  // ---------------------------------------------------------------------
  // Many requests against one database

  /** One shorten_url request: its body's url, the connection, the random draws. */
  datatype ShortenRequest = ShortenRequest(url: Option<string>, connected: bool, draws: CodeDraws)

  /** The responses to a series of shorten_url requests and the database after them. */
  datatype Run = Run(responses: seq<Response>, db: Db)

  function ShortenAll(reqs: seq<ShortenRequest>, db: Db): (run: Run)
    ensures |run.responses| == |reqs|
    decreases |reqs|
  {
    if reqs == [] then Run([], db)
    else
      var first := Shorten(reqs[0].url, reqs[0].connected, reqs[0].draws, db);
      var rest := ShortenAll(reqs[1..], first.db);
      Run([first.response] + rest.responses, rest.db)
  }

  /** db' keeps every row of db unchanged (the table is append-only). */
  predicate Extends(db: Db, db': Db)
  {
    db.Table? ==> db'.Table? && forall code :: code in db.urls ==> code in db'.urls && db'.urls[code] == db.urls[code]
  }

  /** How many responses are 201. */
  function CountCreated(responses: seq<Response>): (n: nat)
    ensures n <= |responses|
  {
    if responses == [] then 0
    else (if responses[0].Created? then 1 else 0) + CountCreated(responses[1..])
  }

  /** No row is ever changed or removed by a series of requests. */
  lemma {:induction false} ShortenAllExtends(reqs: seq<ShortenRequest>, db: Db)
    ensures Extends(db, ShortenAll(reqs, db).db)
    decreases |reqs|
  {
    if reqs != [] {
      var first := Shorten(reqs[0].url, reqs[0].connected, reqs[0].draws, db);
      ShortenAllExtends(reqs[1..], first.db);
    }
  }

  /** Exactly one row is added per 201 and none per failed request. */
  lemma {:induction false} ShortenAllRowCount(reqs: seq<ShortenRequest>, db: Db)
    requires db.Table?
    ensures var run := ShortenAll(reqs, db);
      run.db.Table? && |run.db.urls| == |db.urls| + CountCreated(run.responses)
    decreases |reqs|
  {
    if reqs != [] {
      var first := Shorten(reqs[0].url, reqs[0].connected, reqs[0].draws, db);
      if first.response.Created? {
        ShortenSuccess(reqs[0].url, reqs[0].connected, reqs[0].draws, db);
      }
      ShortenAllRowCount(reqs[1..], first.db);
      var run := ShortenAll(reqs, db);
      assert run.responses[1..] == ShortenAll(reqs[1..], first.db).responses;
    }
  }

  /**
    Every code a series of requests hands out still redirects to its URL at
    the end, and no code is handed out twice.
   */
  lemma {:induction false} ShortenAllCodes(reqs: seq<ShortenRequest>, db: Db)
    ensures var run := ShortenAll(reqs, db);
      && (forall i :: 0 <= i < |reqs| && run.responses[i].Created? ==>
            HasUrl(reqs[i].url) &&
            Redirect(run.responses[i].shortCode, true, run.db) == Found(reqs[i].url.value))
      && (forall i, j :: 0 <= i < j < |reqs| && run.responses[i].Created? && run.responses[j].Created? ==>
            run.responses[i].shortCode != run.responses[j].shortCode)
    decreases |reqs|
  {
    if reqs != [] {
      var first := Shorten(reqs[0].url, reqs[0].connected, reqs[0].draws, db);
      var rest := ShortenAll(reqs[1..], first.db);
      var run := ShortenAll(reqs, db);
      ShortenAllCodes(reqs[1..], first.db);
      ShortenAllExtends(reqs[1..], first.db);
      assert forall i :: 1 <= i < |reqs| ==> run.responses[i] == rest.responses[i - 1];
      if first.response.Created? {
        var code := first.response.shortCode;
        assert code in first.db.urls && first.db.urls[code] == reqs[0].url.value;
        forall j | 1 <= j < |reqs| && run.responses[j].Created?
          ensures run.responses[j].shortCode != code
        {
          ShortenAllFresh(reqs[1..], first.db, j - 1);
        }
      }
    }
  }

  /** A code handed out by a later request was not yet in the table. */
  lemma {:induction false} ShortenAllFresh(reqs: seq<ShortenRequest>, db: Db, i: nat)
    requires i < |reqs| && ShortenAll(reqs, db).responses[i].Created?
    ensures db.Table? && ShortenAll(reqs, db).responses[i].shortCode !in db.urls
    decreases |reqs|
  {
    var first := Shorten(reqs[0].url, reqs[0].connected, reqs[0].draws, db);
    if i > 0 {
      ShortenAllFresh(reqs[1..], first.db, i - 1);
      assert ShortenAll(reqs, db).responses[i] == ShortenAll(reqs[1..], first.db).responses[i - 1];
      assert Extends(db, first.db);
    }
  }

  // ---------------------------------------------------------------------
  // The urls_shortened metric, as written

  /** A handler's outcome together with whether the gauge urls_shortened is now registered. */
  datatype Metered = Metered(handled: Handled, gaugeRegistered: bool)

  /**
    shorten_url as written: after the commit it calls
    metrics.info('urls_shortened', ...), which registers a new gauge of that
    name in the process's metric registry. A second registration of the same
    name raises ValueError, which the handler does not catch (it only catches
    psycopg2.Error), so the request ends in 500 although its row is committed.
   */
  function ShortenAsWritten(url: Option<string>, connected: bool, draws: CodeDraws, db: Db,
                            gaugeRegistered: bool): (m: Metered)
    ensures m.handled.db == Shorten(url, connected, draws, db).db
    ensures m.gaugeRegistered == (gaugeRegistered || Shorten(url, connected, draws, db).response.Created?)
    ensures m.handled.response != Shorten(url, connected, draws, db).response <==>
      gaugeRegistered && Shorten(url, connected, draws, db).response.Created?
    ensures gaugeRegistered && Shorten(url, connected, draws, db).response.Created? ==>
      m.handled.response == InternalError
  {
    var h := Shorten(url, connected, draws, db);
    if !h.response.Created? then Metered(h, gaugeRegistered)
    else if gaugeRegistered then Metered(Handled(InternalError, h.db), true)
    else Metered(h, true)
  }

  /** As written, once the gauge exists every successful insert is answered 500 and its code is lost. */
  lemma AsWrittenLosesCommittedRow(url: Option<string>, connected: bool, draws: CodeDraws, db: Db)
    requires Shorten(url, connected, draws, db).response.Created?
    ensures var m := ShortenAsWritten(url, connected, draws, db, true);
      m.handled.response == InternalError && m.handled.db != db
      && GenerateShortCode(ShortCodeLength, draws) in m.handled.db.urls
  {
  }

  /** The first request of the trace below: 201 with "aaaaaa", and the gauge now exists. */
  lemma AsWrittenFirstRequest()
    ensures ShortenAsWritten(Some("https://google.com"), true, [0, 0, 0, 0, 0, 0], Table(map[]), false)
      == Metered(Handled(Created("aaaaaa"), Table(map["aaaaaa" := "https://google.com"])), true)
  {
    var d0: CodeDraws := [0, 0, 0, 0, 0, 0];
    assert GenerateShortCode(ShortCodeLength, d0) == "aaaaaa";
    assert !ContainsNul("https://google.com");
  }

  /** The second request of the trace below: its row is committed, but it is answered 500. */
  lemma AsWrittenSecondRequest()
    ensures ShortenAsWritten(Some("https://google.com"), true, [1, 0, 0, 0, 0, 0],
                             Table(map["aaaaaa" := "https://google.com"]), true)
      == Metered(Handled(InternalError,
                         Table(map["aaaaaa" := "https://google.com", "baaaaa" := "https://google.com"])), true)
  {
    var d1: CodeDraws := [1, 0, 0, 0, 0, 0];
    assert GenerateShortCode(ShortCodeLength, d1) == "baaaaa";
    assert !ContainsNul("https://google.com");
    assert "baaaaa" !in map["aaaaaa" := "https://google.com"];
  }

  /**
    Two requests for the same usable URL in a fresh process against an empty
    table, with different draws: the first is answered 201, the second 500,
    yet both rows are stored.
   */
  lemma AsWrittenSecondShortenFails(url: Option<string>, d1: CodeDraws, d2: CodeDraws)
    requires HasUrl(url) && !ContainsNul(url.value) && d1 != d2
    ensures var first := ShortenAsWritten(url, true, d1, Table(map[]), false);
      var second := ShortenAsWritten(url, true, d2, first.handled.db, first.gaugeRegistered);
      var c1 := GenerateShortCode(ShortCodeLength, d1);
      var c2 := GenerateShortCode(ShortCodeLength, d2);
      && first.handled.response == Created(c1)
      && second.handled.response == InternalError
      && second.handled.db == Table(map[c1 := url.value, c2 := url.value])
      && c1 != c2
  {
    var c1 := GenerateShortCode(ShortCodeLength, d1);
    var c2 := GenerateShortCode(ShortCodeLength, d2);
    ShortenCreatedIff(url, true, d1, Table(map[]));
    if c1 == c2 {
      GenerateInjective(ShortCodeLength, d1, d2);
    }
    ShortenCreatedIff(url, true, d2, Table(map[c1 := url.value]));
  }
}
