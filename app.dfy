/**
  The database the handlers of backend/app.py connect to, as an object whose
  `urls` table the handlers change in place. Whether psycopg2.connect
  succeeds is a parameter of each handler; the random draws of
  generate_short_code are a parameter of shorten_url.
 */
module App {
  import opened Wrappers
  import opened ShortCode
  import opened UrlTable
  import opened Handlers

  class Database {
    /** Whether the `urls` table exists. */
    var hasTable: bool
    /** Its rows, short_code to long_url. */
    var urls: map<string, string>

    ghost predicate Valid()
      reads this
    {
      !hasTable ==> urls == map[]
    }

    /** The database as the SQL statements see it. */
    function State(): Db
      reads this
    {
      if hasTable then Table(urls) else NoTable
    }

    /** A database server on which the `urls` table has not been created yet. */
    constructor ()
      ensures Valid() && !hasTable && urls == map[]
    {
      hasTable, urls := false, map[];
    }

    /** initialize_db: with a connection, run CREATE TABLE IF NOT EXISTS and commit. */
    method InitializeDb(connected: bool)
      requires Valid()
      modifies this
      ensures Valid()
      ensures State() == Initialize(connected, old(State()))
      ensures hasTable == (old(hasTable) || connected)
      ensures urls == old(urls)
    {
      if connected {
        var created := CreateTableIfNotExists(State());
        hasTable, urls := true, created.urls;
      }
    }

    /**
      shorten_url: one INSERT of a freshly generated code, committed on
      success and rolled back on a database error.
     */
    method ShortenUrl(url: Option<string>, connected: bool, draws: CodeDraws) returns (response: Response)
      requires Valid()
      modifies this
      ensures Valid()
      ensures Handled(response, State()) == Shorten(url, connected, draws, old(State()))
      ensures hasTable == old(hasTable)
      ensures response.Created? ==>
        && response.shortCode == GenerateShortCode(ShortCodeLength, draws)
        && response.shortCode !in old(urls)
        && urls == old(urls)[response.shortCode := url.value]
      ensures !response.Created? ==> urls == old(urls)
    {
      if !HasUrl(url) {
        return BadRequest;
      }
      if !connected {
        return ServiceUnavailable;
      }
      var shortCode := GenerateShortCode(ShortCodeLength, draws);
      var inserted := Insert(State(), shortCode, url.value);
      if inserted.Success? {
        // conn.commit()
        urls := inserted.value.urls;
        response := Created(shortCode);
      } else {
        // conn.rollback(): the failed statement leaves the rows as they were
        response := InternalError;
      }
    }

    /** redirect_url: a read-only SELECT on the code, exact and case-sensitive. */
    method RedirectUrl(shortCode: string, connected: bool) returns (response: Response)
      ensures response == Redirect(shortCode, connected, State())
      ensures !connected ==> response == ServiceUnavailable
      ensures connected && (!hasTable || ContainsNul(shortCode)) ==> response == InternalError
      ensures connected && hasTable && !ContainsNul(shortCode) && shortCode in urls ==>
        response == Found(urls[shortCode])
      ensures connected && hasTable && !ContainsNul(shortCode) && shortCode !in urls ==> response == NotFound
    {
      if !connected {
        return ServiceUnavailable;
      }
      var record := Select(State(), shortCode);
      if record.Failure? {
        return InternalError;
      }
      if record.value.Some? {
        response := Found(record.value.value);
      } else {
        response := NotFound;
      }
    }
  }
}
