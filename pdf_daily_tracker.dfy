/**
 * pdf_daily_tracker.py: a per-document, per-day usage counter kept in
 * `pdf_daily_tracker` by reading the row, then either incrementing its
 * counter or inserting it with counter 1.
 */
module PdfDailyTracker {
  import opened Connection
  import opened SqlTables

  /** The value `track_pdf_daily_usage` returns and the table it leaves. */
  datatype Tracking = Tracking(ok: bool, usage: map<UsageKey, nat>)

  /** The counter of a (pdf_name, date) row, 0 when there is no row. */
  function Count(usage: map<UsageKey, nat>, key: UsageKey): nat
  {
    if key in usage then usage[key] else 0
  }

  /**
   * One call for `pdfName` on `date`: an empty name is refused before any
   * connection is taken; without a connection, or on a database error,
   * nothing is committed.
   */
  function Track(usage: map<UsageKey, nat>, pdfName: string, date: Date, connected: bool, sqlOk: bool): (t: Tracking)
    ensures t.ok <==> pdfName != "" && connected && sqlOk
    ensures Count(t.usage, UsageKey(pdfName, date)) == Count(usage, UsageKey(pdfName, date)) + (if t.ok then 1 else 0)
    ensures forall k :: k != UsageKey(pdfName, date) ==> Count(t.usage, k) == Count(usage, k)
  {
    var key := UsageKey(pdfName, date);
    if pdfName == "" || !connected || !sqlOk then Tracking(false, usage)
    else if key in usage then Tracking(true, usage[key := usage[key] + 1])
    else Tracking(true, usage[key := 1])
  }

  /**
   * A successful call raises the counter of its own row by exactly one (a
   * missing row starts at 1) and leaves every other row as it was; a
   * failed call changes nothing.
   */
  lemma TrackCountsOneUse(usage: map<UsageKey, nat>, pdfName: string, date: Date, connected: bool, sqlOk: bool)
    ensures var t := Track(usage, pdfName, date, connected, sqlOk);
      && (t.ok <==> pdfName != "" && connected && sqlOk)
      && (t.ok ==> Count(t.usage, UsageKey(pdfName, date)) == Count(usage, UsageKey(pdfName, date)) + 1
                   && t.usage.Keys == usage.Keys + {UsageKey(pdfName, date)})
      && (!t.ok ==> t.usage == usage)
      && (forall k :: k != UsageKey(pdfName, date) ==> (k in t.usage <==> k in usage) && Count(t.usage, k) == Count(usage, k))
  {
  }

  /** The table after `n` successful calls for the same document on the same day. */
  function TrackTimes(usage: map<UsageKey, nat>, pdfName: string, date: Date, n: nat): map<UsageKey, nat>
  {
    if n == 0 then usage else Track(TrackTimes(usage, pdfName, date, n - 1), pdfName, date, true, true).usage
  }

  /** `n` successful calls add exactly `n` to the day's counter and touch no other row. */
  lemma {:induction false} TrackTimesCounts(usage: map<UsageKey, nat>, pdfName: string, date: Date, n: nat)
    requires pdfName != ""
    ensures Count(TrackTimes(usage, pdfName, date, n), UsageKey(pdfName, date)) == Count(usage, UsageKey(pdfName, date)) + n
    ensures forall k :: k != UsageKey(pdfName, date) ==> Count(TrackTimes(usage, pdfName, date, n), k) == Count(usage, k)
  {
    if n > 0 {
      TrackTimesCounts(usage, pdfName, date, n - 1);
      TrackCountsOneUse(TrackTimes(usage, pdfName, date, n - 1), pdfName, date, true, true);
    }
  }

  /** From no row, `n` successful calls leave the counter at `n`. */
  lemma FreshDayCountsCalls(usage: map<UsageKey, nat>, pdfName: string, date: Date, n: nat)
    requires pdfName != "" && UsageKey(pdfName, date) !in usage
    ensures Count(TrackTimes(usage, pdfName, date, n), UsageKey(pdfName, date)) == n
  {
    TrackTimesCounts(usage, pdfName, date, n);
  }

  /**
   * `track_pdf_daily_usage`; the date is passed in. The connection is taken
   * only for a non-empty name and is given back on every path.
   */
  method TrackPdfDailyUsage(pool: ConnectionPool, db: Database, pdfName: string, date: Date, io: DbCall)
    returns (ok: bool)
    requires pool.Valid()
    modifies pool, db`usage
    ensures pool.Valid()
    ensures pool.State() == if pdfName == "" then old(pool.State()) else RoundTrip(old(pool.State()), io.connectOk)
    ensures Tracking(ok, db.usage) == Track(old(db.usage), pdfName, date, Connects(old(pool.State()), io.connectOk), io.sqlOk)
  {
    if pdfName == "" {
      return false;
    }
    var conn := pool.GetConnection(io.connectOk);
    if conn.None? || !io.sqlOk {
      ok := false;
    } else {
      var key := UsageKey(pdfName, date);
      if key in db.usage {
        db.usage := db.usage[key := db.usage[key] + 1];
      } else {
        db.usage := db.usage[key := 1];
      }
      ok := true;
    }
    pool.ReleaseConnection(conn);
  }
}
