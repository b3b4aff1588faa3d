/**
 * The Cloud SQL database the services share: the three tables the core reads
 * and writes, held as values in one object.
 */
module SqlTables {

  /** A row of `volume_handling_table`, stored under its primary key `namespace`. */
  datatype Placement = Placement(indexName: string, project: string)

  /** A calendar date in the Asia/Kolkata time zone. */
  datatype Date = Date(year: int, month: nat, day: nat)

  /** The key of a `pdf_daily_tracker` row. */
  datatype UsageKey = UsageKey(pdfName: string, date: Date)

  /** A column of the `cat_is_trending` table. */
  datatype Column = Column(name: string, sqlType: string, notNull: bool, defaultValue: int)

  /**
   * How the database work of one call goes: whether a new engine can be
   * created when the pool has no idle connection, and whether the
   * statements run without a driver or database error.
   */
  datatype DbCall = DbCall(connectOk: bool, sqlOk: bool)

  class Database {
    /** `volume_handling_table`: namespace -> (index_name, project). */
    var placements: map<string, Placement>
    /** `pdf_daily_tracker`: (pdf_name, query_date) -> counter. */
    var usage: map<UsageKey, nat>
    /** The columns of `cat_is_trending`, in table order. */
    var trendingColumns: seq<Column>
    /** The server's reserved words, in lower case; they cannot be used as unquoted identifiers. */
    var keywords: set<string>
  }
}
