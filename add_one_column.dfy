/**
 * add_one_column.py: adds an `INT NOT NULL DEFAULT 0` column to
 * `cat_is_trending`, after checking that the name is made of letters,
 * digits and underscores only, since it is spliced into ALTER TABLE.
 */
module AddOneColumn {
  import opened Wrappers
  import opened Connection
  import opened SqlTables

  predicate IsAlnumChar(c: char)
  {
    'a' <= c <= 'z' || 'A' <= c <= 'Z' || '0' <= c <= '9'
  }

  /** The name with every underscore removed (`str.replace('_', '')`). */
  function WithoutUnderscores(s: string): (r: string)
    ensures |r| <= |s|
    ensures forall c :: c in r <==> c in s && c != '_'
  {
    if s == [] then []
    else if s[0] == '_' then WithoutUnderscores(s[1..])
    else [s[0]] + WithoutUnderscores(s[1..])
  }

  /** `str.isalnum`: non-empty, every character a letter or digit. */
  predicate IsAlnum(s: string)
  {
    |s| > 0 && forall i :: 0 <= i < |s| ==> IsAlnumChar(s[i])
  }

  /**
   * The check made before the name is spliced into ALTER TABLE: whatever
   * passes holds only letters, digits and underscores, and not only underscores.
   */
  predicate IsSafeColumnName(name: string)
    ensures IsSafeColumnName(name) ==> forall i :: 0 <= i < |name| && name[i] != '_' ==> IsAlnumChar(name[i])
    ensures IsSafeColumnName(name) ==> exists i :: 0 <= i < |name| && name[i] != '_'
  {
    var r := WithoutUnderscores(name);
    assert forall i :: 0 <= i < |name| && name[i] != '_' ==> name[i] in r;
    assert |r| > 0 ==> r[0] in name;
    IsAlnum(r)
  }

  /** A name passes exactly when it uses only letters, digits and underscores and is not all underscores. */
  lemma SafeColumnNameIff(name: string)
    ensures IsSafeColumnName(name)
            <==> (forall i :: 0 <= i < |name| ==> IsAlnumChar(name[i]) || name[i] == '_')
                 && (exists i :: 0 <= i < |name| && name[i] != '_')
  {
    var r := WithoutUnderscores(name);
    if IsSafeColumnName(name) {
      forall i | 0 <= i < |name| && name[i] != '_'
        ensures IsAlnumChar(name[i])
      {
        assert name[i] in r;
      }
      assert r[0] in name;
    } else if forall i :: 0 <= i < |name| ==> IsAlnumChar(name[i]) || name[i] == '_' {
      forall i | 0 <= i < |r|
        ensures IsAlnumChar(r[i])
      {
        assert r[i] in name;
      }
      if exists i :: 0 <= i < |name| && name[i] != '_' {
        var i :| 0 <= i < |name| && name[i] != '_';
        assert name[i] in r;
      }
    }
  }

  /** The empty name and names made only of underscores are refused. */
  lemma UnderscoresOnlyRefused(name: string)
    requires forall i :: 0 <= i < |name| ==> name[i] == '_'
    ensures !IsSafeColumnName(name)
  {
    SafeColumnNameIff(name);
  }

  /** The errors the driver can raise, as the handlers tell them apart. */
  datatype DbError = OperationalError(code: int, text: string) | MySqlError(text: string) | UnexpectedError(text: string)

  /** MySQL's error code for a duplicate column name. */
  const DUPLICATE_COLUMN: int := 1060

  /**
   * MySQL's parse error (1064), raised as a `ProgrammingError`, a kind of
   * `MySQLError`. The text stands for the error's `str`, which also carries
   * the code and the part of the statement near the error.
   */
  const SYNTAX_ERROR: string := "You have an error in your SQL syntax"

  /** The longest column name MySQL accepts. */
  const MAX_IDENTIFIER_LENGTH: nat := 64

  /** MySQL's error code for an identifier that is too long, raised as an `OperationalError`. */
  const IDENTIFIER_TOO_LONG: int := 1059

  /** The text of error 1059 for a name; like `SYNTAX_ERROR`, it stands for the error's `str`. */
  function TooLongText(name: string): string
  {
    "Identifier name '" + name + "' is too long"
  }

  const INVALID_NAME: string := "Column name can only contain letters, numbers, and underscores"
  const NO_CONNECTION: string := "Failed to connect to database"

  /** The (success, message) pair returned. */
  datatype Reply = Reply(ok: bool, message: string)

  /** The reply and the table's columns afterwards. */
  datatype Alteration = Alteration(reply: Reply, columns: seq<Column>)

  function NewColumn(name: string): Column
  {
    Column(name, "INT", true, 0)
  }

  function LowerChar(c: char): char
  {
    if 'A' <= c <= 'Z' then (c as int + 32) as char else c
  }

  /** MySQL compares column names without regard to ASCII case. */
  function Lower(s: string): string
  {
    seq(|s|, i requires 0 <= i < |s| => LowerChar(s[i]))
  }

  predicate HasColumn(columns: seq<Column>, name: string)
  {
    exists i :: 0 <= i < |columns| && Lower(columns[i].name) == Lower(name)
  }

  ghost predicate DistinctColumnNames(columns: seq<Column>)
  {
    forall i, j :: 0 <= i < j < |columns| ==> Lower(columns[i].name) != Lower(columns[j].name)
  }

  predicate AllDigits(s: string)
  {
    forall i :: 0 <= i < |s| ==> '0' <= s[i] <= '9'
  }

  /**
   * Whether the server parses the name spliced in unquoted: an identifier
   * may not consist of digits only, nor be a reserved word.
   */
  predicate ParsesUnquoted(name: string, keywords: set<string>)
  {
    !AllDigits(name) && Lower(name) !in keywords
  }

  /** The reply of the `except` clauses: always a failure; the duplicate-column message exactly for error 1060. */
  function ErrorReply(name: string, e: DbError): (r: Reply)
    ensures !r.ok
    ensures r.message == "Column '" + name + "' already exists in the table"
            <==> e.OperationalError? && e.code == DUPLICATE_COLUMN
  {
    match e
    case OperationalError(code, text) =>
      if code == DUPLICATE_COLUMN then Reply(false, "Column '" + name + "' already exists in the table")
      else
        var m := "Database operational error: " + text;
        assert m[0] == 'D';
        Reply(false, m)
    case MySqlError(text) =>
      var m := "Database error occurred: " + text;
      assert m[0] == 'D';
      Reply(false, m)
    case UnexpectedError(text) =>
      var m := "An unexpected error occurred: " + text;
      assert m[0] == 'A';
      Reply(false, m)
  }

  /**
   * The error `cursor.execute` meets: a fault of the environment, else the
   * server's parse error for a name it cannot read unquoted, else error
   * 1059 for a name longer than 64 characters, else MySQL's duplicate-column
   * error when a column of that name is already there.
   */
  function ExecuteError(columns: seq<Column>, keywords: set<string>, name: string, fault: Option<DbError>): (e: Option<DbError>)
    ensures e.None? <==> fault.None? && ParsesUnquoted(name, keywords) && |name| <= MAX_IDENTIFIER_LENGTH
                         && !HasColumn(columns, name)
    ensures fault.None? && !ParsesUnquoted(name, keywords) ==> e == Some(MySqlError(SYNTAX_ERROR))
    ensures fault.None? && ParsesUnquoted(name, keywords) && |name| > MAX_IDENTIFIER_LENGTH ==>
              e == Some(OperationalError(IDENTIFIER_TOO_LONG, TooLongText(name)))
    ensures fault.None? && ParsesUnquoted(name, keywords) && |name| <= MAX_IDENTIFIER_LENGTH && HasColumn(columns, name) ==>
              e.Some? && e.value.OperationalError? && e.value.code == DUPLICATE_COLUMN
  {
    if fault.Some? then fault
    else if !ParsesUnquoted(name, keywords) then Some(MySqlError(SYNTAX_ERROR))
    else if |name| > MAX_IDENTIFIER_LENGTH then Some(OperationalError(IDENTIFIER_TOO_LONG, TooLongText(name)))
    else if HasColumn(columns, name) then Some(OperationalError(DUPLICATE_COLUMN, "Duplicate column name '" + name + "'"))
    else None
  }

  /**
   * Whether the ALTER TABLE statement takes effect: the name passes the
   * check, a connection is obtained and `cursor.execute` raises nothing.
   * MySQL commits ALTER TABLE implicitly, so the column stays even when
   * the later `connection.commit()` raises.
   */
  predicate Applies(columns: seq<Column>, keywords: set<string>, name: string, connected: bool, executeFault: Option<DbError>)
  {
    IsSafeColumnName(name) && connected && ExecuteError(columns, keywords, name, executeFault).None?
  }

  /**
   * `add_one_to_column` on the table's columns. `executeFault` is an error
   * raised by `cursor.execute`, `commitFault` one raised by `connection.commit()`.
   */
  function AddColumn(columns: seq<Column>, keywords: set<string>, name: string, connected: bool,
                     executeFault: Option<DbError>, commitFault: Option<DbError>): (a: Alteration)
    ensures a.columns == columns || a.columns == columns + [NewColumn(name)]
    ensures a.reply.ok ==> a.columns == columns + [NewColumn(name)]
    ensures !IsSafeColumnName(name) || !connected ==> a.columns == columns
  {
    if !IsSafeColumnName(name) then Alteration(Reply(false, INVALID_NAME), columns)
    else if !connected then Alteration(Reply(false, NO_CONNECTION), columns)
    else
      match ExecuteError(columns, keywords, name, executeFault)
      case Some(e) => Alteration(ErrorReply(name, e), columns)
      case None =>
        var added := columns + [NewColumn(name)];
        match commitFault
        case Some(e) => Alteration(ErrorReply(name, e), added)
        case None => Alteration(Reply(true, "Successfully added column '" + name + "'"), added)
  }

  /**
   * The column is added exactly when the statement takes effect (the name
   * is safe, a connection is obtained, the server parses the name, no
   * fault occurs in `cursor.execute` and no column has that name); it is
   * then the one new column, INT NOT NULL DEFAULT 0. The reply is a
   * success exactly when the commit raises nothing as well.
   */
  lemma AddsExactlyOneColumn(columns: seq<Column>, keywords: set<string>, name: string, connected: bool,
                             executeFault: Option<DbError>, commitFault: Option<DbError>)
    ensures var a := AddColumn(columns, keywords, name, connected, executeFault, commitFault);
      && (Applies(columns, keywords, name, connected, executeFault) ==>
            a.columns == columns + [Column(name, "INT", true, 0)] && HasColumn(a.columns, name))
      && (!Applies(columns, keywords, name, connected, executeFault) ==> a.columns == columns)
      && (a.reply.ok <==> Applies(columns, keywords, name, connected, executeFault) && commitFault.None?)
      && (!IsSafeColumnName(name) ==> a.reply == Reply(false, INVALID_NAME))
      && (IsSafeColumnName(name) && !connected ==> a.reply == Reply(false, NO_CONNECTION))
  {
    var a := AddColumn(columns, keywords, name, connected, executeFault, commitFault);
    if Applies(columns, keywords, name, connected, executeFault) {
      assert a.columns[|columns|].name == name;
    }
  }

  /**
   * A failing commit after the ALTER has run is reported as a failure,
   * although the column has been added.
   */
  lemma CommitFailureKeepsColumn(columns: seq<Column>, keywords: set<string>, name: string, executeFault: Option<DbError>, e: DbError)
    requires Applies(columns, keywords, name, true, executeFault)
    ensures var a := AddColumn(columns, keywords, name, true, executeFault, Some(e));
      && a.reply == ErrorReply(name, e) && !a.reply.ok
      && a.columns == columns + [NewColumn(name)] && HasColumn(a.columns, name)
  {
    var a := AddColumn(columns, keywords, name, true, executeFault, Some(e));
    assert a.columns[|columns|].name == name;
  }

  /** A digit-only name passes the check but fails at the server, as a generic database error. */
  lemma DigitsOnlyPassCheckButFail(columns: seq<Column>, keywords: set<string>, commitFault: Option<DbError>)
    ensures IsSafeColumnName("123")
    ensures AddColumn(columns, keywords, "123", true, None, commitFault)
            == Alteration(Reply(false, "Database error occurred: " + SYNTAX_ERROR), columns)
  {
    assert WithoutUnderscores("123") == "123" by {
      assert WithoutUnderscores("3") == "3";
      assert "123"[1..] == "23" && "23"[1..] == "3";
    }
    assert AllDigits("123");
  }

  /** A name that passes the check but is longer than 64 characters is refused by the server with error 1059. */
  lemma OverlongNameRefused(columns: seq<Column>, keywords: set<string>, name: string, commitFault: Option<DbError>)
    requires IsSafeColumnName(name) && ParsesUnquoted(name, keywords) && |name| > MAX_IDENTIFIER_LENGTH
    ensures AddColumn(columns, keywords, name, true, None, commitFault)
            == Alteration(Reply(false, "Database operational error: " + TooLongText(name)), columns)
  {
  }

  /** An existing column, in any ASCII case, is reported and not added again. */
  lemma DuplicateColumnReported(columns: seq<Column>, keywords: set<string>, name: string, commitFault: Option<DbError>)
    requires IsSafeColumnName(name) && ParsesUnquoted(name, keywords) && |name| <= MAX_IDENTIFIER_LENGTH
    requires HasColumn(columns, name)
    ensures AddColumn(columns, keywords, name, true, None, commitFault)
            == Alteration(Reply(false, "Column '" + name + "' already exists in the table"), columns)
  {
  }

  /**
   * Adding a column, then the same name again in any ASCII case: the
   * second call reports that it exists.
   */
  lemma AddTwiceReportsDuplicate(columns: seq<Column>, keywords: set<string>, name: string, again: string)
    requires AddColumn(columns, keywords, name, true, None, None).reply.ok
    requires IsSafeColumnName(again) && ParsesUnquoted(again, keywords) && Lower(again) == Lower(name)
    ensures var once := AddColumn(columns, keywords, name, true, None, None).columns;
      AddColumn(once, keywords, again, true, None, None)
      == Alteration(Reply(false, "Column '" + again + "' already exists in the table"), once)
  {
    var once := AddColumn(columns, keywords, name, true, None, None).columns;
    assert Lower(once[|columns|].name) == Lower(again);
  }

  /** The table never gets two columns whose names differ only in case this way. */
  lemma AddKeepsColumnNamesDistinct(columns: seq<Column>, keywords: set<string>, name: string, connected: bool,
                                    executeFault: Option<DbError>, commitFault: Option<DbError>)
    requires DistinctColumnNames(columns)
    ensures DistinctColumnNames(AddColumn(columns, keywords, name, connected, executeFault, commitFault).columns)
  {
    var a := AddColumn(columns, keywords, name, connected, executeFault, commitFault);
    if a.columns != columns {
      assert !HasColumn(columns, name);
      forall i, j | 0 <= i < j < |a.columns|
        ensures Lower(a.columns[i].name) != Lower(a.columns[j].name)
      {
        if j == |columns| {
          assert a.columns[i] == columns[i];
        }
      }
    }
  }

  /**
   * `add_one_to_column`. A refused name takes no connection; otherwise the
   * connection is given back on every path.
   */
  method AddOneToColumn(pool: ConnectionPool, db: Database, columnName: string, connectOk: bool,
                        executeFault: Option<DbError>, commitFault: Option<DbError>)
    returns (ok: bool, message: string)
    requires pool.Valid()
    modifies pool, db`trendingColumns
    ensures pool.Valid()
    ensures pool.State() == if IsSafeColumnName(columnName) then RoundTrip(old(pool.State()), connectOk) else old(pool.State())
    ensures Alteration(Reply(ok, message), db.trendingColumns)
         == AddColumn(old(db.trendingColumns), db.keywords, columnName, Connects(old(pool.State()), connectOk),
                      executeFault, commitFault)
  {
    if !IsSafeColumnName(columnName) {
      return false, INVALID_NAME;
    }
    var conn := pool.GetConnection(connectOk);
    if conn.None? {
      return false, NO_CONNECTION;
    }
    var error := ExecuteError(db.trendingColumns, db.keywords, columnName, executeFault);
    if error.Some? {
      var reply := ErrorReply(columnName, error.value);
      ok, message := reply.ok, reply.message;
    } else {
      // The ALTER has taken effect: MySQL commits it implicitly.
      db.trendingColumns := db.trendingColumns + [NewColumn(columnName)];
      if commitFault.Some? {
        var reply := ErrorReply(columnName, commitFault.value);
        ok, message := reply.ok, reply.message;
      } else {
        ok, message := true, "Successfully added column '" + columnName + "'";
      }
    }
    pool.ReleaseConnection(conn);
  }
}
