/**
 * The module-level connection pool of connection.py: `getconnection` pops
 * the most recently returned connection or creates a new engine, and
 * `release_connection` pushes a connection back or disposes of it when
 * the pool already holds MAX_POOL_SIZE of them.
 */
module Connection {
  import opened Wrappers

  /** At most this many idle connections are kept. */
  const MAX_POOL_SIZE: nat := 5

  /** A database engine handle; engines are told apart by the order of their creation. */
  datatype Conn = Conn(serial: nat)

  /**
   * The pool as a value: the idle list (its last element is handed out
   * next), how many engines have been created, and the engines disposed of.
   */
  datatype Pool = Pool(idle: seq<Conn>, created: nat, disposed: seq<Conn>)

  predicate Bounded(p: Pool)
  {
    |p.idle| <= MAX_POOL_SIZE
  }

  /** What `getconnection` hands out (None when creating an engine fails) and the pool it leaves. */
  datatype Acquisition = Acquisition(conn: Option<Conn>, pool: Pool)

  /**
   * A connection is handed out exactly when one is idle or a new engine can
   * be created; the idle list never grows and nothing is disposed of.
   */
  function Acquire(p: Pool, connectOk: bool): (a: Acquisition)
    ensures a.conn.Some? <==> p.idle != [] || connectOk
    ensures a.conn.None? ==> a.pool == p
    ensures |a.pool.idle| <= |p.idle| && a.pool.disposed == p.disposed
    ensures a.conn.Some? ==> a.conn.value in p.idle || a.conn.value == Conn(p.created)
  {
    if p.idle != [] then
      Acquisition(Some(p.idle[|p.idle| - 1]), p.(idle := p.idle[..|p.idle| - 1]))
    else if connectOk then
      Acquisition(Some(Conn(p.created)), p.(created := p.created + 1))
    else
      Acquisition(None, p)
  }

  /**
   * A released connection ends up either back in the idle list or among
   * the disposed engines, never both, and the bound is kept.
   */
  function Release(p: Pool, c: Option<Conn>): (r: Pool)
    ensures Bounded(p) ==> Bounded(r)
    ensures r.created == p.created
    ensures c.None? ==> r == p
    ensures c.Some? ==> |r.idle| + |r.disposed| == |p.idle| + |p.disposed| + 1
    ensures c.Some? ==> (r.idle == p.idle + [c.value] && r.disposed == p.disposed)
                        != (r.idle == p.idle && r.disposed == p.disposed + [c.value])
  {
    match c
    case None => p
    case Some(conn) =>
      if |p.idle| < MAX_POOL_SIZE then p.(idle := p.idle + [conn])
      else p.(disposed := p.disposed + [conn])
  }

  /** Whether `getconnection` yields a connection. */
  predicate Connects(p: Pool, connectOk: bool)
  {
    Acquire(p, connectOk).conn.Some?
  }

  /** The pool after a caller acquires a connection and releases whatever it got. */
  function RoundTrip(p: Pool, connectOk: bool): Pool
  {
    var a := Acquire(p, connectOk);
    Release(a.pool, a.conn)
  }

  /** Neither operation lets the idle list grow past MAX_POOL_SIZE. */
  lemma PoolStaysBounded(p: Pool, connectOk: bool, c: Option<Conn>)
    requires Bounded(p)
    ensures Bounded(Acquire(p, connectOk).pool)
    ensures Bounded(Release(p, c))
  {
  }

  /** A non-empty pool hands out its last connection, shrinks by one and creates nothing. */
  lemma AcquireReusesLast(p: Pool, connectOk: bool)
    requires p.idle != []
    ensures Acquire(p, connectOk).conn == Some(p.idle[|p.idle| - 1])
    ensures Acquire(p, connectOk).pool.idle + [p.idle[|p.idle| - 1]] == p.idle
    ensures Acquire(p, connectOk).pool.created == p.created
  {
  }

  /** An empty pool whose engine cannot be created hands out nothing and is unchanged. */
  lemma FailedCreationChangesNothing(p: Pool)
    requires p.idle == []
    ensures Acquire(p, false) == Acquisition(None, p)
  {
  }

  /** Released into a pool with room, a connection is appended and nothing else moves. */
  lemma ReleaseAppends(p: Pool, c: Conn)
    requires |p.idle| < MAX_POOL_SIZE
    ensures Release(p, Some(c)) == Pool(p.idle + [c], p.created, p.disposed)
  {
  }

  /** Released into a full pool, a connection is disposed of and the idle list is unchanged. */
  lemma ReleaseIntoFullPoolDisposes(p: Pool, c: Conn)
    requires |p.idle| >= MAX_POOL_SIZE
    ensures Release(p, Some(c)) == Pool(p.idle, p.created, p.disposed + [c])
  {
  }

  /** Releasing None changes nothing. */
  lemma ReleaseNoneChangesNothing(p: Pool)
    ensures Release(p, None) == p
  {
  }

  /** LIFO reuse: the connection just released into a pool with room is the very next one handed out, with no engine created. */
  lemma ReleaseThenAcquire(p: Pool, c: Conn, connectOk: bool)
    requires |p.idle| < MAX_POOL_SIZE
    ensures Acquire(Release(p, Some(c)), connectOk) == Acquisition(Some(c), p)
  {
    assert (p.idle + [c])[..|p.idle|] == p.idle;
  }

  /**
   * A caller that gives back what it took leaves a non-empty pool as it
   * was; from an empty pool it leaves exactly the engine it created, if any.
   */
  lemma RoundTripReturnsConnection(p: Pool, connectOk: bool)
    requires Bounded(p)
    ensures p.idle != [] ==> RoundTrip(p, connectOk) == p
    ensures p.idle == [] && connectOk ==> RoundTrip(p, connectOk) == Pool([Conn(p.created)], p.created + 1, p.disposed)
    ensures p.idle == [] && !connectOk ==> RoundTrip(p, connectOk) == p
  {
    if p.idle != [] {
      assert p.idle[..|p.idle| - 1] + [p.idle[|p.idle| - 1]] == p.idle;
    }
  }

  class ConnectionPool {
    var idle: seq<Conn>
    var created: nat
    var disposed: seq<Conn>

    function State(): Pool
      reads this
    {
      Pool(idle, created, disposed)
    }

    ghost predicate Valid()
      reads this
    {
      Bounded(State())
    }

    constructor ()
      ensures Valid() && State() == Pool([], 0, [])
    {
      idle, created, disposed := [], 0, [];
    }

    /** `getconnection`: pop the last idle connection, else try to create an engine. */
    method GetConnection(connectOk: bool) returns (c: Option<Conn>)
      requires Valid()
      modifies this
      ensures Valid()
      ensures Acquisition(c, State()) == Acquire(old(State()), connectOk)
    {
      if idle != [] {
        c := Some(idle[|idle| - 1]);
        idle := idle[..|idle| - 1];
      } else if connectOk {
        c := Some(Conn(created));
        created := created + 1;
      } else {
        c := None;
      }
    }

    /** `release_connection`: keep the connection while there is room, else dispose of it. */
    method ReleaseConnection(c: Option<Conn>)
      requires Valid()
      modifies this
      ensures Valid()
      ensures State() == Release(old(State()), c)
    {
      if c.Some? {
        if |idle| < MAX_POOL_SIZE {
          idle := idle + [c.value];
        } else {
          disposed := disposed + [c.value];
        }
      }
    }
  }
}
