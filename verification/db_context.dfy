/** The per-thread database context of the transwarp `db` module: the lazy
    connection (`_LasyConnection`), the context holding it with a transaction
    depth (`_DbCtx`), and the enter/exit steps of the connection scope
    (`_ConnectionCtx`) and of the transaction scope (`_TransactionCtx`).

    The thread-local context becomes an explicit `Ctx` value; every step
    returns the new context, the physical events it issued on the driver
    connection, and what it returned or raised. */
module DbContext {
  import opened Outcomes

  /** A physical operation on the driver connection, in the order issued. */
  datatype Event = Open | Commit | Rollback | Close

  /** The exceptions raised by the database layer or passing through it. */
  datatype DbError =
    | AttributeMissing(owner: string, attr: string)  // AttributeError: '<owner>' object has no attribute '<attr>'
    | DriverFailure(op: Event)                        // an error raised by the driver connection's `op`
    | Application                                     // an exception raised by the caller's own code
    | MultiColumns                                    // MultiColumnsError('Expect only one column')
    | NoLength                                        // TypeError: object of type 'NoneType' has no len()
    | Unbound(name: string)                           // UnboundLocalError on a local never assigned
    | Unpack                                          // ValueError: need more than 0 values to unpack
    | AlreadyInitialized                              // DBError('Engine is already initialized.')

  /** Whether the driver connection's `commit` and `rollback` raise. */
  datatype Physical = Physical(commitFails: bool, rollbackFails: bool)

  const Reliable := Physical(false, false)

  /** The events and the exception, if any, of one call. */
  datatype Effect = Effect(events: seq<Event>, raised: Option<DbError>)

  /** `_LasyConnection`: its driver handle stays `None` until the first cursor. */
  datatype Lazy = Unopened | Opened

  /** `_LasyConnection.cursor`: connects on first use, reuses the handle after. */
  function LazyCursor(l: Lazy): (Lazy, seq<Event>) {
    match l
    case Unopened => (Opened, [Open])
    case Opened => (Opened, [])
  }

  /** `_LasyConnection.commit`: on a never-opened connection the handle is
      `None`, so the call raises AttributeError. */
  function LazyCommit(l: Lazy, phys: Physical): Effect {
    match l
    case Unopened => Effect([], Some(AttributeMissing("NoneType", "commit")))
    case Opened => Effect([Commit], if phys.commitFails then Some(DriverFailure(Commit)) else None)
  }

  /** A rollback on the lazy connection. `defined` tells whether
      `_LasyConnection` has a `rollback` method: the source defines none, so
      every call raises AttributeError; the intended method delegates to the
      driver handle like `commit` does. */
  function LazyRollbackWith(l: Lazy, phys: Physical, defined: bool): Effect {
    if !defined then Effect([], Some(AttributeMissing("_LasyConnection", "rollback")))
    else match l
      case Unopened => Effect([], Some(AttributeMissing("NoneType", "rollback")))
      case Opened => Effect([Rollback], if phys.rollbackFails then Some(DriverFailure(Rollback)) else None)
  }

  /** `_LasyConnection.cleanup`: closes and forgets an open handle. */
  function LazyCleanup(l: Lazy): (Lazy, seq<Event>) {
    match l
    case Opened => (Unopened, [Close])
    case Unopened => (Unopened, [])
  }

  /** `k` successive `cursor()` calls. */
  function Cursors(l: Lazy, k: nat): (Lazy, seq<Event>)
    decreases k
  {
    if k == 0 then (l, [])
    else
      var first := LazyCursor(l);
      var rest := Cursors(first.0, k - 1);
      (rest.0, first.1 + rest.1)
  }

  /** However many cursors are taken, the driver connection is opened once,
      by the first of them, and only if it was not open already. */
  lemma {:induction false} CursorsOpenOnce(l: Lazy, k: nat)
    ensures k > 0 ==> Cursors(l, k).0 == Opened
    ensures Cursors(l, k).1 == (if k > 0 && l == Unopened then [Open] else [])
    decreases k
  {
    if k > 0 {
      CursorsOpenOnce(Opened, k - 1);
    }
  }

  /** `cleanup` closes an open handle exactly once; a second call does nothing. */
  lemma CleanupIdempotent(l: Lazy)
    ensures LazyCleanup(l).0 == Unopened
    ensures LazyCleanup(l).1 == (if l == Opened then [Close] else [])
    ensures LazyCleanup(LazyCleanup(l).0) == (Unopened, [])
  {
  }

  /** `_DbCtx`: the lazy connection (absent when uninitialised) and the
      transaction depth. */
  datatype Ctx = Ctx(conn: Option<Lazy>, depth: int)

  /** The context as `_DbCtx.__init__` leaves it. */
  const Fresh := Ctx(None, 0)

  /** `_DbCtx.is_init`. */
  predicate IsInit(ctx: Ctx) {
    ctx.conn.Some?
  }

  /** The new context, the events issued and the value returned or the
      exception raised. */
  datatype Call<+T> = Call(ctx: Ctx, events: seq<Event>, result: Result<T, DbError>)

  type Step = Call<()>

  function Done(ctx: Ctx): Step {
    Call(ctx, [], Ok(()))
  }

  function Raise(ctx: Ctx, events: seq<Event>, raised: Option<DbError>): Step {
    Call(ctx, events, if raised.Some? then Err(raised.value) else Ok(()))
  }

  /** A `with` block's exit after its body: an exception raised by the exit
      replaces the body's outcome; otherwise the body's outcome stands. */
  function Then<T>(body: Call<T>, exit: Step): Call<T> {
    Call(exit.ctx, body.events + exit.events,
         if exit.result.Err? then Err(exit.result.error) else body.result)
  }

  /** How many times `e` occurs in a trace. */
  function Occurrences(evs: seq<Event>, e: Event): nat {
    if |evs| == 0 then 0
    else (if evs[0] == e then 1 else 0) + Occurrences(evs[1..], e)
  }

  lemma {:induction false} OccurrencesConcat(a: seq<Event>, b: seq<Event>, e: Event)
    ensures Occurrences(a + b, e) == Occurrences(a, e) + Occurrences(b, e)
    decreases |a|
  {
    if |a| == 0 {
      assert a + b == b;
    } else {
      assert (a + b)[1..] == a[1..] + b;
      OccurrencesConcat(a[1..], b, e);
    }
  }

  /** `_DbCtx.cleanup`: cleans up the lazy connection and uninitialises the
      context; the depth is left as it is. */
  function DbCleanup(ctx: Ctx): (r: Step)
    ensures ctx.conn.Some? ==> r == Call(Ctx(None, ctx.depth), if ctx.conn.value == Opened then [Close] else [], Ok(()))
  {
    match ctx.conn
    case None => Call(ctx, [], Err(AttributeMissing("NoneType", "cleanup")))
    case Some(l) => Call(ctx.(conn := None), LazyCleanup(l).1, Ok(()))
  }

  /** The context after a scope's `__enter__`, and whether that scope
      initialised it (`should_cleanup` / `should_close_conn`). */
  datatype Entered = Entered(ctx: Ctx, owns: bool)

  /** `_ConnectionCtx.__enter__`: initialises the context only when it is not
      initialised yet, and then takes ownership of it. */
  function ConnEnter(ctx: Ctx): (r: Entered)
    ensures r.owns <==> !IsInit(ctx)
    ensures r.owns ==> r.ctx == Ctx(Some(Unopened), 0)
    ensures !r.owns ==> r.ctx == ctx
  {
    if IsInit(ctx) then Entered(ctx, false) else Entered(Ctx(Some(Unopened), 0), true)
  }

  /** `_ConnectionCtx.__exit__`: only the owning scope cleans up. */
  function ConnExit(ctx: Ctx, owns: bool): (r: Step)
    ensures !owns ==> r == Done(ctx)
    ensures owns && IsInit(ctx) ==> r.ctx == Ctx(None, ctx.depth) && r.result.Ok?
    ensures owns && IsInit(ctx) ==> r.events == (if ctx.conn.value == Opened then [Close] else [])
  {
    if owns then DbCleanup(ctx) else Done(ctx)
  }

  /** Entering then leaving a connection scope with nothing in between leaves
      an initialised context as it was and an uninitialised one uninitialised,
      with no physical event. */
  lemma ConnScopeRestores(ctx: Ctx)
    ensures var e := ConnEnter(ctx);
            var x := ConnExit(e.ctx, e.owns);
            x.events == [] && x.result.Ok? && (IsInit(ctx) ==> x.ctx == ctx) && (!IsInit(ctx) ==> x.ctx == Fresh)
  {
  }

  /** `_TransactionCtx.__enter__`: like the connection scope, then one level
      deeper. */
  function TxEnter(ctx: Ctx): (r: Entered)
    ensures r.owns <==> !IsInit(ctx)
    ensures r.owns ==> r.ctx == Ctx(Some(Unopened), 1)
    ensures !r.owns ==> r.ctx == ctx.(depth := ctx.depth + 1)
  {
    var e := ConnEnter(ctx);
    Entered(e.ctx.(depth := e.ctx.depth + 1), e.owns)
  }

  /** `_TransactionCtx.commit`: commit; if that raises, attempt a rollback
      and re-raise the commit's exception (unless the rollback raised). */
  function TxCommitWith(ctx: Ctx, phys: Physical, defined: bool): Effect {
    match ctx.conn
    case None => Effect([], Some(AttributeMissing("NoneType", "rollback")))
    case Some(l) =>
      var c := LazyCommit(l, phys);
      if c.raised.None? then c
      else
        var r := LazyRollbackWith(l, phys, defined);
        Effect(c.events + r.events, if r.raised.Some? then r.raised else c.raised)
  }

  /** `_TransactionCtx.rollback`. */
  function TxRollbackWith(ctx: Ctx, phys: Physical, defined: bool): Effect {
    match ctx.conn
    case None => Effect([], Some(AttributeMissing("NoneType", "rollback")))
    case Some(l) => LazyRollbackWith(l, phys, defined)
  }

  /** `_TransactionCtx.__exit__` with or without a `rollback` method on the
      lazy connection: one level up; at depth 0 commit, or roll back when an
      exception is pending; then, in a `finally`, the owning scope cleans up. */
  function TxExitWith(ctx: Ctx, owns: bool, pending: bool, phys: Physical, defined: bool): Step {
    var c := ctx.(depth := ctx.depth - 1);
    var decided :=
      if c.depth != 0 then Effect([], None)
      else if pending then TxRollbackWith(c, phys, defined)
      else TxCommitWith(c, phys, defined);
    var body := Raise(c, decided.events, decided.raised);
    if owns then Then(body, DbCleanup(c)) else body
  }

  /** `_TransactionCtx.__exit__` with the lazy connection's `rollback`
      delegating to the driver, as the rest of the model uses it. */
  function TxExit(ctx: Ctx, owns: bool, pending: bool, phys: Physical): (r: Step)
    ensures r.ctx.depth == ctx.depth - 1
    ensures owns && IsInit(ctx) ==> r.ctx.conn.None?
    ensures !owns ==> r.ctx.conn == ctx.conn
    // inner exits: only the depth changes
    ensures ctx.depth != 1 && !owns ==> r == Done(ctx.(depth := ctx.depth - 1))
    ensures ctx.depth != 1 ==> Commit !in r.events && Rollback !in r.events
    // the outermost exit decides, on an opened connection, by the pending exception
    ensures ctx.depth == 1 && ctx.conn == Some(Opened) && !pending && !phys.commitFails ==>
              r.events == [Commit] + (if owns then [Close] else []) && r.result.Ok?
    ensures ctx.depth == 1 && ctx.conn == Some(Opened) && pending && !phys.rollbackFails ==>
              r.events == [Rollback] + (if owns then [Close] else []) && r.result.Ok?
    // a failing commit is followed by a rollback and the commit's error is re-raised
    ensures ctx.depth == 1 && ctx.conn == Some(Opened) && !pending && phys.commitFails && !phys.rollbackFails ==>
              r.events == [Commit, Rollback] + (if owns then [Close] else []) && r.result == Err(DriverFailure(Commit))
    // a rollback that fails replaces the exception it was handling
    ensures ctx.depth == 1 && ctx.conn == Some(Opened) && !pending && phys.commitFails && phys.rollbackFails ==>
              r.events == [Commit, Rollback] + (if owns then [Close] else []) && r.result == Err(DriverFailure(Rollback))
    ensures ctx.depth == 1 && ctx.conn == Some(Opened) && pending && phys.rollbackFails ==>
              r.events == [Rollback] + (if owns then [Close] else []) && r.result == Err(DriverFailure(Rollback))
    // on a never-opened connection both commit and rollback raise
    ensures ctx.depth == 1 && ctx.conn == Some(Unopened) ==>
              r.events == [] && r.result == Err(AttributeMissing("NoneType", "rollback"))
    ensures Open !in r.events
    ensures Occurrences(r.events, Close) == (if owns && ctx.conn == Some(Opened) then 1 else 0)
  {
    var r := TxExitWith(ctx, owns, pending, phys, true);
    assert Occurrences([Close], Close) == 1;
    assert Occurrences([Commit, Close], Close) == 1;
    assert Occurrences([Rollback, Close], Close) == 1;
    assert Occurrences([Commit, Rollback, Close], Close) == 1;
    r
  }

  /** `_TransactionCtx.__exit__` exactly as the source has it: the lazy
      connection defines no `rollback`. */
  function TxExitAsWritten(ctx: Ctx, owns: bool, pending: bool, phys: Physical): Step {
    TxExitWith(ctx, owns, pending, phys, false)
  }

  /** As written, a transaction is never rolled back: where the rollback
      belongs, AttributeError replaces the pending exception, and a failing
      commit's error is replaced the same way. */
  lemma AsWrittenNeverRollsBack(ctx: Ctx, owns: bool, pending: bool, phys: Physical)
    ensures Rollback !in TxExitAsWritten(ctx, owns, pending, phys).events
    ensures ctx.depth == 1 && ctx.conn.Some? && pending ==>
              TxExitAsWritten(ctx, owns, pending, phys).result == Err(AttributeMissing("_LasyConnection", "rollback"))
    ensures ctx.depth == 1 && ctx.conn == Some(Opened) && !pending && phys.commitFails ==>
              TxExitAsWritten(ctx, owns, pending, phys).result == Err(AttributeMissing("_LasyConnection", "rollback"))
  {
  }

  /** The discrepancy on one input: leaving the only transaction with an
      exception pending on an opened connection. */
  lemma RollbackMissingCounterexample()
    ensures TxExitAsWritten(Ctx(Some(Opened), 1), true, true, Reliable)
            == Call(Fresh, [Close], Err(AttributeMissing("_LasyConnection", "rollback")))
    ensures TxExit(Ctx(Some(Opened), 1), true, true, Reliable)
            == Call(Fresh, [Rollback, Close], Ok(()))
  {
  }

  /** A `with_connection` executor call (`_select`, `_update`): enter a
      connection scope, take a cursor, commit at once when `autoCommit` and
      the depth is 0, and leave the scope. `outcome` is what the call returns
      when nothing above it raised. */
  function Execute<T>(ctx: Ctx, phys: Physical, autoCommit: bool, outcome: Result<T, DbError>): (r: Call<T>)
    ensures !IsInit(ctx) ==> r.ctx == Fresh
    ensures IsInit(ctx) ==> r.ctx == Ctx(Some(Opened), ctx.depth)
    ensures (Commit in r.events) <==> autoCommit && (!IsInit(ctx) || ctx.depth == 0)
    ensures Rollback !in r.events
    ensures !(autoCommit && phys.commitFails && (!IsInit(ctx) || ctx.depth == 0)) ==> r.result == outcome
    ensures autoCommit && phys.commitFails && (!IsInit(ctx) || ctx.depth == 0) ==> r.result == Err(DriverFailure(Commit))
    ensures !IsInit(ctx) ==> r.events == [Open] + (if autoCommit then [Commit] else []) + [Close]
    ensures IsInit(ctx) ==>
              r.events == (if ctx.conn == Some(Unopened) then [Open] else [])
                          + (if autoCommit && ctx.depth == 0 then [Commit] else [])
  {
    var e := ConnEnter(ctx);
    match e.ctx.conn
    case None => Call(e.ctx, [], Err(AttributeMissing("NoneType", "cursor")))
    case Some(l) =>
      // `_db_ctx.connection.cursor()`, then `_db_ctx.connection.commit()` in `_update`
      var cur := LazyCursor(l);
      var c := e.ctx.(conn := Some(cur.0));
      var body: Call<T> :=
        if autoCommit && c.depth == 0 then
          var k := LazyCommit(cur.0, phys);
          Call(c, cur.1 + k.events, if k.raised.Some? then Err(k.raised.value) else outcome)
        else Call(c, cur.1, outcome);
      Then(body, ConnExit(c, e.owns))
  }
}
