/** Programs built from nested `with connection():` and `with transaction():`
    blocks around executor calls, run over the one shared database context.
    The lemmas say what nesting guarantees: inner scopes never commit, close
    or clean up; the outermost transaction commits or rolls back once; every
    connection opened from an uninitialised context is closed again. */
module Nesting {
  import opened Outcomes
  import opened DbContext

  /** One statement of a program using the database module. */
  datatype Stmt =
    | Query                           // a `select`, `select_one` or `select_int` call
    | Change                          // an `update` or `insert` call
    | Fail                            // application code raising an exception
    | ConnectionBlock(body: seq<Stmt>)
    | TransactionBlock(body: seq<Stmt>)
    | Catch(body: seq<Stmt>)          // `try: ... except Exception: pass` around the body

  /** Statements in order; the first exception stops the sequence. */
  function Run(ss: seq<Stmt>, ctx: Ctx, phys: Physical): Step
    decreases ss
  {
    if |ss| == 0 then Done(ctx)
    else
      var a := RunOne(ss[0], ctx, phys);
      if a.result.Err? then a
      else
        var b := Run(ss[1..], a.ctx, phys);
        Call(b.ctx, a.events + b.events, b.result)
  }

  /** One statement; a block's exit runs whatever its body did, and learns
      whether an exception is pending. */
  function RunOne(s: Stmt, ctx: Ctx, phys: Physical): Step
    decreases s
  {
    match s
    case Query => Execute(ctx, phys, false, Ok(()))
    case Change => Execute(ctx, phys, true, Ok(()))
    case Fail => Call(ctx, [], Err(Application))
    case ConnectionBlock(body) =>
      var e := ConnEnter(ctx);
      var b := Run(body, e.ctx, phys);
      Then(b, ConnExit(b.ctx, e.owns))
    case TransactionBlock(body) =>
      var e := TxEnter(ctx);
      var b := Run(body, e.ctx, phys);
      Then(b, TxExit(b.ctx, e.owns, b.result.Err?, phys))
    case Catch(body) =>
      var b := Run(body, ctx, phys);
      Call(b.ctx, b.events, Ok(()))
  }

  /** What running inside an open transaction may do: keep the context
      initialised at the same depth, open the connection at most once, and
      issue nothing else; only application exceptions escape. */
  predicate InsideTransaction(ctx: Ctx, r: Step) {
    && r.ctx.depth == ctx.depth
    && r.ctx.conn.Some?
    && (ctx.conn == Some(Opened) ==> r.ctx.conn == Some(Opened))
    && r.events == (if ctx.conn == Some(Unopened) && r.ctx.conn == Some(Opened) then [Open] else [])
    && (r.result.Err? ==> r.result.error == Application)
  }

  lemma {:induction false} RunInsideTransaction(ss: seq<Stmt>, ctx: Ctx, phys: Physical)
    requires ctx.conn.Some? && ctx.depth >= 1
    ensures InsideTransaction(ctx, Run(ss, ctx, phys))
    decreases ss
  {
    if |ss| > 0 {
      var a := RunOne(ss[0], ctx, phys);
      RunOneInsideTransaction(ss[0], ctx, phys);
      assert a.ctx.conn.Some? && (ctx.conn == Some(Opened) ==> a.ctx.conn == Some(Opened));
      if a.result.Ok? {
        var b := Run(ss[1..], a.ctx, phys);
        RunInsideTransaction(ss[1..], a.ctx, phys);
        if a.ctx.conn == Some(Opened) {
          assert a.events + b.events == a.events;
        } else {
          assert a.ctx.conn.value == Unopened && ctx.conn.value == Unopened;
          assert a.events == [];
          assert a.events + b.events == b.events;
        }
      }
    }
  }

  lemma {:induction false} RunOneInsideTransaction(s: Stmt, ctx: Ctx, phys: Physical)
    requires ctx.conn.Some? && ctx.depth >= 1
    ensures InsideTransaction(ctx, RunOne(s, ctx, phys))
    decreases s
  {
    match s
    case Query =>
    case Change =>
    case Fail =>
    case ConnectionBlock(body) =>
      RunInsideTransaction(body, ctx, phys);
    case TransactionBlock(body) =>
      RunInsideTransaction(body, ctx.(depth := ctx.depth + 1), phys);
    case Catch(body) =>
      RunInsideTransaction(body, ctx, phys);
  }

  /** What running in an initialised context at any depth may do: keep it
      initialised at the same depth and never close the connection (only the
      scope that initialised the context does), opening it at most once. */
  predicate StaysInitialised(ctx: Ctx, r: Step) {
    && r.ctx.depth == ctx.depth
    && r.ctx.conn.Some?
    && (ctx.conn == Some(Opened) ==> r.ctx.conn == Some(Opened))
    && Close !in r.events
    && Occurrences(r.events, Open) == (if ctx.conn == Some(Unopened) && r.ctx.conn == Some(Opened) then 1 else 0)
  }

  lemma {:induction false} OccurrencesAbsent(evs: seq<Event>, e: Event)
    requires e !in evs
    ensures Occurrences(evs, e) == 0
    decreases |evs|
  {
    if |evs| > 0 {
      assert evs[0] != e;
      assert e !in evs[1..];
      OccurrencesAbsent(evs[1..], e);
    }
  }

  lemma {:induction false} RunInitialised(ss: seq<Stmt>, ctx: Ctx, phys: Physical)
    requires ctx.conn.Some?
    ensures StaysInitialised(ctx, Run(ss, ctx, phys))
    decreases ss
  {
    if |ss| == 0 {
      assert Occurrences([], Open) == 0;
    } else {
      var a := RunOne(ss[0], ctx, phys);
      RunOneInitialised(ss[0], ctx, phys);
      assert a.ctx.conn.Some? && (ctx.conn == Some(Opened) ==> a.ctx.conn == Some(Opened));
      if a.result.Ok? {
        var b := Run(ss[1..], a.ctx, phys);
        RunInitialised(ss[1..], a.ctx, phys);
        OccurrencesConcat(a.events, b.events, Open);
        if a.ctx.conn == Some(Opened) {
          assert Occurrences(b.events, Open) == 0;
        } else {
          assert a.ctx.conn.value == Unopened && ctx.conn.value == Unopened;
          assert Occurrences(a.events, Open) == 0;
        }
      }
    }
  }

  lemma {:induction false} RunOneInitialised(s: Stmt, ctx: Ctx, phys: Physical)
    requires ctx.conn.Some?
    ensures StaysInitialised(ctx, RunOne(s, ctx, phys))
    decreases s
  {
    var r := RunOne(s, ctx, phys);
    match s
    case Query =>
      assert Occurrences([Open], Open) == 1;
      assert Occurrences([], Open) == 0;
    case Change =>
      assert Occurrences([Open, Commit], Open) == 1;
      assert Occurrences([Open], Open) == 1;
      assert Occurrences([Commit], Open) == 0;
      assert Occurrences([], Open) == 0;
    case Fail =>
      assert Occurrences([], Open) == 0;
    case ConnectionBlock(body) =>
      var b := Run(body, ctx, phys);
      RunInitialised(body, ctx, phys);
      assert r.events == b.events + [] == b.events;
    case TransactionBlock(body) =>
      var inner := ctx.(depth := ctx.depth + 1);
      var b := Run(body, inner, phys);
      RunInitialised(body, inner, phys);
      var x := TxExit(b.ctx, false, b.result.Err?, phys);
      OccurrencesAbsent(x.events, Open);
      OccurrencesConcat(b.events, x.events, Open);
    case Catch(body) =>
      RunInitialised(body, ctx, phys);
  }

  /** From an uninitialised context every statement leaves the context
      uninitialised again, and every connection it opened has been closed. */
  lemma {:induction false} RunFromFresh(ss: seq<Stmt>, phys: Physical)
    ensures Run(ss, Fresh, phys).ctx == Fresh
    ensures Occurrences(Run(ss, Fresh, phys).events, Open) == Occurrences(Run(ss, Fresh, phys).events, Close)
    decreases ss
  {
    if |ss| == 0 {
      assert Occurrences([], Open) == 0 == Occurrences([], Close);
    } else {
      var a := RunOne(ss[0], Fresh, phys);
      RunOneFromFresh(ss[0], phys);
      if a.result.Ok? {
        var b := Run(ss[1..], Fresh, phys);
        RunFromFresh(ss[1..], phys);
        OccurrencesConcat(a.events, b.events, Open);
        OccurrencesConcat(a.events, b.events, Close);
      }
    }
  }

  lemma {:induction false} RunOneFromFresh(s: Stmt, phys: Physical)
    ensures RunOne(s, Fresh, phys).ctx == Fresh
    ensures Occurrences(RunOne(s, Fresh, phys).events, Open) == Occurrences(RunOne(s, Fresh, phys).events, Close)
    decreases s
  {
    var r := RunOne(s, Fresh, phys);
    match s
    case Query =>
      assert r.events == [Open, Close];
      assert Occurrences([Open, Close], Open) == 1 == Occurrences([Open, Close], Close);
    case Change =>
      assert r.events == [Open, Commit, Close];
      assert Occurrences([Open, Commit, Close], Open) == 1 == Occurrences([Open, Commit, Close], Close);
    case Fail =>
      assert Occurrences([], Open) == 0 == Occurrences([], Close);
    case ConnectionBlock(body) =>
      ConnectionFromFresh(body, phys);
    case TransactionBlock(body) =>
      TransactionFromFresh(body, phys);
    case Catch(body) =>
      RunFromFresh(body, phys);
  }

  lemma ConnectionFromFresh(body: seq<Stmt>, phys: Physical)
    ensures RunOne(ConnectionBlock(body), Fresh, phys).ctx == Fresh
    ensures Occurrences(RunOne(ConnectionBlock(body), Fresh, phys).events, Open)
            == Occurrences(RunOne(ConnectionBlock(body), Fresh, phys).events, Close)
  {
    var start := Ctx(Some(Unopened), 0);
    var b := Run(body, start, phys);
    RunInitialised(body, start, phys);
    var x := ConnExit(b.ctx, true);
    OccurrencesAbsent(b.events, Close);
    OccurrencesConcat(b.events, x.events, Open);
    OccurrencesConcat(b.events, x.events, Close);
    assert Occurrences([Close], Close) == 1 && Occurrences([Close], Open) == 0;
    assert Occurrences([], Close) == 0 && Occurrences([], Open) == 0;
  }

  lemma TransactionFromFresh(body: seq<Stmt>, phys: Physical)
    ensures RunOne(TransactionBlock(body), Fresh, phys).ctx == Fresh
    ensures Occurrences(RunOne(TransactionBlock(body), Fresh, phys).events, Open)
            == Occurrences(RunOne(TransactionBlock(body), Fresh, phys).events, Close)
  {
    var start := Ctx(Some(Unopened), 1);
    assert TxEnter(Fresh) == Entered(start, true);
    var b := Run(body, start, phys);
    RunInsideTransaction(body, start, phys);
    var x := TxExit(b.ctx, true, b.result.Err?, phys);
    assert RunOne(TransactionBlock(body), Fresh, phys) == Then(b, x);
    assert x.ctx == Fresh;
    OccurrencesAbsent(x.events, Open);
    OccurrencesConcat(b.events, x.events, Open);
    OccurrencesConcat(b.events, x.events, Close);
    assert Occurrences([Open], Open) == 1 && Occurrences([Open], Close) == 0;
    assert Occurrences([], Close) == 0 && Occurrences([], Open) == 0;
  }

  /** The outermost transaction on a reliable driver: if its body used the
      connection, the connection is opened once, then committed when the body
      returned normally or rolled back when it raised, then closed, and the
      body's outcome is the block's; if the body never used it, the exit
      raises AttributeError from the never-created driver connection. */
  lemma OutermostTransaction(body: seq<Stmt>)
    ensures var b := Run(body, Ctx(Some(Unopened), 1), Reliable);
            var r := RunOne(TransactionBlock(body), Fresh, Reliable);
            && r.ctx == Fresh
            && (b.ctx.conn == Some(Opened) ==>
                  r.events == [Open, if b.result.Ok? then Commit else Rollback, Close] && r.result == b.result)
            && (b.ctx.conn == Some(Unopened) ==>
                  r.events == [] && r.result == Err(AttributeMissing("NoneType", "rollback")))
  {
    RunInsideTransaction(body, Ctx(Some(Unopened), 1), Reliable);
  }

  /** The outermost transaction inside a connection block (an initialised
      context at depth 0), on a reliable driver: it does not own the
      connection, so it never closes it. If its body used the connection, it
      issues the body's Open (when the connection was opened there) and then
      exactly one Commit when the body returned normally or one Rollback when
      it raised, and the body's outcome stands. If the body never used it, the
      exit raises AttributeError from the never-created driver connection. */
  lemma TransactionInsideConnection(body: seq<Stmt>, ctx: Ctx)
    requires ctx.conn.Some? && ctx.depth == 0
    ensures var b := Run(body, ctx.(depth := 1), Reliable);
            var r := RunOne(TransactionBlock(body), ctx, Reliable);
            && r.ctx.depth == 0 && r.ctx.conn == b.ctx.conn
            && Close !in r.events
            && (b.ctx.conn == Some(Opened) ==>
                  r.events == (if ctx.conn == Some(Unopened) then [Open] else [])
                              + [if b.result.Ok? then Commit else Rollback]
                  && r.result == b.result)
            && (b.ctx.conn == Some(Unopened) ==>
                  r.events == [] && r.result == Err(AttributeMissing("NoneType", "rollback")))
  {
    RunInsideTransaction(body, ctx.(depth := 1), Reliable);
  }

  /** An exception in a nested transaction rolls back the outer one, update
      included, and still reaches the caller. */
  lemma NestedFailureRollsBack()
    ensures RunOne(TransactionBlock([Change, TransactionBlock([Fail])]), Fresh, Reliable)
            == Call(Fresh, [Open, Rollback, Close], Err(Application))
  {
    OutermostTransaction([Change, TransactionBlock([Fail])]);
  }

  /** Transactions nest flat: when application code catches the exception
      of an inner transaction, the inner exit has rolled nothing back, so the
      outer transaction commits the inner update along with its own. */
  lemma CaughtInnerFailureCommits()
    ensures RunOne(TransactionBlock([Change, Catch([TransactionBlock([Change, Fail])])]), Fresh, Reliable)
            == Call(Fresh, [Open, Commit, Close], Ok(()))
  {
    OutermostTransaction([Change, Catch([TransactionBlock([Change, Fail])])]);
  }

  /** Outside any transaction every update commits at once. */
  lemma UpdatesCommitOutsideTransactions()
    ensures RunOne(ConnectionBlock([Change, Change]), Fresh, Reliable)
            == Call(Fresh, [Open, Commit, Commit, Close], Ok(()))
  {
  }
}
