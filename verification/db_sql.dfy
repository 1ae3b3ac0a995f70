/** The SQL helper layer of the transwarp `db` module: placeholder rewriting,
    INSERT text, row dictionaries (`Dict`), the result shaping of `select_one`,
    `select` and `select_int`, the auto-commit rule of `_update`, the `next_id`
    format and the `create_engine` guard.

    The driver cursor is abstracted as its column names and its rows. */
module SqlHelpers {
  import opened Outcomes
  import opened Values
  import opened Text
  import opened DbContext

  // ---------------------------------------------------------------------
  // Placeholders
  // ---------------------------------------------------------------------

  /** `sql.replace('?', '%s')`: the neutral placeholder becomes the driver's. */
  function DriverSql(sql: string): (r: string)
    ensures '?' !in r
    ensures |r| == |sql| + Count(sql, '?')
    decreases |sql|
  {
    if |sql| == 0 then ""
    else (if sql[0] == '?' then "%s" else [sql[0]]) + DriverSql(sql[1..])
  }

  /** Reads driver placeholders back as neutral ones, left to right. */
  function NeutralSql(s: string): string
    decreases |s|
  {
    if |s| == 0 then ""
    else if |s| >= 2 && s[0] == '%' && s[1] == 's' then "?" + NeutralSql(s[2..])
    else [s[0]] + NeutralSql(s[1..])
  }

  /** The driver placeholders in `s`, scanned left to right. */
  function Markers(s: string): nat
    decreases |s|
  {
    if |s| == 0 then 0
    else if |s| >= 2 && s[0] == '%' && s[1] == 's' then 1 + Markers(s[2..])
    else Markers(s[1..])
  }

  /** For SQL without `%`, the rewriting loses nothing, and the driver sees
      exactly one placeholder per neutral one. */
  lemma {:induction false} DriverSqlRoundTrip(sql: string)
    requires '%' !in sql
    ensures NeutralSql(DriverSql(sql)) == sql
    ensures Markers(DriverSql(sql)) == Count(sql, '?')
    decreases |sql|
  {
    if |sql| > 0 {
      var rest := DriverSql(sql[1..]);
      DriverSqlRoundTrip(sql[1..]);
      if sql[0] == '?' {
        assert DriverSql(sql) == "%s" + rest;
        assert ("%s" + rest)[2..] == rest;
      } else {
        assert DriverSql(sql) == [sql[0]] + rest;
        assert ([sql[0]] + rest)[1..] == rest;
        assert [sql[0]] + sql[1..] == sql;
      }
    }
  }

  // ---------------------------------------------------------------------
  // INSERT text
  // ---------------------------------------------------------------------

  /** SQL text with neutral placeholders and its positional arguments. */
  datatype Statement = Statement(sql: string, args: seq<Value>)

  function Quoted(column: string): string {
    "`" + column + "`"
  }

  function QuotedColumns(pairs: seq<(string, Value)>): (r: seq<string>)
    ensures |r| == |pairs|
    ensures forall i :: 0 <= i < |pairs| ==> r[i] == Quoted(pairs[i].0)
  {
    seq(|pairs|, i requires 0 <= i < |pairs| => Quoted(pairs[i].0))
  }

  function Marks(n: nat): (r: seq<string>)
    ensures |r| == n
    ensures forall i :: 0 <= i < n ==> r[i] == "?"
  {
    seq(n, i => "?")
  }

  /** The statement `insert(table, **kw)` hands to `_update`, for the keyword
      pairs in their iteration order. No pairs: unpacking `zip()` raises. */
  function InsertStatement(table: string, pairs: seq<(string, Value)>): (r: Result<Statement, DbError>)
    ensures r.Err? <==> |pairs| == 0
    ensures r.Err? ==> r.error == Unpack
    ensures r.Ok? ==> |r.value.args| == |pairs|
    ensures r.Ok? ==> forall i :: 0 <= i < |pairs| ==> r.value.args[i] == pairs[i].1
  {
    if |pairs| == 0 then Err(Unpack)
    else
      var sql := "insert into `" + table + "` (" + Join(QuotedColumns(pairs), ",")
                 + ") values (" + Join(Marks(|pairs|), ",") + ")";
      Ok(Statement(sql, seq(|pairs|, i requires 0 <= i < |pairs| => pairs[i].1)))
  }

  /** One backquoted column and one placeholder per pair, columns and
      arguments in the same order: when the table and column names hold no
      `?`, the placeholder count equals the argument count. */
  lemma InsertPlaceholders(table: string, pairs: seq<(string, Value)>)
    requires |pairs| > 0
    requires '?' !in table
    requires forall i :: 0 <= i < |pairs| ==> '?' !in pairs[i].0
    ensures InsertStatement(table, pairs).Ok?
    ensures Count(InsertStatement(table, pairs).value.sql, '?') == |InsertStatement(table, pairs).value.args|
  {
    var cols := QuotedColumns(pairs);
    var marks := Marks(|pairs|);
    forall i | 0 <= i < |cols|
      ensures Count(cols[i], '?') == 0
    {
      assert '?' !in cols[i];
      CountAbsent(cols[i], '?');
    }
    forall i | 0 <= i < |marks|
      ensures Count(marks[i], '?') == 1
    {
    }
    CountJoin(cols, ",", '?', 0);
    CountJoin(marks, ",", '?', 1);
    var head := "insert into `" + table + "` (";
    var mid := ") values (";
    CountAbsent(head, '?');
    CountAbsent(mid, '?');
    CountAbsent(")", '?');
    CountConcat(head, Join(cols, ","), '?');
    CountConcat(head + Join(cols, ","), mid, '?');
    CountConcat(head + Join(cols, ",") + mid, Join(marks, ","), '?');
    CountConcat(head + Join(cols, ",") + mid + Join(marks, ","), ")", '?');
    assert InsertStatement(table, pairs).value.sql == head + Join(cols, ",") + mid + Join(marks, ",") + ")";
  }

  /** The column list and the value list of the statement read back: with
      comma-free names, the columns split on ',' into the backquoted names
      in argument order, and the values into one `?` per argument. */
  lemma InsertColumnsReadBack(table: string, pairs: seq<(string, Value)>)
    requires |pairs| > 0
    requires forall i :: 0 <= i < |pairs| ==> ',' !in pairs[i].0
    ensures InsertStatement(table, pairs).Ok?
    ensures exists cols, marks ::
              && InsertStatement(table, pairs).value.sql
                 == "insert into `" + table + "` (" + cols + ") values (" + marks + ")"
              && Split(cols, ',') == QuotedColumns(pairs)
              && Split(marks, ',') == Marks(|pairs|)
  {
    var cols := QuotedColumns(pairs);
    var marks := Marks(|pairs|);
    forall i | 0 <= i < |cols|
      ensures ',' !in cols[i]
    {
      assert cols[i] == "`" + pairs[i].0 + "`";
    }
    SplitJoin(cols, ',');
    SplitJoin(marks, ',');
    assert InsertStatement(table, pairs).value.sql
           == "insert into `" + table + "` (" + Join(cols, ",") + ") values (" + Join(marks, ",") + ")";
  }

  // ---------------------------------------------------------------------
  // Rows and result shaping
  // ---------------------------------------------------------------------

  /** `Dict(names, values)`: pairs up to the shorter of the two; a repeated
      name keeps the value of its last occurrence. */
  type Row = map<string, Value>

  function MinLen(a: nat, b: nat): nat {
    if a < b then a else b
  }

  /** The name/value pairs `Dict` builds, in order, stopping at the shorter
      of the two sequences. */
  function Zip(names: seq<string>, values: seq<Value>): (pairs: seq<(string, Value)>)
    ensures |pairs| == MinLen(|names|, |values|)
    ensures forall i :: 0 <= i < |pairs| ==> pairs[i] == (names[i], values[i])
  {
    seq(MinLen(|names|, |values|), i requires 0 <= i < MinLen(|names|, |values|) => (names[i], values[i]))
  }

  /** The keys named anywhere in `pairs`. */
  function Keys(pairs: seq<(string, Value)>): set<string> {
    set i | 0 <= i < |pairs| :: pairs[i].0
  }

  /** No later pair repeats the key of `pairs[i]`. */
  predicate LastKey(pairs: seq<(string, Value)>, i: int)
    requires 0 <= i < |pairs|
  {
    forall j :: i < j < |pairs| ==> pairs[j].0 != pairs[i].0
  }

  /** Inserting the pairs left to right into an empty dictionary: every key
      named is present and holds the value of its last occurrence. */
  function BuildRow(pairs: seq<(string, Value)>): (r: Row)
    ensures r.Keys == Keys(pairs)
    ensures forall i :: 0 <= i < |pairs| && LastKey(pairs, i) ==> r[pairs[i].0] == pairs[i].1
    decreases |pairs|
  {
    if |pairs| == 0 then map[]
    else
      var n := |pairs|;
      var front := pairs[..n - 1];
      var last := pairs[n - 1];
      var r := BuildRow(front)[last.0 := last.1];
      KeysSnoc(pairs);
      LastKeySnoc(pairs, front, BuildRow(front), r);
      r
  }

  /** The keys of a non-empty list: those of its front and the last one. */
  lemma KeysSnoc(pairs: seq<(string, Value)>)
    requires |pairs| > 0
    ensures Keys(pairs) == Keys(pairs[..|pairs| - 1]) + {pairs[|pairs| - 1].0}
  {
    var n := |pairs|;
    var front := pairs[..n - 1];
    forall k | k in Keys(pairs) ensures k in Keys(front) + {pairs[n - 1].0} {
      var i :| 0 <= i < n && pairs[i].0 == k;
      if i < n - 1 { assert front[i].0 == k; }
    }
    forall k | k in Keys(front) ensures k in Keys(pairs) {
      var i :| 0 <= i < n - 1 && front[i].0 == k;
      assert pairs[i].0 == k;
    }
  }

  /** Adding the last pair to the front's row keeps every last occurrence. */
  lemma LastKeySnoc(pairs: seq<(string, Value)>, front: seq<(string, Value)>, before: Row, r: Row)
    requires |pairs| > 0 && front == pairs[..|pairs| - 1]
    requires forall i :: 0 <= i < |front| && LastKey(front, i) ==> front[i].0 in before && before[front[i].0] == front[i].1
    requires r == before[pairs[|pairs| - 1].0 := pairs[|pairs| - 1].1]
    ensures forall i :: 0 <= i < |pairs| && LastKey(pairs, i) ==> pairs[i].0 in r && r[pairs[i].0] == pairs[i].1
  {
    var n := |pairs|;
    var last := pairs[n - 1];
    forall i | 0 <= i < n && LastKey(pairs, i)
      ensures pairs[i].0 in r && r[pairs[i].0] == pairs[i].1
    {
      if i < n - 1 {
        assert front[i] == pairs[i];
        assert LastKey(front, i);
        assert pairs[i].0 != last.0;
      }
    }
  }

  /** `Dict(names, values)`. */
  function MakeRow(names: seq<string>, values: seq<Value>): (r: Row)
    ensures r.Keys == Keys(Zip(names, values))
    ensures forall i :: 0 <= i < MinLen(|names|, |values|) && LastKey(Zip(names, values), i)
              ==> r[names[i]] == values[i]
  {
    BuildRow(Zip(names, values))
  }

  /** With distinct column names every column reaches the row under its own
      name, and nothing else does. */
  lemma DistinctNamesRow(names: seq<string>, values: seq<Value>)
    requires forall i, j :: 0 <= i < j < |names| ==> names[i] != names[j]
    ensures forall i :: 0 <= i < MinLen(|names|, |values|) ==>
              names[i] in MakeRow(names, values) && MakeRow(names, values)[names[i]] == values[i]
    ensures forall k :: k in MakeRow(names, values) ==>
              exists i :: 0 <= i < MinLen(|names|, |values|) && names[i] == k
  {
    var pairs := Zip(names, values);
    forall i | 0 <= i < |pairs| ensures LastKey(pairs, i) {
      forall j | i < j < |pairs| ensures pairs[j].0 != pairs[i].0 {
        assert names[i] != names[j];
      }
    }
    forall k | k in MakeRow(names, values)
      ensures exists i :: 0 <= i < MinLen(|names|, |values|) && names[i] == k
    {
      var i :| 0 <= i < |pairs| && pairs[i].0 == k;
      assert names[i] == k;
    }
  }

  /** The driver cursor after `execute`: column names from `description`
      (empty when there is none) and the rows still to fetch. */
  datatype Cursor = Cursor(description: seq<string>, rows: seq<seq<Value>>)

  /** `_select(sql, True)` after the cursor ran: the first row as a `Dict`, or
      `None` when there is no row or it is empty. Without a description the
      local `name` was never assigned. */
  function FetchOne(cur: Cursor): (r: Result<Option<Row>, DbError>)
    ensures r == Ok(None) <==> |cur.rows| == 0 || |cur.rows[0]| == 0
    ensures r.Err? <==> |cur.rows| > 0 && |cur.rows[0]| > 0 && |cur.description| == 0
    ensures r.Err? ==> r.error == Unbound("name")
    ensures r.Ok? && r.value.Some? ==> r.value.value == MakeRow(cur.description, cur.rows[0])
  {
    if |cur.rows| == 0 || |cur.rows[0]| == 0 then Ok(None)
    else if |cur.description| == 0 then Err(Unbound("name"))
    else Ok(Some(MakeRow(cur.description, cur.rows[0])))
  }

  /** `_select(sql, False)` after the cursor ran: one `Dict` per row, in order;
      no rows give an empty list, never `None`. */
  function FetchAll(cur: Cursor): (r: Result<seq<Row>, DbError>)
    ensures r.Err? <==> |cur.rows| > 0 && |cur.description| == 0
    ensures r.Ok? ==> |r.value| == |cur.rows|
    ensures r.Ok? ==> forall i :: 0 <= i < |cur.rows| ==> r.value[i] == MakeRow(cur.description, cur.rows[i])
  {
    if |cur.rows| == 0 then Ok([])
    else if |cur.description| == 0 then Err(Unbound("name"))
    else Ok(seq(|cur.rows|, i requires 0 <= i < |cur.rows| => MakeRow(cur.description, cur.rows[i])))
  }

  lemma SingletonSet<T>(s: set<T>, a: T, b: T)
    requires |s| == 1 && a in s && b in s
    ensures a == b
  {
    var t := s - {a};
    assert |t| == 0;
  }

  /** `select_int` on a fetched row: `len(None)` raises TypeError; a row
      whose `Dict` has other than one key raises MultiColumnsError; otherwise
      the only value. */
  function ScalarOf(row: Result<Option<Row>, DbError>): (r: Result<Value, DbError>)
    ensures row.Err? ==> r == Err(row.error)
    ensures row == Ok(None) ==> r == Err(NoLength)
    ensures row.Ok? && row.value.Some? && |row.value.value| != 1 ==> r == Err(MultiColumns)
    ensures r.Ok? ==> row.Ok? && row.value.Some? && exists k :: row.value.value == map[k := r.value]
    ensures row.Ok? && row.value.Some? && |row.value.value| == 1 ==> r.Ok? && r.value in row.value.value.Values
  {
    match row
    case Err(e) => Err(e)
    case Ok(None) => Err(NoLength)
    case Ok(Some(d)) =>
      if |d| != 1 then Err(MultiColumns)
      else
        var k := PickKey(d);
        Ok(d[k])
  }

  /** The only key of a one-key row. */
  function PickKey(d: Row): (k: string)
    requires |d| == 1
    ensures k in d && d == map[k := d[k]]
  {
    var k :| k in d;
    assert forall j | j in d :: j == k by {
      forall j | j in d
        ensures j == k
      {
        SingletonSet(d.Keys, j, k);
      }
    }
    assert d.Keys == {k};
    k
  }

  /** `select_one`: inside a connection scope, the first row or `None`. */
  function SelectOne(ctx: Ctx, phys: Physical, cur: Cursor): (r: Call<Option<Row>>)
    ensures |cur.rows| == 0 ==> r.result == Ok(None)
    ensures |cur.rows| > 0 && |cur.rows[0]| > 0 && |cur.description| > 0 ==>
              r.result == Ok(Some(MakeRow(cur.description, cur.rows[0])))
    ensures Commit !in r.events && Rollback !in r.events
  {
    Execute(ctx, phys, false, FetchOne(cur))
  }

  /** `select`: inside a connection scope, every row in order. */
  function Select(ctx: Ctx, phys: Physical, cur: Cursor): (r: Call<seq<Row>>)
    ensures |cur.rows| == 0 ==> r.result == Ok([])
    ensures r.result.Ok? ==> |r.result.value| == |cur.rows|
    ensures Commit !in r.events && Rollback !in r.events
  {
    Execute(ctx, phys, false, FetchAll(cur))
  }

  /** `select_int`: the only column of the first row; the connection scope
      is left before the column count is checked. */
  function SelectInt(ctx: Ctx, phys: Physical, cur: Cursor): (r: Call<Value>)
    ensures |cur.rows| == 0 ==> r.result == Err(NoLength)
    ensures |cur.rows| > 0 && |cur.description| > 0 && |MakeRow(cur.description, cur.rows[0])| >= 2 ==>
              r.result == Err(MultiColumns)
    ensures |cur.rows| > 0 && |cur.description| == 1 && |cur.rows[0]| == 1 ==>
              r.result == Ok(cur.rows[0][0])
  {
    var fetched := Execute(ctx, phys, false, FetchOne(cur));
    assert |cur.rows| > 0 && |cur.description| == 1 && |cur.rows[0]| == 1 ==>
             MakeRow(cur.description, cur.rows[0]) == map[cur.description[0] := cur.rows[0][0]];
    Call(fetched.ctx, fetched.events, ScalarOf(fetched.result))
  }

  /** `_update`: inside a connection scope, runs the statement and returns the
      cursor's rowcount; commits at once when no transaction is open (depth
      0), and leaves the commit to the enclosing transaction otherwise. */
  function Update(ctx: Ctx, phys: Physical, rowcount: int): (r: Call<int>)
    ensures (Commit in r.events) <==> !IsInit(ctx) || ctx.depth == 0
    ensures Rollback !in r.events
    ensures !((!IsInit(ctx) || ctx.depth == 0) && phys.commitFails) ==> r.result == Ok(rowcount)
    ensures !IsInit(ctx) ==> r.ctx == Fresh
    ensures IsInit(ctx) ==> r.ctx.depth == ctx.depth && r.ctx.conn == Some(Opened)
  {
    Execute(ctx, phys, true, Ok(rowcount))
  }

  /** `insert(table, **kw)`: the INSERT statement run through `_update`. */
  function Insert(ctx: Ctx, phys: Physical, table: string, pairs: seq<(string, Value)>, rowcount: int): (r: Call<int>)
    ensures |pairs| == 0 ==> r == Call(ctx, [], Err(Unpack))
    ensures |pairs| > 0 ==> r == Update(ctx, phys, rowcount)
  {
    match InsertStatement(table, pairs)
    case Err(e) => Call(ctx, [], Err(e))
    case Ok(_) => Update(ctx, phys, rowcount)
  }

  // ---------------------------------------------------------------------
  // Identifiers and engine
  // ---------------------------------------------------------------------

  /** `next_id`: `'%015d%s000' % (ms, hex)` for the integer milliseconds and
      the random hex string. */
  function NextId(ms: int, hex: string): string {
    ZeroPadded(ms, 15) + hex + "000"
  }

  /** For a timestamp of at most 15 digits the id is 15 zero-padded digits
      that read back as the timestamp, then the hex string, then `000`. */
  lemma NextIdLayout(ms: nat, hex: string)
    requires ms < Pow10(15)
    ensures |NextId(ms, hex)| == 15 + |hex| + 3
    ensures AllDigits(NextId(ms, hex)[..15])
    ensures DecimalValue(NextId(ms, hex)[..15]) == ms
    ensures NextId(ms, hex)[15..15 + |hex|] == hex
    ensures NextId(ms, hex)[15 + |hex|..] == "000"
  {
    DigitsWidth(ms, 15);
    ZeroPaddedRoundTrip(ms, 15);
    var id := NextId(ms, hex);
    assert id[..15] == ZeroPadded(ms, 15);
  }

  /** A connection parameter value. */
  datatype Param = PStr(s: string) | PInt(i: int) | PBool(b: bool)

  /** The global engine: the parameters its connect function passes on. */
  datatype Engine = Engine(params: map<string, Param>)

  function Lookup(kw: map<string, Param>, key: string, default: Param): Param {
    if key in kw then kw[key] else default
  }

  /** Keywords a call `create_engine(..., **kw)` can pass: Python refuses
      the call with a TypeError before the body runs when `kw` names one of
      the declared parameters again. */
  predicate BindableKeywords(kw: map<string, Param>) {
    forall k :: k in kw ==> k !in {"user", "password", "database", "host", "port"}
  }

  /** `create_engine`: refuses a second initialisation; otherwise the named
      parameters, `charset` and `autocommit` taken from the keywords or
      defaulted, and every remaining keyword. */
  function CreateEngine(engine: Option<Engine>, user: string, password: string, database: string,
                        host: string, port: int, kw: map<string, Param>): (r: Result<Engine, DbError>)
    requires BindableKeywords(kw)
    ensures r.Err? <==> engine.Some?
    ensures r.Err? ==> r.error == AlreadyInitialized
    ensures r.Ok? ==> r.value.params.Keys == kw.Keys + {"user", "passwd", "db", "host", "port", "charset", "autocommit"}
    ensures r.Ok? ==> forall k :: k in kw ==> r.value.params[k] == kw[k]
    ensures r.Ok? && "charset" !in kw ==> r.value.params["charset"] == PStr("utf8")
    ensures r.Ok? && "autocommit" !in kw ==> r.value.params["autocommit"] == PBool(false)
    ensures r.Ok? ==> r.value.params["user"] == PStr(user)
    ensures r.Ok? && "passwd" !in kw ==> r.value.params["passwd"] == PStr(password)
    ensures r.Ok? && "db" !in kw ==> r.value.params["db"] == PStr(database)
    ensures r.Ok? ==> r.value.params["host"] == PStr(host)
    ensures r.Ok? ==> r.value.params["port"] == PInt(port)
  {
    if engine.Some? then Err(AlreadyInitialized)
    else
      var params := map["user" := PStr(user), "passwd" := PStr(password), "db" := PStr(database),
                        "host" := PStr(host), "port" := PInt(port)];
      var withDefaults := params["charset" := Lookup(kw, "charset", PStr("utf8"))]
                                ["autocommit" := Lookup(kw, "autocommit", PBool(false))];
      Ok(Engine(withDefaults + (kw - {"charset", "autocommit"})))
  }

  /** Once initialised, the engine can never be initialised again. */
  lemma EngineInitialisedOnce(user: string, password: string, database: string, host: string, port: int,
                              kw: map<string, Param>, kw2: map<string, Param>)
    requires BindableKeywords(kw) && BindableKeywords(kw2)
    ensures CreateEngine(None, user, password, database, host, port, kw).Ok?
    ensures CreateEngine(Some(CreateEngine(None, user, password, database, host, port, kw).value),
                         user, password, database, host, port, kw2) == Err(AlreadyInitialized)
  {
  }
}
