/** Mapping a model class to a table: the metaclass that collects the field
    attributes of a class body, checks for exactly one primary key and fills
    in the table name and trigger hooks, and the `create table` text it
    attaches to the class. */
module OrmSchema {
  import opened Outcomes
  import opened Text
  import opened Values
  import opened OrmFields

  // ---------------------------------------------------------------------
  // Ordering fields by declaration
  // ---------------------------------------------------------------------

  predicate SortedByOrder(fs: seq<Field>) {
    forall i, j :: 0 <= i < j < |fs| ==> fs[i].order <= fs[j].order
  }

  /** Within `m`, a field's order identifies it (each field object took its
      own counter value). */
  predicate OrderIdentifies(s: seq<Field>) {
    forall i, j :: 0 <= i < |s| && 0 <= j < |s| && s[i].order == s[j].order ==> s[i] == s[j]
  }

  /** Insert `f` before the first field whose order is not smaller. */
  function InsertByOrder(f: Field, s: seq<Field>): (r: seq<Field>)
    requires SortedByOrder(s)
    ensures SortedByOrder(r)
    ensures multiset(r) == multiset(s) + multiset{f}
    ensures |r| == |s| + 1
    ensures r[0] == f || (|s| > 0 && r[0] == s[0])
    decreases |s|
  {
    if |s| == 0 then [f]
    else if f.order <= s[0].order then [f] + s
    else
      var t := InsertByOrder(f, s[1..]);
      assert s == [s[0]] + s[1..];
      [s[0]] + t
  }

  /** `sorted(fields, cmp on _order)`: a stable sort by declaration order. */
  function SortByOrder(fs: seq<Field>): (r: seq<Field>)
    ensures SortedByOrder(r)
    ensures multiset(r) == multiset(fs)
    ensures |r| == |fs|
    decreases |fs|
  {
    if |fs| == 0 then []
    else
      assert fs == [fs[0]] + fs[1..];
      InsertByOrder(fs[0], SortByOrder(fs[1..]))
  }

  /** Two sorted arrangements of the same fields are the same sequence. */
  lemma {:induction false} SortedUnique(a: seq<Field>, b: seq<Field>)
    requires SortedByOrder(a) && SortedByOrder(b)
    requires multiset(a) == multiset(b)
    requires OrderIdentifies(a)
    ensures a == b
    decreases |a|
  {
    if |a| > 0 {
      SameHead(a, b);
      Tail(a);
      Tail(b);
      SortedUnique(a[1..], b[1..]);
      Cons(a, b);
    } else {
      assert |b| == |multiset(b)| == 0;
    }
  }

  lemma Cons(a: seq<Field>, b: seq<Field>)
    requires |a| > 0 && |b| > 0 && a[0] == b[0] && a[1..] == b[1..]
    ensures a == b
  {
    assert a == [a[0]] + a[1..];
    assert b == [b[0]] + b[1..];
  }

  /** Dropping the first field keeps a sequence sorted and its orders
      identifying. */
  lemma Tail(a: seq<Field>)
    requires |a| > 0
    ensures SortedByOrder(a) ==> SortedByOrder(a[1..])
    ensures OrderIdentifies(a) ==> OrderIdentifies(a[1..])
    ensures multiset(a[1..]) == multiset(a) - multiset{a[0]}
  {
    assert a == [a[0]] + a[1..];
  }

  /** Two sorted non-empty arrangements of the same fields start alike. */
  lemma SameHead(a: seq<Field>, b: seq<Field>)
    requires SortedByOrder(a) && SortedByOrder(b)
    requires multiset(a) == multiset(b) && |a| > 0
    requires OrderIdentifies(a)
    ensures |b| > 0 && a[0] == b[0]
  {
    assert |b| == |multiset(b)| == |multiset(a)| == |a|;
    assert a[0] in multiset(b);
    var k :| 0 <= k < |b| && b[k] == a[0];
    assert b[0] in multiset(a);
    var m :| 0 <= m < |a| && a[m] == b[0];
    assert a[0].order <= a[m].order;
    assert b[0].order <= b[k].order;
  }

  /** Rearranging fields keeps their orders identifying them. */
  lemma OrderIdentifiesPermuted(a: seq<Field>, b: seq<Field>)
    requires multiset(a) == multiset(b) && OrderIdentifies(a)
    ensures OrderIdentifies(b)
  {
    forall i, j | 0 <= i < |b| && 0 <= j < |b| && b[i].order == b[j].order
      ensures b[i] == b[j]
    {
      assert b[i] in multiset(a) && b[j] in multiset(a);
      var i' :| 0 <= i' < |a| && a[i'] == b[i];
      var j' :| 0 <= j' < |a| && a[j'] == b[j];
    }
  }

  /** The dictionary's iteration order does not matter: any arrangement of
      the same fields sorts to the same sequence. */
  lemma SortIgnoresIterationOrder(a: seq<Field>, b: seq<Field>)
    requires multiset(a) == multiset(b)
    requires OrderIdentifies(a)
    ensures SortByOrder(a) == SortByOrder(b)
  {
    OrderIdentifiesPermuted(a, SortByOrder(a));
    SortedUnique(SortByOrder(a), SortByOrder(b));
  }

  // ---------------------------------------------------------------------
  // The create-table text
  // ---------------------------------------------------------------------

  /** One column line; the field's name and column type, then `not null`
      unless the field is nullable. */
  function ColumnLine(f: Field): string {
    "  `" + NameText(f.name) + "` " + f.ddl + (if f.nullable then "," else " not null,")
  }

  /** The position of the last primary-key field in `fs`, if any: the one
      whose name the loop over the sorted fields keeps. */
  function LastPk(fs: seq<Field>): (r: Option<nat>)
    ensures r.None? ==> forall i :: 0 <= i < |fs| ==> !fs[i].primaryKey
    ensures r.Some? ==> r.value < |fs| && fs[r.value].primaryKey
    ensures r.Some? ==> forall j :: r.value < j < |fs| ==> !fs[j].primaryKey
    decreases |fs|
  {
    if |fs| == 0 then None
    else if fs[|fs| - 1].primaryKey then Some(|fs| - 1)
    else LastPk(fs[..|fs| - 1])
  }

  /** The text the primary key clause names: the last primary key's name,
      or `None`. */
  function PkText(fs: seq<Field>): string {
    match LastPk(fs)
    case None => "None"
    case Some(i) => NameText(fs[i].name)
  }

  function Comment(table: string): string {
    "-- generation SQL for " + table + ":"
  }

  function Opening(table: string): string {
    "create table `" + table + "` ("
  }

  function PkClause(pk: string): string {
    " primary key (`" + pk + "`)"
  }

  const Closing := ");"

  /** One column line per field, in the given order. */
  function ColumnLines(fs: seq<Field>): (ls: seq<string>)
    ensures |ls| == |fs| && forall i :: 0 <= i < |fs| ==> ls[i] == ColumnLine(fs[i])
  {
    seq(|fs|, i requires 0 <= i < |fs| => ColumnLine(fs[i]))
  }

  /** The lines of `_gen_sql(table, mappings)`: a comment, the opening, one
      line per field in declaration order, the primary key clause (naming
      `None` when no field is a primary key) and the closing. */
  function GenSqlLines(table: string, fields: seq<Field>): (lines: seq<string>)
    ensures |lines| == |fields| + 4
    ensures lines[0] == Comment(table) && lines[1] == Opening(table)
    ensures lines[2..|fields| + 2] == ColumnLines(SortByOrder(fields))
    ensures lines[|fields| + 2] == PkClause(PkText(SortByOrder(fields)))
    ensures lines[|fields| + 3] == Closing
  {
    var sorted := SortByOrder(fields);
    var lines := [Comment(table), Opening(table)] + ColumnLines(sorted) + [PkClause(PkText(sorted)), Closing];
    assert lines[2..|fields| + 2] == ColumnLines(sorted);
    lines
  }

  /** `_gen_sql`: the lines joined with newlines. */
  function GenSql(table: string, fields: seq<Field>): string {
    Join(GenSqlLines(table, fields), "\n")
  }

  predicate OneLine(s: string) {
    '\n' !in s
  }

  lemma OneLineConcat(a: string, b: string)
    requires OneLine(a) && OneLine(b)
    ensures OneLine(a + b)
  {
  }

  /** When no name or column type spans lines, the text splits back into
      exactly the lines above, one per field plus four. */
  lemma GenSqlShape(table: string, fields: seq<Field>)
    requires OneLine(table)
    requires forall i :: 0 <= i < |fields| ==> OneLine(NameText(fields[i].name)) && OneLine(fields[i].ddl)
    ensures Split(GenSql(table, fields), '\n') == GenSqlLines(table, fields)
  {
    LinesOneLine(table, fields);
    SplitJoin(GenSqlLines(table, fields), '\n');
  }

  lemma ColumnLineOneLine(f: Field)
    requires OneLine(NameText(f.name)) && OneLine(f.ddl)
    ensures OneLine(ColumnLine(f))
  {
    OneLineConcat("  `", NameText(f.name));
    OneLineConcat("  `" + NameText(f.name), "` ");
    OneLineConcat("  `" + NameText(f.name) + "` ", f.ddl);
    OneLineConcat("  `" + NameText(f.name) + "` " + f.ddl, if f.nullable then "," else " not null,");
  }

  lemma LinesOneLine(table: string, fields: seq<Field>)
    requires OneLine(table)
    requires forall i :: 0 <= i < |fields| ==> OneLine(NameText(fields[i].name)) && OneLine(fields[i].ddl)
    ensures forall i :: 0 <= i < |GenSqlLines(table, fields)| ==> '\n' !in GenSqlLines(table, fields)[i]
  {
    forall i | 0 <= i < |GenSqlLines(table, fields)|
      ensures '\n' !in GenSqlLines(table, fields)[i]
    {
      LineOneLine(table, fields, i);
    }
  }

  /** One line of the generated text at a time. */
  lemma LineOneLine(table: string, fields: seq<Field>, i: nat)
    requires OneLine(table)
    requires forall i :: 0 <= i < |fields| ==> OneLine(NameText(fields[i].name)) && OneLine(fields[i].ddl)
    requires i < |fields| + 4
    ensures OneLine(GenSqlLines(table, fields)[i])
  {
    var lines := GenSqlLines(table, fields);
    var sorted := SortByOrder(fields);
    if i < 2 || i == |fields| + 3 {
      HeaderOneLine(table);
    } else if i < |fields| + 2 {
      SortedOneLine(fields);
      ColumnLineOneLine(sorted[i - 2]);
      assert lines[i] == lines[2..|fields| + 2][i - 2] == ColumnLines(sorted)[i - 2];
    } else {
      SortedOneLine(fields);
      PkClauseOneLine(sorted);
    }
  }

  lemma HeaderOneLine(table: string)
    requires OneLine(table)
    ensures OneLine(Comment(table)) && OneLine(Opening(table)) && OneLine(Closing)
  {
    OneLineConcat("-- generation SQL for ", table);
    OneLineConcat("-- generation SQL for " + table, ":");
    OneLineConcat("create table `", table);
    OneLineConcat("create table `" + table, "` (");
  }

  lemma PkClauseOneLine(sorted: seq<Field>)
    requires forall i :: 0 <= i < |sorted| ==> OneLine(NameText(sorted[i].name))
    ensures OneLine(PkClause(PkText(sorted)))
  {
    var pk := PkText(sorted);
    assert OneLine(pk);
    OneLineConcat(" primary key (`", pk);
    OneLineConcat(" primary key (`" + pk, "`)");
  }

  /** Sorting keeps every name and column type on one line. */
  lemma SortedOneLine(fields: seq<Field>)
    requires forall i :: 0 <= i < |fields| ==> OneLine(NameText(fields[i].name)) && OneLine(fields[i].ddl)
    ensures forall i :: 0 <= i < |fields| ==>
              OneLine(NameText(SortByOrder(fields)[i].name)) && OneLine(SortByOrder(fields)[i].ddl)
  {
    var sorted := SortByOrder(fields);
    forall i | 0 <= i < |sorted|
      ensures OneLine(NameText(sorted[i].name)) && OneLine(sorted[i].ddl)
    {
      assert sorted[i] in multiset(fields);
      var j :| 0 <= j < |fields| && fields[j] == sorted[i];
    }
  }

  /** The text depends on the fields, not on the order the dictionary
      yields them in. */
  lemma GenSqlIgnoresIterationOrder(table: string, a: seq<Field>, b: seq<Field>)
    requires multiset(a) == multiset(b)
    requires OrderIdentifies(a)
    ensures GenSql(table, a) == GenSql(table, b)
  {
    SortIgnoresIterationOrder(a, b);
  }

  // ---------------------------------------------------------------------
  // Registering a model class
  // ---------------------------------------------------------------------

  /** A class attribute that is not a field: its Python type and its text. */
  datatype Plain = Plain(typeName: string, text: string)

  const NoneObject := Plain("NoneType", "None")

  /** A class-body attribute. */
  datatype Attr = FieldAttr(f: Field) | PlainAttr(p: Plain)

  datatype OrmError = TypeError(msg: string) | AttributeError(msg: string)

  /** The class as created: the base class is left alone; a model class
      gets its table, field mappings, the remaining attributes (with
      `__table__` and the trigger hooks filled in) and the `create table`
      text. */
  datatype MappedClass = MappedClass(
    name: string,
    table: string,
    mappings: seq<(string, Field)>,
    namespace: seq<(string, Plain)>,
    sql: string)

  datatype Created = BaseModel(name: string, attrs: seq<(string, Attr)>) | Mapped(cls: MappedClass)

  /** The metaclass's record of subclass names, and the outcome. */
  datatype Registration = Registration(subclasses: set<string>, result: Result<Created, OrmError>)

  /** The field as it ends up in the mappings: named after its attribute and,
      when it is the primary key, neither updatable nor nullable. */
  function MapField(k: string, f: Field): (g: Field)
    ensures g.name == Some(k) && g.primaryKey == f.primaryKey && g.order == f.order
    ensures g.primaryKey ==> !g.updatable && !g.nullable
    ensures !g.primaryKey ==> g == f.(name := Some(k))
    ensures g.(updatable := f.updatable, nullable := f.nullable) == f.(name := Some(k))
  {
    var named := f.(name := Some(k));
    if named.primaryKey then named.(updatable := false, nullable := false) else named
  }

  /** The number of primary-key fields among the attributes. */
  function PkCount(attrs: seq<(string, Attr)>): nat
    decreases |attrs|
  {
    if |attrs| == 0 then 0
    else
      var last := attrs[|attrs| - 1].1;
      PkCount(attrs[..|attrs| - 1]) + (if last.FieldAttr? && last.f.primaryKey then 1 else 0)
  }

  /** The field attributes, in iteration order, as they are mapped. */
  function FieldEntries(attrs: seq<(string, Attr)>): (es: seq<(string, Field)>)
    ensures forall i :: 0 <= i < |es| ==> es[i].1.name == Some(es[i].0)
    ensures forall i :: 0 <= i < |es| && es[i].1.primaryKey ==> !es[i].1.updatable && !es[i].1.nullable
    ensures forall j :: 0 <= j < |attrs| && attrs[j].1.FieldAttr? ==>
              (attrs[j].0, MapField(attrs[j].0, attrs[j].1.f)) in es
    ensures forall i :: 0 <= i < |es| ==>
              exists j :: 0 <= j < |attrs| && attrs[j].1.FieldAttr? && es[i] == (attrs[j].0, MapField(attrs[j].0, attrs[j].1.f))
    decreases |attrs|
  {
    if |attrs| == 0 then []
    else
      var n := |attrs|;
      var front := FieldEntries(attrs[..n - 1]);
      var (k, v) := attrs[n - 1];
      var es := if v.FieldAttr? then front + [(k, MapField(k, v.f))] else front;
      assert forall j :: 0 <= j < n - 1 ==> attrs[..n - 1][j] == attrs[j];
      es
  }

  /** The attributes that are not fields, in iteration order. */
  function PlainEntries(attrs: seq<(string, Attr)>): (ps: seq<(string, Plain)>)
    ensures forall i :: 0 <= i < |ps| ==> exists j :: 0 <= j < |attrs| && attrs[j] == (ps[i].0, PlainAttr(ps[i].1))
    ensures forall j :: 0 <= j < |attrs| && attrs[j].1.PlainAttr? ==> (attrs[j].0, attrs[j].1.p) in ps
    decreases |attrs|
  {
    if |attrs| == 0 then []
    else
      var n := |attrs|;
      var front := PlainEntries(attrs[..n - 1]);
      var (k, v) := attrs[n - 1];
      assert forall j :: 0 <= j < n - 1 ==> attrs[..n - 1][j] == attrs[j];
      if v.PlainAttr? then front + [(k, v.p)] else front
  }

  /** What the scan of the class body has collected so far. */
  datatype Scan = Scan(mappings: seq<(string, Field)>, pk: Option<string>)

  /** The message of the AttributeError raised when an object of type
      `typeName` is asked for `primary_key`. */
  function NoPrimaryKeyAttribute(typeName: string): string {
    "'" + typeName + "' object has no attribute 'primary_key'"
  }

  /** One attribute of the scan. `guarded` is the intended reading, where
      only fields are examined; unguarded, as written, every attribute is
      asked for `primary_key`. */
  function ScanStep(cls: string, s: Scan, k: string, v: Attr, guarded: bool): Result<Scan, OrmError> {
    match v
    case PlainAttr(p) =>
      if guarded then Ok(s)
      else Err(AttributeError(NoPrimaryKeyAttribute(p.typeName)))
    case FieldAttr(f) =>
      if f.primaryKey && s.pk.Some? then Err(TypeError("Cannot define more than 1 primary key in class: " + cls))
      else Ok(Scan(s.mappings + [(k, MapField(k, f))], if f.primaryKey then Some(k) else s.pk))
  }

  /** The scan over the class body in iteration order. */
  function ScanWith(cls: string, attrs: seq<(string, Attr)>, guarded: bool): Result<Scan, OrmError>
    decreases |attrs|
  {
    if |attrs| == 0 then Ok(Scan([], None))
    else
      match ScanWith(cls, attrs[..|attrs| - 1], guarded)
      case Err(e) => Err(e)
      case Ok(s) => ScanStep(cls, s, attrs[|attrs| - 1].0, attrs[|attrs| - 1].1, guarded)
  }

  /** The intended scan fails exactly when a second primary key turns up; it
      maps every field attribute, and it finds a primary key exactly when
      there is one, under that attribute's name. */
  lemma {:induction false} ScanCounts(cls: string, attrs: seq<(string, Attr)>)
    ensures var r := ScanWith(cls, attrs, true);
            && (r.Ok? <==> PkCount(attrs) <= 1)
            && (r.Err? ==> r.error == TypeError("Cannot define more than 1 primary key in class: " + cls))
            && (r.Ok? ==> r.value.mappings == FieldEntries(attrs))
            && (r.Ok? ==> (r.value.pk.Some? <==> PkCount(attrs) == 1))
            && (r.Ok? && r.value.pk.Some? ==>
                  exists j :: 0 <= j < |attrs| && attrs[j].0 == r.value.pk.value
                              && attrs[j].1.FieldAttr? && attrs[j].1.f.primaryKey)
    decreases |attrs|
  {
    if |attrs| > 0 {
      var n := |attrs|;
      ScanCounts(cls, attrs[..n - 1]);
      var prev := ScanWith(cls, attrs[..n - 1], true);
      if prev.Ok? && prev.value.pk.Some? {
        var j :| 0 <= j < n - 1 && attrs[..n - 1][j].0 == prev.value.pk.value
                 && attrs[..n - 1][j].1.FieldAttr? && attrs[..n - 1][j].1.f.primaryKey;
        assert attrs[j] == attrs[..n - 1][j];
      }
    }
  }

  /** As written, any attribute that is not a field makes the scan raise
      AttributeError, unless two primary keys were seen before it. */
  lemma {:induction false} AsWrittenRejectsPlainAttributes(cls: string, attrs: seq<(string, Attr)>)
    requires PkCount(attrs) <= 1
    ensures var r := ScanWith(cls, attrs, false);
            && (r.Err? <==> exists j :: 0 <= j < |attrs| && attrs[j].1.PlainAttr?)
            && (r.Err? ==> r.error.AttributeError?)
    decreases |attrs|
  {
    if |attrs| > 0 {
      var n := |attrs|;
      AsWrittenRejectsPlainAttributes(cls, attrs[..n - 1]);
      var prev := ScanWith(cls, attrs[..n - 1], false);
      if prev.Err? {
        var j :| 0 <= j < n - 1 && attrs[..n - 1][j].1.PlainAttr?;
        assert attrs[j] == attrs[..n - 1][j];
      } else {
        AsWrittenLastStep(cls, attrs);
        forall j | 0 <= j < n - 1 ensures !attrs[j].1.PlainAttr? {
          assert attrs[j] == attrs[..n - 1][j];
        }
      }
    }
  }

  /** When the scan, as written, gets past every earlier attribute, the
      last one fails it exactly when it is not a field. */
  lemma AsWrittenLastStep(cls: string, attrs: seq<(string, Attr)>)
    requires |attrs| > 0 && PkCount(attrs) <= 1
    requires ScanWith(cls, attrs[..|attrs| - 1], false).Ok?
    ensures var r := ScanWith(cls, attrs, false);
            && (r.Err? <==> attrs[|attrs| - 1].1.PlainAttr?)
            && (r.Err? ==> r.error.AttributeError?)
  {
    var front := attrs[..|attrs| - 1];
    ScanCounts(cls, front);
    GuardIrrelevantWithoutPlain(cls, front);
    assert ScanWith(cls, front, false).value.pk.Some? <==> PkCount(front) == 1;
  }

  /** Without plain attributes the two readings scan alike. */
  lemma {:induction false} GuardIrrelevantWithoutPlain(cls: string, attrs: seq<(string, Attr)>)
    requires ScanWith(cls, attrs, false).Ok?
    ensures ScanWith(cls, attrs, true) == ScanWith(cls, attrs, false)
    decreases |attrs|
  {
    if |attrs| > 0 {
      GuardIrrelevantWithoutPlain(cls, attrs[..|attrs| - 1]);
    }
  }

  /** The entry for `key` in an attribute list (the last one, as a dict
      assignment would keep). */
  function Get(ns: seq<(string, Plain)>, key: string): (r: Option<Plain>)
    ensures r.Some? <==> exists i :: 0 <= i < |ns| && ns[i].0 == key
    ensures r.Some? ==> (key, r.value) in ns
    decreases |ns|
  {
    if |ns| == 0 then None
    else if ns[|ns| - 1].0 == key then Some(ns[|ns| - 1].1)
    else
      var r := Get(ns[..|ns| - 1], key);
      assert forall i :: 0 <= i < |ns| - 1 ==> ns[..|ns| - 1][i] == ns[i];
      r
  }

  /** `if not key in attrs: attrs[key] = v`. */
  function SetDefault(ns: seq<(string, Plain)>, key: string, v: Plain): (r: seq<(string, Plain)>)
    ensures Get(r, key) == Some(Get(ns, key).GetOr(v))
    ensures forall k :: k != key ==> Get(r, k) == Get(ns, k)
  {
    if Get(ns, key).Some? then ns
    else
      var r := ns + [(key, v)];
      assert forall k :: k != key ==> Get(r, k) == Get(ns, k) by {
        forall k | k != key ensures Get(r, k) == Get(ns, k) {
          assert r[..|r| - 1] == ns;
        }
      }
      r
  }

  const TriggerNames: seq<string> := ["pre_insert", "pre_update", "pre_delete"]

  /** Every trigger hook the class body leaves undefined is set to `None`. */
  function WithTriggers(ns: seq<(string, Plain)>): (r: seq<(string, Plain)>)
    ensures forall t :: t in TriggerNames ==> Get(r, t) == Some(Get(ns, t).GetOr(NoneObject))
    ensures forall k :: k !in TriggerNames ==> Get(r, k) == Get(ns, k)
  {
    SetDefault(SetDefault(SetDefault(ns, "pre_insert", NoneObject), "pre_update", NoneObject), "pre_delete", NoneObject)
  }

  /** `ModelMetaclass.__new__`, with the primary-key checks applied to every
      attribute (`guarded` false, as written) or to fields only. */
  function RegisterWith(subclasses: set<string>, name: string, attrs: seq<(string, Attr)>, guarded: bool): Registration {
    if name == "Model" then Registration(subclasses, Ok(BaseModel(name, attrs)))
    else
      var subs := subclasses + {name};
      match ScanWith(name, attrs, guarded)
      case Err(e) => Registration(subs, Err(e))
      case Ok(s) =>
        if s.pk.None? then Registration(subs, Err(TypeError("Primary key not defined in class: " + name)))
        else Registration(subs, Ok(Mapped(ClassOf(name, attrs, s.mappings))))
  }

  /** `__table__` as the class body gives it, or the lower-cased class name. */
  function TableName(name: string, plain: seq<(string, Plain)>): string {
    Get(plain, "__table__").GetOr(Plain("str", Lower(name))).text
  }

  /** The class attributes left after the fields are removed, with
      `__table__` and the trigger hooks filled in. */
  function Namespace(plain: seq<(string, Plain)>, table: string): seq<(string, Plain)> {
    WithTriggers(SetDefault(plain, "__table__", Plain("str", table)))
  }

  /** The class the metaclass creates once the scan found one primary key. */
  function ClassOf(name: string, attrs: seq<(string, Attr)>, mappings: seq<(string, Field)>): MappedClass {
    var plain := PlainEntries(attrs);
    var table := TableName(name, plain);
    MappedClass(name, table, mappings, Namespace(plain, table), GenSql(table, FieldsOf(mappings)))
  }

  /** The values of a mapping list. */
  function FieldsOf(es: seq<(string, Field)>): (fs: seq<Field>)
    ensures |fs| == |es| && forall i :: 0 <= i < |es| ==> fs[i] == es[i].1
  {
    seq(|es|, i requires 0 <= i < |es| => es[i].1)
  }

  /** `ModelMetaclass.__new__` as intended. */
  function Register(subclasses: set<string>, name: string, attrs: seq<(string, Attr)>): (r: Registration)
    ensures name == "Model" ==> r == Registration(subclasses, Ok(BaseModel(name, attrs)))
    ensures name != "Model" ==> r.subclasses == subclasses + {name}
    ensures name != "Model" ==> (r.result.Ok? <==> PkCount(attrs) == 1)
    ensures name != "Model" && PkCount(attrs) > 1 ==>
              r.result == Err(TypeError("Cannot define more than 1 primary key in class: " + name))
    ensures name != "Model" && PkCount(attrs) == 0 ==>
              r.result == Err(TypeError("Primary key not defined in class: " + name))
  {
    ScanCounts(name, attrs);
    RegisterWith(subclasses, name, attrs, true)
  }

  /** A registered model class maps exactly its field attributes, in
      iteration order; one of them is the declared primary key, now neither
      updatable nor nullable; and the class carries the text of its table. */
  lemma RegisteredMappings(subclasses: set<string>, name: string, attrs: seq<(string, Attr)>)
    requires name != "Model" && PkCount(attrs) == 1
    ensures Register(subclasses, name, attrs).result.Ok?
    ensures Register(subclasses, name, attrs).result.value.Mapped?
    ensures var c := Register(subclasses, name, attrs).result.value.cls;
            && c.name == name
            && c.mappings == FieldEntries(attrs)
            && (exists i :: 0 <= i < |c.mappings| && c.mappings[i].1.primaryKey
                             && !c.mappings[i].1.updatable && !c.mappings[i].1.nullable)
            && c.sql == GenSql(c.table, FieldsOf(c.mappings))
  {
    ScanCounts(name, attrs);
    var s := ScanWith(name, attrs, true).value;
    assert Register(subclasses, name, attrs).result == Ok(Mapped(ClassOf(name, attrs, s.mappings)));
    var j :| 0 <= j < |attrs| && attrs[j].0 == s.pk.value && attrs[j].1.FieldAttr? && attrs[j].1.f.primaryKey;
    var e := (attrs[j].0, MapField(attrs[j].0, attrs[j].1.f));
    assert e in s.mappings;
    var i :| 0 <= i < |s.mappings| && s.mappings[i] == e;
  }

  /** A registered model class keeps its own `__table__` or takes the
      lower-cased class name, and each trigger hook it does not define is
      `None`. */
  lemma RegisteredNamespace(subclasses: set<string>, name: string, attrs: seq<(string, Attr)>)
    requires name != "Model" && PkCount(attrs) == 1
    ensures Register(subclasses, name, attrs).result.Ok?
    ensures Register(subclasses, name, attrs).result.value.Mapped?
    ensures var c := Register(subclasses, name, attrs).result.value.cls;
            var plain := PlainEntries(attrs);
            && c.table == (if Get(plain, "__table__").Some? then Get(plain, "__table__").value.text else Lower(name))
            && Get(c.namespace, "__table__") == Some(Get(plain, "__table__").GetOr(Plain("str", c.table)))
            && (forall t :: t in TriggerNames ==> Get(c.namespace, t) == Some(Get(plain, t).GetOr(NoneObject)))
  {
    ScanCounts(name, attrs);
    var s := ScanWith(name, attrs, true).value;
    var plain := PlainEntries(attrs);
    assert Register(subclasses, name, attrs).result == Ok(Mapped(ClassOf(name, attrs, s.mappings)));
    NamespaceDefaults(plain, TableName(name, plain));
  }

  /** The filled-in namespace: `__table__` and the hooks are present, and
      only missing ones take the defaults. */
  lemma NamespaceDefaults(plain: seq<(string, Plain)>, table: string)
    requires Get(plain, "__table__").Some? ==> Get(plain, "__table__").value.text == table
    ensures Get(Namespace(plain, table), "__table__") == Some(Get(plain, "__table__").GetOr(Plain("str", table)))
    ensures forall t :: t in TriggerNames ==> Get(Namespace(plain, table), t) == Some(Get(plain, t).GetOr(NoneObject))
  {
    assert "__table__" !in TriggerNames;
  }

  /** `ModelMetaclass.__new__` as written. */
  function RegisterAsWritten(subclasses: set<string>, name: string, attrs: seq<(string, Attr)>): Registration {
    RegisterWith(subclasses, name, attrs, false)
  }

  /** As written, a model class whose body holds any attribute besides its
      fields (Python 2 always supplies `__module__`) cannot be defined unless
      it already fails for a second primary key. */
  lemma AsWrittenRejectsModels(subclasses: set<string>, name: string, attrs: seq<(string, Attr)>)
    requires name != "Model" && PkCount(attrs) <= 1
    requires exists j :: 0 <= j < |attrs| && attrs[j].1.PlainAttr?
    ensures RegisterAsWritten(subclasses, name, attrs).result.Err?
    ensures RegisterAsWritten(subclasses, name, attrs).result.error.AttributeError?
  {
    AsWrittenRejectsPlainAttributes(name, attrs);
  }

  /** The discrepancy on one class: `__module__` and one primary key. */
  lemma PlainAttributeCounterexample()
    ensures var id := Field(Column(IntegerKind), None, Literal(Int(0)), true, false, true, true, "bigint", 0);
            var attrs := [("__module__", PlainAttr(Plain("str", "__main__"))), ("id", FieldAttr(id))];
            && RegisterAsWritten({}, "User", attrs).result == Err(AttributeError(NoPrimaryKeyAttribute("str")))
            && Register({}, "User", attrs).result.Ok?
  {
    var id := Field(Column(IntegerKind), None, Literal(Int(0)), true, false, true, true, "bigint", 0);
    var attrs := [("__module__", PlainAttr(Plain("str", "__main__"))), ("id", FieldAttr(id))];
    assert attrs[..1] == [attrs[0]];
    assert attrs[..1][..0] == [];
    assert ScanWith("User", attrs[..1][..0], false) == Ok(Scan([], None));
    assert ScanStep("User", Scan([], None), "__module__", attrs[0].1, false)
           == Err(AttributeError(NoPrimaryKeyAttribute("str")));
    assert ScanWith("User", attrs[..1], false) == Err(AttributeError(NoPrimaryKeyAttribute("str")));
    assert PkCount(attrs[..1]) == 0;
    assert PkCount(attrs) == 1;
    ScanCounts("User", attrs);
  }
}
