/** Column descriptors of the ORM: the `Field` class, its typed subclasses
    with their default values and column types, the global declaration
    counter that orders fields, the `default` property and `__str__`. */
module OrmFields {
  import opened Outcomes
  import opened Values

  /** The typed `Field` subclasses that differ only in their defaults. */
  datatype ColumnKind = StringKind | IntegerKind | FloatKind | BooleanKind | TextKind | BlobKind

  /** The class a field was built from. */
  datatype FieldClass = BaseField | Column(kind: ColumnKind) | Version

  function ClassName(c: FieldClass): string {
    match c
    case BaseField => "Field"
    case Version => "VersionField"
    case Column(StringKind) => "StringField"
    case Column(IntegerKind) => "IntegerField"
    case Column(FloatKind) => "FloatField"
    case Column(BooleanKind) => "BooleanField"
    case Column(TextKind) => "TextField"
    case Column(BlobKind) => "BlobField"
  }

  /** A stored default: a plain value, or a callable (named here) that
      produces one each time the default is read. */
  datatype DefaultSpec = Literal(v: Value) | Generator(fn: string)

  /** A field's attributes; `order` is the value of the class-wide counter
      when the field was built. */
  datatype Field = Field(
    cls: FieldClass,
    name: Option<string>,
    default: DefaultSpec,
    primaryKey: bool,
    nullable: bool,
    updatable: bool,
    insertable: bool,
    ddl: string,
    order: nat)

  /** The keyword arguments given to a constructor; `None` means the keyword
      was not passed. `updatabla` is the misspelt keyword the base
      constructor actually reads. */
  datatype FieldArgs = FieldArgs(
    name: Option<string>,
    default: Option<DefaultSpec>,
    primaryKey: Option<bool>,
    nullable: Option<bool>,
    updatable: Option<bool>,
    updatabla: Option<bool>,
    insertable: Option<bool>,
    ddl: Option<string>)

  const NoArgs := FieldArgs(None, None, None, None, None, None, None, None)

  /** A new field and the counter after it. */
  datatype Built = Built(field: Field, next: nat)

  /** `Field.__init__`, reading the `updatable` flag from the keyword named
      by `misspelt`. */
  function FieldInit(cls: FieldClass, args: FieldArgs, counter: nat, misspelt: bool): Built {
    var updatable := if misspelt then args.updatabla else args.updatable;
    Built(Field(cls, args.name, args.default.GetOr(Literal(Null)), args.primaryKey.GetOr(false),
                args.nullable.GetOr(false), updatable.GetOr(true), args.insertable.GetOr(true),
                args.ddl.GetOr(""), counter),
          counter + 1)
  }

  /** `Field.__init__` as intended: every keyword given is stored, every one
      missing takes its default, and the field takes the next counter value. */
  function NewField(cls: FieldClass, args: FieldArgs, counter: nat): (r: Built)
    ensures r.field.order == counter && r.next == counter + 1
    ensures r.field.cls == cls && r.field.name == args.name
    ensures r.field.default == (if args.default.Some? then args.default.value else Literal(Null))
    ensures r.field.primaryKey <==> args.primaryKey == Some(true)
    ensures r.field.nullable <==> args.nullable == Some(true)
    ensures r.field.updatable <==> args.updatable != Some(false)
    ensures r.field.insertable <==> args.insertable != Some(false)
    ensures r.field.ddl == (if args.ddl.Some? then args.ddl.value else "")
  {
    FieldInit(cls, args, counter, false)
  }

  /** `Field.__init__` as written: `updatable` is looked up under the key
      `updatabla`. */
  function NewFieldAsWritten(cls: FieldClass, args: FieldArgs, counter: nat): Built {
    FieldInit(cls, args, counter, true)
  }

  /** As written, passing `updatable=False` has no effect; as intended, it
      makes the field non-updatable. */
  lemma UpdatableKeyIgnored(cls: FieldClass, args: FieldArgs, counter: nat)
    requires args.updatabla.None?
    ensures NewFieldAsWritten(cls, args.(updatable := Some(false)), counter).field.updatable
    ensures !NewField(cls, args.(updatable := Some(false)), counter).field.updatable
    ensures NewFieldAsWritten(cls, args, counter).field == NewField(cls, args.(updatable := None), counter).field
  {
  }

  /** The default a typed subclass supplies when `default` is not passed. */
  function KindDefault(kind: ColumnKind): Value {
    match kind
    case StringKind => Str("")
    case IntegerKind => Int(0)
    case FloatKind => Real(0.0)
    case BooleanKind => Bool(false)
    case TextKind => Str("")
    case BlobKind => Str("")
  }

  /** The column type a typed subclass supplies when `ddl` is not passed. */
  function KindDdl(kind: ColumnKind): string {
    match kind
    case StringKind => "varchar(255)"
    case IntegerKind => "bigint"
    case FloatKind => "real"
    case BooleanKind => "bool"
    case TextKind => "text"
    case BlobKind => "blob"
  }

  /** `StringField(**kw)`, `IntegerField(**kw)`, ...: fill in `default` and
      `ddl` only when absent, then the base constructor. */
  function ColumnField(kind: ColumnKind, args: FieldArgs, counter: nat): (r: Built)
    ensures r.field.cls == Column(kind) && r.field.order == counter && r.next == counter + 1
    ensures args.default.None? ==> r.field.default == Literal(KindDefault(kind))
    ensures args.default.Some? ==> r.field.default == args.default.value
    ensures args.ddl.None? ==> r.field.ddl == KindDdl(kind)
    ensures args.ddl.Some? ==> r.field.ddl == args.ddl.value
    ensures r.field == NewField(Column(kind), args, counter).field.(default := r.field.default, ddl := r.field.ddl)
  {
    var filled := args.(default := Some(args.default.GetOr(Literal(KindDefault(kind)))),
                        ddl := Some(args.ddl.GetOr(KindDdl(kind))));
    NewField(Column(kind), filled, counter)
  }

  /** `VersionField(name)`: default 0, column type `bigint`, all flags at
      their defaults. */
  function VersionFieldOf(name: Option<string>, counter: nat): (r: Built)
    ensures r.field == Field(Version, name, Literal(Int(0)), false, false, true, true, "bigint", counter)
    ensures r.next == counter + 1
  {
    NewField(Version, NoArgs.(name := name, default := Some(Literal(Int(0))), ddl := Some("bigint")), counter)
  }

  /** One field declaration in a class body. */
  datatype Decl =
    | BaseDecl(args: FieldArgs)
    | ColumnDecl(kind: ColumnKind, args: FieldArgs)
    | VersionDecl(name: Option<string>)

  function Declare(d: Decl, counter: nat): (r: Built)
    ensures r.field.order == counter && r.next == counter + 1
  {
    match d
    case BaseDecl(args) => NewField(BaseField, args, counter)
    case ColumnDecl(kind, args) => ColumnField(kind, args, counter)
    case VersionDecl(name) => VersionFieldOf(name, counter)
  }

  /** Declarations evaluated one after the other against the shared counter:
      each field's order is the counter's value before it, so later fields
      have strictly larger orders. */
  function DeclareAll(ds: seq<Decl>, counter: nat): (r: (seq<Field>, nat))
    ensures |r.0| == |ds| && r.1 == counter + |ds|
    ensures forall i :: 0 <= i < |ds| ==> r.0[i] == Declare(ds[i], counter + i).field
    ensures forall i :: 0 <= i < |ds| ==> r.0[i].order == counter + i
    ensures forall i, j :: 0 <= i < j < |ds| ==> r.0[i].order < r.0[j].order
    decreases |ds|
  {
    if |ds| == 0 then ([], counter)
    else
      var b := Declare(ds[0], counter);
      var rest := DeclareAll(ds[1..], b.next);
      DeclareCons(ds, counter, b, rest);
      ([b.field] + rest.0, rest.1)
  }

  /** The inductive step of `DeclareAll`: the first field, then the rest
      declared from the next counter value. */
  lemma DeclareCons(ds: seq<Decl>, counter: nat, b: Built, rest: (seq<Field>, nat))
    requires |ds| > 0 && b == Declare(ds[0], counter)
    requires |rest.0| == |ds| - 1 && rest.1 == b.next + |ds| - 1
    requires forall i :: 0 <= i < |ds| - 1 ==> rest.0[i] == Declare(ds[1..][i], b.next + i).field
    requires forall i :: 0 <= i < |ds| - 1 ==> rest.0[i].order == b.next + i
    ensures var fs := [b.field] + rest.0;
            && (forall i :: 0 <= i < |ds| ==> fs[i] == Declare(ds[i], counter + i).field)
            && (forall i :: 0 <= i < |ds| ==> fs[i].order == counter + i)
  {
    var fs := [b.field] + rest.0;
    assert b.next == counter + 1;
    forall i | 1 <= i < |ds|
      ensures fs[i] == Declare(ds[i], counter + i).field && fs[i].order == counter + i
    {
      assert fs[i] == rest.0[i - 1];
      assert ds[1..][i - 1] == ds[i];
      assert b.next + (i - 1) == counter + i;
    }
  }

  /** The values of `k` successive reads of the `default` property, where
      `calls(i)` is what the stored callable answers on its i-th call: a
      callable default is called again on every read, any other default is
      returned as stored and the callable is never asked. */
  function DefaultReads(f: Field, calls: nat -> Value, k: nat): (r: seq<Value>)
    ensures |r| == k
    ensures f.default.Generator? ==> forall i :: 0 <= i < k ==> r[i] == calls(i)
    ensures f.default.Literal? ==> forall i :: 0 <= i < k ==> r[i] == f.default.v
    decreases k
  {
    if k == 0 then []
    else
      var read := match f.default
        case Literal(x) => x
        case Generator(_) => calls(k - 1);
      DefaultReads(f, calls, k - 1) + [read]
  }

  /** No read of a callable default reuses an earlier result: when the
      callable never answers the same twice, no two reads agree. */
  lemma GeneratorReadsDiffer(f: Field, calls: nat -> Value, k: nat, i: nat, j: nat)
    requires f.default.Generator?
    requires forall a: nat, b: nat :: calls(a) == calls(b) ==> a == b
    requires i < j < k
    ensures DefaultReads(f, calls, k)[i] != DefaultReads(f, calls, k)[j]
  {
  }

  /** The reads of a literal default do not depend on any callable. */
  lemma LiteralDefaultIsFixed(f: Field, calls1: nat -> Value, calls2: nat -> Value, k: nat)
    requires f.default.Literal?
    ensures DefaultReads(f, calls1, k) == DefaultReads(f, calls2, k)
  {
  }

  /** The flag letters of `__str__`: N, U, I for nullable, updatable,
      insertable, in that order. */
  function Flags(f: Field): (s: string)
    ensures |s| <= 3
  {
    (if f.nullable then "N" else "") + (if f.updatable then "U" else "") + (if f.insertable then "I" else "")
  }

  /** The flags can be read back from the letters. */
  lemma FlagsRoundTrip(f: Field)
    ensures ('N' in Flags(f)) <==> f.nullable
    ensures ('U' in Flags(f)) <==> f.updatable
    ensures ('I' in Flags(f)) <==> f.insertable
  {
    var n := if f.nullable then "N" else "";
    var u := if f.updatable then "U" else "";
    var i := if f.insertable then "I" else "";
    assert Flags(f) == n + u + i;
    assert 'N' !in u + i;
    assert 'U' !in n && 'U' !in i;
    assert 'I' !in n + u;
  }

  /** `'%s' % name`. */
  function NameText(name: Option<string>): string {
    match name
    case None => "None"
    case Some(s) => s
  }

  /** `Field.__str__`, given the text of the stored default (`str()` of the
      value or callable, which the model leaves to the caller). */
  function FieldText(f: Field, shownDefault: string): (s: string)
    ensures |s| >= 4 && s[..2] == "< " && s[|s| - 1] == '>'
    ensures "< " + ClassName(f.cls) + ": " <= s
    ensures "< " + ClassName(f.cls) + ": " + NameText(f.name) + ", " + f.ddl + ", default (" <= s
    ensures s[|s| - 1 - |Flags(f)|..|s| - 1] == Flags(f)
  {
    "< " + ClassName(f.cls) + ": " + NameText(f.name) + ", " + f.ddl + ", default (" + shownDefault + "), "
      + Flags(f) + ">"
  }

  /** The text names the field's class unambiguously: two fields whose texts
      agree were built from the same class. */
  lemma FieldTextShowsClass(f: Field, g: Field, d1: string, d2: string)
    requires FieldText(f, d1) == FieldText(g, d2)
    ensures f.cls == g.cls
  {
    var s := FieldText(f, d1);
    var c1, c2 := ClassName(f.cls), ClassName(g.cls);
    ClassNameNoColon(f.cls);
    ClassNameNoColon(g.cls);
    assert ("< " + c1 + ": ")[2 + |c1|] == ':' && ("< " + c2 + ": ")[2 + |c2|] == ':';
    if |c1| != |c2| {
      assert false;
    }
    assert c1 == s[2..2 + |c1|] == c2;
  }

  lemma ClassNameNoColon(c: FieldClass)
    ensures ':' !in ClassName(c)
  {
  }
}
