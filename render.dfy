/** The DDL synthesizer: the column lines of `CREATE TABLE` (`FromFields`), the
    history-table template, and one `ALTER TABLE` statement per column for
    `MODIFY`, `ADD` and `DROP` (`UpdFiled`, `AddFiled`, `DelFiled`). */
module Render {
  import opened Seqs
  import opened Schema

  /** The values every template is executed with. `HisTable` is the zero table
      when the history table is absent; the three lists are empty until set. */
  datatype TemplateArgs = TemplateArgs(
    HisSuffix: string,
    FromTable: Table,
    HisTable: Table,
    UpdField: seq<Field>,
    AddField: seq<Field>,
    DelField: seq<Field>)

  /** The history table of the source table: `<source>_<suffix>`. */
  function HistoryName(table: string, suffix: string): string
  {
    table + "_" + suffix
  }

  // The three audit columns every history table starts with.

  function IdColumn(suffix: string): string { suffix + "_id" }
  function TypeColumn(suffix: string): string { suffix + "_type" }
  function DateColumn(suffix: string): string { suffix + "_date" }

  const ID_TYPE := "bigint(20) NOT NULL AUTO_INCREMENT"
  const TYPE_TYPE := "varchar(255) DEFAULT NULL"
  const DATE_TYPE := "timestamp NOT NULL DEFAULT CURRENT_TIMESTAMP"

  /** The audit columns as the history table declares them, in order. */
  function ReservedFields(suffix: string): seq<Field>
  {
    [Field(IdColumn(suffix), ID_TYPE), Field(TypeColumn(suffix), TYPE_TYPE), Field(DateColumn(suffix), DATE_TYPE)]
  }

  /** `name` is one of the audit columns, which are never dropped. */
  predicate IsReserved(suffix: string, name: string)
  {
    name == IdColumn(suffix) || name == TypeColumn(suffix) || name == DateColumn(suffix)
  }

  /** The names the drop filter spares are exactly the names of the audit
      columns the history-table template declares. */
  lemma ReservedAreTemplateColumns(suffix: string, name: string)
    ensures IsReserved(suffix, name) <==> HasName(ReservedFields(suffix), name)
  {

  }

  /** One column line of `CREATE TABLE`: the quoted name and the type. */
  function ColumnDef(f: Field): string
  {
    "  `" + f.Name + "` " + f.Type
  }

  /** The column line of each field, in order. */
  function ColumnDefs(fs: seq<Field>): (r: seq<string>)
    ensures |r| == |fs|
    ensures forall i :: 0 <= i < |fs| ==> r[i] == ColumnDef(fs[i])
    decreases |fs|
  {
    if fs == [] then [] else ColumnDefs(fs[..|fs| - 1]) + [ColumnDef(fs[|fs| - 1])]
  }

  lemma ColumnDefsAppend(a: seq<Field>, b: seq<Field>)
    ensures ColumnDefs(a + b) == ColumnDefs(a) + ColumnDefs(b)
  {
  }

  /** The column lines joined by ",\n", with a "," always appended. */
  function FieldLines(fs: seq<Field>): string
  {
    Join(ColumnDefs(fs), ",\n") + ","
  }

  /** Renders the column lines of `CREATE TABLE` for `args`. */
  method FromFields(args: seq<Field>) returns (res: string)
    ensures res == FieldLines(args)
    ensures args == [] ==> res == ","
    ensures |args| == 1 ==> res == ColumnDef(args[0]) + ","
    ensures res[|res| - 1] == ','
  {
    var temp: seq<string> := [];
    for i := 0 to |args|
      invariant temp == ColumnDefs(args[..i])
    {
      assert args[..i + 1] == args[..i] + [args[i]];
      temp := temp + ["  `" + args[i].Name + "` " + args[i].Type];
    }
    assert args[..|args|] == args;
    res := Join(temp, ",\n") + ",";
  }

  /** The history-table template: the three audit columns, the column lines of
      `args.AddField`, the primary key and the table options. */
  function CreateHistoryTable(args: TemplateArgs): string
  {
    var s := args.HisSuffix;
    CreateHead(args) + AuditLines(s) + FieldLines(args.AddField) + KeyAndOptions(s)
  }

  /** The column lines of the three audit columns, each followed by ",\n". */
  function AuditLines(suffix: string): string
  {
    ColumnDef(Field(IdColumn(suffix), ID_TYPE)) + ",\n"
    + ColumnDef(Field(TypeColumn(suffix), TYPE_TYPE)) + ",\n"
    + ColumnDef(Field(DateColumn(suffix), DATE_TYPE)) + ",\n"
  }

  /** The first line of the history-table statement. */
  function CreateHead(args: TemplateArgs): string
  {
    "\nCREATE TABLE " + HistoryName(args.FromTable.Name, args.HisSuffix) + " (\n"
  }

  /** The lines of the history-table statement after its columns. */
  function KeyAndOptions(suffix: string): string
  {
    "\n  PRIMARY KEY (`" + IdColumn(suffix) + "`)\n) ENGINE=InnoDB AUTO_INCREMENT=1 DEFAULT CHARSET=utf8mb4;\n"
  }

  /** The audit lines are the column lines of the audit columns. */
  lemma AuditLinesAreReserved(suffix: string)
    ensures AuditLines(suffix) == Join(ColumnDefs(ReservedFields(suffix)), ",\n") + ",\n"
  {
    var sep, reserved := ",\n", ColumnDefs(ReservedFields(suffix));
    var l0, l1, l2 := reserved[0], reserved[1], reserved[2];
    assert reserved[..2][..1] == [l0];
    assert Join(reserved[..2], sep) == l0 + sep + l1;
    assert Join(reserved, sep) == Join(reserved[..2], sep) + sep + l2;
  }

  /** For a non-empty column list, the statement declares exactly the three
      audit columns followed by the given columns, each once and in order. */
  lemma CreateListsReservedThenSource(args: TemplateArgs)
    requires args.AddField != []
    ensures CreateHistoryTable(args) ==
      CreateHead(args)
      + Join(ColumnDefs(ReservedFields(args.HisSuffix) + args.AddField), ",\n") + ","
      + KeyAndOptions(args.HisSuffix)
  {
    var s, sep := args.HisSuffix, ",\n";
    var reserved, added := ColumnDefs(ReservedFields(s)), ColumnDefs(args.AddField);
    AuditLinesAreReserved(s);
    ColumnDefsAppend(ReservedFields(s), args.AddField);
    JoinAppend(reserved, added, sep);
    Regroup(CreateHead(args), Join(reserved, sep), sep, Join(added, sep), ",", KeyAndOptions(s));
  }

  /** String associativity on opaque parts: stated once here so that the proofs
      using it regroup terms without unfolding the template literals. */
  lemma AppendAssoc(x: string, y: string, z: string)
    ensures x + y + z == x + (y + z)
  {
  }

  /** Regroups the pieces of the history-table text, for the same reason. */
  lemma Regroup(h: string, r: string, sep: string, d: string, c: string, k: string)
    ensures h + (r + sep) + (d + c) + k == h + (r + sep + d) + c + k
  {
  }

  /** The three `ALTER TABLE` forms. */
  datatype Alter = Modify | Add | Drop

  /** One `ALTER TABLE` statement on the history table `<table>_<suffix>` for
      column `f`. */
  function Statement(kind: Alter, table: string, suffix: string, f: Field): string
  {
    match kind
    case Modify => "ALTER TABLE " + HistoryName(table, suffix) + " MODIFY COLUMN `" + f.Name + "` " + f.Type + ";\n"
    case Add => "ALTER TABLE " + HistoryName(table, suffix) + " ADD COLUMN `" + f.Name + "` " + f.Type + ";\n"
    case Drop => "ALTER TABLE " + HistoryName(table, suffix) + " DROP COLUMN `" + f.Name + "`;\n"
  }

  /** Every statement names the history table and ends in ";\n". */
  lemma StatementShape(kind: Alter, table: string, suffix: string, f: Field)
    ensures var r, head := Statement(kind, table, suffix, f), "ALTER TABLE " + HistoryName(table, suffix) + " ";
      |r| > |head| + 2 && r[..|head|] == head && r[|r| - 2..] == ";\n"
  {
  }

  /** The statement of each column, in order. */
  function StatementList(kind: Alter, table: string, suffix: string, fs: seq<Field>): (r: seq<string>)
    ensures |r| == |fs|
    ensures forall i :: 0 <= i < |fs| ==> r[i] == Statement(kind, table, suffix, fs[i])
    decreases |fs|
  {
    if fs == [] then []
    else StatementList(kind, table, suffix, fs[..|fs| - 1]) + [Statement(kind, table, suffix, fs[|fs| - 1])]
  }

  /** The statements for `fs`, one per column, concatenated in list order. */
  function Statements(kind: Alter, table: string, suffix: string, fs: seq<Field>): string
  {
    Concat(StatementList(kind, table, suffix, fs))
  }

  /** Rendering one more column appends its statement. */
  lemma StatementsSnoc(kind: Alter, table: string, suffix: string, fs: seq<Field>, f: Field)
    ensures Statements(kind, table, suffix, fs + [f]) == Statements(kind, table, suffix, fs) + Statement(kind, table, suffix, f)
  {

  }

  /** Rendering a concatenation of lists renders each list in turn. */
  lemma {:induction false} StatementsAppend(kind: Alter, table: string, suffix: string, a: seq<Field>, b: seq<Field>)
    ensures Statements(kind, table, suffix, a + b) == Statements(kind, table, suffix, a) + Statements(kind, table, suffix, b)
    decreases |b|
  {
    if b == [] {
      assert a + b == a;
    } else {
      var init, last := b[..|b| - 1], b[|b| - 1];
      assert a + b == (a + init) + [last];
      assert b == init + [last];
      StatementsSnoc(kind, table, suffix, a + init, last);
      StatementsSnoc(kind, table, suffix, init, last);
      StatementsAppend(kind, table, suffix, a, init);
      AppendAssoc(Statements(kind, table, suffix, a), Statements(kind, table, suffix, init), Statement(kind, table, suffix, last));
    }
  }

  /** Rendering the next column of `fs` appends its statement. */
  lemma StatementsStep(kind: Alter, table: string, suffix: string, fs: seq<Field>, i: nat)
    requires i < |fs|
    ensures Statements(kind, table, suffix, fs[..i + 1]) == Statements(kind, table, suffix, fs[..i]) + Statement(kind, table, suffix, fs[i])
  {
    assert fs[..i + 1] == fs[..i] + [fs[i]];
    StatementsSnoc(kind, table, suffix, fs[..i], fs[i]);
  }

  /** Exactly the empty list renders to nothing. */
  lemma StatementsEmptyIff(kind: Alter, table: string, suffix: string, fs: seq<Field>)
    ensures Statements(kind, table, suffix, fs) == "" <==> fs == []
  {

  }

  /** `ALTER TABLE <history> MODIFY COLUMN` for each column of `args.UpdField`. */
  method UpdFiled(args: TemplateArgs) returns (res: string)
    ensures res == Statements(Modify, args.FromTable.Name, args.HisSuffix, args.UpdField)
    ensures res == "" <==> args.UpdField == []
  {
    res := "";
    for i := 0 to |args.UpdField|
      invariant res == Statements(Modify, args.FromTable.Name, args.HisSuffix, args.UpdField[..i])
    {
      StatementsStep(Modify, args.FromTable.Name, args.HisSuffix, args.UpdField, i);
      res := res + Statement(Modify, args.FromTable.Name, args.HisSuffix, args.UpdField[i]);
    }
    assert args.UpdField[..|args.UpdField|] == args.UpdField;
    StatementsEmptyIff(Modify, args.FromTable.Name, args.HisSuffix, args.UpdField);
  }

  /** `ALTER TABLE <history> ADD COLUMN` for each column of `args.AddField`. */
  method AddFiled(args: TemplateArgs) returns (res: string)
    ensures res == Statements(Add, args.FromTable.Name, args.HisSuffix, args.AddField)
    ensures res == "" <==> args.AddField == []
  {
    res := "";
    for i := 0 to |args.AddField|
      invariant res == Statements(Add, args.FromTable.Name, args.HisSuffix, args.AddField[..i])
    {
      StatementsStep(Add, args.FromTable.Name, args.HisSuffix, args.AddField, i);
      res := res + Statement(Add, args.FromTable.Name, args.HisSuffix, args.AddField[i]);
    }
    assert args.AddField[..|args.AddField|] == args.AddField;
    StatementsEmptyIff(Add, args.FromTable.Name, args.HisSuffix, args.AddField);
  }

  /** `ALTER TABLE <history> DROP COLUMN` for each column of `args.DelField`. */
  method DelFiled(args: TemplateArgs) returns (res: string)
    ensures res == Statements(Drop, args.FromTable.Name, args.HisSuffix, args.DelField)
    ensures res == "" <==> args.DelField == []
  {
    res := "";
    for i := 0 to |args.DelField|
      invariant res == Statements(Drop, args.FromTable.Name, args.HisSuffix, args.DelField[..i])
    {
      StatementsStep(Drop, args.FromTable.Name, args.HisSuffix, args.DelField, i);
      res := res + Statement(Drop, args.FromTable.Name, args.HisSuffix, args.DelField[i]);
    }
    assert args.DelField[..|args.DelField|] == args.DelField;
    StatementsEmptyIff(Drop, args.FromTable.Name, args.HisSuffix, args.DelField);
  }
}
