/** The run orchestrator: for each configured table, the catalog's answers are
    turned into the history-table DDL (create on first run, otherwise modify,
    drop and add), the `DROP TRIGGER` lines and the three audit triggers. */
module Generator {
  import opened Seqs
  import opened Schema
  import opened Diff
  import opened Render
  import opened Triggers

  /** What the catalog reported for one configured table: its columns, the
      columns of its history table and the names of its installed triggers. */
  datatype CatalogSnapshot = CatalogSnapshot(
    table: string,
    columns: seq<Field>,
    historyColumns: seq<Field>,
    triggers: seq<string>)

  /** Keeps a column unless it is one of the audit columns. */
  function NotReserved(suffix: string): (p: Field -> bool)
    ensures forall f :: p(f) <==> !IsReserved(suffix, f.Name)
  {
    (f: Field) => !IsReserved(suffix, f.Name)
  }

  /** The drop list: the history columns the source lacks, minus the audit
      columns. */
  function WithoutReserved(suffix: string, del: seq<Field>): (r: seq<Field>)
    ensures forall f :: f in r <==> f in del && !IsReserved(suffix, f.Name)
    ensures IsSubsequence(r, del)
  {
    FilterMembers(NotReserved(suffix), del);
    FilterIsSubsequence(NotReserved(suffix), del);
    Filter(NotReserved(suffix), del)
  }

  /** The reserved-column filter applied to `Sub(history, source)` before the
      `DROP COLUMN` statements are rendered. */
  method DropList(suffix: string, del: seq<Field>) returns (dels: seq<Field>)
    ensures dels == WithoutReserved(suffix, del)
    ensures forall f :: f in dels ==> f.Name != suffix + "_id" && f.Name != suffix + "_type" && f.Name != suffix + "_date"
    ensures forall f :: f in del && !IsReserved(suffix, f.Name) ==> f in dels
  {
    dels := [];
    for i := 0 to |del|
      invariant dels == Filter(NotReserved(suffix), del[..i])
    {
      var v := del[i];
      FilterStep(NotReserved(suffix), del, i);
      if IsReserved(suffix, v.Name) {
        continue;
      }
      dels := dels + [v];
    }
    assert del[..|del|] == del;
  }

  /** The columns whose type is changed, dropped and added when the history
      table exists, in the order their statements are emitted. */
  function Modified(from: Table, his: Table): seq<Field> { Changed(Some(from), Some(his)) }
  function Removed(suffix: string, from: Table, his: Table): seq<Field> { WithoutReserved(suffix, Missing(Some(his), Some(from))) }
  function Added(from: Table, his: Table): seq<Field> { Missing(Some(from), Some(his)) }

  /** The template arguments before any column list is filled in. */
  function BaseArgs(suffix: string, from: Table): TemplateArgs
  {
    TemplateArgs(suffix, from, Table("", []), [], [], [])
  }

  /** The history-table DDL: `CREATE TABLE` with every source column when the
      history table is absent, otherwise the MODIFY, DROP and ADD statements. */
  function HistoryDdl(suffix: string, from: Table, his: Option<Table>): string
  {
    match his
    case None => CreateHistoryTable(BaseArgs(suffix, from).(AddField := Missing(Some(from), None)))
    case Some(h) =>
      Statements(Modify, from.Name, suffix, Modified(from, h))
      + Statements(Drop, from.Name, suffix, Removed(suffix, from, h))
      + Statements(Add, from.Name, suffix, Added(from, h))
  }

  /** The three audit triggers of the source table. */
  function TriggerScript(suffix: string, from: Table): string
  {
    var args := BaseArgs(suffix, from);
    Trigger(Insert, args) + Trigger(Update, args) + Trigger(Delete, args)
  }

  /** Everything written for one configured table. */
  function TableScript(suffix: string, snap: CatalogSnapshot): string
    requires snap.columns != []
  {
    var from := Table(snap.table, snap.columns);
    var his := FromCatalog(HistoryName(snap.table, suffix), snap.historyColumns);
    "\n-- " + snap.table + "\n"
    + HistoryDdl(suffix, from, his)
    + DropLines(DroppedTriggers(snap.table, snap.triggers))
    + TriggerScript(suffix, from)
  }

  /** Generates the SQL for one configured table from the catalog's answers. The
      source table must exist: the source dereferences it unchecked. */
  method GenerateTable(suffix: string, snap: CatalogSnapshot) returns (out: string)
    requires snap.columns != []
    ensures out == TableScript(suffix, snap)
  {
    var header := "\n-- " + snap.table + "\n";
    var fromTable := FromCatalog(snap.table, snap.columns);
    var hisTable := FromCatalog(HistoryName(snap.table, suffix), snap.historyColumns);
    var from := fromTable.value;
    var args := BaseArgs(suffix, from);
    var ddl: string;
    if hisTable.None? {
      var add := Sub(fromTable, None);
      args := args.(AddField := add);
      ddl := CreateHistoryTable(args);
    } else {
      args := args.(HisTable := hisTable.value);
      var upd := UpdateSub(fromTable, hisTable);
      args := args.(UpdField := upd);
      var retyped := UpdFiled(args);
      // an empty difference leaves the drop list empty, as a nil one does
      var del := Sub(hisTable, fromTable);
      var dels := DropList(suffix, del);
      args := args.(DelField := dels);
      var drop := DelFiled(args);
      var add := Sub(fromTable, hisTable);
      args := args.(AddField := add);
      var added := AddFiled(args);
      ddl := retyped + drop + added;
    }
    assert ddl == HistoryDdl(suffix, from, hisTable);
    var drops := DropTriggers(snap.table, snap.triggers);
    TriggerReadsSourceOnly(Insert, args, BaseArgs(suffix, from));
    TriggerReadsSourceOnly(Update, args, BaseArgs(suffix, from));
    TriggerReadsSourceOnly(Delete, args, BaseArgs(suffix, from));
    var triggers := Trigger(Insert, args) + Trigger(Update, args) + Trigger(Delete, args);
    out := header + ddl + drops + triggers;
  }

  /** Everything written for the first `n` configured tables, in configuration
      order. */
  function Script(suffix: string, catalog: seq<CatalogSnapshot>, n: nat): string
    requires n <= |catalog|
    requires forall i :: 0 <= i < |catalog| ==> catalog[i].columns != []
  {
    if n == 0 then "" else Script(suffix, catalog, n - 1) + TableScript(suffix, catalog[n - 1])
  }

  /** Processes the configured tables in order, each independently. */
  method Run(suffix: string, catalog: seq<CatalogSnapshot>) returns (out: string)
    requires forall i :: 0 <= i < |catalog| ==> catalog[i].columns != []
    ensures out == Script(suffix, catalog, |catalog|)
  {
    out := "";
    for i := 0 to |catalog|
      invariant out == Script(suffix, catalog, i)
    {
      var text := GenerateTable(suffix, catalog[i]);
      out := out + text;
    }
  }

  /** A history table is in sync with its source when it holds every source
      column with the same type, has unique names, and holds no column other
      than the source's and the audit columns. */
  predicate InSync(suffix: string, from: Table, his: Table)
  {
    && UniqueNames(his.Fields)
    && (forall f :: f in from.Fields ==> f in his.Fields)
    && (forall g :: g in his.Fields ==> IsReserved(suffix, g.Name) || HasName(from.Fields, g.Name))
  }

  /** No column is in more than one of the modify, drop and add lists. */
  lemma DiffPartsDisjoint(suffix: string, from: Table, his: Table)
    ensures forall f, g :: f in Modified(from, his) && g in Removed(suffix, from, his) ==> f.Name != g.Name
    ensures forall f, g :: f in Modified(from, his) && g in Added(from, his) ==> f.Name != g.Name
    ensures forall f, g :: f in Removed(suffix, from, his) && g in Added(from, his) ==> f.Name != g.Name
  {

  }

  /** An unchanged pair of schemas yields no `ALTER TABLE` at all: only the
      trigger statements are emitted. */
  lemma InSyncNeedsNoAlter(suffix: string, from: Table, his: Table)
    requires InSync(suffix, from, his)
    ensures Modified(from, his) == [] && Removed(suffix, from, his) == [] && Added(from, his) == []
    ensures HistoryDdl(suffix, from, Some(his)) == ""
  {
    FilterNone(Retyped(his.Fields), from.Fields);
    forall f | f in from.Fields
      ensures !NameAbsent(his.Fields)(f)
    {
      assert HasName(his.Fields, f.Name);
    }
    FilterNone(NameAbsent(his.Fields), from.Fields);
    FilterNone(NotReserved(suffix), Missing(Some(his), Some(from)));
    StatementsEmptyIff(Modify, from.Name, suffix, []);
    StatementsEmptyIff(Drop, from.Name, suffix, []);
    StatementsEmptyIff(Add, from.Name, suffix, []);
  }

  /** The audit columns of a created history table as the catalog reports them
      back: the names the template declares, with whatever column types the
      catalog gives for them (`t0`, `t1`, `t2`). */
  function AuditColumns(suffix: string, t0: string, t1: string, t2: string): (r: seq<Field>)
    ensures |r| == |ReservedFields(suffix)| && forall i :: 0 <= i < |r| ==> r[i].Name == ReservedFields(suffix)[i].Name
  {
    [Field(IdColumn(suffix), t0), Field(TypeColumn(suffix), t1), Field(DateColumn(suffix), t2)]
  }

  /** A history table laid out as this generator creates it (the audit columns,
      then the source columns), read back from the catalog with any types for
      the audit columns, is in sync with its source, so a second run emits no
      `ALTER TABLE`. */
  lemma CreatedHistoryIsInSync(suffix: string, from: Table, t0: string, t1: string, t2: string)
    requires UniqueNames(AuditColumns(suffix, t0, t1, t2) + from.Fields)
    ensures InSync(suffix, from, Table(HistoryName(from.Name, suffix), AuditColumns(suffix, t0, t1, t2) + from.Fields))
    ensures HistoryDdl(suffix, from, Some(Table(HistoryName(from.Name, suffix), AuditColumns(suffix, t0, t1, t2) + from.Fields))) == ""
  {
    var audit := AuditColumns(suffix, t0, t1, t2);
    var his := Table(HistoryName(from.Name, suffix), audit + from.Fields);
    forall g | g in his.Fields
      ensures IsReserved(suffix, g.Name) || HasName(from.Fields, g.Name)
    {
      if g !in from.Fields {
        assert g in audit;
      }
    }
    InSyncNeedsNoAlter(suffix, from, his);
  }

  /** On the first run the history table is created with the three audit
      columns followed by every source column, in source order. */
  lemma FirstRunCreatesAllColumns(suffix: string, from: Table)
    requires from.Fields != []
    ensures HistoryDdl(suffix, from, None) ==
      CreateHead(BaseArgs(suffix, from))
      + Join(ColumnDefs(ReservedFields(suffix) + from.Fields), ",\n") + ","
      + KeyAndOptions(suffix)
  {
    var args := BaseArgs(suffix, from).(AddField := from.Fields);
    assert Missing(Some(from), None) == from.Fields;
    CreateListsReservedThenSource(args);
  }
}
