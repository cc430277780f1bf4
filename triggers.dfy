/** The trigger synthesizer: the quoted column lists (`Column`), the three audit
    trigger templates, and the `DROP TRIGGER` lines for previously installed
    triggers that carry one of the three generated names. */
module Triggers {
  import opened Seqs
  import opened Schema
  import opened Render

  /** The row events an audit trigger is installed for. */
  datatype Event = Insert | Update | Delete

  /** The generated trigger of `table` for `ev`. */
  function TriggerName(table: string, ev: Event): string
  {
    match ev
    case Insert => table + "_insert_tk"
    case Update => table + "_update_tk"
    case Delete => table + "_delete_tk"
  }

  /** When the trigger fires: after an insert or update, before a delete. */
  function Timing(ev: Event): string
  {
    match ev
    case Insert => "AFTER INSERT"
    case Update => "AFTER UPDATE"
    case Delete => "BEFORE DELETE"
  }

  /** The literal stored in the audit type column. */
  function Tag(ev: Event): string
  {
    match ev
    case Insert => "'insert'"
    case Update => "'update'"
    case Delete => "'delete'"
  }

  /** The row whose values are copied: the new row, or the old one on delete. */
  function RowRef(ev: Event): string
  {
    match ev
    case Insert => "NEW."
    case Update => "NEW."
    case Delete => "OLD."
  }

  /** Each column name in backticks, preceded by `prefix`, in order. */
  function QuotedNames(prefix: string, fs: seq<Field>): (r: seq<string>)
    ensures |r| == |fs|
    ensures forall i :: 0 <= i < |fs| ==> r[i] == prefix + "`" + fs[i].Name + "`"
    decreases |fs|
  {
    if fs == [] then [] else QuotedNames(prefix, fs[..|fs| - 1]) + [prefix + "`" + fs[|fs| - 1].Name + "`"]
  }

  /** The quoted names separated by ", ". */
  function ColumnList(prefix: string, fs: seq<Field>): string
  {
    Join(QuotedNames(prefix, fs), ", ")
  }

  /** Renders the comma-separated, prefixed, backtick-quoted names of `args`;
      empty exactly when there are no columns. */
  method Column(prefix: string, args: seq<Field>) returns (res: string)
    ensures res == ColumnList(prefix, args)
    ensures res == "" <==> args == []
    ensures |args| == 1 ==> res == prefix + "`" + args[0].Name + "`"
  {
    var temp: seq<string> := [];
    for i := 0 to |args|
      invariant temp == QuotedNames(prefix, args[..i])
    {
      assert args[..i + 1] == args[..i] + [args[i]];
      temp := temp + [prefix + "`" + args[i].Name + "`"];
    }
    assert args[..|args|] == args;
    JoinEmptyIff(temp, ", ");
    res := Join(temp, ", ");
  }

  /** The column list of the audit row: the audit type column, then every
      source column. */
  function InsertColumns(args: TemplateArgs): string
  {
    "`" + TypeColumn(args.HisSuffix) + "`" + ", " + ColumnList("", args.FromTable.Fields)
  }

  /** The value list of the audit row: the tag, then the copied row's columns. */
  function InsertValues(ev: Event, args: TemplateArgs): string
  {
    Tag(ev) + ", " + ColumnList(RowRef(ev), args.FromTable.Fields)
  }

  /** The audit trigger for `ev` on the source table of `args`. */
  function Trigger(ev: Event, args: TemplateArgs): string
  {
    var table := args.FromTable.Name;
    "\nCREATE TRIGGER " + TriggerName(table, ev) + " " + Timing(ev) + "\n"
    + "ON " + table + " FOR EACH ROW\n"
    + "BEGIN\n"
    + "    INSERT INTO " + HistoryName(table, args.HisSuffix)
    + "(" + InsertColumns(args) + ") VALUES (" + InsertValues(ev, args) + ");\n"
    + "END;\n"
  }

  /** A trigger reads only the suffix and the source table of its arguments,
      never the history table or the three column lists. */
  lemma TriggerReadsSourceOnly(ev: Event, a: TemplateArgs, b: TemplateArgs)
    requires a.HisSuffix == b.HisSuffix && a.FromTable == b.FromTable
    ensures Trigger(ev, a) == Trigger(ev, b)
  {

  }

  /** The entries of the audit row's column list. */
  function TargetParts(args: TemplateArgs): seq<string>
  {
    ["`" + TypeColumn(args.HisSuffix) + "`"] + QuotedNames("", args.FromTable.Fields)
  }

  /** The entries of the audit row's value list. */
  function ValueParts(ev: Event, args: TemplateArgs): seq<string>
  {
    [Tag(ev)] + QuotedNames(RowRef(ev), args.FromTable.Fields)
  }

  /** For a source table with columns, the two lists of the audit `INSERT` are
      the joins of their entries. */
  lemma InsertListsJoin(ev: Event, args: TemplateArgs)
    requires args.FromTable.Fields != []
    ensures InsertColumns(args) == Join(TargetParts(args), ", ")
    ensures InsertValues(ev, args) == Join(ValueParts(ev, args), ", ")
  {
    var fs := args.FromTable.Fields;
    JoinAppend(["`" + TypeColumn(args.HisSuffix) + "`"], QuotedNames("", fs), ", ");
    JoinAppend([Tag(ev)], QuotedNames(RowRef(ev), fs), ", ");
  }

  /** The entries of the two lists match position by position: the tag goes to
      the audit type column, and every source column receives the copied row's
      value of that same column. */
  lemma InsertListsAligned(ev: Event, args: TemplateArgs)
    ensures |TargetParts(args)| == |ValueParts(ev, args)| == |args.FromTable.Fields| + 1
    ensures TargetParts(args)[0] == "`" + TypeColumn(args.HisSuffix) + "`"
    ensures ValueParts(ev, args)[0] == Tag(ev)
    ensures forall i :: 1 <= i < |ValueParts(ev, args)| ==>
      TargetParts(args)[i] == "`" + args.FromTable.Fields[i - 1].Name + "`"
      && ValueParts(ev, args)[i] == RowRef(ev) + TargetParts(args)[i]
  {

  }

  /** `name` is one of the three triggers this generator installs on `table`. */
  predicate IsGeneratedTrigger(table: string, name: string)
  {
    name == TriggerName(table, Insert) || name == TriggerName(table, Update) || name == TriggerName(table, Delete)
  }

  function Generated(table: string): (p: string -> bool)
    ensures forall name :: p(name) <==> IsGeneratedTrigger(table, name)
  {
    (name: string) => IsGeneratedTrigger(table, name)
  }

  /** The existing triggers that are dropped before reinstalling: exactly those
      with a generated name, in catalog order. */
  function DroppedTriggers(table: string, existing: seq<string>): (r: seq<string>)
    ensures forall name :: name in r <==> name in existing && IsGeneratedTrigger(table, name)
    ensures IsSubsequence(r, existing)
  {
    FilterMembers(Generated(table), existing);
    FilterIsSubsequence(Generated(table), existing);
    Filter(Generated(table), existing)
  }

  function DropLine(name: string): string
  {
    "DROP TRIGGER " + name + ";\n"
  }

  /** One `DROP TRIGGER` line per name, in order. */
  function DropLineList(names: seq<string>): (r: seq<string>)
    ensures |r| == |names|
    ensures forall i :: 0 <= i < |names| ==> r[i] == DropLine(names[i])
    decreases |names|
  {
    if names == [] then [] else DropLineList(names[..|names| - 1]) + [DropLine(names[|names| - 1])]
  }

  function DropLines(names: seq<string>): string
  {
    Concat(DropLineList(names))
  }

  /** One more name appends its `DROP TRIGGER` line. */
  lemma DropLinesSnoc(names: seq<string>, name: string)
    ensures DropLines(names + [name]) == DropLines(names) + DropLine(name)
  {

  }

  /** Emits `DROP TRIGGER` for each existing trigger of `table` whose name is
      one of the three generated names, and for no other. */
  method DropTriggers(table: string, existing: seq<string>) returns (out: string)
    ensures out == DropLines(DroppedTriggers(table, existing))
  {
    out := "";
    for i := 0 to |existing|
      invariant out == DropLines(Filter(Generated(table), existing[..i]))
    {
      var name := existing[i];
      FilterStep(Generated(table), existing, i);
      if IsGeneratedTrigger(table, name) {
        DropLinesSnoc(Filter(Generated(table), existing[..i]), name);
        out := out + DropLine(name);
      }
    }
    assert existing[..|existing|] == existing;
  }

  /** A table none of whose triggers carries a generated name gets no
      `DROP TRIGGER` line. */
  lemma NothingToDrop(table: string, existing: seq<string>)
    requires forall name :: name in existing ==> !IsGeneratedTrigger(table, name)
    ensures DroppedTriggers(table, existing) == []
    ensures DropLines(DroppedTriggers(table, existing)) == ""
  {
    FilterNone(Generated(table), existing);
  }
}
