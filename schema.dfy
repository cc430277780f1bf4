/** The schema model: one column (`Field`) and one table (`Table`) as the
    information_schema catalog reports them, and an optional table. */
module Schema {

  datatype Option<+T> = None | Some(value: T)

  /** One column: its name and its declared SQL type, compared verbatim. */
  datatype Field = Field(Name: string, Type: string)

  /** A table's name and its columns in catalog order. */
  datatype Table = Table(Name: string, Fields: seq<Field>)

  /** Some column of `fields` is called `name`. */
  predicate HasName(fields: seq<Field>, name: string)
  {
    exists f :: f in fields && f.Name == name
  }

  /** The catalog invariant: no two columns of a table share a name. */
  predicate UniqueNames(fields: seq<Field>)
  {
    forall i, j :: 0 <= i < j < |fields| ==> fields[i].Name != fields[j].Name
  }

  /** What the catalog lookup yields for table `name` whose column query returned
      `rows`: no table when there are no rows, whether the table is missing or has
      no columns, and otherwise the table with those rows in order. */
  function FromCatalog(name: string, rows: seq<Field>): (t: Option<Table>)
    ensures t.None? <==> rows == []
    ensures t.Some? ==> t.value.Name == name && t.value.Fields == rows
  {
    if rows == [] then None else Some(Table(name, rows))
  }
}
