/**
 * Rendering of the database schema into the text handed to the model
 * (the startup loop of `main`). The database queries themselves are not
 * modelled: each table arrives with the outcome of its column listing.
 */
module Schema {

  /** One database column: its name and its SQL type as the database reports them. */
  datatype Column = Column(name: string, sqlType: string)

  /** The outcome of reading one table's columns. */
  datatype ColumnListing = Listed(columns: seq<Column>) | ListingFailed

  /** A table name, in database order, with the outcome of its column listing. */
  datatype TableEntry = TableEntry(name: string, listing: ColumnListing)

  function HeaderLine(name: string): string
  {
    "Table: " + name
  }

  function ColumnLine(c: Column): string
  {
    " - " + c.name + " (" + c.sqlType + ")"
  }

  /** The column lines of a listing, each terminated by a newline. */
  function RenderColumns(cols: seq<Column>): string
  {
    if cols == [] then "" else ColumnLine(cols[0]) + "\n" + RenderColumns(cols[1..])
  }

  /**
   * One table's contribution: its header, then, only when its columns were
   * read, one line per column and a blank line.
   */
  function RenderTable(t: TableEntry): string
  {
    HeaderLine(t.name) + "\n" +
    match t.listing
    case Listed(cols) => RenderColumns(cols) + "\n"
    case ListingFailed => ""
  }

  /** The schema text: the tables' contributions in order. */
  function RenderSchema(tables: seq<TableEntry>): (r: string)
    ensures r == [] <==> tables == []
    ensures tables != [] ==> HeaderLine(tables[0].name) + "\n" <= r
  {
    if tables == [] then "" else RenderTable(tables[0]) + RenderSchema(tables[1..])
  }

  /** Column rendering distributes over concatenation of column lists. */
  lemma {:induction false} RenderColumnsAppend(a: seq<Column>, b: seq<Column>)
    ensures RenderColumns(a + b) == RenderColumns(a) + RenderColumns(b)
    decreases |a|
  {
    if a == [] {
      assert a + b == b;
    } else {
      assert (a + b)[1..] == a[1..] + b;
      RenderColumnsAppend(a[1..], b);
    }
  }

  /** Rendering distributes over concatenation of table lists. */
  lemma {:induction false} RenderSchemaAppend(a: seq<TableEntry>, b: seq<TableEntry>)
    ensures RenderSchema(a + b) == RenderSchema(a) + RenderSchema(b)
    decreases |a|
  {
    if a == [] {
      assert a + b == b;
    } else {
      assert (a + b)[1..] == a[1..] + b;
      RenderSchemaAppend(a[1..], b);
    }
  }

  /**
   * A table whose column listing failed contributes only its header, and the
   * tables after it are still rendered.
   */
  lemma FailedTableKeepsHeader(before: seq<TableEntry>, name: string, after: seq<TableEntry>)
    ensures RenderSchema(before + [TableEntry(name, ListingFailed)] + after)
         == RenderSchema(before) + "Table: " + name + "\n" + RenderSchema(after)
  {
    RenderSchemaAppend(before + [TableEntry(name, ListingFailed)], after);
    RenderSchemaAppend(before, [TableEntry(name, ListingFailed)]);
  }

  /** The inner loop of startup: appends one line per column, in order. */
  method AppendColumns(schema: string, columns: seq<Column>) returns (out: string)
    ensures out == schema + RenderColumns(columns)
  {
    out := schema;
    var k := 0;
    while k < |columns|
      invariant k <= |columns|
      invariant out == schema + RenderColumns(columns[..k])
    {
      var line := " - " + columns[k].name + " (" + columns[k].sqlType + ")\n";
      assert line == RenderColumns([columns[k]]) by {
        assert [columns[k]][1..] == [];
      }
      RenderColumnsAppend(columns[..k], [columns[k]]);
      assert columns[..k + 1] == columns[..k] + [columns[k]];
      out := out + line;
      k := k + 1;
    }
    assert columns[..k] == columns;
  }

  /** One iteration of the startup loop: the header, then the columns and a blank line unless the read failed. */
  method AppendTable(schema: string, table: TableEntry) returns (out: string)
    ensures out == schema + RenderTable(table)
  {
    out := schema + "Table: " + table.name + "\n";
    ghost var withHeader := out;
    assert withHeader == schema + (HeaderLine(table.name) + "\n");
    match table.listing {
      case ListingFailed =>
      case Listed(columns) =>
        out := AppendColumns(out, columns);
        out := out + "\n";
        assert out == withHeader + (RenderColumns(columns) + "\n");
    }
  }

  /**
   * The startup loop: appends each table's header, then, unless the column
   * read failed, its column lines and a blank line.
   */
  method BuildSchema(tables: seq<TableEntry>) returns (schema: string)
    ensures schema == RenderSchema(tables)
  {
    schema := "";
    var i := 0;
    while i < |tables|
      invariant i <= |tables|
      invariant schema == RenderSchema(tables[..i])
    {
      schema := AppendTable(schema, tables[i]);
      RenderSchemaSnoc(tables, i);
      i := i + 1;
    }
    assert tables[..i] == tables;
  }

  lemma RenderSchemaSnoc(tables: seq<TableEntry>, i: nat)
    requires i < |tables|
    ensures RenderSchema(tables[..i + 1]) == RenderSchema(tables[..i]) + RenderTable(tables[i])
  {
    assert tables[..i + 1] == tables[..i] + [tables[i]];
    RenderSchemaAppend(tables[..i], [tables[i]]);
    assert [tables[i]][1..] == [];
  }
}
