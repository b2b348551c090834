/**
 * The line structure of the rendered schema. `Lines` is an independent
 * description of what the renderer emits, line by line; `SplitLines` reads a
 * text back into its lines. Together they show that a reader of the schema
 * text finds exactly one header per table, in order, and exactly one column
 * line per column that was read, in order.
 */
module SchemaLayout {
  import opened Wrappers
  import opened Text
  import opened Schema

  const HeaderPrefix: string := "Table: "
  const ColumnPrefix: string := " - "

  predicate StartsWith(line: string, prefix: string)
  {
    |prefix| <= |line| && line[..|prefix|] == prefix
  }

  /** The lines one table contributes, without their newline terminators. */
  function TableLines(t: TableEntry): seq<string>
  {
    [HeaderLine(t.name)] +
    match t.listing
    case Listed(cols) => ColumnLines(cols) + [""]
    case ListingFailed => []
  }

  function ColumnLines(cols: seq<Column>): seq<string>
  {
    if cols == [] then [] else [ColumnLine(cols[0])] + ColumnLines(cols[1..])
  }

  /** Every line of the schema, in order. */
  function Lines(tables: seq<TableEntry>): seq<string>
  {
    if tables == [] then [] else TableLines(tables[0]) + Lines(tables[1..])
  }

  /** Newline-terminated lines laid end to end. */
  function JoinLines(ls: seq<string>): string
  {
    if ls == [] then "" else ls[0] + "\n" + JoinLines(ls[1..])
  }

  /** Reads a text back into its lines; a last line without a terminator is kept. */
  function SplitLines(s: string): seq<string>
    decreases |s|
  {
    if s == [] then []
    else
      match IndexFrom(s, "\n", 0)
      case None => [s]
      case Some(i) => [s[..i]] + SplitLines(s[i + 1..])
  }

  /** The names carried by the header lines, in order. */
  function HeaderNames(ls: seq<string>): seq<string>
  {
    if ls == [] then []
    else (if StartsWith(ls[0], HeaderPrefix) then [ls[0][|HeaderPrefix|..]] else []) + HeaderNames(ls[1..])
  }

  /** The column lines, in order. */
  function ColumnLinesIn(ls: seq<string>): seq<string>
  {
    if ls == [] then []
    else (if StartsWith(ls[0], ColumnPrefix) then [ls[0]] else []) + ColumnLinesIn(ls[1..])
  }

  function TableNames(tables: seq<TableEntry>): seq<string>
  {
    if tables == [] then [] else [tables[0].name] + TableNames(tables[1..])
  }

  /** Every column that was read, in table order and then column order. */
  function ReadColumns(tables: seq<TableEntry>): seq<Column>
  {
    if tables == [] then []
    else
      (match tables[0].listing
       case Listed(cols) => cols
       case ListingFailed => []) + ReadColumns(tables[1..])
  }

  predicate SingleLine(s: string)
  {
    '\n' !in s
  }

  /** No table name, column name or column type contains a newline. */
  predicate SingleLineNames(tables: seq<TableEntry>)
  {
    forall t :: t in tables ==>
      && SingleLine(t.name)
      && (t.listing.Listed? ==>
            forall c :: c in t.listing.columns ==> SingleLine(c.name) && SingleLine(c.sqlType))
  }

  lemma {:induction false} JoinLinesAppend(a: seq<string>, b: seq<string>)
    ensures JoinLines(a + b) == JoinLines(a) + JoinLines(b)
    decreases |a|
  {
    if a == [] {
      assert a + b == b;
    } else {
      assert (a + b)[0] == a[0];
      assert (a + b)[1..] == a[1..] + b;
      JoinLinesAppend(a[1..], b);
    }
  }

  lemma {:induction false} ColumnLinesJoin(cols: seq<Column>)
    ensures JoinLines(ColumnLines(cols)) == RenderColumns(cols)
    decreases |cols|
  {
    if cols != [] {
      ColumnLinesJoin(cols[1..]);
      JoinLinesAppend([ColumnLine(cols[0])], ColumnLines(cols[1..]));
    }
  }

  lemma TableLinesJoin(t: TableEntry)
    ensures JoinLines(TableLines(t)) == RenderTable(t)
  {
    var header := HeaderLine(t.name);
    assert JoinLines([header]) == header + "\n";
    match t.listing
    case ListingFailed =>
      assert TableLines(t) == [header];
    case Listed(cols) =>
      ColumnLinesJoin(cols);
      assert JoinLines([""]) == "\n";
      JoinLinesAppend(ColumnLines(cols), [""]);
      JoinLinesAppend([header], ColumnLines(cols) + [""]);
  }

  /** The renderer emits exactly the lines `Lines` describes, each followed by a newline. */
  lemma {:induction false} RenderSchemaIsJoinedLines(tables: seq<TableEntry>)
    ensures RenderSchema(tables) == JoinLines(Lines(tables))
    decreases |tables|
  {
    if tables != [] {
      RenderSchemaIsJoinedLines(tables[1..]);
      TableLinesJoin(tables[0]);
      JoinLinesAppend(TableLines(tables[0]), Lines(tables[1..]));
    }
  }

  /** Splitting text that starts with a newline-free line peels that line off. */
  lemma SplitLinesCons(l: string, rest: string)
    requires SingleLine(l)
    ensures SplitLines(l + "\n" + rest) == [l] + SplitLines(rest)
  {
    var s := l + "\n" + rest;
    assert s[|l|..|l| + 1] == "\n";
    assert OccursAt(s, "\n", |l|);
    forall k | 0 <= k < |l|
      ensures !OccursAt(s, "\n", k)
    {
      assert s[k..k + 1][0] == l[k];
    }
    assert IndexFrom(s, "\n", 0) == Some(|l|);
    assert s[..|l|] == l;
    assert s[|l| + 1..] == rest;
  }

  /** Reading joined lines back gives the lines, provided none holds a newline. */
  lemma {:induction false} SplitJoinLines(ls: seq<string>)
    requires forall l :: l in ls ==> SingleLine(l)
    ensures SplitLines(JoinLines(ls)) == ls
    decreases |ls|
  {
    if ls != [] {
      SplitLinesCons(ls[0], JoinLines(ls[1..]));
      SplitJoinLines(ls[1..]);
    }
  }

  lemma {:induction false} LinesAreSingle(tables: seq<TableEntry>)
    requires SingleLineNames(tables)
    ensures forall l :: l in Lines(tables) ==> SingleLine(l)
    decreases |tables|
  {
    if tables != [] {
      LinesAreSingle(tables[1..]);
      var t := tables[0];
      assert t in tables;
      match t.listing
      case ListingFailed =>
      case Listed(cols) =>
        ColumnLinesAreSingle(cols);
    }
  }

  lemma {:induction false} ColumnLinesAreSingle(cols: seq<Column>)
    requires forall c :: c in cols ==> SingleLine(c.name) && SingleLine(c.sqlType)
    ensures forall l :: l in ColumnLines(cols) ==> SingleLine(l)
    decreases |cols|
  {
    if cols != [] {
      ColumnLinesAreSingle(cols[1..]);
      assert cols[0] in cols;
    }
  }

  lemma {:induction false} HeaderNamesAppend(a: seq<string>, b: seq<string>)
    ensures HeaderNames(a + b) == HeaderNames(a) + HeaderNames(b)
    decreases |a|
  {
    if a == [] {
      assert a + b == b;
    } else {
      assert (a + b)[0] == a[0];
      assert (a + b)[1..] == a[1..] + b;
      HeaderNamesAppend(a[1..], b);
    }
  }

  lemma {:induction false} ColumnLinesInAppend(a: seq<string>, b: seq<string>)
    ensures ColumnLinesIn(a + b) == ColumnLinesIn(a) + ColumnLinesIn(b)
    decreases |a|
  {
    if a == [] {
      assert a + b == b;
    } else {
      assert (a + b)[0] == a[0];
      assert (a + b)[1..] == a[1..] + b;
      ColumnLinesInAppend(a[1..], b);
    }
  }

  lemma ColumnLineIsColumn(c: Column)
    ensures StartsWith(ColumnLine(c), ColumnPrefix)
    ensures !StartsWith(ColumnLine(c), HeaderPrefix)
  {
    var line := ColumnLine(c);
    assert line[0] == ' ';
    assert line[..|ColumnPrefix|] == ColumnPrefix;
  }

  /** Column lines are recognised as column lines and never as headers. */
  lemma {:induction false} ColumnLinesClassified(cols: seq<Column>)
    ensures HeaderNames(ColumnLines(cols)) == []
    ensures ColumnLinesIn(ColumnLines(cols)) == ColumnLines(cols)
    decreases |cols|
  {
    if cols != [] {
      var line := ColumnLine(cols[0]);
      ColumnLineIsColumn(cols[0]);
      ColumnLinesClassified(cols[1..]);
      var ls := ColumnLines(cols);
      assert ls[0] == line;
      assert ls[1..] == ColumnLines(cols[1..]);
    }
  }

  /** The lines of one table yield its name once and its column lines, if read. */
  lemma TableLinesClassified(t: TableEntry)
    ensures HeaderNames(TableLines(t)) == [t.name]
    ensures ColumnLinesIn(TableLines(t)) == ColumnLines(ReadColumns([t]))
  {
    var header := HeaderLine(t.name);
    assert header[..|HeaderPrefix|] == HeaderPrefix;
    assert header[|HeaderPrefix|..] == t.name;
    assert header[0] == 'T';
    assert HeaderNames([header]) == [t.name];
    assert ColumnLinesIn([header]) == [];
    assert [t][1..] == [];
    match t.listing
    case ListingFailed =>
    case Listed(cols) =>
      assert ReadColumns([t]) == cols + [] == cols;
      assert ColumnLinesIn([""]) == [];
      ColumnLinesClassified(cols);
      HeaderNamesAppend([header], ColumnLines(cols) + [""]);
      HeaderNamesAppend(ColumnLines(cols), [""]);
      ColumnLinesInAppend([header], ColumnLines(cols) + [""]);
      ColumnLinesInAppend(ColumnLines(cols), [""]);
  }

  lemma {:induction false} ColumnLinesAppend(a: seq<Column>, b: seq<Column>)
    ensures ColumnLines(a + b) == ColumnLines(a) + ColumnLines(b)
    decreases |a|
  {
    if a == [] {
      assert a + b == b;
    } else {
      assert (a + b)[1..] == a[1..] + b;
      ColumnLinesAppend(a[1..], b);
    }
  }

  /** Over the described lines: the headers name the tables in order, the column lines list the columns read. */
  lemma {:induction false} LinesClassified(tables: seq<TableEntry>)
    ensures HeaderNames(Lines(tables)) == TableNames(tables)
    ensures ColumnLinesIn(Lines(tables)) == ColumnLines(ReadColumns(tables))
    decreases |tables|
  {
    if tables != [] {
      var t := tables[0];
      LinesClassified(tables[1..]);
      TableLinesClassified(t);
      HeaderNamesAppend(TableLines(t), Lines(tables[1..]));
      ColumnLinesInAppend(TableLines(t), Lines(tables[1..]));
      assert [t][1..] == [];
      assert ReadColumns(tables) == ReadColumns([t]) + ReadColumns(tables[1..]);
      ColumnLinesAppend(ReadColumns([t]), ReadColumns(tables[1..]));
    }
  }

  lemma {:induction false} ColumnLinesLength(cols: seq<Column>)
    ensures |ColumnLines(cols)| == |cols|
    decreases |cols|
  {
    if cols != [] {
      ColumnLinesLength(cols[1..]);
    }
  }

  /**
   * Reading the schema text back line by line finds one header per table,
   * naming the tables in their order (whether or not their columns were
   * read), and one column line per column that was read, in order.
   */
  lemma SchemaTextReadBack(tables: seq<TableEntry>)
    requires SingleLineNames(tables)
    ensures HeaderNames(SplitLines(RenderSchema(tables))) == TableNames(tables)
    ensures ColumnLinesIn(SplitLines(RenderSchema(tables))) == ColumnLines(ReadColumns(tables))
    ensures |ColumnLinesIn(SplitLines(RenderSchema(tables)))| == |ReadColumns(tables)|
  {
    RenderSchemaIsJoinedLines(tables);
    LinesAreSingle(tables);
    SplitJoinLines(Lines(tables));
    LinesClassified(tables);
    ColumnLinesLength(ReadColumns(tables));
  }
}
