/** The `MigrationParser` class of src/MigrationParser.js. It holds the
    listings it was given (the structure, index, constraint, table option
    and foreign-key exports, each a text whose first line is a header) and
    the tables it builds from them, which its `#build*` methods reset and
    fill row by row and its `#format*` methods turn into lines. */
module JsParser {
  import opened Wrappers
  import opened Strings
  import opened OrderedMaps
  import opened Helpers
  import opened Schema
  import opened JsColumns
  import opened JsKeys
  import opened JsRender

  /** The rows of a listing: its lines after the header (`file` then
      `shift`). */
  function Rows(contents: string): (rows: seq<string>)
    ensures |rows| + 1 == |File(contents)|
    ensures forall k :: 0 <= k < |rows| ==> '\n' !in rows[k]
  {
    File(contents)[1..]
  }

  /** The table options a listing gives: the character set and collation
      of its first row, or None when it has no row. */
  function TableOptionsOf(rows: seq<string>): (r: (Option<string>, Option<string>))
    ensures rows == [] ==> r == (None, None)
    ensures rows != [] ==> r.0 == Some(Split(rows[0], '\t')[0])
    ensures rows != [] && |Split(rows[0], '\t')| > 1 ==> r.1 == Some(Split(rows[0], '\t')[1])
    ensures rows != [] && |Split(rows[0], '\t')| == 1 ==> r.1 == None
  {
    if rows == [] then (None, None)
    else
      var cells := Split(rows[0], '\t');
      (Some(cells[0]), if |cells| > 1 then Some(cells[1]) else None)
  }

  /** A table-options listing whose first row holds a character set and a
      collation gives the migration a charset line exactly when the first
      cell is not empty and a collation line exactly when the second is
      not, each quoting its cell. */
  lemma TableOptionsRoundTrip(header: string, charset: string, collation: string, more: string)
    requires '\n' !in header
    requires '\t' !in charset && '\n' !in charset && '\t' !in collation && '\n' !in collation
    ensures var options := TableOptionsOf(Rows(header + "\n" + charset + "\t" + collation + "\n" + more));
      && options == (Some(charset), Some(collation))
      && TableOptionLines(options.0, options.1)
         == (if charset != [] then ["$table->charset = '" + charset + "';"] else [])
            + (if collation != [] then ["$table->collation = '" + collation + "';"] else [])
  {
    var row := charset + "\t" + collation;
    assert '\n' !in row;
    SplitAfter(header, '\n', row + "\n" + more);
    SplitAfter(row, '\n', more);
    assert header + "\n" + charset + "\t" + collation + "\n" + more == header + ['\n'] + (row + ['\n'] + more);
    SplitAfter(charset, '\t', collation);
    SplitNone(collation, '\t');
  }

  /** Every constraint group of a table built from the listing holds a
      row, so the first row of each group can be read. */
  lemma SetNonEmptyGroups(cs: Constraints, name: string, group: seq<ForeignRef>)
    requires NonEmptyGroups(cs) && group != []
    ensures NonEmptyGroups(Set(cs, name, group))
  {
    var r := Set(cs, name, group);
    SetEntries(cs, name, group);
    forall i | 0 <= i < |r| ensures r[i].1 != [] {
      assert r[i] in r;
    }
  }

  /** The template replacements for a table migration, in the order of
      `CreateFinds`. */
  function CreateReplacements(tableName: string, structure: Structure, keys: Indexes, constraints: Constraints,
                              charset: Option<string>, collation: Option<string>, extras: Indexes): (r: seq<string>)
    requires NonEmptyGroups(constraints)
    ensures |r| == |CreateFinds()|
  {
    [Version, "Create" + Studly(tableName) + "Table", tableName,
     Section(StructureLines(structure), 12), Section(KeyLinesText(keys), 12),
     Section(ConstraintLinesText(constraints), 12), Section(TableOptionLines(charset, collation), 12),
     Section(ExtraLinesText(extras), 8)]
  }

  /** The template replacements for a foreign-key migration, in the order
      of `ForeignFinds`. */
  function ForeignReplacements(tableName: string, foreignRows: seq<string>): (r: seq<string>)
    ensures |r| == |ForeignFinds()|
  {
    [Version, "AddForeignKeyTo" + Studly(tableName) + "Table", tableName,
     Section(ForeignLines(foreignRows), 12), Section(ForeignDropLines(foreignRows), 12)]
  }

  /** The tables a parser holds. */
  datatype Tables = Tables(structure: Structure, keys: Indexes, constraints: Constraints,
                           tableCharset: Option<string>, tableCollation: Option<string>, extras: Indexes)

  /** What the four `#build*` steps make of the listings, in the order
      `makeMigration` runs them, from the table options and full-text
      indexes held before. */
  function BuildAll(prev: Tables, tableOptionsFile: string, structureFile: string, keysFile: string,
                    constraintsFile: string): (r: Tables)
    ensures NonEmptyGroups(r.constraints)
  {
    var rows := Rows(tableOptionsFile);
    var options := TableOptionsOf(rows);
    var charset := if rows == [] then prev.tableCharset else options.0;
    var collation := if rows == [] then prev.tableCollation else options.1;
    var columns := Normalise(StructureRows(Rows(structureFile), charset, collation));
    var k := JsKeys.BuildKeys(prev.extras, Rows(keysFile), columns);
    var c := JsKeys.BuildConstraints(k.keys, Rows(constraintsFile));
    ConstraintLinesNonEmpty(ConstraintTables(k.keys, []), Rows(constraintsFile));
    Tables(columns, c.keys, c.constraints, charset, collation, k.extras)
  }

  /** The loop of `#formatStructure` over the columns in table order: the
      line of each column, and the column with its rendered method and
      arguments written back. */
  method FormatColumns(columns: Structure) returns (fields: seq<string>, adjusted: Structure)
    ensures fields == StructureLines(columns)
    ensures adjusted == AdjustAll(columns)
  {
    adjusted := columns;
    fields := [];
    var i := 0;
    while i < |columns|
      invariant 0 <= i <= |columns| == |adjusted|
      invariant fields == StructureLines(columns[..i])
      invariant forall j :: 0 <= j < i ==> adjusted[j] == (columns[j].0, Adjusted(columns[j].1))
      invariant forall j :: i <= j < |columns| ==> adjusted[j] == columns[j]
    {
      var (k, c) := columns[i];
      StructureLinesSnoc(columns, i);
      fields := fields + [ColumnLine(k, c)];
      adjusted := adjusted[i := (k, Adjusted(c))];
      i := i + 1;
    }
    assert columns[..i] == columns;
  }

  /** Grouping constraint lines never leaves a group empty. */
  lemma {:induction false} ConstraintLinesNonEmpty(t: ConstraintTables, lines: seq<string>)
    requires NonEmptyGroups(t.constraints)
    ensures NonEmptyGroups(ConstraintLines(t, lines).constraints)
    decreases |lines|
  {
    if lines != [] {
      var n := |lines| - 1;
      ConstraintLinesNonEmpty(t, lines[..n]);
      var u := ConstraintLines(t, lines[..n]);
      var cells := Split(lines[n], '\t');
      if IsConstraintRow(cells) {
        SetNonEmptyGroups(u.constraints, cells[0], Get(u.constraints, cells[0]).GetOr([]) + [RefOf(cells)]);
      }
    }
  }

  class MigrationParser {
    const tableName: string
    const structureFile: string
    const keysFile: string
    const constraintsFile: string
    const tableOptionsFile: string
    const foreignFile: string
    const hasForeign: bool

    /** `#structure`: the columns by name. */
    var structure: Structure
    /** `#keys`: the indexes by name. */
    var keys: Indexes
    /** `#constraints`: the foreign keys by constraint name. */
    var constraints: Constraints
    var tableCharset: Option<string>
    var tableCollation: Option<string>
    /** `#extras`: the full-text indexes by name. */
    var extras: Indexes

    /** The constraint groups are never empty. */
    predicate Valid()
      reads this
    {
      NonEmptyGroups(constraints)
    }

    /** The tables held. */
    function State(): Tables
      reads this
    {
      Tables(structure, keys, constraints, tableCharset, tableCollation, extras)
    }

    /** The listings are given as their contents; every table starts out
        empty and the table options unknown. */
    constructor (tableName: string, structureFile: string, keysFile: string, constraintsFile: string,
                 tableOptionsFile: string, foreignFile: string, hasForeign: bool)
      ensures Valid()
      ensures this.tableName == tableName && this.structureFile == structureFile && this.keysFile == keysFile
      ensures this.constraintsFile == constraintsFile && this.tableOptionsFile == tableOptionsFile
      ensures this.foreignFile == foreignFile && this.hasForeign == hasForeign
      ensures structure == [] && keys == [] && constraints == [] && extras == []
      ensures tableCharset == None && tableCollation == None
    {
      this.tableName := tableName;
      this.structureFile := structureFile;
      this.keysFile := keysFile;
      this.constraintsFile := constraintsFile;
      this.tableOptionsFile := tableOptionsFile;
      this.foreignFile := foreignFile;
      this.hasForeign := hasForeign;
      structure := [];
      keys := [];
      constraints := [];
      tableCharset := None;
      tableCollation := None;
      extras := [];
    }

    /** `#buildTableCollationAndCharset`: clears the constraints and, when
        the listing has a row, reads the table's character set and
        collation from it. */
    method BuildTableCollationAndCharset()
      modifies this
      ensures Valid() && constraints == []
      ensures Rows(tableOptionsFile) != [] ==>
              (tableCharset, tableCollation) == TableOptionsOf(Rows(tableOptionsFile))
      ensures Rows(tableOptionsFile) == [] ==>
              tableCharset == old(tableCharset) && tableCollation == old(tableCollation)
      ensures structure == old(structure) && keys == old(keys) && extras == old(extras)
    {
      constraints := [];
      var rows := Rows(tableOptionsFile);
      if |rows| > 0 {
        var cells := Split(rows[0], '\t');
        tableCharset := Some(cells[0]);
        tableCollation := if |cells| > 1 then Some(cells[1]) else None;
      }
    }

    /** `#buildStructure`: the column table rebuilt from the listing, row by
        row, then rewritten by the four recognisers. */
    method BuildStructure()
      modifies this
      ensures structure == Normalise(StructureRows(Rows(structureFile), tableCharset, tableCollation))
      ensures keys == old(keys) && constraints == old(constraints) && extras == old(extras)
      ensures tableCharset == old(tableCharset) && tableCollation == old(tableCollation)
    {
      ReadStructure();
      RecogniseNamedColumns();
      IdentifyColumns();
    }

    /** The listing's rows stored by name, onto an empty table. */
    method ReadStructure()
      modifies this
      ensures structure == StructureRows(Rows(structureFile), tableCharset, tableCollation)
      ensures keys == old(keys) && constraints == old(constraints) && extras == old(extras)
      ensures tableCharset == old(tableCharset) && tableCollation == old(tableCollation)
    {
      structure := [];
      var rows := Rows(structureFile);
      var i := 0;
      while i < |rows|
        invariant 0 <= i <= |rows|
        invariant structure == StructureRows(rows[..i], tableCharset, tableCollation)
        invariant keys == old(keys) && constraints == old(constraints) && extras == old(extras)
        invariant tableCharset == old(tableCharset) && tableCollation == old(tableCollation)
      {
        var cells := Split(rows[i], '\t');
        if |cells| >= 9 {
          var c := ColumnOf(cells, tableCharset, tableCollation);
          if c.Some? {
            structure := Set(structure, cells[0], c.value);
          }
        }
        assert rows[..i + 1][..i] == rows[..i];
        i := i + 1;
      }
      assert rows[..i] == rows;
    }

    /** Soft deletes, the timestamps pair and the remember token, each
        rewriting its columns in place. */
    method RecogniseNamedColumns()
      modifies this
      ensures structure == RecogniseNamed(old(structure))
      ensures keys == old(keys) && constraints == old(constraints) && extras == old(extras)
      ensures tableCharset == old(tableCharset) && tableCollation == old(tableCollation)
    {
      if IsTimestamp(structure, "deleted_at") {
        structure := Set(structure, "deleted_at", Cleared(Get(structure, "deleted_at").value, "softDeletes"));
      }
      if IsTimestamp(structure, "created_at") && IsTimestamp(structure, "updated_at") {
        var created := Get(structure, "created_at").value;
        structure := Remove(structure, "updated_at");
        structure := Set(structure, "created_at",
                         Cleared(created, if created.nullable then "nullableTimestamps" else "timestamps"));
      }
      if IsRememberToken(structure) {
        structure := Set(structure, "remember_token", Cleared(Get(structure, "remember_token").value, "rememberToken"));
      }
    }

    /** Identity columns, entry by entry. */
    method IdentifyColumns()
      modifies this
      ensures structure == IdColumns(old(structure))
      ensures keys == old(keys) && constraints == old(constraints) && extras == old(extras)
      ensures tableCharset == old(tableCharset) && tableCollation == old(tableCollation)
    {
      var named := structure;
      var i := 0;
      while i < |structure|
        invariant 0 <= i <= |structure| == |named|
        invariant forall j :: 0 <= j < i ==> structure[j] == (named[j].0, AsId(named[j].0, named[j].1))
        invariant forall j :: i <= j < |structure| ==> structure[j] == named[j]
        invariant keys == old(keys) && constraints == old(constraints) && extras == old(extras)
        invariant tableCharset == old(tableCharset) && tableCollation == old(tableCollation)
      {
        var (k, c) := structure[i];
        if IsIdCandidate(c) {
          structure := structure[i := (k, AsId(k, c))];
        }
        i := i + 1;
      }
      IdColumnsAt(named);
    }

    /** `#buildKeys`: the index table rebuilt from the listing (full-text
        indexes go to the full-text table, which is not cleared), then an
        implicit primary key dropped. */
    method BuildKeys()
      modifies this
      ensures var t := JsKeys.BuildKeys(old(extras), Rows(keysFile), structure);
              keys == t.keys && extras == t.extras
      ensures structure == old(structure) && constraints == old(constraints)
      ensures tableCharset == old(tableCharset) && tableCollation == old(tableCollation)
    {
      keys := [];
      var rows := Rows(keysFile);
      var i := 0;
      while i < |rows|
        invariant 0 <= i <= |rows|
        invariant KeyTables(keys, extras) == KeyLines(KeyTables([], old(extras)), rows[..i])
        invariant structure == old(structure) && constraints == old(constraints)
        invariant tableCharset == old(tableCharset) && tableCollation == old(tableCollation)
      {
        var cells := Split(rows[i], '\t');
        if IsKeyRow(cells) {
          if IndexType(cells) == "FULLTEXT" {
            extras := FulltextRow(extras, cells);
          } else {
            keys := AddColumn(keys, cells[2], KeyMethod(cells[1]), cells[0], cells[3], cells[4]);
          }
        }
        assert rows[..i + 1][..i] == rows[..i];
        i := i + 1;
      }
      assert rows[..i] == rows;
      if PrimaryIsImplicit(keys, structure) {
        keys := Remove(keys, "PRIMARY");
      }
    }

    /** `#buildConstraints`: the constraint table rebuilt from the listing;
        an index named like a constraint is deleted. */
    method BuildConstraints()
      modifies this
      ensures Valid()
      ensures var t := JsKeys.BuildConstraints(old(keys), Rows(constraintsFile));
              keys == t.keys && constraints == t.constraints
      ensures structure == old(structure) && extras == old(extras)
      ensures tableCharset == old(tableCharset) && tableCollation == old(tableCollation)
    {
      constraints := [];
      var rows := Rows(constraintsFile);
      var i := 0;
      while i < |rows|
        invariant 0 <= i <= |rows|
        invariant ConstraintTables(keys, constraints) == ConstraintLines(ConstraintTables(old(keys), []), rows[..i])
        invariant NonEmptyGroups(constraints)
        invariant structure == old(structure) && extras == old(extras)
        invariant tableCharset == old(tableCharset) && tableCollation == old(tableCollation)
      {
        var cells := Split(rows[i], '\t');
        if IsConstraintRow(cells) {
          var name := cells[0];
          if Get(keys, name).Some? {
            keys := Remove(keys, name);
          } else {
            GetNone(keys, name);
            RemoveKeys(keys, name);
          }
          var group := Get(constraints, name).GetOr([]) + [RefOf(cells)];
          SetNonEmptyGroups(constraints, name, group);
          constraints := Set(constraints, name, group);
        }
        assert rows[..i + 1][..i] == rows[..i];
        i := i + 1;
      }
      assert rows[..i] == rows;
    }

    /** `#formatStructure`: one line per column, in table order; a
        timestamp updated on every write has its marker moved to its
        default in the table as it is written. */
    method FormatStructure() returns (fields: seq<string>)
      modifies this
      ensures structure == AdjustAll(old(structure))
      ensures fields == StructureLines(old(structure)) && fields == StructureLines(structure)
      ensures Keys(structure) == Keys(old(structure))
      ensures keys == old(keys) && constraints == old(constraints) && extras == old(extras)
      ensures tableCharset == old(tableCharset) && tableCollation == old(tableCollation)
    {
      var adjusted;
      fields, adjusted := FormatColumns(structure);
      AdjustAllKeeps(structure);
      structure := adjusted;
    }

    /** `#formatKeys`: one line per index but the primary key. */
    method FormatKeys() returns (fields: seq<string>)
      ensures fields == KeyLinesText(keys)
    {
      fields := [];
      var i := 0;
      while i < |keys|
        invariant 0 <= i <= |keys|
        invariant fields == KeyLinesText(keys[..i])
      {
        var (name, idx) := keys[i];
        if name != "PRIMARY" {
          fields := fields + [KeyLineText(name, idx)];
        }
        assert keys[..i + 1][..i] == keys[..i];
        i := i + 1;
      }
      assert keys[..i] == keys;
    }

    /** `#formatExtras`: one statement per full-text index. */
    method FormatExtras() returns (fields: seq<string>)
      ensures fields == ExtraLinesText(extras)
    {
      fields := [];
      var i := 0;
      while i < |extras|
        invariant 0 <= i <= |extras|
        invariant fields == ExtraLinesText(extras[..i])
      {
        var (name, idx) := extras[i];
        fields := fields + [ExtraLineText(name, idx)];
        assert extras[..i + 1][..i] == extras[..i];
        i := i + 1;
      }
      assert extras[..i] == extras;
    }

    /** `#formatConstraints`: one line per constraint. */
    method FormatConstraints() returns (fields: seq<string>)
      requires Valid()
      ensures fields == ConstraintLinesText(constraints)
    {
      fields := [];
      var i := 0;
      while i < |constraints|
        invariant 0 <= i <= |constraints|
        invariant NonEmptyGroups(constraints[..i])
        invariant fields == ConstraintLinesText(constraints[..i])
      {
        var (name, refs) := constraints[i];
        fields := fields + [ConstraintLineText(name, refs)];
        assert constraints[..i + 1][..i] == constraints[..i];
        i := i + 1;
      }
      assert constraints[..i] == constraints;
    }

    /** `#formatTableCollationAndCharset`. */
    method FormatTableCollationAndCharset() returns (output: seq<string>)
      ensures output == TableOptionLines(tableCharset, tableCollation)
    {
      output := [];
      if Present(tableCharset) {
        output := output + ["$table->charset = '" + tableCharset.value + "';"];
      }
      if Present(tableCollation) {
        output := output + ["$table->collation = '" + tableCollation.value + "';"];
      }
    }

    /** `#formatForeign`: one `foreign` line per foreign-key row. */
    method FormatForeign() returns (fields: seq<string>)
      ensures fields == ForeignLines(Rows(foreignFile))
    {
      var rows := Rows(foreignFile);
      fields := [];
      var i := 0;
      while i < |rows|
        invariant 0 <= i <= |rows|
        invariant fields == ForeignLines(rows[..i])
      {
        var cells := Split(rows[i], '\t');
        if IsForeignRow(cells) {
          fields := fields + [ForeignLine(cells)];
        }
        assert rows[..i + 1][..i] == rows[..i];
        i := i + 1;
      }
      assert rows[..i] == rows;
    }

    /** `#formatForeignDrop`: one `dropForeign` line per foreign-key row. */
    method FormatForeignDrop() returns (fields: seq<string>)
      ensures fields == ForeignDropLines(Rows(foreignFile))
    {
      var rows := Rows(foreignFile);
      fields := [];
      var i := 0;
      while i < |rows|
        invariant 0 <= i <= |rows|
        invariant fields == ForeignDropLines(rows[..i])
      {
        var cells := Split(rows[i], '\t');
        if IsForeignRow(cells) {
          fields := fields + [ForeignDropLine(cells)];
        }
        assert rows[..i + 1][..i] == rows[..i];
        i := i + 1;
      }
      assert rows[..i] == rows;
    }

    /** The four `#build*` steps in order. */
    method Build()
      modifies this
      ensures Valid()
      ensures State() == BuildAll(old(State()), tableOptionsFile, structureFile, keysFile, constraintsFile)
    {
      BuildTableCollationAndCharset();
      BuildStructure();
      BuildKeys();
      BuildConstraints();
    }

    /** The table migration's template filled in, given the column lines. */
    method FillCreate(stub: string, structureLines: seq<string>) returns (output: string)
      requires Valid() && structureLines == StructureLines(structure)
      ensures output == ReplaceAll(CreateFinds(),
                                   CreateReplacements(tableName, structure, keys, constraints,
                                                      tableCharset, tableCollation, extras), stub)
    {
      var keyLines := FormatKeys();
      var constraintLines := FormatConstraints();
      var optionLines := FormatTableCollationAndCharset();
      var extraLines := FormatExtras();
      var className := "Create" + Studly(tableName) + "Table";
      var reps := [Version, className, tableName, Section(structureLines, 12), Section(keyLines, 12),
                   Section(constraintLines, 12), Section(optionLines, 12), Section(extraLines, 8)];
      assert reps == CreateReplacements(tableName, structure, keys, constraints, tableCharset, tableCollation, extras);
      output := StrReplace(CreateFinds(), reps, stub);
    }

    /** The foreign-key migration's template filled in. */
    method FillForeign(stub: string) returns (output: string)
      ensures output == ReplaceAll(ForeignFinds(), ForeignReplacements(tableName, Rows(foreignFile)), stub)
    {
      var foreign := FormatForeign();
      var foreignDrop := FormatForeignDrop();
      var className := "AddForeignKeyTo" + Studly(tableName) + "Table";
      var reps := [Version, className, tableName, Section(foreign, 12), Section(foreignDrop, 12)];
      assert reps == ForeignReplacements(tableName, Rows(foreignFile));
      output := StrReplace(ForeignFinds(), reps, stub);
    }

    /** `makeMigration`: build every table, then fill the template the
        stub file holds (`createStub`, or `foreignStub` for a foreign-key
        migration) and collapse runs of blank lines. */
    method MakeMigration(createStub: string, foreignStub: string) returns (output: string)
      modifies this
      ensures Valid()
      ensures var built := BuildAll(old(State()), tableOptionsFile, structureFile, keysFile, constraintsFile);
              State() == built.(structure := AdjustAll(built.structure))
      ensures !hasForeign ==>
              output == Collapse(ReplaceAll(CreateFinds(),
                                            CreateReplacements(tableName, structure, keys, constraints,
                                                               tableCharset, tableCollation, extras),
                                            createStub), true)
      ensures hasForeign ==>
              output == Collapse(ReplaceAll(ForeignFinds(), ForeignReplacements(tableName, Rows(foreignFile)),
                                            foreignStub), true)
    {
      Build();

      var structureLines := FormatStructure();
      if hasForeign {
        output := FillForeign(foreignStub);
      } else {
        output := FillCreate(createStub, structureLines);
      }
      output := Collapse(output, true);
    }
  }
}
