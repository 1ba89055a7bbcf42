/** The index and constraint tables of src/MigrationParser.js: `#buildKeys`
    groups the rows of `SHOW INDEX` by key name (full-text indexes apart,
    as extras), drops a primary key Laravel creates by itself, and
    `#buildConstraints` groups the foreign-key rows by constraint name,
    deleting the index MySQL made for each constraint. */
module JsKeys {
  import opened Wrappers
  import opened Strings
  import opened OrderedMaps
  import opened Schema

  /** One index: the builder method, the table it belongs to, and its
      columns keyed by their position in the index (`Seq_in_index`). */
  datatype Index = Index(builder: string, table: string, columns: OMap<string, string>)

  /** Indexes by key name, in order of first appearance. */
  type Indexes = OMap<string, Index>

  /** JavaScript truthiness of a cell: any non-empty string. */
  predicate JsTruthy(s: string) { s != [] }

  /** PHP truthiness of a cell: neither empty nor `0`. */
  predicate PhpTruthy(s: string) { s != [] && s != "0" }

  /** The method a new key gets as written: `Non_unique` is tested with
      JavaScript truthiness, so `0`, the text MySQL gives for a unique
      index, also yields `index`. */
  function KeyMethodAsWritten(nonUnique: string): string
  {
    if JsTruthy(nonUnique) then "index" else "unique"
  }

  /** The method a new key gets as intended: `unique` when `Non_unique` is
      false, as the PHP parser reads it. */
  function KeyMethod(nonUnique: string): (r: string)
    ensures r == "unique" <==> nonUnique == "" || nonUnique == "0"
    ensures r == "index" || r == "unique"
  {
    if PhpTruthy(nonUnique) then "index" else "unique"
  }

  /** A unique index (`Non_unique` is `0`) comes out as a plain `index` as
      written and as `unique` as intended. */
  lemma KeyMethodUniqueIndex(nonUnique: string)
    requires nonUnique == "0"
    ensures KeyMethodAsWritten(nonUnique) == "index"
    ensures KeyMethod(nonUnique) == "unique"
  {
  }

  /** `m[name]` created with `builder` and `table` when absent, then
      `m[name].columns.set(seqNo, col)`. */
  function AddColumn(m: Indexes, name: string, builder: string, table: string, seqNo: string, col: string): Indexes
  {
    var e := Get(m, name).GetOr(Index(builder, table, []));
    Set(m, name, e.(columns := Set(e.columns, seqNo, col)))
  }

  /** Adding a column changes only the index named: an existing index keeps
      its method and table and gains the column, a new one is created with
      the method and table given and goes last. */
  lemma AddColumnEffect(m: Indexes, name: string, builder: string, table: string, seqNo: string, col: string, k: string)
    ensures var r := AddColumn(m, name, builder, table, seqNo, col);
      && (k != name ==> Get(r, k) == Get(m, k))
      && Get(r, name).Some?
      && (Get(m, name).Some? ==>
            var prev := Get(m, name).value;
            Get(r, name).value == Index(prev.builder, prev.table, Set(prev.columns, seqNo, col)))
      && (Get(m, name).None? ==> Get(r, name).value == Index(builder, table, [(seqNo, col)]))
      && (Get(m, name).Some? ==> Keys(r) == Keys(m))
      && (Get(m, name).None? ==> Keys(r) == Keys(m) + [name])
  {
    var e := Get(m, name).GetOr(Index(builder, table, []));
    var v := e.(columns := Set(e.columns, seqNo, col));
    GetSet(m, name, v, k);
    GetSet(m, name, v, name);
    SetKeys(m, name, v);
    GetNone(m, name);
  }

  /** No key and no column position is stored twice. */
  predicate WellFormed(m: Indexes)
  {
    NoDupKeys(m) && forall i :: 0 <= i < |m| ==> NoDupKeys(m[i].1.columns)
  }

  lemma AddColumnWellFormed(m: Indexes, name: string, builder: string, table: string, seqNo: string, col: string)
    requires WellFormed(m)
    ensures WellFormed(AddColumn(m, name, builder, table, seqNo, col))
  {
    var e := Get(m, name).GetOr(Index(builder, table, []));
    var v := e.(columns := Set(e.columns, seqNo, col));
    var r := Set(m, name, v);
    SetNoDup(m, name, v);
    if Get(m, name).Some? {
      GetNone(m, name);
      KeysAt(m);
      var i :| 0 <= i < |m| && m[i].0 == name;
      GetAt(m, i);
      SetNoDup(e.columns, seqNo, col);
      SetInPlace(m, name, v, i);
    } else {
      SetNoDup([], seqNo, col);
      GetNone(m, name);
      SetKeys(m, name, v);
    }
  }

  // ------------------------------------------------------------ key rows

  /** The key and full-text tables `#buildKeys` fills. */
  datatype KeyTables = KeyTables(keys: Indexes, extras: Indexes)

  /** The cells of a `SHOW INDEX` row the parser reads: table, `Non_unique`,
      key name, position and column, and the index type at position 10. A
      line with fewer than five cells (the empty line after the file's
      final line feed) holds no key and is skipped. */
  predicate IsKeyRow(cells: seq<string>) { |cells| >= 5 }

  function IndexType(cells: seq<string>): string
  {
    if |cells| > 10 then cells[10] else ""
  }

  /** A full-text row as written: only the first row of an index is
      stored, so a full-text index over several columns keeps one. */
  function FulltextRowAsWritten(extras: Indexes, cells: seq<string>): Indexes
    requires IsKeyRow(cells)
  {
    if Get(extras, cells[2]).None? then Set(extras, cells[2], Index("fulltext", cells[0], [(cells[3], cells[4])]))
    else extras
  }

  /** A full-text row as intended: every row adds its column. */
  function FulltextRow(extras: Indexes, cells: seq<string>): Indexes
    requires IsKeyRow(cells)
  {
    AddColumn(extras, cells[2], "fulltext", cells[0], cells[3], cells[4])
  }

  /** Two rows of one full-text index: as written the index ends up with
      the first column alone, as intended with both, in order. */
  lemma FulltextTwoColumns(extras: Indexes, first: seq<string>, second: seq<string>)
    requires IsKeyRow(first) && IsKeyRow(second)
    requires first[2] == second[2] && Get(extras, first[2]).None? && first[3] != second[3]
    ensures var w := FulltextRowAsWritten(FulltextRowAsWritten(extras, first), second);
            Get(w, first[2]).Some? && Get(w, first[2]).value.columns == [(first[3], first[4])]
    ensures var r := FulltextRow(FulltextRow(extras, first), second);
            Get(r, first[2]).Some? && Get(r, first[2]).value.columns == [(first[3], first[4]), (second[3], second[4])]
  {
    var name := first[2];
    var w1 := FulltextRowAsWritten(extras, first);
    GetSet(extras, name, Index("fulltext", first[0], [(first[3], first[4])]), name);
    AddColumnEffect(extras, name, "fulltext", first[0], first[3], first[4], name);
    var r1 := FulltextRow(extras, first);
    AddColumnEffect(r1, name, "fulltext", second[0], second[3], second[4], name);
  }

  /** One line of the index listing. */
  function KeyLine(t: KeyTables, line: string): KeyTables
  {
    var cells := Split(line, '\t');
    if !IsKeyRow(cells) then t
    else if IndexType(cells) == "FULLTEXT" then t.(extras := FulltextRow(t.extras, cells))
    else t.(keys := AddColumn(t.keys, cells[2], KeyMethod(cells[1]), cells[0], cells[3], cells[4]))
  }

  /** The lines taken in order. */
  function KeyLines(t: KeyTables, lines: seq<string>): KeyTables
    decreases |lines|
  {
    if lines == [] then t else KeyLine(KeyLines(t, lines[..|lines| - 1]), lines[|lines| - 1])
  }

  /** The line names a (non-full-text) key `name`. */
  predicate NamesKey(line: string, name: string)
  {
    var cells := Split(line, '\t');
    IsKeyRow(cells) && IndexType(cells) != "FULLTEXT" && cells[2] == name
  }

  /** Some line names key `name`. */
  predicate AnyNamesKey(lines: seq<string>, name: string)
    decreases |lines|
  {
    lines != [] && (AnyNamesKey(lines[..|lines| - 1], name) || NamesKey(lines[|lines| - 1], name))
  }

  /** A key exists after the lines exactly when it existed before or some
      line names it; an existing key keeps the method and table it had. */
  lemma {:induction false} KeyLinesKeys(t: KeyTables, lines: seq<string>, name: string)
    ensures Get(KeyLines(t, lines).keys, name).Some? <==> Get(t.keys, name).Some? || AnyNamesKey(lines, name)
    ensures Get(t.keys, name).Some? ==>
            && Get(KeyLines(t, lines).keys, name).value.builder == Get(t.keys, name).value.builder
            && Get(KeyLines(t, lines).keys, name).value.table == Get(t.keys, name).value.table
    decreases |lines|
  {
    if lines != [] {
      var n := |lines| - 1;
      KeyLinesKeys(t, lines[..n], name);
      var u := KeyLines(t, lines[..n]);
      var cells := Split(lines[n], '\t');
      if IsKeyRow(cells) && IndexType(cells) != "FULLTEXT" {
        AddColumnEffect(u.keys, cells[2], KeyMethod(cells[1]), cells[0], cells[3], cells[4], name);
      }
    }
  }

  /** The first line naming a key decides its method and table. */
  lemma {:induction false} KeyLinesFirstMethod(t: KeyTables, lines: seq<string>, i: nat, name: string)
    requires i < |lines| && NamesKey(lines[i], name)
    requires Get(t.keys, name).None? && !AnyNamesKey(lines[..i], name)
    ensures var cells := Split(lines[i], '\t');
            && Get(KeyLines(t, lines).keys, name).Some?
            && Get(KeyLines(t, lines).keys, name).value.builder == KeyMethod(cells[1])
            && Get(KeyLines(t, lines).keys, name).value.table == cells[0]
    decreases |lines|
  {
    var cells := Split(lines[i], '\t');
    var n := |lines| - 1;
    var p := lines[..n];
    var u := KeyLines(t, p);
    if i < n {
      assert p[i] == lines[i] && p[..i] == lines[..i];
      KeyLinesFirstMethod(t, p, i, name);
      var c := Split(lines[n], '\t');
      if IsKeyRow(c) && IndexType(c) != "FULLTEXT" {
        AddColumnEffect(u.keys, c[2], KeyMethod(c[1]), c[0], c[3], c[4], name);
      }
    } else {
      assert p == lines[..i];
      KeyLinesKeys(t, p, name);
      AddColumnEffect(u.keys, name, KeyMethod(cells[1]), cells[0], cells[3], cells[4], name);
    }
  }

  /** Grouping keeps both tables well formed. */
  lemma {:induction false} KeyLinesWellFormed(t: KeyTables, lines: seq<string>)
    requires WellFormed(t.keys) && WellFormed(t.extras)
    ensures WellFormed(KeyLines(t, lines).keys) && WellFormed(KeyLines(t, lines).extras)
    decreases |lines|
  {
    if lines != [] {
      var n := |lines| - 1;
      KeyLinesWellFormed(t, lines[..n]);
      var u := KeyLines(t, lines[..n]);
      var cells := Split(lines[n], '\t');
      if IsKeyRow(cells) {
        AddColumnWellFormed(u.keys, cells[2], KeyMethod(cells[1]), cells[0], cells[3], cells[4]);
        AddColumnWellFormed(u.extras, cells[2], "fulltext", cells[0], cells[3], cells[4]);
      }
    }
  }

  // ------------------------------------------------------------ primary key

  /** The primary key is left to Laravel when it is a single column that
      auto-increments (`increments` creates it). */
  predicate PrimaryIsImplicit(keys: Indexes, structure: Structure)
  {
    match Get(keys, "PRIMARY")
    case None => false
    case Some(p) =>
      |p.columns| == 1 &&
      match Get(structure, p.columns[0].1)
      case Some(c) => c.autoIncrement
      case None => false
  }

  /** `#buildKeys`' final step: drop an implicit primary key. */
  function ElidePrimary(keys: Indexes, structure: Structure): (r: Indexes)
  {
    if PrimaryIsImplicit(keys, structure) then Remove(keys, "PRIMARY") else keys
  }

  /** Only the primary key can go, and it goes exactly when implicit. */
  lemma ElidePrimaryEffect(keys: Indexes, structure: Structure, k: string)
    ensures Get(ElidePrimary(keys, structure), k)
            == if k == "PRIMARY" && PrimaryIsImplicit(keys, structure) then None else Get(keys, k)
  {
    GetRemove(keys, "PRIMARY", k);
  }

  /** `#buildKeys`: the index lines grouped onto a fresh key table and the
      existing full-text table, then the implicit primary key dropped. */
  function BuildKeys(extras: Indexes, lines: seq<string>, structure: Structure): KeyTables
  {
    var t := KeyLines(KeyTables([], extras), lines);
    t.(keys := ElidePrimary(t.keys, structure))
  }

  // ------------------------------------------------------------ constraints

  /** One column of a foreign key. */
  datatype ForeignRef = ForeignRef(colName: string, refTable: string, refColumn: string,
                                   updateRule: string, deleteRule: string)

  /** Foreign keys by constraint name, in order of first appearance. */
  type Constraints = OMap<string, seq<ForeignRef>>

  /** The tables `#buildConstraints` reads and writes. */
  datatype ConstraintTables = ConstraintTables(keys: Indexes, constraints: Constraints)

  /** A constraint row has its six cells: name, column, referenced table
      and column, update and delete rule. A shorter line is skipped. */
  predicate IsConstraintRow(cells: seq<string>) { |cells| >= 6 }

  function RefOf(cells: seq<string>): ForeignRef
    requires IsConstraintRow(cells)
  {
    ForeignRef(cells[1], cells[2], cells[3], cells[4], cells[5])
  }

  /** One constraint line: the index of the same name is deleted, and the
      column joins its constraint's group. Lines come from cutting the file
      at line feeds, so stripping trailing line feeds changes nothing. */
  function ConstraintLine(t: ConstraintTables, line: string): ConstraintTables
  {
    var cells := Split(line, '\t');
    if !IsConstraintRow(cells) then t
    else
      ConstraintTables(
        Remove(t.keys, cells[0]),
        Set(t.constraints, cells[0], Get(t.constraints, cells[0]).GetOr([]) + [RefOf(cells)]))
  }

  function ConstraintLines(t: ConstraintTables, lines: seq<string>): ConstraintTables
    decreases |lines|
  {
    if lines == [] then t else ConstraintLine(ConstraintLines(t, lines[..|lines| - 1]), lines[|lines| - 1])
  }

  /** The column one line gives constraint `name`, if any. */
  function RefNamed(line: string, name: string): seq<ForeignRef>
  {
    var cells := Split(line, '\t');
    if IsConstraintRow(cells) && cells[0] == name then [RefOf(cells)] else []
  }

  /** The columns the lines give constraint `name`, in order. */
  function RefsNamed(lines: seq<string>, name: string): seq<ForeignRef>
    decreases |lines|
  {
    if lines == [] then [] else RefsNamed(lines[..|lines| - 1], name) + RefNamed(lines[|lines| - 1], name)
  }

  lemma ConstraintLineGroups(t: ConstraintTables, line: string, name: string)
    ensures Get(ConstraintLine(t, line).constraints, name)
            == if RefNamed(line, name) == [] then Get(t.constraints, name)
               else Some(Get(t.constraints, name).GetOr([]) + RefNamed(line, name))
    ensures Get(ConstraintLine(t, line).keys, name)
            == if RefNamed(line, name) == [] then Get(t.keys, name) else None
  {
    var cells := Split(line, '\t');
    if IsConstraintRow(cells) {
      var group := Get(t.constraints, cells[0]).GetOr([]) + [RefOf(cells)];
      GetSet(t.constraints, cells[0], group, name);
      GetRemove(t.keys, cells[0], name);
    }
  }

  /** Each constraint collects exactly its rows, in order, after what it
      had; an index survives exactly when no constraint shares its name. */
  lemma {:induction false} ConstraintLinesGroups(t: ConstraintTables, lines: seq<string>, name: string)
    ensures Get(ConstraintLines(t, lines).constraints, name)
            == if RefsNamed(lines, name) == [] then Get(t.constraints, name)
               else Some(Get(t.constraints, name).GetOr([]) + RefsNamed(lines, name))
    ensures Get(ConstraintLines(t, lines).keys, name)
            == if RefsNamed(lines, name) == [] then Get(t.keys, name) else None
    decreases |lines|
  {
    if lines != [] {
      var n := |lines| - 1;
      ConstraintLinesGroups(t, lines[..n], name);
      var u := ConstraintLines(t, lines[..n]);
      ConstraintLineGroups(u, lines[n], name);
      var before := Get(t.constraints, name).GetOr([]);
      var prior := RefsNamed(lines[..n], name);
      var step := RefNamed(lines[n], name);
      assert RefsNamed(lines, name) == prior + step;
      if prior != [] && step != [] {
        assert before + prior + step == before + (prior + step);
      }
      if prior == [] {
        assert prior + step == step;
      }
      if step == [] {
        assert prior + step == prior;
      }
    }
  }

  /** `#buildConstraints`: constraint lines grouped onto a fresh table. */
  function BuildConstraints(keys: Indexes, lines: seq<string>): ConstraintTables
  {
    ConstraintLines(ConstraintTables(keys, []), lines)
  }
}
