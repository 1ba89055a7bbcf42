/** The `MigrationParser` class of the Sequel Pro bundle
    (ExportToLaravelMigration.spBundle/MigrationParser.php): the older PHP
    parser, which reads a `SHOW COLUMNS` listing and a `SHOW INDEX` listing
    and fills the `create.stub` template with one `$table->...` line per
    column and per index. */
module PhpParser {
  import opened Wrappers
  import opened Strings
  import opened OrderedMaps
  import opened Helpers
  import opened Schema
  import opened JsColumns
  import opened JsKeys
  import opened JsRender

  // ------------------------------------------------------------ reading a listing

  /** The lines put back together. */
  function Concat(lines: seq<string>): string
  {
    if lines == [] then [] else lines[0] + Concat(lines[1..])
  }

  /** Each line is not empty and holds a line feed at most at its end;
      every line but the last ends in one. */
  predicate FileLines(lines: seq<string>)
  {
    && (forall k :: 0 <= k < |lines| ==> lines[k] != [] && '\n' !in lines[k][..|lines[k]| - 1])
    && (forall k :: 0 <= k < |lines| - 1 ==> lines[k][|lines[k]| - 1] == '\n')
  }

  /** A line ending in its first line feed, put before such lines. */
  lemma FileLinesCons(head: string, rest: seq<string>)
    requires head != [] && head[|head| - 1] == '\n' && '\n' !in head[..|head| - 1]
    requires FileLines(rest)
    ensures FileLines([head] + rest)
    ensures Concat([head] + rest) == head + Concat(rest)
  {
    var lines := [head] + rest;
    assert lines[1..] == rest;
    forall k | 1 <= k < |lines| ensures lines[k] == rest[k - 1] { }
  }

  /** PHP `file()` on a text: the text cut after every line feed, each line
      keeping its line feed; a final line feed starts no further line. The
      ensures clauses fix the lines uniquely. */
  function PhpFile(contents: string): (lines: seq<string>)
    ensures Concat(lines) == contents
    ensures FileLines(lines)
    decreases |contents|
  {
    if contents == [] then []
    else if '\n' !in contents then [contents]
    else
      var i := FirstIndexOf(contents, '\n');
      var head := contents[..i + 1];
      var rest := PhpFile(contents[i + 1..]);
      assert head + contents[i + 1..] == contents;
      assert head[..|head| - 1] == contents[..i];
      FileLinesCons(head, rest);
      [head] + rest
  }

  /** The rows of a listing: its lines after the header (`file` then
      `array_shift`), each still ending in its line feed. */
  function PhpRows(contents: string): (rows: seq<string>)
    ensures |rows| == if PhpFile(contents) == [] then 0 else |PhpFile(contents)| - 1
  {
    var lines := PhpFile(contents);
    if lines == [] then [] else lines[1..]
  }

  // ------------------------------------------------------------ type expressions

  predicate IsLineFeed(c: char) { c == '\n' }

  /** `preg_match('#^(\w+)(\((.*?)\))?(.*?)?$#', ...)`: in PHP `.` stops only
      at a line feed, and `$` also matches just before a final line feed,
      which is then left out of the groups. */
  function PhpTypeOf(colType: string): (r: Option<TypeParts>)
    ensures r.Some? <==> colType != [] && IsWordChar(colType[0])
                         && forall k :: 0 <= k < |colType| - 1 ==> colType[k] != '\n'
    ensures r.Some? ==> Glue(r.value) == colType || Glue(r.value) + "\n" == colType
  {
    if colType != [] && colType[|colType| - 1] == '\n' then
      var body := colType[..|colType| - 1];
      SplitTypeGlue(body);
      assert body + "\n" == colType;
      SplitType(body, IsLineFeed)
    else
      SplitTypeGlue(colType);
      SplitType(colType, IsLineFeed)
  }

  lemma SplitTypeGlue(s: string)
    ensures SplitType(s, IsLineFeed).Some?
            <==> s != [] && IsWordChar(s[0]) && forall k :: 0 <= k < |s| ==> s[k] != '\n'
    ensures SplitType(s, IsLineFeed).Some? ==> Glue(SplitType(s, IsLineFeed).value) == s
  {
    SplitTypeMatches(s, IsLineFeed);
    if SplitType(s, IsLineFeed).Some? {
      SplitTypeGroups(s, IsLineFeed);
    }
  }

  /** The characters PHP's `trim` strips: space, tab, line feed, carriage
      return, NUL and vertical tab. */
  predicate IsPhpTrimChar(c: char)
  {
    c == ' ' || c == '\t' || c == '\n' || c == '\r' || c == '\0' || c == '\U{B}'
  }

  /** The arguments as the PHP parser stores them: the text between the
      parentheses, null when absent or falsy (`''`, `'0'`), split at commas
      when it holds one. */
  function PhpArgsOf(a: Option<string>): (r: JsValue)
    ensures r == Null <==> a.None? || !PhpTruthy(a.value)
    ensures r.Arr? ==> ',' in a.value && Join(r.items, ",") == a.value
    ensures r.Str? ==> ',' !in a.value && r.text == a.value
  {
    match a
    case None => Null
    case Some(t) =>
      if !PhpTruthy(t) then Null
      else if ',' in t then
        JoinSplit(t, ',');
        Arr(Split(t, ','))
      else Str(t)
  }

  // ------------------------------------------------------------ column handlers

  /** `parseInt`: an `auto_increment` column becomes `increments`, any other
      its `integerMaps` method; unsigned is read from the type extra. */
  function PhpParseInt(t: string, typeExtra: string, extra: string): Handled
    requires t in IntegerMaps
  {
    Handled(if IsAutoIncrement(extra) then "increments" else IntegerMaps[t], Null, false, IsUnsigned(typeExtra))
  }

  /** `parseBigint`: as `parseInt`, with `bigIncrements` for an
      auto-incrementing column. */
  function PhpParseBigint(typeExtra: string, extra: string): Handled
  {
    var d := PhpParseInt("bigint", typeExtra, extra);
    if IsAutoIncrement(extra) then d.(builder := "bigIncrements") else d
  }

  /** `parseTinyint` as intended: `tinyint(1)` is a boolean. */
  function PhpParseTinyint(args: JsValue, typeExtra: string, extra: string): Handled
  {
    if args == Str("1") then Handled("boolean", Null, false, false)
    else PhpParseInt("tinyint", typeExtra, extra)
  }

  /** `parseTinyint` as written: the arguments are compared with the
      integer 1, but they are a string or null, so it always defers to
      `parseInt`. */
  function PhpParseTinyintAsWritten(args: JsValue, typeExtra: string, extra: string): Handled
  {
    PhpParseInt("tinyint", typeExtra, extra)
  }

  /** A `tinyint(1)` column: an integer column (`tinyInteger`, or
      `increments` when auto-incrementing) as written, a `boolean` as
      intended. */
  lemma PhpTinyintOne(args: JsValue, typeExtra: string, extra: string)
    requires args == Str("1")
    ensures PhpParseTinyintAsWritten(args, typeExtra, extra).builder
            == if IsAutoIncrement(extra) then "increments" else "tinyInteger"
    ensures PhpParseTinyint(args, typeExtra, extra) == Handled("boolean", Null, false, false)
  {
  }

  /** The handler `'parse' . ucfirst($type)` names, as an explicit table;
      the handlers without a body of their own are `defaultParse`. */
  function PhpHandle(t: string, args: JsValue, typeExtra: string, extra: string): Option<Handled>
  {
    match t
    case "int" => Some(PhpParseInt(t, typeExtra, extra))
    case "bigint" => Some(PhpParseBigint(typeExtra, extra))
    case "mediumint" => Some(PhpParseInt(t, typeExtra, extra))
    case "smallint" => Some(PhpParseInt(t, typeExtra, extra))
    case "tinyint" => Some(PhpParseTinyint(args, typeExtra, extra))
    case "blob" => Some(DefaultParse("binary", args))
    case "char" => Some(DefaultParse("char", args))
    case "date" => Some(DefaultParse("date", Null))
    case "datetime" => Some(DefaultParse("dateTime", Null))
    case "decimal" => Some(DefaultParse("decimal", args))
    case "double" => Some(DefaultParse("double", args))
    case "float" => Some(DefaultParse("float", args))
    case "longtext" => Some(DefaultParse("longText", args))
    case "mediumtext" => Some(DefaultParse("mediumText", args))
    case "text" => Some(DefaultParse("text", args))
    case "varchar" => Some(DefaultParse("string", args))
    case "enum" => Some(DefaultParse("enum", args))
    case "time" => Some(DefaultParse("time", args))
    case "timestamp" => Some(DefaultParse("timestamp", args))
    case _ => None
  }

  /** An integer type: `increments` (`bigIncrements` for a big integer)
      exactly when the extra column says `auto_increment`, its
      `integerMaps` method otherwise, with null arguments and unsigned read
      from the type extra; `tinyint(1)` is the one exception, a plain
      `boolean`. */
  lemma PhpHandleInteger(t: string, args: JsValue, typeExtra: string, extra: string)
    requires t in IntegerMaps
    ensures var h := PhpHandle(t, args, typeExtra, extra);
      && h.Some?
      && (h.value.builder == "boolean" <==> t == "tinyint" && args == Str("1"))
      && (h.value.builder != "boolean" ==>
            && h.value.args == Null
            && h.value.unsigned == IsUnsigned(typeExtra)
            && (IsAutoIncrement(extra) ==> h.value.builder == if t == "bigint" then "bigIncrements" else "increments")
            && (!IsAutoIncrement(extra) ==> h.value.builder == IntegerMaps[t]))
  {
  }

  /** The types with a handler; every other type is `UNKNOWN:<type>`. */
  const PhpHandledTypes: set<string> :=
    {"int", "bigint", "mediumint", "smallint", "tinyint", "blob", "char", "date", "datetime",
     "decimal", "double", "float", "longtext", "mediumtext", "text", "varchar", "enum", "time",
     "timestamp"}

  /** A type has a handler exactly when it is one of the PHP handler names,
      and the handler then picks a Blueprint method, never the `UNKNOWN:`
      marker. */
  lemma PhpHandleDefined(t: string, args: JsValue, typeExtra: string, extra: string)
    ensures PhpHandle(t, args, typeExtra, extra).Some? <==> t in PhpHandledTypes
    ensures PhpHandle(t, args, typeExtra, extra).Some? ==>
              && PhpHandle(t, args, typeExtra, extra).value.builder in BlueprintMethods
              && !StartsWith(PhpHandle(t, args, typeExtra, extra).value.builder, "UNKNOWN:")
  {
    var h := PhpHandle(t, args, typeExtra, extra);
    if h.Some? {
      BlueprintNotUnknown(h.value.builder);
    }
  }

  /** One structure row (field, type, null, key, default, extra) as
      `buildStructure` reads it: None when the type expression does not
      match, in which case the row is skipped. */
  function PhpColumnOf(cells: seq<string>): Option<Column>
    requires |cells| >= 6
  {
    match PhpTypeOf(cells[1])
    case None => None
    case Some(p) =>
      var t := ToLower(p.name);
      var args := PhpArgsOf(p.args);
      var typeExtra := TrimBy(p.rest, IsPhpTrimChar);
      var h := PhpHandle(t, args, typeExtra, cells[5]);
      var handled := if h.Some? then h.value else Handled("UNKNOWN:" + t, Null, false, false);
      Some(Column(
        field := Some(cells[0]),
        builder := handled.builder,
        args := handled.args,
        nullable := cells[2] == "YES",
        default := if cells[4] != "NULL" then Some(cells[4]) else None,
        characterSet := None,
        collation := None,
        autoIncrement := false,
        unsigned := handled.unsigned,
        comment := None))
  }

  /** A kept column repeats its name, is nullable iff the flag is `YES`,
      has a default iff the default cell is not `NULL`, and carries no
      character set, collation, comment or auto-increment flag, which this
      parser never reads. */
  lemma PhpColumnOfKept(cells: seq<string>)
    requires |cells| >= 6
    ensures PhpColumnOf(cells).Some? <==> PhpTypeOf(cells[1]).Some?
    ensures PhpColumnOf(cells).Some? ==>
      var c := PhpColumnOf(cells).value;
      && c.field == Some(cells[0])
      && (c.nullable <==> cells[2] == "YES")
      && (c.default.Some? <==> cells[4] != "NULL")
      && (c.default.Some? ==> c.default.value == cells[4])
      && c.characterSet.None? && c.collation.None? && c.comment.None? && !c.autoIncrement
  {
  }

  // ------------------------------------------------------------ the structure listing

  /** One row of the listing: a kept row stores its column under its name,
      replacing (in place) a column of the same name. A row with fewer
      than six cells is skipped. */
  function PhpStructureRow(m: Structure, line: string): Structure
  {
    var cells := Split(line, '\t');
    if |cells| < 6 then m
    else match PhpColumnOf(cells)
      case None => m
      case Some(c) => Set(m, cells[0], c)
  }

  /** The rows taken in order, onto an empty table. */
  function PhpStructureRows(lines: seq<string>): Structure
    decreases |lines|
  {
    if lines == [] then []
    else PhpStructureRow(PhpStructureRows(lines[..|lines| - 1]), lines[|lines| - 1])
  }

  /** The column a row gives the table under `name`, if any. */
  function PhpRowColumn(line: string, name: string): Option<Column>
  {
    var cells := Split(line, '\t');
    if |cells| < 6 || cells[0] != name then None else PhpColumnOf(cells)
  }

  /** The column of the last row giving one under `name`: a reference
      definition searching the listing from its end. */
  function PhpLastRowColumn(lines: seq<string>, name: string): Option<Column>
    decreases |lines|
  {
    if lines == [] then None
    else
      var c := PhpRowColumn(lines[|lines| - 1], name);
      if c.Some? then c else PhpLastRowColumn(lines[..|lines| - 1], name)
  }

  /** The table holds under each name the column of the last row of that
      name, and has no name twice. */
  lemma {:induction false} PhpStructureRowsLastWins(lines: seq<string>, name: string)
    ensures Get(PhpStructureRows(lines), name) == PhpLastRowColumn(lines, name)
    ensures NoDupKeys(PhpStructureRows(lines))
    decreases |lines|
  {
    if lines != [] {
      var n := |lines| - 1;
      PhpStructureRowsLastWins(lines[..n], name);
      var m := PhpStructureRows(lines[..n]);
      var cells := Split(lines[n], '\t');
      if |cells| >= 6 {
        var c := PhpColumnOf(cells);
        if c.Some? {
          GetSet(m, cells[0], c.value, name);
          SetNoDup(m, cells[0], c.value);
        }
      }
    }
  }

  /** `buildStructure`: the rows, then the soft-deletes, timestamps and
      remember-token recognisers; this parser has no identity pass. */
  function PhpBuildStructure(rows: seq<string>): (m: Structure)
    ensures Recognised(m)
  {
    RecogniseNamedRecognised(PhpStructureRows(rows));
    RecogniseNamed(PhpStructureRows(rows))
  }

  // ------------------------------------------------------------ column lines

  /** PHP truthiness of the arguments: null, `''` and `'0'` are false, a
      non-empty array is true. */
  predicate PhpArgsTruthy(a: JsValue)
  {
    match a
    case Null => false
    case Str(t) => PhpTruthy(t)
    case Arr(xs) => xs != []
  }

  /** The call: `('name', args)`, `('name')`, or `()` for a whole-row call. */
  function PhpCallPart(k: string, c: Column): string
  {
    if c.field.Some? && PhpTruthy(c.field.value) then
      "('" + k + "'" + (if PhpArgsTruthy(c.args) then ", " + JoinValues(ToArray(c.args), ", ") + ")" else ")")
    else "()"
  }

  /** The modifiers: `->nullable()`, then `->default('...')` for a truthy
      default. */
  function PhpModifiers(c: Column): string
  {
    (if c.nullable then "->nullable()" else "")
    + (if c.default.Some? && PhpTruthy(c.default.value) then "->default('" + c.default.value + "')" else "")
  }

  /** The line `formatStructure` writes for the column stored under `k`. */
  function PhpColumnLine(k: string, c: Column): string
  {
    "$table->" + c.builder + PhpCallPart(k, c) + PhpModifiers(c) + ";"
  }

  /** `formatStructure`: one line per column, in table order. */
  function PhpStructureLines(m: Structure): seq<string>
  {
    MapLines(m, (k, c) => PhpColumnLine(k, c))
  }

  /** Every line is the line of the column at the same place. */
  lemma PhpStructureLinesAt(m: Structure)
    ensures |PhpStructureLines(m)| == |m|
    ensures forall i :: 0 <= i < |m| ==> PhpStructureLines(m)[i] == PhpColumnLine(m[i].0, m[i].1)
  {
    MapLinesAt(m, (k, c) => PhpColumnLine(k, c));
  }

  /** A column the recognisers rewrote is a bare whole-row call. */
  lemma PhpClearedLine(k: string, c: Column, builder: string)
    ensures PhpColumnLine(k, Cleared(c, builder)) == "$table->" + builder + "();"
  {
  }

  /** The arguments of a type expression are written as the expression
      gave them, with a space after each comma. */
  lemma PhpArgsWritten(t: string)
    requires PhpTruthy(t)
    ensures PhpArgsTruthy(PhpArgsOf(Some(t)))
    ensures JoinValues(ToArray(PhpArgsOf(Some(t))), ", ") == Join(Split(t, ','), ", ")
  {
    if ',' in t {
      JoinToArray(Split(t, ','), ", ");
    } else {
      SplitNone(t, ',');
    }
  }

  /** A default of `'0'` (or `''`) is falsy, so it is written like no
      default at all. */
  lemma PhpFalsyDefaultDropped(k: string, c: Column)
    requires c.default == Some("0") || c.default == Some("")
    ensures PhpColumnLine(k, c) == PhpColumnLine(k, c.(default := None))
  {
  }

  // ------------------------------------------------------------ the index listing

  /** The entry `buildIndexes` stores for a PRIMARY row, as written: a
      method and no columns. */
  function PrimaryEntryAsWritten(seqNo: string, col: string): (idx: Index)
    ensures idx.builder == "primary" && idx.columns == []
  {
    Index("primary", "", [])
  }

  /** The entry for a PRIMARY row as intended: the primary key on its
      column. */
  function PrimaryEntry(seqNo: string, col: string): (idx: Index)
    ensures idx.builder == "primary" && Values(idx.columns) == [col]
  {
    Index("primary", "", [(seqNo, col)])
  }

  /** The column is an `increments` or `bigIncrements` column, which makes
      its own primary key. */
  predicate IsIncrementsColumn(structure: Structure, col: string)
  {
    Get(structure, col).Some?
    && (Get(structure, col).value.builder == "increments" || Get(structure, col).value.builder == "bigIncrements")
  }

  /** One row of the listing (table, non-unique, key name, sequence,
      column, rest). A PRIMARY row stores a primary entry under its column
      name, unless the column makes its own; any other row adds its column
      to the index named, created with `KeyMethod` when new. The first five
      cells of `explode("\t", $row, 6)` are those of the full split; a row
      with fewer than five cells is skipped. The parser records no table
      name, so the entries' table is empty. */
  function PhpIndexRow(m: Indexes, structure: Structure, line: string): Indexes
  {
    var cells := Split(line, '\t');
    if |cells| < 5 then m
    else if cells[2] == "PRIMARY" then
      if IsIncrementsColumn(structure, cells[4]) then m
      else Set(m, cells[4], PrimaryEntry(cells[3], cells[4]))
    else AddColumn(m, cells[2], KeyMethod(cells[1]), "", cells[3], cells[4])
  }

  /** The rows taken in order, onto an empty table. */
  function PhpIndexRows(structure: Structure, lines: seq<string>): Indexes
    decreases |lines|
  {
    if lines == [] then []
    else PhpIndexRow(PhpIndexRows(structure, lines[..|lines| - 1]), structure, lines[|lines| - 1])
  }

  /** Every index names at least one column. */
  predicate ColumnsListed(m: Indexes)
  {
    forall e <- m :: e.1.columns != []
  }

  /** Every index method is one Laravel's blueprint has. */
  predicate KnownMethods(m: Indexes)
  {
    forall e <- m :: e.1.builder == "primary" || e.1.builder == "index" || e.1.builder == "unique"
  }

  /** The table built from the listing has no key twice, no column
      position twice, only `primary`, `index` and `unique` entries, and no
      entry without a column. */
  lemma {:induction false} PhpIndexRowsListed(structure: Structure, lines: seq<string>)
    ensures var r := PhpIndexRows(structure, lines);
            WellFormed(r) && ColumnsListed(r) && KnownMethods(r)
    decreases |lines|
  {
    if lines != [] {
      var n := |lines| - 1;
      PhpIndexRowsListed(structure, lines[..n]);
      var m := PhpIndexRows(structure, lines[..n]);
      var cells := Split(lines[n], '\t');
      if |cells| >= 5 {
        if cells[2] == "PRIMARY" {
          if !IsIncrementsColumn(structure, cells[4]) {
            var v := PrimaryEntry(cells[3], cells[4]);
            var r := Set(m, cells[4], v);
            SetNoDup(m, cells[4], v);
            SetEntries(m, cells[4], v);
            assert NoDupKeys(v.columns);
            forall i | 0 <= i < |r| ensures NoDupKeys(r[i].1.columns) {
              assert r[i] in r;
              if r[i] != (cells[4], v) {
                var j :| 0 <= j < |m| && m[j] == r[i];
              }
            }
          }
        } else {
          AddColumnWellFormed(m, cells[2], KeyMethod(cells[1]), "", cells[3], cells[4]);
          var e := Get(m, cells[2]).GetOr(Index(KeyMethod(cells[1]), "", []));
          var v := e.(columns := Set(e.columns, cells[3], cells[4]));
          SetEntries(m, cells[2], v);
          if Get(m, cells[2]).Some? {
            GetNone(m, cells[2]);
            KeysAt(m);
            var i :| 0 <= i < |m| && m[i].0 == cells[2];
            GetAt(m, i);
            assert m[i] in m;
          }
        }
      }
    }
  }

  // ------------------------------------------------------------ index lines

  /** The whitespace PHP's `is_numeric` allows around a number: space, tab,
      line feed, carriage return, vertical tab and form feed. */
  predicate IsPhpSpace(c: char)
  {
    c == ' ' || c == '\t' || c == '\n' || c == '\r' || c == '\U{B}' || c == '\U{C}'
  }

  /** PHP's `is_numeric` on a string: a decimal literal, with surrounding
      whitespace allowed. */
  predicate PhpIsNumeric(s: string)
  {
    DecimalLiteral(TrimBy(s, IsPhpSpace))
  }

  /** A value PHP takes for a number is made of whitespace and number
      characters only. */
  lemma PhpNumericChars(s: string)
    requires PhpIsNumeric(s)
    ensures s != []
    ensures forall k :: 0 <= k < |s| ==> IsPhpSpace(s[k]) || NumberChar(s[k])
  {
    var t := TrimBy(s, IsPhpSpace);
    var i, j := TrimSpan(s, IsPhpSpace);
    DecimalLiteralChars(t);
    forall k | 0 <= k < |s| ensures IsPhpSpace(s[k]) || NumberChar(s[k]) {
      if i <= k < j {
        assert t[k - i] == s[k];
      }
    }
  }

  /** `escapeArray`: numbers bare, other values quoted, bracketed when
      there are several. */
  function PhpEscapeArray(values: seq<string>): string
  {
    EscapeList(values, PhpIsNumeric)
  }

  /** One column gives a bare value, several a bracketed list, none an
      empty text; a single column is never empty. */
  lemma PhpEscapeArrayBracketed(values: seq<string>)
    ensures var r := PhpEscapeArray(values);
            && ((r != [] && r[0] == '[') <==> |values| > 1)
            && (|values| > 1 ==> r[|r| - 1] == ']')
            && (|values| == 0 <==> r == [])
  {
    forall v | PhpIsNumeric(v) ensures v == [] || v[0] != '[' {
      PhpNumericChars(v);
    }
    EscapeListBracketed(values, PhpIsNumeric);
    if |values| == 1 {
      var items := seq(1, i requires 0 <= i < 1 =>
                         if PhpIsNumeric(values[i]) then values[i] else Quoted(values[i]));
      assert PhpEscapeArray(values) == items[0];
      if PhpIsNumeric(values[0]) {
        PhpNumericChars(values[0]);
      }
    }
  }

  /** The line `formatIndexes` writes for the index stored under `name`. */
  function PhpIndexLine(name: string, idx: Index): string
  {
    "$table->" + idx.builder + "(" + PhpEscapeArray(Values(idx.columns)) + ", '" + name + "');"
  }

  /** `formatIndexes`: one line per index, in table order. */
  function PhpIndexLines(m: Indexes): seq<string>
    decreases |m|
  {
    if m == [] then [] else PhpIndexLines(m[..|m| - 1]) + [PhpIndexLine(m[|m| - 1].0, m[|m| - 1].1)]
  }

  /** Every line is the line of the index at the same place. */
  lemma {:induction false} PhpIndexLinesAt(m: Indexes)
    ensures |PhpIndexLines(m)| == |m|
    ensures forall i :: 0 <= i < |m| ==> PhpIndexLines(m)[i] == PhpIndexLine(m[i].0, m[i].1)
    decreases |m|
  {
    if m != [] {
      var n := |m| - 1;
      PhpIndexLinesAt(m[..n]);
      assert forall i :: 0 <= i < n ==> m[..n][i] == m[i];
    }
  }

  /** As written, the line for a primary key has an empty column list: the
      statement `$table->primary(, 'col');` is not valid PHP. */
  lemma PrimaryLineAsWritten(seqNo: string, col: string)
    ensures PhpIndexLine(col, PrimaryEntryAsWritten(seqNo, col)) == "$table->primary(, '" + col + "');"
  {
    PhpEscapeArrayBracketed([]);
  }

  /** As intended, the primary key names its column: the list is the
      column alone, unbracketed and not empty. */
  lemma PrimaryLineListed(seqNo: string, col: string)
    ensures var list := PhpEscapeArray(Values(PrimaryEntry(seqNo, col).columns));
      && PhpIndexLine(col, PrimaryEntry(seqNo, col)) == "$table->primary(" + list + ", '" + col + "');"
      && list != [] && list[0] != '['
      && (!PhpIsNumeric(col) ==> list == Quoted(col))
  {
    PhpEscapeArrayBracketed([col]);
    var items := seq(1, i requires 0 <= i < 1 => if PhpIsNumeric([col][i]) then [col][i] else Quoted([col][i]));
    assert PhpEscapeArray([col]) == items[0];
  }

  /** An index with a column never gets an empty column list. */
  lemma PhpIndexLineListed(name: string, idx: Index)
    requires idx.columns != []
    ensures var list := PhpEscapeArray(Values(idx.columns));
            list != [] && PhpIndexLine(name, idx) == "$table->" + idx.builder + "(" + list + ", '" + name + "');"
  {
    ValuesAt(idx.columns);
    PhpEscapeArrayBracketed(Values(idx.columns));
  }

  // ------------------------------------------------------------ the migration

  /** The delimiters of PHP's `ucwords`: space, tab, carriage return, line
      feed, form feed and vertical tab. */
  predicate IsPhpWordDelimiter(c: char)
  {
    c == ' ' || c == '\t' || c == '\r' || c == '\n' || c == '\U{C}' || c == '\U{B}'
  }

  /** `studly`: `-` and `_` become spaces, `ucwords` capitalises every
      word, and the spaces are removed. */
  function PhpStudly(s: string): string
  {
    ReplaceAll([" "], [""], Capitalised(ReplaceAll(["-", "_"], [" ", " "], s), true, IsPhpWordDelimiter))
  }

  /** A StudlyCase name has no dash, underscore or space. */
  lemma PhpStudlyHasNoSeparators(s: string)
    ensures '-' !in PhpStudly(s) && '_' !in PhpStudly(s) && ' ' !in PhpStudly(s)
  {
    var t1 := Table(["-", "_"], [" ", " "]);
    DashTable(" ", " ");
    ReplaceAllCharwise(["-", "_"], [" ", " "], s);
    var a := ReplaceAll(["-", "_"], [" ", " "], s);
    CharMappedRemoves(t1, s, '-');
    CharMappedRemoves(t1, s, '_');
    CapitalisedKeepsOut(a, true, IsPhpWordDelimiter, '-');
    CapitalisedKeepsOut(a, true, IsPhpWordDelimiter, '_');
    var b := Capitalised(a, true, IsPhpWordDelimiter);
    var t2 := Table([" "], [""]);
    assert [" "][..0] == [];
    ReplaceAllCharwise([" "], [""], b);
    CharMappedRemoves(t2, b, '-');
    CharMappedRemoves(t2, b, '_');
    CharMappedRemoves(t2, b, ' ');
  }

  /** PHP `str_replace` with arrays: each pair in turn replaces every
      occurrence of its find-string in the text the earlier pairs left. */
  function PhpStrReplace(finds: seq<string>, reps: seq<string>, s: string): string
    requires |finds| == |reps|
    requires forall f <- finds :: f != []
    decreases |finds|
  {
    if finds == [] then s
    else
      assert finds[0] in finds && forall f <- finds[1..] :: f in finds;
      PhpStrReplace(finds[1..], reps[1..], ReplaceAll([finds[0]], [reps[0]], s))
  }

  /** The pairs act one after the other: the last pair works on the text
      all the others produced, so text an earlier pair inserted is
      searched again by every later find-string. */
  lemma {:induction false} PhpStrReplaceSnoc(finds: seq<string>, reps: seq<string>, f: string, r: string, s: string)
    requires |finds| == |reps|
    requires forall x <- finds :: x != []
    requires f != []
    ensures PhpStrReplace(finds + [f], reps + [r], s) == ReplaceAll([f], [r], PhpStrReplace(finds, reps, s))
    decreases |finds|
  {
    if finds == [] {
      assert ([f] + [])[1..] == [];
    } else {
      assert (finds + [f])[1..] == finds[1..] + [f];
      assert (reps + [r])[1..] == reps[1..] + [r];
      assert finds[0] in finds && forall x <- finds[1..] :: x in finds;
      PhpStrReplaceSnoc(finds[1..], reps[1..], f, r, ReplaceAll([finds[0]], [reps[0]], s));
    }
  }

  /** The placeholders of `create.stub`, in the order they are replaced. */
  function PhpFinds(): (r: seq<string>)
    ensures |r| == 6 && forall f <- r :: f != []
  {
    ["DummyClass", "DummyTable", "// structure", "// indexes", "@date", "@file"]
  }

  /** A block of lines: joined with a line feed and twelve spaces, then a
      final line feed. */
  function PhpSection(lines: seq<string>): (r: string)
    ensures r != [] && r[|r| - 1] == '\n'
  {
    Join(lines, "\n" + seq(12, _ => ' ')) + "\n"
  }

  /** The `@file` line: the migration's file name, stamped with `date`
      (`Y_m_d_His`). */
  function MigrationFile(tableName: string, date: string): string
  {
    "@file database/migrations/" + date + "_create_" + ToLower(tableName) + "_table.php"
  }

  /** The replacements, in the order of `PhpFinds`. The `@date`
      placeholder is replaced by an undefined variable, that is by nothing. */
  function PhpReplacements(tableName: string, structure: Structure, indexes: Indexes, date: string): (r: seq<string>)
    ensures |r| == |PhpFinds()|
    ensures r[0] == "Create" + PhpStudly(tableName) + "Table" && r[1] == tableName && r[4] == []
  {
    ["Create" + PhpStudly(tableName) + "Table", tableName,
     PhpSection(PhpStructureLines(structure)), PhpSection(PhpIndexLines(indexes)),
     "", MigrationFile(tableName, date)]
  }

  class PhpMigrationParser {
    const tableName: string
    /** The contents of the `SHOW COLUMNS` listing. */
    const structureFile: string
    /** The contents of the `SHOW INDEX` listing. */
    const indexesFile: string

    /** `$structure`: the columns by name. */
    var structure: Structure
    /** `$indexes`: the indexes by name (primary keys by column name). */
    var indexes: Indexes

    constructor (tableName: string, structureFile: string, indexesFile: string)
      ensures this.tableName == tableName && this.structureFile == structureFile
      ensures this.indexesFile == indexesFile
      ensures structure == [] && indexes == []
    {
      this.tableName := tableName;
      this.structureFile := structureFile;
      this.indexesFile := indexesFile;
      structure := [];
      indexes := [];
    }

    /** `buildStructure`: the column table rebuilt from the listing, row by
        row, then rewritten by the three recognisers. */
    method BuildStructure()
      modifies this
      ensures structure == PhpBuildStructure(PhpRows(structureFile))
      ensures indexes == old(indexes)
    {
      structure := [];
      var rows := PhpRows(structureFile);
      var i := 0;
      while i < |rows|
        invariant 0 <= i <= |rows|
        invariant structure == PhpStructureRows(rows[..i])
        invariant indexes == old(indexes)
      {
        var cells := Split(rows[i], '\t');
        if |cells| >= 6 {
          var c := PhpColumnOf(cells);
          if c.Some? {
            structure := Set(structure, cells[0], c.value);
          }
        }
        assert rows[..i + 1][..i] == rows[..i];
        i := i + 1;
      }
      assert rows[..i] == rows;
      if IsTimestamp(structure, "deleted_at") {
        structure := Set(structure, "deleted_at", Cleared(Get(structure, "deleted_at").value, "softDeletes"));
      }
      if IsTimestamp(structure, "created_at") && IsTimestamp(structure, "updated_at") {
        var created := Get(structure, "created_at").value;
        structure := Remove(structure, "updated_at");
        structure := Set(structure, "created_at",
                         Cleared(created, if created.nullable then "nullableTimestamps" else "timestamps"));
      }
      if IsRememberToken(structure) {
        structure := Set(structure, "remember_token", Cleared(Get(structure, "remember_token").value, "rememberToken"));
      }
    }

    /** The body of `formatStructure`'s loop: the line for one column,
        built piece by piece. */
    method ColumnLineOf(k: string, c: Column) returns (line: string)
      ensures line == PhpColumnLine(k, c)
    {
      var call: string;
      if c.field.Some? && PhpTruthy(c.field.value) {
        if PhpArgsTruthy(c.args) {
          call := "('" + k + "'" + (", " + JoinValues(ToArray(c.args), ", ") + ")");
        } else {
          call := "('" + k + "'" + ")";
        }
      } else {
        call := "()";
      }
      var modifiers := "";
      if c.nullable {
        modifiers := "->nullable()";
      }
      if c.default.Some? && PhpTruthy(c.default.value) {
        modifiers := modifiers + "->default('" + c.default.value + "')";
      }
      line := "$table->" + c.builder + call + modifiers + ";";
    }

    /** `formatStructure`: one line per column, in table order. */
    method FormatStructure() returns (fields: seq<string>)
      ensures |fields| == |structure|
      ensures forall i :: 0 <= i < |structure| ==> fields[i] == PhpColumnLine(structure[i].0, structure[i].1)
    {
      fields := [];
      var i := 0;
      while i < |structure|
        invariant 0 <= i <= |structure|
        invariant |fields| == i
        invariant forall j :: 0 <= j < i ==> fields[j] == PhpColumnLine(structure[j].0, structure[j].1)
      {
        var (k, c) := structure[i];
        var line := ColumnLineOf(k, c);
        fields := fields + [line];
        i := i + 1;
      }
    }

    /** `buildIndexes`: the index table rebuilt from the listing, row by
        row, with a primary key on its column (see `PrimaryEntry`). */
    method BuildIndexes()
      modifies this
      ensures indexes == PhpIndexRows(structure, PhpRows(indexesFile))
      ensures WellFormed(indexes) && ColumnsListed(indexes) && KnownMethods(indexes)
      ensures structure == old(structure)
    {
      indexes := [];
      var rows := PhpRows(indexesFile);
      var i := 0;
      while i < |rows|
        invariant 0 <= i <= |rows|
        invariant indexes == PhpIndexRows(structure, rows[..i])
        invariant structure == old(structure)
      {
        var cells := Split(rows[i], '\t');
        if |cells| >= 5 {
          var keyName, colName := cells[2], cells[4];
          if keyName == "PRIMARY" {
            if !IsIncrementsColumn(structure, colName) {
              indexes := Set(indexes, colName, PrimaryEntry(cells[3], colName));
            }
          } else {
            indexes := AddColumn(indexes, keyName, KeyMethod(cells[1]), "", cells[3], colName);
          }
        }
        assert rows[..i + 1][..i] == rows[..i];
        i := i + 1;
      }
      assert rows[..i] == rows;
      PhpIndexRowsListed(structure, rows);
    }

    /** `formatIndexes`: one line per index, in table order. */
    method FormatIndexes() returns (fields: seq<string>)
      ensures fields == PhpIndexLines(indexes)
    {
      fields := [];
      var i := 0;
      while i < |indexes|
        invariant 0 <= i <= |indexes|
        invariant fields == PhpIndexLines(indexes[..i])
      {
        var (name, idx) := indexes[i];
        fields := fields + [PhpIndexLine(name, idx)];
        assert indexes[..i + 1][..i] == indexes[..i];
        i := i + 1;
      }
      assert indexes[..i] == indexes;
    }

    /** `makeMigration`: build both tables, then fill the template `stub`
        (the contents of `create.stub`); `date` is the time stamp the
        clock gives. */
    method MakeMigration(stub: string, date: string) returns (output: string)
      modifies this
      ensures structure == PhpBuildStructure(PhpRows(structureFile))
      ensures indexes == PhpIndexRows(structure, PhpRows(indexesFile))
      ensures ColumnsListed(indexes)
      ensures output == PhpStrReplace(PhpFinds(), PhpReplacements(tableName, structure, indexes, date), stub)
    {
      BuildStructure();
      BuildIndexes();
      var structureLines := FormatStructure();
      PhpStructureLinesAt(structure);
      assert structureLines == PhpStructureLines(structure);
      var indexLines := FormatIndexes();
      var className := "Create" + PhpStudly(tableName) + "Table";
      var reps := [className, tableName, PhpSection(structureLines), PhpSection(indexLines), "",
                   MigrationFile(tableName, date)];
      assert reps == PhpReplacements(tableName, structure, indexes, date);
      output := PhpStrReplace(PhpFinds(), reps, stub);
    }
  }
}
