/** The column classifier of src/MigrationParser.js: one structure row (name,
    type expression, nullable flag, key flag, default, character set,
    collation, extra, comment) becomes a `Column`, its builder method chosen
    by the `#parse*` handler for the lower-cased type name. */
module JsColumns {
  import opened Wrappers
  import opened Strings
  import opened OrderedMaps
  import opened Helpers
  import opened Schema

  /** `MigrationParser.TS_UPDATE_STRING`. */
  const TsUpdate: string := "ON UPDATE CURRENT_TIMESTAMP"

  /** `#integerMaps`. */
  const IntegerMaps: map<string, string> :=
    map["int" := "integer", "bigint" := "bigInteger", "mediumint" := "mediumInteger",
        "smallint" := "smallInteger", "tinyint" := "tinyInteger"]

  /** What a handler contributes to the column: the builder method, the
      arguments, and the two flags (false where the handler sets none). */
  datatype Handled = Handled(builder: string, args: JsValue, autoIncrement: bool, unsigned: bool)

  /** The arguments as the parser stores them: the text between the
      parentheses, split at commas when it holds one; null without
      parentheses. */
  function ArgsOf(a: Option<string>): (r: JsValue)
    ensures a.None? ==> r == Null
    ensures a.Some? && ',' in a.value ==> r.Arr? && Join(r.items, ",") == a.value
    ensures a.Some? && ',' !in a.value ==> r == Str(a.value)
  {
    match a
    case None => Null
    case Some(t) =>
      if ',' in t then
        JoinSplit(t, ',');
        Arr(Split(t, ','))
      else Str(t)
  }

  /** `#parseInt`, shared by every integer type. */
  function ParseInt(t: string, typeExtra: string, extra: string): Handled
    requires t in IntegerMaps
  {
    Handled(IntegerMaps[t], Null, IsAutoIncrement(extra), IsUnsigned(typeExtra))
  }

  /** `#defaultParse`: the builder and the arguments, no flags. */
  function DefaultParse(builder: string, args: JsValue): Handled
  {
    Handled(builder, args, false, false)
  }

  /** A numeric handler (`#parseDecimal`, `#parseDouble`, `#parseFloat`):
      the arguments and the unsigned flag. */
  function ParseSigned(builder: string, args: JsValue, typeExtra: string): Handled
  {
    Handled(builder, args, false, IsUnsigned(typeExtra))
  }

  /** `#parseTinyint` as intended: `tinyint(1)` is a boolean. */
  function ParseTinyint(args: JsValue, typeExtra: string, extra: string): Handled
  {
    if args == Str("1") then Handled("boolean", Null, false, false)
    else ParseInt("tinyint", typeExtra, extra)
  }

  /** `#parseTinyint` as written: it compares the arguments with the number
      1, but they are a string or null, so it always defers to `#parseInt`. */
  function ParseTinyintAsWritten(args: JsValue, typeExtra: string, extra: string): Handled
  {
    ParseInt("tinyint", typeExtra, extra)
  }

  /** A `tinyint(1)` column: a `tinyInteger` as written, a `boolean` as
      intended. */
  lemma TinyintOne(args: JsValue, typeExtra: string, extra: string)
    requires args == Str("1")
    ensures ParseTinyintAsWritten(args, typeExtra, extra).builder == "tinyInteger"
    ensures ParseTinyint(args, typeExtra, extra) == Handled("boolean", Null, false, false)
  {
  }

  /** `#parseTimestamp`: an `ON UPDATE CURRENT_TIMESTAMP` in the extra column
      (in any case) replaces the arguments with that marker. */
  function ParseTimestamp(args: JsValue, extra: string): Handled
  {
    DefaultParse("timestamp", if Contains(ToUpper(extra), TsUpdate) then Str(TsUpdate) else args)
  }

  /** The handler `'parse' + ucfirst(type)` names, as an explicit table.
      `#parseDoublePrecision` is absent: a type name is a run of word
      characters, so `double precision` reaches the handler as `double`. */
  function Handle(t: string, args: JsValue, typeExtra: string, extra: string): Option<Handled>
  {
    match t
    case "int" => Some(ParseInt(t, typeExtra, extra))
    case "bigint" => Some(ParseInt(t, typeExtra, extra))
    case "mediumint" => Some(ParseInt(t, typeExtra, extra))
    case "smallint" => Some(ParseInt(t, typeExtra, extra))
    case "tinyint" => Some(ParseTinyint(args, typeExtra, extra))
    case "blob" => Some(DefaultParse("binary", args))
    case "char" => Some(DefaultParse("char", args))
    case "date" => Some(DefaultParse("date", Null))
    case "datetime" => Some(DefaultParse("dateTime", Null))
    case "decimal" => Some(ParseSigned("decimal", args, typeExtra))
    case "numeric" => Some(ParseSigned("decimal", args, typeExtra))
    case "fixed" => Some(ParseSigned("decimal", args, typeExtra))
    case "double" => Some(ParseSigned("double", args, typeExtra))
    case "real" => Some(ParseSigned("double", args, typeExtra))
    case "float" => Some(ParseSigned("float", args, typeExtra))
    case "longtext" => Some(DefaultParse("longText", args))
    case "mediumtext" => Some(DefaultParse("mediumText", args))
    case "tinytext" => Some(DefaultParse("tinyText", args))
    case "text" => Some(DefaultParse("text", args))
    case "varchar" => Some(DefaultParse("string", args))
    case "enum" => Some(DefaultParse("enum", args))
    case "set" => Some(DefaultParse("set", args))
    case "time" => Some(DefaultParse("time", args))
    case "timestamp" => Some(ParseTimestamp(args, extra))
    case "json" => Some(DefaultParse("json", args))
    case _ => None
  }

  /** An integer type: its `#integerMaps` builder with null arguments, auto
      increment read from the extra column and unsigned from the type
      extra; a `tinyint(1)` is the one exception, a plain `boolean`. */
  lemma HandleInteger(t: string, args: JsValue, typeExtra: string, extra: string)
    requires t in IntegerMaps
    ensures var h := Handle(t, args, typeExtra, extra);
      && h.Some?
      && (h.value.builder == "boolean" <==> t == "tinyint" && args == Str("1"))
      && (h.value.builder != "boolean" ==>
            h.value == Handled(IntegerMaps[t], Null, IsAutoIncrement(extra), IsUnsigned(typeExtra)))
  {
  }

  /** The types with a handler; every other type is `UNKNOWN:<type>`. */
  const HandledTypes: set<string> :=
    {"int", "bigint", "mediumint", "smallint", "tinyint", "blob", "char", "date", "datetime",
     "decimal", "numeric", "fixed", "double", "real", "float", "longtext", "mediumtext",
     "tinytext", "text", "varchar", "enum", "set", "time", "timestamp", "json"}

  /** The column methods of Laravel's `Blueprint` that a handler may
      choose. */
  const BlueprintMethods: set<string> :=
    {"integer", "bigInteger", "mediumInteger", "smallInteger", "tinyInteger", "increments",
     "bigIncrements", "boolean", "binary", "char", "date", "dateTime", "decimal", "double",
     "float", "longText", "mediumText", "tinyText", "text", "string", "enum", "set", "time",
     "timestamp", "json"}

  /** No Blueprint method starts like the marker of an unknown type. */
  lemma BlueprintNotUnknown(b: string)
    requires b in BlueprintMethods
    ensures !StartsWith(b, "UNKNOWN:")
  {
    assert b[0] != 'U';
  }

  /** A type has a handler exactly when it is one of the handled names, and
      the handler then picks a Blueprint method, never the `UNKNOWN:`
      marker that an unhandled type gets. */
  lemma HandleDefined(t: string, args: JsValue, typeExtra: string, extra: string)
    ensures Handle(t, args, typeExtra, extra).Some? <==> t in HandledTypes
    ensures Handle(t, args, typeExtra, extra).Some? ==>
              && Handle(t, args, typeExtra, extra).value.builder in BlueprintMethods
              && !StartsWith(Handle(t, args, typeExtra, extra).value.builder, "UNKNOWN:")
  {
    var h := Handle(t, args, typeExtra, extra);
    if h.Some? {
      BlueprintNotUnknown(h.value.builder);
    }
  }

  /** A column's character set or collation: kept when it is not `NULL` and
      differs from the table's own (a table without one never matches). */
  function Divergent(v: string, table: Option<string>): (r: Option<string>)
    ensures r.Some? <==> v != "NULL" && table != Some(v)
    ensures r.Some? ==> r.value == v
  {
    if v != "NULL" && table != Some(v) then Some(v) else None
  }

  /** The comment with CR and LF removed and trimmed; null when nothing is
      left. */
  function CommentOf(c: string): Option<string>
  {
    var t := Trim(ReplaceAll(["\r", "\n"], ["", ""], c));
    if t == [] then None else Some(t)
  }

  /** A kept comment holds no line break character and no surrounding
      whitespace. */
  lemma CommentOfClean(c: string)
    ensures CommentOf(c).Some? ==>
      var t := CommentOf(c).value;
      '\r' !in t && '\n' !in t && !IsSpace(t[0]) && !IsSpace(t[|t| - 1])
  {
    var u := ReplaceAll(["\r", "\n"], ["", ""], c);
    LineBreaksRemoved(c);
    TrimKeepsOut(u, '\r');
    TrimKeepsOut(u, '\n');
  }

  /** Removing CR and LF leaves neither. */
  lemma LineBreaksRemoved(c: string)
    ensures var u := ReplaceAll(["\r", "\n"], ["", ""], c);
            '\r' !in u && '\n' !in u
  {
    var table := Table(["\r", "\n"], ["", ""]);
    assert ["\r", "\n"][..1] == ["\r"] && ["", ""][..1] == [""];
    assert ["\r"][..0] == [] && [""][..0] == [];
    assert table == map["\r" := "", "\n" := ""];
    ReplaceAllCharwise(["\r", "\n"], ["", ""], c);
    CharMappedRemoves(table, c, '\r');
    CharMappedRemoves(table, c, '\n');
  }

  /** Trimming never brings in a character. */
  lemma TrimKeepsOut(u: string, x: char)
    requires x !in u
    ensures x !in Trim(u)
  {
    var i, j := TrimSpan(u, IsSpace);
    var t := Trim(u);
    forall k | 0 <= k < |t| ensures t[k] != x {
      assert t[k] == u[i + k];
    }
  }

  /** One structure row as `#buildStructure` reads it, before the
      recognisers run: None when the type expression does not match, in
      which case the row is skipped. */
  function ColumnOf(row: seq<string>, tableCharset: Option<string>, tableCollation: Option<string>): Option<Column>
    requires |row| >= 9
  {
    match SplitType(row[1], IsJsLineBreak)
    case None => None
    case Some(p) =>
      var t := ToLower(p.name);
      var args := ArgsOf(p.args);
      var typeExtra := Trim(p.rest);
      var h := Handle(t, args, typeExtra, row[7]);
      var handled := if h.Some? then h.value else Handled("UNKNOWN:" + t, Null, false, false);
      Some(Column(
        field := Some(row[0]),
        builder := handled.builder,
        args := handled.args,
        nullable := row[2] == "YES",
        default := if row[4] != "NULL" then Some(row[4]) else None,
        characterSet := Divergent(row[5], tableCharset),
        collation := Divergent(row[6], tableCollation),
        autoIncrement := handled.autoIncrement,
        unsigned := handled.unsigned,
        comment := CommentOf(row[8])))
  }

  /** A row is kept exactly when its type expression starts with a word
      character and holds no line break; a kept column repeats its name,
      is nullable iff the flag is `YES`, and has a default iff the default
      cell is not `NULL`. */
  lemma ColumnOfKept(row: seq<string>, tableCharset: Option<string>, tableCollation: Option<string>)
    requires |row| >= 9
    ensures ColumnOf(row, tableCharset, tableCollation).Some?
            <==> row[1] != [] && IsWordChar(row[1][0]) && forall k :: 0 <= k < |row[1]| ==> !IsJsLineBreak(row[1][k])
    ensures ColumnOf(row, tableCharset, tableCollation).Some? ==>
      var c := ColumnOf(row, tableCharset, tableCollation).value;
      && c.field == Some(row[0])
      && (c.nullable <==> row[2] == "YES")
      && (c.default.Some? <==> row[4] != "NULL")
      && (c.default.Some? ==> c.default.value == row[4])
      && (c.characterSet.Some? <==> row[5] != "NULL" && tableCharset != Some(row[5]))
      && (c.collation.Some? <==> row[6] != "NULL" && tableCollation != Some(row[6]))
  {
    SplitTypeMatches(row[1], IsJsLineBreak);
  }

  // ------------------------------------------------------------ the structure listing

  /** One line of the structure listing: a kept row stores its column under
      its name, replacing (in place) a column of the same name. A line with
      fewer than nine cells (the empty line after the file's final line
      feed) is skipped like a row whose type does not match. */
  function StructureRow(m: Structure, line: string, tableCharset: Option<string>, tableCollation: Option<string>): Structure
  {
    var cells := Split(line, '\t');
    if |cells| < 9 then m
    else match ColumnOf(cells, tableCharset, tableCollation)
      case None => m
      case Some(c) => Set(m, cells[0], c)
  }

  /** The lines of the listing taken in order, onto an empty table. */
  function StructureRows(lines: seq<string>, tableCharset: Option<string>, tableCollation: Option<string>): Structure
    decreases |lines|
  {
    if lines == [] then []
    else StructureRow(StructureRows(lines[..|lines| - 1], tableCharset, tableCollation), lines[|lines| - 1],
                      tableCharset, tableCollation)
  }

  /** The column a line gives the table under `name`, if any. */
  function RowColumn(line: string, name: string, tableCharset: Option<string>, tableCollation: Option<string>): Option<Column>
  {
    var cells := Split(line, '\t');
    if |cells| < 9 || cells[0] != name then None else ColumnOf(cells, tableCharset, tableCollation)
  }

  /** The column of the last line giving one under `name`: a reference
      definition searching the listing from its end. */
  function LastRowColumn(lines: seq<string>, name: string, tableCharset: Option<string>, tableCollation: Option<string>): Option<Column>
    decreases |lines|
  {
    if lines == [] then None
    else
      var c := RowColumn(lines[|lines| - 1], name, tableCharset, tableCollation);
      if c.Some? then c else LastRowColumn(lines[..|lines| - 1], name, tableCharset, tableCollation)
  }

  /** The table holds under each name the column of the last row of that
      name, and has no name twice. */
  lemma {:induction false} StructureRowsLastWins(lines: seq<string>, name: string, tableCharset: Option<string>, tableCollation: Option<string>)
    ensures Get(StructureRows(lines, tableCharset, tableCollation), name) == LastRowColumn(lines, name, tableCharset, tableCollation)
    ensures NoDupKeys(StructureRows(lines, tableCharset, tableCollation))
    decreases |lines|
  {
    if lines != [] {
      var n := |lines| - 1;
      StructureRowsLastWins(lines[..n], name, tableCharset, tableCollation);
      var m := StructureRows(lines[..n], tableCharset, tableCollation);
      var cells := Split(lines[n], '\t');
      if |cells| >= 9 {
        var c := ColumnOf(cells, tableCharset, tableCollation);
        if c.Some? {
          GetSet(m, cells[0], c.value, name);
          SetNoDup(m, cells[0], c.value);
        }
      }
    }
  }
}
