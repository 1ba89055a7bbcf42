/** Single-row inputs of src/MigrationParser.js followed from the cells of
    their listing to the line the migration gets: an identity column, a
    remember token, an enum with a default, a unique index and a foreign
    key. */
module JsScenarios {
  import opened Wrappers
  import opened Strings
  import opened OrderedMaps
  import opened Helpers
  import opened Schema
  import opened JsColumns
  import opened JsKeys
  import opened JsRender

  // ------------------------------------------------------------ reading cells

  /** The run of `ws` characters ends where the first other one stands. */
  lemma LeadingByAt(s: string, ws: char -> bool, n: nat)
    requires n <= |s| && (forall k :: 0 <= k < n ==> ws(s[k])) && (n == |s| || !ws(s[n]))
    ensures LeadingBy(s, ws) == n
  {
  }

  /** The first `c` is the one with no `c` before it. */
  lemma FirstIndexOfAt(s: string, c: char, i: nat)
    requires i < |s| && s[i] == c && forall k :: 0 <= k < i ==> s[k] != c
    ensures c in s && FirstIndexOf(s, c) == i
  {
    assert c in s by { assert s[i] == c; }
  }

  /** A type expression `name(args)rest` without a line break, where the
      name is a run of word characters and `args` holds no `)`. */
  lemma SplitTypeAt(s: string, n: nat, j: nat)
    requires 0 < n && n + j < |s| && forall k :: 0 <= k < |s| ==> !IsJsLineBreak(s[k])
    requires forall k :: 0 <= k < n ==> IsWordChar(s[k])
    requires s[n] == '(' && s[n + j] == ')'
    requires forall k :: n <= k < n + j ==> s[k] != ')'
    ensures SplitType(s, IsJsLineBreak) == Some(TypeParts(s[..n], Some(s[n + 1..n + j]), s[n + j + 1..]))
  {
    LeadingByAt(s, IsWordChar, n);
    var tail := s[n..];
    FirstIndexOfAt(tail, ')', j);
    assert tail[1..j] == s[n + 1..n + j];
  }

  /** Text without capitals is its own lower case. */
  lemma ToLowerKeeps(s: string)
    requires forall k :: 0 <= k < |s| ==> !('A' <= s[k] <= 'Z')
    ensures ToLower(s) == s
  {
  }

  /** A method name with no `i` in either case is no integer method. */
  lemma NotIntegerWithoutI(b: string)
    requires 'i' !in b && 'I' !in b
    ensures !IsInteger(b)
  {
    var lower := ToLower(b);
    ContainsIff(lower, "integer");
    forall i ensures !OccursAt(lower, "integer", i) {
      if 0 <= i && i + 7 <= |lower| {
        assert b[i] in b;
        assert lower[i..i + 7][0] == lower[i];
      }
    }
  }

  /** An empty cell: no comment, no type extra. */
  lemma EmptyCell()
    ensures Trim("") == "" && CommentOf("") == None && !IsUnsigned("")
  {
    assert ReplaceAll(["\r", "\n"], ["", ""], "") == "";
  }

  /** A row whose type expression splits into `p` and whose type has the
      handler result `h`. */
  lemma ColumnOfParts(row: seq<string>, tableCharset: Option<string>, tableCollation: Option<string>,
                      p: TypeParts, h: Handled)
    requires |row| == 9 && SplitType(row[1], IsJsLineBreak) == Some(p)
    requires Handle(ToLower(p.name), ArgsOf(p.args), Trim(p.rest), row[7]) == Some(h)
    ensures ColumnOf(row, tableCharset, tableCollation)
            == Some(Column(Some(row[0]), h.builder, h.args, row[2] == "YES",
                           if row[4] != "NULL" then Some(row[4]) else None,
                           Divergent(row[5], tableCharset), Divergent(row[6], tableCollation),
                           h.autoIncrement, h.unsigned, CommentOf(row[8])))
  {
  }

  /** A table of one column is written as that column's line. */
  lemma StructureLinesOne(k: string, c: Column)
    ensures StructureLines([(k, c)]) == [ColumnLine(k, c)]
  {
    var m := [(k, c)];
    StructureLinesSnoc(m, 0);
    assert m[..1] == m && m[..0] == [];
  }

  /** A table of one column named none of `deleted_at`, `created_at`,
      `updated_at` and `remember_token` is changed by the identity rule
      alone. */
  lemma NormaliseOne(k: string, c: Column)
    requires k != "deleted_at" && k != "created_at" && k != "updated_at" && k != "remember_token"
    ensures Normalise([(k, c)]) == [(k, AsId(k, c))]
  {
    var m := [(k, c)];
    assert Get(m, "deleted_at") == None && Get(m, "created_at") == None;
    assert Get(m, "remember_token") == None;
    assert SoftDeletes(m) == m && Timestamps(m) == m && RememberToken(m) == m;
    assert m[1..] == [];
    assert RecogniseNamed(m) == m;
    assert IdColumns(m) == [(k, AsId(k, c))] + IdColumns([]);
  }

  // ------------------------------------------------------------ id

  /** `bigint(20)`: the name, the size, nothing after. */
  lemma BigintType(s: string)
    requires s == "bigint(20)"
    ensures SplitType(s, IsJsLineBreak) == Some(TypeParts("bigint", Some("20"), ""))
  {
    SplitTypeAt(s, 6, 3);
    assert s[..6] == "bigint";
    assert s[7..9] == "20";
    assert s[10..] == "";
  }

  /** An integer type given the `auto_increment` extra, with no type
      extra, is an auto-incrementing integer method without arguments. */
  lemma HandleAutoIncrement(t: string, args: JsValue, e: string)
    requires t in {"int", "bigint", "mediumint", "smallint"} && e == "auto_increment"
    ensures Handle(t, args, "", e) == Some(Handled(IntegerMaps[t], Null, true, false))
  {
    assert StartsWith(e, "auto_increment");
    EmptyCell();
  }

  /** A row typed `bigint(20)` with the `auto_increment` extra is read as
      an auto-incrementing big integer without arguments. */
  lemma IdRowColumn(row: seq<string>, tableCharset: Option<string>, tableCollation: Option<string>)
    requires |row| == 9 && row[1] == "bigint(20)" && row[7] == "auto_increment"
    ensures ColumnOf(row, tableCharset, tableCollation).Some?
    ensures var c := ColumnOf(row, tableCharset, tableCollation).value;
            IsIdCandidate(c) && c.characterSet == Divergent(row[5], tableCharset)
            && c.collation == Divergent(row[6], tableCollation) && c.comment == CommentOf(row[8])
  {
    BigintType(row[1]);
    ToLowerKeeps("bigint");
    HandleAutoIncrement("bigint", Str("20"), row[7]);
  }

  /** A row `id  bigint(20)  ...  auto_increment` with no character set,
      collation or comment of its own is written `$table->id();`, whatever
      its null flag and default. */
  lemma IdRow(row: seq<string>, tableCharset: Option<string>, tableCollation: Option<string>)
    requires |row| == 9 && row[0] == "id" && row[1] == "bigint(20)" && row[7] == "auto_increment"
    requires !Present(Divergent(row[5], tableCharset)) && !Present(Divergent(row[6], tableCollation))
    requires CommentOf(row[8]) == None
    ensures ColumnOf(row, tableCharset, tableCollation).Some?
    ensures var c := ColumnOf(row, tableCharset, tableCollation).value;
            StructureLines(Normalise([("id", c)])) == ["$table->id();"]
  {
    IdRowColumn(row, tableCharset, tableCollation);
    var c := ColumnOf(row, tableCharset, tableCollation).value;
    NormaliseOne("id", c);
    StructureLinesOne("id", AsId("id", c));
    IdColumnLine(c);
  }

  // ------------------------------------------------------------ rememberToken

  /** `varchar(100)`: the name, the length, nothing after. */
  lemma VarcharType(s: string)
    requires s == "varchar(100)"
    ensures SplitType(s, IsJsLineBreak) == Some(TypeParts("varchar", Some("100"), ""))
  {
    SplitTypeAt(s, 7, 4);
    assert s[..7] == "varchar";
    assert s[8..11] == "100";
    assert s[12..] == "";
  }

  /** A nullable row typed `varchar(100)` is read as a nullable string of
      length 100. */
  lemma RememberTokenColumn(row: seq<string>, tableCharset: Option<string>, tableCollation: Option<string>)
    requires |row| == 9 && row[1] == "varchar(100)" && row[2] == "YES"
    ensures ColumnOf(row, tableCharset, tableCollation).Some?
    ensures var c := ColumnOf(row, tableCharset, tableCollation).value;
            c.builder == "string" && c.nullable && c.args == Str("100") && !c.autoIncrement && !c.unsigned
            && c.characterSet == Divergent(row[5], tableCharset)
            && c.collation == Divergent(row[6], tableCollation) && c.comment == CommentOf(row[8])
  {
    VarcharType(row[1]);
    ToLowerKeeps("varchar");
    EmptyCell();
    assert ArgsOf(Some("100")) == Str("100") by { assert ',' !in "100"; }
    assert Handle("varchar", Str("100"), "", row[7]) == Some(DefaultParse("string", Str("100")));
  }

  /** A table holding only a remember token: it becomes the whole-row call. */
  lemma RememberTokenAlone(c: Column)
    requires c.builder == "string" && c.nullable && c.args == Str("100")
    ensures Normalise([("remember_token", c)]) == [("remember_token", Cleared(c, "rememberToken"))]
  {
    var m := [("remember_token", c)];
    assert Get(m, "deleted_at") == None && Get(m, "created_at") == None;
    assert SoftDeletes(m) == m && Timestamps(m) == m;
    assert IsRememberToken(m);
    var r := Cleared(c, "rememberToken");
    assert RecogniseNamed(m) == [("remember_token", r)];
    assert [("remember_token", r)][1..] == [];
    assert IdColumns([("remember_token", r)]) == [("remember_token", r)];
  }

  lemma RememberTokenNotInteger()
    ensures !IsInteger("rememberToken")
  {
    NotIntegerWithoutI("rememberToken");
  }

  /** ... and is written `$table->rememberToken();` when it has no character
      set, collation or comment of its own. */
  lemma RememberTokenLine(c: Column)
    requires c.builder == "string" && c.nullable && c.args == Str("100")
    requires !Present(c.characterSet) && !Present(c.collation) && c.comment.None?
    requires !c.autoIncrement && !c.unsigned
    ensures StructureLines(Normalise([("remember_token", c)])) == ["$table->rememberToken();"]
  {
    var r := Cleared(c, "rememberToken");
    calc {
      StructureLines(Normalise([("remember_token", c)]));
    == { RememberTokenAlone(c); }
      StructureLines([("remember_token", r)]);
    == { StructureLinesOne("remember_token", r); }
      [ColumnLine("remember_token", r)];
    == { RememberTokenNotInteger(); ClearedColumnLine("remember_token", c, "rememberToken"); }
      ["$table->" + "rememberToken" + "();"];
    == { assert "$table->" + "rememberToken" + "();" == "$table->rememberToken();"; }
      ["$table->rememberToken();"];
    }
  }

  /** A nullable `varchar(100)` named `remember_token`, with no character
      set, collation or comment of its own, is written
      `$table->rememberToken();`, whatever its default. */
  lemma RememberTokenRow(row: seq<string>, tableCharset: Option<string>, tableCollation: Option<string>)
    requires |row| == 9 && row[0] == "remember_token" && row[1] == "varchar(100)" && row[2] == "YES"
    requires !Present(Divergent(row[5], tableCharset)) && !Present(Divergent(row[6], tableCollation))
    requires CommentOf(row[8]) == None
    ensures ColumnOf(row, tableCharset, tableCollation).Some?
    ensures var c := ColumnOf(row, tableCharset, tableCollation).value;
            StructureLines(Normalise([("remember_token", c)])) == ["$table->rememberToken();"]
  {
    RememberTokenColumn(row, tableCharset, tableCollation);
    RememberTokenLine(ColumnOf(row, tableCharset, tableCollation).value);
  }

  // ------------------------------------------------------------ enum

  /** `enum('yes','no')`: the name, the quoted options, nothing after. */
  lemma EnumType(s: string)
    requires s == "enum('yes','no')"
    ensures SplitType(s, IsJsLineBreak) == Some(TypeParts("enum", Some("'yes','no'"), ""))
  {
    SplitTypeAt(s, 4, 11);
    assert s[..4] == "enum" && s[5..15] == "'yes','no'" && s[16..] == "";
  }

  /** The options are cut at the comma and keep their quotes. */
  lemma EnumOptions(a: string)
    requires a == "'yes','no'"
    ensures ArgsOf(Some(a)) == Arr(["'yes'", "'no'"])
  {
    SplitFirst(a, ',', 5);
    SplitNone(a[6..], ',');
    assert a[..5] == "'yes'" && a[6..] == "'no'";
    assert a[5] == ',';
  }

  lemma HandleEnum(args: JsValue, extra: string)
    ensures Handle(ToLower("enum"), args, Trim(""), extra) == Some(Handled("enum", args, false, false))
  {
    ToLowerKeeps("enum");
    EmptyCell();
  }

  /** A row typed `enum('yes','no')` is read as an enum over the two quoted
      options. */
  lemma EnumColumn(row: seq<string>, tableCharset: Option<string>, tableCollation: Option<string>)
    requires |row| == 9 && row[1] == "enum('yes','no')"
    ensures ColumnOf(row, tableCharset, tableCollation).Some?
    ensures var c := ColumnOf(row, tableCharset, tableCollation).value;
            c.builder == "enum" && c.args == Arr(["'yes'", "'no'"]) && !c.autoIncrement && !c.unsigned
            && c.field == Some(row[0]) && c.nullable == (row[2] == "YES")
            && c.default == (if row[4] != "NULL" then Some(row[4]) else None)
            && c.characterSet == Divergent(row[5], tableCharset)
            && c.collation == Divergent(row[6], tableCollation) && c.comment == CommentOf(row[8])
  {
    var args := Arr(["'yes'", "'no'"]);
    EnumType(row[1]);
    EnumOptions("'yes','no'");
    HandleEnum(args, row[7]);
    ColumnOfParts(row, tableCharset, tableCollation, TypeParts("enum", Some("'yes','no'"), ""),
                  Handled("enum", args, false, false));
  }

  /** Text with a character no number has is not numeric. */
  lemma NotNumericWith(v: string, k: nat)
    requires k < |v| && !IsSpace(v[k]) && !NumberChar(v[k])
    ensures !IsNumeric(v)
  {
    if IsNumeric(v) {
      NumericChars(v);
    }
  }

  lemma EnumNotInteger()
    ensures !IsInteger("enum")
  {
    NotIntegerWithoutI("enum");
  }

  /** A short default that is not numeric, and has neither quotes nor
      whitespace at its ends, is written between quotes as it is. */
  lemma QuotedDefault(v: string, m: string)
    requires m != "boolean" && !IsNumeric(v) && 0 < |v| < 17
    requires !IsQuoteChar(v[0]) && !IsQuoteChar(v[|v| - 1]) && !IsSpace(v[0]) && !IsSpace(v[|v| - 1])
    ensures DefaultPart(Some(v), m, false) == "->default('" + v + "')"
  {
    TrimNoop(v, IsSpace);
    ContainsIff(ToUpper(v), "CURRENT_TIMESTAMP");
    TrimStringQuotesNoop(v);
  }

  /** The arguments of an enum column: its name, then its options in
      brackets. */
  lemma EnumArgsPart(k: string, c: Column, options: seq<string>)
    requires k != [] && c.field == Some(k) && c.args == Arr(options)
    ensures ArgsPart(k, c, "enum") == "('" + k + "'" + (", [" + Join(options, ", ") + "])")
  {
    JoinToArray(options, ", ");
  }

  /** An enum column's line is the method, the arguments and the default
      when it has no modifier and no comment. */
  lemma EnumLineParts(k: string, c: Column, d: string)
    requires c.builder == "enum" && c.args != Str(TsUpdate) && !c.autoIncrement && !c.unsigned
    requires !c.nullable && c.default == Some(d)
    requires !Present(c.characterSet) && !Present(c.collation) && c.comment.None?
    ensures ColumnLine(k, c) == "$table->" + "enum" + ArgsPart(k, c, "enum") + "" + DefaultPart(Some(d), "enum", false) + "" + ";"
  {
    EnumNotInteger();
    assert Adjusted(c) == c && RenderedBuilder(c) == "enum";
    assert Modifiers(c, false) == "" && CommentPart(c.comment) == "";
  }

  /** Associativity step: the pieces of the enum line regrouped into one
      text, kept apart so that the scenario proof does not expand it. */
  lemma EnumLineRegroup(k: string, j: string, dp: string)
    ensures "$table->" + "enum" + ("('" + k + "'" + (", [" + j + "])")) + "" + dp + "" + ";"
         == "$table->enum('" + k + "', [" + j + "])" + dp + ";"
  {
  }

  /** An enum column that is not nullable, with a default and no character
      set, collation or comment of its own: the name, the options in
      brackets, the default. */
  lemma EnumLine(k: string, c: Column, options: seq<string>, d: string)
    requires k != [] && c.field == Some(k)
    requires c.builder == "enum" && c.args == Arr(options) && !c.autoIncrement && !c.unsigned
    requires !c.nullable && c.default == Some(d)
    requires !Present(c.characterSet) && !Present(c.collation) && c.comment.None?
    ensures ColumnLine(k, c) == "$table->enum('" + k + "', [" + Join(options, ", ") + "])"
                                + DefaultPart(Some(d), "enum", false) + ";"
  {
    var j := Join(options, ", ");
    var dp := DefaultPart(Some(d), "enum", false);
    EnumLineParts(k, c, d);
    EnumArgsPart(k, c, options);
    EnumLineRegroup(k, j, dp);
  }

  /** Associativity step: the pieces of the yes/no enum line regrouped into one
      text, kept apart so that the scenario proof does not expand it. */
  lemma EnumYesNoRegroup(k: string, d: string)
    ensures "$table->enum('" + k + "', [" + "'yes', 'no'" + "])" + ("->default('" + d + "')") + ";"
            == "$table->enum('" + k + "', ['yes', 'no'])->default('" + d + "');"
  {
  }

  /** The two quoted options of `enum('yes','no')` joined with `, `. */
  lemma YesNoJoined()
    ensures Join(["'yes'", "'no'"], ", ") == "'yes', 'no'"
  {
    assert ["'yes'", "'no'"][1..] == ["'no'"];
  }

  /** A non-null row `k  enum('yes','no')  NO  ...  d` with no character
      set, collation or comment of its own, whose default `d` is a short
      word (one character of it is neither whitespace nor part of a number,
      and it has no quote or whitespace at either end), is written with its
      options in brackets and its default quoted:
      `$table->enum('k', ['yes', 'no'])->default('d');`. */
  lemma EnumRow(row: seq<string>, tableCharset: Option<string>, tableCollation: Option<string>, w: nat)
    requires |row| == 9 && row[1] == "enum('yes','no')" && row[2] == "NO"
    requires row[0] != [] && row[0] !in {"deleted_at", "created_at", "updated_at", "remember_token"}
    requires !Present(Divergent(row[5], tableCharset)) && !Present(Divergent(row[6], tableCollation))
    requires CommentOf(row[8]) == None
    requires var d := row[4];
             0 < |d| < 17 && d != "NULL" && w < |d| && !IsSpace(d[w]) && !NumberChar(d[w])
             && !IsQuoteChar(d[0]) && !IsQuoteChar(d[|d| - 1]) && !IsSpace(d[0]) && !IsSpace(d[|d| - 1])
    ensures ColumnOf(row, tableCharset, tableCollation).Some?
    ensures var c := ColumnOf(row, tableCharset, tableCollation).value;
            StructureLines(Normalise([(row[0], c)]))
            == ["$table->enum('" + row[0] + "', ['yes', 'no'])->default('" + row[4] + "');"]
  {
    EnumColumn(row, tableCharset, tableCollation);
    var c := ColumnOf(row, tableCharset, tableCollation).value;
    var k := row[0];
    var d := row[4];
    NormaliseOne(k, c);
    assert AsId(k, c) == c;
    StructureLinesOne(k, c);
    EnumLine(k, c, ["'yes'", "'no'"], d);
    NotNumericWith(d, w);
    QuotedDefault(d, "enum");
    YesNoJoined();
    EnumYesNoRegroup(k, d);
  }

  // ------------------------------------------------------------ keys

  /** A key listing of one row `table  Non_unique  name  seq  column`, not
      the primary key, makes one index on that column. */
  lemma KeyRowIndex(line: string, extras: Indexes, structure: Structure,
                    table: string, nonUnique: string, name: string, seqNo: string, col: string)
    requires Split(line, '\t') == [table, nonUnique, name, seqNo, col] && name != "PRIMARY"
    ensures BuildKeys(extras, [line], structure).keys == [(name, Index(KeyMethod(nonUnique), table, [(seqNo, col)]))]
    ensures BuildKeys(extras, [line], structure).extras == extras
  {
    assert [line][..0] == [];
    var idx := Index(KeyMethod(nonUnique), table, [(seqNo, col)]);
    assert KeyLines(KeyTables([], extras), [line]).keys == [(name, idx)];
    assert Get([(name, idx)], "PRIMARY") == None;
  }

  /** An index on one column whose name is a word is written with the
      column quoted and the index name. */
  lemma KeyRowLine(name: string, idx: Index, seqNo: string, col: string, w: nat)
    requires name != "PRIMARY" && idx.columns == [(seqNo, col)]
    requires '\'' !in col && '\\' !in col && w < |col| && !IsSpace(col[w]) && !NumberChar(col[w])
    ensures KeyLinesText([(name, idx)]) == ["$table->" + idx.builder + "('" + col + "', '" + name + "');"]
  {
    assert [(name, idx)][..0] == [];
    assert KeyLinesText([(name, idx)]) == [KeyLineText(name, idx)];
    assert Values(idx.columns) == [col];
    EscapeArrayWord(col, w);
    assert KeyLineText(name, idx) == "$table->" + idx.builder + "(" + ("'" + col + "'") + ", '" + name + "');";
    KeyLineRegroup(idx.builder, col, name);
  }

  /** Associativity step: the pieces of the key line regrouped into one
      text, kept apart so that the scenario proof does not expand it. */
  lemma KeyLineRegroup(b: string, col: string, name: string)
    ensures "$table->" + b + "(" + ("'" + col + "'") + ", '" + name + "');"
            == "$table->" + b + "('" + col + "', '" + name + "');"
  {
  }

  /** A key row `table  Non_unique  name  seq  column` on a column whose
      name is a word is written as a unique index when `Non_unique` is `0`
      (or empty) and a plain one otherwise:
      `$table->unique('email', 'idx_email');`. */
  lemma KeyRow(line: string, extras: Indexes, structure: Structure,
               table: string, nonUnique: string, name: string, seqNo: string, col: string, w: nat)
    requires Split(line, '\t') == [table, nonUnique, name, seqNo, col] && name != "PRIMARY"
    requires '\'' !in col && '\\' !in col && w < |col| && !IsSpace(col[w]) && !NumberChar(col[w])
    ensures KeyLinesText(BuildKeys(extras, [line], structure).keys)
            == ["$table->" + (if nonUnique == "0" || nonUnique == "" then "unique" else "index")
                + "('" + col + "', '" + name + "');"]
  {
    KeyRowIndex(line, extras, structure, table, nonUnique, name, seqNo, col);
    KeyRowLine(name, Index(KeyMethod(nonUnique), table, [(seqNo, col)]), seqNo, col, w);
  }

  // ------------------------------------------------------------ constraints

  /** A constraint listing of one row `name  column  table  refColumn
      onUpdate  onDelete` makes one constraint of one column, and deletes
      the index of the same name. */
  lemma ForeignKeyGroup(line: string, keys: Indexes, cells: seq<string>)
    requires Split(line, '\t') == cells && |cells| == 6
    ensures var t := BuildConstraints(keys, [line]);
            && Get(t.keys, cells[0]) == None
            && (forall k :: k != cells[0] ==> Get(t.keys, k) == Get(keys, k))
            && t.constraints == [(cells[0], [ForeignRef(cells[1], cells[2], cells[3], cells[4], cells[5])])]
  {
    assert [line][..0] == [];
    var t0 := ConstraintTables(keys, []);
    assert ConstraintLines(t0, [line]) == ConstraintLine(ConstraintLines(t0, []), line);
    assert ConstraintLines(t0, []) == t0;
    assert Get(t0.constraints, cells[0]) == None;
    var r := RefOf(cells);
    assert [] + [r] == [r];
    assert Set(t0.constraints, cells[0], [r]) == [(cells[0], [r])];
    forall k ensures Get(Remove(keys, cells[0]), k) == if k == cells[0] then None else Get(keys, k) {
      GetRemove(keys, cells[0], k);
    }
  }

  /** A one-column constraint whose columns are words is written with the
      column, the name, the referenced column and table and both rules. */
  lemma ForeignKeyLine(name: string, r: ForeignRef, w: nat, v: nat)
    requires '\'' !in r.colName && '\\' !in r.colName && w < |r.colName| && !IsSpace(r.colName[w]) && !NumberChar(r.colName[w])
    requires '\'' !in r.refColumn && '\\' !in r.refColumn && v < |r.refColumn| && !IsSpace(r.refColumn[v]) && !NumberChar(r.refColumn[v])
    ensures NonEmptyGroups([(name, [r])])
    ensures ConstraintLinesText([(name, [r])])
            == ["$table->foreign('" + r.colName + "', '" + name + "')->references('" + r.refColumn
                + "')->on('" + r.refTable + "')->onDelete('" + r.deleteRule + "')->onUpdate('" + r.updateRule + "');"]
  {
    assert [(name, [r])][..0] == [];
    assert ConstraintLinesText([(name, [r])]) == [ConstraintLineText(name, [r])];
    assert ColNames([r]) == [r.colName] && RefColumns([r]) == [r.refColumn];
    EscapeArrayWord(r.colName, w);
    EscapeArrayWord(r.refColumn, v);
    ForeignLineRegroup(name, r);
  }

  /** Associativity step: the pieces of the foreign-key line regrouped into one
      text, kept apart so that the scenario proof does not expand it. */
  lemma ForeignLineRegroup(name: string, r: ForeignRef)
    ensures "$table->foreign(" + ("'" + r.colName + "'") + ", '" + name + "')->references("
            + ("'" + r.refColumn + "'") + ")->on('" + r.refTable + "')->onDelete('" + r.deleteRule
            + "')->onUpdate('" + r.updateRule + "');"
            == "$table->foreign('" + r.colName + "', '" + name + "')->references('" + r.refColumn
               + "')->on('" + r.refTable + "')->onDelete('" + r.deleteRule + "')->onUpdate('" + r.updateRule + "');"
  {
  }

  /** A constraint row `fk_user_id  user_id  users  id  RESTRICT  CASCADE`
      is written `$table->foreign('user_id', 'fk_user_id')->references('id')
      ->on('users')->onDelete('CASCADE')->onUpdate('RESTRICT');`: the delete
      rule is the sixth cell and the update rule the fifth. */
  lemma ForeignKeyRow(line: string, keys: Indexes, name: string, col: string, table: string,
                      refCol: string, onUpdate: string, onDelete: string, w: nat, v: nat)
    requires Split(line, '\t') == [name, col, table, refCol, onUpdate, onDelete]
    requires '\'' !in col && '\\' !in col && w < |col| && !IsSpace(col[w]) && !NumberChar(col[w])
    requires '\'' !in refCol && '\\' !in refCol && v < |refCol| && !IsSpace(refCol[v]) && !NumberChar(refCol[v])
    ensures NonEmptyGroups(BuildConstraints(keys, [line]).constraints)
    ensures ConstraintLinesText(BuildConstraints(keys, [line]).constraints)
            == ["$table->foreign('" + col + "', '" + name + "')->references('" + refCol
                + "')->on('" + table + "')->onDelete('" + onDelete + "')->onUpdate('" + onUpdate + "');"]
  {
    ForeignKeyGroup(line, keys, Split(line, '\t'));
    ForeignKeyLine(name, ForeignRef(col, table, refCol, onUpdate, onDelete), w, v);
  }
}
