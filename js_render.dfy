/** The text src/MigrationParser.js writes: one `$table->...;` line per
    column, index, full-text index and foreign key, the table options, the
    foreign-key migration lines, and the assembly of the migration from a
    template. */
module JsRender {
  import opened Wrappers
  import opened Strings
  import opened OrderedMaps
  import opened Helpers
  import opened Schema
  import opened JsColumns
  import opened JsKeys

  // ------------------------------------------------------------ builder methods

  /** `#isInteger`: the method names an integer type. */
  predicate IsInteger(builder: string)
  {
    Contains(ToLower(builder), "integer")
  }

  /** `#isNumeric`: an integer, decimal or floating-point method. */
  predicate IsNumericBuilder(builder: string)
  {
    IsInteger(builder) || builder == "decimal" || builder == "double" || builder == "float" || builder == "real"
  }

  /** The method written for a column: an auto-incrementing integer becomes
      its `increments` form, an unsigned one its `unsigned` form. */
  function RenderedBuilder(c: Column): string
  {
    if IsInteger(c.builder) then
      if c.autoIncrement then ReplaceFirst(c.builder, "nteger", "ncrements")
      else if c.unsigned then "unsigned" + Ucfirst(c.builder)
      else c.builder
    else c.builder
  }

  /** Replacing the first occurrence of `f`, given where it is. */
  lemma ReplaceFirstAt(s: string, f: string, r: string, i: nat)
    requires OccursAt(s, f, i)
    requires forall j :: 0 <= j < i ==> !StartsWith(s[j..], f)
    ensures ReplaceFirst(s, f, r) == s[..i] + r + s[i + |f|..]
  {
    ContainsIff(s, f);
    var k := IndexOf(s, f);
    assert StartsWith(s[i..], f);
    assert StartsWith(s[k..], f);
  }

  /** Laravel's method for an auto-incrementing integer column. */
  const IncrementsMaps: map<string, string> :=
    map["int" := "increments", "bigint" := "bigIncrements", "mediumint" := "mediumIncrements",
        "smallint" := "smallIncrements", "tinyint" := "tinyIncrements"]

  /** Laravel's method for an unsigned integer column. */
  const UnsignedMaps: map<string, string> :=
    map["int" := "unsignedInteger", "bigint" := "unsignedBigInteger", "mediumint" := "unsignedMediumInteger",
        "smallint" := "unsignedSmallInteger", "tinyint" := "unsignedTinyInteger"]

  /** `p + "Integer"`-style names: the integer builder is the prefix, then
      `nteger`, and `nteger` does not start earlier. */
  lemma IntegerName(p: string, b: string)
    requires b == p + "nteger" && p != [] && (p[|p| - 1] == 'i' || p[|p| - 1] == 'I')
    requires forall j :: 0 <= j < |p| ==> p[j] != 'n' || (j + 1 < |p| && p[j + 1] != 't')
    ensures IsInteger(b)
    ensures ReplaceFirst(b, "nteger", "ncrements") == p + "ncrements"
    ensures Ucfirst(b) == [UpperChar(b[0])] + b[1..]
  {
    var i := |p| - 1;
    var lower := ToLower(b);
    assert b[i..i + 7] == [p[i]] + "nteger";
    assert lower[i..i + 7] == "integer";
    ContainsIff(lower, "integer");
    assert OccursAt(lower, "integer", i);
    assert OccursAt(b, "nteger", |p|);
    forall j | 0 <= j < |p| ensures !StartsWith(b[j..], "nteger") {
      assert b[j] == p[j];
      if j + 1 < |p| {
        assert b[j + 1] == p[j + 1];
      }
    }
    ReplaceFirstAt(b, "nteger", "ncrements", |p|);
    assert b[..|p|] == p && b[|p| + 6..] == [];
  }

  /** An integer method `p + "nteger"` (`integer`, `bigInteger`, ...) is
      written in its `increments` form when the column auto-increments,
      else in its `unsigned` form when unsigned, else as it is. */
  lemma IntegerBuilder(p: string, c: Column)
    requires c.builder == p + "nteger" && p != [] && (p[|p| - 1] == 'i' || p[|p| - 1] == 'I')
    requires forall j :: 0 <= j < |p| ==> p[j] != 'n' || (j + 1 < |p| && p[j + 1] != 't')
    ensures RenderedBuilder(c) == if c.autoIncrement then p + "ncrements"
                                  else if c.unsigned then "unsigned" + [UpperChar(p[0])] + p[1..] + "nteger"
                                  else c.builder
  {
    IntegerName(p, c.builder);
    if !c.autoIncrement && c.unsigned {
      assert c.builder[0] == p[0];
      assert c.builder[1..] == p[1..] + "nteger";
      assert Ucfirst(c.builder) == [UpperChar(p[0])] + p[1..] + "nteger";
    }
  }

  /** The five integer types of the classifier are written with Laravel's
      methods: `bigint` auto-incrementing as `bigIncrements`, unsigned as
      `unsignedBigInteger`, and so on. */
  lemma IntegerBuilders(t: string, c: Column)
    requires t in IntegerMaps && c.builder == IntegerMaps[t]
    ensures RenderedBuilder(c) == if c.autoIncrement then IncrementsMaps[t]
                                  else if c.unsigned then UnsignedMaps[t]
                                  else IntegerMaps[t]
  {
    if t == "int" {
      IntegerRowOfInt(t, c);
    } else if t == "bigint" {
      IntegerRowOfBigint(t, c);
    } else if t == "mediumint" {
      IntegerRowOfMediumint(t, c);
    } else if t == "smallint" {
      IntegerRowOfSmallint(t, c);
    } else {
      IntegerRowOfTinyint(t, c);
    }
  }

  // One instance of `IntegerRow` per type, so that each checks the
  // literal facts of a single name.

  lemma IntegerRowOfInt(t: string, c: Column)
    requires t == "int" && c.builder == IntegerMaps[t]
    ensures RenderedBuilder(c) == if c.autoIncrement then IncrementsMaps[t]
                                  else if c.unsigned then UnsignedMaps[t]
                                  else IntegerMaps[t]
  {
    IntegerRow(t, "i", c);
  }

  lemma IntegerRowOfBigint(t: string, c: Column)
    requires t == "bigint" && c.builder == IntegerMaps[t]
    ensures RenderedBuilder(c) == if c.autoIncrement then IncrementsMaps[t]
                                  else if c.unsigned then UnsignedMaps[t]
                                  else IntegerMaps[t]
  {
    IntegerRow(t, "bigI", c);
  }

  lemma IntegerRowOfMediumint(t: string, c: Column)
    requires t == "mediumint" && c.builder == IntegerMaps[t]
    ensures RenderedBuilder(c) == if c.autoIncrement then IncrementsMaps[t]
                                  else if c.unsigned then UnsignedMaps[t]
                                  else IntegerMaps[t]
  {
    IntegerRow(t, "mediumI", c);
  }

  lemma IntegerRowOfSmallint(t: string, c: Column)
    requires t == "smallint" && c.builder == IntegerMaps[t]
    ensures RenderedBuilder(c) == if c.autoIncrement then IncrementsMaps[t]
                                  else if c.unsigned then UnsignedMaps[t]
                                  else IntegerMaps[t]
  {
    IntegerRow(t, "smallI", c);
  }

  lemma IntegerRowOfTinyint(t: string, c: Column)
    requires t == "tinyint" && c.builder == IntegerMaps[t]
    ensures RenderedBuilder(c) == if c.autoIncrement then IncrementsMaps[t]
                                  else if c.unsigned then UnsignedMaps[t]
                                  else IntegerMaps[t]
  {
    IntegerRow(t, "tinyI", c);
  }

  lemma IntegerRow(t: string, p: string, c: Column)
    requires t in IntegerMaps && t in IncrementsMaps && t in UnsignedMaps
    requires c.builder == IntegerMaps[t] && IntegerMaps[t] == p + "nteger"
    requires p != [] && (p[|p| - 1] == 'i' || p[|p| - 1] == 'I')
    requires forall j :: 0 <= j < |p| ==> p[j] != 'n' || (j + 1 < |p| && p[j + 1] != 't')
    requires IncrementsMaps[t] == p + "ncrements"
    requires UnsignedMaps[t] == "unsigned" + [UpperChar(p[0])] + p[1..] + "nteger"
    ensures RenderedBuilder(c) == if c.autoIncrement then IncrementsMaps[t]
                                  else if c.unsigned then UnsignedMaps[t]
                                  else IntegerMaps[t]
  {
    IntegerBuilder(p, c);
  }

  // ------------------------------------------------------------ column lines

  /** A cell is truthy in JavaScript when it is a non-empty string. */
  predicate Present(v: Option<string>)
  {
    v.Some? && v.value != []
  }

  /** JavaScript truthiness of the arguments: null and the empty string are
      false, any array is true. */
  predicate ArgsTruthy(a: JsValue)
  {
    match a
    case Null => false
    case Str(t) => t != []
    case Arr(_) => true
  }

  /** The write-back `#formatStructure` does before rendering: a timestamp
      updated on every write moves the marker from its arguments to its
      default (a missing default reads as `null`). */
  function Adjusted(c: Column): Column
  {
    if c.builder == "timestamp" && c.args == Str(TsUpdate) then
      c.(default := Some(c.default.GetOr("null") + " " + TsUpdate), args := Null)
    else c
  }

  /** The write-back changes a column at most once. */
  lemma AdjustedIdempotent(c: Column)
    ensures Adjusted(Adjusted(c)) == Adjusted(c)
    ensures Adjusted(c).builder == c.builder && Adjusted(c).field == c.field
    ensures Adjusted(c).args != Str(TsUpdate) || c.builder != "timestamp"
  {
  }

  /** `#trimStringQuotes`: quote characters stripped from both ends, then
      whitespace. */
  function TrimStringQuotes(s: string): string
  {
    Trim(TrimBy(s, IsQuoteChar))
  }

  predicate IsQuoteChar(c: char) { c == '"' || c == '\'' }

  /** The stripped text is a part of the value, cut off by quotes and
      whitespace only, with neither whitespace nor a quote at either end. */
  lemma TrimStringQuotesInfix(s: string) returns (i: nat, j: nat)
    ensures i <= j <= |s| && TrimStringQuotes(s) == s[i..j]
    ensures forall k :: 0 <= k < i ==> IsQuoteChar(s[k]) || IsSpace(s[k])
    ensures forall k :: j <= k < |s| ==> IsQuoteChar(s[k]) || IsSpace(s[k])
    ensures var r := TrimStringQuotes(s); r == [] || (!IsSpace(r[0]) && !IsSpace(r[|r| - 1]))
  {
    var qi, qj := TrimSpan(s, IsQuoteChar);
    i, j := TrimInside(s, TrimBy(s, IsQuoteChar), qi, qj);
  }

  /** Trimming whitespace off a part `t` of `s` that was cut out by quotes. */
  lemma TrimInside(s: string, t: string, qi: nat, qj: nat) returns (i: nat, j: nat)
    requires qi <= qj <= |s| && t == s[qi..qj]
    requires forall k :: 0 <= k < qi ==> IsQuoteChar(s[k])
    requires forall k :: qj <= k < |s| ==> IsQuoteChar(s[k])
    ensures i <= j <= |s| && Trim(t) == s[i..j]
    ensures forall k :: 0 <= k < i ==> IsQuoteChar(s[k]) || IsSpace(s[k])
    ensures forall k :: j <= k < |s| ==> IsQuoteChar(s[k]) || IsSpace(s[k])
  {
    var a, b := TrimSpan(t, IsSpace);
    i, j := qi + a, qi + b;
    CutTwice(s, t, Trim(t), qi, qj, a, b, IsQuoteChar, IsSpace);
  }

  /** What the two trims cut off, stated on positions alone. */
  lemma CutTwice(s: string, t: string, u: string, qi: nat, qj: nat, a: nat, b: nat, p: char -> bool, q: char -> bool)
    requires qi <= qj <= |s| && t == s[qi..qj] && a <= b <= |t| && u == t[a..b]
    requires forall k :: 0 <= k < qi ==> p(s[k])
    requires forall k :: qj <= k < |s| ==> p(s[k])
    requires forall k :: 0 <= k < a ==> q(t[k])
    requires forall k :: b <= k < |t| ==> q(t[k])
    ensures u == s[qi + a..qi + b]
    ensures forall k :: 0 <= k < qi + a ==> p(s[k]) || q(s[k])
    ensures forall k :: qi + b <= k < |s| ==> p(s[k]) || q(s[k])
  {
    SliceOfSlice(s, qi, qj, a, b);
    forall k | 0 <= k < qi + a ensures p(s[k]) || q(s[k]) {
      if k >= qi {
        assert s[k] == t[k - qi];
      }
    }
    forall k | qi + b <= k < |s| ensures p(s[k]) || q(s[k]) {
      if k < qj {
        assert s[k] == t[k - qi];
      }
    }
  }

  lemma SliceOfSlice(s: string, i: nat, j: nat, a: nat, b: nat)
    requires i <= j <= |s| && a <= b <= j - i
    ensures s[i..j][a..b] == s[i + a..i + b]
  {
    var x, y := s[i..j][a..b], s[i + a..i + b];
    assert |x| == b - a == |y|;
    forall k | 0 <= k < b - a ensures x[k] == y[k] {
      assert x[k] == s[i..j][a + k] == s[i + a + k];
    }
  }

  /** A value without surrounding quotes or whitespace is kept whole. */
  lemma TrimStringQuotesNoop(s: string)
    requires s == [] || (!IsQuoteChar(s[0]) && !IsQuoteChar(s[|s| - 1]) && !IsSpace(s[0]) && !IsSpace(s[|s| - 1]))
    ensures TrimStringQuotes(s) == s
  {
    TrimNoop(s, IsQuoteChar);
    TrimNoop(s, IsSpace);
  }

  /** `'->default(...)'` for a present default, by method: numeric methods
      and numeric enum values bare, booleans as `true`/`false`, defaults
      mentioning `CURRENT_TIMESTAMP` as raw SQL, anything else quoted. */
  function DefaultPart(d: Option<string>, m: string, isNumeric: bool): string
  {
    match d
    case None => ""
    case Some(v) =>
      if isNumeric || ((m == "enum" || m == "set") && IsNumeric(v)) then "->default(" + v + ")"
      else if m == "boolean" then "->default(" + (if PhpTruthy(v) then "true" else "false") + ")"
      else if Contains(ToUpper(Trim(v)), "CURRENT_TIMESTAMP") then "->default(DB::raw('" + Trim(v) + "'))"
      else "->default('" + TrimStringQuotes(v) + "')"
  }

  /** The call's arguments: the column name, then the values; an enum or a
      set always has a bracketed value list. */
  function ArgsPart(k: string, c: Column, m: string): string
  {
    if Present(c.field) then
      "('" + k + "'"
      + (if m == "enum" || m == "set" then ", [" + JoinValues(ToArray(c.args), ", ") + "])"
         else if ArgsTruthy(c.args) then ", " + JoinValues(ToArray(c.args), ", ") + ")"
         else ")")
    else "()"
  }

  /** The modifier calls after the method call, up to the default. */
  function Modifiers(c: Column, isInteger: bool): string
  {
    (if !isInteger && c.autoIncrement then "->autoIncrement()" else "")
    + (if !isInteger && c.unsigned then "->unsigned()" else "")
    + (if c.nullable then "->nullable()" else "")
    + (if Present(c.characterSet) then "->charset('" + c.characterSet.value + "')" else "")
    + (if Present(c.collation) then "->collation('" + c.collation.value + "')" else "")
  }

  function CommentPart(c: Option<string>): string
  {
    if c.Some? then "->comment('" + AddSlashes(c.value) + "')" else ""
  }

  /** The line `#formatStructure` writes for the column stored under `k`,
      after its write-back. */
  function ColumnLine(k: string, c0: Column): string
  {
    var c := Adjusted(c0);
    var m := RenderedBuilder(c);
    "$table->" + m + ArgsPart(k, c, m) + Modifiers(c, IsInteger(c.builder))
    + DefaultPart(c.default, m, IsNumericBuilder(c.builder)) + CommentPart(c.comment) + ";"
  }

  /** Rendering the written-back column gives the same line, so the
      write-back is invisible in the output. */
  lemma ColumnLineWriteBack(k: string, c: Column)
    ensures ColumnLine(k, Adjusted(c)) == ColumnLine(k, c)
  {
    AdjustedIdempotent(c);
  }

  /** A line is `$table->` and the method, the call and its modifiers, and
      ends with `;`; a column without a name (a whole-row call such as
      `timestamps()`) has an empty argument list. */
  lemma ColumnLineShape(k: string, c: Column)
    ensures var line := ColumnLine(k, c);
            var head := "$table->" + RenderedBuilder(Adjusted(c));
            |line| > |head| && line[..|head|] == head && line[|line| - 1] == ';'
    ensures !Present(c.field) ==>
            var line := ColumnLine(k, c);
            var head := "$table->" + RenderedBuilder(Adjusted(c)) + "()";
            |line| > |head| && line[..|head|] == head
  {
  }

  /** The comment closes the line and reads back through `stripslashes`. */
  lemma ColumnLineComment(k: string, c: Column)
    requires c.comment.Some?
    ensures exists head, body :: ColumnLine(k, c) == head + "->comment('" + body + "');"
                                 && StripSlashes(body) == c.comment.value
  {
    var a := Adjusted(c);
    var m := RenderedBuilder(a);
    var head := "$table->" + m + ArgsPart(k, a, m) + Modifiers(a, IsInteger(a.builder))
                + DefaultPart(a.default, m, IsNumericBuilder(a.builder));
    var body := AddSlashes(c.comment.value);
    assert a.comment == c.comment;
    assert ColumnLine(k, c) == head + CommentPart(a.comment) + ";";
    assert CommentPart(a.comment) + ";" == "->comment('" + body + "');";
    assert ColumnLine(k, c) == head + "->comment('" + body + "');";
    AddSlashesRoundTrip(c.comment.value);
  }

  lemma IdIsNotInteger(b: string)
    requires b == "id"
    ensures !IsInteger(b) && !IsNumericBuilder(b)
  {
    var lower := ToLower(b);
    ContainsIff(lower, "integer");
    assert |lower| == 2;
  }

  /** An auto-incrementing big integer named `id`, with no charset,
      collation or comment of its own, is written `$table->id();`. */
  lemma IdColumnLine(c: Column)
    requires IsIdCandidate(c) && !Present(c.characterSet) && !Present(c.collation) && c.comment.None?
    ensures ColumnLine("id", AsId("id", c)) == "$table->id();"
  {
    var a := AsId("id", c);
    IdIsNotInteger(a.builder);
    assert Adjusted(a) == a;
    assert RenderedBuilder(a) == "id";
  }

  /** A column named otherwise keeps its name: `$table->id('code');`. */
  lemma IdColumnLineNamed(k: string, c: Column)
    requires IsIdCandidate(c) && k != "id" && Present(c.field)
    requires c.characterSet.None? && c.collation.None? && c.comment.None?
    ensures ColumnLine(k, AsId(k, c)) == "$table->id('" + k + "');"
  {
    var a := AsId(k, c);
    IdIsNotInteger(a.builder);
    assert Adjusted(a) == a;
  }

  /** One line per entry of the table, in order. */
  function MapLines(m: Structure, line: (string, Column) -> string): seq<string>
    decreases |m|
  {
    if m == [] then [] else MapLines(m[..|m| - 1], line) + [line(m[|m| - 1].0, m[|m| - 1].1)]
  }

  lemma {:induction false} MapLinesAt(m: Structure, line: (string, Column) -> string)
    ensures |MapLines(m, line)| == |m|
    ensures forall i :: 0 <= i < |m| ==> MapLines(m, line)[i] == line(m[i].0, m[i].1)
    decreases |m|
  {
    if m != [] {
      var n := |m| - 1;
      MapLinesAt(m[..n], line);
      assert forall i :: 0 <= i < n ==> m[..n][i] == m[i];
    }
  }

  /** `#formatStructure`: the column lines in table order (none is empty,
      so the filter keeps all). */
  function StructureLines(m: Structure): seq<string>
  {
    MapLines(m, (k, c) => ColumnLine(k, c))
  }

  /** The lines of a longer prefix: one more line at the end. */
  lemma StructureLinesSnoc(m: Structure, i: nat)
    requires i < |m|
    ensures StructureLines(m[..i + 1]) == StructureLines(m[..i]) + [ColumnLine(m[i].0, m[i].1)]
  {
    assert m[..i + 1][..i] == m[..i];
  }

  /** The write-back applied to every column. */
  function AdjustAll(m: Structure): (r: Structure)
    ensures |r| == |m|
    ensures forall i :: 0 <= i < |m| ==> r[i] == (m[i].0, Adjusted(m[i].1))
  {
    seq(|m|, i requires 0 <= i < |m| => (m[i].0, Adjusted(m[i].1)))
  }

  /** The write-back keeps the column names and the lines. */
  lemma AdjustAllKeeps(m: Structure)
    ensures Keys(AdjustAll(m)) == Keys(m)
    ensures StructureLines(AdjustAll(m)) == StructureLines(m)
  {
    var a := AdjustAll(m);
    var f := (k, c) => ColumnLine(k, c);
    MapLinesAt(a, f);
    MapLinesAt(m, f);
    KeysAt(a);
    KeysAt(m);
    forall i | 0 <= i < |m| ensures MapLines(a, f)[i] == MapLines(m, f)[i] {
      ColumnLineWriteBack(m[i].0, m[i].1);
    }
  }

  // ------------------------------------------------------------ index lines

  /** `#escapeArray` as the PHP parser writes it: numbers bare, other values
      quoted, bracketed when there are several. */
  function EscapeArray(values: seq<string>): string
  {
    EscapeList(values, IsNumeric)
  }

  /** One column gives a bare value, several a bracketed list, none an
      empty text. */
  lemma EscapeArrayBracketed(values: seq<string>)
    ensures var r := EscapeArray(values);
            && ((r != [] && r[0] == '[') <==> |values| > 1)
            && (|values| > 1 ==> r[|r| - 1] == ']')
            && (|values| == 0 ==> r == [])
  {
    forall v | IsNumeric(v) ensures v == [] || v[0] != '[' {
      NumericChars(v);
      if v != [] {
        assert v[0] in v;
      }
    }
    EscapeListBracketed(values, IsNumeric);
  }

  /** A single value holding a character no number has is quoted. */
  lemma EscapeArrayWord(v: string, k: nat)
    requires '\'' !in v && '\\' !in v && k < |v| && !IsSpace(v[k]) && !NumberChar(v[k])
    ensures EscapeArray([v]) == "'" + v + "'"
  {
    if IsNumeric(v) {
      NumericChars(v);
    }
    EscapeListSingle(v, IsNumeric);
    QuotedPlain(v);
  }

  /** A cleared column (a whole-row call) with no character set, collation,
      comment or flag of its own is the bare call. */
  lemma ClearedColumnLine(k: string, c: Column, builder: string)
    requires !Present(c.characterSet) && !Present(c.collation) && c.comment.None?
    requires !c.autoIncrement && !c.unsigned
    requires !IsInteger(builder) && builder != "timestamp"
    ensures ColumnLine(k, Cleared(c, builder)) == "$table->" + builder + "();"
  {
    var r := Cleared(c, builder);
    assert Adjusted(r) == r && RenderedBuilder(r) == builder;
    assert ArgsPart(k, r, builder) == "()" && Modifiers(r, false) == "";
    assert DefaultPart(r.default, builder, IsNumericBuilder(builder)) == "" && CommentPart(r.comment) == "";
    assert "$table->" + builder + "()" + "" + "" + "" + ";" == "$table->" + builder + "();";
  }

  /** The line for index `name`. */
  function KeyLineText(name: string, idx: Index): string
  {
    "$table->" + idx.builder + "(" + EscapeArray(Values(idx.columns)) + ", '" + name + "');"
  }

  /** `#formatKeys`: one line per index but the primary key. */
  function KeyLinesText(keys: Indexes): seq<string>
    decreases |keys|
  {
    if keys == [] then []
    else
      var n := |keys| - 1;
      KeyLinesText(keys[..n]) + (if keys[n].0 != "PRIMARY" then [KeyLineText(keys[n].0, keys[n].1)] else [])
  }

  /** The primary key is never written, and dropping it changes nothing. */
  lemma {:induction false} KeyLinesSkipPrimary(keys: Indexes)
    ensures KeyLinesText(Remove(keys, "PRIMARY")) == KeyLinesText(keys)
    ensures |KeyLinesText(keys)| <= |keys|
    decreases |keys|
  {
    if keys != [] {
      var n := |keys| - 1;
      KeyLinesSkipPrimary(keys[..n]);
      RemoveAppend(keys[..n], keys[n], "PRIMARY");
      assert keys == keys[..n] + [keys[n]];
      var r := Remove(keys[..n], "PRIMARY");
      if keys[n].0 != "PRIMARY" {
        var r' := r + [keys[n]];
        assert r' != [] && r'[..|r'| - 1] == r && r'[|r'| - 1] == keys[n];
        assert KeyLinesText(r') == KeyLinesText(r) + [KeyLineText(keys[n].0, keys[n].1)];
      } else {
        assert Remove(keys, "PRIMARY") == r;
      }
    }
  }

  lemma {:induction false} RemoveAppend<V>(m: OMap<string, V>, e: (string, V), k: string)
    ensures Remove(m + [e], k) == Remove(m, k) + (if e.0 == k then [] else [e])
    decreases |m|
  {
    if m == [] {
      assert [e][1..] == [];
    } else {
      assert (m + [e])[1..] == m[1..] + [e];
      RemoveAppend(m[1..], e, k);
    }
  }

  /** `#escapeColumnList`: each column in backquotes, separated by commas. */
  function ColumnList(values: seq<string>): string
  {
    Join(seq(|values|, i requires 0 <= i < |values| => "`" + values[i] + "`"), ", ")
  }

  /** The statement that creates a full-text index. */
  function ExtraLineText(name: string, idx: Index): string
  {
    "\\DB::statement(\"ALTER TABLE `" + idx.table + "` ADD FULLTEXT INDEX `" + name + "` ("
    + ColumnList(Values(idx.columns)) + ")\");"
  }

  /** `#formatExtras`: one statement per full-text index. */
  function ExtraLinesText(extras: Indexes): (r: seq<string>)
    ensures |r| == |extras|
    decreases |extras|
  {
    if extras == [] then []
    else
      var n := |extras| - 1;
      ExtraLinesText(extras[..n]) + [ExtraLineText(extras[n].0, extras[n].1)]
  }

  /** The `i`-th statement is the `i`-th full-text index's: it names the
      index's table, the index and its columns in backquotes. */
  lemma {:induction false} ExtraLinesAt(extras: Indexes)
    ensures forall i :: 0 <= i < |extras| ==>
              ExtraLinesText(extras)[i]
              == "\\DB::statement(\"ALTER TABLE `" + extras[i].1.table + "` ADD FULLTEXT INDEX `" + extras[i].0
                 + "` (" + ColumnList(Values(extras[i].1.columns)) + ")\");"
    decreases |extras|
  {
    if extras != [] {
      var n := |extras| - 1;
      ExtraLinesAt(extras[..n]);
    }
  }

  /** A single column is listed in backquotes alone. */
  lemma ColumnListOne(c: string)
    ensures ColumnList([c]) == "`" + c + "`"
  {
    assert seq(1, i requires 0 <= i < 1 => "`" + [c][i] + "`") == ["`" + c + "`"];
  }

  function ColNames(refs: seq<ForeignRef>): (r: seq<string>)
    ensures |r| == |refs|
  {
    seq(|refs|, i requires 0 <= i < |refs| => refs[i].colName)
  }

  function RefColumns(refs: seq<ForeignRef>): (r: seq<string>)
    ensures |r| == |refs|
  {
    seq(|refs|, i requires 0 <= i < |refs| => refs[i].refColumn)
  }

  /** The line for constraint `name`: the columns, the referenced columns,
      table and rules, the last three from the first row. */
  function ConstraintLineText(name: string, refs: seq<ForeignRef>): string
    requires refs != []
  {
    "$table->foreign(" + EscapeArray(ColNames(refs)) + ", '" + name + "')->references("
    + EscapeArray(RefColumns(refs)) + ")->on('" + refs[0].refTable + "')->onDelete('" + refs[0].deleteRule
    + "')->onUpdate('" + refs[0].updateRule + "');"
  }

  /** Every group the parser builds holds at least one row. */
  predicate NonEmptyGroups(cs: Constraints)
  {
    forall i :: 0 <= i < |cs| ==> cs[i].1 != []
  }

  /** `#formatConstraints`: one line per constraint. */
  function ConstraintLinesText(cs: Constraints): (r: seq<string>)
    requires NonEmptyGroups(cs)
    ensures |r| == |cs|
    decreases |cs|
  {
    if cs == [] then []
    else
      var n := |cs| - 1;
      ConstraintLinesText(cs[..n]) + [ConstraintLineText(cs[n].0, cs[n].1)]
  }

  /** A multi-column foreign key lists its columns and the referenced ones
      in brackets, a single-column one bare. */
  lemma ConstraintLineColumns(name: string, refs: seq<ForeignRef>)
    requires refs != []
    ensures var cols := EscapeArray(ColNames(refs));
            var refCols := EscapeArray(RefColumns(refs));
            && ((cols != [] && cols[0] == '[') <==> |refs| > 1)
            && ((refCols != [] && refCols[0] == '[') <==> |refs| > 1)
            && StartsWith(ConstraintLineText(name, refs), "$table->foreign(" + cols + ", '" + name + "')->references(" + refCols + ")")
  {
    EscapeArrayBracketed(ColNames(refs));
    EscapeArrayBracketed(RefColumns(refs));
  }

  // ------------------------------------------------------------ table options and foreign keys

  /** `#formatTableCollationAndCharset`. */
  function TableOptionLines(charset: Option<string>, collation: Option<string>): (r: seq<string>)
    ensures |r| <= 2
    ensures (|r| == 2) <==> Present(charset) && Present(collation)
  {
    (if Present(charset) then ["$table->charset = '" + charset.value + "';"] else [])
    + (if Present(collation) then ["$table->collation = '" + collation.value + "';"] else [])
  }

  /** The charset line is written exactly when the character set is
      present, and comes first; the collation line exactly when the
      collation is present, and comes last. Each quotes its value. */
  lemma TableOptionLinesText(charset: Option<string>, collation: Option<string>)
    ensures var r := TableOptionLines(charset, collation);
      && (Present(charset) <==> r != [] && StartsWith(r[0], "$table->charset = "))
      && (Present(charset) ==> r[0] == "$table->charset = '" + charset.value + "';")
      && (Present(collation) <==> r != [] && StartsWith(r[|r| - 1], "$table->collation = "))
      && (Present(collation) ==> r[|r| - 1] == "$table->collation = '" + collation.value + "';")
  {
    var cs := "$table->charset = '" + (if charset.Some? then charset.value else "") + "';";
    var cl := "$table->collation = '" + (if collation.Some? then collation.value else "") + "';";
    assert cs[..18] == "$table->charset = ";
    assert cl[..20] == "$table->collation = ";
    assert cs[..20] != "$table->collation = " by { assert cs[9] != cl[9]; }
    assert cl[..18] != "$table->charset = " by { assert cs[9] != cl[9]; }
  }

  /** A foreign-key listing row has at least the four cells read:
      table, column, constraint name, referenced table; the referenced
      column is the fifth. A shorter line is skipped. */
  predicate IsForeignRow(cells: seq<string>) { |cells| >= 5 }

  /** `#formatForeign`, one line. */
  function ForeignLine(cells: seq<string>): string
    requires IsForeignRow(cells)
  {
    "$table->foreign('" + Trim(cells[1]) + "')->references('" + Trim(cells[4]) + "')->on('" + Trim(cells[3]) + "');"
  }

  /** `#formatForeignDrop`, one line: Laravel's default name for the key. */
  function ForeignDropLine(cells: seq<string>): string
    requires IsForeignRow(cells)
  {
    "$table->dropForeign('" + Trim(cells[0]) + "_" + Trim(cells[1]) + "_foreign');"
  }

  function ForeignLines(lines: seq<string>): (r: seq<string>)
    ensures |r| <= |lines|
    decreases |lines|
  {
    if lines == [] then []
    else
      var n := |lines| - 1;
      var cells := Split(lines[n], '\t');
      ForeignLines(lines[..n]) + (if IsForeignRow(cells) then [ForeignLine(cells)] else [])
  }

  function ForeignDropLines(lines: seq<string>): (r: seq<string>)
    ensures |r| <= |lines|
    decreases |lines|
  {
    if lines == [] then []
    else
      var n := |lines| - 1;
      var cells := Split(lines[n], '\t');
      ForeignDropLines(lines[..n]) + (if IsForeignRow(cells) then [ForeignDropLine(cells)] else [])
  }

  /** The cells of the rows of a foreign-key listing that are kept, in
      order. */
  function ForeignRows(lines: seq<string>): (r: seq<seq<string>>)
    ensures forall i :: 0 <= i < |r| ==> IsForeignRow(r[i])
    decreases |lines|
  {
    if lines == [] then []
    else
      var n := |lines| - 1;
      var cells := Split(lines[n], '\t');
      ForeignRows(lines[..n]) + (if IsForeignRow(cells) then [cells] else [])
  }

  /** When every line is a foreign-key row, every line is kept. */
  lemma {:induction false} ForeignRowsAll(lines: seq<string>)
    requires forall k :: 0 <= k < |lines| ==> IsForeignRow(Split(lines[k], '\t'))
    ensures ForeignRows(lines) == seq(|lines|, k requires 0 <= k < |lines| => Split(lines[k], '\t'))
    decreases |lines|
  {
    if lines != [] {
      ForeignRowsAll(lines[..|lines| - 1]);
    }
  }

  /** Each foreign key added is dropped again: the `i`-th line of the up
      section adds the foreign key of the `i`-th kept row, on its column,
      referencing its column of its table, and the `i`-th line of the down
      section drops that key under Laravel's name for it,
      `<table>_<column>_foreign`. */
  lemma {:induction false} ForeignPairs(lines: seq<string>)
    ensures |ForeignLines(lines)| == |ForeignRows(lines)| == |ForeignDropLines(lines)|
    ensures forall i :: 0 <= i < |ForeignRows(lines)| ==>
              var cells := ForeignRows(lines)[i];
              && ForeignLines(lines)[i]
                 == "$table->foreign('" + Trim(cells[1]) + "')->references('" + Trim(cells[4])
                    + "')->on('" + Trim(cells[3]) + "');"
              && ForeignDropLines(lines)[i]
                 == "$table->dropForeign('" + Trim(cells[0]) + "_" + Trim(cells[1]) + "_foreign');"
    decreases |lines|
  {
    if lines != [] {
      ForeignPairs(lines[..|lines| - 1]);
    }
  }

  // ------------------------------------------------------------ assembly

  /** A section of the template: the lines joined with a line feed and the
      indentation, trimmed, and closed with a line feed. */
  function Section(lines: seq<string>, indent: nat): (r: string)
    ensures r != [] && r[|r| - 1] == '\n'
  {
    Trim(Join(lines, "\n" + seq(indent, _ => ' '))) + "\n"
  }

  /** A section of lines that start and end without whitespace is the
      lines joined with the indentation. */
  lemma SectionOfLines(lines: seq<string>, indent: nat)
    requires lines != [] && lines[0] != [] && lines[|lines| - 1] != []
    requires !IsSpace(lines[0][0]) && !IsSpace(lines[|lines| - 1][|lines[|lines| - 1]| - 1])
    ensures Section(lines, indent) == Join(lines, "\n" + seq(indent, _ => ' ')) + "\n"
  {
    var sep := "\n" + seq(indent, _ => ' ');
    JoinEnds(lines, sep);
    TrimNoop(Join(lines, sep), IsSpace);
  }

  lemma {:induction false} JoinEnds(lines: seq<string>, sep: string)
    requires lines != [] && lines[0] != [] && lines[|lines| - 1] != []
    ensures var j := Join(lines, sep);
            j != [] && j[0] == lines[0][0] && j[|j| - 1] == lines[|lines| - 1][|lines[|lines| - 1]| - 1]
    decreases |lines|
  {
    if |lines| > 1 {
      assert lines[1..][|lines[1..]| - 1] == lines[|lines| - 1];
      JoinLast(lines[1..], sep);
    }
  }

  lemma {:induction false} JoinLast(lines: seq<string>, sep: string)
    requires lines != [] && lines[|lines| - 1] != []
    ensures var j := Join(lines, sep);
            j != [] && j[|j| - 1] == lines[|lines| - 1][|lines[|lines| - 1]| - 1]
    decreases |lines|
  {
    if |lines| > 1 {
      assert lines[1..][|lines[1..]| - 1] == lines[|lines| - 1];
      JoinLast(lines[1..], sep);
    }
  }

  /** Position `p` starts a line. */
  predicate LineStart(s: string, p: nat)
    requires p <= |s|
  {
    p == 0 || s[p - 1] == '\n'
  }

  /** The end of a run of blank lines at the start of `s`: just after the
      last line feed within the leading whitespace. */
  function BlankRunEnd(s: string): (e: nat)
    ensures e <= LeadingBy(s, IsSpace)
    ensures e > 0 ==> s[e - 1] == '\n'
    ensures forall k :: e <= k < LeadingBy(s, IsSpace) ==> s[k] != '\n'
  {
    LastLineFeed(s[..LeadingBy(s, IsSpace)])
  }

  function LastLineFeed(w: string): (e: nat)
    ensures e <= |w|
    ensures e > 0 ==> w[e - 1] == '\n'
    ensures forall k :: e <= k < |w| ==> w[k] != '\n'
    decreases |w|
  {
    if w == [] then 0
    else if w[|w| - 1] == '\n' then |w|
    else LastLineFeed(w[..|w| - 1])
  }

  function CountLineFeeds(w: string): nat
    decreases |w|
  {
    if w == [] then 0 else (if w[0] == '\n' then 1 else 0) + CountLineFeeds(w[1..])
  }

  /** The intended effect of `replaceAll(/^(\s*\R){2,}/m, EOL)`: at the start
      of each line, a run of two or more blank lines becomes a single line
      feed. `atStart` says whether `s` begins at the start of a line. */
  function Collapse(s: string, atStart: bool): string
    decreases |s|
  {
    if s == [] then []
    else
      var e := BlankRunEnd(s);
      if atStart && CountLineFeeds(s[..e]) >= 2 then "\n" + Collapse(s[e..], true)
      else [s[0]] + Collapse(s[1..], s[0] == '\n')
  }

  /** The text without its whitespace. */
  function Ink(s: string): string
    decreases |s|
  {
    if s == [] then [] else (if IsSpace(s[0]) then [] else [s[0]]) + Ink(s[1..])
  }

  lemma {:induction false} InkBlank(s: string, e: nat)
    requires e <= |s| && forall k :: 0 <= k < e ==> IsSpace(s[k])
    ensures Ink(s) == Ink(s[e..])
    decreases e
  {
    if e > 0 {
      assert forall k :: 0 <= k < e - 1 ==> s[1..][k] == s[k + 1];
      InkBlank(s[1..], e - 1);
      assert s[1..][e - 1..] == s[e..];
    }
  }

  /** Collapsing drops only whitespace, and never lengthens the text. */
  lemma {:induction false} CollapseKeepsInk(s: string, atStart: bool)
    ensures Ink(Collapse(s, atStart)) == Ink(s)
    ensures |Collapse(s, atStart)| <= |s|
    decreases |s|
  {
    if s != [] {
      var e := BlankRunEnd(s);
      if atStart && CountLineFeeds(s[..e]) >= 2 {
        CollapseKeepsInk(s[e..], true);
        InkBlank(s, e);
        assert e > 0;
        assert ("\n" + Collapse(s[e..], true))[1..] == Collapse(s[e..], true);
      } else {
        CollapseKeepsInk(s[1..], s[0] == '\n');
        assert ([s[0]] + Collapse(s[1..], s[0] == '\n'))[1..] == Collapse(s[1..], s[0] == '\n');
      }
    }
  }

  /** Text with no two line feeds in a row of blank lines is unchanged. */
  lemma {:induction false} CollapseNoRun(s: string, atStart: bool)
    requires forall p :: 0 <= p <= |s| && (p > 0 || atStart) && (p == 0 || s[p - 1] == '\n')
                         ==> CountLineFeeds(s[p..][..BlankRunEnd(s[p..])]) < 2
    ensures Collapse(s, atStart) == s
    decreases |s|
  {
    if s != [] {
      assert s[0..] == s;
      forall p | 0 <= p <= |s[1..]| && (p > 0 || s[0] == '\n') && (p == 0 || s[1..][p - 1] == '\n')
        ensures CountLineFeeds(s[1..][p..][..BlankRunEnd(s[1..][p..])]) < 2
      {
        assert s[1..][p..] == s[p + 1..];
      }
      CollapseNoRun(s[1..], s[0] == '\n');
    }
  }

  /** `makeMigration`'s template substitution for a table migration: the
      version, class name, table name and the five sections. */
  function CreateFinds(): (r: seq<string>)
    ensures |r| == 8 && forall f <- r :: f != []
  {
    [":VERSION:", "DummyClass", "DummyTable", "// structure\n", "// keys\n", "// constraints\n",
     "// tableCollationAndCharset\n", "// extras\n"]
  }

  /** The substitution for a foreign-key migration. */
  function ForeignFinds(): (r: seq<string>)
    ensures |r| == 5 && forall f <- r :: f != []
  {
    [":VERSION:", "DummyClass", "DummyTable", "// foreign\n", "// foreignDrop\n"]
  }

  const Version: string := "3.0.0"
}
