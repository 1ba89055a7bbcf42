/** The column model both parsers build: one record per table column, the
    column table as an insertion-ordered map from column name to record,
    the split of a MySQL type expression `TYPE(ARGS) EXTRA`, the four
    pattern recognisers that rewrite the table (soft deletes, the
    timestamps pair, the remember token and identity columns), and the
    PHP literal syntax the renderers write values in. */
module Schema {
  import opened Wrappers
  import opened Strings
  import opened OrderedMaps
  import opened Helpers

  /** One column. `field` is the name the builder call repeats, cleared
      (None) once a recogniser turns the column into a whole-row call such
      as `softDeletes()`; `args` is null, one argument or a list. */
  datatype Column = Column(
    field: Option<string>,
    builder: string,
    args: JsValue,
    nullable: bool,
    default: Option<string>,
    characterSet: Option<string>,
    collation: Option<string>,
    autoIncrement: bool,
    unsigned: bool,
    comment: Option<string>)

  /** The column table, keyed by column name. */
  type Structure = OMap<string, Column>

  // ------------------------------------------------------------ type expressions

  /** `\w`: an ASCII letter, digit or underscore. */
  predicate IsWordChar(c: char)
  {
    'a' <= c <= 'z' || 'A' <= c <= 'Z' || '0' <= c <= '9' || c == '_'
  }

  /** The capture groups of `^(\w+)(\((.*?)\))?(.*?)?$`: the type name, the
      text between the parentheses when there are any, and the rest. */
  datatype TypeParts = TypeParts(name: string, args: Option<string>, rest: string)

  /** The text the groups were taken from. */
  function Glue(p: TypeParts): string
  {
    p.name + (if p.args.Some? then "(" + p.args.value + ")" else "") + p.rest
  }

  /** Matching a type expression against `^(\w+)(\((.*?)\))?(.*?)?$`, where
      `.` matches every character but a line break as `isBreak` defines it
      (`SplitTypeMatches` and `SplitTypeGroups` state what it yields). */
  function SplitType(s: string, isBreak: char -> bool): Option<TypeParts>
  {
    if s == [] || !IsWordChar(s[0]) || exists k :: 0 <= k < |s| && isBreak(s[k]) then None
    else
      var n := LeadingBy(s, IsWordChar);
      var tail := s[n..];
      if tail != [] && tail[0] == '(' && ')' in tail then
        var j := FirstIndexOf(tail, ')');
        Some(TypeParts(s[..n], Some(tail[1..j]), tail[j + 1..]))
      else
        Some(TypeParts(s[..n], None, tail))
  }

  /** A type expression matches exactly when it starts with a word
      character and holds no line break. */
  lemma SplitTypeMatches(s: string, isBreak: char -> bool)
    ensures SplitType(s, isBreak).Some?
            <==> s != [] && IsWordChar(s[0]) && forall k :: 0 <= k < |s| ==> !isBreak(s[k])
  {
  }

  /** The groups of a match put together give back the type expression.
      The name is the longest run of word characters; the parenthesised
      group is taken whenever the rest starts with `(` and holds a `)`; the
      lazy `.*?` stops at the first `)`. These fix the groups uniquely. */
  lemma SplitTypeGroups(s: string, isBreak: char -> bool)
    requires SplitType(s, isBreak).Some?
    ensures var p := SplitType(s, isBreak).value;
      && Glue(p) == s
      && p.name != [] && (forall k :: 0 <= k < |p.name| ==> IsWordChar(p.name[k]))
      && (p.args.None? ==> p.rest == [] || !IsWordChar(p.rest[0]))
      && (p.args.Some? ==> ')' !in p.args.value)
      && (p.args.None? ==> !(p.rest != [] && p.rest[0] == '(' && ')' in p.rest))
  {
    var n := LeadingBy(s, IsWordChar);
    var tail := s[n..];
    assert s == s[..n] + tail;
    if tail != [] && tail[0] == '(' && ')' in tail {
      var j := FirstIndexOf(tail, ')');
      assert tail[1..j] == tail[..j][1..];
      assert tail == "(" + tail[1..j] + ")" + tail[j + 1..];
    }
  }

  /** Line terminators for JavaScript's `.`. */
  predicate IsJsLineBreak(c: char)
  {
    c == '\n' || c == '\r' || c == '\U{2028}' || c == '\U{2029}'
  }

  /** `auto_increment` in the extra column. */
  predicate IsAutoIncrement(extra: string)
  {
    Contains(extra, "auto_increment")
  }

  /** `unsigned` in the type extra. */
  predicate IsUnsigned(typeExtra: string)
  {
    Contains(typeExtra, "unsigned")
  }

  // ------------------------------------------------------------ recognisers

  /** The column under `k` exists and is a `timestamp`. */
  predicate IsTimestamp(m: Structure, k: string)
  {
    Get(m, k).Some? && Get(m, k).value.builder == "timestamp"
  }

  /** A column turned into a whole-row call: new method, no args, no
      default, not nullable, no repeated name. */
  function Cleared(c: Column, builder: string): Column
  {
    c.(builder := builder, args := Null, default := None, nullable := false, field := None)
  }

  /** A `deleted_at` timestamp becomes `softDeletes()`. */
  function SoftDeletes(m: Structure): Structure
  {
    if IsTimestamp(m, "deleted_at") then
      Set(m, "deleted_at", Cleared(Get(m, "deleted_at").value, "softDeletes"))
    else m
  }

  /** `created_at` and `updated_at` both timestamps: `updated_at` is dropped
      and `created_at` becomes `timestamps()`, or `nullableTimestamps()`
      when it was nullable. */
  function Timestamps(m: Structure): Structure
  {
    if IsTimestamp(m, "created_at") && IsTimestamp(m, "updated_at") then
      var c := Get(m, "created_at").value;
      Set(Remove(m, "updated_at"), "created_at",
          Cleared(c, if c.nullable then "nullableTimestamps" else "timestamps"))
    else m
  }

  /** The `remember_token` column Laravel's `rememberToken()` creates: a
      nullable string of length 100. */
  predicate IsRememberToken(m: Structure)
  {
    match Get(m, "remember_token")
    case Some(c) => c.builder == "string" && c.nullable && c.args == Str("100")
    case None => false
  }

  /** A `remember_token` column as Laravel creates it becomes `rememberToken()`. */
  function RememberToken(m: Structure): Structure
  {
    if IsRememberToken(m) then
      Set(m, "remember_token", Cleared(Get(m, "remember_token").value, "rememberToken"))
    else m
  }

  /** An auto-incrementing big integer without size arguments. */
  predicate IsIdCandidate(c: Column)
  {
    c.builder == "bigInteger" && c.autoIncrement && c.args == Null
  }

  /** An identity column becomes `id`, its flags cleared; its name is
      dropped only when it is `id` itself, so that `id()` stands alone. */
  function AsId(k: string, c: Column): Column
  {
    if IsIdCandidate(c) then
      c.(builder := "id", args := Null, default := None, nullable := false,
         autoIncrement := false, unsigned := false,
         field := if k == "id" then None else c.field)
    else c
  }

  /** Every identity column of the table rewritten by `AsId`. */
  function IdColumns(m: Structure): Structure
  {
    if m == [] then [] else [(m[0].0, AsId(m[0].0, m[0].1))] + IdColumns(m[1..])
  }

  // ------------------------------------------------------------ recogniser lemmas

  lemma GetSome(m: Structure, k: string)
    requires Get(m, k).Some?
    ensures k in Keys(m)
  {
    GetNone(m, k);
  }

  /** Soft deletes rewrite `deleted_at` and nothing else, keeping the order. */
  lemma SoftDeletesEffect(m: Structure, k: string)
    ensures Get(SoftDeletes(m), k)
            == if k == "deleted_at" && IsTimestamp(m, k)
               then Some(Cleared(Get(m, k).value, "softDeletes")) else Get(m, k)
    ensures Keys(SoftDeletes(m)) == Keys(m)
  {
    if IsTimestamp(m, "deleted_at") {
      var c := Cleared(Get(m, "deleted_at").value, "softDeletes");
      GetSet(m, "deleted_at", c, k);
      GetSome(m, "deleted_at");
      SetKeys(m, "deleted_at", c);
    }
  }

  /** The timestamps pair: `updated_at` gone, `created_at` rewritten where
      it stands, every other column untouched. */
  lemma TimestampsEffect(m: Structure, k: string)
    ensures var paired := IsTimestamp(m, "created_at") && IsTimestamp(m, "updated_at");
            Get(Timestamps(m), k)
            == if paired && k == "updated_at" then None
               else if paired && k == "created_at" then
                 var c := Get(m, k).value;
                 Some(Cleared(c, if c.nullable then "nullableTimestamps" else "timestamps"))
               else Get(m, k)
    ensures IsTimestamp(m, "created_at") && IsTimestamp(m, "updated_at")
            ==> Keys(Timestamps(m)) == Keys(Remove(m, "updated_at"))
    ensures !(IsTimestamp(m, "created_at") && IsTimestamp(m, "updated_at")) ==> Timestamps(m) == m
  {
    if IsTimestamp(m, "created_at") && IsTimestamp(m, "updated_at") {
      var c := Get(m, "created_at").value;
      var r := Remove(m, "updated_at");
      var c' := Cleared(c, if c.nullable then "nullableTimestamps" else "timestamps");
      GetSet(r, "created_at", c', k);
      GetRemove(m, "updated_at", k);
      GetRemove(m, "updated_at", "created_at");
      GetSome(r, "created_at");
      SetKeys(r, "created_at", c');
    }
  }

  /** The remember token is rewritten and nothing else. */
  lemma RememberTokenEffect(m: Structure, k: string)
    ensures Get(RememberToken(m), k)
            == if k == "remember_token" && IsRememberToken(m)
               then Some(Cleared(Get(m, k).value, "rememberToken")) else Get(m, k)
    ensures Keys(RememberToken(m)) == Keys(m)
  {
    if IsRememberToken(m) {
      var c := Cleared(Get(m, "remember_token").value, "rememberToken");
      GetSet(m, "remember_token", c, k);
      GetSome(m, "remember_token");
      SetKeys(m, "remember_token", c);
    }
  }

  /** Identity rewriting goes column by column, keeping names and order. */
  lemma {:induction false} IdColumnsEffect(m: Structure, k: string)
    ensures Get(IdColumns(m), k) == if Get(m, k).Some? then Some(AsId(k, Get(m, k).value)) else None
    ensures Keys(IdColumns(m)) == Keys(m)
  {
    if m != [] {
      IdColumnsEffect(m[1..], k);
    }
  }

  /** Nothing to rewrite: the first three recognisers have done their work. */
  predicate Recognised(m: Structure)
  {
    && !IsTimestamp(m, "deleted_at")
    && !(IsTimestamp(m, "created_at") && IsTimestamp(m, "updated_at"))
    && !IsRememberToken(m)
  }

  /** Nothing left for any of the four recognisers. */
  predicate Normalised(m: Structure)
  {
    Recognised(m) && forall i :: 0 <= i < |m| ==> !IsIdCandidate(m[i].1)
  }

  /** Soft deletes, the timestamps pair and the remember token, in the
      order both parsers run them. */
  function RecogniseNamed(m: Structure): Structure
  {
    RememberToken(Timestamps(SoftDeletes(m)))
  }

  /** All four recognisers, in the order the JavaScript parser runs them. */
  function Normalise(m: Structure): Structure
  {
    IdColumns(RecogniseNamed(m))
  }

  /** After the three named recognisers there is nothing left for them. */
  lemma RecogniseNamedRecognised(m: Structure)
    ensures Recognised(RecogniseNamed(m))
  {
    var s1 := SoftDeletes(m);
    var s2 := Timestamps(s1);
    var s3 := RememberToken(s2);
    SoftDeletesEffect(m, "deleted_at");
    TimestampsEffect(s1, "deleted_at");
    TimestampsEffect(s1, "created_at");
    TimestampsEffect(s1, "updated_at");
    RememberTokenEffect(s2, "deleted_at");
    RememberTokenEffect(s2, "created_at");
    RememberTokenEffect(s2, "updated_at");
    RememberTokenEffect(s2, "remember_token");
  }

  /** Identity rewriting creates no work for the named recognisers and
      leaves no identity column behind. */
  lemma IdColumnsNormalised(m: Structure)
    requires Recognised(m)
    ensures Normalised(IdColumns(m))
  {
    var r := IdColumns(m);
    IdColumnsEffect(m, "deleted_at");
    IdColumnsEffect(m, "created_at");
    IdColumnsEffect(m, "updated_at");
    IdColumnsEffect(m, "remember_token");
    IdColumnsNoCandidate(m);
  }

  lemma {:induction false} IdColumnsNoCandidate(m: Structure)
    ensures |IdColumns(m)| == |m|
    ensures forall i :: 0 <= i < |m| ==> !IsIdCandidate(IdColumns(m)[i].1)
  {
    if m != [] {
      IdColumnsNoCandidate(m[1..]);
      assert forall i :: 1 <= i < |m| ==> IdColumns(m)[i] == IdColumns(m[1..])[i - 1];
    }
  }

  lemma {:induction false} IdColumnsFixed(m: Structure)
    requires forall i :: 0 <= i < |m| ==> !IsIdCandidate(m[i].1)
    ensures IdColumns(m) == m
  {
    if m != [] {
      assert forall i :: 0 <= i < |m[1..]| ==> m[1..][i] == m[i + 1];
      IdColumnsFixed(m[1..]);
    }
  }

  /** Identity rewriting is entry by entry: each entry keeps its name and
      place and has `AsId` applied to its column. */
  lemma {:induction false} IdColumnsAt(m: Structure)
    ensures |IdColumns(m)| == |m|
    ensures forall i :: 0 <= i < |m| ==> IdColumns(m)[i] == (m[i].0, AsId(m[i].0, m[i].1))
  {
    if m != [] {
      IdColumnsAt(m[1..]);
      assert forall i :: 1 <= i < |m| ==> IdColumns(m)[i] == IdColumns(m[1..])[i - 1] && m[1..][i - 1] == m[i];
    }
  }

  /** A table with nothing left to recognise is left alone. */
  lemma NormalisedFixed(m: Structure)
    requires Normalised(m)
    ensures SoftDeletes(m) == m && Timestamps(m) == m && RememberToken(m) == m && IdColumns(m) == m
    ensures Normalise(m) == m
  {
    IdColumnsFixed(m);
  }

  /** Recognition is idempotent: a normalised table comes out of a second
      run unchanged. */
  lemma NormaliseIdempotent(m: Structure)
    ensures Normalised(Normalise(m))
    ensures Normalise(Normalise(m)) == Normalise(m)
  {
    RecogniseNamedRecognised(m);
    IdColumnsNormalised(RecogniseNamed(m));
    NormalisedFixed(Normalise(m));
  }

  /** The named recognisers run twice do no more than once. */
  lemma RecogniseNamedIdempotent(m: Structure)
    ensures RecogniseNamed(RecogniseNamed(m)) == RecogniseNamed(m)
  {
    RecogniseNamedRecognised(m);
  }

  /** A column whose name no recogniser looks for is changed by the
      identity rule alone. */
  lemma NormaliseFrame(m: Structure, k: string)
    requires k != "deleted_at" && k != "created_at" && k != "updated_at" && k != "remember_token"
    ensures Get(Normalise(m), k) == if Get(m, k).Some? then Some(AsId(k, Get(m, k).value)) else None
  {
    var s1 := SoftDeletes(m);
    var s2 := Timestamps(s1);
    SoftDeletesEffect(m, k);
    TimestampsEffect(s1, k);
    RememberTokenEffect(s2, k);
    IdColumnsEffect(RecogniseNamed(m), k);
  }

  // ------------------------------------------------------------ PHP literals

  /** The body of the literal as the source writes it: `'` becomes `\'`
      and a backslash is left alone. */
  function EscapeQuotesAsWritten(v: string): string
  {
    ReplaceAll(["'"], ["\\'"], v)
  }

  /** The body of a PHP single-quoted literal for `v`: a backslash is
      doubled and `'` becomes `\'`, so that PHP reads back `v`. */
  function EscapeQuotes(v: string): string
  {
    ReplaceAll(["\\", "'"], ["\\\\", "\\'"], v)
  }

  /** `v` as a PHP single-quoted string literal. */
  function Quoted(v: string): string
  {
    "'" + EscapeQuotes(v) + "'"
  }

  /** How PHP reads a single-quoted literal after its opening quote: `\'`
      stands for a quote and `\\` for a backslash, any other character for
      itself, and the first quote left bare closes the literal. The result
      is the value and the text after the closing quote, or None when no
      quote closes the literal. */
  function ReadLiteral(b: string): Option<(string, string)>
    decreases |b|
  {
    if b == [] then None
    else if b[0] == '\'' then Some(([], b[1..]))
    else
      var n := if |b| >= 2 && b[0] == '\\' && (b[1] == '\'' || b[1] == '\\') then 2 else 1;
      match ReadLiteral(b[n..])
      case None => None
      case Some(p) => Some(([b[n - 1]] + p.0, p.1))
  }

  const EscapeTable: map<string, string> := map["\\" := "\\\\", "'" := "\\'"]

  /** The escaping is a character-wise substitution of the backslash and
      the quote. */
  lemma EscapeQuotesCharwise(v: string)
    ensures EscapeQuotes(v) == CharMapped(EscapeTable, v)
  {
    var finds, reps := ["\\", "'"], ["\\\\", "\\'"];
    ReplaceAllCharwise(finds, reps, v);
    assert finds[..1] == ["\\"] && reps[..1] == ["\\\\"];
    assert finds[..1][..0] == [] && reps[..1][..0] == [];
    assert Table(finds, reps) == EscapeTable;
  }

  /** An escaped body followed by a quote is read back as the value, and
      the literal closes at that quote. */
  lemma {:induction false} ReadCharMapped(v: string, rest: string)
    ensures ReadLiteral(CharMapped(EscapeTable, v) + "'" + rest) == Some((v, rest))
    decreases |v|
  {
    var b := CharMapped(EscapeTable, v) + "'" + rest;
    if v == [] {
      assert b == "'" + rest;
    } else {
      ReadCharMapped(v[1..], rest);
      assert [v[0]] + v[1..] == v;
      var tail := CharMapped(EscapeTable, v[1..]) + "'" + rest;
      if v[0] == '\\' || v[0] == '\'' {
        assert b == ['\\', v[0]] + tail;
        assert b[2..] == tail;
      } else {
        assert [v[0]] !in EscapeTable;
        assert b == [v[0]] + tail;
        assert b[1..] == tail;
      }
    }
  }

  /** Every value is read back from its literal, and the literal ends at
      its last character. */
  lemma QuotedRoundTrip(v: string)
    ensures ReadLiteral(Quoted(v)[1..]) == Some((v, []))
  {
    EscapeQuotesCharwise(v);
    ReadCharMapped(v, []);
    assert Quoted(v)[1..] == CharMapped(EscapeTable, v) + "'" + [];
  }

  /** As written, a value that is a lone backslash gives the literal `'\'`:
      its closing quote is read as an escaped quote and the literal never
      ends. */
  lemma QuotedBackslashAsWritten(v: string)
    requires v == "\\"
    ensures EscapeQuotesAsWritten(v) == v
    ensures ReadLiteral(("'" + EscapeQuotesAsWritten(v) + "'")[1..]) == None
  {
    ReplaceAllCharwise(["'"], ["\\'"], v);
    assert ["'"][..0] == [] && ["\\'"][..0] == [];
    assert [v[0]] !in Table(["'"], ["\\'"]);
    assert CharMapped(Table(["'"], ["\\'"]), v) == v;
    var b := ("'" + v + "'")[1..];
    assert b == ['\\', '\''];
    assert b[2..] == [];
  }

  /** A value without quotes and backslashes is written between quotes
      as it is. */
  lemma QuotedPlain(v: string)
    requires '\'' !in v && '\\' !in v
    ensures Quoted(v) == "'" + v + "'"
  {
    EscapeQuotesCharwise(v);
    forall k | 0 <= k < |v| ensures [v[k]] !in EscapeTable {
      assert v[k] in v;
    }
    CharMappedIdentity(EscapeTable, v);
  }

  /** A single value is written alone, quoted unless the numeric test
      accepts it. */
  lemma EscapeListSingle(v: string, numeric: string -> bool)
    ensures EscapeList([v], numeric) == if numeric(v) then v else Quoted(v)
  {
    var items := seq(1, i requires 0 <= i < 1 => if numeric([v][i]) then [v][i] else Quoted([v][i]));
    assert EscapeList([v], numeric) == items[0];
  }

  /** `escapeArray`: every value the numeric test rejects is quoted, the
      values are joined with `, `, and the list is bracketed only when it
      has more than one element. */
  function EscapeList(values: seq<string>, numeric: string -> bool): string
  {
    var items := seq(|values|, i requires 0 <= i < |values| =>
                       if numeric(values[i]) then values[i] else Quoted(values[i]));
    var s := Join(items, ", ");
    if |values| > 1 then "[" + s + "]" else s
  }

  /** The list is bracketed exactly when it has more than one element,
      provided no value left bare opens with a bracket. */
  lemma EscapeListBracketed(values: seq<string>, numeric: string -> bool)
    requires forall v :: numeric(v) ==> v == [] || v[0] != '['
    ensures var r := EscapeList(values, numeric);
            (r != [] && r[0] == '[') <==> |values| > 1
    ensures |values| > 1 ==> EscapeList(values, numeric)[|EscapeList(values, numeric)| - 1] == ']'
    ensures |values| == 0 ==> EscapeList(values, numeric) == []
  {
    if |values| == 1 {
      var v := values[0];
      var items := seq(1, i requires 0 <= i < 1 => if numeric(values[i]) then values[i] else Quoted(values[i]));
      assert EscapeList(values, numeric) == items[0];
      if !numeric(v) {
        assert Quoted(v)[0] == '\'';
      }
    }
  }

  /** Every value the numeric test rejects comes out as a quoted literal
      that PHP reads back as the value. */
  lemma EscapeListItem(values: seq<string>, numeric: string -> bool, i: nat)
    requires i < |values| && !numeric(values[i])
    ensures var item := Quoted(values[i]);
            item[0] == '\'' && ReadLiteral(item[1..]) == Some((values[i], []))
  {
    QuotedRoundTrip(values[i]);
  }
}
