/** The string helpers of src/helpers.js that the JavaScript parser uses: the
    simultaneous multi-pattern replace, upper-casing of first letters and of
    words, StudlyCase, backslash escaping, the `to_array` wrapper, the numeric
    test and the truthiness filter. */
module Helpers {
  import opened Wrappers
  import opened Strings

  // ------------------------------------------------------------ str_replace

  /** The lookup table `str_replace` fills in its loop: each find-string maps
      to the replacement at the same position; a later pair overrides an
      earlier one with the same find-string. */
  function Table(finds: seq<string>, reps: seq<string>): map<string, string>
    requires |finds| == |reps|
    decreases |finds|
  {
    if finds == [] then map[]
    else
      var n := |finds| - 1;
      Table(finds[..n], reps[..n])[finds[n] := reps[n]]
  }

  /** The keys of the table are exactly the find-strings. */
  lemma {:induction false} TableKeys(finds: seq<string>, reps: seq<string>)
    requires |finds| == |reps|
    ensures forall f :: f in Table(finds, reps) <==> f in finds
    decreases |finds|
  {
    if finds != [] {
      var n := |finds| - 1;
      TableKeys(finds[..n], reps[..n]);
      assert finds == finds[..n] + [finds[n]];
    }
  }

  /** A find-string that does not occur again later is replaced by its own
      paired replacement. */
  lemma {:induction false} TableAt(finds: seq<string>, reps: seq<string>, i: nat)
    requires |finds| == |reps| && i < |finds|
    requires forall j :: i < j < |finds| ==> finds[j] != finds[i]
    ensures finds[i] in Table(finds, reps) && Table(finds, reps)[finds[i]] == reps[i]
    decreases |finds|
  {
    var n := |finds| - 1;
    if i < n {
      TableAt(finds[..n], reps[..n], i);
    }
  }

  /** The loop of `str_replace`: one table entry per pair, in order. */
  method BuildTable(finds: seq<string>, reps: seq<string>) returns (table: map<string, string>)
    requires |finds| == |reps|
    ensures table == Table(finds, reps)
  {
    table := map[];
    var i := 0;
    while i < |finds|
      invariant 0 <= i <= |finds|
      invariant table == Table(finds[..i], reps[..i])
    {
      assert finds[..i + 1][..i] == finds[..i];
      assert reps[..i + 1][..i] == reps[..i];
      table := table[finds[i] := reps[i]];
      i := i + 1;
    }
    assert finds[..|finds|] == finds;
    assert reps[..|reps|] == reps;
  }

  /** The alternative of `f0|f1|...` that matches at the start of `s`: the
      first find-string, in order, that `s` starts with. */
  function FirstMatch(finds: seq<string>, s: string): (r: Option<nat>)
    ensures r.Some? ==> r.value < |finds| && StartsWith(s, finds[r.value])
    ensures r.Some? ==> forall j :: 0 <= j < r.value ==> !StartsWith(s, finds[j])
    ensures r.None? ==> forall j :: 0 <= j < |finds| ==> !StartsWith(s, finds[j])
  {
    if finds == [] then None
    else if StartsWith(s, finds[0]) then Some(0)
    else match FirstMatch(finds[1..], s)
      case None => None
      case Some(i) => Some(i + 1)
  }

  /** `s.replace(new RegExp(alternatives, 'g'), m => table[m])`: one
      left-to-right pass; where a find-string starts, the first one (in
      order) is replaced and the scan resumes after it, so replacement text
      is never scanned again. Each find-string is escaped before it joins
      the pattern, so every alternative matches its own text literally. */
  function Replaced(finds: seq<string>, table: map<string, string>, s: string): string
    requires forall f <- finds :: f != [] && f in table
    decreases |s|
  {
    if s == [] then []
    else match FirstMatch(finds, s)
      case Some(i) => table[finds[i]] + Replaced(finds, table, s[|finds[i]|..])
      case None => [s[0]] + Replaced(finds, table, s[1..])
  }

  /** What `str_replace(finds, reps, s)` returns. */
  function ReplaceAll(finds: seq<string>, reps: seq<string>, s: string): string
    requires |finds| == |reps|
    requires forall f <- finds :: f != []
  {
    TableKeys(finds, reps);
    Replaced(finds, Table(finds, reps), s)
  }

  /** `str_replace` of src/helpers.js: build the table, then replace. */
  method StrReplace(finds: seq<string>, reps: seq<string>, s: string) returns (r: string)
    requires |finds| == |reps|
    requires forall f <- finds :: f != []
    ensures r == ReplaceAll(finds, reps, s)
  {
    var table := BuildTable(finds, reps);
    TableKeys(finds, reps);
    r := Replaced(finds, table, s);
  }

  /** `s` with every character `c` for which `[c]` is a key replaced by the
      table's value for it: a character-by-character substitution. */
  function CharMapped(table: map<string, string>, s: string): string
  {
    if s == [] then []
    else (if [s[0]] in table then table[[s[0]]] else [s[0]]) + CharMapped(table, s[1..])
  }

  /** With one-character find-strings, the single pass is a character-wise
      substitution: each character is looked up once and its replacement is
      never looked at again. */
  lemma {:induction false} ReplacedCharwise(finds: seq<string>, table: map<string, string>, s: string)
    requires forall f <- finds :: |f| == 1 && f in table
    requires forall f :: f in table ==> f in finds
    ensures Replaced(finds, table, s) == CharMapped(table, s)
    decreases |s|
  {
    if s != [] {
      match FirstMatch(finds, s)
      case Some(i) =>
        assert finds[i] == [s[0]];
        ReplacedCharwise(finds, table, s[1..]);
      case None =>
        forall j | 0 <= j < |finds| ensures finds[j] != [s[0]] {
          assert !StartsWith(s, finds[j]);
          assert s[..1] == [s[0]];
        }
        assert [s[0]] !in table;
        ReplacedCharwise(finds, table, s[1..]);
    }
  }

  /** `str_replace` with one-character find-strings is the character-wise
      substitution through its table. */
  lemma ReplaceAllCharwise(finds: seq<string>, reps: seq<string>, s: string)
    requires |finds| == |reps|
    requires forall f <- finds :: |f| == 1
    ensures ReplaceAll(finds, reps, s) == CharMapped(Table(finds, reps), s)
  {
    TableKeys(finds, reps);
    ReplacedCharwise(finds, Table(finds, reps), s);
  }

  /** A character that is a key and occurs in no value is gone after the
      substitution. */
  lemma {:induction false} CharMappedRemoves(table: map<string, string>, s: string, c: char)
    requires forall k :: k in table ==> c !in table[k]
    requires [c] in table || c !in s
    ensures c !in CharMapped(table, s)
  {
    if s != [] {
      CharMappedRemoves(table, s[1..], c);
    }
  }

  // ------------------------------------------------------------ file

  /** `file`: the contents of a file cut at every line feed. The reading of
      the file is not modelled; the contents are passed in. */
  function File(contents: string): (lines: seq<string>)
    ensures |lines| >= 1
    ensures forall k :: 0 <= k < |lines| ==> '\n' !in lines[k]
    ensures Join(lines, "\n") == contents
  {
    JoinSplit(contents, '\n');
    Split(contents, '\n')
  }

  // ------------------------------------------------------------ ucfirst, ucwords

  /** `ucfirst`: the first character upper-cased, the rest unchanged. */
  function Ucfirst(s: string): (r: string)
    ensures |r| == |s|
    ensures s != [] ==> r[0] == UpperChar(s[0])
    ensures forall i :: 0 < i < |s| ==> r[i] == s[i]
  {
    if s == [] then [] else [UpperChar(s[0])] + s[1..]
  }

  function UcfirstAll(words: seq<string>): seq<string>
  {
    if words == [] then [] else [Ucfirst(words[0])] + UcfirstAll(words[1..])
  }

  /** `ucwords` of src/helpers.js: `ucfirst` on every space-separated word,
      rejoined with single spaces. */
  function Ucwords(s: string): string
  {
    Join(UcfirstAll(Split(s, ' ')), " ")
  }

  /** Reference definition of word capitalisation: scanning `s`, the
      character upper-cased is the first one (when `first` holds) and each
      one that follows a delimiter. */
  function Capitalised(s: string, first: bool, delim: char -> bool): string
  {
    if s == [] then []
    else [if first then UpperChar(s[0]) else s[0]] + Capitalised(s[1..], delim(s[0]), delim)
  }

  /** `Capitalised` character by character. */
  lemma {:induction false} CapitalisedAt(s: string, first: bool, delim: char -> bool)
    ensures |Capitalised(s, first, delim)| == |s|
    ensures forall i :: 0 <= i < |s| ==>
      Capitalised(s, first, delim)[i]
        == if (i == 0 && first) || (i > 0 && delim(s[i - 1])) then UpperChar(s[i]) else s[i]
  {
    if s != [] {
      CapitalisedAt(s[1..], delim(s[0]), delim);
    }
  }

  predicate IsBlank(c: char) { c == ' ' }

  lemma JoinHead(x: string, y: string, rest: seq<string>, sep: string)
    ensures Join([x + y] + rest, sep) == x + Join([y] + rest, sep)
  {
    if rest != [] {
      JoinCons(x + y, rest, sep);
      JoinCons(y, rest, sep);
    }
  }

  /** Both forms of the induction behind `UcwordsCapitalises`: with and
      without the first word capitalised. */
  lemma {:induction false} UcwordsSplit(s: string)
    ensures Join(UcfirstAll(Split(s, ' ')), " ") == Capitalised(s, true, IsBlank)
    ensures var w := Split(s, ' ');
      Join([w[0]] + UcfirstAll(w[1..]), " ") == Capitalised(s, false, IsBlank)
  {
    if s != [] {
      var w := Split(s, ' ');
      var rest := Split(s[1..], ' ');
      UcwordsSplit(s[1..]);
      if s[0] == ' ' {
        assert w == [[]] + rest;
        assert w[1..] == rest;
        assert UcfirstAll(w) == [[]] + UcfirstAll(rest);
        JoinCons([], UcfirstAll(rest), " ");
        JoinCons([], UcfirstAll(rest), " ");
        assert UcfirstAll(rest) == [Ucfirst(rest[0])] + UcfirstAll(rest[1..]);
      } else {
        assert w == [[s[0]] + rest[0]] + rest[1..];
        assert w[1..] == rest[1..];
        assert UcfirstAll(w) == [[UpperChar(s[0])] + rest[0]] + UcfirstAll(rest[1..]);
        JoinHead([UpperChar(s[0])], rest[0], UcfirstAll(rest[1..]), " ");
        JoinHead([s[0]], rest[0], UcfirstAll(rest[1..]), " ");
      }
    }
  }

  /** `ucwords` upper-cases the first character and every character after a
      space, and nothing else; so the spaces, their number and positions,
      are kept. */
  lemma UcwordsCapitalises(s: string)
    ensures Ucwords(s) == Capitalised(s, true, IsBlank)
    ensures |Ucwords(s)| == |s|
    ensures forall i :: 0 <= i < |s| ==> (Ucwords(s)[i] == ' ' <==> s[i] == ' ')
  {
    UcwordsSplit(s);
    CapitalisedAt(s, true, IsBlank);
    var r := Capitalised(s, true, IsBlank);
    forall i | 0 <= i < |s| ensures Ucwords(s)[i] == ' ' <==> s[i] == ' ' {
      assert r[i] == if i == 0 || IsBlank(s[i - 1]) then UpperChar(s[i]) else s[i];
      UpperCharSpace(s[i]);
    }
  }

  lemma UpperCharSpace(c: char)
    ensures UpperChar(c) == ' ' <==> c == ' '
  {
    if 'a' <= c <= 'z' {
      assert c as int - 32 >= 'A' as int;
    }
  }

  /** A character that is not an upper-case letter and does not occur in
      `s` does not occur after capitalisation. */
  lemma {:induction false} CapitalisedKeepsOut(s: string, first: bool, delim: char -> bool, c: char)
    requires c !in s && !('A' <= c <= 'Z')
    ensures c !in Capitalised(s, first, delim)
  {
    if s != [] {
      CapitalisedKeepsOut(s[1..], delim(s[0]), delim, c);
    }
  }

  // ------------------------------------------------------------ studly

  /** `studly` of src/helpers.js: `-` and `_` become spaces, every word is
      capitalised, and the spaces are removed. Its calls pass a single
      string where `str_replace` expects arrays; the model reads them as
      PHP's `str_replace` does, every find-string replaced by that one
      string (the as-written reading is `StudlyAsWritten`). */
  function Studly(s: string): string
  {
    ReplaceAll([" "], [""], Ucwords(ReplaceAll(["-", "_"], [" ", " "], s)))
  }

  lemma DashTable(dash: string, underscore: string)
    ensures Table(["-", "_"], [dash, underscore]) == map["-" := dash, "_" := underscore]
  {
    assert ["-", "_"][..1] == ["-"];
    assert [dash, underscore][..1] == [dash];
    assert ["-"][..0] == [];
    assert [dash][..0] == [];
  }

  /** A StudlyCase name has no dash, underscore or space. */
  lemma StudlyHasNoSeparators(s: string)
    ensures '-' !in Studly(s) && '_' !in Studly(s) && ' ' !in Studly(s)
  {
    var t1 := Table(["-", "_"], [" ", " "]);
    DashTable(" ", " ");
    ReplaceAllCharwise(["-", "_"], [" ", " "], s);
    var a := ReplaceAll(["-", "_"], [" ", " "], s);
    CharMappedRemoves(t1, s, '-');
    CharMappedRemoves(t1, s, '_');
    UcwordsCapitalises(a);
    CapitalisedKeepsOut(a, true, IsBlank, '-');
    CapitalisedKeepsOut(a, true, IsBlank, '_');
    var b := Ucwords(a);
    var t2 := Table([" "], [""]);
    assert [" "][..0] == [];
    ReplaceAllCharwise([" "], [""], b);
    CharMappedRemoves(t2, b, '-');
    CharMappedRemoves(t2, b, '_');
    CharMappedRemoves(t2, b, ' ');
  }

  /** `studly` as the JavaScript code reads its scalar arguments: indexing
      the string `' '` gives `' '` for `-` and `undefined` for `_`, and
      indexing `''` gives `undefined` for the space; the replacement
      callback then returns `undefined`, which `replace` turns into the
      text "undefined". */
  function StudlyAsWritten(s: string): string
  {
    ReplaceAll([" "], ["undefined"], Ucwords(ReplaceAll(["-", "_"], [" ", "undefined"], s)))
  }

  /** A substitution leaves text without keys alone. */
  lemma {:induction false} CharMappedIdentity(table: map<string, string>, s: string)
    requires forall k :: 0 <= k < |s| ==> [s[k]] !in table
    ensures CharMapped(table, s) == s
  {
    if s != [] {
      CharMappedIdentity(table, s[1..]);
    }
  }

  /** `ucwords` of a single word upper-cases its first character only. */
  lemma UcwordsOneWord(s: string)
    requires s != [] && ' ' !in s
    ensures Ucwords(s) == [UpperChar(s[0])] + s[1..]
  {
    UcwordsCapitalises(s);
    CapitalisedAt(s, true, IsBlank);
    var r := [UpperChar(s[0])] + s[1..];
    forall k | 0 < k < |s| ensures Ucwords(s)[k] == r[k] {
      assert s[k - 1] in s;
    }
  }

  lemma SpaceTable(rep: string)
    ensures Table([" "], [rep]) == map[" " := rep]
  {
    assert [" "][..0] == [];
    assert [rep][..0] == [];
  }

  /** Text without spaces is left alone by `str_replace(' ', ...)`. */
  lemma NoSpaceUnchanged(rep: string, s: string)
    requires ' ' !in s
    ensures ReplaceAll([" "], [rep], s) == s
  {
    SpaceTable(rep);
    ReplaceAllCharwise([" "], [rep], s);
    forall k | 0 <= k < |s| ensures [s[k]] !in map[" " := rep] {
      assert s[k] in s;
    }
    CharMappedIdentity(map[" " := rep], s);
  }

  /** The first step of both readings of `studly` on `a_b`. */
  lemma DashStepOnExample(s: string, underscore: string)
    requires s == "a_b"
    ensures ReplaceAll(["-", "_"], [" ", underscore], s) == "a" + underscore + "b"
  {
    var t := map["-" := " ", "_" := underscore];
    DashTable(" ", underscore);
    ReplaceAllCharwise(["-", "_"], [" ", underscore], s);
    assert s[1..] == "_b" && s[1..][1..] == "b" && "b"[1..] == "";
    assert "a" !in t && "b" !in t;
    assert CharMapped(t, "b") == "b";
    assert CharMapped(t, s[1..]) == underscore + "b";
  }

  lemma UcwordsOnExample(w: string)
    requires w == "a b"
    ensures Ucwords(w) == "A B"
  {
    UcwordsCapitalises(w);
    CapitalisedAt(w, true, IsBlank);
  }

  lemma SpacesOutOnExample(v: string)
    requires v == "A B"
    ensures ReplaceAll([" "], [""], v) == "AB"
  {
    var u := map[" " := ""];
    SpaceTable("");
    ReplaceAllCharwise([" "], [""], v);
    assert v[1..] == " B" && v[1..][1..] == "B" && "B"[1..] == "";
    assert "A" !in u && "B" !in u;
    assert CharMapped(u, "B") == "B";
    assert CharMapped(u, v[1..]) == "B";
  }

  /** On `a_b` the as-written reading gives `Aundefinedb`. */
  lemma StudlyUnderscoreAsWritten(s: string)
    requires s == "a_b"
    ensures StudlyAsWritten(s) == "Aundefinedb"
  {
    DashStepOnExample(s, "undefined");
    var w := ReplaceAll(["-", "_"], [" ", "undefined"], s);
    assert w == "aundefinedb";
    assert ' ' !in w;
    UcwordsOneWord(w);
    assert w[0] == 'a' && w[1..] == "undefinedb";
    assert Ucwords(w) == "Aundefinedb";
    NoSpaceUnchanged("undefined", "Aundefinedb");
  }

  /** On `a_b` the intended reading gives `AB`. */
  lemma StudlyUnderscore(s: string)
    requires s == "a_b"
    ensures Studly(s) == "AB"
  {
    DashStepOnExample(s, " ");
    assert "a" + " " + "b" == "a b";
    UcwordsOnExample("a b");
    SpacesOutOnExample("A B");
  }

  // ------------------------------------------------------------ addslashes

  /** First pass of `addslashes`: a backslash before every `\`, `"` and `'`. */
  function EscapeSpecials(s: string): string
  {
    if s == [] then []
    else (if s[0] == '\\' || s[0] == '"' || s[0] == '\'' then ['\\', s[0]] else [s[0]])
         + EscapeSpecials(s[1..])
  }

  /** Second pass of `addslashes`: NUL becomes backslash and `0`. */
  function EscapeNul(s: string): string
  {
    if s == [] then [] else (if s[0] == '\0' then "\\0" else [s[0]]) + EscapeNul(s[1..])
  }

  /** `addslashes` of src/helpers.js: the two passes in order. */
  function AddSlashes(s: string): string
  {
    EscapeNul(EscapeSpecials(s))
  }

  /** What `addslashes` makes of one character. */
  function Slashed(c: char): string
  {
    if c == '\\' || c == '"' || c == '\'' then ['\\', c]
    else if c == '\0' then "\\0"
    else [c]
  }

  lemma {:induction false} EscapeNulAppend(a: string, b: string)
    ensures EscapeNul(a + b) == EscapeNul(a) + EscapeNul(b)
  {
    if a == [] {
      assert a + b == b;
    } else {
      assert (a + b)[0] == a[0];
      assert (a + b)[1..] == a[1..] + b;
      EscapeNulAppend(a[1..], b);
    }
  }

  /** `addslashes` works character by character: a backslash goes before
      each `\`, `"` and `'`, NUL becomes `\0`, every other character is
      kept. */
  lemma AddSlashesCons(s: string)
    requires s != []
    ensures AddSlashes(s) == Slashed(s[0]) + AddSlashes(s[1..])
  {
    var rest := EscapeSpecials(s[1..]);
    if s[0] == '\\' || s[0] == '"' || s[0] == '\'' {
      assert EscapeSpecials(s) == ['\\', s[0]] + rest;
      EscapeNulAppend(['\\', s[0]], rest);
      assert EscapeNul(['\\', s[0]]) == ['\\'] + EscapeNul([s[0]]);
    } else {
      assert EscapeSpecials(s) == [s[0]] + rest;
      EscapeNulAppend([s[0]], rest);
    }
  }

  /** PHP `stripslashes`: a backslash is dropped and the character after it
      kept (`\0` gives NUL); a lone backslash at the end is dropped. */
  function StripSlashes(s: string): string
  {
    if s == [] then []
    else if s[0] != '\\' then [s[0]] + StripSlashes(s[1..])
    else if |s| == 1 then []
    else (if s[1] == '0' then ['\0'] else [s[1]]) + StripSlashes(s[2..])
  }

  /** `stripslashes` undoes `addslashes`. */
  lemma {:induction false} AddSlashesRoundTrip(s: string)
    ensures StripSlashes(AddSlashes(s)) == s
  {
    if s != [] {
      AddSlashesCons(s);
      AddSlashesRoundTrip(s[1..]);
      var rest := AddSlashes(s[1..]);
      if s[0] == '\\' || s[0] == '"' || s[0] == '\'' {
        assert (['\\', s[0]] + rest)[2..] == rest;
      } else if s[0] == '\0' {
        assert ("\\0" + rest)[2..] == rest;
      } else {
        assert ([s[0]] + rest)[1..] == rest;
      }
    }
  }

  // ------------------------------------------------------------ to_array

  /** A JavaScript value the parser passes around as column arguments or
      table cells: null, a string, or an array of strings. */
  datatype JsValue = Null | Str(text: string) | Arr(items: seq<string>)

  /** How `Array.prototype.join` writes one element: null as the empty
      string, an array as its elements joined with commas. */
  function ElementText(v: JsValue): string
  {
    match v
    case Null => ""
    case Str(t) => t
    case Arr(xs) => Join(xs, ",")
  }

  /** `array.join(sep)` on an array of JavaScript values. */
  function JoinValues(vs: seq<JsValue>, sep: string): string
  {
    if vs == [] then []
    else if |vs| == 1 then ElementText(vs[0])
    else ElementText(vs[0]) + sep + JoinValues(vs[1..], sep)
  }

  /** `to_array` as written: `typeof` never yields `'array'`, so every value,
      arrays included, is wrapped in a one-element array. */
  function ToArrayAsWritten(v: JsValue): (r: seq<JsValue>)
    ensures |r| == 1
  {
    [v]
  }

  /** `to_array` as intended (`Array.isArray`): an array is returned as it
      is, anything else wrapped. */
  function ToArray(v: JsValue): seq<JsValue>
  {
    match v
    case Arr(xs) => seq(|xs|, i requires 0 <= i < |xs| => Str(xs[i]))
    case _ => [v]
  }

  /** Joining the intended `to_array` of a list joins its elements with the
      separator given. */
  lemma {:induction false} JoinToArray(xs: seq<string>, sep: string)
    ensures JoinValues(ToArray(Arr(xs)), sep) == Join(xs, sep)
  {
    if |xs| > 1 {
      JoinToArray(xs[1..], sep);
      assert ToArray(Arr(xs))[1..] == ToArray(Arr(xs[1..]));
    }
  }

  /** Joining the as-written `to_array` of a list ignores the separator:
      the one element is the array, which `join` writes with commas. */
  lemma JoinToArrayAsWritten(xs: seq<string>, sep: string)
    ensures JoinValues(ToArrayAsWritten(Arr(xs)), sep) == Join(xs, ",")
  {
  }

  /** With the enum arguments `'a'` and `'b'`, the as-written `to_array`
      renders `'a','b'` where `'a', 'b'` is meant. */
  lemma ToArrayEnumArgs()
    ensures JoinValues(ToArrayAsWritten(Arr(["'a'", "'b'"])), ", ") == "'a','b'"
    ensures JoinValues(ToArray(Arr(["'a'", "'b'"])), ", ") == "'a', 'b'"
  {
    JoinToArray(["'a'", "'b'"], ", ");
  }

  // ------------------------------------------------------------ is_numeric

  predicate IsDigit(c: char) { '0' <= c <= '9' }

  predicate AllDigits(s: string) { forall i :: 0 <= i < |s| ==> IsDigit(s[i]) }

  predicate Digits(s: string) { s != [] && AllDigits(s) }

  /** Digits with an optional decimal point: `1`, `1.`, `1.5`, `.5`. */
  predicate Mantissa(s: string)
  {
    || Digits(s)
    || exists i :: 0 <= i < |s| && s[i] == '.' && |s| > 1 && AllDigits(s[..i]) && AllDigits(s[i + 1..])
  }

  predicate SignedDigits(s: string)
  {
    Digits(s) || (|s| > 1 && (s[0] == '+' || s[0] == '-') && Digits(s[1..]))
  }

  /** A mantissa with an optional exponent `e`/`E` and signed digits. */
  predicate UnsignedDecimal(s: string)
  {
    || Mantissa(s)
    || exists i :: 0 <= i < |s| && (s[i] == 'e' || s[i] == 'E') && Mantissa(s[..i]) && SignedDigits(s[i + 1..])
  }

  /** A decimal number with an optional sign: the decimal form both
      JavaScript's string-to-number conversion and PHP's `is_numeric`
      accept. */
  predicate DecimalLiteral(s: string)
  {
    UnsignedDecimal(s) || (s != [] && (s[0] == '+' || s[0] == '-') && UnsignedDecimal(s[1..]))
  }

  predicate IsHexDigit(c: char) { IsDigit(c) || 'a' <= c <= 'f' || 'A' <= c <= 'F' }

  /** `0x1F`, `0o17`, `0b101`: the prefixed integer forms JavaScript also
      converts. */
  predicate NonDecimalInteger(s: string)
  {
    && |s| > 2 && s[0] == '0'
    && (|| ((s[1] == 'x' || s[1] == 'X') && forall k :: 2 <= k < |s| ==> IsHexDigit(s[k]))
        || ((s[1] == 'o' || s[1] == 'O') && forall k :: 2 <= k < |s| ==> '0' <= s[k] <= '7')
        || ((s[1] == 'b' || s[1] == 'B') && forall k :: 2 <= k < |s| ==> s[k] == '0' || s[k] == '1'))
  }

  /** `is_numeric` of src/helpers.js on a string: `isFinite` converts it to
      a number, which is finite for blank text (zero), a decimal literal or
      a prefixed integer, each with surrounding whitespace allowed. */
  predicate IsNumeric(s: string)
  {
    var t := Trim(s);
    t == [] || DecimalLiteral(t) || NonDecimalInteger(t)
  }

  /** The characters a numeric literal can contain. */
  predicate NumberChar(c: char)
  {
    IsHexDigit(c) || c == '.' || c == '+' || c == '-' || c == 'x' || c == 'X'
    || c == 'o' || c == 'O' || c == 'b' || c == 'B' || c == 'e' || c == 'E'
  }

  lemma MantissaChars(s: string)
    requires Mantissa(s)
    ensures forall k :: 0 <= k < |s| ==> NumberChar(s[k])
  {
    if !Digits(s) {
      var i :| 0 <= i < |s| && s[i] == '.' && |s| > 1 && AllDigits(s[..i]) && AllDigits(s[i + 1..]);
      forall k | 0 <= k < |s| ensures NumberChar(s[k]) {
        if k < i { assert s[..i][k] == s[k]; }
        else if k > i { assert s[i + 1..][k - i - 1] == s[k]; }
      }
    }
  }

  lemma UnsignedDecimalChars(s: string)
    requires UnsignedDecimal(s)
    ensures forall k :: 0 <= k < |s| ==> NumberChar(s[k])
  {
    if !Mantissa(s) {
      var i :| 0 <= i < |s| && (s[i] == 'e' || s[i] == 'E') && Mantissa(s[..i]) && SignedDigits(s[i + 1..]);
      MantissaChars(s[..i]);
      forall k | 0 <= k < |s| ensures NumberChar(s[k]) {
        if k < i { assert s[..i][k] == s[k]; }
        else if k > i { assert s[i + 1..][k - i - 1] == s[k]; }
      }
    } else {
      MantissaChars(s);
    }
  }

  /** A decimal literal is made of digits, signs, points and exponent marks
      only. */
  lemma DecimalLiteralChars(s: string)
    requires DecimalLiteral(s)
    ensures forall k :: 0 <= k < |s| ==> NumberChar(s[k])
  {
    if UnsignedDecimal(s) {
      UnsignedDecimalChars(s);
    } else {
      UnsignedDecimalChars(s[1..]);
      forall k | 1 <= k < |s| ensures NumberChar(s[k]) {
        assert s[1..][k - 1] == s[k];
      }
    }
  }

  /** A numeric literal, decimal or prefixed, is made of number characters. */
  lemma LiteralChars(t: string)
    requires DecimalLiteral(t) || NonDecimalInteger(t)
    ensures forall k :: 0 <= k < |t| ==> NumberChar(t[k])
  {
    if DecimalLiteral(t) {
      DecimalLiteralChars(t);
    }
  }

  /** A value the JavaScript numeric test accepts is made of whitespace
      and number characters only: written bare, it holds no quote to end a
      literal, no comma to split a list and no bracket to open one. */
  lemma NumericChars(s: string)
    requires IsNumeric(s)
    ensures forall k :: 0 <= k < |s| ==> IsSpace(s[k]) || NumberChar(s[k])
    ensures '\'' !in s && ',' !in s && '[' !in s
  {
    var t := Trim(s);
    var i, j := TrimSpan(s, IsSpace);
    if t != [] {
      LiteralChars(t);
    }
    forall k | 0 <= k < |s| ensures IsSpace(s[k]) || NumberChar(s[k]) {
      if i <= k < j {
        assert t[k - i] == s[k];
      }
    }
  }

  // ------------------------------------------------------------ removeEmpty

  /** `lines.filter(removeEmpty)`: the truthy strings, that is the non-empty
      ones, in order. */
  function RemoveEmpty(xs: seq<string>): (r: seq<string>)
    ensures forall x :: x in r <==> x in xs && x != []
    ensures (forall x <- xs :: x != []) ==> r == xs
    ensures multiset(r) == multiset(xs)[[] := 0]
    ensures |r| <= |xs|
  {
    if xs == [] then []
    else
      assert forall x <- xs[1..] :: x in xs;
      assert xs[0] in xs;
      assert multiset(xs) == multiset{xs[0]} + multiset(xs[1..]) by {
        assert xs == [xs[0]] + xs[1..];
      }
      (if xs[0] == [] then [] else [xs[0]]) + RemoveEmpty(xs[1..])
  }

  /** The filter distributes over concatenation, so the kept strings keep
      their relative order. */
  lemma {:induction false} RemoveEmptyAppend(xs: seq<string>, ys: seq<string>)
    ensures RemoveEmpty(xs + ys) == RemoveEmpty(xs) + RemoveEmpty(ys)
    decreases |xs|
  {
    if xs == [] {
      assert xs + ys == ys;
    } else {
      var zs := xs + ys;
      assert zs[0] == xs[0] && zs[1..] == xs[1..] + ys;
      RemoveEmptyAppend(xs[1..], ys);
      var head := if xs[0] == [] then [] else [xs[0]];
      calc {
        RemoveEmpty(zs);
        head + RemoveEmpty(xs[1..] + ys);
        head + (RemoveEmpty(xs[1..]) + RemoveEmpty(ys));
        (head + RemoveEmpty(xs[1..])) + RemoveEmpty(ys);
        RemoveEmpty(xs) + RemoveEmpty(ys);
      }
    }
  }
}
