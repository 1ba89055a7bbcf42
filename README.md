# Laravel migration export, modelled in Dafny

The system turns the tab-separated listings that a MySQL client exports for
one table into the source of a Laravel migration. The listings are:

- the columns (`SHOW FULL COLUMNS`);
- the indexes (`SHOW INDEX`);
- the foreign-key constraints;
- the table's character set and collation;
- for the incremental "add foreign keys" migration, the foreign keys alone.

Two variants exist, and both are modelled:

- `src/MigrationParser.js` is the command-line port, together with its
  PHP-like helpers in `src/helpers.js`.
- `ExportToLaravelMigration.spBundle/MigrationParser.php` is the original
  Sequel Pro bundle.

Each variant does the same job:

1. It reads every row of the column listing and splits its type expression
   (`varchar(100)`, `int(10) unsigned`, `enum('a','b')`) into a type name,
   arguments and trailing extras.
2. It dispatches on the type name to a `parse<Type>` handler. The handler
   picks the Blueprint builder (`string`, `bigInteger`, `boolean`, …) and
   the auto-increment and unsigned flags.
3. It recognises the conventional columns and folds them into whole-row
   calls: `deleted_at` becomes `softDeletes()`, the pair `created_at` and
   `updated_at` becomes `timestamps()`, `remember_token` becomes
   `rememberToken()`, and an auto-increment `bigint` becomes `id()`.
4. It groups index rows by key name and constraint rows by constraint name.
   A primary key that an auto-increment column already implies is dropped.
5. It renders one `$table->…;` line per column, index and constraint, and
   substitutes these lines into a migration stub.

The model's layers:

- **Tables are insertion-ordered maps.** A JavaScript object and a PHP
  array keep keys in first-insertion order, and reassigning a key keeps
  its place, so each table is a `seq` of key/value pairs (`OrderedMaps`).
- **The listings are plain strings.** File reading is out; `Rows` and
  `PhpRows` model `file` followed by `shift`, which drops the header row.
- **The normalisers are pure functions** (module `Schema`). Their effects,
  their idempotence and what they leave alone are proved as lemmas.
- **The rendering is pure functions** (module `JsRender` and `PhpParser`).
- **The two parser classes are Dafny classes.** `JsParser.MigrationParser`
  and `PhpParser.PhpMigrationParser` hold the same fields as the source.
  Their `build*` methods reset a table and fill it row by row in a loop.
  Each method is proved to leave exactly the state its specification
  function describes, and to leave every other field unchanged.

The modules and the files they model:

| module | file | models |
|---|---|---|
| `Wrappers` | `wrappers.dfy` | `Option` |
| `Strings` | `strings.dfy` | trim, split and join, substring search, ASCII case |
| `OrderedMaps` | `ordered_maps.dfy` | insertion-ordered maps: `Get`, `Set`, `Remove`, `Keys` |
| `Helpers` | `helpers.dfy` | `src/helpers.js` |
| `Schema` | `schema.dfy` | the column record, the type-expression split, the normalisers and the quoting that both variants share |
| `JsColumns` | `js_columns.dfy` | the JS type handlers and the column rows |
| `JsKeys` | `js_keys.dfy` | the JS index, FULLTEXT, primary-key and constraint tables |
| `JsRender` | `js_render.dfy` | the JS line rendering, sections, template and blank-line collapse |
| `JsParser` | `js_parser.dfy` | the JS `MigrationParser` class |
| `PhpParser` | `php_parser.dfy` | the PHP bundle, including its class |
| `JsScenarios` | `js_scenarios.dfy` | whole rows run through the JS pipeline to the line they produce |

## Where the code is read by its evident intent

Several lines of the JavaScript port cannot run as written: a PHP idiom
was left in, a `const` is reassigned, a name is never declared, or a
method is called with an argument it refuses. Each
such line is modelled by what it plainly means. Where the PHP original has
the same step, the reading agrees with it.

- `$this.#x` in the constructor and `makeMigration` is `this.#x`.
- `'UNKNOWN:'.type` and `' '.data.args` are string concatenations.
- `$characterSet`, `$collation` and `$value` are the locals of those
  names.
- The destructuring assignments in `#buildStructure` (:206-216),
  `#buildKeys` (:415-428), `#formatForeign` and `#formatForeignDrop` assign
  to names that are never declared. Class code is strict, so each throws a
  ReferenceError on the first row. The cells are read as locals.
- Reassigning the `const` `args` in `#buildStructure` is a reassignment.
  So is reassigning `regex` in `str_replace`, and so is
  `data = { ...data, ...this[method](…) }` (:248), which reassigns the
  `const data` of :230 and would throw a TypeError on every column whose
  type has a handler. The model merges the handler's fields into the
  column.
- `#parseTinyint` (:650-652) assigns `method`, `args` and `unsigned`,
  which it never declares, so once `args === 1` holds the assignments
  throw a ReferenceError. `JsColumns.TinyintOne` reads them as locals and
  returns the `boolean` column.
- `colType.matchAll(re)` is read as a single `match`. The regex has no
  `g` flag, and the groups are then indexed directly.
- An absent argument group gives no arguments. A present but empty one
  (`int()`) stays the empty string in JavaScript. In PHP, `''` and `'0'`
  give no arguments, following `?:`.
- When the type has nothing after it, group 4 is undefined. Calling
  `.trim()` on it is read as trimming `''`.
- `this[method]` cannot reach the private `#parse*` handlers. The dispatch
  is therefore an explicit match over the handler names.
- `#parseDate` (:669) passes the undeclared `date`. It is read as the
  string `'date'`.
- In `#formatStructure`:
  - a `null` default writes no `->default(…)`; as written, `null` passes
    the `typeof` test at :380 and is then written or trimmed;
  - a boolean column's default is `true` or `false` by PHP truthiness of
    the stored text.
- `args?.autoIncrement` in `#buildKeys` is the column's `autoIncrement`.
- `fields[field] = …` in `#formatExtras` is a push, as in the other
  `#format*` methods. Otherwise `join` would see an empty array.
- `#escapeColumnList` (:609-616) calls `.map` on the `Map` of columns,
  which has no such method. It is read as listing the Map's values in
  insertion order.
- In `#buildConstraints` (:515), `typeof … === undefined` compares a type
  name with the value `undefined`. It never holds, so no group is created
  and the `.push` at :518 throws on the first row. `JsKeys.ConstraintLineGroups`
  reads it as the test for `'undefined'`: a row creates its group on first
  sight.
- `#escapeArray` (:590-606) is inverted as written. Its `map` callback
  returns nothing, so every item joins as empty text. Its test
  `value === 0 || isFinite(value)` picks the numeric values for quoting.
  The model follows the PHP original (ExportToLaravelMigration.spBundle/MigrationParser.php:258-274):
  every value that is not numeric is quoted, and numeric values are
  written bare. The numeric test is `is_numeric` of `src/helpers.js`. A
  list of columns is read as the Map's values.
- `str_replace` called with a single find string is read with PHP's
  meaning: the one find and its replacement.
- `replaceAll` with a regex that lacks the `g` flag throws a TypeError.
  This happens at :149 in `makeMigration` and at :571 in
  `#buildTableCollationAndCharset`. Each call is read as the global
  replacement it plainly means.
- `replaceAll(/^(\s*\R){2,}/m, EOL)` (:149) collapses each run of two or more
  blank lines into one line feed. `\R` is a PCRE escape; a JavaScript
  regex reads it as the letter `R`.
- `rows.shift().replaceAll(/\n+$/, '')` (:571) strips the trailing line
  feeds of the options row. Lines come from cutting at line feeds, so the
  model's row is already free of them.

The PHP regex `#^(\w+)(\((.*?)\))?(.*?)?$#` is modelled with PCRE's own
rules:

- `$` also matches before a final line feed;
- `.` excludes only the line feed.

`@date` in the PHP template is replaced by `$date`, a variable that is
never assigned, so it becomes the empty string. `@file` is replaced by a
path built from the wall-clock date; the date is a parameter of
`MakeMigration`.

## Model

| member | source | states |
|---|---|---|
| Helpers.TableKeys | src/helpers.js:10-13 | the replacement table built by `str_replace` has exactly the find strings as keys |
| Helpers.TableAt | src/helpers.js:12 | a find string that is not repeated later maps to the replacement at its own position; a later duplicate overrides an earlier one |
| Helpers.BuildTable | src/helpers.js:8-13 | the loop that fills `map` leaves exactly the table `Table(finds, reps)` |
| Helpers.FirstMatch | src/helpers.js:14-15 | the alternation regex, tried at one position, picks the first listed find that matches there; a result of none means no find matches |
| Helpers.StrReplace | src/helpers.js:7-19 | the left-to-right scan equals the global replacement `ReplaceAll`, in which each match is replaced by its table entry and the scan resumes after it |
| Helpers.ReplaceAllCharwise | src/helpers.js:7-19 | with one-character finds, `str_replace` is a character-by-character substitution through the table |
| Helpers.CharMappedRemoves | src/helpers.js:15-17 | a character whose find maps to text that lacks it is gone from the result |
| Helpers.File | src/helpers.js:25-27 | `file` gives at least one line, no line holds a line feed, and joining the lines with `"\n"` gives back the contents |
| Helpers.Ucfirst | src/helpers.js:29-31 | `ucfirst` upper-cases the first character and keeps every other character, with ASCII case mapping, which keeps the length |
| Helpers.CapitalisedAt | src/helpers.js:33-38 | the characterwise view of word capitalisation: a character is upper-cased exactly when it starts the text or follows a delimiter, and every other character is kept |
| Helpers.UcwordsSplit | src/helpers.js:33-38 | splitting on spaces, upper-casing each word's first letter and joining with spaces is the characterwise capitalisation after spaces |
| Helpers.UcwordsCapitalises | src/helpers.js:33-38 | with ASCII case mapping, `ucwords` keeps the length and the positions of spaces, and upper-cases exactly the first letter of each space-separated word |
| Helpers.StudlyHasNoSeparators | src/helpers.js:40-44 | a studly-cased name holds no `-`, `_` or space |
| Helpers.StudlyUnderscoreAsWritten | src/helpers.js:40-44 | as written, the scalar replacement arguments are read by index and give `undefined`, so `a_b` becomes `Aundefinedb` |
| Helpers.StudlyUnderscore | src/helpers.js:40-44 | with the intended PHP meaning, `a_b` becomes `AB` |
| Helpers.AddSlashesCons | src/helpers.js:65-67 | `addslashes` escapes each character independently: a backslash, quote or double quote gets a backslash, and NUL becomes `\0` |
| Helpers.AddSlashesRoundTrip | src/helpers.js:65-67 | `stripslashes` undoes `addslashes` for every string |
| Helpers.ToArrayAsWritten | src/helpers.js:61 | as written, `typeof` never yields `'array'`, so `to_array` always wraps its argument in a one-element list |
| Helpers.JoinToArray | src/helpers.js:61 | with the intended test, an argument list joins with the separator the caller gives |
| Helpers.JoinToArrayAsWritten | src/helpers.js:61 | as written, an argument list joins with `,` whatever separator the caller gives |
| Helpers.ToArrayEnumArgs | src/helpers.js:61 | for the enum values `'a'` and `'b'` the call writes `'a','b'` as written and `'a', 'b'` as intended |
| Helpers.NumericChars | src/helpers.js:63 | a numeric string holds only whitespace and number characters, and never a quote, comma or `[` |
| Helpers.RemoveEmpty | src/helpers.js:46 | filtering with `removeEmpty` keeps exactly the non-empty strings, each as often as it occurs; a list with no empty string is unchanged |
| Helpers.RemoveEmptyAppend | src/helpers.js:46 | the filter distributes over concatenation, so the kept strings stay in their order |
| Schema.SplitTypeGroups | src/MigrationParser.js:204-228 | the groups glue back to the whole type; the name is a run of word characters; the arguments hold no `)`; the lazy groups leave no parenthesised list in the rest when the arguments are absent |
| Schema.SoftDeletesEffect | src/MigrationParser.js:265-272 | a timestamp `deleted_at` becomes the bare `softDeletes()` call; every other column and the key order are unchanged |
| Schema.TimestampsEffect | src/MigrationParser.js:274-288 | when both `created_at` and `updated_at` are timestamps, `updated_at` is removed and `created_at` becomes `timestamps()`, or `nullableTimestamps()` when nullable; otherwise nothing changes |
| Schema.RememberTokenEffect | src/MigrationParser.js:290-301 | a nullable `string` `remember_token` of length 100 becomes `rememberToken()`; every other column and the key order are unchanged |
| Schema.IdColumnsEffect | src/MigrationParser.js:303-321 | each column is replaced by its `id` form when it is an auto-increment `bigInteger` without arguments, and kept otherwise; the keys are unchanged |
| Schema.IdColumnsNoCandidate | src/MigrationParser.js:303-321 | after the pass, no auto-increment `bigInteger` column is left |
| Schema.RecogniseNamedRecognised | src/MigrationParser.js:265-301 | after the three named recognisers no column is left that any of them would still rewrite |
| Schema.IdColumnsNormalised | src/MigrationParser.js:303-321 | the `id` pass keeps a recognised table recognised and leaves it fully normalised |
| Schema.NormaliseIdempotent | src/MigrationParser.js:265-321 | the four recognisers leave a normalised table, and running them again changes nothing |
| Schema.RecogniseNamedIdempotent | ExportToLaravelMigration.spBundle/MigrationParser.php:126-166 | the PHP recognisers (no `id` pass) are idempotent |
| Schema.NormaliseFrame | src/MigrationParser.js:265-321 | a column with none of the four conventional names is only subject to the `id` rewrite |
| Schema.QuotedRoundTrip | ExportToLaravelMigration.spBundle/MigrationParser.php:262-264 | with the backslash doubled as well as the quote, PHP reads every value back from its literal, and the literal ends at its last quote |
| Schema.QuotedBackslashAsWritten | ExportToLaravelMigration.spBundle/MigrationParser.php:262-264 | as written, only `'` is escaped, so a lone backslash gives the literal `'\'`, whose closing quote reads as an escaped quote and never ends it |
| Schema.QuotedPlain | src/MigrationParser.js:590-606 | a value without a quote is only wrapped in quotes |
| Schema.EscapeListSingle | src/MigrationParser.js:590-606 | a single value is written bare when numeric and quoted otherwise, with no brackets |
| Schema.EscapeListBracketed | src/MigrationParser.js:590-606 | the list is bracketed exactly when it holds more than one value, and is empty for no values |
| Schema.EscapeListItem | src/MigrationParser.js:590-606 | every value the numeric test rejects is written as a quoted literal that PHP reads back as the value |
| JsColumns.ArgsOf | src/MigrationParser.js:221-228 | no group gives no arguments; a group with a comma gives the comma-separated list, which joins back to the group; any other group gives the text itself |
| JsColumns.TinyintOne | src/MigrationParser.js:648-658 | as written, `tinyint(1)` stays `tinyInteger`, because the string `'1'` is never `=== 1`; as intended, it becomes `boolean` with no arguments |
| JsColumns.HandleInteger | src/MigrationParser.js:627-658 | each integer type maps to its builder through `integerMaps` and carries the auto-increment and unsigned flags; it becomes `boolean` exactly for `tinyint(1)` |
| JsColumns.HandleDefined | src/MigrationParser.js:245-254 | a type has a handler exactly when it is one of the handled type names, and the handler then picks a Laravel `Blueprint` method, never the `UNKNOWN:` marker of an unhandled type |
| JsColumns.CommentOfClean | src/MigrationParser.js:256-259 | a kept comment holds no line break and no surrounding whitespace |
| JsColumns.StructureRowsLastWins | src/MigrationParser.js:205-261 | the structure holds, for each name, the column of the last row with that name, and no name twice |
| JsKeys.KeyMethodUniqueIndex | src/MigrationParser.js:442 | as written, the text `'0'` is truthy, so a unique key becomes `index`; as intended, it is `unique` |
| JsKeys.AddColumnEffect | src/MigrationParser.js:439-448 | a key row creates its index on first sight with the row's method and table; later rows only add or overwrite the column at their sequence number; other indexes and the key order are unchanged |
| JsKeys.AddColumnWellFormed | src/MigrationParser.js:439-448 | adding a column keeps every index's key names and sequence numbers unique |
| JsKeys.FulltextTwoColumns | src/MigrationParser.js:430-438 | as written, a second FULLTEXT row of the same index is dropped and only the first column is kept; as intended, both columns are kept in order |
| JsKeys.KeyLinesKeys | src/MigrationParser.js:408-448 | after the key rows, an index exists exactly when it existed or some row names it; an existing index keeps its method and table |
| JsKeys.KeyLinesFirstMethod | src/MigrationParser.js:439-448 | an index's method and table come from the first row that names it |
| JsKeys.KeyLinesWellFormed | src/MigrationParser.js:408-448 | the index and FULLTEXT tables stay free of duplicate names and sequence numbers |
| JsKeys.ElidePrimaryEffect | src/MigrationParser.js:451-464 | the `PRIMARY` index is dropped exactly when it is implied by an auto-increment column; every other index is unchanged |
| JsKeys.ConstraintLineGroups | src/MigrationParser.js:500-526 | a constraint row appends its reference to its constraint's group, and the index of that name is removed |
| JsKeys.ConstraintLinesGroups | src/MigrationParser.js:500-526 | after all rows, each constraint's group is its references in row order, and no index shares a constraint's name |
| JsRender.IntegerBuilder | src/MigrationParser.js:334-340 | an integer builder is written as its `increments` form when auto-increment, its `unsigned` form when unsigned, and as itself otherwise |
| JsRender.IntegerBuilders | src/MigrationParser.js:25-31 | for each of the five integer types, the rendered builder is `IncrementsMaps`, `UnsignedMaps` or `IntegerMaps` of the type |
| JsRender.AdjustedIdempotent | src/MigrationParser.js:334-348 | the write-back of the rendered builder and timestamp arguments is idempotent and keeps the builder and name |
| JsRender.TrimStringQuotesInfix | src/MigrationParser.js:763-768 | `trimStringQuotes` returns a slice of its input; everything cut off is quotes or whitespace; the result neither starts nor ends with whitespace |
| JsRender.TrimStringQuotesNoop | src/MigrationParser.js:763-768 | a value that neither starts nor ends with a quote or whitespace is unchanged |
| JsRender.ColumnLineWriteBack | src/MigrationParser.js:324-406 | the line written for a column is the same before and after the write-back into the structure |
| JsRender.ColumnLineShape | src/MigrationParser.js:350-362 | every column line starts with `$table->` and the rendered builder and ends with `;`; a whole-row call has an empty argument list |
| JsRender.ColumnLineComment | src/MigrationParser.js:397-400 | a commented column's line ends with `->comment('…');`, and the quoted text reads back as the comment |
| JsRender.IdColumnLine | src/MigrationParser.js:303-321 | an `id` auto-increment `bigint` with nothing else is written `$table->id();` |
| JsRender.IdColumnLineNamed | src/MigrationParser.js:303-321 | under any other name it is written `$table->id('<name>');` |
| JsRender.ClearedColumnLine | src/MigrationParser.js:350-362 | a column folded into a whole-row call with nothing of its own is written as the bare call |
| JsRender.AdjustAllKeeps | src/MigrationParser.js:324-406 | the write-back keeps the keys and the lines |
| JsRender.EscapeArrayBracketed | src/MigrationParser.js:590-606 | `escapeArray` brackets exactly lists of two or more values, and gives empty text for none |
| JsRender.EscapeArrayWord | src/MigrationParser.js:590-606 | a single value with a letter that is not a number character is quoted and not bracketed |
| JsRender.KeyLinesSkipPrimary | src/MigrationParser.js:467-481 | `#formatKeys` writes nothing for `PRIMARY`, and at most one line per index |
| JsRender.ExtraLinesAt | src/MigrationParser.js:483-498 | the `i`-th statement is ``ALTER TABLE `<table>` ADD FULLTEXT INDEX `<name>` (<columns>)`` of the `i`-th full-text index |
| JsRender.ColumnListOne | src/MigrationParser.js:609-616 | a single column is listed alone, in backquotes |
| JsRender.ConstraintLineColumns | src/MigrationParser.js:528-562 | a constraint line starts with `$table->foreign(` and its columns, its name and `->references(` and the referenced columns; each list is bracketed exactly for a composite key |
| JsRender.TableOptionLines | src/MigrationParser.js:576-588 | at most a charset line and a collation line, and both exactly when both are present |
| JsRender.TableOptionLinesText | src/MigrationParser.js:576-588 | the charset line `$table->charset = '<c>';` is written exactly when the character set is present, and first; the collation line exactly when the collation is present, and last |
| JsRender.ForeignPairs | src/MigrationParser.js:154-196 | the `i`-th up line adds the foreign key of the `i`-th kept row, on its column and referencing its column of its table; the `i`-th down line drops that key under Laravel's name `<table>_<column>_foreign` |
| JsRender.ForeignRowsAll | src/MigrationParser.js:154-196 | when every row of the listing has its five cells, every row is kept, in order |
| JsRender.Section | src/MigrationParser.js:67-87 | a section always ends with a line feed |
| JsRender.SectionOfLines | src/MigrationParser.js:67-87 | for lines with no whitespace at either end, a section is the lines joined by a line feed and the indent, plus a final line feed |
| JsRender.CollapseKeepsInk | src/MigrationParser.js:149 | the blank-line collapse removes only whitespace and never lengthens the text |
| JsRender.CollapseNoRun | src/MigrationParser.js:149 | text without a run of two blank lines is unchanged |
| JsRender.CreateFinds | src/MigrationParser.js:123-133 | the table template has eight placeholders, none empty |
| JsRender.ForeignFinds | src/MigrationParser.js:104-111 | the foreign-key template has five placeholders, none empty |
| JsParser.Rows | src/MigrationParser.js:201-202 | a listing's rows are its lines after the header, and hold no line feed |
| JsParser.TableOptionsRoundTrip | src/MigrationParser.js:564-588 | a listing whose first row holds a character set and a collation gives the migration a charset line exactly when the first cell is non-empty and a collation line exactly when the second is, each quoting its cell |
| JsParser.CreateReplacements | src/MigrationParser.js:134-146 | one replacement for each of the eight placeholders |
| JsParser.ForeignReplacements | src/MigrationParser.js:112-118 | one replacement for each of the five placeholders |
| JsParser.BuildAll | src/MigrationParser.js:59-63 | after the four builds, every constraint group is non-empty |
| JsParser.ConstraintLinesNonEmpty | src/MigrationParser.js:500-526 | constraint rows never leave an empty group |
| JsParser.FormatColumns | src/MigrationParser.js:327-405 | the loop over the columns gives exactly the lines `StructureLines` specifies and the written-back table `AdjustAll` |
| JsParser.MigrationParser.constructor | src/MigrationParser.js:41-57 | the parser keeps its table name, listings and mode, and starts with empty tables |
| JsParser.MigrationParser.BuildTableCollationAndCharset | src/MigrationParser.js:564-574 | the table options are read from the first row, and kept when there is none; nothing else changes |
| JsParser.MigrationParser.ReadStructure | src/MigrationParser.js:198-263 | the row loop leaves exactly the structure of the rows, later rows overriding earlier ones |
| JsParser.MigrationParser.RecogniseNamedColumns | src/MigrationParser.js:265-301 | the named recognisers rewrite the structure as specified, and change nothing else |
| JsParser.MigrationParser.IdentifyColumns | src/MigrationParser.js:303-321 | the `id` loop rewrites every candidate column, and changes nothing else |
| JsParser.MigrationParser.BuildStructure | src/MigrationParser.js:198-321 | the structure is the normalised structure of the rows, read with the table's options |
| JsParser.MigrationParser.BuildKeys | src/MigrationParser.js:408-465 | the index and FULLTEXT tables are those the key rows specify, with the implied primary key dropped |
| JsParser.MigrationParser.BuildConstraints | src/MigrationParser.js:500-526 | the constraint groups are those the rows specify, and an index of a constraint's name is dropped |
| JsParser.MigrationParser.FormatStructure | src/MigrationParser.js:324-406 | one line per column, in order, and the structure holds the written-back columns with the same keys |
| JsParser.MigrationParser.FormatKeys | src/MigrationParser.js:467-481 | one line per non-primary index, in order |
| JsParser.MigrationParser.FormatExtras | src/MigrationParser.js:483-498 | one raw `ALTER TABLE … ADD FULLTEXT` statement per FULLTEXT index |
| JsParser.MigrationParser.FormatConstraints | src/MigrationParser.js:528-562 | one `foreign` line per constraint group |
| JsParser.MigrationParser.FormatTableCollationAndCharset | src/MigrationParser.js:576-588 | the charset and collation lines of the present options |
| JsParser.MigrationParser.FormatForeign | src/MigrationParser.js:154-175 | one `foreign` line per row of the foreign-key listing |
| JsParser.MigrationParser.FormatForeignDrop | src/MigrationParser.js:177-196 | one `dropForeign` line per row of the foreign-key listing |
| JsParser.MigrationParser.Build | src/MigrationParser.js:59-63 | the four builds leave the state `BuildAll` describes |
| JsParser.MigrationParser.FillCreate | src/MigrationParser.js:121-147 | the table template with its eight placeholders replaced |
| JsParser.MigrationParser.FillForeign | src/MigrationParser.js:101-119 | the foreign-key template with its five placeholders replaced |
| JsParser.MigrationParser.MakeMigration | src/MigrationParser.js:59-152 | the migration is the template of the chosen mode, filled and with blank runs collapsed; the state is the built and written-back tables |
| PhpParser.PhpFile | ExportToLaravelMigration.spBundle/MigrationParser.php:85 | PHP's `file` keeps each line's line feed; the lines concatenate back to the contents |
| PhpParser.PhpRows | ExportToLaravelMigration.spBundle/MigrationParser.php:85-86 | the rows are the lines after the header |
| PhpParser.PhpTypeOf | ExportToLaravelMigration.spBundle/MigrationParser.php:92 | the PCRE type regex matches exactly when the type starts with a word character and has no line feed before its last character; the groups glue back to the type, without a final line feed |
| PhpParser.SplitTypeGlue | ExportToLaravelMigration.spBundle/MigrationParser.php:92 | with only the line feed as a line break, the split matches exactly types free of line feeds, and glues back to the type |
| PhpParser.PhpArgsOf | ExportToLaravelMigration.spBundle/MigrationParser.php:95-102 | arguments are none exactly when the group is absent or falsy (`''`, `'0'`); a group with a comma gives the list, which joins back to the group |
| PhpParser.PhpTinyintOne | ExportToLaravelMigration.spBundle/MigrationParser.php:309-319 | as written, `tinyint(1)` stays an integer builder; as intended, it becomes `boolean` |
| PhpParser.PhpHandleInteger | ExportToLaravelMigration.spBundle/MigrationParser.php:276-319 | each integer type drops its display width; it becomes `bigIncrements` or `increments` when auto-increment, keeps the unsigned flag, and becomes `boolean` exactly for `tinyint(1)` |
| PhpParser.PhpHandleDefined | ExportToLaravelMigration.spBundle/MigrationParser.php:111-120 | a type has a handler exactly when it is one of the PHP handler names, and the handler then picks a Laravel `Blueprint` method, never the `UNKNOWN:` marker |
| PhpParser.PhpStructureRowsLastWins | ExportToLaravelMigration.spBundle/MigrationParser.php:88-124 | for each name, the column of the last row with that name, and no name twice |
| PhpParser.PhpBuildStructure | ExportToLaravelMigration.spBundle/MigrationParser.php:81-167 | after `buildStructure` no column is left that a recogniser would still rewrite |
| PhpParser.PhpStructureLinesAt | ExportToLaravelMigration.spBundle/MigrationParser.php:169-195 | one line per column, in order |
| PhpParser.PhpClearedLine | ExportToLaravelMigration.spBundle/MigrationParser.php:181-183 | a whole-row call is written as the bare call |
| PhpParser.PhpArgsWritten | ExportToLaravelMigration.spBundle/MigrationParser.php:176-177 | truthy arguments are written as their comma-separated parts joined with `, ` |
| PhpParser.PhpFalsyDefaultDropped | ExportToLaravelMigration.spBundle/MigrationParser.php:187-189 | a default of `'0'` or `''` is falsy and not written |
| PhpParser.PhpIndexRowsListed | ExportToLaravelMigration.spBundle/MigrationParser.php:197-229 | the index table has unique names, every index lists at least one column, and every method is `primary`, `index` or `unique` |
| PhpParser.PhpNumericChars | ExportToLaravelMigration.spBundle/MigrationParser.php:264 | a PHP numeric string is non-empty and holds only whitespace and number characters |
| PhpParser.PhpEscapeArrayBracketed | ExportToLaravelMigration.spBundle/MigrationParser.php:258-274 | bracketed exactly for two or more values, and empty exactly for none |
| PhpParser.PhpIndexLinesAt | ExportToLaravelMigration.spBundle/MigrationParser.php:231-243 | one line per index, in order |
| PhpParser.PrimaryLineAsWritten | ExportToLaravelMigration.spBundle/MigrationParser.php:236-237 | as written, the primary line is `$table->primary(, '<col>');`, which is not valid PHP |
| PhpParser.PrimaryLineListed | ExportToLaravelMigration.spBundle/MigrationParser.php:236-237 | as intended, the primary line lists its column, quoted unless numeric and never bracketed |
| PhpParser.PhpIndexLineListed | ExportToLaravelMigration.spBundle/MigrationParser.php:235-239 | an index with columns is written with its method, its non-empty column list and its name |
| PhpParser.PhpStudlyHasNoSeparators | ExportToLaravelMigration.spBundle/MigrationParser.php:74-79 | the studly class name holds no `-`, `_` or space |
| PhpParser.PhpStrReplaceSnoc | ExportToLaravelMigration.spBundle/MigrationParser.php:65-69 | PHP's array `str_replace` applies the pairs one after another over the whole text |
| PhpParser.PhpFinds | ExportToLaravelMigration.spBundle/MigrationParser.php:66 | six placeholders, none empty |
| PhpParser.PhpSection | ExportToLaravelMigration.spBundle/MigrationParser.php:57-58 | a section always ends with a line feed |
| PhpParser.PhpReplacements | ExportToLaravelMigration.spBundle/MigrationParser.php:62-67 | one replacement per placeholder; the class is `Create<Studly>Table`; `@date` becomes empty text |
| PhpParser.PhpMigrationParser.constructor | ExportToLaravelMigration.spBundle/MigrationParser.php:42-47 | the parser keeps its table name and listings, and starts with empty tables |
| PhpParser.PhpMigrationParser.BuildStructure | ExportToLaravelMigration.spBundle/MigrationParser.php:81-167 | the row loop and recognisers leave exactly the structure `PhpBuildStructure` specifies |
| PhpParser.PhpMigrationParser.ColumnLineOf | ExportToLaravelMigration.spBundle/MigrationParser.php:173-191 | the line built step by step for one column |
| PhpParser.PhpMigrationParser.FormatStructure | ExportToLaravelMigration.spBundle/MigrationParser.php:169-195 | one line per column, in order |
| PhpParser.PhpMigrationParser.BuildIndexes | ExportToLaravelMigration.spBundle/MigrationParser.php:197-229 | the index table the rows specify; it is well formed and lists columns for every index |
| PhpParser.PhpMigrationParser.FormatIndexes | ExportToLaravelMigration.spBundle/MigrationParser.php:231-243 | one line per index, in order |
| PhpParser.PhpMigrationParser.MakeMigration | ExportToLaravelMigration.spBundle/MigrationParser.php:49-72 | the template with its six placeholders replaced from the built structure and indexes |
| JsScenarios.NormaliseOne | src/MigrationParser.js:265-321 | a single column with an ordinary name only goes through the `id` rewrite |
| JsScenarios.IdRow | src/MigrationParser.js:198-406 | a row `id`, `bigint(20)`, `auto_increment` with nothing else becomes `$table->id();` |
| JsScenarios.RememberTokenRow | src/MigrationParser.js:198-406 | a nullable `varchar(100)` `remember_token` row becomes `$table->rememberToken();` |
| JsScenarios.QuotedDefault | src/MigrationParser.js:380-395 | a short non-numeric default of a non-boolean column is written `->default('<value>')` |
| JsScenarios.EnumLine | src/MigrationParser.js:350-395 | an enum column is written with its name, its bracketed options joined by `, ` and its default |
| JsScenarios.EnumRow | src/MigrationParser.js:198-406 | a row `enum('yes','no')`, not null, whose default is a short plain word `d`, becomes `$table->enum('<name>', ['yes', 'no'])->default('d');` |
| JsScenarios.KeyRowIndex | src/MigrationParser.js:439-448 | one key row gives one index with that row's method, table and column |
| JsScenarios.KeyRow | src/MigrationParser.js:408-481 | one key row becomes `$table->unique(…)` when `Non_unique` is `0` or empty, and `$table->index(…)` otherwise |
| JsScenarios.ForeignKeyGroup | src/MigrationParser.js:500-526 | one constraint row gives one group and removes the index of its name |
| JsScenarios.ForeignKeyLine | src/MigrationParser.js:528-562 | a one-column constraint is written with its column, name, referenced column and table, and its delete and update rules |
| JsScenarios.ForeignKeyRow | src/MigrationParser.js:500-562 | one constraint row becomes one `foreign` line, with `onDelete` from the sixth cell and `onUpdate` from the fifth |

## Left out

- File and clipboard I/O: `file_get_contents`, `pbcopy` and `copyToClipboard` are not modelled. Listings and stubs are string parameters.
- The command-line front ends are not part of this model: `src/parse.js` and the bundle's command script.
- The wall-clock date is a parameter of the PHP `MakeMigration`.
- `method_exists`: reflection is replaced by an explicit match over the handler names.
- The regex engine: each regex is replaced by a hand-written matcher for the one pattern it is used with.
- `extractSize` in the PHP bundle is left out, because nothing calls it.
- `parseDoublePrecision`: the type name is a single `\w+` word, so the handler can never be reached. It is left out.
- JavaScript object key order: integer-like keys, such as a column named `1`, are listed first by a JavaScript object. The model keeps plain insertion order for every key.
- Rows with too few cells are skipped by the model, including the empty last line of a listing that ends in a line feed. The port does not skip them. A short row of the column or foreign-key listing throws, because a missing cell is `undefined` and a string method is called on it. A short row of the key listing is kept: it creates an index named `undefined` with method `unique`. In PHP, `list()` fills the missing cells with null and the row goes on.
- JsKeys.ConstraintLine: a short row of the constraint listing (src/MigrationParser.js:505-524) does not throw under the reading of :515 above. It deletes the index named by its first cell and appends to that cell's group a reference whose missing cells are `undefined`; the empty last line of the listing does so under the name `''`. The model skips such a row, so it neither deletes that index nor creates or extends that group. How `#formatConstraints` then writes the `undefined` cells is not modelled.
- JsKeys.PrimaryIsImplicit: a `PRIMARY` key on a column that is not in the structure is kept. The port throws there, reading `args` of `undefined` (src/MigrationParser.js:457-459).
- Strings.ToUpper: case mapping is ASCII only. JavaScript `toUpperCase` maps every cased character: `é` becomes `É`, and `ß` becomes `SS`, which lengthens the text. PHP's `ucfirst` and `ucwords` are ASCII, so the PHP side agrees.
- Helpers.Ucfirst: ASCII only, as above. A table named `élan` gets the class `CreateélanTable` here and `CreateÉlanTable` from the port.
- Helpers.UcwordsCapitalises: ASCII only; under JavaScript's full case mapping the length is not always kept.
- JsRender.DefaultPart: the `CURRENT_TIMESTAMP` test upper-cases with ASCII case mapping. A default such as `current_timeﬆamp` is quoted here, while the port upper-cases it to contain `CURRENT_TIMESTAMP` and writes `DB::raw(…)`.
- JsColumns.ParseTimestamp: the `on update CURRENT_TIMESTAMP` test upper-cases with ASCII case mapping only.
- JsScenarios.QuotedDefault: its length bound keeps `CURRENT_TIMESTAMP` out only under ASCII case mapping; for the 16-character default `current_timeﬆamp` the port writes `DB::raw(…)`.
- Helpers.IsNumeric: floating-point overflow is not modelled. `1e400` is numeric here, while JavaScript `isFinite` rejects it, because it overflows to Infinity.
- Schema.EscapeQuotes: doubles a backslash as well as escaping the quote, which the source does not do; see "## Findings".
- JsScenarios.IdRow: states the rendered line for generic cells that meet its conditions, not for one literal row text.
- JsScenarios.RememberTokenRow: the same, over generic cells.
- JsScenarios.EnumRow: the same, over generic cells.
- JsScenarios.KeyRow: the same, over generic cells.
- JsScenarios.ForeignKeyRow: the same, over generic cells.
- JsRender.CreateFinds: states the number of placeholders, not their text. The text is the function's value.
- PhpParser.PhpFinds: states the number of placeholders, not their text. The text is the function's value.

## Findings

| source | as written | input that shows it | evidently intended | confidence | as-written member | corrected member |
|---|---|---|---|---|---|---|
| src/MigrationParser.js:442 | `nonUnique ? 'index' : 'unique'` tests the text cell, and `'0'` is truthy in JavaScript | a key row with `Non_unique` = `0` | `unique` for `0` | high, not executed | JsKeys.KeyMethodAsWritten | JsKeys.KeyMethodUniqueIndex |
| src/MigrationParser.js:649 | `args === 1` compares the text `'1'` with a number | `tinyint(1)` | `boolean` | high, not executed | JsColumns.ParseTinyintAsWritten | JsColumns.TinyintOne |
| ExportToLaravelMigration.spBundle/MigrationParser.php:311 | `$args === 1` compares the text `'1'` with a number | `tinyint(1)` | `boolean` | high, not executed | PhpParser.PhpParseTinyintAsWritten | PhpParser.PhpTinyintOne |
| src/MigrationParser.js:430-438 | a FULLTEXT row is stored only when its key name is new, so later columns are dropped | two FULLTEXT rows of one key | every column listed | medium, not executed | JsKeys.FulltextRowAsWritten | JsKeys.FulltextTwoColumns |
| ExportToLaravelMigration.spBundle/MigrationParser.php:213-215 | the primary entry stores no `columns`, so the line is `primary(, 'col')` | a `PRIMARY` row on a non-increments column | `primary('col', 'col')` | high, not executed | PhpParser.PrimaryLineAsWritten | PhpParser.PrimaryLineListed |
| src/helpers.js:61 | `typeof data === 'array'` never holds, so a list is wrapped and joined with `,` | `enum('a','b')` | `'a', 'b'` | high, not executed | Helpers.ToArrayAsWritten | Helpers.ToArrayEnumArgs |
| src/helpers.js:40-44 | `str_replace` indexes the scalar replacement, giving `undefined` | `a_b` | `AB` | high, not executed | Helpers.StudlyUnderscoreAsWritten | Helpers.StudlyUnderscore |
| ExportToLaravelMigration.spBundle/MigrationParser.php:262-264 | `str_replace('\'', '\\\'', $value)` escapes the quote but not the backslash | a value `\` or `a\` | a backslash doubled, so the literal reads back | medium, not executed | Schema.QuotedBackslashAsWritten | Schema.QuotedRoundTrip |
