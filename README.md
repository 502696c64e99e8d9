# SchemaCrawler JSON converters, in Dafny

This project models the three Python scripts under `schemacrawler/` that turn a
SchemaCrawler JSON export into something a person reads:

- `json_dbml_converter.py` turns the export into a dbdiagram.io DBML document.
  It builds an index of every object by its `@uuid` and unwraps `java.util`
  tagged containers. It then emits one `Table` block per table and puts every
  `Ref:` line after the blocks. Each block has its columns sorted by ordinal,
  then the column attributes, the note, and the `indexes` block with the
  composite primary key and the unique indexes.
- `convert_schemacrawler_to_dbml.py` is the older converter. It indexes objects
  whose `@uuid` is a string, and groups the columns of `all-table-columns` by
  the `schema.table` prefix of their `full-name`. It then emits the tables in
  sorted order, with blacklist-based identifier quoting and SQL-aware quoting
  of defaults.
- `data_dict_converter.py` flattens the column list into data-dictionary rows.
  A first pass maps the uuid of every inline data type to its name, the first
  definition winning. A second pass makes one row per column.

The decoded JSON document is the input (`JsonValue.Json`). An object keeps its
members in document order. Python's truthiness, `dict.get`, iteration, `len`,
`str()` and dictionary keys are written out as functions. A Python exception is
the `Err` case of `Result`, with the exception class. Each model raises it
where CPython raises: a `.get` on a non-dict, a list used as a dictionary key,
iteration of an int, `['name']` on a column that lacks it, and so on.

The modules follow the scripts:

| module | file | role |
|---|---|---|
| `Text` | `text.dfy` | the `str` methods the scripts use: `strip`, `split`, `startswith`, `replace`, `join` |
| `JsonValue` | `json_value.dfy` | the JSON value, Python's operations on it, the object walk, last-write-wins dictionaries |
| `JsonDbml`, `JsonDbmlConvert`, `JsonDbmlProperties` | `json_dbml*.dfy` | `json_dbml_converter.py`: functions, methods with the program's loops and mutations, properties |
| `LegacyDbml`, `LegacyDbmlConvert`, `LegacyDbmlProperties` | `legacy_dbml*.dfy` | `convert_schemacrawler_to_dbml.py`, in the same three layers |
| `DataDict`, `DataDictConvert`, `DataDictProperties` | `data_dict*.dfy` | `data_dict_converter.py`, in the same three layers |

In each group, the first module defines every operation as a function of its
inputs. The `...Convert` module runs the operation as the script does:
- the recursive uuid walks are methods of a class whose `index`/`entries` map
  field they update;
- the loops that append to `out_lines`, `refs`, `attrs`, `opts`, `index_lines`,
  `tables`, `lines`, `type_map` and `processed_rows` are `while` loops.

Each method is proved to compute exactly the function: the same value, or the
same exception. The `...Properties` module proves what the scripts promise
about those functions.

## Model

| member | source | states |
|---|---|---|
| Text.Strip | schemacrawler/json_dbml_converter.py:72 | `str.strip()` gives a part of its input with only whitespace before and after it, that itself neither starts nor ends with whitespace |
| Text.StripLeft | schemacrawler/convert_schemacrawler_to_dbml.py:79 | the leading half of `strip()`: only whitespace is removed, from the front, up to the first other character |
| Text.StripRight | schemacrawler/convert_schemacrawler_to_dbml.py:79 | the trailing half of `strip()`: only whitespace is removed, from the back, up to the last other character |
| Text.ReplaceCharPointwise | schemacrawler/json_dbml_converter.py:49 | `replace` of one character by another keeps the length and changes exactly the occurrences |
| Text.Split | schemacrawler/data_dict_converter.py:54 | `split(c)` gives one piece more than there are separators |
| Text.SplitJoin | schemacrawler/data_dict_converter.py:54 | joining the pieces with the separator gives the text back, and no piece holds the separator |
| Text.SplitFirst | schemacrawler/convert_schemacrawler_to_dbml.py:106 | the text before the first separator and the rest, which put back together give the text |
| Text.SplitFirstIsFirstPiece | schemacrawler/convert_schemacrawler_to_dbml.py:106 | the first piece of `SplitFirst` is the first piece of `split`, and splitting the rest gives the other pieces |
| Text.LessIrreflexive | schemacrawler/convert_schemacrawler_to_dbml.py:122 | no str is below itself in Python's str order |
| Text.LessTransitive | schemacrawler/convert_schemacrawler_to_dbml.py:122 | the str order is transitive |
| Text.LessTotal | schemacrawler/convert_schemacrawler_to_dbml.py:122 | two different strs are ordered one way or the other |
| Text.LessAsymmetric | schemacrawler/convert_schemacrawler_to_dbml.py:122 | two strs are never each below the other |
| Text.UndoubleAfterDouble | schemacrawler/json_dbml_converter.py:101 | doubling every `'` can be undone, so a note reads back to its text |
| Text.DoubledQuotesPaired | schemacrawler/json_dbml_converter.py:101 | read left to right, every `'` of a doubled text opens a `''` pair, so no single quote of the note ends the literal |
| Text.UnescapeAfterEscape | schemacrawler/convert_schemacrawler_to_dbml.py:83 | escaping every `"` as `\"` loses nothing: unescaping the escaped text gives the text back |
| Text.EscapedQuotesPreceded | schemacrawler/convert_schemacrawler_to_dbml.py:83 | every `"` of an escaped text is preceded by a backslash |
| Text.EscapedDoesNotStartWithQuote | schemacrawler/convert_schemacrawler_to_dbml.py:83 | an escaped text never starts with a bare `"` |
| JsonValue.Len | schemacrawler/data_dict_converter.py:18 | `len()` succeeds exactly when iteration does, and is then the number of items iterated |
| JsonDbml.UuidWrites | schemacrawler/json_dbml_converter.py:19-28 | the walk makes at most one write per object, each pairing a visited object with its own truthy `@uuid` |
| JsonDbml.UuidWritesCover | schemacrawler/json_dbml_converter.py:21-23 | every visited object with a truthy `@uuid` produces a write |
| JsonDbml.ResolveDatatype | schemacrawler/json_dbml_converter.py:30-37 | the resolved type name is never a false value |
| JsonDbml.SanitizeAll | schemacrawler/json_dbml_converter.py:120 | the names are sanitized exactly when each is `None` or a string, and then the i-th text is the i-th name sanitized; otherwise the join raises `TypeError` |
| JsonDbml.TableObjects | schemacrawler/json_dbml_converter.py:52-53 | the table list keeps at most one object per entry, and none is empty; the exact contents and errors are in `TableObjectsExact` |
| JsonDbml.FindColumns | schemacrawler/json_dbml_converter.py:75 | at most one column per column id; the exact contents and errors are in `FindColumnsExact` |
| JsonDbml.ColumnNames | schemacrawler/json_dbml_converter.py:83 | at most one name per column id; the exact contents are in `ColumnNamesExact`, the errors in `ColumnNamesError` |
| JsonDbmlProperties.ColumnNamesExact | schemacrawler/json_dbml_converter.py:83 | the names exist exactly when every id is hashable and names no column without a `name`; they are then exactly the `name` fields of the indexed columns the ids name |
| JsonDbmlProperties.ColumnNamesError | schemacrawler/json_dbml_converter.py:83 | a failure comes from the first id that does not resolve: `TypeError` for a list or object id, `KeyError` for a column without a `name` |
| JsonDbml.InsertByKey | schemacrawler/json_dbml_converter.py:76 | inserting a column gives the old columns plus that one, as a multiset |
| JsonDbml.SortByKey | schemacrawler/json_dbml_converter.py:76 | the sort gives a permutation of the columns |
| JsonDbml.ColumnLines | schemacrawler/json_dbml_converter.py:86-104 | the lines exist exactly when no column fails, and are then one line per column, the i-th being the line of the i-th column |
| JsonDbml.IndexEntries | schemacrawler/json_dbml_converter.py:112 | at most one index entry per constraint id; the exact contents are in `IndexEntriesAreIndexes`, the errors in `IndexEntriesError` |
| JsonDbml.UniqueIndexLines | schemacrawler/json_dbml_converter.py:123-133 | at most one `[unique]` line per index entry; which index gives a line, and its shape, are in `UniqueIndexLineKept` and `UniqueIndexLinesShape` |
| JsonDbml.RefLines | schemacrawler/json_dbml_converter.py:151-167 | at most one `Ref:` line per column reference; which reference is dropped is in `RefLineDropped`, the line shape in `RefLinesAreRefs` |
| JsonDbmlConvert.UuidCollector.constructor | schemacrawler/json_dbml_converter.py:58 | the uuid map starts empty |
| JsonDbmlConvert.UuidCollector.Collect | schemacrawler/json_dbml_converter.py:19-28 | succeeds exactly when every truthy `@uuid` of the tree can be a key; then the map is the old map with the walk's writes applied in visiting order |
| JsonDbmlConvert.UuidCollector.CollectObject | schemacrawler/json_dbml_converter.py:20-25 | the dict branch: the object's own write, then the writes under each member value, in member order |
| JsonDbmlConvert.UuidCollector.CollectItems | schemacrawler/json_dbml_converter.py:26-28 | the list branch: the writes under each item, in order |
| JsonDbmlConvert.BuildColumnLine | schemacrawler/json_dbml_converter.py:87-104 | computes the column line whose attributes `ColumnAttrsKeys` and `ColumnNoteRoundTrip` describe, or its exception |
| JsonDbmlConvert.AppendAttrs | schemacrawler/json_dbml_converter.py:89-102 | the appends build the attribute list whose order `AttrListOrder` proves |
| JsonDbmlConvert.BuildColumnLines | schemacrawler/json_dbml_converter.py:86-104 | the loop over the sorted columns gives their lines in order, or the first exception |
| JsonDbmlConvert.BuildUniqueIndexLines | schemacrawler/json_dbml_converter.py:123-133 | the loop over the index entries gives the kept `[unique]` lines in order, or the first exception |
| JsonDbmlConvert.BuildRefLine | schemacrawler/json_dbml_converter.py:152-167 | one column reference: both column names, then the pair's line or nothing, as `RefLineDropped` characterizes |
| JsonDbmlConvert.BuildRefPair | schemacrawler/json_dbml_converter.py:156-167 | the rule options and then the self-reference check and the `Ref:` line |
| JsonDbmlConvert.BuildRefChecked | schemacrawler/json_dbml_converter.py:163-167 | a pair that refers to itself gives no line, otherwise the `Ref:` line |
| JsonDbmlConvert.BuildRefRules | schemacrawler/json_dbml_converter.py:156-157 | the delete and update rules of a foreign key, read from their tagged pairs |
| JsonDbmlConvert.BuildRefText | schemacrawler/json_dbml_converter.py:166-167 | the sanitized qualified names and the `Ref:` line |
| JsonDbmlConvert.AppendRefOptions | schemacrawler/json_dbml_converter.py:158-162 | the appends build the options whose order `RefOptionsOrder` proves |
| JsonDbmlConvert.BuildRefLines | schemacrawler/json_dbml_converter.py:151-167 | the loop over a foreign key's column references gives the kept lines in order, or the first exception |
| JsonDbmlConvert.BuildForeignKeyRefs | schemacrawler/json_dbml_converter.py:145-147 | an entry is resolved to its foreign key, and one that is missing, empty or not a dict is skipped |
| JsonDbmlConvert.BuildForeignKeyLines | schemacrawler/json_dbml_converter.py:148-167 | the referenced table's name, then the lines of the column references |
| JsonDbmlConvert.BuildTableRefs | schemacrawler/json_dbml_converter.py:143-167 | the unwrapped foreign-key entries of a table, then their lines |
| JsonDbmlConvert.BuildAllForeignKeyRefs | schemacrawler/json_dbml_converter.py:144-167 | the loop over a table's foreign keys gives all their lines in order, or the first exception |
| JsonDbmlConvert.BuildTable | schemacrawler/json_dbml_converter.py:71-167 | the lines one table appends to `out_lines` and to `refs` |
| JsonDbmlConvert.BuildTableOutput | schemacrawler/json_dbml_converter.py:85-167 | the header, column, note and index lines, then the table's `Ref:` lines |
| JsonDbmlConvert.AppendTableLines | schemacrawler/json_dbml_converter.py:85-140 | the block is the header, the column lines, the note, the `indexes` block when it has lines, then `}` |
| JsonDbmlConvert.BuildIndexLines | schemacrawler/json_dbml_converter.py:111-133 | `index_lines`: the composite primary-key line first, then the unique-index lines |
| JsonDbmlConvert.ConvertToDbml | schemacrawler/json_dbml_converter.py:55-169 | the whole conversion of a decoded document: the uuid map, the tables and the joined text, or the exception, with the corrected identifier rule (see Left out) |
| JsonDbmlConvert.BuildDocument | schemacrawler/json_dbml_converter.py:61-169 | the conversion once the uuid map is built: the table list, `col_by_id` and the rendered tables |
| JsonDbmlConvert.RenderTables | schemacrawler/json_dbml_converter.py:68-169 | the table lines followed by the reference lines, joined by newlines |
| JsonDbmlConvert.BuildTables | schemacrawler/json_dbml_converter.py:68-167 | the loop over the tables accumulates every block's lines and references in table order, or the first exception |
| JsonDbmlProperties.UnwrapChangesOnlyContainers | schemacrawler/json_dbml_converter.py:13-17 | `unwrap` changes a value exactly when it is a list of two or more items whose first is a str starting with `java.util`, and then gives the second item |
| JsonDbmlProperties.UnwrapIdempotentIff | schemacrawler/json_dbml_converter.py:16-17 | unwrapping twice equals unwrapping once exactly when the payload is not itself a tagged container |
| JsonDbmlProperties.UnwrapNestedContainer | schemacrawler/json_dbml_converter.py:16-17 | a container nested in a container shows that `unwrap` is not idempotent |
| JsonDbmlProperties.UuidMapCovers | schemacrawler/json_dbml_converter.py:19-28 | every dict anywhere in the tree with a truthy `@uuid` is in the map |
| JsonDbmlProperties.UuidMapKeys | schemacrawler/json_dbml_converter.py:19-28 | the keys of the map are exactly the truthy `@uuid`s of the visited dicts |
| JsonDbmlProperties.UuidMapLastWins | schemacrawler/json_dbml_converter.py:22-23 | a uuid carried by several dicts maps to the one visited last |
| JsonDbmlProperties.ResolveDatatypePriority | schemacrawler/json_dbml_converter.py:30-37 | an inline dict, or a str uuid naming a non-empty object, gives the first true of `name`, `database-specific-type-name`, `full-name`, else `varchar`; anything else gives `varchar` |
| JsonDbmlProperties.ResolvedTypeNotEmpty | schemacrawler/json_dbml_converter.py:30-37 | the rendered column type is never the empty text |
| JsonDbmlProperties.SanitizeIdentifierIff | schemacrawler/json_dbml_converter.py:39-44 | a name comes back unchanged exactly when it is a plain identifier (`[A-Za-z_][A-Za-z0-9_]*`), otherwise in backticks |
| JsonDbmlProperties.SanitizeIdentifierRoundTrip | schemacrawler/json_dbml_converter.py:42-44 | reading the emitted identifier back gives the name |
| JsonDbmlProperties.SanitizeIdentifierNonString | schemacrawler/json_dbml_converter.py:40-42 | `None` gives `''`, and exactly the other non-str values raise |
| JsonDbmlProperties.SanitizeAsWrittenDiffers | schemacrawler/json_dbml_converter.py:42 | the pattern as written differs from a whole-name match exactly on a plain identifier followed by one newline |
| JsonDbmlProperties.SanitizeAsWrittenKeepsNewline | schemacrawler/json_dbml_converter.py:42 | `"users\n"` is emitted bare by the pattern as written and in backticks by the corrected one |
| JsonDbmlProperties.FormatDefaultShape | schemacrawler/json_dbml_converter.py:46-50 | `None` and `''` give no default; any other value gives `str(val)` with newlines turned into spaces, between backticks, on one line |
| JsonDbmlProperties.KeyLeqReflexive | schemacrawler/json_dbml_converter.py:76 | every comparable sort key is at most itself |
| JsonDbmlProperties.KeyLeqTotal | schemacrawler/json_dbml_converter.py:76 | two keys of the same kind are ordered one way or the other |
| JsonDbmlProperties.KeyLeqTransitive | schemacrawler/json_dbml_converter.py:76 | the order on keys of one kind is transitive |
| JsonDbmlProperties.SortByKeySorted | schemacrawler/json_dbml_converter.py:76 | the sorted columns are in ascending key order |
| JsonDbmlProperties.SortByKeyStable | schemacrawler/json_dbml_converter.py:76 | columns with equal keys keep their relative order |
| JsonDbmlProperties.SortColumnsCorrect | schemacrawler/json_dbml_converter.py:76 | the sort succeeds exactly when the ordinals can be compared, and then gives a permutation, ascending and stable |
| JsonDbmlProperties.MissingOrdinalIsZero | schemacrawler/json_dbml_converter.py:76 | a column without `ordinal-position` sorts as 0 |
| JsonDbmlProperties.TableObjectsExact | schemacrawler/json_dbml_converter.py:52-63 | the table list holds exactly the non-empty objects the entries name, inline or through `uuid_map`, and raises `TypeError` exactly when some entry is a list |
| JsonDbmlProperties.FindColumnsExact | schemacrawler/json_dbml_converter.py:75 | a table's columns are exactly the indexed columns its ids name, and the lookup fails exactly when an id cannot be a key |
| JsonDbmlProperties.AttrListOrder | schemacrawler/json_dbml_converter.py:89-102 | attributes come in the order `pk`, `not null`, `unique`, `default`, `note`, each at most once |
| JsonDbmlProperties.AttrListMembers | schemacrawler/json_dbml_converter.py:90-95 | each keyword attribute is present exactly when its condition holds |
| JsonDbmlProperties.ColumnAttrsKeys | schemacrawler/json_dbml_converter.py:90-95 | `pk` exactly for the name of a one-column primary key, `not null` exactly for a false `nullable`, `unique` exactly for a unique column that is no primary-key column |
| JsonDbmlProperties.ColumnNoteRoundTrip | schemacrawler/json_dbml_converter.py:99-102 | a non-blank remark gives the last attribute, `note: '` + t + `'`, where every `'` of t opens a `''` pair and reading t back gives the stripped remark |
| JsonDbmlProperties.TableNoteRoundTrip | schemacrawler/json_dbml_converter.py:106-108 | a blank table remark gives no line; any other gives one `  Note: '` + t + `'` line, where every `'` of t opens a `''` pair and t reads back as the remark |
| JsonDbmlProperties.PkLineIsNotUniqueLine | schemacrawler/json_dbml_converter.py:121-133 | no line is both a `[pk]` line and a `[unique]` line |
| JsonDbmlProperties.UniqueIndexLineKept | schemacrawler/json_dbml_converter.py:123-133 | an index gives a line exactly when it is unique, has columns and is not the primary key, and that line is a `[unique]` line |
| JsonDbmlProperties.IndexEntriesAreIndexes | schemacrawler/json_dbml_converter.py:112 | the entries exist exactly when every id is hashable and every indexed object it names has a string `@class`; they are then exactly the indexed objects the ids name whose `@class` ends in `MutableIndex` |
| JsonDbmlProperties.IndexEntriesError | schemacrawler/json_dbml_converter.py:112 | a failure comes from the first id that cannot be read: `TypeError` for a list or object id, `AttributeError` for an object whose `@class` is not a string |
| JsonDbmlProperties.UniqueIndexLinesShape | schemacrawler/json_dbml_converter.py:123-133 | every line of the loop is a `[unique]` line |
| JsonDbmlProperties.PkIndexLinesShape | schemacrawler/json_dbml_converter.py:115-121 | there is at most one `[pk]` line, and one exactly when the primary key has more than one column id |
| JsonDbmlProperties.PkLinesFirst | schemacrawler/json_dbml_converter.py:113-133 | in `index_lines`, every `[pk]` line comes before every `[unique]` line |
| JsonDbmlProperties.IndexBlockOrder | schemacrawler/json_dbml_converter.py:111-138 | the `indexes` block is emitted exactly when there are index lines, which are `[pk]` lines before `[unique]` lines |
| JsonDbmlProperties.RefLineDropped | schemacrawler/json_dbml_converter.py:152-165 | a pair is dropped exactly when a column name is missing or false, or it refers from a column to the same column of the same table |
| JsonDbmlProperties.RefPairDropped | schemacrawler/json_dbml_converter.py:164-165 | once both names are set, a pair is dropped exactly when it refers to itself |
| JsonDbmlProperties.RefOptionsOrder | schemacrawler/json_dbml_converter.py:158-163 | only the rules that are set appear, `delete` before `update` |
| JsonDbmlProperties.RefLineIsRef | schemacrawler/json_dbml_converter.py:166-167 | a kept pair gives a `Ref: ` line |
| JsonDbmlProperties.RefTextIsRef | schemacrawler/json_dbml_converter.py:166-167 | the reference text always starts with `Ref: ` |
| JsonDbmlProperties.RefLinesAreRefs | schemacrawler/json_dbml_converter.py:151-167 | every line of a foreign key is a `Ref: ` line |
| JsonDbmlProperties.ForeignKeyRefsAreRefs | schemacrawler/json_dbml_converter.py:144-167 | every line of a table's foreign keys is a `Ref: ` line |
| JsonDbmlProperties.ColumnLineIndented | schemacrawler/json_dbml_converter.py:104 | a column line starts with two spaces |
| JsonDbmlProperties.ColumnLinesIndented | schemacrawler/json_dbml_converter.py:86-104 | every column line starts with two spaces |
| JsonDbmlProperties.TableLinesShape | schemacrawler/json_dbml_converter.py:85-140 | a block is one `Table` header, then body lines ending with `}` |
| JsonDbmlProperties.TableIndexLinesIndented | schemacrawler/json_dbml_converter.py:111-133 | every index line starts with two spaces |
| JsonDbmlProperties.TableRefsAreRefs | schemacrawler/json_dbml_converter.py:143-167 | every reference a table adds is a `Ref: ` line |
| JsonDbmlProperties.TableOutputShape | schemacrawler/json_dbml_converter.py:85-167 | a table's output is a well-shaped block, and its references are `Ref: ` lines |
| JsonDbmlProperties.TableBlockShape | schemacrawler/json_dbml_converter.py:70-167 | the same for a table read from the catalog |
| JsonDbmlProperties.EmitTablesHeaders | schemacrawler/json_dbml_converter.py:70-140 | the table lines hold one `Table` header per table |
| JsonDbmlProperties.EmitTablesNoRefs | schemacrawler/json_dbml_converter.py:70-140 | no table line is a `Ref:` line |
| JsonDbmlProperties.EmitTablesAllRefs | schemacrawler/json_dbml_converter.py:142-167 | every reference line is a `Ref:` line |
| JsonDbmlProperties.EmitTablesShape | schemacrawler/json_dbml_converter.py:68-167 | one header per table, no `Ref:` among the table lines, only `Ref:` lines among the references |
| JsonDbmlProperties.ConvertRefsLast | schemacrawler/json_dbml_converter.py:61-169 | the document is the lines emitted for the tables its catalog lists, then their reference lines: the table lines hold one header per table and no `Ref:` line, and all later lines are `Ref:` lines |
| LegacyDbml.IndexWrites | schemacrawler/convert_schemacrawler_to_dbml.py:22-31 | the walk makes at most one write per object, each pairing a visited object with its own str `@uuid` |
| LegacyDbml.IndexWritesCover | schemacrawler/convert_schemacrawler_to_dbml.py:23-26 | every visited object whose `@uuid` is a str produces a write |
| LegacyDbml.SplitFullName | schemacrawler/convert_schemacrawler_to_dbml.py:106 | `split(".", 2)` of a name with two dots or more: the pieces joined by dots are the name, and the first two hold no dot |
| LegacyDbml.AddEntry | schemacrawler/convert_schemacrawler_to_dbml.py:119 | appending to `tables[key]` keeps the grouping valid: the insertion order lists exactly the keys of `tables`, each once |
| LegacyDbml.GroupAll | schemacrawler/convert_schemacrawler_to_dbml.py:99-119 | grouping every kept entry gives a valid grouping |
| LegacyDbml.Collect | schemacrawler/convert_schemacrawler_to_dbml.py:99-119 | the collecting loop's grouping is valid |
| LegacyDbml.InsertKey | schemacrawler/convert_schemacrawler_to_dbml.py:122 | inserting a key gives the old keys plus that one, as a multiset |
| LegacyDbml.SortKeys | schemacrawler/convert_schemacrawler_to_dbml.py:122 | sorting gives a permutation of the keys |
| LegacyDbml.SortedItems | schemacrawler/convert_schemacrawler_to_dbml.py:122 | one item per table |
| LegacyDbmlConvert.UuidIndexer.constructor | schemacrawler/convert_schemacrawler_to_dbml.py:21 | the index starts empty |
| LegacyDbmlConvert.UuidIndexer.Walk | schemacrawler/convert_schemacrawler_to_dbml.py:22-31 | `walk(o)` leaves the index as the old one with the walk's writes applied in visiting order |
| LegacyDbmlConvert.UuidIndexer.WalkObject | schemacrawler/convert_schemacrawler_to_dbml.py:23-28 | the dict branch: the object's own write when its `@uuid` is a str, then each member value |
| LegacyDbmlConvert.UuidIndexer.WalkItems | schemacrawler/convert_schemacrawler_to_dbml.py:29-31 | the list branch: each item in turn |
| LegacyDbmlConvert.BuildIndex | schemacrawler/convert_schemacrawler_to_dbml.py:19-33 | `index_by_uuid(obj)` returns the index whose keys and values `IndexKeysAreUuids`, `IndexCovers` and `IndexLastWins` describe |
| LegacyDbmlConvert.GroupColumns | schemacrawler/convert_schemacrawler_to_dbml.py:99-119 | the loop appends each kept column's entry to its table, giving the grouping `GroupAllTables` describes, or the first exception |
| LegacyDbmlConvert.AppendLegacyAttrs | schemacrawler/convert_schemacrawler_to_dbml.py:126-136 | the appends build the attribute list whose order and members `LegacyAttrsOrder` and `LegacyAttrsMembers` prove |
| LegacyDbmlConvert.BuildEntryLine | schemacrawler/convert_schemacrawler_to_dbml.py:126-141 | one column line, or the exception `EntryLineErrors` names |
| LegacyDbmlConvert.BuildTableLines | schemacrawler/convert_schemacrawler_to_dbml.py:123-142 | a table block: the header, one line per column in order, then `}` |
| LegacyDbmlConvert.EmitLines | schemacrawler/convert_schemacrawler_to_dbml.py:121-142 | the loop over the sorted tables gives their blocks in order, or the first exception |
| LegacyDbmlConvert.RenderDbml | schemacrawler/convert_schemacrawler_to_dbml.py:99-144 | once the columns are known: collect, sort, emit and join with newlines |
| LegacyDbmlConvert.BuildDbml | schemacrawler/convert_schemacrawler_to_dbml.py:94-144 | `to_dbml(input_json)`: the index, the column list (empty unless `all-table-columns` is a list of two or more), then the rendered text |
| LegacyDbmlProperties.IndexValues | schemacrawler/convert_schemacrawler_to_dbml.py:24-26 | every indexed value is one of the walked objects, under the str `@uuid` it carries |
| LegacyDbmlProperties.IndexKeysAreUuids | schemacrawler/convert_schemacrawler_to_dbml.py:19-33 | the index holds only str keys, each mapped to a visited object whose `@uuid` is that key |
| LegacyDbmlProperties.IndexCovers | schemacrawler/convert_schemacrawler_to_dbml.py:19-33 | every visited object with a str `@uuid` is indexed under it |
| LegacyDbmlProperties.IndexCoversNested | schemacrawler/convert_schemacrawler_to_dbml.py:27-31 | an object with a str `@uuid` nested anywhere under a visited object is indexed too |
| LegacyDbmlProperties.IndexWritesLastWins | schemacrawler/convert_schemacrawler_to_dbml.py:26 | an object that no later object shares its uuid with is what the index holds |
| LegacyDbmlProperties.IndexLastWins | schemacrawler/convert_schemacrawler_to_dbml.py:19-33 | a uuid shared by several objects maps to the one visited last |
| LegacyDbmlProperties.SafeIdentIff | schemacrawler/convert_schemacrawler_to_dbml.py:40-43 | a str comes back unchanged exactly when it holds no space, `-`, `.`, `:`, `/`, backslash, backtick or quote, otherwise it is double-quoted |
| LegacyDbmlProperties.SafeIdentOtherValues | schemacrawler/convert_schemacrawler_to_dbml.py:38-41 | `None` gives `""`, and only an int or a bool raises (`TypeError`) |
| LegacyDbmlProperties.HeaderAlwaysQuoted | schemacrawler/convert_schemacrawler_to_dbml.py:123-124 | a table name always holds the `.` between schema and table, so the header always double-quotes it |
| LegacyDbmlProperties.BaseTypePriority | schemacrawler/convert_schemacrawler_to_dbml.py:48-57 | the base is `text` unless `type` is a uuid in the index, and then the first true of `database-specific-type-name`, `local-type-name`, `standard-type-name`, else `text`; only an unhashable true `type` raises |
| LegacyDbmlProperties.ResolvedDbTypeNotEmpty | schemacrawler/convert_schemacrawler_to_dbml.py:46-67 | the column type is never the empty text |
| LegacyDbmlProperties.SizeSuffixCases | schemacrawler/convert_schemacrawler_to_dbml.py:59-65 | the suffix is the stripped `width` when that starts with `(`, else `(size)` for a positive int `size` (`(True)` for `True`, an int in Python), else empty |
| LegacyDbmlProperties.SanitizeDefaultNone | schemacrawler/convert_schemacrawler_to_dbml.py:76-77 | exactly the false values give `None` |
| LegacyDbmlProperties.SanitizeDefaultQuoting | schemacrawler/convert_schemacrawler_to_dbml.py:79-91 | a SQL expression, or a value with a space, `:` or a quote, is double-quoted, every `"` inside preceded by a backslash, and the text between the outer quotes, taken by position, unescapes to the stripped value; any other value is the stripped value, with none of those characters |
| LegacyDbmlProperties.SanitizeDefaultTrailingBackslash | schemacrawler/convert_schemacrawler_to_dbml.py:87-89 | a default that needs quotes, holds no `"` and ends in `\` comes out as itself between double quotes, so its last two characters are `\"` and the closing quote follows a backslash |
| LegacyDbmlProperties.BackslashPathExample | schemacrawler/convert_schemacrawler_to_dbml.py:87-89 | `C:\` needs quotes for its colon and comes out as `"C:\"` |
| LegacyDbmlProperties.ColumnStepSkipped | schemacrawler/convert_schemacrawler_to_dbml.py:100-105 | a column is skipped exactly when it is not a dict or its `full-name` is false or has fewer than two dots |
| LegacyDbmlProperties.ColumnStepKeyed | schemacrawler/convert_schemacrawler_to_dbml.py:103-119 | a kept column is keyed by the first two dot-separated pieces of its `full-name`, and the rest, dots included, is its name when `name` is false |
| LegacyDbmlProperties.ColumnStepErrors | schemacrawler/convert_schemacrawler_to_dbml.py:103-106 | a true `full-name` that is not a str or a list, or a list with two `"."` items, raises `AttributeError` |
| LegacyDbmlProperties.GroupAllTables | schemacrawler/convert_schemacrawler_to_dbml.py:99-119 | each table holds, in input order, exactly the entries kept under its key, and there is a table for every key kept |
| LegacyDbmlProperties.EntriesWithKeys | schemacrawler/convert_schemacrawler_to_dbml.py:119 | some entry is kept under a key exactly when some kept column has that key |
| LegacyDbmlProperties.KeyLessIrreflexive | schemacrawler/convert_schemacrawler_to_dbml.py:122 | no `(schema, table)` key is below itself |
| LegacyDbmlProperties.KeyLessTransitive | schemacrawler/convert_schemacrawler_to_dbml.py:122 | the tuple order is transitive |
| LegacyDbmlProperties.KeyLessTotal | schemacrawler/convert_schemacrawler_to_dbml.py:122 | two different keys are ordered one way or the other |
| LegacyDbmlProperties.InsertKeyAscending | schemacrawler/convert_schemacrawler_to_dbml.py:122 | inserting a new key into ascending keys keeps them ascending |
| LegacyDbmlProperties.SortKeysAscending | schemacrawler/convert_schemacrawler_to_dbml.py:122 | sorting distinct keys gives them in strictly increasing order |
| LegacyDbmlProperties.SortedItemsKeys | schemacrawler/convert_schemacrawler_to_dbml.py:122 | the items are the sorted keys, each with its table's entries |
| LegacyDbmlProperties.SortedKeysOrder | schemacrawler/convert_schemacrawler_to_dbml.py:122 | the sorted keys are the keys of `tables`, each once, strictly increasing |
| LegacyDbmlProperties.SortedItemsOrder | schemacrawler/convert_schemacrawler_to_dbml.py:121-125 | tables are emitted in strictly increasing `(schema, table)` order, each exactly once, each with its entries in input order |
| LegacyDbmlProperties.KeywordAttrsIncrease | schemacrawler/convert_schemacrawler_to_dbml.py:126-134 | the keywords come in the order `pk`, `unique`, `increment`, `not null` |
| LegacyDbmlProperties.LegacyAttrsOrder | schemacrawler/convert_schemacrawler_to_dbml.py:126-136 | attributes come in the order `pk`, `unique`, `increment`, `not null`, `default`, each at most once |
| LegacyDbmlProperties.KeywordAttrsMembers | schemacrawler/convert_schemacrawler_to_dbml.py:126-134 | each keyword is present exactly when its flag holds |
| LegacyDbmlProperties.DefaultAttrMembers | schemacrawler/convert_schemacrawler_to_dbml.py:135-136 | the default attribute is present exactly when the default is not `None`, `""` or `"null"` |
| LegacyDbmlProperties.AttrsMembers | schemacrawler/convert_schemacrawler_to_dbml.py:126-136 | the keywords and the default together: each present exactly when its condition holds, the default last |
| LegacyDbmlProperties.LegacyAttrsMembers | schemacrawler/convert_schemacrawler_to_dbml.py:126-136 | for a column: `pk`, `unique`, `increment` exactly for true flags, `not null` exactly for a false `nullable`, and a default, last, exactly when it is not `None`, `""` or `"null"` |
| LegacyDbmlProperties.EntryLineErrors | schemacrawler/convert_schemacrawler_to_dbml.py:138-141 | a column line fails only on a true non-str remark (`AttributeError`) or an int or bool name (`TypeError`) |
| LegacyDbmlProperties.EntryLineNote | schemacrawler/convert_schemacrawler_to_dbml.py:138-140 | a str remark ends the line as ` // ` and its text with `"` escaped, which reads back to the remark |
| LegacyDbmlProperties.EntryLinesValues | schemacrawler/convert_schemacrawler_to_dbml.py:125-141 | the column lines are one per column, in order, exactly when no column fails |
| LegacyDbmlProperties.TableLinesShape | schemacrawler/convert_schemacrawler_to_dbml.py:123-142 | a block is its header, its column lines in order, then `}` and a newline |
| LegacyDbmlProperties.EntryLineIndented | schemacrawler/convert_schemacrawler_to_dbml.py:141 | a column line starts with two spaces |
| LegacyDbmlProperties.BlockHeaders | schemacrawler/convert_schemacrawler_to_dbml.py:123-142 | a block holds one `Table` line, its own header |
| LegacyDbmlProperties.EmitItemsHeaders | schemacrawler/convert_schemacrawler_to_dbml.py:121-142 | the header lines of the emitted blocks are the tables' headers, in item order |
| LegacyDbmlProperties.RenderTablesSorted | schemacrawler/convert_schemacrawler_to_dbml.py:121-144 | the document lists one header per table, each table once, in strictly increasing `(schema, table)` order |
| DataDictConvert.AddInlineType | schemacrawler/data_dict_converter.py:31-39 | one pass of the first loop: a new inline uuid is added with its name, a known one keeps its first name, as `TypeMapStepCases` states |
| DataDictConvert.BuildDataTypeMap | schemacrawler/data_dict_converter.py:10-42 | `build_data_type_map(data)`: `None`, or the map the loop fills and the column list, or the exception |
| DataDictConvert.ProcessColumns | schemacrawler/data_dict_converter.py:44-98 | `process_columns`: the rows the loop appends, as `RowsOnePerColumn` describes, or the first exception |
| DataDictConvert.BuildDataDictionary | schemacrawler/data_dict_converter.py:146-155 | the two passes `main` runs before writing the CSV |
| DataDictProperties.ColumnsListFound | schemacrawler/data_dict_converter.py:18-23 | the column list is the second item of the list of two or more under `all-table-columns`, or the second character of a str there |
| DataDictProperties.ColumnsListMissing | schemacrawler/data_dict_converter.py:18-20 | `None` exactly when `all-table-columns` is not in the document (not a key of a dict, not an item of a list, not a substring of a str) or a dict holds fewer than two items under it |
| DataDictProperties.ColumnsListErrors | schemacrawler/data_dict_converter.py:18-26 | only a dict of two or more members under the key raises (`KeyError`, which the `except` does not catch); every other failure is a `TypeError` |
| DataDictProperties.TypeMapStepCases | schemacrawler/data_dict_converter.py:31-39 | one pass adds the uuid of an inline type with true uuid and name, keeps every known name, and fails only on a non-dict column or an unhashable uuid |
| DataDictProperties.TypeMapOk | schemacrawler/data_dict_converter.py:30-39 | the first pass succeeds exactly when every column is a dict whose inline uuid, if any, can be a key |
| DataDictProperties.TypeMapFirstError | schemacrawler/data_dict_converter.py:30-39 | the exception is decided by the first failing column: `AttributeError` for a non-dict, `TypeError` for an unhashable uuid |
| DataDictProperties.TypeMapFirstWins | schemacrawler/data_dict_converter.py:30-39 | the map holds exactly the uuids some column defines inline, each mapped to the name in its first definition |
| DataDictProperties.FirstDefinitionAt | schemacrawler/data_dict_converter.py:38-39 | the first definition is the one at the first column that defines the uuid |
| DataDictProperties.FirstDefinitionNone | schemacrawler/data_dict_converter.py:38-39 | a uuid has no definition exactly when no column defines it |
| DataDictProperties.TypeMapTruthy | schemacrawler/data_dict_converter.py:35-39 | only true uuids with true names enter the map |
| DataDictProperties.NamePartsThree | schemacrawler/data_dict_converter.py:53-61 | a `full-name` with two dots is schema, table and column, none holding a dot, which joined by dots give the name |
| DataDictProperties.NamePartsTwo | schemacrawler/data_dict_converter.py:53-63 | a `full-name` with one dot is table and column, in an empty schema |
| DataDictProperties.NamePartsOther | schemacrawler/data_dict_converter.py:53-63 | any other `full-name` leaves schema and table empty and keeps the column's `name` |
| DataDictProperties.RowOfOk | schemacrawler/data_dict_converter.py:53-80 | a row fails exactly for a non-dict column, a non-str `full-name`, or a false remark with a non-dict `attributes`, always with `AttributeError` |
| DataDictProperties.RowsOnePerColumn | schemacrawler/data_dict_converter.py:49-98 | exactly one row per column, in column order, when every column gets through, and `TypeError` for a column list that cannot be iterated |
| DataDictProperties.RowFlags | schemacrawler/data_dict_converter.py:90-92 | `Nullable`, `PK` and `FK` are `Yes` exactly when the column's flag is true, and `No` otherwise |
| DataDictProperties.RowValues | schemacrawler/data_dict_converter.py:77-95 | position and size are copied, a false default becomes `''`, false remarks fall back to `attributes.REMARKS`, and the names come from `full-name` |
| DataDictProperties.RowDataType | schemacrawler/data_dict_converter.py:66-74 | an inline type gives its `name`, a str reference gives its name in the map or `Unknown Ref`, anything else `Unknown` |
| DataDictProperties.DataDictionaryRows | schemacrawler/data_dict_converter.py:146-155 | once the column list is found, the dictionary exists exactly when every column gets through both passes, with one row per column |
| DataDictProperties.DataDictionaryReferences | schemacrawler/data_dict_converter.py:30-74 | a column that refers to its type by uuid gets the name from the first column that defines it, or `Unknown Ref` when none does |

## Findings

| source | as written | input that shows it | evidently intended | confidence | as-written member | corrected member |
|---|---|---|---|---|---|---|
| schemacrawler/json_dbml_converter.py:42 | `re.match(r'^[A-Za-z_][A-Za-z0-9_]*$', name)`: `$` also matches before a final newline | the name `"users\n"` is emitted bare, so the newline ends up inside the DBML line | only a whole plain identifier is emitted unquoted; `"users\n"` goes into backticks | not executed | JsonDbml.SanitizeIdentifierAsWritten, with JsonDbmlProperties.SanitizeAsWrittenKeepsNewline and JsonDbmlProperties.SanitizeAsWrittenDiffers | JsonDbml.SanitizeIdentifier, with JsonDbmlProperties.SanitizeIdentifierIff and JsonDbmlProperties.SanitizeIdentifierRoundTrip |

The converter model uses the corrected `SanitizeIdentifier`. The two differ
only on names that end in a single newline after a plain identifier.

## Notes on the code

- `unwrap` (`json_dbml_converter.py:16-17`) is not idempotent: when the payload
  is itself a tagged container, a second call unwraps again.
  `UnwrapIdempotentIff` and `UnwrapNestedContainer` state it.
- A foreign key that refers to itself is dropped pair by pair
  (`json_dbml_converter.py:164-165`): each column pair whose two ends are the
  same column of the same table gives no `Ref:` line, whatever the other pairs
  are. `RefLineDropped` states it.
- `unique` is left off for every primary-key column, whether the key has one
  column or several (`json_dbml_converter.py:94`); `ColumnAttrsKeys` states it.
- The newer converter never emits `increment` (`json_dbml_converter.py:89-102`).
- The older converter escapes `"` in a quoted default but leaves `\` as it is
  (`convert_schemacrawler_to_dbml.py:83` and `:88`). A default that ends in a
  backslash, such as `C:\` (quoted for its colon), comes out as `"C:\"`, whose
  closing quote follows a backslash and reads as an escaped quote rather than as
  the end of the literal. `SanitizeDefaultTrailingBackslash` and
  `BackslashPathExample` state it; `SanitizeDefaultQuoting` reads the value back
  from the text between the outer quotes taken by position.

## Left out

- I/O: `load_json`, `main`, `write_csv` and the batch directory loop are not modelled. The console output, the progress messages and the CSV writing are not modelled either. The decoded document is a parameter.
- JSON decoding is not modelled, and floating-point numbers are not part of `Json` (SchemaCrawler exports hold ints, strs, bools and nulls).
- JsonDbmlConvert.ConvertToDbml: the conversion uses the corrected identifier rule `JsonDbml.SanitizeIdentifier` (see Findings), through `BuildColumnLine`, `BuildRefText` and `BuildTableOutput`. A table, column or index name made of a plain identifier and one final newline, such as `"users\n"`, is therefore put in backticks. `json_dbml_converter.py:42` as written emits it bare. On every other name the two rules agree (`JsonDbmlProperties.SanitizeAsWrittenDiffers`).
- Object keys are assumed distinct: `JsonValue.Lookup` reads the first binding of a key, and the object walks visit every member. A decoded object never repeats a key, because `json.loads` keeps only the last one, so a `Json` object with a repeated key has no Python counterpart.
- Python equality and hashing across types are not modelled: `True == 1` and `hash(True) == hash(1)` as keys, and dict equality that ignores member order. `Json` values are compared structurally instead.
- `repr` of strings nested in a list or dict always uses single quotes, with no escaping. Python chooses the quote and escapes by content.
- String order is code-point order over `seq<char>`, and `lower()` is ASCII lower-casing. Unicode case folding is not modelled.
- JsonDbml.SortByKey: the model orders only int (and bool) ordinals among themselves, or str ordinals among themselves. With two or more columns, any other mix raises `TypeError` in `JsonDbml.SortColumns`, and so does any list, dict or `None` ordinal. Python agrees on `None`, dicts and mixes of ints and strs. It orders list ordinals lexicographically, for example `[1]` before `[2]`, where the model raises. The "can be compared" of `JsonDbmlProperties.SortColumnsCorrect` is the model's rule, not Python's. On the inputs other than lists, Python raises exactly when the model does, though after fewer comparisons than the model's all-pairs rule.
- The in-place `cols.sort` and `sorted(tables.items())` are modelled as insertion sorts on `seq`, stated as permutations that are ascending and stable. The in-place update of a Python list is not modelled.
- `convert_schemacrawler_to_dbml.py:140` uses a backslash inside an f-string expression. Python before 3.12 rejects that line, so the file only runs on 3.12 or later. The model gives the 3.12 meaning: every `"` of the remark becomes `\"`.
- `data_dict_converter.py:24-26`: the `except (IndexError, TypeError)` cannot fire. Once the length is known to be two or more, `[1]` succeeds on a list or a str and raises `KeyError` on a dict. `DataDict.ColumnsList` has no such branch.
- `data_dict_converter.py:28` prints `len(columns_list)`. That length fails, with `TypeError`, exactly when iterating the list would, so `DataDict.DataTypeMap` gets the same exception from `Iter`.
- `main`'s `if not result` and `if processed_data` checks only decide whether to print or write. `DataDict.DataDictionary` returns the rows, empty or not.
