# Sync paths, sanitising and batch cursors of the DB Version Control plugin

This project models the pure core of a WordPress plugin that mirrors posts
and options to JSON files in a sync folder, and reads them back. The model
covers three parts of the plugin.

- **`includes/functions.php`**
  - `dbvc_validate_sync_path` strips null bytes, rejects `..` and a
    denylist of characters, turns `\` into `/`, collapses runs of `/`, and
    applies the boundary rule.
  - `dbvc_get_sync_path` builds the base folder and appends the optional
    subfolder.
  - `dbvc_is_safe_file_path` makes its string checks.
  - `dbvc_sanitize_json_data` strips control characters from every string
    in a nested PHP value.
- **`includes/class-sync-posts.php`**
  - the default post types and the guards of `export_post_to_json`;
  - the `<type>-<id>.json` file naming;
  - the shape of the sanitised meta and options;
  - the option exclusion list and the post count;
  - the cursor `{processed, remaining, total, offset}` returned by
    `export_posts_batch` and `import_posts_batch`.
- **`commands/class-wp-cli-commands.php`**
  - the `--batch-size` option, where 0 selects single-pass mode;
  - the `do … while (remaining > 0 && processed > 0)` loops of `wp srdt
    export` and `wp srdt import`.

The code calls the class `DBVC_Sync_Posts` where it is declared and
`SRDT_Sync_Posts` from the CLI. The model treats both names as one
component.

## Modules

Each module is in its own file.

| module | models |
|---|---|
| `Wrappers` | `Option` |
| `Seqs` | `array_slice`, sums, filters and concatenation |
| `PhpStrings` | the PHP and WordPress string built-ins the core uses: `str_replace`, `preg_replace('#/+#', '/')`, `ltrim`, `rtrim`, `trailingslashit`, `pathinfo`, `strtolower`, and PHP's `empty()` on strings |
| `PhpArrays` | string-keyed PHP arrays: assignment and `array_diff_key` |
| `JsonData` | PHP values (null, booleans, integers, strings, arrays, and objects with their properties), and `dbvc_sanitize_json_data` |
| `SyncPath` | validating and composing sync paths, and the safe-file check |
| `SyncPosts` | the class's pure logic |
| `Batches` | the cursor and the runs of batches the CLI loops perform |
| `CliCommands` | the two commands, with loops as methods proved equal to recursive reference definitions |

## How the outside world is modelled

WordPress services that the code calls but that are not shown become
values passed in (`SyncPosts.WordPress`, `SyncPath.PathConfig`):

- `sanitize_text_field`, `sanitize_textarea_field`, `sanitize_file_name` and
  `wp_kses_post`;
- `is_serialized` and `maybe_unserialize`;
- the capability checks and the `WP_CLI` constant;
- the `realpath` containment test.

Other inputs are also given as plain values:

- the post list of `get_posts`;
- the per-status counts of `wp_count_posts`;
- the `glob` listing;
- the decoded contents of each file.

Every `apply_filters` is taken as the identity.

## Model

| member | source | states |
|---|---|---|
| PhpStrings.RemoveChar | includes/functions.php:65-66 | `str_replace(chr(0), '')` leaves no null byte, keeps every other character with its count, and changes nothing when there is no null byte |
| PhpStrings.RemoveCharAppend | includes/functions.php:65-66 | removal distributes over concatenation, so the characters that survive keep their order |
| PhpStrings.ReplaceChar | includes/functions.php:81-82 | each `\` becomes `/` in place; everything else and the length are unchanged |
| PhpStrings.CollapseSlashes | includes/functions.php:84-85 | collapsing leaves no `//`, deletes nothing but slashes, and keeps the first character; `CollapseSlashesMerge` and `CollapseSlashesNoop` pin down the rest |
| PhpStrings.CollapseSlashesKeepsChars | includes/functions.php:84-85 | every character other than `/` is present after collapsing exactly when it was present before |
| PhpStrings.CollapseSlashesNoDotDot | includes/functions.php:84-85 | collapsing slashes never brings two dots together |
| PhpStrings.CollapseSlashesNoop | includes/functions.php:84-85 | collapsing is the identity on a string without `//` |
| PhpStrings.CollapseSlashesMerge | includes/functions.php:84-85 | a `//` anywhere collapses like a single `/`; with `CollapseSlashesNoop`, every run of slashes becomes exactly one `/` |
| PhpStrings.ReplaceCharNoDotDot | includes/functions.php:81-82 | replacing `\` by `/` never creates `..` |
| PhpStrings.LtrimChar | includes/functions.php:97 | `ltrim(p, '/')` drops exactly the leading run of `/` and keeps the rest as a suffix |
| PhpStrings.TrailingSlashIt | includes/functions.php:41 | `trailingslashit` ends in one `/`, preceded by the input with its trailing slashes and backslashes removed |
| PhpStrings.TrailingSlashItIdempotent | includes/functions.php:41 | applying `trailingslashit` twice is the same as applying it once |
| PhpStrings.TrailingSlashItAppend | includes/functions.php:34 | `trailingslashit(a . b)`, for `b` starting with a character that is not a slash, is `a`, then `b` without its trailing slashes, then `/` |
| PhpStrings.Extension | includes/functions.php:161 | `pathinfo(..., PATHINFO_EXTENSION)` holds no dot and no slash; a non-empty extension is what follows the base name's last `.`, and the extension is empty exactly when the base name has no `.` or ends in one |
| PhpStrings.ExtensionOfJsonFile | includes/functions.php:159-163 | a name ending in `.json`, placed after a folder ending in `/`, has the extension `json` |
| PhpStrings.ToLower | includes/functions.php:163 | ASCII `strtolower` keeps the length and lowers exactly the letters A-Z |
| PhpStrings.NatToStringRoundTrip | includes/class-sync-posts.php:95 | reading back the decimal text of an id gives the id |
| PhpStrings.NatToStringInjective | includes/class-sync-posts.php:95 | different ids have different decimal texts |
| SyncPath.Normalize | includes/functions.php:81-85 | the normalised path has no `\` and no `//`; a non-empty path stays non-empty, and starts with `/` exactly when the input started with `/` or `\` |
| SyncPath.NormalizeIsOneSlashPerRun | includes/functions.php:81-85 | turning `\` into `/` and collapsing runs of `/` is the same as writing each maximal run of `/` and `\` as one `/`, read run by run |
| SyncPath.ValidateSyncPath | includes/functions.php:60-109 | an `empty()` input (including "0") gives "" rather than `false`; an accepted path has no null byte, `\`, `//`, `..` or denylisted character, and obeys the boundary rule |
| SyncPath.NormalizeKeepsSafe | includes/functions.php:68-85 | normalising a path with no `..` and no denylisted character creates neither |
| SyncPath.NormalizeKeepsChars | includes/functions.php:81-85 | every character other than the two slashes is in the normalised path exactly when it is in the input |
| SyncPath.RejectsTraversalAndDenylisted | includes/functions.php:65-79 | a path with `..` once null bytes are gone, or with one of `< > " \| ? *`, is rejected |
| SyncPath.NulEntryUnreachable | includes/functions.php:66-79 | after null bytes are stripped, the denylist fires exactly when one of its six visible entries is present; the `chr(0)` entry never decides |
| SyncPath.AllowedPrefixesSubsumed | includes/functions.php:88-101 | the prefix loop succeeds exactly when the path, with its leading `/` removed, starts with `wp-content/` |
| SyncPath.AcceptanceRule | includes/functions.php:60-108 | a non-empty path is accepted if and only if, without null bytes, it has no `..` and no `< > " \| ? *`, and either does not start with `/` or `\`, or normalised and with its leading slashes removed starts with `wp-content/` |
| SyncPath.AcceptedIsNormalized | includes/functions.php:65-108 | the accepted path is the input without its null bytes, with each maximal run of `/` and `\` written as one `/`, and nothing else changed |
| SyncPath.ValidateIdempotent | includes/functions.php:60-108 | re-validating an accepted path returns it unchanged, for every result other than "0" |
| SyncPath.ZeroIsNotRevalidated | includes/functions.php:61-63 | `"0\0"` validates to "0", but "0" validates to "", because `empty("0")` is true |
| SyncPath.SyncBase | includes/functions.php:23-41 | the base folder ends in `/` |
| SyncPath.GetSyncPath | includes/functions.php:22-50 | the result ends in `/` and starts with the base folder; without a subfolder it is the base folder |
| SyncPath.InvalidCustomFallsBack | includes/functions.php:25-38 | with no custom folder, or an invalid one, the base is the plugin's `sync/` folder |
| SyncPath.ValidCustomUnderAbspath | includes/functions.php:31-41 | a valid custom folder is placed under `trailingslashit(ABSPATH)`: its leading `/` is dropped, its trailing slashes become one, and nothing else changes |
| SyncPath.BaseUnderRoot | includes/functions.php:33-41 | the same composition for any folder without backslashes |
| SyncPath.SubfolderAppended | includes/functions.php:43-47 | a non-empty subfolder is appended as its sanitised name followed by exactly one `/` |
| SyncPath.IsSafeFilePath | includes/functions.php:140-164 | a safe path has no null byte and no `..`, resolves under `ABSPATH`, and has the extension `json` in any case |
| SyncPath.JsonFileSafety | includes/functions.php:140-164 | a `.json` name in a folder is safe exactly when the path has no null byte and no `..` and resolves under `ABSPATH` |
| SyncPath.SafePathIsJsonFile | includes/functions.php:159-163 | a path found safe has a base name that ends in `.` followed by four characters that lower-case to `json` |
| JsonData.Lookup | includes/class-sync-posts.php:459 | `$a[k]` is found exactly when some entry has key `k`, and then it is that entry's value |
| JsonData.StripControl | includes/functions.php:124-127 | the bytes 0x00-0x08, 0x0B, 0x0C, 0x0E-0x1F and 0x7F are all removed, every other character keeps its count (tab, LF and CR included), and clean strings are unchanged |
| JsonData.StripControlAppend | includes/functions.php:126 | stripping works character by character, so the survivors keep their order |
| JsonData.StripControlIdempotent | includes/functions.php:126 | stripping twice is the same as stripping once |
| JsonData.SanitizeJson | includes/functions.php:119-130 | every string reached through arrays becomes its stripped text, and keys, order, objects and other scalars are unchanged; the result holds an object exactly when the input does; an object-free input comes out clean; a clean value is returned as it is |
| JsonData.ObjectKeepsControl | includes/functions.php:119-130 | an object is returned untouched, so a string property holding a control character keeps it |
| JsonData.SanitizeString | includes/functions.php:124-127 | a string leaf loses exactly its control characters |
| JsonData.SanitizeJsonIdempotent | includes/functions.php:119-130 | sanitising twice is the same as sanitising once |
| PhpArrays.Get | includes/class-sync-posts.php:249 | a lookup fails exactly when the key is absent |
| PhpArrays.Put | includes/class-sync-posts.php:248-249 | `$a[$k] = $v` keeps keys distinct, adds `k` to the keys, makes `k` map to `v`, leaves every other key alone, and grows the array only for a new key |
| PhpArrays.GetAt | includes/class-sync-posts.php:249 | with distinct keys, looking up an entry's key finds that entry's value |
| PhpArrays.DiffKeys | includes/class-sync-posts.php:193 | `array_diff_key` keeps exactly the keys not on the list, with their values, and keeps keys distinct |
| PhpArrays.DiffKeysSubset | includes/class-sync-posts.php:193 | every entry `array_diff_key` keeps is an entry of its input |
| SyncPosts.SupportedPostTypes | includes/class-sync-posts.php:31-41 | an empty selection means `['post', 'page']`; otherwise the selection is used as given |
| SyncPosts.ExportAllowed | includes/class-sync-posts.php:45-68 | an allowed post has a positive id, is published, and has a type among the selected ones, or `post` or `page` when none is selected |
| SyncPosts.PostFilePath | includes/class-sync-posts.php:86-95 | the file path starts with the type's sync folder |
| SyncPosts.SanitizeMetaValue | includes/class-sync-posts.php:251-258 | a serialised value becomes its unserialised value with every string stripped; plain text stays a string; the result holds an object exactly when `maybe_unserialize` yields one |
| SyncPosts.MetaValuesObjectFree | includes/class-sync-posts.php:244-263 | when no stored meta value unserialises to an object, no sanitised meta list holds one |
| SyncPosts.PostFields | includes/class-sync-posts.php:70-78 | the seven-field document holds an object exactly when its `meta` does |
| SyncPosts.PostFieldsReadBack | includes/class-sync-posts.php:70-78 | the seven-field document passes the importer's required-fields test with the `ID`, `post_type` and `post_title` given |
| SyncPosts.SanitizedReadBack | includes/class-sync-posts.php:84 | sanitising such a document keeps it importable, with the same id and with the type and title stripped |
| SyncPosts.PostDocument | includes/class-sync-posts.php:70-78 | the document built for one post has seven top-level fields |
| SyncPosts.PostDocumentObjectFree | includes/class-sync-posts.php:70-78 | the post document holds no object when no meta value unserialises to one |
| SyncPosts.ExportPost | includes/class-sync-posts.php:43-104 | a file is written exactly when the id is positive, the post is no revision, it is published, its type is supported, it may be read (or the CLI runs), and the path is safe; the file is at the post's path and holds the sanitised post document, which the importer accepts; it is clean when no meta value unserialises to an object |
| SyncPosts.ExportedDocument | includes/class-sync-posts.php:70-84 | the sanitised document has seven top-level fields; it holds no control character when no meta value unserialises to an object |
| SyncPosts.ExportReadsBack | includes/class-sync-posts.php:70-84 | export, then read back: the written document passes the importer's test at lines 454-461, and its `ID`, `post_type` and `post_title` are the post's id and its sanitised type and title |
| SyncPosts.PostFileNameShape | includes/class-sync-posts.php:95 | `<type>-<id>.json` has no slash when the type has none, and ends in `.json` |
| SyncPosts.PostFileNaming | includes/class-sync-posts.php:86-101 | the post goes to `<sync>/<type>/<type>-<id>.json` and passes the extension check |
| SyncPosts.PostFileNamesDistinct | includes/class-sync-posts.php:95 | two posts of one type with different ids get different file names |
| SyncPosts.SanitizeMetaValues | includes/class-sync-posts.php:251-259 | one sanitised value for each input value |
| SyncPosts.SanitizePostMeta | includes/class-sync-posts.php:244-263 | the keys are distinct, and they are exactly the sanitised input keys |
| SyncPosts.MetaKeepsValueCounts | includes/class-sync-posts.php:247-259 | the list stored under a sanitised key has as many values as the list of the last input key that sanitises to it |
| SyncPosts.MetaShape | includes/class-sync-posts.php:247-259 | when no two keys sanitise alike, every input key maps to a list of the same length as its input list |
| SyncPosts.SanitizeOptions | includes/class-sync-posts.php:273-288 | the keys are distinct, and they are exactly the sanitised input keys |
| SyncPosts.ExportedOptionKeys | includes/class-sync-posts.php:180-196 | the exported keys are exactly the sanitised keys of the options not on the exclusion list |
| SyncPosts.SanitizedDiffKeys | includes/class-sync-posts.php:193-196 | the same for any exclusion list |
| SyncPosts.ExcludedOptionsNeverExported | includes/class-sync-posts.php:180-196 | when sanitising leaves keys alone, the exported keys are all option keys minus the exclusion list |
| SyncPosts.SanitizeOptionValue | includes/class-sync-posts.php:279-284 | plain text loses exactly its control characters; a serialised value becomes its unserialised value with every string stripped, and is clean unless it holds an object |
| SyncPosts.OptionValuesClean | includes/class-sync-posts.php:276-285 | every sanitised option value is free of control characters when no option unserialises to an object |
| SyncPosts.OptionsDocumentClean | includes/class-sync-posts.php:193-220 | the options document holds no control character when no option unserialises to an object |
| SyncPosts.OptionObjectKeepsControl | includes/class-sync-posts.php:279-281 | an option that unserialises to an object with a control character in a string property is exported with that character |
| SyncPosts.ExportOptions | includes/class-sync-posts.php:171-234 | `options.json` is written in the base folder exactly when the CLI runs or the user may manage options, and the path is safe; it holds the sanitised options left by the exclusion list, which are clean when no option unserialises to an object |
| SyncPosts.CountPostsByType | includes/class-sync-posts.php:504-517 | the total is at least the sum for each single type |
| SyncPosts.CountIsFlatSum | includes/class-sync-posts.php:504-517 | the total is the sum of every per-status count of every type |
| SyncPosts.ExportPosts | includes/class-sync-posts.php:409-412 | exporting a list writes at most one file per post |
| SyncPosts.ExportPostsInOrder | includes/class-sync-posts.php:409-412 | extending the list by one post adds exactly that post's file, if it gets one, at the end: no post is missed and the order is the list's |
| SyncPosts.ExportPostsComplete | includes/class-sync-posts.php:409-412 | every post that gets a file has that file in the list export |
| SyncPosts.ExportPostsSound | includes/class-sync-posts.php:409-412 | every file written for a list is the file of one of its posts |
| SyncPosts.ExportBatch | includes/class-sync-posts.php:398-424 | the page is `array_slice(posts, offset, b)`; every post of it counts as processed; the cursor is the paged cursor against the reported total |
| SyncPosts.RequiredFieldsImplyNonEmpty | includes/class-sync-posts.php:454-461 | a document holding `ID` is never `empty()` |
| SyncPosts.Importable | includes/class-sync-posts.php:454-461 | an importable document is an array with a non-null `ID` entry |
| SyncPosts.CollectFiles | includes/class-sync-posts.php:436-446 | a file is collected exactly when the folder of some supported type lists it |
| Seqs.Slice | includes/class-sync-posts.php:449 | `array_slice(s, offset, len)` has `min(len, max(0, n - offset))` items, each the item `offset` places further along |
| SyncPosts.ImportPage | includes/class-sync-posts.php:449-493 | only the importable documents of `array_slice(docs, offset, b)` are inserted and counted; `processed <= min(b, max(0, total - offset))`; `total` is the number of files |
| SyncPosts.DecodedFiles | includes/class-sync-posts.php:440-453 | one decoded document per collected file |
| SyncPosts.ImportBatch | includes/class-sync-posts.php:435-494 | `total` is the number of collected files and `processed` is at most the batch size |
| SyncPosts.SkippedPageStalls | includes/class-sync-posts.php:452-493 | a page with no importable file returns `processed` 0 and the same offset, though files remain |
| SyncPosts.ImportAllFiles | includes/class-sync-posts.php:128-163 | the single-pass import inserts only documents of the list that are non-empty, and inserts every non-empty one |
| SyncPosts.BatchImportStricter | includes/class-sync-posts.php:454-461 | the batch import's test never accepts more files than the single-pass import's |
| SyncPosts.CorrectedImportPage | includes/class-sync-posts.php:449-493 | the import page with every examined file counted: the cursor is the paged cursor over all files |
| Batches.Advance | includes/class-sync-posts.php:416-423 | `offset` becomes `offset + processed`; `remaining` is never negative, is 0 exactly when the total is reached, and otherwise is the distance to the total |
| Batches.PageCursor | includes/class-sync-posts.php:401-423 | a batch that counts its whole page processes `min(b, max(0, n - offset))` items and stays inside the list |
| Batches.PagedRun | commands/class-wp-cli-commands.php:75-95 | the loop's run starts with the batch at its offset and ends with a batch that stops the loop |
| Batches.TotalProcessedSnoc | commands/class-wp-cli-commands.php:77 | `$total_processed` grows by each batch's `processed` |
| Batches.PagedRunCovers | commands/class-wp-cli-commands.php:75-95 | the run covers the list without gaps or overlaps; it ends inside the list, at its end or once the reported total is reached |
| Batches.PagedRunComplete | commands/class-wp-cli-commands.php:75-95 | when the reported total is at least the list length, the loop ends at offset n with n processed |
| Batches.PagedRunExample | commands/class-wp-cli-commands.php:75-95 | 125 items in batches of 50 give the cursors (50, 75), (50, 25) and (25, 0) |
| Batches.PagedTraceNext | commands/class-wp-cli-commands.php:76-78 | feeding the returned offset into the next call extends the run by its next batch, and the offset never moves back |
| Batches.PagedTraceDone | commands/class-wp-cli-commands.php:95 | once the loop condition fails, the batches seen are the whole run and their total is the final offset |
| CliCommands.BatchSizeOf | commands/class-wp-cli-commands.php:45-46 | a missing option means 50; the batch size is the absolute value given; it is 0, selecting single-pass mode, exactly when 0 is given |
| CliCommands.ExportStep | commands/class-wp-cli-commands.php:76-78 | one export batch returns the paged cursor, and the files written so far grow by exactly the files of its page |
| CliCommands.ExportOnce | commands/class-wp-cli-commands.php:76-78 | one call of `export_posts_batch` inside the loop |
| CliCommands.ExportLoop | commands/class-wp-cli-commands.php:70-95 | the loop terminates; its cursors are the paged run; `$total_processed` is their sum, at most the list length, and equals it unless the reported total was reached first; the files written are those of the posts processed |
| CliCommands.Export | commands/class-wp-cli-commands.php:44-104 | `--batch-size=0` exports every post in one pass; any other size runs the loop; when the reported total covers the list, both modes write the same files and report every post |
| CliCommands.ImportRun | commands/class-wp-cli-commands.php:144-164 | the import loop's run starts with the page at its offset and ends with a batch that stops the loop |
| CliCommands.ImportRestStep | commands/class-wp-cli-commands.php:145-147 | after a batch that continues, the rest of the run is the page at the returned offset followed by its own rest |
| CliCommands.ImportTraceNext | commands/class-wp-cli-commands.php:145-147 | each import batch extends the cursors and the inserted documents by the next page |
| CliCommands.ImportTraceDone | commands/class-wp-cli-commands.php:164 | once the loop condition fails, the batches seen are the whole run, and the count equals the number of documents inserted |
| CliCommands.ImportPageAllValid | includes/class-sync-posts.php:449-493 | when every file is importable, an import page equals the corrected page and inserts exactly the slice it reads |
| CliCommands.ImportRunAllValid | commands/class-wp-cli-commands.php:139-164 | when every file is importable, the import loop pages like the export loop and inserts every file once, in order |
| CliCommands.ImportStallsOnSkippedBatch | commands/class-wp-cli-commands.php:144-164 | with two undecodable files before a valid one and a batch size of 2, the loop performs one batch that processes nothing and leaves 3 files remaining, so the valid file is never imported |
| CliCommands.ImportRereadsFirstPage | includes/class-sync-posts.php:449-493 | the first page of `[bad, v1, v2]` in batches of 2 imports `v1` and moves the offset only to 1 |
| CliCommands.ImportRereadsSecondPage | includes/class-sync-posts.php:449-493 | the page at offset 1 reads `v1` again |
| CliCommands.ImportRereadsRun | commands/class-wp-cli-commands.php:144-164 | the import loop over `[bad, v1, v2]` in batches of 2 performs those two batches |
| CliCommands.ImportRereadsAfterSkip | commands/class-wp-cli-commands.php:144-164 | over `[bad, v1, v2]` in batches of 2 the loop inserts `v1` twice: it inserts `[v1, v1, v2]` |
| CliCommands.ImportOverReportsAfterSkip | commands/class-wp-cli-commands.php:144-164 | the same loop reports more files processed (3) than the list holds importable files (2) |
| CliCommands.ImportOnce | commands/class-wp-cli-commands.php:145-147 | one call of `import_posts_batch` inside the loop; `total` is the number of collected files |
| CliCommands.ImportLoop | commands/class-wp-cli-commands.php:139-164 | the loop terminates; its cursors and inserted documents are those of the import run; the count reported equals the documents inserted and is at most the number of files; all of them are importable |
| CliCommands.Import | commands/class-wp-cli-commands.php:122-171 | `--batch-size=0` runs the single-pass import and reports no count; any other size runs the loop; every inserted document is non-empty |
| CliCommands.CorrectedImportStep | includes/class-sync-posts.php:449-493 | one corrected batch extends the importable documents inserted so far by those of its page |
| CliCommands.CorrectedImportOnce | commands/class-wp-cli-commands.php:145-147 | one corrected batch inside the loop |
| CliCommands.CorrectedImportLoop | commands/class-wp-cli-commands.php:139-164 | the corrected loop terminates; it pages like the export loop; it reports the number of files; it inserts exactly the importable files, each once and in order |
| CliCommands.CorrectedImport | commands/class-wp-cli-commands.php:122-171 | with the corrected batch, the batch mode inserts exactly the importable files and reports every file examined |

## Left out

- File and JSON I/O: `file_put_contents`, `file_get_contents`, `glob`, `wp_mkdir_p` and `wp_json_encode`/`json_decode`. Directory creation, encoding and writing are taken to succeed. Decoding is the `read` parameter, and a file that does not decode is read as `null`.
- The `glob` listing and the decoded files are taken to be fixed across the batches of one import. In the plugin, the handlers at includes/hooks.php:47-76, registered at lines 285-288, re-run `export_post_to_json` when a post's status changes or its meta is added or updated. The import can therefore rewrite the files the next batch lists, or, for a document with `ID` 0, add new ones.
- The `realpath` containment test of `dbvc_is_safe_file_path` depends on the filesystem. It is the `underRoot` parameter.
- WordPress APIs (`get_posts`, `wp_count_posts`, `wp_insert_post`, `update_post_meta`, capability checks) and the sanitisers are parameters, as described above. `apply_filters` is the identity, and `do_action` is left out.
- `is_serialized`/`maybe_unserialize`: PHP serialisation is foreign code. It is the `unserialize` parameter.
- `SyncPosts.ExportPost`: `is_numeric($post_id)` is not modelled; the id is already an integer. `ID` is written as `absint`, the absolute value.
- `SyncPosts.ExportPost`: the `! is_object($post) || ! isset($post->post_type)` guard at includes/class-sync-posts.php:49 is not modelled; a `Post` is always an object with a type.
- Floating-point PHP values are not modelled; no contract here depends on them.
- JsonData.SanitizeJson: promises clean strings only for values without objects, because `dbvc_sanitize_json_data` returns objects unchanged; strings inside an unserialised object keep their control characters (`JsonData.ObjectKeepsControl`), and array keys are never sanitised.
- ExportedDocument: states "no control character" only when no meta value unserialises to an object, for the same reason; array keys are not sanitised.
- ExportPost: the same restriction on its clean clause.
- OptionValuesClean: the same restriction, for option values (`SyncPosts.OptionObjectKeepsControl` shows an object keeping a control character).
- OptionsDocumentClean: the same restriction; `options.json` can hold control characters inside objects and in keys.
- ExportOptions: the same restriction on its clean clause.
- `SyncPosts.ImportPage`: the fields passed to `wp_insert_post`, and the per-key `update_post_meta` calls, are left out; an inserted document stands for them.
- `import_options_from_json`, `export_menus_to_json`, `import_menus_from_json` and `generate_modules` are WordPress API calls with no pure logic to verify.
- `CliCommands.Export`: the `export_options_to_json` and `export_menus_to_json` calls that precede the post export are not part of this method. The options export is modelled on its own as `SyncPosts.ExportOptions`.
- `CliCommands.Import`: the `import_options_from_json` and `import_menus_from_json` calls that precede the post import are not part of this method.
- `CliCommands.BatchSizeOf`: the option arrives as the integer PHP reads from the argument text; the string-to-integer conversion inside `absint` is not modelled.
- `CliCommands.Export`: the single-pass mode's `get_posts` with `posts_per_page => -1` is the same post list the batch mode pages through.
- `WP_CLI::log` and `WP_CLI::success` messages, and the `usleep` throttling, are timing and output only.
- `SyncPath.ValidateIdempotent`: holds for every accepted result except "0". PHP's `empty("0")` makes the second pass return "", which `SyncPath.ZeroIsNotRevalidated` shows.
- `includes/hooks.php`, `admin/`, and `db-version-control.php` are event wiring, UI and bootstrap, and are not part of this model.

## Findings

| source | as written | input that shows it | evidently intended | confidence | as-written member | corrected member |
|---|---|---|---|---|---|---|
| includes/class-sync-posts.php:482-492 | `import_posts_batch` counts only the files it imports in `processed`, and returns `offset + processed` as the next offset. A file skipped because it is empty or lacks `ID`, `post_type` or `post_title` therefore pulls the next page back over files already imported. A page of skipped files returns `processed` 0, which ends the loop at commands/class-wp-cli-commands.php:164 even though files remain. | Files `[bad, v1, v2]` with a batch size of 2: `v1` is inserted twice and 3 files are reported. Files `[bad, bad, v]` with a batch size of 2: nothing is imported and the loop stops. | Count every examined file, as `export_posts_batch` counts every post of its page, so that the offset advances by the page read. Every importable file is then inserted exactly once. | not executed | CliCommands.ImportRereadsAfterSkip | CliCommands.CorrectedImportLoop |
