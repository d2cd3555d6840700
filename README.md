# Mug & Marker admin tool and archive search, in Dafny

This project models two parts of the Mug & Marker site.

**The admin tool** (`admin-tool/admin.js`) edits one JSON dataset at a time: worksheets, recipes or comics. Its core is modelled here:

- the schema registry `DATASETS`, with each kind's `normalize`, `validate` and `manifestPaths`, plus the shared `normalizeTags`;
- the document store: records, selected id, last loaded file name, dirty flag, and the autosave slot in browser storage;
- the handlers that load a file, restore a draft, switch dataset, create, duplicate, delete and edit a record;
- the sidebar list filter, the JSON export, and the upload manifest with `folderOf` and `basename`.

**The archive page** (`scripts/archive.js`) lists fetched items. Its model covers:

- the item mapping that coerces tags and builds the lower-cased `_search` text;
- the tag chips;
- the query and tag filter;
- the optional sections by first tag;
- the page's `{ q, activeTag, groupByTag }` state and its handlers.

## Modules

- `Wrappers`: `Option` and `Result`.
- `Strings`: the JavaScript string operations the code relies on:
  - `trim`, with the ECMAScript white-space set;
  - ASCII `toLowerCase`;
  - `split` at one character and at line breaks;
  - `join` and `includes`;
  - `String(n)` and `padStart`;
  - the default `sort` order and `Array.from(new Set(xs)).sort()`.
- `Seqs`: `filter` and `flat`.
- `Raw`: the JSON shapes the code tells apart: `null` or absent fields, and tags that are an array, a string or anything else.
- `Schema`: the three kinds, the records, `normalize` per kind, the canonical shape `normalize` produces, and `manifestPaths`.
- `Validation`: `validate` as a `forEach` loop, checked against a record-by-record specification.
- `Editor`: each input handler as an `Edit` applied to the selected record, including the comic dictionary's ensure and clean-up.
- `Grouping`: the `Map` of arrays keyed by a string, walked in sorted key order. Both the manifest and the archive use it.
- `Manifest`: collecting paths, space warnings, grouping by folder, and the manifest text.
- `Store`: the `DocumentStore` class, whose methods change its fields as the handlers change `state`. It also holds `slugifyId`, `uniqueId`, the export and the list filter.
- `Archive`: the archive page's entries, chips, filter, sections, and the `ArchiveState` class.

## Model

| member | source | states |
|---|---|---|
| Strings.Trim | admin-tool/admin.js:19 | `trim` leaves no white space at either end. The result is empty exactly when the input is all white space. An already trimmed string is unchanged. |
| Strings.DropEmpty | admin-tool/admin.js:13 | `filter(Boolean)` on strings keeps exactly the non-empty elements, in order, each as many times as it occurs. A list without empty strings is unchanged. |
| Strings.CleanList | admin-tool/admin.js:229 | `map(trim).filter(Boolean)` gives trimmed non-empty strings, in input order. Each non-empty trimmed input occurs in the result as often as among the trimmed inputs. |
| Strings.CleanListAllKept | admin-tool/admin.js:229 | When no input is blank, the cleaned list is every input trimmed. |
| Strings.CleanListKeepsClean | admin-tool/admin.js:229 | Cleaning a list that is already clean changes nothing. |
| Strings.CleanListMembers | admin-tool/admin.js:229 | The cleaned list holds exactly the non-empty trimmed inputs. |
| Strings.CleanListHas | admin-tool/admin.js:229 | Every input with something besides white space appears, trimmed, in the cleaned list. |
| Strings.CleanListFrom | admin-tool/admin.js:229 | Everything in the cleaned list is some input, trimmed. |
| Strings.Lower | scripts/archive.js:88 | `toLowerCase` keeps the length and leaves no upper-case letter. A string already in lower case is unchanged. |
| Strings.LowerTrim | admin-tool/admin.js:355 | Trimming and lower-casing commute. So a search box read as `trim().toLowerCase()` gives the same query for any capitalisation. |
| Strings.Split | admin-tool/admin.js:233 | `split(',')` gives at least one piece, and no piece holds the separator. |
| Strings.SplitPieces | scripts/archive.js:74 | There is one more piece than there are separators, because empty pieces are kept. |
| Strings.JoinSplit | admin-tool/admin.js:233 | Joining the pieces of a split with the separator gives back the input. |
| Strings.SplitWhole | admin-tool/admin.js:233 | A string without the separator splits into itself alone. |
| Strings.SplitAtFirst | admin-tool/admin.js:233 | The first separator ends the first piece; the rest splits on its own. |
| Strings.SplitJoin | admin-tool/admin.js:233 | Splitting the join of separator-free pieces gives back the pieces. |
| Strings.JoinEnds | admin-tool/admin.js:407 | A join starts with its first part and ends with its last. |
| Strings.JoinTrimmed | admin-tool/admin.js:407 | Joining clean parts gives a non-empty trimmed string. |
| Strings.JoinSpaced | admin-tool/admin.js:407 | `join(', ')` is a `join(',')` of the parts with a space in front of every part but the first. |
| Strings.TrimLeadingSpace | admin-tool/admin.js:233 | A piece after `', '` trims back to the tag that followed the comma. |
| Strings.SplitLines | admin-tool/admin.js:555 | `split(/\r?\n/)` gives the pieces between line feeds, with a carriage return dropped from the end of every piece that a line feed follows. |
| Strings.JoinHasPart | scripts/archive.js:88 | Every part can be found in the joined string. |
| Strings.LowerContains | scripts/archive.js:181 | A lower-cased string contains the lower-cased form of anything the original contains. |
| Strings.ContainsTransitive | scripts/archive.js:181 | Whatever a part contains, the whole contains too. |
| Strings.NatToString | admin-tool/admin.js:301 | `String(n)` is the decimal digits whose value is `n`, with no leading zero; `0` prints as `"0"`. |
| Strings.NatToStringInjective | admin-tool/admin.js:802 | Different numbers print differently, so every suffix `-n` that `uniqueId` tries is a new candidate. |
| Strings.PadZeros | admin-tool/admin.js:301 | `padStart(3, '0')` gives at least the width, ends with the input, and puts only zeros in front. |
| Strings.SortedDistinct | admin-tool/admin.js:748 | `Array.from(new Set(xs)).sort()` is strictly ascending and holds exactly the elements of `xs`. |
| Strings.StrictlySortedUnique | admin-tool/admin.js:748 | Only one strictly sorted list holds a given set of strings, so the sorted result depends only on which strings occur. |
| Strings.StrictlySortedDistinct | scripts/archive.js:93-95 | A strictly sorted list repeats no element, so no two chips share a text. |
| Seqs.Filter | admin-tool/admin.js:357-362 | `filter` keeps exactly the elements that pass, in their original order, as a subsequence. When every element passes, it keeps everything. |
| Seqs.FilterCount | admin-tool/admin.js:357-362 | An element that passes is kept as often as it occurs; one that fails is not kept. |
| Seqs.FilterFilter | scripts/archive.js:181-182 | Two filters in a row keep exactly what passes both tests. |
| Seqs.Flatten | scripts/archive.js:94 | `flat()` holds exactly the elements of the inner lists. |
| Schema.NormalizeTags | admin-tool/admin.js:228-236 | Every resulting tag is trimmed and non-empty. An array gives its non-empty trimmed elements, in order and with their counts. A non-blank string gives the non-empty trimmed pieces of its trimmed text split at commas, in order and with their counts. A blank string or anything else gives no tags. |
| Schema.NormalizeTagsKeepsClean | admin-tool/admin.js:229 | Clean tags pass through unchanged. |
| Schema.NormalizeTagsIdempotent | admin-tool/admin.js:228-236 | Normalising normalised tags changes nothing. |
| Schema.TagsFieldRoundTrip | admin-tool/admin.js:407 | Clean comma-free tags shown in the tag field as `tags.join(', ')` and read back by the handler at line 522 are the same tags. |
| Schema.SpacedPieces | admin-tool/admin.js:233 | Each comma piece of a `', '`-joined field has no comma and trims to its tag. |
| Schema.NormalizeFiles | admin-tool/admin.js:14-17 | One link per file entry, in order, with `''` for a missing label or URL. |
| Schema.NormalizeDictionary | admin-tool/admin.js:92-100 | A rebuilt dictionary has trimmed text fields and clean definitions. |
| Schema.CleanOptional | admin-tool/admin.js:93 | Definitions that are not an array read as none. Otherwise the result is the non-empty trimmed definitions, in order and with their counts. |
| Schema.Text | admin-tool/admin.js:19-23 | `String(x ?? '').trim()` is trimmed, and an already trimmed value comes back as it is. |
| Schema.NormalizeWorksheet | admin-tool/admin.js:11-27 | The result is a worksheet in canonical shape. |
| Schema.NormalizeRecipe | admin-tool/admin.js:53-66 | The result is a recipe in canonical shape. |
| Schema.NormalizeComic | admin-tool/admin.js:89-111 | The result is a comic in canonical shape. |
| Schema.Normalize | admin-tool/admin.js:11-111 | `normalize` for a kind returns a record of that kind in canonical shape. |
| Schema.WorksheetFixed | admin-tool/admin.js:11-27 | A canonical worksheet written out as JSON normalises back to itself. |
| Schema.RecipeFixed | admin-tool/admin.js:53-66 | A canonical recipe written out as JSON normalises back to itself. |
| Schema.ComicFixed | admin-tool/admin.js:89-111 | A canonical comic written out as JSON normalises back to itself. |
| Schema.CanonicalIffFixedPoint | admin-tool/admin.js:11-111 | A record is a fixed point of normalisation exactly when it is canonical. |
| Schema.NormalizeIdempotent | admin-tool/admin.js:726 | Normalising twice, as export does with restored or loaded records, equals normalising once. |
| Schema.ComicKeepsEmptyDictionary | admin-tool/admin.js:92-100 | A dictionary object with every field missing survives `normalize` as an all-empty dictionary, not `null`. |
| Schema.FileUrls | admin-tool/admin.js:45 | `files.map(f => f.url)`: one URL per file, in order. |
| Schema.ManifestPaths | admin-tool/admin.js:41-47 | The paths are the image, then for a worksheet the gallery entries and the file URLs, in that order with empty strings dropped and duplicates kept: a subsequence with every non-empty path as often as it occurs. Recipes and comics (lines 81-83 and 125-127) list only their image. |
| Validation.IdsOf | admin-tool/admin.js:34 | The `ids` set holds exactly the ids of the records seen, blank ones included. |
| Validation.Message | admin-tool/admin.js:32-36 | A duplicate message is exactly `Duplicate id: ` and the id; every other message starts with the kind's name (`Worksheet`, `Recipe`, `Comic`, as at lines 71-78 and 117-122), so the two never collide. `MissingIdInRecord` and `DuplicateMessages` state which records get which message. |
| Validation.Problems | admin-tool/admin.js:28-40 | An empty list has no problems. What the problems mean for a list is stated by `ValidateEmptyIff`, `DuplicateMessages` and `MissingIdAt`. |
| Validation.IdProblems | admin-tool/admin.js:32-33 | The id checks report only `missing id` and `Duplicate id`. |
| Validation.FieldProblems | admin-tool/admin.js:35-36 | The field checks never report an id problem. |
| Validation.TitleImageProblems | admin-tool/admin.js:35-36 | The title and image checks report only a missing title or image. |
| Validation.RecipeProblems | admin-tool/admin.js:76-77 | The recipe checks report only empty ingredients or empty instructions. |
| Validation.Validate | admin-tool/admin.js:28-40 | The loop's error list is the messages of the record-by-record specification, in order. |
| Validation.CheckRecord | admin-tool/admin.js:31-38 | The callback pushes exactly the messages of one record, given the ids seen before it. |
| Validation.CheckId | admin-tool/admin.js:32-33 | The callback pushes a missing-id message for a blank id and a duplicate message for a non-blank id already seen. |
| Validation.CheckFields | admin-tool/admin.js:74-77 | The callback pushes the title, image and, for recipes, ingredient and instruction messages, naming the record by id or `#n`. |
| Validation.CheckTitleImage | admin-tool/admin.js:35-36 | The callback pushes the missing-title and missing-image messages. |
| Validation.CheckRecipe | admin-tool/admin.js:76-77 | For recipes, the callback pushes a message when no ingredient line is non-empty and when the instructions are empty. |
| Validation.RecordProblemsEmpty | admin-tool/admin.js:31-38 | One record draws no message exactly when it is complete for its kind and its id has not been seen. |
| Validation.DistinctIdsSnoc | admin-tool/admin.js:33-34 | Appending a record keeps non-blank ids distinct exactly when its id is blank or new. |
| Validation.ValidateEmptyIff | admin-tool/admin.js:28-40 | `validate` returns no errors exactly when every record is complete and no non-blank id repeats. |
| Validation.CountIdSeen | admin-tool/admin.js:33-34 | An id is in the `ids` set exactly when some earlier record carries it. |
| Validation.RecordDuplicates | admin-tool/admin.js:33 | One record draws a `Duplicate id: x` message exactly when its id is a non-blank `x` that was seen before. |
| Validation.DuplicateMessages | admin-tool/admin.js:33-34 | A non-blank id carried by n records gives exactly n - 1 `Duplicate id` messages. A blank id gives none. |
| Validation.MissingIdInRecord | admin-tool/admin.js:32 | One record's `#n: missing id` names its own 1-based position, and only when its id is blank. |
| Validation.MissingIdAt | admin-tool/admin.js:32 | A `missing id` message names exactly the 1-based positions whose id is blank. |
| Editor.Lines | admin-tool/admin.js:555 | A text area read as lines holds exactly the non-empty trimmed lines, in order and with their counts, each trimmed and non-empty. |
| Editor.LinesRoundTrip | admin-tool/admin.js:419 | Clean lines without line breaks, shown joined by `'\n'` and read back by the handler at line 555 (or 623-626 for definitions), are the same lines. |
| Editor.Cleanup | admin-tool/admin.js:583-594 | `cleanupComicDictionary` keeps the dictionary exactly when a text field has non-blank content or a definition exists. Otherwise it becomes `null`. |
| Editor.EnsureDictionary | admin-tool/admin.js:577-581 | `ensureComicDictionary` keeps an existing dictionary and otherwise creates one with no content. |
| Editor.Written | admin-tool/admin.js:596-629 | Each dictionary handler writes its own sub-field (definitions as cleaned lines) and keeps the other three. |
| Editor.EditDictionary | admin-tool/admin.js:596-629 | After ensure, write and clean-up the dictionary is null or has content, and when kept it is the written dictionary. |
| Editor.RemoveAt | admin-tool/admin.js:456 | `splice(i, 1)` drops exactly position `i` and shifts the rest down, in order. |
| Editor.ApplyEdit | admin-tool/admin.js:511-629 | No handler changes a record's kind or its id. |
| Editor.DictionaryInvariant | admin-tool/admin.js:596-629 | Each dictionary handler writes its own sub-field of the existing dictionary, or of a fresh empty one, then cleans up; the rest of the record is unchanged. Afterwards the dictionary is `null` or has content, and it is `null` exactly when the written dictionary has none. |
| Editor.TermCreatesDictionary | admin-tool/admin.js:596-603 | Typing a term into a comic without a dictionary creates one holding just that term. A blank term leaves it `null`. |
| Editor.TextHandlersSetOneField | admin-tool/admin.js:512-576 | The title, description, image, alt and instructions handlers each store the raw value in their own field and change nothing else. |
| Editor.ListHandlersSetOneField | admin-tool/admin.js:520-557 | The tag field stores the normalised tags and the ingredient area its cleaned lines; nothing else changes. |
| Editor.FileFieldTouchesOneRow | admin-tool/admin.js:478-490 | A file row's label or URL handler changes that one field of that one row and nothing else. |
| Editor.RemoveImageRowKeepsOthers | admin-tool/admin.js:455-459 | Removing a gallery row drops exactly that row, keeps the others in order, and changes nothing else. |
| Editor.AddRowsAppend | admin-tool/admin.js:209-225 | The add buttons append one blank gallery row or one blank file row and leave the rest of the record unchanged. |
| Editor.RowEditTouchesOneRow | admin-tool/admin.js:445-448 | A gallery row edit sets exactly that row and keeps the other rows and the rest of the record. |
| Editor.RemoveRowKeepsOthers | admin-tool/admin.js:497-501 | Removing a file row drops exactly that row, keeps the others in order and leaves the rest of the record unchanged. |
| Editor.TagsStayClean | admin-tool/admin.js:520-526 | Once tags are clean, every handler leaves them clean, because the tags field is re-normalised as it is typed. |
| Grouping.Members | scripts/archive.js:153-157 | A group's array holds only elements with its key. |
| Grouping.MembersIsFilter | scripts/archive.js:153-157 | A group's array is exactly the elements with its key, in input order. |
| Grouping.Index | scripts/archive.js:152-157 | The `forEach` fills the `Map` with one entry per key present, each holding that key's elements in order. |
| Grouping.IndexStep | scripts/archive.js:155-156 | Pushing the next element keeps the `Map` an index of the longer prefix. |
| Grouping.GroupBy | scripts/archive.js:159 | The keys come out strictly sorted. Exactly the keys present appear, and each group is that key's members. |
| Grouping.InOwnGroup | scripts/archive.js:154-156 | Every element lands in the group under its own key. |
| Grouping.OneGroupPerKey | scripts/archive.js:159 | No key heads two groups. |
| Grouping.GroupsNonEmpty | scripts/archive.js:155-156 | No group is empty. |
| Manifest.LastIndexOf | admin-tool/admin.js:788 | `lastIndexOf` finds the last position holding the character, or -1 when there is none. |
| Manifest.FolderOf | admin-tool/admin.js:786-790 | `folderOf` is empty exactly when the path has no `/`. Otherwise it ends in `/`. |
| Manifest.Basename | admin-tool/admin.js:791-795 | `basename` holds no `/`. |
| Manifest.PathSplit | admin-tool/admin.js:786-795 | `folderOf(p) + basename(p) == p`. |
| Manifest.AllPaths | admin-tool/admin.js:739-746 | Every gathered path is non-empty. |
| Manifest.GatherPaths | admin-tool/admin.js:739-746 | The loop gathers every record's paths in order, plus one warning per path occurrence with a space. |
| Manifest.PushPaths | admin-tool/admin.js:741-745 | One record's paths are appended, and the warnings stay those of all paths so far. |
| Manifest.SpaceWarningInjective | admin-tool/admin.js:744 | A warning names exactly one path. |
| Manifest.WarningPerOccurrence | admin-tool/admin.js:744 | Each occurrence of a path with a space gives exactly one warning naming it. A path without a space gives none. |
| Manifest.FileLines | admin-tool/admin.js:773 | There is one `  - basename` line per file of the folder, in order. |
| Manifest.WarningLines | admin-tool/admin.js:757 | There is one `- warning` line per warning, in order. |
| Manifest.WarningBlock | admin-tool/admin.js:754-758 | No warnings give no block; otherwise `WARNINGS:`, one `- ` line per warning in order, and a blank line. |
| Manifest.ManifestLines | admin-tool/admin.js:750-780 | The manifest starts with the four header lines, then the warnings block, then the upload heading, and ends with the JSON replacement lines and the note. `BuildLines` and `ExportManifest` state the whole text. |
| Manifest.BuildLines | admin-tool/admin.js:750-780 | The pushes produce exactly the manifest's lines: the header, the warnings block if any, the folders, and the footer. |
| Manifest.PushGroups | admin-tool/admin.js:771-775 | The folder loop appends every folder's lines, in order. |
| Manifest.PushWarnings | admin-tool/admin.js:755-759 | The `WARNINGS:` block is pushed only when there are warnings. |
| Manifest.PushWarningLines | admin-tool/admin.js:757 | One line is pushed per warning. |
| Manifest.PushGroup | admin-tool/admin.js:772-774 | For one folder, its title (or `(no folder)`), its files, and a blank line are pushed. |
| Manifest.ExportManifest | admin-tool/admin.js:734-784 | The file is `upload-manifest-<dataset>.txt`. The folders are strictly sorted and are exactly the folders of the gathered paths. Each folder lists its distinct paths. The text is the manifest lines joined by line feeds. |
| Manifest.MembersSorted | admin-tool/admin.js:763-767 | A folder's paths are strictly sorted, so no file is listed twice. |
| Manifest.ListedPathsRoundTrip | admin-tool/admin.js:772-773 | Under a folder's heading, the folder plus a listed base name is the full path. |
| Store.NormalizeAll | admin-tool/admin.js:646 | `parsed.map(normalize)` succeeds exactly when no element is `null`, and then gives one record per element. |
| Store.SnapshotItems | admin-tool/admin.js:263 | The saved items read back as the records' JSON, one per record. |
| Store.NormalizeAllValid | admin-tool/admin.js:284 | Normalised records are of the dataset's kind and have trimmed ids. |
| Store.NormalizeEach | admin-tool/admin.js:726 | `items.map(normalize)` normalises each record's JSON. |
| Store.SnapshotRoundTrip | admin-tool/admin.js:258-297 | Restoring a saved dataset gives back its records, re-normalised. Restoring under another dataset gives nothing. |
| Store.NormalizeEachFixed | admin-tool/admin.js:726 | Re-normalising canonical records of the right kind changes nothing. |
| Store.NormalizeEachIdempotent | admin-tool/admin.js:726 | Re-normalising normalised records changes nothing, and normalised records are canonical. |
| Store.FindById | admin-tool/admin.js:308 | `find` by id gives the first record with that id, or none when no record has it. |
| Store.FindByIdUpdate | admin-tool/admin.js:308 | Rewriting a record without changing its id moves no lookup. |
| Store.FirstId | admin-tool/admin.js:650 | `items[0]?.id \|\| null` is the first record's id, and is absent when there is no record or that id is blank. |
| Store.SlugifyId | admin-tool/admin.js:299-304 | A slug is non-empty and trimmed. |
| Store.SlugifyIdShape | admin-tool/admin.js:299-304 | A slug is the kind's letter, a dash, then the count plus one zero-padded to three digits. |
| Store.IdBase | admin-tool/admin.js:798 | The base `uniqueId` starts from is non-empty and trimmed. |
| Store.SuffixedInjective | admin-tool/admin.js:802 | Two suffixes give two different candidates. |
| Store.SuffixedTrimmed | admin-tool/admin.js:803 | A suffixed id is non-empty and trimmed. |
| Store.SuffixesTakenMeans | admin-tool/admin.js:802 | The loop's invariant means every suffix from 2 below `n` is taken. |
| Store.FreeSuffix | admin-tool/admin.js:801-803 | The loop returns the least suffix from 2 on that no record has. |
| Store.UniqueId | admin-tool/admin.js:797-804 | `uniqueId` returns a non-empty trimmed id that no record has. That id is the base when free, otherwise the base with the least free suffix. |
| Store.ExportOf | admin-tool/admin.js:717-732 | The export fails with the banner exactly when `validate` reports something. Otherwise `<kind>.json` holds the re-normalised records. |
| Store.Banner | admin-tool/admin.js:720-721 | The banner starts with `Fix these issues before export:` and a list marker. `BannerListsErrors` states that it holds every error. |
| Store.BannerListsErrors | admin-tool/admin.js:720-721 | Every error the validation reports appears in the banner. |
| Store.NormalizeKeepsId | admin-tool/admin.js:19 | `normalize` keeps an id that is already trimmed. |
| Store.ExportSucceedsIff | admin-tool/admin.js:719-723 | The export succeeds exactly when every record is complete and no non-blank id repeats. |
| Store.ExportedRecords | admin-tool/admin.js:726 | Exported records are canonical, of the store's kind, with non-empty distinct ids. Re-normalising them changes nothing. |
| Store.ExportBlankTitleSlipsThrough | admin-tool/admin.js:717-727 | As written, a worksheet titled `" "` passes validation and is exported with an empty title. |
| Store.CheckedExportOf | admin-tool/admin.js:717-732 | The corrected export writes under the kind's file name. |
| Store.CheckedExportComplete | admin-tool/admin.js:717-732 | The corrected export succeeds exactly when the records it writes are complete with distinct ids. It writes those records, and it agrees with the export as written on canonical records. |
| Store.ListFilter | admin-tool/admin.js:354-362 | The list shows, in order and as often as they occur, exactly the records whose id, title and tags contain the query. A blank query shows all records. |
| Store.ListBlob | admin-tool/admin.js:359-360 | The searched text is lower-case and holds the id, the title and the space-joined tags with two separating spaces. |
| Store.ListMatch | admin-tool/admin.js:357-361 | A blank query keeps every record; otherwise a kept record's text contains the trimmed query, lower-cased. `ListFilter` and `TitleHitListed` rest on it. |
| Store.ListFilterCaseInsensitive | admin-tool/admin.js:355 | The list filter ignores the case of the query. |
| Store.TitleHitListed | admin-tool/admin.js:360-361 | A record whose title contains the query, ignoring case, is listed. |
| Store.NewRecord | admin-tool/admin.js:663-680 | The new record is of the dataset's kind, canonical, and carries the given id. |
| Store.NewRecordNormalized | admin-tool/admin.js:663-680 | The new record is `normalize({ id, title: '' })`, and the defaults written afterwards are the ones `normalize` gave. |
| Store.CopyTitle | admin-tool/admin.js:695 | A copy's title is never empty and begins with the original title; an untitled record's copy is titled `(copy)`. |
| Store.LoadOutcomeOf | admin-tool/admin.js:634-658 | Nothing happens without a file; the not-an-array banner is for JSON that is not an array; the records are loaded exactly for an array with no `null` element. `DocumentStore.Load` states the new state for each outcome. |
| Store.DocumentStore.SelectedIndex | admin-tool/admin.js:306-309 | `getSelected` names the first record carrying the selected id. It names none when no record carries it, and none without a selection or with an empty one. |
| Store.DocumentStore.constructor | admin-tool/admin.js:820-827 | Start-up restores the worksheet draft. When there are records and a selection, it saves that selection back. |
| Store.DocumentStore.Save | admin-tool/admin.js:258-270 | The slot holds the current snapshot, or is unchanged when storage refuses the write. |
| Store.DocumentStore.MarkDirty | admin-tool/admin.js:252-256 | Sets the dirty flag and saves. |
| Store.DocumentStore.Restore | admin-tool/admin.js:272-297 | When the slot holds this dataset's items, restore takes them normalised, along with the selection and file name. Otherwise the store starts empty. |
| Store.DocumentStore.SwitchKind | admin-tool/admin.js:198-204 | The dataset changes, the selection is cleared, and the new dataset's draft is restored with its selection and file name. Without a draft of that dataset, the store is empty with no selection and no file name. |
| Store.DocumentStore.Select | admin-tool/admin.js:311-316 | The id is selected and saved. |
| Store.DocumentStore.Load | admin-tool/admin.js:634-658 | A readable array of non-null elements replaces the records with their normalised forms. Then the file name is kept, the first id is selected, dirty is cleared, and the store saves. Any other upload changes nothing. |
| Store.DocumentStore.Replace | admin-tool/admin.js:648-654 | Sets the records, the file name and the first id as the selection, clears dirty, and saves. |
| Store.DocumentStore.New | admin-tool/admin.js:660-687 | A blank record with a fresh unique id from the slug goes to the top of the list and is selected. The store is then dirty and saved. |
| Store.DocumentStore.Prepend | admin-tool/admin.js:682-684 | `unshift` puts the record first, selects it, marks dirty and saves. |
| Store.DocumentStore.Duplicate | admin-tool/admin.js:689-701 | Without a selection, nothing changes. Otherwise a copy of the selected record goes to the top, with a fresh unique id from `<id>-copy` and a `(copy)` title, and is selected. |
| Store.DocumentStore.Delete | admin-tool/admin.js:703-715 | Without a selection or confirmation, nothing changes. Otherwise the first record with the selected id is removed, the new first id is selected, and the store is dirty and saved. |
| Store.DocumentStore.EditSelected | admin-tool/admin.js:511-629 | A handler rewrites only the selected record and keeps the selection. Without a selection, nothing changes. |
| Store.DocumentStore.Update | admin-tool/admin.js:512-515 | Rewrites one record in place, keeps the selection, marks dirty and saves. |
| Store.DocumentStore.ExportJson | admin-tool/admin.js:717-732 | The export handler's outcome fails exactly when some record is incomplete or a non-blank id repeats. |
| Archive.CoerceTags | scripts/archive.js:72-74 | An array is kept as it is. A non-blank string gives one piece per comma plus one, empty pieces included, each the trimmed piece of the split at that position. Anything else gives no tags. |
| Archive.CoerceTagsRoundTrip | scripts/archive.js:72-74 | Trimmed comma-free tags joined by commas read back as the same tags. |
| Archive.SearchParts | scripts/archive.js:77-83 | The parts are the title, the description, the ingredient lines (none when the ingredients are not an array), the instructions, then the tags. |
| Archive.SearchBlob | scripts/archive.js:88 | The search text has no upper-case letter; `SearchBlobHasParts` states that it holds every part. |
| Archive.ToEntry | scripts/archive.js:71-90 | The page's copy keeps the item, carries the coerced tags, and has a lower-case search text holding every part lower-cased. |
| Archive.SearchBlobHasParts | scripts/archive.js:77-88 | `_search` has no upper-case letter and contains every part lower-cased: title, description, ingredients, instructions and tags. |
| Archive.LowerEach | scripts/archive.js:94 | Each tag is lower-cased, in place. |
| Archive.TagLists | scripts/archive.js:94 | There is one lower-cased tag list per item. |
| Archive.FlatTags | scripts/archive.js:94 | The flattened list holds exactly the lower-cased tags of all items. |
| Archive.AllTags | scripts/archive.js:93-95 | The chips are strictly sorted and are exactly the lower-cased tags of the items. |
| Archive.Pressed | scripts/archive.js:115-117 | A chip is pressed exactly when its text is the active tag. |
| Archive.Toggle | scripts/archive.js:113 | A click clears the active tag exactly when it was the chip's tag, and otherwise makes the chip's tag active. |
| Archive.ClickPressesOnlyThatChip | scripts/archive.js:112-117 | After a click, the clicked chip is pressed exactly when it was not, and no other chip is pressed. |
| Archive.ToggleTwice | scripts/archive.js:113 | Two clicks on the same chip leave it on if it was on, and clear the active tag otherwise. |
| Archive.RenderFilterIsFilter | scripts/archive.js:177-182 | The query filter followed by the tag filter is one filter by both conditions. |
| Archive.Shown | scripts/archive.js:177-182 | A blank query with no or an empty tag shows everything; a shown entry holds the trimmed, lower-cased query and, for an active tag, has a tag equal to it ignoring case. |
| Archive.RenderFilter | scripts/archive.js:177-182 | Every drawn entry is one of the items and is shown; with a blank query and no tag, all items are drawn. `RenderFilterIsFilter` and `RenderFilterSpec` give order, completeness and counts. |
| Archive.RenderFilterSpec | scripts/archive.js:177-182 | The drawn items keep their order and are exactly those passing the query and the active tag, each as often as it occurs. With a blank query and no tag, every item is drawn. |
| Archive.RenderFilterIgnoresCase | scripts/archive.js:178 | Typing the query in other capitals draws the same items. |
| Archive.PartHitShown | scripts/archive.js:77-88 | An item whose title, description, ingredient, instructions or tag contains the query, ignoring case, is drawn. |
| Archive.ChipNeverEmpty | scripts/archive.js:182 | With a blank query, clicking any chip draws at least one item; a blank chip sets no tag filter. |
| Archive.GroupKey | scripts/archive.js:154 | A section key is the first tag lower-cased. A missing or empty first tag gives `untagged`. The key is non-empty and lower-case. |
| Archive.RenderGrouped | scripts/archive.js:148-175 | Sections come in ascending key order, one per key present. Each item is in the one section under its own key. No section is empty, and each keeps the items' order. |
| Archive.ArchiveState.constructor | scripts/archive.js:97-101 | The initial state has no query, no active tag and no grouping. |
| Archive.ArchiveState.Search | scripts/archive.js:196-199 | Typing stores the raw query. |
| Archive.ArchiveState.ClickChip | scripts/archive.js:113 | A click clears the active tag when it was this chip's tag, and otherwise sets it to this chip's tag. |
| Archive.ArchiveState.SetGrouping | scripts/archive.js:203-206 | The toggle sets grouping on or off. |
| Archive.ArchiveState.Clear | scripts/archive.js:209-220 | Clear resets the query, the active tag and the grouping. |
| Archive.ArchiveState.Render | scripts/archive.js:177-193 | Render draws the filtered items as cards, or as sections when grouping is on. |

## Findings

| source | as written | input that shows it | evidently intended | confidence | as-written member | corrected member |
|---|---|---|---|---|---|---|
| admin-tool/admin.js:717-727 | `validate` checks the records as stored. `normalize`, which trims, runs only afterwards on the output. | A worksheet whose title is typed as a single space. The title field stores it untrimmed, `!it.title` is false, and the file is written with `"title": ""`. | The exported file has every required field, as the validation messages promise. | medium, not executed | Store.ExportBlankTitleSlipsThrough | Store.CheckedExportComplete |

The corrected export (`Store.CheckedExportOf`) validates the records it is about to write. For canonical records, which is every record straight after a load or restore, it agrees with the export as written.

## Left out

**Page, browser and input/output:**

- Rendering is not modelled. This covers the DOM, the editor panels, list items, card markup, `aria-pressed` writes, the results count and status text. Only the data each view is drawn from is modelled (`Archive.View`, `Store.ListFilter`). The export and load banners appear as results.
- Asynchronous and browser calls become plain inputs. `fetch` of the archive data, `file.text()` and `JSON.parse` become inputs (`Upload`, `Parsed`, `Slot`), and `downloadText` becomes a returned result: the manifest export returns its file name and text, the JSON export returns its file name and the records it writes.
- The JSON text of the export, `JSON.stringify(out, null, 2)` at admin-tool/admin.js:730, is not modelled: `Store.ExportOf` and `Store.DocumentStore.ExportJson` stop at the records that are serialised.
- The manifest timestamp `new Date().toISOString()` is the parameter `generated`. The `confirm()` answer is the parameter `confirmed` of `Delete`.
- `localStorage` is the `Slot` value. A write that throws, for example over quota, is the flag `storageWritable`: the write is skipped and nothing else changes. An entry that is not JSON reads as `Garbled`.

**Values and JavaScript semantics:**

- `toLowerCase` is modelled for ASCII letters only. Other letters are left as they are.
- `sort` order is modelled as comparison of characters, that is code-point order. JavaScript compares UTF-16 code units, which gives a different order only for strings holding characters above U+FFFF.
- `String(x)` of numbers, booleans and objects found in JSON fields or tag arrays is not modelled. Fields are strings or absent, and tag and line arrays hold strings.
- Records are values. The source edits the selected object in place through `getSelected`; the model rewrites the list at the selected index, which gives the same state because no other reference to the object is kept.
- `slugifyId`'s `prefix` argument is not modelled. It is used only for a dataset name outside the three kinds, which the select box cannot produce.

**Scope:**

- Editor handlers whose panel is hidden for the selected record's kind cannot fire. `Store.DocumentStore.EditSelected` requires the edit to be applicable to the selected record.
- The archive page's comic list (`scripts/archive.js:1-27`) is not part of this model.
- The archive page's fetched data is modelled as an array of objects (`RawItem`). A `null` element makes `item.tags` throw at scripts/archive.js:72, and a payload that is not an array makes `rawItems.map` throw at scripts/archive.js:71; either way the page draws no chips and no cards. Neither case can be expressed in the model.
- `scripts/index.js`, `comic.js`, `recipe.js`, `worksheet.js`, `contacts.js` and `nav.js` are not part of this model.

**Behaviour the model follows:**

- Loading or restoring an array that holds `null` does not give a blank record. `normalizeTags(item.tags)` throws on `null`. Loading then shows the "Could not load JSON" banner and changes nothing. Restoring resets to an empty dataset. The model follows the code.

**Weaker contracts:**

- Editor.ApplyEdit: its own contract states only that kind and id are kept. Each handler's effect is stated by a lemma: title, description, image, alt and instructions by `Editor.TextHandlersSetOneField`; tags and ingredients by `Editor.ListHandlersSetOneField`; gallery rows by `Editor.AddRowsAppend`, `Editor.RowEditTouchesOneRow` and `Editor.RemoveImageRowKeepsOthers`; file rows by `Editor.AddRowsAppend`, `Editor.FileFieldTouchesOneRow` and `Editor.RemoveRowKeepsOthers`; term, phonetic, part of speech and definitions by `Editor.DictionaryInvariant`, which gives the new record for each, and `Editor.TermCreatesDictionary`.
- Store.CheckedExportOf: its own contract states only the file name. What it writes, and when it succeeds, is stated by `Store.CheckedExportComplete`.
