# Integrated-Share drop zone: a verified model of `static/main.js`

The repository is one browser script, `static/main.js`, for a mock file-sharing
page: files dropped on a drop zone or chosen in a file picker are shown as rows
(icon, name, size, date) in a list, with a placeholder while the list is empty
and a label counting the rows. This project models the parts of that script
that are logic rather than DOM plumbing, and proves what they do.

- `text_util.dfy` (`TextUtil`): the runtime string operations the script
  relies on: ASCII `toLowerCase`, `split('.')` with `pop()`, and the decimal
  rendering of a count. Joining the pieces of a split with the separator gives
  the string back, the text after the last `.` is characterised (a dot-free suffix that is the whole name or
  follows a dot) and shown to commute with lower-casing, and decimal rendering
  is proved to read back to the number.
- `file_size.dfy` (`FileSize`): the integer part of `formatFileSize`, the
  `"0 B"` case and the unit index `floor(log_1024 bytes)` against the table
  `B, KB, MB, GB`. The index is proved to be the largest `i` with
  `1024^i <= bytes`; from `1024^4` bytes on it runs past the table (JavaScript
  then prints `undefined`), which the model keeps as `None`.
- `file_icons.dfy` (`FileIcons`): `getFileIconClass`. The nine extension lists
  are proved disjoint, so the result is the one class whose list holds the
  extension, and `fa-file` exactly when none does; the result is the same for
  names that differ only in ASCII case.
- `file_item.dfy` (`FileItem`): what `createFileItem` puts in a row, the
  batch-to-rows step of `addFilesToUI`, and the four mock records.
- `seq_facts.dfy` (`SeqFacts`): general sequence facts used in the proofs.
- `file_list.dfy` (`FileListUI`): the list. Pure functions on a `ListState`
  (the rows built by `createFileItem`, each one `.file-item` as long as its
  name and date are plain text, whether the placeholder is present, the label
  text, and how many other elements the page's markup put in the container)
  state what `addFilesToUI`, `updateFileCount`, both versions of
  `handleFiles`, `initPlaceholder`, `loadMockFiles`, the start-up sequence
  and the `load` handler do; the class `FileList` keeps the
  same state in fields, and each of its methods is proved to follow the
  matching function. Lemmas prove the invariants of a whole session and the
  script's quirks:
  - a batch is inserted as one block in its own order, so handling `[A, B]`
    shows `[A, B, ...]`;
  - start-up calls `initPlaceholder` before `loadMockFiles`, so the mocks are
    never loaded: an empty container gets the placeholder, which makes
    `loadMockFiles` see a child;
  - the re-wrapped `handleFiles` removes the placeholder even for an empty
    batch;
  - the drop listener is registered twice, and the first registration calls
    the name `handleFiles` after it has been rebound to the wrapper, so one
    drop adds its batch twice; the second change listener reads the file input
    after the first has cleared it, so one pick adds its batch once.

A batch keeps its order: handling `[A, B]` shows `[A, B, ...]`. Start-up never
loads the mock files.

Nothing here is I/O: browser events become method calls, a `File` becomes a
`FileData.BrowserFile` value, and the page's initial markup becomes the rows
given to the `FileList` constructor, together with the number of other
elements the markup puts in the container.

## Model

| member | source | states |
|---|---|---|
| `TextUtil.Lower` | static/main.js:17 | lower-casing keeps the length, maps each ASCII upper-case letter to its lower-case letter (code point plus 32) and leaves every other character unchanged, so no upper-case letter remains and `.` stays exactly where it was |
| `TextUtil.Split` | static/main.js:17 | `split` gives at least one piece, no piece holds the separator, and a single piece (the whole string) exactly when the separator does not occur |
| `TextUtil.JoinSplit` | static/main.js:17 | joining the pieces of a split with the separator gives back the string |
| `TextUtil.AfterLast` | static/main.js:17 | `split('.').pop()` holds no separator; its value is fixed by `AfterLastIsTextAfterLast` and `TextAfterLastUnique` |
| `TextUtil.AfterLastIsTextAfterLast` | static/main.js:17 | `split('.').pop()` is a dot-free suffix of the name that is either the whole name or preceded by a dot |
| `TextUtil.TextAfterLastUnique` | static/main.js:17 | only one string is the text after the last dot of a name |
| `TextUtil.AfterLastDotOfLower` | static/main.js:17 | taking the text after the last dot commutes with lower-casing |
| `TextUtil.NatToString` | static/main.js:116 | the rendering of a count is non-empty and all decimal digits; it is `"0"` exactly for zero, and every other count starts with a non-zero digit |
| `TextUtil.DecimalValueOfNatToString` | static/main.js:116 | reading the rendered digits back gives the count |
| `TextUtil.NatToStringInjective` | static/main.js:116 | different counts render differently |
| `FileSize.UnitIndex` | static/main.js:10-12 | the unit index `i` of a size of at least one byte satisfies `1024^i <= bytes < 1024^(i+1)` |
| `FileSize.UnitIndexIsLargest` | static/main.js:12 | `1024^j <= bytes` holds exactly for the `j` up to the unit index, so it is the largest such power |
| `FileSize.FormatFileSize` | static/main.js:8-13 | zero bytes and only zero gives `"0 B"`; otherwise the index brackets the size between powers of 1024, and the table entry exists exactly when the size is below `1024^4`, in which case it is `sizes[i]` |
| `FileSize.UnitExamples` | static/main.js:8-13 | 0 gives the `"0 B"` case, 1023 gives `B`, 1536 gives `KB`, 1048576 gives `MB`, and `1024^4` has no table entry |
| `FileIcons.IconOfExtension` | static/main.js:18-27 | the `if` chain only returns a non-generic class whose list holds the extension; `ListedExtensionIsRecognised` and `IconIsTheListHoldingExtension` give the converse and uniqueness |
| `FileIcons.ListedExtensionIsRecognised` | static/main.js:18-26 | every extension of a list is classified under that list's class |
| `FileIcons.IconIsTheListHoldingExtension` | static/main.js:18-27 | the class chosen for an extension is, for every non-generic class, that class exactly when its list holds the extension, and `fa-file` exactly when no list holds it |
| `FileIcons.ListsDisjoint` | static/main.js:18-26 | no extension is in two of the nine lists |
| `FileIcons.ClassNameInjective` | static/main.js:18-27 | the ten class names are distinct |
| `FileIcons.ExtensionOf` | static/main.js:17 | the extension is no longer than the name, has no dot and no ASCII upper-case letter |
| `FileIcons.ExtensionIsAfterLastDot` | static/main.js:17 | the extension is the lower-cased text after the last dot of the name |
| `FileIcons.GetFileIconClass` | static/main.js:16-28 | the result is always one of the ten class names |
| `FileIcons.IconCaseInsensitive` | static/main.js:17 | names equal up to ASCII case get the same icon class |
| `FileIcons.IconOfBareExtension` | static/main.js:16-19 | a name without a dot is looked up whole: `"pdf"` gives `fa-file-pdf` |
| `FileIcons.IconOfDotlessName` | static/main.js:16-27 | `"README"` gives `fa-file` |
| `FileIcons.IconOfTrailingDot` | static/main.js:16-27 | a trailing dot leaves an empty extension: `"report."` gives `fa-file` |
| `FileIcons.IconOfUpperCaseExtension` | static/main.js:16-18 | `"photo.JPG"` gives `fa-file-image` |
| `FileIcons.IconOfDoubleExtension` | static/main.js:16-23 | only the last extension counts: `"backup.tar.gz"` gives `fa-file-zipper` |
| `FileItem.RecordDate` | static/main.js:39 | the date shown is never empty: the record's date when present and non-empty, `'shared 1 hour ago'` when missing or empty |
| `FileItem.CreateFileItem` | static/main.js:30-43 | a row keeps the name, takes its icon from the classifier and its size from the formatter, and has a non-empty date: `'just now'` for a browser file, the record's date rule otherwise |
| `FileItem.RowsOf` | static/main.js:98-102 | the fragment holds one row per file, in the batch's order |
| `FileItem.MockFiles` | static/main.js:125-130 | there are four mock records, each a plain record with a non-empty date |
| `FileListUI.ChildCount` | static/main.js:175 | `children.length` (also tested at line 133) is zero exactly when the container holds no row, no placeholder and no other element |
| `FileListUI.CountLabel` | static/main.js:113-117 | the label starts with the decimal count, ending in `" item"` exactly when the count is 1 and in `" items"` otherwise |
| `FileListUI.CountLabelInjective` | static/main.js:116 | two counts never give the same label |
| `FileListUI.CountLabelOfZero` | static/main.js:116 | 0 gives `"0 items"` |
| `FileListUI.CountLabelOfOne` | static/main.js:116 | 1 gives `"1 item"` |
| `FileListUI.CountLabelOfTwo` | static/main.js:116 | 2 gives `"2 items"` |
| `FileListUI.UpdateCountSpec` | static/main.js:113-117 | recounting leaves rows and placeholder alone and makes the label count the rows |
| `FileListUI.IsEmptyBatch` | static/main.js:93 | a batch is empty exactly when it is absent or has no file |
| `FileListUI.AddFilesSpec` | static/main.js:92-111 | an absent or empty batch changes nothing; otherwise the placeholder is gone, the label counts the rows, and the batch's rows sit as one block in batch order at the front (prepend) or the back, the old rows keeping their order around it |
| `FileListUI.HandleSpec` | static/main.js:200-205 | the wrapped handler always leaves the placeholder removed, only removes it for an empty batch, and otherwise prepends the batch |
| `FileListUI.InitPlaceholderSpec` | static/main.js:174-185 | only the placeholder flag can change, and it is set exactly when it was set or the container had no children |
| `FileListUI.AppendEach` | static/main.js:134 | adding files one at a time at the back keeps the old rows in front and adds one row per file; with no file nothing changes, otherwise the placeholder is gone and the label counts the rows |
| `FileListUI.AppendNonEmptyBatch` | static/main.js:92-111 | appending a non-empty batch leaves the old rows followed by the batch's rows, no placeholder, the other elements unchanged, and the label counting all rows |
| `FileListUI.AppendTwice` | static/main.js:107 | appending two batches in turn equals appending their concatenation |
| `FileListUI.AppendEachIsOneBatch` | static/main.js:134 | adding any files one at a time at the back equals adding them as one batch |
| `FileListUI.AppendEachIntoEmpty` | static/main.js:133-136 | on a childless container, appending a batch one file at a time and recounting leaves exactly the batch's rows, counted |
| `FileListUI.MockCountLabel` | static/main.js:125-130 | the four mocks give the label `"4 items"` |
| `FileListUI.LoadMockFilesSpec` | static/main.js:132-137 | on a container with no children `loadMockFiles` shows exactly the four mocks in order, labelled `"4 items"`, with no placeholder; on any other container it only recounts |
| `FileListUI.StartupSpec` | static/main.js:187-188 | after start-up the rows and other elements are unchanged (the mocks are never loaded), the placeholder is present exactly when it was or the container had no children, and the label counts the rows |
| `FileListUI.StartupFromEmpty` | static/main.js:174-188 | an empty container ends start-up with the placeholder alone and `"0 items"` |
| `FileListUI.StartupBesideOtherElements` | static/main.js:174-188 | a container whose markup holds another element but no row gets neither the placeholder nor the mocks, and `"0 items"` |
| `FileListUI.MocksFirstWouldLoad` | static/main.js:132-185 | with `loadMockFiles` before `initPlaceholder`, an empty container would show the four mocks |
| `FileListUI.Step` | static/main.js:158-216 | every event leaves the placeholder removed and the other elements alone; an event with no files changes nothing else, and one with files leaves the label counting the rows |
| `FileListUI.HandlePrependsRows` | static/main.js:200-205 | the wrapped handler puts the batch's rows in front of the old rows, for any batch |
| `FileListUI.HandleNonEmptyBatch` | static/main.js:200-205 | for a non-empty batch the wrapped handler leaves the batch's rows in front of the old ones, no placeholder, the other elements unchanged, and the label counting old and new rows together |
| `FileListUI.DropAddsBatchTwice` | static/main.js:158-211 | one drop of a batch shows its rows twice in front of the old rows |
| `FileListUI.PickAddsBatchOnce` | static/main.js:164-216 | one pick shows the batch's rows once in front of the old rows |
| `FileListUI.StepKeepsInvariants` | static/main.js:200-216 | every event keeps "placeholder only when empty" and "label counts the rows", removes the placeholder, and keeps the old rows as the tail |
| `FileListUI.SessionKeepsInvariants` | static/main.js:200-216 | over any sequence of events the same holds, and once an event has happened or the placeholder is gone it never comes back |
| `FileListUI.PageKeepsInvariants` | static/main.js:187-226 | from page load (any markup rows, other elements and label text), start-up and any events keep both invariants and the markup's rows at the tail |
| `FileListUI.LoadHandlerSpec` | static/main.js:190-198 | the `load` handler keeps the rows and other elements, leaves the label counting the rows, and leaves the placeholder only when it was there and there are no rows |
| `FileListUI.LoadHandlerChangesNothing` | static/main.js:190-198 | on a state with the placeholder only in an empty list and the label counting the rows, the `load` handler changes nothing |
| `FileListUI.PageLoadChangesNothing` | static/main.js:187-198 | after start-up and any events, the `load` handler changes nothing |
| `FileListUI.BatchKeepsItsOrder` | static/main.js:98-105 | handling `[A, B]` on the empty start-up state gives rows `[A, B]`, no placeholder, label `"2 items"` |
| `FileListUI.LaterBatchGoesFirst` | static/main.js:104-105 | a later batch `[C]` then gives `[C, A, B]` |
| `FileListUI.EmptyBatchRemovesPlaceholder` | static/main.js:200-205 | handling an empty batch on the empty start-up state removes the placeholder and adds no row |
| `FileListUI.FileList.constructor` | static/main.js:2-6 | the container starts with its markup's rows and other elements, no placeholder, and the label's markup text |
| `FileListUI.FileList.UpdateFileCount` | static/main.js:113-117 | the new state is `UpdateCountSpec` of the old |
| `FileListUI.FileList.AddFilesToUI` | static/main.js:92-111 | the fragment loop and the insertion leave the state `AddFilesSpec` of the old |
| `FileListUI.FileList.HandleFilesOriginal` | static/main.js:119-123 | the unwrapped handler prepends a non-empty batch and ignores an empty one |
| `FileListUI.FileList.HandleFiles` | static/main.js:200-205 | the new state is `HandleSpec` of the old |
| `FileListUI.FileList.InitPlaceholder` | static/main.js:174-185 | the new state is `InitPlaceholderSpec` of the old |
| `FileListUI.FileList.AppendEachFile` | static/main.js:134 | the `forEach` loop, appending each file as a batch of its own, leaves the state `AppendEach` of the old |
| `FileListUI.FileList.LoadMockFiles` | static/main.js:132-137 | the guarded `forEach` over the mocks and the recount leave the state `LoadMockFilesSpec` of the old |
| `FileListUI.FileList.Startup` | static/main.js:187-226 | the new state is `StartupSpec` of the old |
| `FileListUI.FileList.OnDrop` | static/main.js:207-211 | a drop handles the batch twice, as `Step` with `Drop` says |
| `FileListUI.FileList.OnPick` | static/main.js:213-216 | a pick handles the batch and then an empty batch, as `Step` with `Pick` says |
| `FileListUI.FileList.OnLoad` | static/main.js:190-198 | the `load` event leaves the state `LoadHandlerSpec` of the old |

## Left out

- The DOM itself: element creation, `innerHTML` templates and document fragments; rows are records and the container is a sequence.
- The decimal part of `formatFileSize` (`Math.pow`, `toFixed(1)`, `parseFloat`): floating point. Only the `"0 B"` case and the unit choice are modelled.
- `FileSize.UnitIndex`: computes `floor(log_1024 bytes)` exactly; the source's `Math.log` quotient is floating point and could round differently at exact powers of 1024.
- The mock sizes `2.4 * 1024 * 1024`, `5.1 * 1024 * 1024` and `3.8 * 1024 * 1024` are fractional; the model stores their integer parts, which fall in the same unit.
- `toLowerCase` beyond ASCII: Unicode case mapping is not modelled.
- The copy-link and download buttons (static/main.js:67-83): they only call `alert` and `stopPropagation`, with no change of state.
- Drag styling, click forwarding to the hidden file input and the clearing of its value (static/main.js:139-156, 166, 169-172): no list state is involved; the clearing is reflected only in the empty second batch of `OnPick`.
- When the browser fires the `load` event is not modelled; `PageLoadChangesNothing` covers every point after start-up.
- `createFileItem` writes the name, and a plain record's date, through `innerHTML` (static/main.js:55-59). A name holding markup with class `file-item` adds elements that `updateFileCount` counts (static/main.js:114). The model treats names and dates as text, so `Counted` holds only for names and dates without such markup.
- `window.boundHandleFiles` and `window.addFilesToUI` (static/main.js:218-224): entry points for outside callers that are not part of the page.
- Where the markup's other elements sit among the rows is not tracked: the model keeps only their number, which no operation changes, and places the rows relative to each other.
- A `FileData` name may be empty: the model does not require the non-empty names that real files have.
