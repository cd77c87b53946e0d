# Chapter-to-DOCX page: a verified model

This project models the logic of a small browser page (`index.js`). The user pastes the text of one chapter of a
story. The page wraps it in a word-processor document titled `Chương N` and stores it as `Chương N.docx` in a growing
list of generated files. It then advances the chapter counter N. Files can be downloaded one by one, or the checked
ones can be packed into one archive.

The model has five modules:

- `Lines`: the string operations the page relies on. These are `split('\n')` and its inverse (joining with
  newlines), `trim()` over the ECMAScript whitespace set, and the decimal rendering of a chapter number.
- `DocxLayout`: the paragraph layout `createDocxBlob` builds. A heading with the title comes first, then one body
  paragraph per line, verbatim. Lemmas show the layout loses nothing: the title and the text can be read back
  exactly, and every well-formed layout is the layout of its own text.
- `Chapters`: chapter titles and file names, and the clamping done by the chapter-number input. File names can be
  parsed back to their number, so two chapter numbers never share a file name.
- `FileList`: the generated-file record and the `find`-by-id lookups used by `downloadSingle` and
  `downloadSelected`. Lookups return the first file with the id. `CollectSelected` is the export loop: it adds
  each checked file that exists and counts only the ids that matched.
- `ChapterTool`: a `Session` class holding the page's module-level state. Its fields are the chapter counter, the
  file list and the three page elements the handlers write (chapter-number input, "next chapter" label, content
  text area). The invariant `Valid()` says:
  - the counter is at least 1;
  - both displays agree with the counter (the label shows counter + 1);
  - every file carries the name and title of its own chapter number.

  Every handler keeps `Valid()`. `ProcessChapter` leaves everything unchanged on blank text. Otherwise it appends
  exactly one file and raises the counter by one. `ResetChapterNumber` sets the counter back to 1 only when the
  user confirms, and never touches the file list. `ResetKeepsFiles` shows the consequence: after a reset, the list
  can hold two files named `Chương 1.docx`.

The rendered blob of a file is represented by its paragraph layout. Rendering is treated as a step that always
succeeds. File ids, produced in the page by `Date.now()`, are parameters. The answer to the confirmation dialog is a
boolean parameter. The chapter-number entry is given already parsed by `parseInt`, as an optional integer where
`None` stands for `NaN`.

## Model

| member | source | states |
|---|---|---|
| `Lines.Split` | index.js:85 | `text.split('\n')`: never empty; see SplitLength, SplitYieldsLines and JoinSplit for what the pieces are |
| `Lines.SplitLength` | index.js:85 | `split('\n')` yields one more piece than the text has newlines |
| `Lines.SplitYieldsLines` | index.js:85 | no piece of the split contains a newline |
| `Lines.JoinSplit` | index.js:85 | joining the pieces with newlines gives back the text exactly (nothing trimmed or dropped) |
| `Lines.SplitJoin` | index.js:85 | splitting a join of newline-free lines gives back exactly those lines |
| `Lines.IsBlank` | index.js:48 | the blank-content test `ProcessChapter` applies; TrimEmptyIffBlank shows it is `!text.trim()` |
| `Lines.TrimStart` | index.js:48 | the leading part `trim()` removes is all whitespace and the rest starts with non-whitespace |
| `Lines.TrimEnd` | index.js:48 | the trailing part `trim()` removes is all whitespace and the rest ends with non-whitespace |
| `Lines.Trim` | index.js:48 | `text.trim()` is no longer than the text and neither starts nor ends with whitespace; see TrimIsSlice and TrimEmptyIffBlank |
| `Lines.TrimIsSlice` | index.js:48 | `trim()` keeps a contiguous slice whose removed prefix and suffix are whitespace and whose ends are not |
| `Lines.TrimEmptyIffBlank` | index.js:48 | `!text.trim()` holds exactly when every character of the text is whitespace |
| `Lines.NatToString` | index.js:54 | a chapter number is written as decimal digits with no leading zero |
| `Lines.ParseNatToString` | index.js:54 | reading the decimal notation of a number back gives the number |
| `Lines.NatToStringInjective` | index.js:54 | different numbers have different decimal notations |
| `DocxLayout.Layout` | index.js:85-97 | the paragraph list `createDocxBlob` builds; see LayoutShape, LayoutRoundTrip and WellFormedIsLayout |
| `DocxLayout.LayoutShape` | index.js:85-97 | the layout has (number of lines) + 1 paragraphs: the title heading first, then line k as paragraph k + 1 |
| `DocxLayout.LayoutRoundTrip` | index.js:85-97 | the layout is well formed, and its heading and its joined body paragraphs give back exactly the title and the text |
| `DocxLayout.WellFormedIsLayout` | index.js:85-97 | every heading-then-lines document is the layout of its own text and title |
| `Chapters.ChapterTitle` | index.js:55 | the heading `Chương ${n}`; its number reads back through ParseChapterFileNameRoundTrip |
| `Chapters.ChapterFileName` | index.js:54 | the file name `Chương ${n}.docx`; see ParseChapterFileNameRoundTrip and ChapterFileNameInjective |
| `Chapters.ParseChapterFileNameRoundTrip` | index.js:54 | the chapter number can be read back from `Chương N.docx` |
| `Chapters.ChapterFileNameInjective` | index.js:54 | two chapter numbers share a file name exactly when they are equal |
| `Chapters.ClampChapterInput` | index.js:22-26 | the handler's value is at least 1; `NaN` or a number below 1 becomes 1, any other number is kept |
| `Chapters.ClampChapterInputIdempotent` | index.js:22-26 | re-entering a value the handler produced leaves it unchanged |
| `FileList.FindIndex` | index.js:150 | `find` by id returns the first position carrying the id, and nothing exactly when no file carries it |
| `FileList.Find` | index.js:150 | `find` by id yields a file of the list carrying the id, and nothing exactly when no file carries it |
| `FileList.DownloadSingle` | index.js:149-154 | `downloadSingle` saves the first file with the id under its name; an unknown id saves nothing |
| `FileList.FindUniqueId` | index.js:150 | when ids are distinct, looking up a file's id finds that very file |
| `FileList.ShadowedFileUnreachable` | index.js:150 | a file whose id an earlier file also carries is never the one found |
| `FileList.FindIndexAppend` | index.js:64 | appending a file never changes what an id already present finds |
| `FileList.SelectedEntries` | index.js:171-178 | the entries the export loop puts into the archive; see SelectedEntriesSound and SelectedEntriesComplete |
| `FileList.MatchCount` | index.js:169-177 | the `count` the export loop reaches; SelectedEntriesLength equates it with the number of entries |
| `FileList.SelectedEntriesLength` | index.js:171-178 | the archive gets one entry per checked id that matches a file, never more than the checked ids |
| `FileList.SelectedEntriesSound` | index.js:171-178 | every archive entry is the first file matching some checked id |
| `FileList.SelectedEntriesComplete` | index.js:171-178 | every checked id that matches a file puts that file into the archive |
| `FileList.CollectSelected` | index.js:168-178 | the export loop builds exactly the selected entries and its count equals the number of matching ids |
| `FileList.DownloadSelected` | index.js:161-186 | no checked box gives only a warning; no matching id gives nothing; otherwise an archive of the selected entries, whose size is the reported count (at least 1) |
| `ChapterTool.NewFile` | index.js:58-63 | the file record `processChapter` pushes; NewFileFits states its name, number and document |
| `ChapterTool.NewFileFits` | index.js:54-63 | a file built for chapter N is named `Chương N.docx`, is numbered N, and its document is headed `Chương N` |
| `ChapterTool.Session.constructor` | index.js:2-37 | the page starts at chapter 1 with no files (lines 2-3), and the `updateUIState()` call at line 37 makes the displays show 1 and 2 |
| `ChapterTool.Session.UpdateUIState` | index.js:41-44 | the input shows the counter and the "next chapter" label shows counter + 1 |
| `ChapterTool.Session.EditContent` | index.js:8 | the user editing the content text area: only its text changes, and the invariant is kept |
| `ChapterTool.Session.ChangeChapterInput` | index.js:22-27 | the counter becomes the clamped entry (so at least 1); files and content are untouched |
| `ChapterTool.Session.ProcessChapter` | index.js:46-78 | blank text: nothing changes. Otherwise exactly one file for chapter N (the counter before the call) is appended, the earlier files stay unchanged, the counter becomes N + 1, and the text area is emptied only when asked |
| `ChapterTool.Session.ResetChapterNumber` | index.js:141-147 | confirmed: the counter becomes 1; unconfirmed: nothing changes; the files are kept either way |
| `ChapterTool.ResetKeepsFiles` | index.js:141-146 | chapters 1 and 2, then a reset, then one more: the list holds `Chương 1.docx`, `Chương 2.docx`, `Chương 1.docx` |

## Left out

- DOM access, event wiring, `renderFileList`'s HTML and the select-all checkbox are page plumbing and are not
  modelled (index.js:6-37, 109-139, 156-159). The checked ids of `downloadSelected` are a parameter. The content text
  area is a field; user edits are `Session.EditContent`.
- The `docx` library and `Packer.toBlob` are foreign code. Only the paragraph sequence is modelled, not font sizes,
  spacing or alignment. Rendering is assumed to succeed.
- JSZip, `saveAs` and the asynchronous `generateAsync` chain are archive and download I/O. `DownloadSelected`
  returns the archive's entries instead.
- JSZip replaces an entry when a second one has the same name. After a reset, two files can share a name (see
  `ResetKeepsFiles`), and the saved archive then holds fewer files than the reported count. The model keeps every
  entry and does not capture this library behaviour.
- `showToast` and its `setTimeout` are UI timing. `ProcessChapter` reports its two toasts as its outcome, and
  `DownloadSelected`'s outcome stands for its two toasts (the warning when nothing is checked, and the count of
  files being saved). The reset toast is dropped.
- `Date.now()` ids are parameters. Nothing makes them distinct; `FindUniqueId` and `ShadowedFileUnreachable` state
  what follows with and without distinct ids.
- `parseInt`'s string rules (leading digits, signs, `"3.7"` read as 3) are not modelled: the handler receives the
  parsed optional integer.
- JavaScript numbers are doubles. Chapter numbers above 2^53 lose precision, and numbers of 10^21 or more print in
  exponent notation. An entry of about 309 or more digits parses to `Infinity`. That value passes the clamp at
  index.js:24 and names files `Chương Infinity.docx`, and `Infinity + 1` leaves the counter stuck. The model uses
  unbounded integers and plain decimal notation, so it has none of these cases.
- The `await` in `processChapter` is not modelled as an interleaving point. The page computes the file name before
  the await and reads the chapter number for `chapterNum` after it. If the number input changes during rendering,
  the two can disagree, and two overlapping calls can both use the same name. The model treats processing as one
  atomic step.
- Later iterations of this tool (merging sub-chapters into one document, folder grouping, persistence, the checklist
  view) are not part of `index.js` and are not modelled. They also normalise lines (trim, drop empty ones);
  `index.js` keeps every line verbatim, and the model follows `index.js`.
