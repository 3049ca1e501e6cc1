# Logo generator core, in Dafny

This project models the logic of the `LogoGenerator` React component of
GenFast-IconMaker (`src/components/LogoGenerator.tsx`). The component is an
icon editor: the user picks an icon and styles it, and can undo and redo
each edit. The design can be downloaded as a PNG or JPEG, or as an icon
package holding twelve PNG sizes, a maskable icon, a web manifest, HTML meta
tags and a README. The model proves properties of four parts of the
component:

- **Edit history.** `updateHistory`, `handleUndo`, `handleRedo` and the
  `onStateChange` report.
  - Module `History` gives them as functions on a value.
  - Module `Editor` gives them as a class whose methods update the history,
    the cursor and the live fields in place.
  - Snapshots and partial updates are in module `Style`.
- **Icon search.** The filtered list, the visible grid and the dead random
  window of `handleRandomIcon` are in module `IconSearch`.
- **Icon package assembly.** The batch loop, `generateIconBatch`, the
  manifest, the meta tags and the README are in module `Package`.
  - The manifest and the zip archive are objects that the loops append to.
  - Whether each size rendered is an input.
- **Strings for preview and download.** The CSS background, the download
  file name and the outcome of a download request are in module `Export`.
  - Module `Text` holds the string helpers they rely on: lower-casing,
    substring search, decimal numbers, and join and split.

Each method is proved against a function of its inputs or its old state.
Lemmas about those functions state what the component promises. Examples:

- An undo followed by a redo restores the history.
- The undo and redo flags are on exactly when the move would change
  something.
- The manifest holds one entry per size that rendered, in declared order,
  with the maskable entry last.
- The CSS background reads back into the settings that produced it.

## Model

| member | source | states |
|---|---|---|
| Text.ToLower | src/components/LogoGenerator.tsx:257 | keeps the length; turns every upper-case letter into its lower-case counterpart, 32 code points on; leaves every other character as it was |
| Text.ToLowerIdempotent | src/components/LogoGenerator.tsx:257 | lower-casing twice is lower-casing once |
| Text.Contains | src/components/LogoGenerator.tsx:257 | `includes`: a prefix of the name is found, and nothing longer than the name is |
| Text.ContainsIff | src/components/LogoGenerator.tsx:257 | `includes` holds exactly when the query occurs at some position of the name |
| Text.ContainsEmpty | src/components/LogoGenerator.tsx:257 | every name includes the empty string |
| Text.NatToString | src/components/LogoGenerator.tsx:408 | the decimal text of a size is non-empty, all digits, and has no leading zero |
| Text.ParseNatToString | src/components/LogoGenerator.tsx:408 | reading the decimal text of a natural number gives the number back |
| Text.IntToString | src/components/LogoGenerator.tsx:301 | an angle's text is all digits exactly when the angle is not negative, and otherwise holds only digits and '-' |
| Text.ParseIntToString | src/components/LogoGenerator.tsx:301 | reading an angle's text gives the angle back |
| Text.IntToStringInjective | src/components/LogoGenerator.tsx:301 | distinct angles print differently |
| Text.JoinWith | src/components/LogoGenerator.tsx:508 | `join`: the text starts with the first part, and its length is the parts' total plus one separator between each neighbouring pair |
| Text.JoinFour | src/components/LogoGenerator.tsx:301 | four pieces joined by a separator are the pieces with the separator between each pair |
| Text.SplitNoSep | src/components/LogoGenerator.tsx:508 | a text without the separator splits into itself alone |
| Text.SplitAfterPiece | src/components/LogoGenerator.tsx:508 | splitting `a + sep + rest` gives `a` followed by the pieces of `rest` |
| Text.SplitJoin | src/components/LogoGenerator.tsx:508 | splitting the `join` of separator-free parts gives the parts back |
| Style.Merge | src/components/LogoGenerator.tsx:249 | `{ ...currentState, ...newState }`: every field the patch supplies is taken from the patch, and every other field is kept |
| Style.MergeUnique | src/components/LogoGenerator.tsx:249 | the spread result is the only snapshot that takes exactly the supplied fields |
| Style.MergeNoChange | src/components/LogoGenerator.tsx:249 | an empty patch leaves the snapshot unchanged |
| Style.MergeIdempotent | src/components/LogoGenerator.tsx:249 | applying the same patch twice equals applying it once |
| Style.MergeThen | src/components/LogoGenerator.tsx:249 | two patches in a row equal one combined patch in which the later one wins |
| Style.InitialState | src/components/LogoGenerator.tsx:128-151 | the seed snapshot has the given size, a shown gradient background whose first stop is also the solid colour, and a black icon |
| Style.View | src/components/LogoGenerator.tsx:204-220 | the live fields copied from a snapshot carry its rotation, icon colour and icon |
| Style.ApplyToView | src/components/LogoGenerator.tsx:284-287 | the live setters of a handler, on a preview that shows a snapshot, show what recording the same update into that snapshot gives |
| Style.ViewMerge | src/components/LogoGenerator.tsx:247-253 | setting the live fields from a patch gives what the merged snapshot shows |
| Style.MountedView | src/components/LogoGenerator.tsx:156-175 | after mounting, the icon colour follows the background toggle as the effect at lines 197-199 sets it, and the size is the given one |
| Style.MountedViewVersusSeed | src/components/LogoGenerator.tsx:128-175 | after mounting, the live icon colour is white while the seed snapshot records black; every other live field matches the seed snapshot |
| History.Seeded | src/components/LogoGenerator.tsx:128-152 | the initial history holds only the seed snapshot, and neither undo nor redo is offered |
| History.Push | src/components/LogoGenerator.tsx:247-253 | the cursor advances by one; the redo branch is dropped; earlier snapshots are kept; the new top is the merged snapshot; undo is offered and redo is not |
| History.Undo | src/components/LogoGenerator.tsx:201-204 | the snapshots are unchanged; the cursor steps back when it is above zero, and otherwise nothing changes |
| History.Redo | src/components/LogoGenerator.tsx:224-227 | the snapshots are unchanged; the cursor steps forward when it is below the top, and otherwise nothing changes |
| History.FlagsMeanMovement | src/components/LogoGenerator.tsx:191-195 | each reported flag is on exactly when its action would change the history |
| History.RedoUndo | src/components/LogoGenerator.tsx:201-245 | a redo after an undo restores the history |
| History.UndoRedo | src/components/LogoGenerator.tsx:201-245 | an undo after a redo restores the history |
| History.UndoAfterPush | src/components/LogoGenerator.tsx:201-253 | undoing an edit restores the previous snapshot, and redoing it shows the edit again |
| History.EditAfterUndoDiscardsBranch | src/components/LogoGenerator.tsx:250-251 | an edit after an undo overwrites the undone snapshot, and redo is no longer offered |
| History.PushAll | src/components/LogoGenerator.tsx:247-253 | a run of edits keeps the history valid |
| History.PushAllShape | src/components/LogoGenerator.tsx:247-253 | after `n` edits the cursor has moved up by `n`; the earlier snapshots are kept; the k-th new snapshot is the first k patches merged in order |
| History.EditsWithoutUndo | src/components/LogoGenerator.tsx:247-253 | after one or more edits, undo is offered, redo is not, and the current snapshot merges every patch |
| History.UndoTimesShape | src/components/LogoGenerator.tsx:201-204 | k undos move the cursor back by k and change nothing else |
| History.UndoEveryEdit | src/components/LogoGenerator.tsx:201-253 | undoing every edit of a run returns to the starting snapshot and offers redo |
| IconSearch.MatchesIgnoresQueryCase | src/components/LogoGenerator.tsx:257 | the match does not depend on the case of the query |
| IconSearch.Matches | src/components/LogoGenerator.tsx:257 | an icon matches exactly when its name is not empty and the lower-cased query occurs at some position of the lower-cased name |
| IconSearch.Filter | src/components/LogoGenerator.tsx:255-258 | the filtered list holds only catalog names that match the query |
| IconSearch.FilterComplete | src/components/LogoGenerator.tsx:255-258 | every catalog name that matches is kept |
| IconSearch.FilterAppend | src/components/LogoGenerator.tsx:255-258 | the filter keeps catalog order |
| IconSearch.FilterAllMatch | src/components/LogoGenerator.tsx:255-258 | a list whose names all match passes the filter unchanged |
| IconSearch.FilteredIcons | src/components/LogoGenerator.tsx:255-259 | an empty query leaves the whole catalog; any other query filters it |
| IconSearch.VisibleIcons | src/components/LogoGenerator.tsx:261-265 | an empty query shows the first 12 names; any other query shows the first `min(5, matches)` matches |
| IconSearch.EmptyQueryGrid | src/components/LogoGenerator.tsx:93-126 | with an empty query, the grid shows the first twelve catalog icons, Apple to Coffee |
| IconSearch.RandomWindow | src/components/LogoGenerator.tsx:279-280 | the window is the slice of up to five names that starts two before the pick and holds the picked name |
| Editor.PatchFor | src/components/LogoGenerator.tsx:284-287 | no handler records the icon colour, the background colour, the scale or the background toggle; a gradient stop is recorded as the whole gradient with that stop replaced |
| Editor.LogoEditor.constructor | src/components/LogoGenerator.tsx:128-199 | the history holds the seed snapshot at cursor 0; the live fields hold the mounted values; the query is empty |
| Editor.LogoEditor.ReportState | src/components/LogoGenerator.tsx:191-195 | `canUndo` is on exactly when an undo would move; `canRedo` is on exactly when a redo would move |
| Editor.LogoEditor.UpdateHistory | src/components/LogoGenerator.tsx:247-253 | the new history and cursor are those of `History.Push`; the live fields and the query are unchanged |
| Editor.LogoEditor.Undo | src/components/LogoGenerator.tsx:201-222 | the new history and cursor are those of `History.Undo`; when the cursor moved, the preview shows the snapshot under it, and otherwise nothing changed |
| Editor.LogoEditor.Redo | src/components/LogoGenerator.tsx:224-245 | the new history and cursor are those of `History.Redo`; when the cursor moved, the preview shows the snapshot under it, and otherwise nothing changed |
| Editor.LogoEditor.Edit | src/components/LogoGenerator.tsx:284-1030 | any side-panel handler (lines 284-287, 741-742, 759-760, 774-775, 787-788, 813-814, 833-834, 853-854, 873-874, 893-894, 916-917, 935-936, 954-955, 972-973, 991-992, 1010-1011, 1029-1030) records its patch with `Push`; a preview that showed the current snapshot still does afterwards |
| Editor.LogoEditor.SetSearchQuery | src/components/LogoGenerator.tsx:684 | the query becomes the typed text |
| Editor.LogoEditor.RandomIcon | src/components/LogoGenerator.tsx:267-282 | with a non-empty list, the picked icon is selected and recorded and the query cleared; with an empty list, nothing changes |
| Editor.UndoToSeedRestoresRecordedIconColor | src/components/LogoGenerator.tsx:197-220 | undoing the first edit sets the live icon colour to the seed's black where the mount effect had set white; the preview still draws white, but icons of a package generated afterwards get black strokes |
| Editor.RecordedIconColorStaysBlack | src/components/LogoGenerator.tsx:201-287 | after any run of handler edits, undos and redos from the seed, every snapshot records the black icon colour, so every undo or redo that moves the cursor sets the live icon colour to black |
| Package.Succeeded | src/components/LogoGenerator.tsx:400-411 | no more sizes are kept than were declared |
| Package.SucceededWithin | src/components/LogoGenerator.tsx:400-411 | only declared sizes are kept |
| Package.SucceededAppend | src/components/LogoGenerator.tsx:447-453 | processing two runs one after the other keeps both results, in order |
| Package.SucceededCount | src/components/LogoGenerator.tsx:400-411 | one size is kept per successful rendering |
| Package.SucceededExactly | src/components/LogoGenerator.tsx:400-416 | a declared size is kept exactly when it rendered; a failure skips that size only |
| Package.EntryFor | src/components/LogoGenerator.tsx:406-410 | the entry of a rendered size is a plain PNG entry with no purpose, never the maskable one |
| Package.FileFor | src/components/LogoGenerator.tsx:405 | the file of a rendered size is a raster of its side, at the path its manifest entry names |
| Package.EntryForInjective | src/components/LogoGenerator.tsx:406-410 | two sizes with the same manifest entry are the same size: the entry names the stem and its `sizes` text reads back as the side |
| Package.MapAppend | src/components/LogoGenerator.tsx:406 | the entries of two runs of sizes are the entries of the first run followed by those of the second |
| Package.MapAt | src/components/LogoGenerator.tsx:406 | the k-th entry is built from the k-th kept size |
| Package.EntriesMatchFiles | src/components/LogoGenerator.tsx:405-410 | each entry is `icons/<name>.png`, `<S>x<S>`, `image/png` with no purpose, and its file is a PNG of side S at the same path |
| Package.SucceededSnoc | src/components/LogoGenerator.tsx:400-411 | one more size adds its entry and its file when it rendered, and nothing otherwise |
| Package.Manifest.constructor | src/components/LogoGenerator.tsx:423-428 | the manifest starts with the package name and description and no icons |
| Package.Manifest.Push | src/components/LogoGenerator.tsx:406 | one entry is appended to `icons` |
| Package.Archive.constructor | src/components/LogoGenerator.tsx:422 | the archive starts empty |
| Package.Archive.File | src/components/LogoGenerator.tsx:405 | one file is appended to the archive |
| Package.IconStep | src/components/LogoGenerator.tsx:400-411 | one turn of the batch loop appends the entry and file of a rendered size and leaves both lists alone for a failed one |
| Package.GenerateIconBatch | src/components/LogoGenerator.tsx:399-418 | the manifest gains the entries, and the archive the files, of the sizes of the batch that rendered, in order |
| Package.ThemeColor | src/components/LogoGenerator.tsx:483 | the solid colour for a solid background, otherwise the gradient's first stop |
| Package.MetaTags | src/components/LogoGenerator.tsx:472-487 | the text opens with the fixed tags up to the theme-color tag, whose value is the theme colour; the fixed text up to the TileColor tag follows, its value is the theme colour too, and the fixed closing text (the quote that ends that value and the TileImage tag) ends the file with nothing else in between |
| Package.ReadmeLine | src/components/LogoGenerator.tsx:508 | a size's line is the list item `- <stem>.png (<S>x<S>)` with the size's side in decimal, and a single line when the stem holds no line break |
| Package.Readme | src/components/LogoGenerator.tsx:492-511 | the README opens with its fixed head and ends with the maskable icon's line and the closing credit; between them it splits back into one line per declared size, whether or not that size rendered, when no stem holds a line break |
| Package.ReadmeListsEverySize | src/components/LogoGenerator.tsx:508-509 | the size list splits back into one line per size, in declared order, when no file stem holds a line break |
| Package.DeclaredReadmeListsEverySize | src/components/LogoGenerator.tsx:431-444 | the README lists all twelve declared sizes, one per line |
| Package.BatchesPartition | src/components/LogoGenerator.tsx:447-449 | the batches cover every size once, in order, and each holds between one and three sizes |
| Package.DeclaredBatches | src/components/LogoGenerator.tsx:431-449 | the twelve declared sizes form four batches of three |
| Package.Batches | src/components/LogoGenerator.tsx:447-449 | `slice(i, i + 3)` for i = 0, 3, ...: the number of batches is the number of sizes divided by three, rounded up |
| Package.BatchesFrom | src/components/LogoGenerator.tsx:448-449 | cutting the next batch takes `slice(i, i + 3)` and leaves the rest for the following batches |
| Package.SucceededStep | src/components/LogoGenerator.tsx:448-450 | the entries and files of a prefix plus a batch are those of the longer prefix |
| Package.ProcessInBatches | src/components/LogoGenerator.tsx:446-453 | the loop forms the batches; the manifest gains one entry, and the archive one file, per rendered size, in declared order |
| Package.AddIcons | src/components/LogoGenerator.tsx:446-466 | after the batch loop, the maskable entry and file are added when the maskable rendering succeeded |
| Package.AssembleFiles | src/components/LogoGenerator.tsx:420-511 | the archive holds the rendered images, then the manifest holding every entry, then the given meta tags and README; the loop forms the batches |
| Package.AssemblePackage | src/components/LogoGenerator.tsx:420-511 | the archive is `PackageFiles`: the rendered images, then the manifest, the meta tags with the theme colour of the live settings, and the README of the sizes |
| Package.DownloadIconPackage | src/components/LogoGenerator.tsx:420-511 | the same, for the twelve declared sizes |
| Package.PackageIconsShape | src/components/LogoGenerator.tsx:455-466 | the manifest holds one entry per rendered size plus the maskable entry if it rendered; that entry is last and is the only one with a purpose |
| Package.PackageEntriesHaveFiles | src/components/LogoGenerator.tsx:405-410 | the k-th manifest entry and the k-th image describe the same rendered size, at `icons/<name>.png` |
| Package.BundleShape | src/components/LogoGenerator.tsx:468-511 | the archive holds the images first, then `site.webmanifest` holding every entry, `meta-tags.html`, then `README.md` |
| Package.ImagesMatchIcons | src/components/LogoGenerator.tsx:405-466 | there is one image per manifest entry, and the k-th image sits at the path the k-th entry names |
| Package.MetaTagsCarryThemeColor | src/components/LogoGenerator.tsx:483-486 | both colour tags of the package carry exactly the solid colour for a solid background and the gradient's first stop otherwise, each framed by the fixed text around it |
| Export.BackgroundPaint | src/components/LogoGenerator.tsx:298-301 | `containerStyle` has a background entry exactly when the background is shown |
| Export.PreviewBackground | src/components/LogoGenerator.tsx:1051-1058 | the preview's own background agrees with `containerStyle`'s entry whenever there is one, and reads back into the live paint |
| Export.PaintText | src/components/LogoGenerator.tsx:301 | a gradient value opens with `linear-gradient(` and closes with `)` |
| Export.Unwrap | src/components/LogoGenerator.tsx:301 | a text taken out of `linear-gradient(`…`)` gives back the whole value when wrapped again |
| Export.UnwrapWrap | src/components/LogoGenerator.tsx:301 | removing a known prefix and suffix recovers the middle |
| Export.GradientPieces | src/components/LogoGenerator.tsx:301 | the gradient text is its four pieces joined by commas |
| Export.SplitGradient | src/components/LogoGenerator.tsx:301 | with comma-free colours, the gradient text splits at its commas into the angle piece and the three colour pieces |
| Export.ParsePaintText | src/components/LogoGenerator.tsx:299-301 | reading the background text gives back the paint that produced it |
| Export.BackgroundPaintInjective | src/components/LogoGenerator.tsx:299-301 | two shown backgrounds with the same CSS value have the same type, colours and angle |
| Export.DefaultGradientText | src/components/LogoGenerator.tsx:141-148 | the default gradient prints as `linear-gradient(135deg, #6366f1, #a855f7, #ec4899)` |
| Export.MountedBackgroundPaint | src/components/LogoGenerator.tsx:166-174 | the preview first shows the default gradient |
| Export.ThemeColorInBackground | src/components/LogoGenerator.tsx:483 | the meta-tag theme colour occurs in the preview background: at its start for a solid paint, after the angle for a gradient |
| Export.FormatNamed | src/components/LogoGenerator.tsx:602 | a format is read back from a name only when that name is its own |
| Export.FormatNamedName | src/components/LogoGenerator.tsx:602 | every format is read back from its name |
| Export.FileStamp | src/components/LogoGenerator.tsx:601 | the stamp has the timestamp's length; every ':' and '.' became '-', and every other character is unchanged |
| Export.FileStampIdempotent | src/components/LogoGenerator.tsx:601 | stamping a stamp changes nothing |
| Export.LogoFileName | src/components/LogoGenerator.tsx:602 | the name starts with `icon-`, ends with a dot and the format, and holds no ':' |
| Export.LogoFileNameParts | src/components/LogoGenerator.tsx:601-602 | the file name has exactly one dot, before the format |
| Export.DownloadLogo | src/components/LogoGenerator.tsx:528-637 | a package always shows confetti, and offers `icon-package.zip` only when the archive was generated; an image is offered under its stamped name, with confetti, exactly when the preview was found and captured |
| Export.ConfettiOnEveryDownload | src/components/LogoGenerator.tsx:528-637 | every file offered comes with confetti; for an image, confetti shows exactly when it is offered, under a name that splits into the stem and the format |
| Export.FailedPackageShowsConfetti | src/components/LogoGenerator.tsx:516-525 | a package whose archive was not generated shows confetti with no file offered |
| Export.DownloadLogoOnSuccess | src/components/LogoGenerator.tsx:631-633 | the corrected outcome offers the same file as the code as written |
| Export.ConfettiExactlyOnDownload | src/components/LogoGenerator.tsx:631-633 | with the correction, confetti shows exactly when a file is offered, and the outcome differs from the code as written only for a failed package |

## Left out

- Rendering is left out. This covers the JSX layout, the colour pickers and
  the sliders (lines 644-1119), and the slider bounds, which the code never
  enforces.
- Rasterising is left out, because it is browser work with floating-point
  geometry.
  - `generateIconForSize` (330-397) appears only through its outcome. That
    outcome is the `rendered` sequence and the `maskableRendered` flag. The
    function catches its own errors and returns `null`, so a failure is
    always a skipped size.
  - `html2canvas` and JPEG compositing (533-628) appear only as the
    `previewFound` and `captured` inputs of `Export.DownloadLogo`.
  - A JPEG whose 2-D context cannot be created still gets a link with no
    image. The model does not tell that case apart.
- JSZip is left out. The archive is the list of files written to it, in
  order.
  - Base64 data, `JSON.stringify` formatting, blob URLs and link clicks are
    not modelled.
  - A failure of `generateAsync` (516) is the `zipped` input of
    `Export.DownloadLogo`. The archive contents of `Package` are those
    written before that call, whether or not it succeeds.
- The `delay` throttling (328, 413, 452) and the confetti timer (634) are
  left out. They only affect timing, so generation is taken as sequential.
- `Math.random` (272) is the `randomIndex` parameter of
  `Editor.LogoEditor.RandomIcon`.
- `new Date().toISOString()` (601) is the `timestamp` parameter.
- Export.BackgroundPaint is `containerStyle`'s conditional background
  entry (298-301). The preview element and the capture clone override it
  and always paint the background (561-563, 1051-1058), which
  `Export.PreviewBackground` models. The two differ only when the
  background is hidden, which cannot happen today: no handler changes
  `hasBackground`.
- `Text.ToLower` lower-cases ASCII letters only. JavaScript's `toLowerCase`
  also folds other Unicode letters.
- `Text.IntToString` covers integers only. Sizes, angles, radii and padding
  are integers in the model. Border width, shadow, fill opacity and scale
  are `real` and are never turned into text here.
- Editor.LogoEditor: the sixteen live `useState` fields are one `LiveView`
  value. React applies all the setters of one handler together at the next
  render, so a handler replaces that value once.
- Editor.LogoEditor: the effect that sets the icon colour from
  `hasBackground` (197-199) runs only at mount. Its later runs come after an
  undo or redo has restored `hasBackground`. They do not happen in the
  model, because no handler records the background toggle, so undo and redo
  never change it.
- IconSearch.RandomWindow: `handleRandomIcon` computes this window but never
  uses it (the line that stored it is commented out). It is modelled as a
  function that nothing calls.
- Editor.LogoEditor.RandomIcon: when the filtered list is empty, the source
  reads a property of `undefined` and throws before changing any state. The
  model returns `ok == false` and changes nothing.
- Icons are identified by their catalog name. The Lucide component objects,
  and the `icon.icon` truthiness checks on them (257, 265), are left out;
  every catalog entry has both a name and a component.
- The other files of the repository are not part of this model. They are
  the page shell, the routing, the UI kit and the styles.

## Findings

| source | as written | input that shows it | evidently intended | confidence | as-written member | corrected member |
|---|---|---|---|---|---|---|
| src/components/LogoGenerator.tsx:523-525 | `downloadIconPackage` catches a failure of `generateAsync` itself, so `downloadLogo` then shows the confetti (line 633) that the comment reserves for a successful download | format `package` with `zipped == false` gives no file and confetti | confetti only when a file was offered | medium, not executed | Export.FailedPackageShowsConfetti | Export.ConfettiExactlyOnDownload |
