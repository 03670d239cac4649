# PDF Tools: page bookkeeping and text-stamp geometry, in Dafny

A model of the logic inside `pdf_editor.py`, a tkinter application with
three tabs:

- **PDF Editor** (`PDFEditorTab`): open one PDF, mark some of its pages for
  deletion, add the pages of other PDFs, and save the result. The model is
  the class `PageAssembly.PageEditor`. It holds the three fields the tab
  mutates: `reader`, `pages_to_keep` and `additional_pages`. Each button is
  a method whose contract gives the new state. It is specified by pure
  functions: `Range`, `Remaining` (the list comprehension of the delete),
  `PagesOf`, `LoadedBeforeFailure` and `Written` (the saved page list). The
  lemmas next to them say what a user can rely on. A deletion keeps the page
  list ascending and duplicate-free. Deleting twice is deleting once.
  Selected rows numbered at or beyond the page count delete nothing. Saving
  right after opening and adding writes every page of every document, in
  order.
- **Portrait Mode** and **Landscape Mode** (`PortraitModeTab`,
  `LandscapeModeTab`): drag a sample text on a 0.4-scale preview canvas,
  capture its position, and stamp the text (upright or turned by 45
  degrees, in a colour, optionally underlined) onto every page of a chosen
  PDF. The two tabs differ in canvas size, initial text position and
  orientation string, and in how the sample text is anchored, which the
  model does not capture: portrait uses `anchor='n'`
  (`pdf_editor.py:137`), so the captured point is the top centre of the
  text; landscape keeps the default centre anchor (lines 319-321), so it is
  the text's centre. Here they are one class, `Stamping.StampTab`,
  parameterised by an `Orientation`. The arithmetic lives in
  `StampGeometry`: canvas clamping, conversion to page coordinates with the
  y axis inverted, the page size per orientation, the vertical clamp
  against ascent and descent, the colour table and the underline segment.
  `Stamping` holds input validation, the preview font size, and the loop
  that merges one overlay onto every base page.
- `PyInt` models the two Python built-ins the code depends on: `int(str)`
  (for the font-size entry) and `int(float)` (truncation toward zero).

The PDF library is abstract. A page is a `PageRef(doc, index)`, and an
opened document is its identity and page count. `stringWidth` and
`merge_page` are function parameters (`measure`, `merge`) that the model
leaves uninterpreted. Dialogs are inputs. A cancelled dialog is `None`, an
empty file list or `false`.

The constants 0.4, 0.8 and 0.2 are exact rationals (Dafny's `real`). The
canvas sizes come out as 244 × 316 (portrait) and 316 × 244 (landscape).

### Behaviour worth knowing

- Deleting filters `pages_to_keep` by value against the selected listbox
  row positions (`pdf_editor.py:72`). A row matches a kept page exactly when
  its position equals that page's number, so only rows numbered below the
  page count can delete anything (`RemainingIgnoresRowsBeyond`).
- Right after opening, row i is original page i, so selecting it deletes
  that page. After a successful save the listbox is emptied (line 112)
  while the page lists stay. A later "Add Pages" then puts the
  "Added Pages:" heading at row 0 and the added pages at rows 1, 2, …
  (lines 80, 85). Selecting one of those rows and deleting removes the
  original page with that number (line 72).
- "Add Pages" clears the added pages first and then loads the chosen files
  in order, so it replaces them. If a file in the selection fails to open,
  the pages of the files before it stay loaded, and the failed call has
  still changed the state (`AddPages`, `LoadedBeforeFailure`).
- Opening a new PDF resets `pages_to_keep` and keeps `additional_pages`.
- The font-size check accepts any integer `int()` accepts, zero and
  negative ones included.
- The canvas height is `int(792 * 0.4) = 316`, so the preview's top-left
  corner maps to page point (0, 790) in portrait (`TopLeftCorner`).
- The vertical clamp keeps the whole text band on the page when
  `0 <= fontSize <= pageHeight` (`AdjustY`). For a taller font no position
  keeps it there.
- The temporary overlay file is removed on the success path only.

## Model

| member | source | states |
|---|---|---|
| `PageAssembly.PageEditor.constructor` | pdf_editor.py:30-34 | no document, nothing kept, nothing added; the invariant holds |
| `PageAssembly.PageEditor.OpenPdf` | pdf_editor.py:44-49 | with a chosen document, `reader` is it and `pages_to_keep` is `[0, …, n−1]`; added pages untouched; a cancelled dialog changes nothing |
| `PageAssembly.Range` | pdf_editor.py:48 | `list(range(n))` has length n and holds i at position i |
| `PageAssembly.PageEditor.DeletePages` | pdf_editor.py:62-73 | an empty selection changes nothing and reports it; otherwise `pages_to_keep` becomes `Remaining(old, selection)`; reader and added pages are untouched; the list stays ascending and within the document |
| `PageAssembly.RemainingMembership` | pdf_editor.py:72 | a page survives a deletion iff it was kept and is not a selected row |
| `PageAssembly.Remaining` | pdf_editor.py:72 | a deletion never lengthens the kept list, and every surviving entry was kept before and is not a selected row |
| `PageAssembly.RemainingIncreasing` | pdf_editor.py:72 | a deletion keeps the kept list strictly ascending (sorted, no duplicates) |
| `PageAssembly.RemainingBelow` | pdf_editor.py:72 | a deletion keeps every kept page number below the page count |
| `PageAssembly.RemainingNothingSelected` | pdf_editor.py:72 | filtering by the empty selection is the identity |
| `PageAssembly.RemainingCompose` | pdf_editor.py:72 | two deletions in a row equal one deletion of the union of their selections |
| `PageAssembly.RemainingIdempotent` | pdf_editor.py:72 | deleting the same selection twice equals deleting it once |
| `PageAssembly.RemainingIgnoresRowsBeyond` | pdf_editor.py:68-72 | only the selected rows numbered below the page count matter; rows numbered at or beyond it delete nothing |
| `PageAssembly.IncreasingUnique` | pdf_editor.py:72 | two ascending duplicate-free page lists with the same members are equal, so the deletion's result is fixed by its members |
| `PageAssembly.DeletedFromOpened` | pdf_editor.py:44-72 | after opening n pages and deleting a selection, the kept list is ascending and holds exactly the unselected numbers below n |
| `PageAssembly.PageEditor.AddPages` | pdf_editor.py:75-89 | a cancelled dialog changes nothing; otherwise `additional_pages` is replaced by the pages of the files that opened before the first failure, file after file, each in page order; success reported iff every file opened; reader and kept pages untouched |
| `PageAssembly.PagesOfAppend` | pdf_editor.py:81-83 | extending file by file: the pages of two selections in a row are the pages of the first followed by those of the second |
| `PageAssembly.PagesOf` | pdf_editor.py:81-83 | the number of added pages is the sum of the files' page counts |
| `PageAssembly.PagesOfIndex` | pdf_editor.py:81-83 | page k of the j-th file sits at the offset of the earlier files' total plus k |
| `PageAssembly.LoadedBeforeFailure` | pdf_editor.py:78-89 | a multi-file selection never loads more files than were chosen |
| `PageAssembly.LoadedPrefix` | pdf_editor.py:78-89 | the files loaded are a prefix of the selection, in selection order, that ends at the selection's end or just before the first file that fails to open |
| `PageAssembly.LoadedAll` | pdf_editor.py:78-87 | when every chosen file opens, all of them are loaded, in selection order |
| `PageAssembly.KeptPagesIndex` | pdf_editor.py:98-99 | the i-th page written from the opened file is `reader.pages[pages_to_keep[i]]` |
| `PageAssembly.Written` | pdf_editor.py:96-103 | the output has \|pages_to_keep\| + \|additional_pages\| pages: the kept pages in order, then the added pages in order |
| `PageAssembly.OpenedThenAdded` | pdf_editor.py:44-103 | saving right after opening a document and adding documents writes all pages of the opened one and then all pages of each added one, in order |
| `PageAssembly.PageEditor.SaveList` | pdf_editor.py:91-103 | fails iff no document is open; otherwise the writer receives exactly `Written(reader, pages_to_keep, additional_pages)`, of length \|keep\| + \|added\| |
| `PageAssembly.PageEditor.SavePdf` | pdf_editor.py:91-115 | no document: error; save dialog cancelled: nothing written; otherwise the written page list as above |
| `StampGeometry.ToLandscape` | pdf_editor.py:262 | the landscape size has the same two sides, the longer one as width |
| `StampGeometry.PageSize` | pdf_editor.py:262-263 | the overlay page is 612 × 792 for portrait and 792 × 612 for landscape |
| `StampGeometry.CanvasSize` | pdf_editor.py:122-125 | the canvas is the page scaled by 0.4 and truncated: 244 × 316 in portrait and (lines 306-308) 316 × 244 in landscape |
| `StampGeometry.InitialAnchor` | pdf_editor.py:136-139 | the sample text starts at (122, 0) in portrait and (lines 319-322) at (158, 122) in landscape, on the canvas |
| `StampGeometry.ClampToCanvas` | pdf_editor.py:171-175 | a drag leaves the text on the canvas, at the pointer when the pointer is on it, and at the nearest edge along each axis when it is not |
| `StampGeometry.ToPageCoordinates` | pdf_editor.py:200-206 | for a canvas point the page point is (⌊2.5·x⌋, ⌊2.5·(canvas height − y)⌋), within the page; the canvas bottom edge maps to y = 0 |
| `StampGeometry.PageCoordinatesMonotone` | pdf_editor.py:205-206 | the page y does not increase as the canvas y grows; the page x does not decrease as the canvas x grows |
| `StampGeometry.TopLeftCorner` | pdf_editor.py:205-206 | the canvas origin maps to (0, page height − 2) |
| `StampGeometry.AdjustY` | pdf_editor.py:274-280 | a baseline whose ascent would leave the top is moved to height − 0.8·fs; otherwise one whose descent would leave the bottom is moved to 0.2·fs; otherwise it is kept; for 0 ≤ fs ≤ height the text band lies on the page |
| `StampGeometry.ColorOf` | pdf_editor.py:268-269 | blue and black map to themselves; every other name, red included, maps to red |
| `StampGeometry.Underline` | pdf_editor.py:286-297 | the underline is horizontal, 2 below the text centre, as long as the measured width and centred on the text |
| `StampGeometry.CreateTextOverlay` | pdf_editor.py:261-299 | page size by orientation, Helvetica-Bold at the given size, looked-up colour, anchor (x, clamped y) with x unchanged, rotated iff an angle is given; an underline iff requested, centred on the text in its drawing frame: (x ± w/2, y′ − 2) upright, (±w/2, −2) rotated |
| `StampGeometry.RotatedMatchesUpright` | pdf_editor.py:282-297 | the rotated stamp's anchor equals the upright one's, and its local underline shifted by the anchor is the upright underline |
| `PyInt.Trunc` | pdf_editor.py:206 | `int()` of a float truncates toward zero: within 1 of the value, never past it |
| `PyInt.ParseInt` | pdf_editor.py:219 | an entry `int()` accepts (here and at line 184) is, once stripped, non-empty, free of whitespace and ends in a digit; a negative value needs a leading minus |
| `PyInt.ParseShow` | pdf_editor.py:219 | `int(str(n)) == n`: every integer's decimal form is accepted back as that integer |
| `PyInt.ParseIgnoresLeadingSpace` | pdf_editor.py:219 | leading whitespace does not change what `int()` makes of the entry |
| `PyInt.ParseRejectsBlank` | pdf_editor.py:218-222 | an empty or blank entry is not a number |
| `Stamping.ValidateStamp` | pdf_editor.py:208-222 | empty text is rejected first, whatever the font size; then a non-integer font size is rejected; otherwise the parsed size is used |
| `Stamping.PreviewFontSize` | pdf_editor.py:183-188 | the preview size is at least 1; 8 when the entry is not a number; max(⌊0.4·fs⌋, 1) for fs ≥ 0; exactly 1 for every fs < 3, negative ones included; never above fs once fs ≥ 3 |
| `Stamping.AddTextToExistingPdf` | pdf_editor.py:241-259 | exactly one output page per base page, in base order, each the base page merged with the same overlay |
| `Stamping.StampTab.constructor` | pdf_editor.py:117-169 | the sample text starts at the initial anchor and no position is captured |
| `Stamping.StampTab.DragText` | pdf_editor.py:171-175 | the text moves to the clamped pointer position; the captured position is untouched |
| `Stamping.StampTab.UpdatePosition` | pdf_editor.py:195-198 | the captured position becomes the text's current position |
| `Stamping.StampTab.GetTextPosition` | pdf_editor.py:200-206 | the canvas position is captured only if none is; the result is the captured position converted to page coordinates, within the page |
| `Stamping.StampTab.ProcessTextOverlay` | pdf_editor.py:208-237 | a rejected input produces no overlay and captures nothing; otherwise the position is captured, a cancelled dialog writes nothing, and the written pages are the base pages each merged with the overlay built from the inputs |

## Left out

- Widgets, tab layout, listbox row labels, message boxes and the canvas
  calls (`create_text`, `itemconfig`, `coords`) are left out: they are user
  interface. The selected rows, entered strings, pointer positions and
  dialog answers are inputs.
- `load_pages`, and the clearing of the listbox after a save, only rebuild
  row labels, so they are not modelled.
- Parsing a PDF and writing one (`PdfReader`, `PdfWriter.write`) belong to
  the PDF library. Pages are references, and `merge_page` and
  `stringWidth` are uninterpreted parameters.
- A file that fails to open in "Open PDF" raises before any field changes.
  It is modelled like a cancelled dialog (`None`).
- In stamping, a base file that fails to open, and any failing write, are
  file I/O and are not modelled.
- PageAssembly.PageEditor.SavePdf: a write that fails after a destination
  was chosen (lines 107-109, caught at 114-115) is file I/O and is not
  modelled; such a save still comes out as `Saved`.
- The temporary overlay file is not modelled (creation, `os.remove`). Its
  removal runs only on the success path. No clean-up claim is made.
- The drawing calls themselves (`setFont`, `setFillColor`,
  `drawCentredString`, `translate`, `rotate`, `line`) are left out. The
  `Overlay` value records what they are given. Rotation is not computed.
- IEEE-754 rounding of `x / 0.4`, `int(612 * 0.4)` and `font_size * 0.8`
  is not modelled. The model uses exact rationals.
- `PyInt.ParseInt` covers ASCII digits, underscores between digits, a sign
  and ASCII whitespace. It leaves out non-ASCII digits and spaces, which
  Python's `int()` also accepts, and Python's limit on the number of
  digits.
- `update_canvas_text` also restyles the preview (text, colour,
  underline). Only its font-size computation is modelled.
- The text anchor (`anchor='n'` in portrait, the centre in landscape) is
  left out: the model treats the captured canvas point as the point to
  convert, whichever part of the text it marks.
- The angle is an integer. The code only ever passes 45 or none.
- Page-range parsing, splitting a document and reordering pages are not
  modelled: this code does none of them.
