# Slide batch capture, modelled in Dafny

`app.py` defines `SlideCaptureBatchProcessor`. It finds every `*.html`
document in a source directory, in sorted order. It opens each one in a
headless browser and saves one PNG image per `.slide` element. All images
go into one output directory. They are numbered by a single counter that
runs across the whole batch, so the files are named `01.png`, `02.png`, ….

The model has four modules:

- `Naming` (naming.dfy) covers the `{n:02d}.png` file name. It defines the
  decimal spelling, the two-digit padding and the name's characterization,
  and proves the name is injective.
- `Scan` (scan.dfy) covers the `*.html` filter and the `sorted(...)` order
  (code point by code point, the way Python compares strings). Sorting is
  insertion sort. It is proved sorted, a permutation, and the only sorted
  arrangement of those names.
- `Protocol` (protocol.dfy) holds pure definitions of what a batch does
  for given browser behaviour. The browser is an oracle, a function from
  document name to `DocumentOutcome`:
  - `LoadFailed`: `goto`, `wait_for_timeout` or the `.slide` query raised;
  - `Loaded(slides)`: one `Shot` (`Saved` or `Raised`) per located slide,
    in locator order.

  From the oracle, plain functions give:
  - how many counter values a document uses up (`Consumed`);
  - how many images it saves (`Captured`);
  - which counter values become images (`Numbers`);
  - the pages opened and closed (`PageLog`).

  The batch-level properties are lemmas about these functions.
- `Processor` (processor.dfy) is the class itself. It has the two
  directories, `htmlFiles` and `globalSlideCounter`, plus ghost state for
  three things: what was written (`saved`, the counter values whose
  screenshot succeeded, so image `n` is file `FileName(n)`), the open pages,
  and whether the output directory exists. The constructor sets the initial
  values: no documents, counter 0, nothing saved, no page open and an empty
  page log. The methods change this state with loops, as the source does.
  Each method's `ensures` ties the new state to the `Scan` and `Protocol`
  functions. Every method also keeps `PagesTracked`: the open-page count is
  the one the page log gives (`Protocol.OpenPages`).

The environment is a parameter:

- The directory listing that the glob scans is `listing`, the names of the
  source directory's entries; the `*.html` match is `Scan.IsHtml`.
- The browser is the `Browser` oracle.

What the source does, and the model follows:

- The counter goes up before each screenshot. A screenshot that raises
  therefore spends its number. The exception leaves the slide loop, so the
  rest of that document is skipped, and the next document goes on from the
  counter. The saved images can therefore have gaps (`GapExample`).
- The total that `process_all` reports is the final counter. That counts
  numbers used up, not images saved (`ImagesAtMostTotal`).
- A document with no `.slide` element returns 0 inside the `try`. Its page
  is still closed.

`app.py` always locates slides with the fixed selector `.slide`; there is
no other selector and no fallback. Because a raising screenshot spends its
number, the images of a batch can leave gaps in the numbering.

## Model

| member | source | states |
|---|---|---|
| Naming.Decimal | app.py:102 | `str(n)`: the decimal digits of n; what they spell is stated by DecimalSpells and DecimalUnique |
| Naming.Padded | app.py:102 | the `02d` format: a '0' in front of single-digit values; characterized by PaddedSpellsValue and PaddedUnique |
| Naming.FileName | app.py:102 | `f"{n:02d}.png"`: `Padded(n) + ".png"`; characterized by FileNameCharacterized and FileNameInjective |
| Naming.DecimalSpells | app.py:102 | the decimal spelling of n is a nonempty digit string denoting n, with no leading zero unless n is 0 |
| Naming.PaddedSpellsValue | app.py:102 | the `02d` spelling of n has at least two digits, no superfluous leading zero, and denotes n |
| Naming.PaddedUnique | app.py:102 | any `02d`-shaped digit string denoting n is the padded spelling of n |
| Naming.FileNameCharacterized | app.py:102 | a name is the file name of n iff it is a `02d` spelling of n followed by ".png" |
| Naming.FileNameInjective | app.py:102-106 | two counter values give the same file name iff they are equal, so no image overwrites another |
| Naming.FileNameExamples | app.py:101-102 | 1, 10 and 100 give "01.png", "10.png" and "100.png" |
| Scan.IsHtml | app.py:43 | the `*.html` glob pattern: a name of at least five characters ending in ".html"; HtmlOnly and ScanFindsHtml state what the scan keeps with it |
| Scan.NameLe | app.py:43 | the order `sorted(...)` uses for names of one directory: code point by code point, a proper prefix first; NameLeTotal, NameLeTransitive and NameLeAntisymmetric make it a total order |
| Scan.NameLeTotal | app.py:43 | any two names are comparable |
| Scan.NameLeTransitive | app.py:43 | the name order is transitive |
| Scan.NameLeAntisymmetric | app.py:43 | two names that precede each other are equal |
| Scan.HtmlOnly | app.py:43 | keeps exactly the entries ending in ".html", each as often as it is listed |
| Scan.SortNames | app.py:43 | the result is sorted by Python string order and is a permutation of its input |
| Scan.SortedUnique | app.py:43 | two sorted arrangements of the same names are equal, so the listing order does not affect the document order |
| Scan.ScanFindsHtml | app.py:43-47 | the document list is nonempty iff some entry of the listing matches "*.html" |
| Scan.ScanStrictlyAscending | app.py:43 | for a listing without repeats, the documents are in strictly ascending order |
| Protocol.LeadingSaved | app.py:97-110 | the number of slides saved before the first screenshot that raises: every earlier slide is saved, and the slide at that index raised |
| Protocol.LeadingSavedAt | app.py:97-110 | LeadingSaved is exactly the index of the first raising slide, or the slide count if none raises |
| Protocol.Found | app.py:87-88 | `slide_count`: the slides located, none when loading raised; related to Captured and Consumed by FileCounts |
| Protocol.Captured | app.py:97-122 | the value `capture_slides_from_file` returns: LeadingSaved of the shots, 0 when loading raised; bounded by FileCounts |
| Protocol.Consumed | app.py:97-110 | how far one document advances the shared counter: one per attempted slide, the raising one included; FileCounts relates it to Captured and Found |
| Protocol.FileCounts | app.py:72-122 | per document: captured ≤ consumed ≤ found; consumed exceeds captured by one exactly when a screenshot raised; a load failure or an empty page consumes nothing |
| Protocol.Range | app.py:97-99 | the k consecutive counter values from `first` |
| Protocol.Total | app.py:136-152 | the counter after the reset and the documents in order, as reported at app.py:165; ImagesAtMostTotal and NoGapsUnlessShotRaises state how it relates to the images |
| Protocol.Numbers | app.py:97-152 | the counter values whose screenshots were saved, in capture order; NumbersIncreasing, NamesDistinct and NoGapsUnlessShotRaises state its properties |
| Protocol.PageLog | app.py:150-152 | the `new_page` / `page.close()` calls of a batch, per document in order; PageLogShape and PagesBalanced state its shape |
| Protocol.Names | app.py:102 | the `filename` values computed for a sequence of counter values, one per value, in order; NamesAt and NamesEach state that the k-th is FileName of the k-th value |
| Protocol.NamesAt | app.py:101-103 | the i-th written name is the file name of the i-th saved number |
| Protocol.NamesEach | app.py:101-103 | every written name is the file name of the number at the same position |
| Protocol.NamesAppend | app.py:103-106 | names are per number, so later images' names follow the earlier ones |
| Protocol.NumbersIncreasing | app.py:150-152 | over a batch, saved numbers strictly increase in capture order and lie between 1 and the final counter |
| Protocol.NamesDistinct | app.py:150-152 | no two images of a batch get the same file name |
| Protocol.ImagesAtMostTotal | app.py:165 | the reported total is at least the number of images, with equality iff no screenshot raised |
| Protocol.NoGapsUnlessShotRaises | app.py:150-167 | the images are exactly 01 .. total iff no screenshot raised |
| Protocol.PageLogShape | app.py:150-152 | the batch opens and then closes one page per document, in document order |
| Protocol.OpenPages | app.py:71-120 | the pages opened by `new_page` and not yet closed by `page.close()` after a prefix of the page log; PagesBalanced bounds it |
| Protocol.OpenPagesSnoc | app.py:71-120 | one more event raises the open-page count by one for an open and lowers it by one for a close |
| Protocol.OpenThenClose | app.py:71-120 | opening and then closing a page leaves the open-page count as it was |
| Protocol.PagesBalanced | app.py:118-120 | at most one page is open at any point of a batch, and none when it ends |
| Protocol.TwoDecksExample | app.py:97-102 | two documents of 3 and 2 slides give total 5 and images 01.png .. 05.png |
| Protocol.TwoDecksNumbers | app.py:97-152 | two documents of 3 and 2 slides, all saved, give total 5 and saved numbers 1 .. 5 |
| Protocol.ShortRanges | app.py:97-99 | three values from 1 are 1, 2, 3 and two values from 4 are 4, 5 |
| Protocol.FirstFiveNames | app.py:102 | counter values 1 .. 5 are named 01.png .. 05.png |
| Protocol.GapExample | app.py:97-117 | if a.html's second screenshot raises, its third slide is not attempted; b.html's one slide becomes image 3, and for 2 images the total is 3 |
| Processor.SlideCaptureBatchProcessor.constructor | app.py:24-35 | stores both directories; starts with no documents, counter 0, nothing written, no page open and an empty page log, which PagesTracked holds of |
| Processor.SlideCaptureBatchProcessor.PagesTracked | app.py:71-120 | the open-page count equals the count the page log gives, so the two records of open pages never disagree |
| Processor.SlideCaptureBatchProcessor.Written | app.py:102-106 | the names of the images saved so far: as many as the saved counter values, the k-th being the file name of the k-th value |
| Processor.SlideCaptureBatchProcessor.ScanHtmlFiles | app.py:37-53 | replaces the document list with the sorted "*.html" entries; returns true iff there are any |
| Processor.SlideCaptureBatchProcessor.CaptureSlidesFromFile | app.py:55-122 | returns Captured; advances the counter by Consumed; appends the saved numbers old+1 .. old+Captured; opens and closes exactly one page, keeping PagesTracked |
| Processor.SlideCaptureBatchProcessor.SaveSlides | app.py:97-110 | returns the slides saved before the first raising screenshot; advances the counter by one per attempted slide, the raising one included; appends exactly the saved numbers |
| Processor.SlideCaptureBatchProcessor.ProcessAll | app.py:124-169 | with no documents, changes nothing but the list; otherwise creates the output directory, and the counter, images and page log are the batch functions of the sorted documents; keeps PagesTracked |
| Processor.SlideCaptureBatchProcessor.CaptureEach | app.py:135-156 | resets the counter and captures each document in list order; the final state is Total, Numbers and PageLog of the list, with PagesTracked kept and no page left open |
| Processor.BatchStep | app.py:150-152 | one more document extends the recorded images and page log by that document's share |

## Left out

- Playwright, the browser process and the file system are oracles. The
  model does not render pages, locate elements or write PNG bytes. The
  directory listing is a parameter. A saved image is recorded as its
  counter value; its name is `FileName` of that value (see
  `Processor.SlideCaptureBatchProcessor.Written`).
- The batch model assumes these calls never raise: `mkdir`,
  `sync_playwright` and `chromium.launch` (app.py:133-146), `browser.new_page`
  (app.py:71, outside the `try`), `page.close` (app.py:120) and
  `browser.close` (app.py:156). A failure of `mkdir`, `sync_playwright` or
  `launch` ends `process_all` before any browser exists. A failure of
  `new_page` or `page.close` escapes the document loop; the browser is then
  closed by the `finally` at app.py:154-156 and the batch ends with the
  exception. A failure of `browser.close` ends `process_all` with an
  exception after every document is done.
- Every `print` is assumed not to raise: those of `scan_html_files`
  (app.py:39-51), those before the `try` of `capture_slides_from_file`
  (app.py:66-68), those of `process_all` (app.py:138-151, 161-169) and
  those inside the `try` (app.py:77-116). If the one at app.py:109 raised, its screenshot
  would already be on disk, yet neither `slides_captured` nor a `Saved`
  shot of the model would account for it.
- Exceptions other than `Exception` (e.g. interrupts) are not modelled.
- `print` output, `time.time()` and the elapsed-time report are left out.
  So is the `main` entry point and its banner.
- `Path.resolve()` and `as_uri()` are left out. The directories are plain
  strings, and documents are identified by their entry names.
- Directories whose names end in ".html" match the glob just like files.
  The model treats every listed name alike and lets the oracle decide what
  loading it does.
- Windows path semantics are not modelled. There pathlib's glob matches
  case-insensitively (`A.HTML` matches `*.html`, which `IsHtml` rejects)
  and paths are ordered case-insensitively. The model follows POSIX:
  matching is case-sensitive and names compare code point by code point.
- Undecodable bytes in POSIX file names are not modelled. Python carries
  them as lone surrogate code points, which a Dafny `char` cannot hold.
- The constructor has no default arguments. `__init__` defaults to
  `source_dir="."` and `output_base_dir="output_images"` (app.py:24); the
  model takes both directories explicitly. They do not affect the
  numbering.
- The 3000 ms wait and the device scale factor 2 have no effect on the
  numbering, so they are not modelled.
