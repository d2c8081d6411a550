# Veterinarian directory scraper, modelled in Dafny

This project models `VetParser` (`main.py`), a scraper for a veterinarian
search on zooplus.de. The scraper opens five result pages in a headless
browser. It turns every `.result-intro__details` block into a
`Veterinarian` record and concatenates the records in page order. Then it
lays them out as CSV rows: a header of field names, then `astuple(record)`
per record.

The browser and the HTML library are replaced by plain data:

- `Markup.Listing` is one listing block. It has one `Option` slot per
  sub-element the extractor selects: title, subtitle, hours, address,
  star-rating container and rating note. The star-rating container is a tree
  of `Markup.Element`s, so the recursive `find_all("span")` can be modelled.
- `Markup.Page` is a rendered page: its listing blocks in document order.
- The browser is a function `render: string -> Rendered`. It takes a URL and
  returns whether the readiness marker appeared before the wait gave up,
  along with the page as rendered.
- A run returns a `Run`: the result (records or a `Fault`) and a trace of
  events. The events are navigations, "Start parsing page #p" lines and
  "Parsing progress: X%" lines.

Modules:

- `Wrappers`: `Option` and `Result`.
- `Text`: Python's argument-less `str.split()` and `str(n)`.
- `Markup`: elements, listings, pages, and `find_all`.
- `Veterinarians`: the record, the faults, `parse_single_veterinarian` and
  `get_single_page_veterinarian`.
- `Pagination`: `get_veterinarians`. This module has a reference semantics
  (`RunPages`) and a step-by-step method (`GetVeterinarians`) proved equal to
  it. `RunPages` and its lemmas take the page extractor as a parameter, so
  they hold for any extractor. `GetVeterinarians` uses the scraper's own
  extractor, `ExtractPage`.
- `Csv`: header and row layout.
- `Scenarios`: concrete listings and runs.

Three behaviours of `main.py` the model keeps:

- **A wait timeout is a fault.** main.py:63-68 and 75-80 wrap the wait in
  `try ... finally` with no `except`. The `finally` reads the page source,
  and then the `TimeoutException` propagates and aborts the run. The model
  reports `WaitTimeout(p)`.
- **`find_all` counts `span`s at every depth.** `find_all` (main.py:48)
  searches all descendants of the star-rating container, so nested `span`s
  count too (`Markup.FindAllIsDescendantsWithTag`).
- **Page 1 is logged after navigating, later pages before.** For page 1,
  the "Start parsing" line comes after navigating (main.py:61-62). For later
  pages it comes before (main.py:73-74). `Pagination.Opening` keeps this
  order.

## Model

| member | source | states |
|---|---|---|
| Text.Split | main.py:50 | `split()` returns non-empty words that contain no whitespace (Python's `isspace` set). The result is empty exactly when the caption is empty or all whitespace, which is the `IndexError` case of `split()[0]`. |
| Text.SplitKeepsText | main.py:50 | Joining the words of `split()` gives back exactly the caption's non-whitespace characters, in order. |
| Text.FirstWordShape | main.py:50 | The first word of `split()` follows a run of whitespace only. It ends at the end of the caption or just before a whitespace character. |
| Text.Decimal | main.py:74 | `str(page_num)` is a non-empty string of decimal digits with no leading zero. |
| Text.DecimalRoundTrip | main.py:74 | Parsing `str(n)` as a decimal gives back `n`. |
| Text.DecimalInjective | main.py:74 | Different page numbers render as different strings. |
| Markup.FindAll | main.py:48 | `find_all("span")` returns exactly the `span` elements among all the container's descendants, in document order. Every element it returns has the tag `span`. |
| Markup.FindAllIsDescendantsWithTag | main.py:48 | The recursive search over a forest of elements finds the same elements as filtering a separate pre-order listing of all descendants by tag. So it reaches below the direct children. |
| Markup.ChildrenAreCounted | main.py:48 | The count is never smaller than the number of matching direct children. |
| Veterinarians.ParseListing | main.py:37-52 | Extraction succeeds exactly when the title, hours, address, star-rating container and rating note are present and the note has a first word. On success, `clinic` is absent exactly when the subtitle is, and otherwise equals the subtitle text. Also on success: the rating is the number of `span` descendants, `num_reviews` is the note's first word, and each other field is its element's text. On failure, the fault names the first missing element in argument-evaluation order (title, hours, address, star rating, note), or the blank note. |
| Veterinarians.ClinicIsTheOnlySoftField | main.py:39-45 | Changing or removing the subtitle never changes whether extraction succeeds or which fault it reports. It changes only the `clinic` field. |
| Veterinarians.ExtractAll | main.py:54-58 | A page succeeds exactly when every block parses. It then gives one record per block, record `i` coming from block `i`. Otherwise it reports the fault of the first failing block, and every block before that one parses. |
| Veterinarians.ExtractPage | main.py:57-58 | A page's records correspond one-to-one and in document order to its listing blocks. Extraction never reports a wait timeout. |
| Pagination.ProgressPercent | main.py:71 | The hard-coded step `20 * p` equals the completed fraction `100 * p / NUM_PAGES` (because NUM_PAGES is 5). |
| Pagination.PageUrlRoundTrip | main.py:72-74 | Page 1's address is the URL verbatim, and page `k` adds `&page=k`. Reading the page number back from either address gives `k`. |
| Pagination.ScheduleOrder | main.py:60-74 | Entry `i` of the schedule is the address of page `i + 1`. The pages are therefore visited in strictly increasing order, and no address repeats. |
| Pagination.FaultIsFinal | main.py:63-82 | Once a page has faulted, the run's result and events do not change, whatever later pages would hold. |
| Pagination.PageStepEvents | main.py:72-83 | After fault-free earlier pages, visiting page `n` adds one navigation, to page `n`'s address. It adds a progress line for `n` only if the page is parsed. |
| Pagination.RunFollowsSchedule | main.py:60-84 | The navigations are a prefix of the schedule. They cover all `n` pages when the run succeeds. When it fails, they stop at the first page whose wait or extraction faulted: that page faulted and every earlier page succeeded. |
| Pagination.RunStartsAtUrl | main.py:61 | Every run of at least one page starts by navigating to the URL it was given, verbatim. |
| Pagination.ProgressLineEntries | main.py:71-83 | Progress entry `i` is the percentage for page `i + 1`. The entries rise strictly and reach 100 at page NUM_PAGES. |
| Pagination.RunReportsProgress | main.py:71-83 | There is one progress line per parsed page, in page order. On success that is every page. On failure it is one fewer than the pages navigated to. |
| Pagination.RunCollectsAllPages | main.py:69-84 | A run succeeds exactly when every page's wait and extraction succeed. Its records are then the per-page records concatenated in page order, and their number is the sum of the per-page counts. |
| Pagination.RunReportsFirstFault | main.py:63-82 | A failed run reports the fault of its first failing page, and every earlier page succeeded. |
| Pagination.GetVeterinarians | main.py:60-84 | The method follows the first-page-then-loop structure of `get_veterinarians` and gives the same result and events as the reference run over NUM_PAGES pages with `ExtractPage` as the extractor. On success it has navigated to exactly the five scheduled addresses and logged progress 20, 40, 60, 80, 100. |
| Pagination.CollectSearch | main.py:96-98 | `main`'s run on the hard-coded search URL gives the same result and events as the reference run. It navigates first to that URL. On success it has visited the five result pages of that search in order, the last being the URL with `&page=5`. |
| Csv.HeaderRow | main.py:89-90 | The header has one name per field. For every record, looking up the field named in header column `i` gives exactly the value in column `i` of the record's `astuple` row. |
| Csv.AsTuple | main.py:90 | A data row is as wide as the header. |
| Csv.ColumnsFollowHeader | main.py:26 | Column `i` of a record's row holds the field named in header column `i`, so the header and the rows agree on field order. |
| Csv.WriteRows | main.py:86-90 | The output is the header followed by one row per record, in the order given, and every row has the header's width. |
| Csv.TupleRoundTrip | main.py:90 | Reading a record's row back gives the record. |
| Csv.TableRoundTrip | main.py:86-90 | Reading back the written rows gives the records written, in order. |
| Scenarios.SampleListingParses | main.py:43-52 | A caption "128 Bewertungen" gives the review token "128", and four indicators give rating 4. A missing subtitle gives an absent clinic with every other field filled. |
| Scenarios.NestedIndicatorsCount | main.py:48 | A `span` nested inside another element is counted. |
| Scenarios.MissingTitleFailsPage | main.py:57-58 | A block without a title makes the whole page fail with `MissingTitle`. |
| Scenarios.TwoPageRun | main.py:69-84 | Two pages holding 3 and 2 records give 5 records, those of page 1 first. |

## Left out

- The browser (driver construction, `driver.get`, `page_source`, `close`) is not modelled. It is a foreign library; the `render` parameter stands in for it.
- The wait timeouts of 10 and 15 seconds are not modelled. Only the wait's outcome (marker seen or not) is kept.
- HTML parsing (`BeautifulSoup` with `lxml`) and CSS selector matching are not modelled. They are foreign libraries. A listing carries the selected sub-elements' text directly, and an element's `.text` is taken as given.
- Veterinarians.ParseListing: `num_reviews` is kept as the caption's first word, not as `float()` of it. Floating-point parsing is outside the model, so the `ValueError` for a non-numeric token is not modelled.
- Logging configuration, the log file and the log message text are not modelled. The trace records only which page started and which percentage was reported.
- Csv.WriteRows: the rows carry Python values, not text. CSV quoting, the text form of `None`, ints and floats, UTF-8 encoding, newline handling and the file itself are not modelled. At the byte level, `None` and the empty string would read back alike, so the round trip holds only at the level of cells.
- `main` is modelled only up to the run (`Pagination.CollectSearch`). Its call of `write_to_csv` is covered by the `Csv` layout, and `close` only shuts the browser down.
