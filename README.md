# Discount scraper: a verified model of `Parser`

`main.py` defines a `Parser` for a catalogue of shop pages. Given a start URL, it works in four steps:

1. It reads the category ids from the start page.
2. It reads the number of catalogue pages from the last pagination anchor.
3. It counts the products shown on one page.
4. It builds one product URL per category and product number, then fetches every product page concurrently. For each page it adds `(old_price - current_price) * stock` to the running total `result`.

This project models that core in Dafny:

- `wrappers.dfy`, module `Wrappers`: the `Option`, `Result` and `Outcome` types. A failed `Result` or `Outcome` stands for a raised Python exception.
- `pytext.dfy`, module `PyText`: the string built-ins the parser relies on.
  - `str.isspace` is `IsSpace`.
  - `str.strip()` is `Strip`.
  - `str.split()` is `Split`.
  - `str.split(sep)` is `SplitOn`.
  - `ParseInt` reads a decimal literal, the text `int()` accepts once its whitespace is skipped.
  - `str()` of an integer is `NatToString` / `IntToString`.
- `links.dfy`, module `Links`: the URL template of `get_all_links`. `Enumerate` specifies the whole list it produces. The lemmas give its length, the position of each link (category-major order), and that no link appears twice.
- `extraction.dfy`, module `Extraction`: what `get_result` reads from one product page.
  - The old price and the current price are each the first whitespace token of their span, read as an integer.
  - The stock is the stripped text after the last `:` of its span.
  - `Delta` is the page's contribution to `result`. `Total` is the change in `result` over a sequence of pages.
- `pyerrors.dfy`, module `PyErrors`: one `Error` constructor per Python exception the parser can raise, and `IntOf`, which is `int()` with the `ValueError` it raises. `int()` skips less whitespace than `strip()`: it does not skip the separators U+001C to U+001F, which `str.isspace()` accepts. So `IntOf` strips with its own `IntStrip`.
- `discovery.dfy`, module `Discovery`: `get_all_categories` and `get_total_pages`, taken over what BeautifulSoup found on the start page.
- `parser.dfy`, module `Scraper`: `class Parser`, with the fields of `__init__` and one method per method of the source.
  - Each method states the parser's new state.
  - `Gather` runs `get_result` over the product pages until one raises. `RunMain` is `main`, which gathers over the pages behind `links`.
  - `Discover` is the part of `__call__` before `main`. `Call` is the whole of `__call__`.
  - `FirstError` is the exception `gather` raises, or `None`. `ParsedPrefix` is the number of pages that run before it is raised. Both are instances, at `ExtractFields`, of `FirstFailure` and `LeadingSuccesses`, which are stated for any parse function.

HTML parsing is not modelled. Each `soup.find(...)` becomes an `Option` input: `None` is the "no such tag" case, where reading `.text` or calling `.find_all` raises `AttributeError`. Each `find_all(...)` becomes a sequence input.

- `get_all_categories` takes the `id` attribute of every div found, or `None` for a div without one (`KeyError`).
- `get_total_pages` takes the texts of the anchors.
- `get_products_on_one_page` takes the item divs.
- A product page is given by the texts of its three spans, as a `ProductPage`.
- Fetching a page is the function `fetch` from links to pages.

## Model

| member | source | states |
|---|---|---|
| Scraper.Parser.constructor | main.py:15-22 | A new parser has the given domain, no categories, no links, and `total_pages`, `products_on_one_page` and `result` all 0 |
| Scraper.Parser.GetAllCategories | main.py:29-31 | On success the category list is extended by the ids of the found divs, in document order. On `AttributeError` or `KeyError` the exception is returned and the list is unchanged. |
| Discovery.CategoriesOf | main.py:30-31 | The ids of the category divs under the menu, or `AttributeError` when there is no menu. It is what `GetAllCategories` appends, and `CategoryIds` states what it yields. |
| Discovery.CategoryIds | main.py:30-31 | The ids are produced exactly when every div has an `id`. There is then one id per div, each that div's own. Otherwise the error is `KeyError('id')`. |
| Scraper.Parser.GetTotalPages | main.py:33-35 | `total_pages` becomes the integer read from the last anchor. On `AttributeError`, `IndexError` or `ValueError` the exception is returned and `total_pages` is unchanged. |
| Discovery.TotalPagesOfLast | main.py:34-35 | Only the last anchor counts: whatever comes before it, a last anchor reading `n`, padded with whitespace that `int()` skips, gives `n` pages |
| Discovery.TotalPagesOf | main.py:34-35 | `int()` of the last anchor's text, with the errors of each step. `TotalPagesOfLast` and `TotalPagesOfErrors` state its results. |
| Discovery.TotalPagesOfErrors | main.py:34-35 | No pagination div raises `AttributeError` and no anchor raises `IndexError`. Otherwise the call raises exactly when the last anchor is not a literal after `int()`'s whitespace is skipped. |
| Discovery.TotalPagesOfSeparator | main.py:34-35 | A last anchor `"\x1c4"` raises `ValueError`, because `int()` does not skip U+001C |
| Scraper.Parser.GetProductsOnOnePage | main.py:37-39 | `products_on_one_page` becomes the number of item divs found |
| Links.ProductCount | main.py:43 | `range(1, total_pages * products_on_one_page + 1)` yields that product when both counts are non-negative, and never a negative count |
| Scraper.Parser.GetAllLinks | main.py:41-45 | The links already present stay as a prefix. Exactly the enumeration of every (category, product) link, category by category, is appended after them. No other field changes. |
| Links.LinkFor | main.py:45 | The link of product `p` of category `cn`: `domain + categories[cn - 1] + "/cn/cn_p.html"`. `LinkForInjective` shows that it determines `cn` and `p`. |
| Links.Enumerate | main.py:42-45 | Every link of the first `upTo` categories, category by category, each with its `count` products in order. `EnumerateLength`, `EnumerateAt`, `EnumerateLocate` and `EnumerateDistinct` state its shape. |
| Links.CategoryLinks | main.py:43-45 | One category contributes exactly `count` links |
| Links.CategoryLinksSnoc | main.py:43-45 | Each pass of the inner loop extends the category's links by the link of the next product number |
| Links.EnumerateLength | main.py:42-45 | `n` categories of `count` products give exactly `n * count` links |
| Links.EnumerateAt | main.py:42-45 | Product `p` of category `cn` sits at offset `(cn - 1) * count + (p - 1)` and is `domain + category + "/cn/cn_p.html"` |
| Links.EnumerateLocate | main.py:42-45 | Every appended link is the link of some category `cn` and product `p`, found at that pair's offset |
| Links.LinkForInjective | main.py:45 | The category number and the product number can be read back from a link, whatever the domain and the category ids |
| Links.EnumerateDistinct | main.py:42-45 | No link is appended twice |
| Extraction.PriceOf | main.py:50-53 | `int(span.text.split()[0])`: `AttributeError` without the span, `IndexError` on a blank text, otherwise `int()` of the first token. `PriceOfNumber` and `PriceOfBlank` state its results. |
| Extraction.StockOf | main.py:54-55 | `int(span.text.split(':')[-1].strip())`: `AttributeError` without the span, otherwise `int()` of what follows the last colon, stripped. `StockOfNumber` and `StockOfNoColon` state its results. |
| Extraction.ExtractFields | main.py:50-55 | The three parses in source order. The first that raises decides the error, and otherwise the page's fields are returned. `ExtractWellFormed` states its result on the site's format. |
| Extraction.Contribution | main.py:56-57 | `(old_price - current_price) * stock` of parsed fields, never clamped |
| Extraction.Delta | main.py:50-57 | What one `get_result` adds to `result`: the contribution of a page that parses, and nothing for one that raises |
| Extraction.Total | main.py:56-57 | What a run of `get_result` calls adds to `result`: the sum of the pages' `Delta`. `TotalAppend`, `TotalPermutation`, `TotalAllParsed` and `TotalUniform` state its properties. |
| Extraction.PriceOfNumber | main.py:50-53 | A price text whose first whitespace token is `str(n)` parses to `n`, whatever follows the token |
| Extraction.PriceOfBlank | main.py:50-53 | Parsing a price raises `IndexError` exactly when the span's text is all whitespace |
| Extraction.StockOfNumber | main.py:54-55 | A stock text `caption:` followed by `str(n)` with whitespace around it parses to `n`, whatever the caption |
| Extraction.StockOfNoColon | main.py:54-55 | A stock text without `:` is parsed whole, after stripping |
| Extraction.ExtractWellFormed | main.py:50-57 | A page in the site's format parses to its old price, current price and stock, and adds `(old - current) * stock` |
| Extraction.ExtractExample | main.py:50-57 | `"100 руб"`, `"80 руб"`, `"in stock: 5"` parse to (100, 80, 5) and add 100 |
| Extraction.NegativeExample | main.py:56-57 | A price rise is added as it is, never clamped: 50 / 70 / 3 adds -60 |
| Scraper.Parser.GetResult | main.py:47-57 | When all three fields parse, `result` grows by `(old_price - current_price) * stock`. When any parse raises, the first error in source order is returned and `result` is unchanged. |
| Scraper.Parser.Gather | main.py:65 | `gather` raises exactly when some page does not parse, and then raises the error of the first such page. `result` grows by the total of the pages before that page, or of all pages when none raises. |
| Scraper.Parser.RunMain | main.py:59-65 | `main` gathers over the pages fetched from `links`, in the order of `links`, with `Gather`'s outcome |
| Scraper.Fetched | main.py:65 | The pages served at `links`, one task per link, in the order of `links` |
| Scraper.FirstError | main.py:65 | The error `gather` raises when the tasks parse in link order: that of the first page that does not parse, or none. `NoErrorIffAllParse` and `GatherStops` state what it means. |
| Scraper.ParsedPrefix | main.py:65 | How many pages run before `gather` raises: the index of the first page that does not parse, or all of them. `GatherStops` states what it means. |
| Scraper.FetchedAt | main.py:65 | The page of task `i` is the one served at link `i` |
| Scraper.GatherStops | main.py:65 | The pages before `ParsedPrefix(pages)` all parse. Nothing is raised exactly when that index is the number of pages. Otherwise the page at that index is the one that raises, with the error `gather` reports. |
| Scraper.NoErrorIffAllParse | main.py:65 | `gather` raises nothing exactly when every page parses |
| Scraper.FirstFailureNone | main.py:65 | Over the first `n` tasks, nothing is raised exactly when each of those `n` tasks parses |
| Scraper.FirstFailureAt | main.py:65 | Over the first `n` tasks, nothing is raised exactly when the leading run of parsing tasks is all `n`. Otherwise the raised error is the parse error of the task just after that run. |
| Scraper.LeadingSucceed | main.py:65 | Every task in the leading run counted by `LeadingSuccesses` parses |
| Scraper.FailureExtend | main.py:65 | Once the first `n` tasks have raised, later tasks change neither the error nor the number of tasks that ran |
| Scraper.NewParserGather | main.py:59-65 | A new parser (`result` 0) gathering over pages that all parse raises nothing and ends with `result` equal to the sum of the pages' contributions |
| Extraction.TotalAppend | main.py:56-57 | The total over two runs of pages is the sum of their totals |
| Extraction.TotalPermutation | main.py:56-65 | The order in which the concurrent updates land does not change `result`: any permutation of the pages gives the same total |
| Extraction.TotalAllParsed | main.py:56-65 | When every page parses, the total is the sum of the pages' contributions |
| Extraction.TotalUniform | main.py:56-65 | No update is lost: `k` pages that each add `c` add `k * c` |
| Scraper.Parser.Discover | main.py:67-72 | The discovery steps of `__call__`, in order. If reading the categories raises, no field changes. If reading the page count raises, only the categories change. Otherwise the counts are set and the enumerated links are appended. |
| Scraper.Parser.Call | main.py:67-75 | `__call__`: the outcomes of `Discover`. When discovery succeeds, `main` then runs over the pages of all links, and its outcome and its change to `result` are those `Gather` states. |
| PyText.Strip | main.py:55 | `strip()` yields a text no longer than its input, with no whitespace at either end |
| PyText.StripPadded | main.py:55 | Stripping removes exactly the whitespace padding around a text that neither starts nor ends with whitespace |
| PyText.StripIdempotent | main.py:55 | Stripping twice is stripping once |
| PyText.Split | main.py:51 | `str.split()` with no argument: the maximal runs of non-whitespace, in order. The `Split` lemmas below state its results. |
| PyText.SplitTokens | main.py:51 | Every piece of `split()` is a non-empty run of non-whitespace characters |
| PyText.SplitBlank | main.py:51 | `split()` is empty exactly when the text is all whitespace |
| PyText.SplitJoin | main.py:51 | Splitting the tokens joined by single spaces gives the tokens back |
| PyText.SplitLeading | main.py:51 | Leading whitespace does not change `split()` |
| PyText.SplitWord | main.py:51 | A token followed by whitespace and more text splits into that token and the split of the rest |
| PyText.SplitOn | main.py:55 | `split(':')` yields at least one piece, and no piece contains the separator |
| PyText.JoinSplitOn | main.py:55 | Joining the pieces of `split(sep)` with `sep` gives the original text |
| PyText.SplitOnAbsent | main.py:55 | Without the separator the text is one piece |
| PyText.SplitOnLast | main.py:55 | The last piece is what follows the last separator |
| PyText.SplitOnFirst | main.py:45 | The first piece is what precedes the first separator. Nothing in the source splits here: `LinkForInjective` uses it to read `cn` back from the file name `cn_p.html` of the link template. |
| PyText.NatToString | main.py:45 | `str(n)` of a natural number is a decimal numeral without leading zeros |
| PyText.IntToString | main.py:45 | `str(n)`: a `-` before the digits of `-n` when `n` is negative. It is how `cn` and `product_num` are formatted into the link. `ParseIntToString` is the round trip. |
| PyText.NatToStringValue | main.py:45 | The digits of `str(n)` denote `n` |
| PyText.NatToStringInjective | main.py:45 | Different numbers have different `str()` texts |
| PyText.ParseInt | main.py:50-55 | The value of a literal `[+-]?[0-9]+` and nothing for any other text. `ParseIntToString` is the round trip. |
| PyText.ParseIntToString | main.py:50-55 | `int(str(n)) == n` for every integer `n` |
| PyErrors.IntStripPadded | main.py:34 | Skipping `int()`'s whitespace recovers exactly the text between padding of that whitespace |
| PyErrors.IntOf | main.py:34 | `int(text)`: the literal left once `int()`'s whitespace is skipped, or `ValueError`. `IntOfPadded`, `IntOfNumeral` and `IntOfSeparator` state its results. |
| PyErrors.IntOfPadded | main.py:34 | `int()` of `str(n)` padded on either side with whitespace that `int()` skips is `n` |
| PyErrors.IntOfNumeral | main.py:50-55 | `int(str(n))` is `n` and raises nothing |
| PyErrors.IntOfSeparator | main.py:34 | U+001C is whitespace to `str.isspace()` but not to `int()`, so `int()` of it followed by `str(n)` raises `ValueError` |

## Left out

- HTTP is not modelled: `requests.get` in `get_soup` (main.py:24-27), the `aiohttp` session and `ExponentialRetry` policy (main.py:59-64), and `raise_for_status=False` (main.py:48). A page is whatever `fetch` returns. Retries, timeouts, transport errors and error statuses are not modelled.
- `fake_headers` is not modelled (main.py:21, 48). The headers do not affect any computed value.
- BeautifulSoup and lxml are not modelled. What `find` and `find_all` return is an input. `find_all('div')` at main.py:31 returns every descendant div of the menu, not just its direct children; the model takes whatever list was found.
- Scraper.Parser.Gather: models one schedule of the concurrent tasks: they reach their parse one after another, in the order of `pages`, and the first that raises stops the run. Each update of `result` is atomic, because there is no `await` between main.py:50 and main.py:57, and `TotalPermutation` shows that the order of the updates does not change the total. In the source, the first exception propagates out of `asyncio.gather` while other tasks may still be running, and `asyncio.run` then cancels them. Other schedules, in which tasks after the failing page or past its position in `links` land their updates first, are not modelled. Neither is which exception is reported when several pages fail concurrently.
- Scraper.Parser.Call: does not model `asyncio.set_event_loop_policy(asyncio.WindowsSelectorEventLoopPolicy())` (main.py:74). That class exists only on Windows, and elsewhere this line raises `AttributeError` before any product page is fetched. The model follows the Windows behaviour.
- `__new__` (main.py:12-13) is not modelled: it only delegates to `object.__new__`.
- The `__main__` block is not modelled (main.py:78-83): the timing with `perf_counter` and the `print` calls.
- `int()` is modelled for ASCII decimal literals with an optional sign and surrounding whitespace. The whitespace it skips is that of `str.isspace()` without U+001C to U+001F. Digit-group underscores and non-ASCII decimal digits are not modelled, and a text using them is reported as a `ValueError`.
- Integers are unbounded: Python's `int` does not overflow.
- PyText.ParseIntToString: does not model CPython's limit of 4300 digits on converting between `int` and `str`. Above it, `int()` and `str()` raise `ValueError` (main.py:34, main.py:45, main.py:50-55). The model converts numerals of any length, so it states `int(str(n)) == n` for every integer. The same holds for `PyText.NatToString`, `PyText.IntToString`, `PyErrors.IntOf` and `PyErrors.IntOfNumeral`.
- The fields are not constrained to be non-negative. The code accepts any integer the pages parse to: a price rise makes a negative contribution, and a negative or zero page count yields no links.
