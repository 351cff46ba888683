# DorkParser core, modelled in Dafny

`Kill.py` is a search-engine dork scraper. A `DorkParser` object does the following:

- It reads dorks and proxies from the console or from files.
- It drives a headless Chrome through four search engines: Google, Bing, DuckDuckGo and Yahoo.
- For each dork it collects the result links of a number of pages.
- It keeps a shared `stats` dictionary that a display thread polls until every dork is accounted for.

This project models the part of that behaviour that can be stated exactly, and proves what the code promises about it:

- each engine's result-page URL and paging offset;
- the `href` filter applied to a result page;
- how a proxy string `ip:port` or `ip:port:user:pass` becomes Chrome's `--proxy-server` argument and the probe dictionary of `validate_proxy`;
- the validation loop of `load_proxies`;
- the stripping and blank-line removal applied to dork and proxy files;
- the retry loop of `process_dork`, with its effect on the counters;
- the submission of all dorks by `run`, and the stop test of `display_stats`.

The browser is replaced by a script of what it does:

- For each pass of the retry loop, either `setup_chrome_driver` returned `None`, or a browser came up.
- Once a browser is up, for each engine in order the script says what each page gave: the `href` values of the matched elements; a failure, which `get_search_results` catches itself and turns into no links; or an exception raised inside the engine's `try`, which cuts its page loop short.
- The script also says whether `driver.quit()` raised into the outer `except`.

Passes, engines and pages the script does not list are, respectively, a failed driver setup, an engine whose pages load nothing, and a page that loads nothing.

In `Kill.py` nothing inside an engine's `try` can in fact raise outside `get_search_results`, and that function catches every `Exception` itself (Kill.py:282-284). Without a scripted exception, the page loop of the first engine always completes, so only Google is ever tried: that is `GoogleFirst`. The fallback to Bing, DuckDuckGo and Yahoo is practically unreachable; the model keeps it reachable only through the scripted exception.

Files:

- `wrappers.dfy`: `Option`.
- `pystr.dfy`: the Python string behaviour the code relies on: `startswith`, substring `in`, `split(':')`, `strip()` with Python's whitespace set, and `str()` of a non-negative integer.
- `engines.dfy`: engines, their order and URL templates, the offsets, the link filter and `get_search_results`.
- `proxies.dfy`: proxy strings and validation.
- `inputs.dfy`: `load_dorks` and `load_proxies`.
- `dork_run.dfy`: `process_dork` as functions of the script, plus the run over all dorks.
- `stats.dfy`: the `stats` dictionary as a class. Its methods `ProcessDork` (with its page and engine loops) and `RunDorks` update it in place, and are proved equal to the functions of `dork_run.dfy`.

The name `max_retries` could suggest one try plus `max_retries` retries; the code makes at most `max_retries` passes, and `RetryBudget` proves that bound.

`all_links` is created before the retry loop. A pass that collected links but then failed in `driver.quit()` therefore leaves them behind, and the next clean pass returns `True` with those links even if it finds nothing itself. The model does the same; `LinksCarryOver` states it.

## Model

| member | source | states |
|---|---|---|
| PyStr.ContainsAt | Kill.py:256 | `t in s` holds exactly when `t` occurs in `s` at some position. |
| PyStr.Split | Kill.py:104 | `split(':')` always yields at least one field. |
| PyStr.SplitJoin | Kill.py:104 | Joining the fields of `split(sep)` with `sep` gives back the original string. |
| PyStr.SplitFieldsFree | Kill.py:109 | No field produced by `split(sep)` contains `sep`. |
| PyStr.JoinSplit | Kill.py:109-110 | Splitting fields that are free of `sep`, after joining them with `sep`, gives back those fields. |
| PyStr.StripShape | Kill.py:225 | `strip()` returns a contiguous block of the input with only whitespace on each side, and a non-empty result neither starts nor ends with whitespace. |
| PyStr.StripBlank | Kill.py:225 | `line.strip()` is empty exactly when the line is all whitespace (both directions). |
| PyStr.StripIdempotent | Kill.py:225 | Stripping a stripped string changes nothing. |
| PyStr.Decimal | Kill.py:237 | `str(n)` is a non-empty string of decimal digits that starts with `0` only when `n` is 0, and is exactly `"0"` then. |
| PyStr.DecimalRoundTrip | Kill.py:237 | Reading back the digits of `str(n)` gives `n`. |
| Engines.Offset | Kill.py:235-245 | The paging offset divided by 10 is the page number; the remainder is 1 for Bing and Yahoo and 0 for Google and DuckDuckGo. |
| Engines.OffsetsAgree | Kill.py:235-245 | Google and DuckDuckGo use `10*p`; Bing and Yahoo use one more, so at least 1; every next page adds exactly 10 for each engine. |
| Engines.SearchUrl | Kill.py:42-47 | The URL is the engine's template with the dork in it, followed by digits whose value is the engine's offset for the page, with no leading zero. |
| Engines.KeptLinksSpec | Kill.py:252-278 | The filter's output is an order-preserving subsequence of the `href`s. Every kept link qualifies. Every qualifying `href` is kept. As many links are kept as qualify. |
| Engines.LinkFilterFacts | Kill.py:252-278 | Every kept link starts with `http`. For Google no kept link contains `google.com`. For the other engines every `http…` href is kept. |
| Engines.CollectLinks | Kill.py:252-278 | The append loop over the matched elements returns exactly the filter's result. |
| Engines.GetSearchResults | Kill.py:232-284 | Returns the engine's URL for the page, and the filtered links of the page, or none when loading failed; all of them start with `http`. |
| Proxies.ProxyArgument | Kill.py:103-110 | A Chrome argument is added exactly when a proxy is given and has 2 or 4 `:`-fields. It is `--proxy-server=http://` followed by the proxy's `ip:port`. |
| Proxies.ProxyArgumentDropsCredentials | Kill.py:107-110 | For a 2- or 4-field proxy the server given to Chrome splits into exactly the proxy's first two fields, so user and password are dropped. |
| Proxies.ProbeProxies | Kill.py:161-170 | A probe dictionary exists exactly for 2- or 4-field proxies. Its keys are `http` and `https`, mapped to the same URL. |
| Proxies.ProxyFormsAgree | Kill.py:161-168 | Chrome and the probe accept the same strings. With 2 fields the probe URL is `http://` + proxy. With 4 fields it is `http://user:pass@ip:port`, aimed at the server Chrome is given. |
| Proxies.ValidateProxy | Kill.py:158-175 | A proxy with another field count is refused whatever the network says. A well-formed one is accepted exactly when the probe got status 200. |
| Proxies.ValidProxiesSpec | Kill.py:200-209 | The validated list is an order-preserving subsequence of the loaded one, picked only from entries whose own probe accepted them; each kept proxy is well formed and yields a Chrome argument. Every proxy whose probe succeeds is in the list, and its length is the number of proxies that passed, so the list is exactly the accepted entries in order. |
| Proxies.ValidateAll | Kill.py:200-209 | The validation loop keeps exactly the proxies the filter definition keeps. |
| Inputs.CleanLinesInOrder | Kill.py:225 | The cleaned lines are the stripped lines, in file order, with some dropped. |
| Inputs.CleanLinesStripped | Kill.py:225 | No cleaned line is empty or has whitespace left at either end. |
| Inputs.CleanLinesCount | Kill.py:225 | There is exactly one cleaned line per line that is not all whitespace. |
| Inputs.CleanLinesKeepsNonBlank | Kill.py:190 | Every line that is not all whitespace appears, stripped, among the cleaned lines. |
| Inputs.CleanLinesSpec | Kill.py:190 | The four cleaning properties above together, for proxy files as for dork files. |
| Inputs.LoadDorks | Kill.py:213-230 | Choice `1` gives the typed dork alone. A missing file gives no dorks. Otherwise the dorks are exactly the file's cleaned lines, so every dork is non-empty and already stripped. |
| Inputs.LoadProxies | Kill.py:177-211 | Without proxies nothing is loaded and nothing rotates. A rotating list is the file's cleaned lines, or the typed proxy. Any other list keeps exactly the proxies validation accepts, all of them well formed. |
| DorkRun.PagesFromFacts | Kill.py:311-316 | The page loop only appends links, and `urls_parsed` grows by exactly the number appended. It keeps links `http…` and leaves the engine list alone. It completes exactly when no page raises. |
| DorkRun.RemoveFirstFacts | Kill.py:323-324 | On a list without duplicates, `remove(engine)` drops that engine entirely and keeps every other one, still without duplicates. |
| DorkRun.TryEngineFacts | Kill.py:307-325 | After one engine's `try`/`except`, the engine is listed in `working_engines` exactly when its page loop completed. The other engines are unchanged and there are no duplicates. The completed flag is exactly "no page raised". |
| DorkRun.EngineLoopFacts | Kill.py:306-325 | The engine loop extends `all_links` and counts each added link in `urls_parsed`; links stay `http…` and `working_engines` stays free of duplicates. |
| DorkRun.EngineLoopStops | Kill.py:306-319 | The loop stops at the first engine whose page loop completes: what later engines would do makes no difference. |
| DorkRun.GoogleFirst | Kill.py:306-319 | When Google's page loop completes, Google is the only engine tried, and it is then listed as working. |
| DorkRun.RetryFacts | Kill.py:291-346 | Over all passes, links are only appended and each is counted once in `urls_parsed`. They stay `http…`, and `working_engines` has no duplicates. |
| DorkRun.RetryBudget | Kill.py:288-346 | At most `max_retries` passes, never an extra one. None at all and failure when `max_retries <= 0`. A failure means every pass was used up. |
| DorkRun.RetrySuccess | Kill.py:327-338 | `True` only on a pass whose browser came up and whose `driver.quit()` did not raise, with links collected. Conversely, when the first remaining pass is such a pass, it returns `True` at once with that pass's links, after one attempt. |
| DorkRun.BarrenPagesKeepLinks | Kill.py:311-316 | Pages that raise, fail to load or have no kept `href` leave `all_links` unchanged. |
| DorkRun.BarrenEnginesKeepLinks | Kill.py:306-325 | When no engine's pages yield a kept link, the engine loop leaves `all_links` unchanged. |
| DorkRun.NothingFoundFails | Kill.py:291-346 | Starting with no links, if no pass finds any link the dork fails, every pass is used up and `all_links` stays empty. |
| DorkRun.NoDriverFails | Kill.py:299-302 | When no driver can be set up, each pass is used up, nothing changes and the dork fails. |
| DorkRun.LinksCarryOver | Kill.py:289-338 | Links left by an earlier failed pass make the next clean pass succeed. |
| DorkRun.AfterDorkFacts | Kill.py:329-354 | `process_dork` adds one to `checked_dorks` and leaves `error_dorks` alone on `True`, and adds one to `error_dorks` and leaves `checked_dorks` alone on `False`. It grows `urls_parsed` by the number of links collected, saves only non-empty `http…` link lists, and keeps `working_engines` free of duplicates. |
| DorkRun.ProcessAllAccounts | Kill.py:425-429 | After n dorks, `checked_dorks + error_dorks` has grown by exactly n; `total_dorks` and `retry_dorks` are unchanged. |
| DorkRun.StopsWhenAllProcessed | Kill.py:385 | From fresh stats with `total_dorks` set, the `display_stats` stop test holds exactly once every dork has been processed. Before that, checked plus errors never exceed the total. |
| DorkStats.Stats.constructor | Kill.py:32-40 | All counters start at 0 and no engine is working. |
| DorkStats.Stats.ProcessDork | Kill.py:286-354 | The new stats are exactly the functional model's. The return value is its outcome. The dork's record holds the collected links on success, and they are non-empty and `http…`. |
| DorkStats.Stats.TryEngines | Kill.py:305-325 | The engine loop leaves `all_links`, `urls_parsed` and `working_engines` as the functional engine loop says. No other counter moves. |
| DorkStats.Stats.TryEngine | Kill.py:307-325 | Registering an engine, running its pages, and withdrawing it on an exception leaves the state the functional model gives. |
| DorkStats.Stats.ScrapePages | Kill.py:311-316 | The page loop leaves the state and completion flag the functional page loop gives. |
| DorkStats.Stats.ScrapePage | Kill.py:312-316 | One page appends its filtered links to `all_links` and adds their number to `urls_parsed`, as `Fetch` does, and changes no other counter. |
| DorkStats.Stats.ProcessNext | Kill.py:427 | Processing the i-th dork moves the stats from the state after i dorks to the state after i + 1. |
| DorkStats.Stats.RunDorks | Kill.py:399-429 | With no dorks nothing changes. Otherwise `total_dorks` is set, the stats end as the functional model of all dorks gives, and each dork leaves exactly one record, in order. `checked_dorks + error_dorks` grows by the number of dorks. |

## Left out

- Selenium driver construction, user-agent choice and ChromeDriver path fixing (Kill.py:81-156) are not modelled. Only the proxy argument is, and whether a driver came up is part of the script.
- The `requests.get` probe (Kill.py:172-173) is network I/O. Its status code, or `None` when it raised, is a parameter.
- `input()` prompts, file reading, `os.path.exists`, and the result and error file appends are not modelled. A file is the sequence of its lines, or `None` when missing, and the answers are parameters: a `useProxies` flag stands for the `.lower() == 'y'` test. `os.remove` and screen clearing are left out too.
- Threads, the lock and `ThreadPoolExecutor` run the dorks concurrently; the model runs them one after the other, in list order. So do `RunDorks`'s records, where the source has no order.
- `random.choice` of the proxy and the random sleeps are left out; the chosen proxy is a parameter of `ProxyArgument`.
- The estimated-time computation (Kill.py:359-367) uses floats and wall-clock time. Logging, banners and printouts are left out as well.
- The display thread's loop and its sleep (Kill.py:358-386) are left out; only its stop test is modelled, as `AllAccounted`.
- `retry_dorks` is initialised (Kill.py:37) but never updated by the code. The model keeps it and proves it unchanged.
- DorkStats.Stats.ProcessDork: the second `driver.quit()` in the outer `except` (Kill.py:345-346) is taken to succeed; if it raised, the exception would leave `process_dork` and the dork would count in neither counter. The results-file write (Kill.py:332-335) is taken not to fail: a failed write would be caught by the outer `except`, which spends the pass and quits the driver again, and the model has no such pass.
- `pages` is a `nat`, so a negative page count typed at Kill.py:408 is not modelled; `range` would treat it as 0.
- The dork is put into the URL without encoding, as the code does; `str.format` is modelled as plain concatenation.
