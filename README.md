# Google Maps business scraper: a verified model of the scroll-and-extract loop

The scraper takes a business type and a location, opens Google Maps on the
search `"<keyword> in <location>"`, and scrolls the result list. After every
scroll it reads the page height and the list of result cards
(`div[role='article']`), turns each new card into a business record of seven
fields, and stops after `max_results` records or after five scrolls in a row
that did not make the page taller. A license-key store gates access to the
scraper.

This project models that core in Dafny:

- `wrappers.dfy` (`Wrappers`): the optional value.
- `cards.dfy` (`Cards`): a card is the map from CSS selector to the element that
  selector finds in it. `extract_element` and `extract_attribute` become
  functions that return `None` when the lookup fails. The per-card body of the
  loop becomes `ExtractRecord`: a card whose name lookup fails or yields `""` is
  skipped, and otherwise each of the six optional fields is read on its own.
- `query.dfy` (`Query`): the search string `f"{keyword} in {location}".replace(' ', '%20')`
  and the URL built from it. Only the space is escaped. So this is only a partial
  percent-encoding in the sense of section 2.1 of RFC 3986, and a literal `%20`
  in the input cannot be told apart from a space.
- `scroll.dfy` (`Scroll`): the browser is a `Page` value. It holds the height
  read before the loop, one observation (height and card list) per scripted
  scroll, and a settled observation that every later scroll shows.
  `ScrapeGoogleMaps` is the `while` loop with its three variables. The inner
  `for` loop is `ExtractNewCards`. Both are proved against the functional
  specification `Run`/`PassFrom`, and the properties are lemmas about `Run`.
  The loop restarts every pass at index `len(businesses)`, as the source does.
  When unnamed cards were skipped, that offset lags behind the cards already
  examined, and a named card can be extracted twice (`SkippedCardShiftsOffset`).
  When every card has a name and the list only grows, the offset is exact, and
  the result is the first `max_results` cards in page order (`RunKeepsDiscoveryOrder`).
- `license.dfy` (`License`): `LicenseManager` is a class holding the key→expiry
  map. `generate_key` stores a caller-supplied fresh key with its expiry date,
  written as `YYYY-MM-DD`. `validate_key` is a function of the map, the key and
  the current instant. Because the stored date parses to midnight, a key is
  valid on every day before its expiry date and not on that day itself.

Three behaviours of the code worth noting:

- A search that shows no card at all makes the scrape fail: the
  `WebDriverWait(...).until(...)` call raises after its timeout
  (`NoCardsIsFailure`). An observation with an empty card list stands for
  that timeout.
- The offset into the card list is the number of records collected. It is not
  the number of cards examined.
- Only spaces are escaped in the query. Nothing else is percent-encoded.

## Model

| member | source | states |
|---|---|---|
| Cards.ExtractElement | Scrapper/app.py:195-200 | the element's text when the selector finds an element in the card, None exactly when the lookup fails; never an error |
| Cards.ExtractAttribute | Scrapper/app.py:202-207 | the attribute's value when the element exists and carries the attribute, None exactly otherwise; never an error |
| Cards.ExtractRecord | Scrapper/app.py:168-185 | a record exists iff the name lookup succeeds with a non-empty text; its name is that text; each optional field is None exactly when its own lookup fails, and otherwise holds that element's text (the `href` attribute for the website) |
| Cards.MissingFieldsKeepRecord | Scrapper/app.py:177-185 | removing any subset of the optional fields from a named card still yields a record with the same name; exactly the removed fields become None and the others keep their values |
| Query.EncodeSpaces | Scrapper/app.py:145 | `replace(' ', '%20')` leaves no space, and the result is the input length plus 2 per space |
| Query.EncodeSpacesAppend | Scrapper/app.py:145 | the replacement distributes over concatenation, so it works character by character |
| Query.DecodeEncodeSpaces | Scrapper/app.py:145 | on text without '%', reading "%20" back as a space recovers the input, so no other character is changed |
| Query.EncodeSpacesNotInjective | Scrapper/app.py:145 | a space and a literal "%20" encode to the same text (partial percent-encoding) |
| Query.SearchQuery | Scrapper/app.py:145 | the query has no space, and its length is that of "keyword in location" plus 2 per space |
| Query.SearchQueryParts | Scrapper/app.py:145 | the query is the encoded keyword, then "%20in%20", then the encoded location |
| Query.SearchQueryDecodes | Scrapper/app.py:145 | without '%' in the inputs, the query decodes back to "keyword in location" |
| Query.SearchUrl | Scrapper/app.py:145-146 | the URL opened has no space, and is the Maps search base, then exactly the encoded query, then '/' |
| Scroll.StagnantRun | Scrapper/app.py:157-161 | the length of the run of scrolls without height growth that ends at scroll n: every scroll in the run is stagnant, and the one before it is not |
| Scroll.Records | Scrapper/app.py:168-187 | the uncapped records of a card list, in list order: at most one per card, each with a non-empty name |
| Scroll.PassFrom | Scrapper/app.py:168-190 | one pass of the inner loop only appends; starting below the cap it ends at most at the cap; it keeps every name non-empty |
| Scroll.PassFromInOrder | Scrapper/app.py:168-190 | a pass from index len(businesses) appends exactly the records of one stretch cards[i..e] in list order; no earlier card is examined, and it stops before the end only on reaching the cap; an offset past the end of the list appends nothing |
| Scroll.Step | Scrapper/app.py:153-190 | one iteration fails with the wait's timeout exactly when the scroll shows no card; otherwise it makes one scroll, only appends records, does not pass the cap, and keeps last_height and scroll_attempts following the page |
| Scroll.Run | Scrapper/app.py:152-190 | when the loop returns, its condition is false; it scrolls at least once when the condition held on entry, and returns the state unchanged when it did not |
| Scroll.Scrape | Scrapper/app.py:131-193 | a returned list has at most max_results records (none for a non-positive cap) and every record in it has a name |
| Scroll.ExtractNewCards | Scrapper/app.py:168-190 | the `for` loop with its `continue` and `break` computes exactly that pass: the old list is kept as a prefix and the cap is not passed |
| Scroll.ScrapeGoogleMaps | Scrapper/app.py:131-193 | the `while` loop returns exactly what the specification `Run` gives for the page served at the search URL; the list has at most max_results records and every name is non-empty |
| Scroll.RunBounded | Scrapper/app.py:152-190 | the loop only appends to the list and never takes it past max_results |
| Scroll.RunNamed | Scrapper/app.py:169-175 | every record the loop collects has a non-empty name |
| Scroll.RunTracksStagnation | Scrapper/app.py:152-161 | last_height is always the height read last; scroll_attempts is always the number of stagnant scrolls in a row; the loop runs until the first scroll that completes five of them, unless the cap comes first |
| Scroll.StopsAtCapOrFirstStagnation | Scrapper/app.py:152-161 | from the start, the loop ends only on the cap or on five stagnant scrolls in a row, at the first such point; when the cap was not reached, the last five scrolls did not grow the page |
| Scroll.RunSucceedsWhenCardsShown | Scrapper/app.py:164-166 | when every observation shows a card, the wait never times out and the loop returns a list |
| Scroll.NoCardsIsFailure | Scrapper/app.py:164-166 | a first scroll that shows no card makes the scrape fail with the wait's timeout instead of returning an empty list |
| Scroll.ConstantHeightStopsAfterFiveScrolls | Scrapper/app.py:150-161 | on a page whose height never changes, the loop ends after exactly five scrolls, unless the cap is reached first, even while cards are still on offer |
| Scroll.OffsetIsPrefixLength | Scrapper/app.py:168 | when every card has a name and the list only grows, len(businesses) is the number of cards already examined |
| Scroll.StepKeepsDiscoveryOrder | Scrapper/app.py:152-190 | under the same assumptions, one iteration leaves the records of the first min(max_results, card count) cards, in page order |
| Scroll.RunKeepsDiscoveryOrder | Scrapper/app.py:152-190 | under the same assumptions, the result is the records of the first min(max_results, card count) cards of the last observation, each card extracted once and in page order |
| Scroll.SkippedCardShiftsOffset | Scrapper/app.py:168-187 | as written: after an unnamed card is skipped, the next pass starts one card early and extracts a named card a second time |
| License.FormatDate | Scrapper/app.py:38 | `strftime('%Y-%m-%d')` writes ten characters, digits with '-' at positions 4 and 7 |
| License.ParseDate | Scrapper/app.py:49 | `strptime` succeeds only on a real calendar date |
| License.ParseFormatDate | Scrapper/app.py:38-49 | an expiry date written by generate_key parses back to the same date |
| License.FormatParseDate | Scrapper/app.py:38-49 | a zero-padded date text that parses is written back unchanged |
| License.BeforeMidnightIsEarlierDay | Scrapper/app.py:49 | now is before midnight of the expiry date iff today's date is before the expiry date |
| License.ValidateKey | Scrapper/app.py:46-50 | an absent key or an empty expiry gives (False, None); a stored expiry that is not a date raises; a stored date gives exactly (today is before the expiry date, the stored text) |
| License.GeneratedKeyValidUntilExpiry | Scrapper/app.py:37-50 | a generated key validates with its own expiry text, and is valid exactly before its expiry date |
| License.GenerateKeepsOtherKeys | Scrapper/app.py:42-47 | storing one key changes the validation of no other key |
| License.LicenseManager.constructor | Scrapper/app.py:24-31 | the manager starts with the licenses already stored |
| License.LicenseManager.GenerateKey | Scrapper/app.py:37-44 | returns the fresh key and its written expiry; the map gains or overwrites exactly that entry and every other entry is unchanged; the new key validates until its expiry date |
| License.LicenseManager.Validate | Scrapper/app.py:46-50 | validate_key on the stored map; a key reported valid is stored |

## Left out

- The Streamlit page, the admin sidebar and `main` (app.py:56-129, 209-210) are presentation and input gating: the license check before a scrape, the "fill both fields" check and the 10-500 slider.
- Chrome setup, the `headless` flag and `driver.get` are not modelled. The browser is the `site` function from URL to `Page`.
- `driver.quit()` is not modelled. The model does not capture that it is skipped when the wait raises, because there is no `finally`.
- `time.sleep(SCROLL_PAUSE_TIME)` is real-time waiting and is left out. The 10-second polling of `WebDriverWait` is left out too: an observation's card list is what the wait returns, and an empty list is its timeout.
- Scroll.ScrapeGoogleMaps: the browser is a finite script followed by a settled page that never changes. A real page could keep growing forever without named cards, and the model does not cover that.
- Browser failures other than failed element lookups are not modelled: a crashed driver or a failing `execute_script`.
- Failures inside a card lookup (no element, stale element) all appear as a selector that finds nothing.
- The license file (`_load_licenses`, `_save_licenses`, JSON) is left out. The constructor takes the stored map instead.
- Key derivation (`os.urandom`, SHA-256, base64) is foreign code. `GenerateKey` takes the fresh key as a parameter.
- `datetime.now()` and `timedelta` are not modelled. The caller passes the current instant and the expiry date (today plus the duration).
- License.ParseDate: accepts only the zero-padded form that `strftime` writes. Python's `strptime` also accepts a one-digit month or day, and a day padded with a space instead of a zero ("2030-01- 5").
- License.LicenseManager.GenerateKey: requires a four-digit year. On Linux, `%Y` does not pad years below 1000, and such dates are never generated from the current date.
- The pandas DataFrame and the CSV export (app.py:111-123) wrap a library.
- `Scrapper/scrapper.spec.py` is a PyInstaller build configuration with no runtime logic.
- The unused constant `MAX_RESULTS` (app.py:19) is not modelled. The loop's cap is the `max_results` parameter.
