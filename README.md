# LinkedIn Intel Extractor: the validator, the record generator and the extraction session

The application is a simulated LinkedIn scraper. The user pastes profile URLs, one per
line, into a text area. The input panel validates them. The main page then runs an
"extraction" that walks the URLs one by one: it moves a progress overlay along and
generates a synthetic profile record for each URL from fixed tables. After a short grace
period it publishes the records.

This project models the three pieces that hold the control flow:

- **The input panel.** `InputSection.tsx` cleans the text and checks every line against
  the profile-URL pattern. It builds the truncated error message and applies the gate
  that rejects an empty batch or one of more than 20. It also holds the template loader
  and the rule that disables the start button.
- **The record generator.** `dummyData.ts` holds the fixed tables. It derives the
  display name from the URL, picks a title, reorders the module-level skills pool in
  place and takes the first three skills, and builds the avatar locator.
- **The extraction session.** `Index.tsx` runs the sequential loop of
  `simulateExtraction` with its two progress updates per URL. `handleStartScraping`
  moves the session fields, the grace step publishes the batch, and `handleCloseModal`
  closes the overlay.

Files:

| file | module | what it holds |
|---|---|---|
| `strings.dfy` | `Strings` | JavaScript `split`, `join` and `trim`, with their round trips; `IndexOf` is the separator search inside `split` |
| `arrays.dfy` | `Arrays` | JavaScript `map`, `filter` and `slice(0, n)` |
| `url_pattern.dfy` | `UrlPattern` | the profile-URL regular expression, as a parser over the choices it makes |
| `types.dfy` | `Types` | `LinkedInProfile` and `ScrapingProgress` |
| `dummy_data.dfy` | `DummyData` | the tables, the display name, the in-place sort, `generateProfileData` |
| `input_section.dfy` | `InputSection` | `validateUrls`, the start gate, the template, the panel state |
| `index_page.dfy` | `IndexPage` | the extraction loop and the session as a class |

Randomness is an input. A `Draw` per URL carries three things:

- the title index that `Math.floor(Math.random() * 16)` picks;
- the order the random-comparator sort leaves the skills pool in, as an index list;
- the record id.

The skills pool is module-level state that every call sorts in place. It is the `pool`
array of the `Session` class, and it persists from call to call and from batch to batch.

## Model

| member | source | states |
|---|---|---|
| `Strings.IndexOf` | src/pages/Index.tsx:32 | the separator search inside `split`: the result is the first index at which the pattern occurs, or `None` exactly when it occurs nowhere |
| `Strings.SplitPieces` | src/components/InputSection.tsx:24 | no piece of a split contains the separator |
| `Strings.JoinSplit` | src/components/InputSection.tsx:24 | joining the pieces of a split with the same separator gives back the text |
| `Strings.SplitJoin` | src/data/dummyData.ts:3-14 | splitting on a one-character separator undoes joining with it when no piece holds that character |
| `Strings.JoinOffset` | src/components/InputSection.tsx:32 | every piece of a join occurs in the joined text |
| `Strings.TrimStart` | src/components/InputSection.tsx:25 | the result is the suffix that starts at the first non-white-space character; everything before it is white space |
| `Strings.TrimEnd` | src/components/InputSection.tsx:25 | the result is the prefix that ends at the last non-white-space character; everything after it is white space |
| `Strings.Trim` | src/components/InputSection.tsx:25 | the result has no white space at either end, and is empty exactly when the text is all white space |
| `Strings.TrimPadded` | src/components/InputSection.tsx:25 | trimming a text padded by white space on both sides gives back the text, which fixes `trim` on every input |
| `Strings.TrimIdempotent` | src/components/InputSection.tsx:25 | trimming twice is trimming once |
| `Strings.JoinAllWhiteSpace` | src/components/InputSection.tsx:124 | white-space pieces joined with a white-space separator are white space |
| `Strings.JoinNotWhiteSpace` | src/components/InputSection.tsx:124 | a join with a piece that is not all white space is not all white space |
| `Arrays.Map` | src/components/InputSection.tsx:25 | same length, and element `k` is `f` of element `k` |
| `Arrays.MapAppend` | src/components/InputSection.tsx:25 | mapping distributes over concatenation |
| `Arrays.Filter` | src/components/InputSection.tsx:26 | every kept element passes and comes from the input, and every passing element is kept |
| `Arrays.FilterAppend` | src/components/InputSection.tsx:26 | filtering distributes over concatenation, so order is kept |
| `Arrays.FilterAll` | src/components/InputSection.tsx:26 | a filter keeps everything exactly when every element passes |
| `Arrays.FilterNone` | src/components/InputSection.tsx:29-31 | a filter keeps nothing exactly when no element passes |
| `UrlPattern.Parse` | src/components/InputSection.tsx:28 | a successful parse yields a handle over `[A-Za-z0-9_-]+` and choices whose formatted URL is the input |
| `UrlPattern.ParseFormat` | src/components/InputSection.tsx:28 | parsing the URL formatted from any choices with a valid handle gives back those choices |
| `UrlPattern.MatchesIff` | src/components/InputSection.tsx:28 | a line passes exactly when it is `http` or `https`, `://`, optional `www.`, `linkedin.com/in/`, a non-empty handle and an optional `/`, and nothing else |
| `DummyData.SkillsPoolDistinct` | src/data/dummyData.ts:16-22 | the skills table has 24 entries, none twice |
| `DummyData.TitlesDistinct` | src/data/dummyData.ts:3-29 | the title table has 16 entries, none twice, and the template has 10 URLs |
| `DummyData.HyphensToSpacesAt` | src/data/dummyData.ts:32 | every `-` becomes a space and every other character stays |
| `DummyData.CapitalizeFromAt` | src/data/dummyData.ts:32 | a character is upper-cased exactly where a run of word characters starts |
| `DummyData.CapitalizeWordsAt` | src/data/dummyData.ts:32 | exactly the characters that start a word are upper-cased |
| `DummyData.DisplayNameAt` | src/data/dummyData.ts:32 | character by character, the name is the segment with `-` turned into a space and each word start upper-cased |
| `DummyData.DisplayNameHasNoHyphen` | src/data/dummyData.ts:32 | the name holds no `-` |
| `DummyData.DisplayNameIdempotent` | src/data/dummyData.ts:32 | deriving a name from a derived name changes nothing |
| `DummyData.JohnDoe` | src/data/dummyData.ts:32 | the segment `john-doe` gives `John Doe` |
| `DummyData.FirstInMarker` | src/data/dummyData.ts:32 | in an accepted URL the first `/in/` is the one that ends the host |
| `DummyData.SegmentOfProfileUrl` | src/data/dummyData.ts:32 | the segment after `/in/` of an accepted URL is its handle, with the final `/` when there is one |
| `DummyData.NameOfProfileUrl` | src/data/dummyData.ts:32 | the name of an accepted URL is the display name of its handle, keeping a final `/` |
| `DummyData.PermuteAt` | src/data/dummyData.ts:35 | after reordering, position `k` holds the element at index `order[k]` |
| `DummyData.PermuteSameIndices` | src/data/dummyData.ts:35 | index lists with the same multiset of indices pick the same multiset of elements |
| `DummyData.PermuteIsPermutation` | src/data/dummyData.ts:35 | reordering by a permutation of the indices keeps the length and the multiset of elements |
| `DummyData.DistinctByMultiset` | src/data/dummyData.ts:34-36 | a sequence has distinct elements exactly when no element occurs twice in its multiset |
| `DummyData.SkillsOfArrangement` | src/data/dummyData.ts:34-36 | the first three of any arrangement of a table of at least three distinct skills are three distinct skills of that table |
| `DummyData.SortPool` | src/data/dummyData.ts:35 | the pool array is rearranged in place so that position `k` holds what was at `order[k]` |
| `DummyData.AvatarDeterminesName` | src/data/dummyData.ts:44 | two avatar locators are equal exactly when their names are |
| `DummyData.GeneratedProfileFacts` | src/data/dummyData.ts:31-46 | the call succeeds exactly when the URL has a segment after `/in/`; the record keeps the URL verbatim, carries the derived name and the avatar keyed by it, and a title from the table |
| `DummyData.GeneratedSkills` | src/data/dummyData.ts:34-36 | the pool stays an arrangement of the skills table, and every record carries three distinct skills of that table |
| `DummyData.RecordSkills` | src/data/dummyData.ts:34-36 | a permuting draw keeps the pool's multiset and yields three distinct skills of the table |
| `DummyData.GenerateProfileData` | src/data/dummyData.ts:31-46 | returns the record `GeneratedProfile` describes and leaves the pool sorted by the draw, or unchanged when the name derivation throws |
| `InputSection.CleanLinesTrimmed` | src/components/InputSection.tsx:23-26 | every cleaned line is non-empty and has no white space at either end |
| `InputSection.CleanLinesOfJoin` | src/components/InputSection.tsx:23-26 | cleaning keeps exactly the lines that trim to something, in order, across a concatenation |
| `InputSection.ValidateUrls` | src/components/InputSection.tsx:22-36 | the result is a list exactly when every cleaned line passes the pattern, and the list is then exactly the cleaned lines; otherwise it is the error, never a partial list |
| `InputSection.InvalidMessageShape` | src/components/InputSection.tsx:32 | the message starts with its header, names each of the first three invalid lines, and is exactly the header, the first three joined by `, `, and `...` when there are more than three, or the header and all of them joined by `, ` otherwise |
| `InputSection.StartIff` | src/components/InputSection.tsx:38-57 | the callback is called exactly when every cleaned line passes and there are 1 to 20 of them, and then with the cleaned lines |
| `InputSection.InvalidFirst` | src/components/InputSection.tsx:31-51 | one invalid line makes the attempt report the invalid-lines message, never a count message, whatever the number of lines |
| `InputSection.InvalidMessageDiffers` | src/components/InputSection.tsx:32-49 | the invalid-lines message differs from both count messages |
| `InputSection.CountRejections` | src/components/InputSection.tsx:43-51 | with every line valid, no lines give the empty message and more than 20 give the too-many message |
| `InputSection.EnabledIffSomeLine` | src/components/InputSection.tsx:124 | the start button's text test passes exactly when cleaning leaves at least one line |
| `InputSection.EnabledPress` | src/components/InputSection.tsx:124 | a press of the enabled start button finds at least one cleaned line and never meets the empty-batch error |
| `InputSection.SomeLineNotEmptyError` | src/components/InputSection.tsx:38-57 | when cleaning leaves a line, the press either starts a batch or is rejected with a message other than the empty-batch one |
| `InputSection.ProfileLineMatches` | src/components/InputSection.tsx:28 | the profile prefix followed by a handle passes the pattern |
| `InputSection.ProfileLineClean` | src/components/InputSection.tsx:23-26 | the profile prefix followed by a handle is one line that trimming leaves unchanged |
| `InputSection.TemplateUrlsAreProfileLines` | src/data/dummyData.ts:3-14 | every template URL is the profile prefix followed by a handle |
| `InputSection.ProfileLinesStart` | src/components/InputSection.tsx:22-57 | 1 to 20 profile URLs joined by line breaks clean and validate back to themselves and start a batch with exactly them |
| `InputSection.CleanLinesOfLines` | src/components/InputSection.tsx:23-26 | non-empty trimmed lines without a line break, joined by line breaks, clean back to themselves |
| `InputSection.TemplateStarts` | src/components/InputSection.tsx:17-20 | the template text cleans to the ten template URLs in order and starts a batch with them |
| `InputSection.InputPanel.constructor` | src/components/InputSection.tsx:14-15 | the panel starts with empty text and no error |
| `InputSection.InputPanel.SetUrls` | src/components/InputSection.tsx:92 | typing replaces the text and leaves the error |
| `InputSection.InputPanel.LoadTemplate` | src/components/InputSection.tsx:17-20 | the text becomes the template URLs joined by line breaks, and the error is cleared |
| `InputSection.InputPanel.HandleStartScraping` | src/components/InputSection.tsx:38-57 | the text is kept; on a start the batch goes to the callback and no error is left; on a rejection there is no call and the error is the rejection's message |
| `InputSection.TemplateScenario` | src/components/InputSection.tsx:17-57 | loading the template and pressing start hands the ten template URLs to the callback |
| `IndexPage.ProgressTraceAt` | src/pages/Index.tsx:24-51 | first the reset `('', 0, total)`; for URL `j`, its name with `j` completed, then its name with `j + 1` completed |
| `IndexPage.ProgressTraceBounds` | src/pages/Index.tsx:24-51 | the total stays the batch size, the completed count stays between 0 and it and never decreases, and it ends at the number processed |
| `IndexPage.PoolAfterDrawsPermutes` | src/data/dummyData.ts:35 | after any number of calls the pool is an arrangement of the pool before them |
| `IndexPage.ProfileRecordOf` | src/data/dummyData.ts:31-46 | a record carries the URL, its name, the draw's id, the avatar keyed by the name, a table title and three distinct table skills |
| `IndexPage.ExtractionFacts` | src/pages/Index.tsx:22-54 | the batch has one record per URL; record `k` is generated from URL `k` and carries what `RecordOf` lists; the pool stays an arrangement of the table |
| `IndexPage.FirstUnnamed` | src/pages/Index.tsx:30-32 | the first URL without a segment after `/in/`, or `None` exactly when every URL has one |
| `IndexPage.LoopStep` | src/pages/Index.tsx:30-52 | a pass for a named URL moves the loop state from `i` to `i + 1` |
| `IndexPage.Session.constructor` | src/pages/Index.tsx:11-18 | the overlay is closed, nothing is loading or shown, progress is `('', 0, 0)`, and the pool holds the skills table |
| `IndexPage.Session.ExtractOne` | src/pages/Index.tsx:31-51 | a URL without a name throws and changes nothing; otherwise the record is appended, the pool advanced and the overlay given name then count |
| `IndexPage.Session.SimulateExtraction` | src/pages/Index.tsx:21-55 | the overlay gets the progress trace of the URLs processed, and the pool is sorted once per call; the result is the batch's records in order, or `None` when a URL makes the loop throw |
| `IndexPage.Session.BeginBatch` | src/pages/Index.tsx:58-60 | loading starts, the overlay opens and the shown records are cleared before any URL is processed; the session invariant is kept |
| `IndexPage.Session.HandleStartScraping` | src/pages/Index.tsx:57-91 | succeeds exactly when every URL has a name; it then keeps loading and the overlay open with the batch's records waiting; on a throw loading ends and the overlay closes; either way the overlay has been given the progress trace of the URLs processed, the pool is sorted once per call made, and it stays an arrangement of the skills table |
| `IndexPage.Session.Finish` | src/pages/Index.tsx:71-75 | the overlay closes, exactly the batch's records are shown with nothing carried over, and loading ends |
| `IndexPage.Session.HandleCloseModal` | src/pages/Index.tsx:93-97 | the overlay closes only when nothing is loading; nothing else changes, and the session invariant is kept |
| `IndexPage.RunBatch` | src/pages/Index.tsx:57-80 | a batch on a fresh page ends showing exactly one record per URL, in order |
| `IndexPage.StartedAreNamed` | src/components/InputSection.tsx:38-57 | every batch the input panel hands to the page has a segment after `/in/` in each URL, so the extraction loop never throws on it |
| `IndexPage.TemplateBatch` | src/components/InputSection.tsx:17-20 | loading the template, starting and finishing on a fresh page shows ten records, one per template URL in order, each with its URL, name, id, avatar, a table title and three distinct skills of the skills table |

## Left out

- Rendering is not modelled: the JSX, framer-motion, the icons and the five presentation components.
- Toast notifications are not modelled, because `useToast` is a library hook outside this code.
- Delays are not modelled. The per-URL delay is plain sequencing. The 1500 ms grace timer is the separate `Finish` step, taken while loading is still on.
- The record id is part of each `Draw`. How `Math.random().toString(36)` builds it is not modelled, and nothing is claimed about ids being unique.
- React internals are not modelled. Each state setter is a field assignment made in program order; batching and `useCallback` closures are ignored.
- Strings are sequences of Unicode scalar values, not JavaScript UTF-16 code units. `\w` is the ASCII class, as in a pattern without the `u` flag.
- The random comparator's order is not modelled. A `Draw` supplies the order the sort leaves the pool in. `ValidDraw` requires only an index of the pool for each position, because the comparator is inconsistent. The skill facts also require `Shuffles`, which is what `Array.prototype.sort` guarantees: the result is a permutation of the array.
- `IndexPage.Session.HandleStartScraping`: the ensures give the waiting records as `Extraction(urls, draws, pool)`. What each record carries is stated once, by `IndexPage.ExtractionFacts`, rather than being repeated here.
- `IndexPage.RunBatch`: the model is generic over the skills table, taking any table of at least three distinct entries. `DummyData.SkillsPoolDistinct` shows that the 24-entry table qualifies, and `IndexPage.TemplateBatch` runs it on that table.
- `InputSection.ValidateUrls`: the ensures do not spell out the error text. `InputSection.InvalidMessageShape` states it.
- The fallback message `'Invalid URLs detected'` (src/components/InputSection.tsx:55) is not modelled. `validateUrls` only throws `Error` values, so the fallback is never reached.
