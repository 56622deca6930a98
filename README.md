# Price-Guard core, modelled in Dafny

Price-Guard is a small web app that looks up today's market rates for a
grocery item in Pakistan. It asks a generative-language service with
web-search grounding and shows the result as a dashboard of market cards.
This project models the logic the app depends on and proves properties of
it:

- **Query service** (`services/geminiService.ts`), in `gemini_service.dfy`:
  - the request configuration, with the optional location;
  - the loop that collects citation URIs from the grounding chunks;
  - the first "```json" fenced block extracted with the source's regular expression;
  - JSON parsing, passed in as a parameter;
  - the final object, which is the parsed value spread with `sourceUrls`, deduplicated in first-seen order and cut to five;
  - the three ways the call can fail.
- **Shell** (`App.tsx`), in `app_shell.dfy`:
  - a `Shell` class whose fields are the component's state;
  - one method per event: submit, reply, failure, fetch-more, city filter, language, geolocation and image failure;
  - the derived views: available cities, filtered markets, visible window and "has more".
- **Market card** (`components/MarketCard.tsx`), in `market_card.dfy`:
  - the trend icon and label;
  - the thumbnail with its initials fallback;
  - the two badges;
  - a `CardState` class with the card's two one-way flags.
- **JavaScript helpers the above relies on**, in `js_string.dfy` and `js_array.dfy`:
  - `trim` and the `\s` character class;
  - `split(' ')` / `join`;
  - the `getInitials` pipeline;
  - the default `sort` order;
  - `[...new Set(xs)]`;
  - `slice(0, n)`.
- **The records of `types.ts`**, in `domain.dfy`.

The network call is a parameter of `SearchItemPrices`: a `ServiceReply` that either carries the response or names the failure. `JSON.parse` is a parameter too: a function from text to a `ParseResult`. The shell's asynchronous search is split into two events. `Submit` models everything up to the `await`. `Resolve` or `Reject` models its completion.

Behaviour of the code worth knowing, which the model keeps:

- The city filter, the window, the image flag, the old result and the old error are reset when a search is submitted, before any reply arrives.
- A missing JSON block and a JSON syntax error are distinct failures. The first is an `Error` with the message "Failed to parse market data structure." The second is the parser's own error, rethrown unchanged.
- The trend label looks up the trend string among *all* keys of the card's translation table, not only the three trends.
- The shell does not check that the parsed JSON has the shape of an item record.

## Model

| member | source | states |
|---|---|---|
| Domain.Toggled | components/Header.tsx:31 | the language button always switches to the other language |
| Domain.TrendKey | types.ts:9 | the literal under which each trend arrives: "up", "down" or "stable" |
| Domain.TrendKeyInjective | types.ts:9 | the three trend literals are pairwise distinct, so a literal names one trend |
| GeminiService.BuildConfig | services/geminiService.ts:64-77 | google search is the only tool; a retrieval config is present exactly when a location is given, and it carries that location's latitude and longitude |
| GeminiService.ChunksOf | services/geminiService.ts:86 | `groundingChunks || []`: the chunks of the reply, or none when it has none |
| GeminiService.HasUri | services/geminiService.ts:90 | `chunk.web?.uri` is truthy: the chunk has a web entry whose uri is present and non-empty |
| GeminiService.ChunkUris | services/geminiService.ts:88-91 | the collected URIs are never more than the chunks and never empty strings |
| GeminiService.ChunkUrisAppend | services/geminiService.ts:88-91 | collecting over two runs of chunks is collecting over each in turn, so chunk order is kept |
| GeminiService.ChunkUrisMembers | services/geminiService.ts:88-91 | a string is collected exactly when some chunk has a web entry whose uri is that non-empty string |
| GeminiService.CollectSourceUrls | services/geminiService.ts:88-91 | the `forEach` loop pushes exactly the truthy `chunk.web.uri` values, in chunk order |
| GeminiService.OccursInSlice | services/geminiService.ts:93 | an occurrence of a pattern inside a slice is an occurrence in the whole text at the shifted index |
| GeminiService.FindFrom | services/geminiService.ts:93 | the result is the first occurrence of the pattern at or after the start index, and None means there is none |
| GeminiService.SkipSpace | services/geminiService.ts:93 | the greedy `\s*` after the opening tag consumes the whole whitespace run and stops at a non-space |
| GeminiService.BackOverSpace | services/geminiService.ts:93 | the `\s*` before the closing fence covers the whole whitespace run that ends at the fence |
| GeminiService.FirstFenceMatch | services/geminiService.ts:93-96 | a span is found exactly when the text has an opening "```json" with a later "```", and the span found is the regex engine's preferred match |
| GeminiService.PreferredMatchIsRegexChoice | services/geminiService.ts:93 | against any other way of matching the pattern, the chosen match starts leftmost, its greedy `\s*` is longest, and its lazy group is shortest |
| GeminiService.ExtractJsonBlock | services/geminiService.ts:93-96 | there is no match exactly when the text is missing or holds no fenced json block; otherwise the result is the captured group of the preferred match, contains no "```", and neither starts nor ends with whitespace |
| GeminiService.NormaliseSources | services/geminiService.ts:102 | the sources have no duplicates, at most five entries, and only collected URLs; they are the first min(5, distinct count) distinct URLs in first-seen order |
| GeminiService.FewSourcesAllKept | services/geminiService.ts:102 | with five or fewer distinct URLs, every collected URL is kept |
| GeminiService.DedupeExample | services/geminiService.ts:102 | citations [a, b, a, c] give sources [a, b, c] |
| GeminiService.TruncationExample | services/geminiService.ts:102 | seven distinct citations give the first five |
| GeminiService.DecimalKey | services/geminiService.ts:101 | the key of an array position: decimal digits only, a single digit exactly for positions below ten, and no leading zero except for 0 itself |
| GeminiService.DecimalKeyInjective | services/geminiService.ts:101 | two positions with the same key are the same position |
| GeminiService.DecimalKeysDiffer | services/geminiService.ts:101 | different positions get different keys |
| GeminiService.IndexedFields | services/geminiService.ts:101 | the own properties of an array-like value: each position under its decimal key |
| GeminiService.IndexedFieldsLookup | services/geminiService.ts:101 | every position can be looked up under its key and gives back its element; a later position overwrites no earlier one |
| GeminiService.IndexedFieldsKeys | services/geminiService.ts:101 | there are no keys besides the positions' keys |
| GeminiService.Characters | services/geminiService.ts:101 | a string seen as the list of its characters, each a one-character string |
| GeminiService.Spread | services/geminiService.ts:101 | `...parsedData` copies an object's own fields, an array's elements or a string's characters under their position keys, and nothing for null, booleans and numbers |
| GeminiService.UrlArray | services/geminiService.ts:102 | the `sourceUrls` value is a JSON array holding the URLs as strings, in order |
| GeminiService.MergeSources | services/geminiService.ts:100-103 | the returned object has `sourceUrls` set to the sources, and every other key is present and equal exactly as in the spread of the parsed value |
| GeminiService.ErrorMessage | services/geminiService.ts:95 | the message each failure carries: the service's own reason, "Failed to parse market data structure." for a reply without a json block, and the parser's message for a syntax error |
| GeminiService.SearchItemPrices | services/geminiService.ts:63-108 | the config is as built from the location; a service failure is rethrown as is; a reply without a fenced json block fails with the "Failed to parse market data structure." error; a syntax error from the parser is rethrown; otherwise the result is the parsed value merged with the normalised sources of the reply's chunks |
| GeminiService.NormalisedSourcesComeFromChunks | services/geminiService.ts:86-102 | every returned source URL is the non-empty uri of some grounding chunk |
| JsArray.FirstIndex | services/geminiService.ts:102 | the first position holding an element, with no earlier copy |
| JsArray.FirstIndexUnique | services/geminiService.ts:102 | a position holding `x` with no earlier `x` is the first index of `x` |
| JsArray.Dedupe | services/geminiService.ts:102 | `[...new Set(s)]` has no duplicates, never grows, and holds exactly the elements of `s` |
| JsArray.DedupeKeepsMember | services/geminiService.ts:102 | a value is in the deduplicated list exactly when it is in the original |
| JsArray.DedupeKeepsFirstSeenOrder | services/geminiService.ts:102 | the kept elements appear in the order of their first occurrences |
| JsArray.DedupeOfDistinct | services/geminiService.ts:102 | a list without repetitions is unchanged by deduplication |
| JsArray.Take | services/geminiService.ts:102 | `slice(0, n)` is the prefix of length min(n, length) |
| JsString.IsSpace | services/geminiService.ts:93 | the characters JavaScript's `\s` matches and `trim()` removes (App.tsx:85) |
| JsString.IsSpaceIsWhiteSpaceOrLineTerminator | services/geminiService.ts:93 | those characters are exactly the WhiteSpace and LineTerminator sets of sections 12.2 and 12.3 of ECMA-262 |
| JsString.TrimStart | App.tsx:85 | removes exactly the leading whitespace run |
| JsString.TrimEnd | App.tsx:85 | removes exactly the trailing whitespace run |
| JsString.Trim | App.tsx:85 | the trimmed term is empty exactly when the term is all whitespace, and otherwise neither starts nor ends with whitespace |
| JsString.TrimsToEmpty | App.tsx:85 | the test `!s.trim()` succeeds exactly for a term that is all whitespace |
| JsString.Split | components/MarketCard.tsx:62 | `split(' ')` always yields at least one piece |
| JsString.SplitJoin | components/MarketCard.tsx:62 | joining the pieces of `split(' ')` with single spaces gives back the original string |
| JsString.SplitPiecesHaveNoSpace | components/MarketCard.tsx:62 | no piece of `split(' ')` contains a space |
| JsString.SplitLastPiece | components/MarketCard.tsx:62 | the last piece is empty exactly when the string is empty or ends with a space |
| JsString.FirstLetters | components/MarketCard.tsx:63-64 | `.map(w => w[0]).join('')`: the first character of every word, where an empty word adds nothing |
| JsString.FirstLettersOfNonEmptyWords | components/MarketCard.tsx:63-64 | when no word is empty, there is one letter per word and it is that word's first character |
| JsString.FirstLettersOfSplit | components/MarketCard.tsx:60-64 | `split(' ').map(w => w[0]).join('')` is the characters that start a word, where an empty word adds nothing |
| JsString.AsciiUpper | components/MarketCard.tsx:66 | each lower-case ASCII letter becomes its own capital, looked up in an A-Z table, and every other character is unchanged |
| JsString.UpperCase | components/MarketCard.tsx:66 | upper-casing keeps the length and maps each character |
| JsString.Initials | App.tsx:111 | the result panel's `getInitials`, the same expression as the card's: the initials are at most two characters |
| JsString.InitialsExample | App.tsx:111 | the name "ali khan" gives the initials "AK" |
| JsString.InitialsAreWordStarts | components/MarketCard.tsx:60-67 | the initials are the upper-cased first two word-start letters of the name and contain no space |
| JsString.WordStartLettersHaveNoSpace | components/MarketCard.tsx:60-64 | the joined first letters of the words contain no space |
| JsString.StrLess | App.tsx:100 | the order of the default `sort()`: lexicographic by character |
| JsString.StrLessProperPrefix | App.tsx:100 | a proper prefix sorts before the longer string |
| JsString.StrLessFirstDifference | App.tsx:100 | otherwise the first position where the strings differ decides the order |
| JsString.StrLessIrreflexive | App.tsx:100 | the default sort order never ranks a string before itself |
| JsString.StrLessTransitive | App.tsx:100 | the default sort order is transitive |
| JsString.StrLessTotal | App.tsx:100 | any two different strings are ordered one way or the other |
| JsString.StrLessAsymmetric | App.tsx:100 | two strings are never each before the other |
| JsString.StrictlySortedUnique | App.tsx:100 | a set of strings has only one strictly ascending arrangement |
| JsString.Insert | App.tsx:100 | inserting adds exactly the one element |
| JsString.InsertKeepsSorted | App.tsx:100 | inserting a new string into a strictly sorted list keeps it strictly sorted |
| JsString.SortStrings | App.tsx:100 | `sort()` is a permutation of its input |
| JsString.SortStringsSorted | App.tsx:100 | a list of distinct strings comes out of `sort()` strictly ascending |
| AppShell.ErrorTextPerLanguage | App.tsx:31-53 | each language has its own non-empty failure message, and the English one is "Unable to fetch current market rates. Please try again." |
| AppShell.ErrorText | App.tsx:31-53 | the failure message of the chosen language's table, the text the error panel shows when a search fails |
| AppShell.Cities | App.tsx:100 | `markets.map(m => m.city)`: one city per market, in market order |
| AppShell.AvailableCities | App.tsx:98-101 | no result gives no cities; otherwise the list is strictly ascending, every entry is the city of some market, and every market's city is listed |
| AppShell.DistinctSortedCities | App.tsx:100 | the deduplicated, sorted city list is strictly ascending and holds exactly the market cities |
| AppShell.FilterByCity | App.tsx:105 | every kept market is in the selected city and comes from the list |
| AppShell.FilterByCityKeepsExactlyTheCity | App.tsx:105 | the filter keeps the original order, keeps every market of the city as often as it occurs, and drops all others |
| AppShell.FilteredMarkets | App.tsx:103-106 | no result gives nothing; "All" gives every market; any other city gives that city's markets |
| AppShell.CityListExample | App.tsx:98-101 | markets in Lahore, Karachi and Lahore give the city list [Karachi, Lahore] |
| AppShell.CityFilterExample | App.tsx:103-106 | filtering those markets to Lahore gives the two Lahore markets in order |
| AppShell.VisibleMarkets | App.tsx:108 | the visible markets are the first min(window, count) filtered markets |
| AppShell.HasMoreIffSomeHidden | App.tsx:109 | "fetch more" is offered exactly when some filtered market is hidden, and then a full window is shown |
| AppShell.HasMore | App.tsx:109 | "fetch more" is offered while the visible window is shorter than the filtered markets |
| AppShell.PaginationExample | App.tsx:108-109 | with ten markets, the windows show 4, 8 and then all 10, and more is offered only for the first two |
| AppShell.Shell.constructor | App.tsx:59-70 | the initial state: English, empty term, idle, no result or error, location requested, filter "All", one page |
| AppShell.Shell.EditSearchTerm | App.tsx:139 | the term becomes the typed value |
| AppShell.Shell.Submit | App.tsx:83-88 | a blank term starts nothing and changes nothing; otherwise the shell enters loading, drops the old result and error, resets the filter, the image flag and the window, and hands the term, location and language to the service, recording them as the search in flight |
| AppShell.Shell.Resolve | App.tsx:88-90 | the reply becomes the shown result, with no error, and loading ends |
| AppShell.Shell.Reject | App.tsx:72-90 | the error text in the language recorded by the submission that is in flight is shown, whatever the language is now; no result is shown, loading ends and nothing is in flight |
| AppShell.Shell.StartFetchMore | App.tsx:93-94 | the fetching-more flag is set |
| AppShell.Shell.CompleteFetchMore | App.tsx:95 | the window grows by one page over its current size, and the flag clears |
| AppShell.Shell.ChangeCityFilter | App.tsx:240 | the filter becomes the chosen city, and the window returns to one page |
| AppShell.Shell.ToggleLanguage | components/Header.tsx:31 | the language switches |
| AppShell.Shell.LocationGranted | App.tsx:77 | the coordinates are stored and the status becomes granted |
| AppShell.Shell.LocationDenied | App.tsx:78-80 | the status becomes denied, with no coordinates |
| AppShell.Shell.MainImageFailed | App.tsx:186 | the main image flag is set |
| AppShell.Shell.ShowsResult | App.tsx:168-175 | the result panel is drawn for a result that is not being replaced, and then the error panel is hidden and no search is in flight |
| AppShell.Shell.MainThumbnail | App.tsx:184-193 | the result's photo is shown exactly when its image URL is non-empty and has not failed; otherwise the badge shows the initials of the result's name |
| MarketCard.TrendIconFor | components/MarketCard.tsx:52-58 | "up" gets the rising icon and "down" the falling one; any other string gets the flat icon |
| MarketCard.DeclaredTrendIcons | components/MarketCard.tsx:52-58 | the three declared trends get three different icons, and an undeclared string is drawn like "stable" |
| MarketCard.CardText | components/MarketCard.tsx:12-45 | the card's English and Urdu translation tables |
| MarketCard.CardTextSameKeys | components/MarketCard.tsx:12-45 | both tables translate the same keys |
| MarketCard.TrendLabel | components/MarketCard.tsx:170 | a trend string that is a key of the card's table shows that entry, which is non-empty; any other string is shown as is |
| MarketCard.DeclaredTrendLabels | components/MarketCard.tsx:12-45 | the declared trends are always translated, and in English as Up, Down and Stable |
| MarketCard.ThumbnailFor | components/MarketCard.tsx:98-109 | the photo is shown exactly when the image URL is non-empty and has not failed; otherwise the badge shows the name's initials, at most two characters |
| MarketCard.CardState.constructor | components/MarketCard.tsx:48-49 | both card flags start false |
| MarketCard.CardState.ConfirmPrice | components/MarketCard.tsx:137-138 | the user-verified flag is set, and from then on the verify button is disabled |
| MarketCard.CardState.VerifyButtonDisabled | components/MarketCard.tsx:138 | the verify button is disabled exactly when the user has verified this card's price |
| MarketCard.CardState.ImageFailed | components/MarketCard.tsx:103 | the image flag is set |
| MarketCard.CardState.Badges | components/MarketCard.tsx:80-91 | the "Verified" badge follows the quote's flag and the "Verified by You" badge follows the card's flag, independently |
| MarketCard.CardState.Thumb | components/MarketCard.tsx:98-109 | the card shows the item photo exactly when its URL is non-empty and this card's image has not failed; otherwise the badge shows the item name's initials |

The `Shell` methods keep the invariant `Shell.Valid`:

- the window is a positive whole number of pages;
- while loading, neither a result nor an error is shown;
- a search is in flight exactly while loading;
- a result and an error are never shown together;
- coordinates are known exactly when the location was granted.

## Left out

- The generative-language client, its API key, the model id (`gemini-2.0-flash`) and the `generateContent` call: the reply is a parameter, and so is the failure it may carry.
- The prompt text and its location instruction: they are free text for the remote model. The query term reaches the service only through the prompt, so the model hands it over in `PendingSearch` and goes no further. The coordinates also go into the request configuration, which `BuildConfig` models.
- `JSON.parse`: a parameter. The model takes whatever value or syntax error it gives.
- `console.error` logging in the service's catch block: it does not change what is thrown.
- The `navigator.geolocation` call: its two callbacks, and the missing-API branch, are the `LocationGranted` and `LocationDenied` events.
- The 800 ms `setTimeout` of fetch-more: it is split into a start and a completion event. A completion is not tied to a start: the model allows any number of completions at any time.
- The order of the reply and of unmounting: any number of events may happen between `Submit` and `Resolve`/`Reject`, and the model allows that.
- The image lightbox (`isImageModalOpen`), the price chart's date formatting, the remaining translation strings, JSX layout and CSS: presentation only.
- GeminiService.MergeSources: models which keys the spread object has and their values. It does not model JavaScript's key order or the prototype chain.
- GeminiService.Spread: spreads a top-level JSON string by characters. JavaScript spreads it by UTF-16 code units, which differs only for characters outside the Basic Multilingual Plane.
- MarketCard.TrendLabel: looks up only the table's own keys. Inherited names such as "constructor" are a JavaScript prototype detail and are not modelled.
- JsString.UpperCase: upper-cases ASCII letters only. JavaScript's full case mapping also changes other letters and can lengthen a string ('ß' becomes "SS"), so in the source the initials of such a name can have three characters.
- JsString.StrLess: compares characters. JavaScript's default sort compares UTF-16 code units, which differs only for characters outside the Basic Multilingual Plane. `substring` and `w[0]` index code units in the same way.
- AppShell.Shell.Submit: requires that the shell is not loading, because the submit button is disabled while a search is in flight (App.tsx:145).
- AppShell.Shell.Resolve: the shell takes a typed item record. The service returns whatever object the JSON held, and the shell uses it unchecked.
- Prices and coordinates: modelled as integers and reals. They are only displayed or passed along, so floating-point behaviour is not modelled.
