# carbonfootprint — a verified model of the calculation core

carbonfootprint is a web application. A visitor enters a URL and an email address. The application asks
Google PageSpeed (Lighthouse) to analyse the page, and from the Lighthouse payload it computes several things:

- the page weight;
- an estimate of the grams of CO2e emitted per visit;
- a per-category breakdown of the network requests: bytes in KB, and request counts.

It stores the report, and the `/api/send-email` route mails it to the visitor as an HTML table.
uxScoreCalculator.js also defines a weighted UX score over the same payload, but the analysis flow does not
call it: neither the stored report nor the email holds a score.

This project models that core in Dafny and proves properties of the model.

- **`FormatUrl`**: the prefix step of `formatURL`. It trims the input with JavaScript's whitespace set. If the
  result does not already start with `http://` or `https://` (ASCII case-insensitive), it prepends `https://`.
  `PrefixScheme` is the imperative step that reassigns `formattedUrl`. `WithDefaultScheme` is the function that
  specifies it.
- **`Emissions`**:
  - the reading of `total-byte-weight`, with a missing value read as 0;
  - `calculateCO2ePerVisit`;
  - the page weight in MB.

  All three work over exact reals.
- **`UxScoreCalculator`**: `calculateUXScore`. It returns `null` without a payload or without a
  `lighthouseResult`. A missing category or score counts as 0. The score is the 0.4/0.3/0.2/0.1 weighted sum of
  the ratios scaled by 100, over reals.
- **`ResourceAggregator`**: the aggregation block of `fetchData`.
  - A record's `resourceType` is mapped through the six-entry `typeMapping`; any other type becomes `Other`.
  - Two JavaScript objects, `resourceSizes` and `resourceCounts`, are updated in place by one loop. They are
    modelled as the `Accumulator` class, which holds an insertion-ordered key list and a map.
  - `Object.keys(...).map` projects both objects into the size and count breakdowns. The size breakdown is in
    hundredths of a KB, and entry `i` gets colour `COLORS[i % 7]`.
  - `AggregateResources` is the loop, proved against the fold `Tallied`. The lemmas about `Tallied` state:
    - conservation of counts and bytes;
    - the first-seen key order;
    - key agreement between the two breakdowns;
    - distinct names and colours;
    - the value of every entry.
- **`JsText`**: how JavaScript prints the numbers the route interpolates:
  - `String(n)` for a non-negative integer;
  - the text of `parseFloat(x.toFixed(2))` for a KB value, which has no trailing zeros and no trailing point.

  Each comes with a reader that proves the printed text denotes the number.
- **`SendEmailRoute`**: `sendEmail` and `POST`:
  - the size and count tables built by `map`/`join`, with a parser that reads the rows back;
  - the subject line;
  - the message, or the TypeError `sendEmail` throws when a breakdown is not an array or a `${...}`
    substitution throws;
  - the 400/200/500 decision driven by JavaScript truthiness over the seven body fields.

  Whether the mail client's `send` completes is a parameter, `sendCompletes`.
- **`Lighthouse`** and **`Wrappers`**: the part of the PageSpeed payload the core reads, and `Option`.

Two behaviours of the code are easy to misread:

- `calculateUXScore` does not return an "unavailable" signal for a `lighthouseResult` without `categories`.
  Reading `categories.performance` then throws a TypeError, and the model has a `TypeError` outcome for it.
- A size of exactly 2 KB is `parseFloat("2.00")`, which the email prints as `2 KB`, not `2.00 KB`
  (`JsText.WholeAndHalfText`).

## Model

| member | source | states |
|---|---|---|
| FormatUrl.TrimStart | src/components/HeroSection.js:20 | the result is a suffix of the input, everything dropped is JavaScript whitespace, and the result does not start with whitespace |
| FormatUrl.TrimEnd | src/components/HeroSection.js:20 | the result is a prefix of the input, everything dropped is whitespace, and the result does not end with whitespace |
| FormatUrl.Trim | src/components/HeroSection.js:20 | `url.trim()` is a contiguous slice of the input, everything outside it is whitespace, and the slice is trimmed at both ends |
| FormatUrl.SliceOfSuffix | src/components/HeroSection.js:20 | what `trimEnd` keeps of what `trimStart` keeps is one slice of the input with only whitespace outside it |
| FormatUrl.TrimmedIsFixed | src/components/HeroSection.js:20 | trimming a trimmed string changes nothing |
| FormatUrl.WithDefaultScheme | src/components/HeroSection.js:20-23 | the result always has an http(s) scheme and is trimmed; it is the trimmed input when that starts case-insensitively with `http://` or `https://`, and `https://` followed by the trimmed input otherwise |
| FormatUrl.PrefixedHasScheme | src/components/HeroSection.js:21-22 | prepending `https://` to a trimmed string yields a trimmed string that passes the `/^https?:\/\//i` test |
| FormatUrl.PrefixScheme | src/components/HeroSection.js:20-23 | the in-place reassignment of `formattedUrl` computes `WithDefaultScheme`, has a scheme, and adds at most 8 characters |
| FormatUrl.WithDefaultSchemeIdempotent | src/components/HeroSection.js:20-23 | applying the prefix step twice is the same as applying it once |
| FormatUrl.SchemeKept | src/components/HeroSection.js:21 | a trimmed input that already has a scheme, in any letter case, is returned unchanged |
| FormatUrl.HasHttpScheme | src/components/HeroSection.js:21 | the test `/^https?:\/\//i`: the input starts with `http://` or `https://`, letters compared after ASCII lower-casing |
| Emissions.TotalByteWeight | src/components/HeroSection.js:58 | a `numericValue` present at the end of the optional chain is the result; a non-zero result is such a value |
| Emissions.Co2ePerVisit | src/components/HeroSection.js:31-33 | grams times 3 MiB equals the byte weight, so 0.6 g per 1.8 MiB; non-negative for a non-negative weight |
| Emissions.PageWeightMB | src/components/HeroSection.js:99 | the MB value times 1 MiB equals the byte weight |
| Emissions.Co2eOfNothing | src/components/HeroSection.js:31-33 | 0 bytes emit 0 g |
| Emissions.Co2eMonotone | src/components/HeroSection.js:31-33 | a heavier page never emits less |
| Emissions.Co2eIsThirdOfPageWeight | src/components/HeroSection.js:32 | the grams are one third of the page weight in MB |
| Emissions.MissingWeightEmitsNothing | src/components/HeroSection.js:58-59 | a payload missing any link of the chain to `total-byte-weight` weighs 0 and emits 0 g |
| UxScoreCalculator.RatioOf | src/components/uxScoreCalculator.js:5-8 | an absent category or null score gives 0, and a present score gives itself |
| UxScoreCalculator.Weighted | src/components/uxScoreCalculator.js:5-11 | with four ratios in [0,1] the score is in [0,100], and four equal ratios r give 100·r |
| UxScoreCalculator.CalculateUxScore | src/components/uxScoreCalculator.js:1-14 | `null` exactly when the payload or its `lighthouseResult` is absent; a TypeError exactly when `categories` is absent; otherwise the weighted sum of the four ratios, each defaulting to 0, which lies in [0,100] when the ratios are in [0,1] |
| UxScoreCalculator.Extremes | src/components/uxScoreCalculator.js:11 | all ones give 100 and all zeros give 0 |
| UxScoreCalculator.MonotoneInEachScore | src/components/uxScoreCalculator.js:11 | raising any one sub-score never lowers the score |
| UxScoreCalculator.PerformanceWeighsMost | src/components/uxScoreCalculator.js:11 | the same gain counts most for performance, then accessibility, then best practices, then SEO |
| UxScoreCalculator.MissingScoreIsZero | src/components/uxScoreCalculator.js:5 | a missing performance category or score scores the same as a score of 0 |
| JsText.NatToString | src/app/api/send-email/route.js:21 | the numeral is non-empty, made of digits, and has no leading zero except for 0 itself |
| JsText.NatToStringRoundTrip | src/app/api/send-email/route.js:21 | the printed numeral denotes the number |
| JsText.HundredthsText | src/components/HeroSection.js:85 | the printed KB value is non-empty and consists of digits and a point; it has a point exactly when the hundredths are not whole, and then no trailing zero; and no leading zero, except the single 0 before a point |
| JsText.HundredthsTextRoundTrip | src/components/HeroSection.js:85 | the text printed for h hundredths reads back as exactly h hundredths |
| JsText.WholeAndHalfText | src/components/HeroSection.js:85 | 2 KB prints as "2" and 2.5 KB as "2.5" |
| JsText.TwoDecimalsText | src/components/HeroSection.js:85 | 195.31 KB prints as "195.31" |
| ResourceAggregator.CategoryOf | src/components/HeroSection.js:66-76 | `Other` exactly when the type is absent or outside the six mapped types; otherwise the category whose mapped type is the given one |
| ResourceAggregator.NetworkRequests | src/components/HeroSection.js:61 | `items` present at the end of the optional chain are the result; a non-empty result is such a list, so anything missing gives `[]` |
| ResourceAggregator.SizeOf | src/components/HeroSection.js:77 | the size a record adds to its category, an absent size read as 0 |
| ResourceAggregator.Bump | src/components/HeroSection.js:77-78 | the key's total becomes its old total (0 if absent) plus the amount; other totals are unchanged; an existing key keeps the key order and a new key goes last |
| ResourceAggregator.BumpWellFormed | src/components/HeroSection.js:77-78 | an update keeps every key listed once |
| ResourceAggregator.Accumulator.constructor | src/components/HeroSection.js:62-63 | a new accumulator is the empty object |
| ResourceAggregator.Accumulator.Add | src/components/HeroSection.js:77-78 | the in-place update keeps the accumulator well formed, and its new state is `Bump` of the old one |
| ResourceAggregator.Tallied | src/components/HeroSection.js:75-79 | after the loop, the listed keys are exactly the keys that have a total |
| ResourceAggregator.TalliedWellFormed | src/components/HeroSection.js:75-79 | after the loop, every key is listed once |
| ResourceAggregator.AggregateResources | src/components/HeroSection.js:62-92 | the loop over the records, updating both objects in place, produces the size and count breakdowns of `Tallied` |
| ResourceAggregator.TalliedPrefix | src/components/HeroSection.js:75-79 | visiting record i after the first i records is one more update |
| ResourceAggregator.TalliedTotals | src/components/HeroSection.js:77-78 | every category's total is the sum of the amounts of that category's records |
| ResourceAggregator.CategoryTotalAbsent | src/components/HeroSection.js:77-78 | a category without a key has no records |
| ResourceAggregator.KeysIndependentOfMeasure | src/components/HeroSection.js:77-78 | the byte object and the count object have the same keys in the same order |
| ResourceAggregator.FirstSeenStep | src/components/HeroSection.js:77 | appending one record keeps the keys in first-seen order |
| ResourceAggregator.TalliedKeysStep | src/components/HeroSection.js:77 | the last record appends its category to the keys exactly when the category is new |
| ResourceAggregator.KeysInFirstSeenOrder | src/components/HeroSection.js:75-83 | the keys are exactly the records' categories, each once, in order of first occurrence |
| ResourceAggregator.SumOverUnlisted | src/components/HeroSection.js:77 | changing an unlisted key does not change the sum over the listed keys |
| ResourceAggregator.SumOverIncrease | src/components/HeroSection.js:77 | adding n to a listed key adds n to the sum |
| ResourceAggregator.SumAfterBump | src/components/HeroSection.js:77-78 | one update by a adds a to the sum of the totals |
| ResourceAggregator.TalliedSum | src/components/HeroSection.js:75-79 | the per-category totals add up to the total over all records |
| ResourceAggregator.GrandTotalOfRequests | src/components/HeroSection.js:78 | counting one per record totals the number of records |
| ResourceAggregator.TotalSizeSnoc | src/components/HeroSection.js:77 | one more record adds its size, or 0 when it has none, to the summed sizes |
| ResourceAggregator.GrandTotalOfBytes | src/components/HeroSection.js:77 | the byte amounts of the fold total the records' sizes as `TotalSize` adds them up from the front, an absent size read as 0 |
| ResourceAggregator.Conservation | src/components/HeroSection.js:75-79 | the counts add up to the number of records, and the byte totals add up to the summed sizes |
| ResourceAggregator.UnsizedRecordCounted | src/components/HeroSection.js:77-78 | a record with a missing or zero size raises its category's count by 1 and adds 0 bytes |
| ResourceAggregator.KilobyteHundredths | src/components/HeroSection.js:85 | `(bytes / 1024).toFixed(2)` in hundredths: at most half a hundredth from bytes / 1024, a tie going up |
| ResourceAggregator.SizeBreakdown | src/components/HeroSection.js:83-87 | `formattedSizeData`: entry i for key i of the byte object, with its KB value and colour `COLORS[i % 7]`; its properties are stated by SizeBreakdownShape, BreakdownValues and the examples |
| ResourceAggregator.CountBreakdown | src/components/HeroSection.js:88-92 | `formattedCountData`: entry i for key i of the count object, its count and colour `COLORS[i % 7]`; its properties are stated by BreakdownsAgree, BreakdownValues and CountsAddUpToRecords |
| ResourceAggregator.DistinctWithin | src/components/HeroSection.js:66-76 | a list of distinct categories is no longer than the set they are drawn from |
| ResourceAggregator.AtMostSevenKeys | src/components/HeroSection.js:66-76 | distinct categories number at most seven |
| ResourceAggregator.ColorsDistinct | src/components/HeroSection.js:82 | the seven COLORS are pairwise different |
| ResourceAggregator.NamesDiffer | src/components/HeroSection.js:67-72 | different categories have different names |
| ResourceAggregator.SizeEntryAt | src/components/HeroSection.js:83-87 | entry i names key i and has colour `COLORS[i]` |
| ResourceAggregator.EntriesDiffer | src/components/HeroSection.js:83-87 | two entries of one breakdown differ in name and in colour |
| ResourceAggregator.SizeBreakdownShape | src/components/HeroSection.js:82-87 | a breakdown has at most seven entries; entry i names key i with colour `COLORS[i % 7]`; names and colours are pairwise distinct |
| ResourceAggregator.BreakdownsAgree | src/components/HeroSection.js:76-92 | both breakdowns list the same names in the same order with the same colours, with no repeated name or colour, and at most seven entries |
| ResourceAggregator.BreakdownValues | src/components/HeroSection.js:83-92 | entry i of both breakdowns is for the same category met in the records; its value is that category's bytes in KB and its count is the number of its records |
| ResourceAggregator.CountBreakdownSum | src/components/HeroSection.js:88-92 | the `count` fields add up to the sum of the totals |
| ResourceAggregator.CountsAddUpToRecords | src/components/HeroSection.js:75-92 | the count breakdown accounts for every record exactly once |
| ResourceAggregator.NoRecordsNoBreakdown | src/components/HeroSection.js:61-92 | a payload without network-request items gives two empty breakdowns |
| ResourceAggregator.ListedKeyStep | src/components/HeroSection.js:77 | updating an existing key keeps the key order and adds the amount |
| ResourceAggregator.NewKeyStep | src/components/HeroSection.js:77 | updating a new key appends it with the amount as its total and keeps the other totals |
| ResourceAggregator.SameKeyTwice | src/components/HeroSection.js:77 | two updates of one key give one key holding their sum |
| ResourceAggregator.TwoNewKeys | src/components/HeroSection.js:77 | two updates of different keys give two keys, in update order |
| ResourceAggregator.TalliedOne | src/components/HeroSection.js:75-79 | one record is one update of the empty object |
| ResourceAggregator.TalliedTwo | src/components/HeroSection.js:75-79 | a second record is one more update, after the first |
| ResourceAggregator.TwoScriptsTallied | src/components/HeroSection.js:75-79 | two scripts give one JavaScript key holding both amounts |
| ResourceAggregator.SingleKeySizes | src/components/HeroSection.js:83-87 | a one-key object gives a one-entry size breakdown in the first colour |
| ResourceAggregator.SingleKeyCounts | src/components/HeroSection.js:88-92 | a one-key object gives a one-entry count breakdown in the first colour |
| ResourceAggregator.TwoScriptsSizeExample | src/components/HeroSection.js:75-87 | two 1 KB scripts give one JavaScript entry of 2 KB in the first colour |
| ResourceAggregator.TwoScriptsCountExample | src/components/HeroSection.js:75-92 | two scripts give one JavaScript entry counting 2 |
| ResourceAggregator.ScriptThenDocumentTallied | src/components/HeroSection.js:75-79 | a script before a document lists JavaScript before HTML, each with its own amount |
| ResourceAggregator.TwoKeySizes | src/components/HeroSection.js:83-87 | a two-key object gives two size entries, in key order, in the first two colours |
| ResourceAggregator.TwoKeyCounts | src/components/HeroSection.js:88-92 | a two-key object gives two count entries, in key order, in the first two colours |
| ResourceAggregator.ScriptThenDocumentSizeExample | src/components/HeroSection.js:75-87 | 200000 script bytes then 5000 document bytes give JavaScript 195.31 KB, then HTML 4.88 KB |
| ResourceAggregator.ScriptThenDocumentCountExample | src/components/HeroSection.js:75-92 | the same records give JavaScript 1, then HTML 1, in the first two colours |
| SendEmailRoute.RowThenRest | src/app/api/send-email/route.js:17 | a row whose cells hold no `<` reads back as those two cells, and reading continues after it |
| SendEmailRoute.SizeTable | src/app/api/send-email/route.js:16-18 | `resourceSizeTable`, the joined rows of the size items; it throws (None) exactly when some item's `${item.name}` or `${item.value}` throws; its rows are stated by SizeTableRows |
| SendEmailRoute.CountTable | src/app/api/send-email/route.js:20-22 | `resourceCountTable`, the joined rows of the count items; it throws (None) exactly when some item's `${item.name}` or `${item.count}` throws; its rows are stated by CountTableRows |
| SendEmailRoute.TableRoundTrip | src/app/api/send-email/route.js:16-22 | the joined rows read back as exactly the cells they were built from, in order |
| SendEmailRoute.RowBeforeTable | src/app/api/send-email/route.js:16-18 | a row in front of a readable table adds that row in front |
| SendEmailRoute.JoinAppend | src/app/api/send-email/route.js:18 | `join("")` of concatenated lists is the concatenation of the joins |
| SendEmailRoute.SizeTableAppend | src/app/api/send-email/route.js:16-18 | the size table of two item lists placed one after the other exists exactly when both tables do, and is the first table followed by the second |
| SendEmailRoute.CountTableAppend | src/app/api/send-email/route.js:20-22 | the count table of two item lists placed one after the other exists exactly when both tables do, and is the first table followed by the second |
| SendEmailRoute.SizeTableRows | src/app/api/send-email/route.js:16-18 | when every substitution completes, the size table exists and has one `<tr><td>name</td><td>value KB</td></tr>` row per item, in input order |
| SendEmailRoute.CountTableRows | src/app/api/send-email/route.js:20-22 | when every substitution completes, the count table exists and has one `<tr><td>name</td><td>count</td></tr>` row per item, in input order |
| SendEmailRoute.EmptyTables | src/app/api/send-email/route.js:16-22 | empty lists render as the empty string |
| SendEmailRoute.Subject | src/app/api/send-email/route.js:27 | the subject is the fixed prefix followed by the interpolated url, and throws (None) exactly when `${url}` throws |
| SendEmailRoute.ComposeEmail | src/app/api/send-email/route.js:15-48 | a message exists exactly when both breakdowns are arrays and every `${...}` substitution in the tables, subject and html completes; it goes to the given email, from the configured sender, with the subject line, and its `html` is the template filled with the device, MB, grams and the two tables built from the body's arrays |
| SendEmailRoute.Html | src/app/api/send-email/route.js:28-47 | the `html` template literal with its five substitutions; it throws (None) exactly when `${device}`, `${MB}` or `${grams}` throws |
| SendEmailRoute.Truthy | src/app/api/send-email/route.js:59 | JavaScript truthiness of a body value: false, 0, NaN, "", null and undefined are falsy, any object is truthy |
| SendEmailRoute.Interpolate | src/app/api/send-email/route.js:27-32 | the text `${v}` makes of a body value, None (a TypeError) exactly for an object whose `String(o)` throws; a string is itself and a number its printed text |
| SendEmailRoute.NonCallableToString | src/app/api/send-email/route.js:30 | an object such as `{"toString": 1}` passes the truthiness test yet its substitution throws |
| SendEmailRoute.HasRequiredFields | src/app/api/send-email/route.js:59 | all seven destructured properties are truthy, arrays always being truthy |
| SendEmailRoute.Post | src/app/api/send-email/route.js:54-69 | the status is 200, 400 or 500 and success holds exactly at 200; 400 exactly when a body was read and one of the seven fields is falsy, with no send attempted; a send is attempted exactly when validation passes and `sendEmail` reaches the send (both breakdowns are arrays and every substitution completes); 200 exactly when that send completes |
| SendEmailRoute.EmptyBreakdownsAccepted | src/app/api/send-email/route.js:59-64 | empty breakdown arrays are truthy, so validation passes; a completed send answers 200 exactly when the url, device, MB and grams substitutions complete |
| SendEmailRoute.ThrowingBodyFails | src/app/api/send-email/route.js:63-68 | a body that passes validation but makes `sendEmail` throw before the send is answered with 500, and nothing is sent |
| SendEmailRoute.NameHasNoAngle | src/components/HeroSection.js:67-72 | no category name contains `<` |
| SendEmailRoute.NumeralsHaveNoAngle | src/app/api/send-email/route.js:17-21 | printed numbers contain no `<` |
| SendEmailRoute.SizeItemsOf | src/lib/EmailService.js:6-14 | a size entry arrives as its name and its value printed as JavaScript prints it, and every item is printable |
| SendEmailRoute.CountItemsOf | src/lib/EmailService.js:6-14 | a count entry arrives as its name and its count printed as JavaScript prints it, and every item is printable |
| SendEmailRoute.SizeReportRows | src/app/api/send-email/route.js:16-18 | a size breakdown becomes one row per entry: its name and its printed KB value followed by ` KB` |
| SendEmailRoute.CountReportRows | src/app/api/send-email/route.js:20-22 | a count breakdown becomes one row per entry: its name and its printed count |
| SendEmailRoute.ReportTables | src/app/api/send-email/route.js:16-22 | the emailed tables for a set of records exist and have one row per category, in first-seen order; row i shows the category's summed bytes in KB and its number of records |

## Left out

- The PageSpeed `fetch`, the Supabase insert, the `localStorage` write, `router.push`, `uuidv4`, React state and
  the JSX (HeroSection.js lines 36-57, 94-98 and 100-178; of line 99 only the MB value is modelled, by
  `Emissions.PageWeightMB`). These are network, storage, randomness and UI effects. The
  early return for a null formatted URL belongs to them.
- `new URL(...).href` and the `catch` returning `null` in `formatURL` (line 24). That is URL-Standard parsing in
  the platform. Only the trim-and-prefix step before it is modelled.
- `toFixed(2)` on the CO2e value, on the page weight in MB and on the UX score. These are modelled over exact
  reals, not floating point, and their text is not produced.
- The size breakdown's `parseFloat((bytes / 1024).toFixed(2))`. It is modelled exactly, as integer hundredths:
  bytes / 1024 is exact in binary floating point for every safe integer, and `toFixed` rounds a tie up. Its
  printed text (`HundredthsText`) is the shortest decimal text only while the KB value has at most 15
  significant digits, which holds for every byte count below 2^53, the same bound the KB conversion relies on.
  Beyond that JavaScript prints the shortest text that reads back as the same double, which may lose the cents.
- JsText.NatToString: models `String(n)` for counts only, as a plain decimal numeral. Counts are bounded by the
  number of records, far below 2^53.
- Number values in the POST body are represented by their `String(x)` text. Truthiness of a number is read off
  that text, as "0" or "NaN". Floating-point parsing of JSON is not modelled.
- `typeMapping` prototype keys. An inherited property such as a `resourceType` of `"constructor"` would make
  `typeMapping[...]` a function rather than undefined. Lighthouse resource types never take such names.
- Array elements that are `null` in the POST body, where `item.name` throws. The model gives each item a name
  and a value.
- `sgMail.setApiKey` and `sgMail.send` (route.js lines 12 and 50). These are the foreign mail client; whether
  `send` completes is the parameter `sendCompletes`. The missing-configuration `console.error` at lines 8-10 and
  the `console.error` at line 67 are logging.
- The HTML is not escaped by the route. The table round trip therefore holds only for cells without `<`, which
  category names and printed numbers satisfy.
- src/lib/EmailService.js is modelled only in its `JSON.stringify` of the two breakdowns (lines 6-14), by
  `SendEmailRoute.SizeItemsOf` and `SendEmailRoute.CountItemsOf`. Its `fetch`, the `response.ok` test and its
  error result are network I/O.
- src/app/api/contact/route.js, the two chart components and the results page are not part of this model. They
  are file and spreadsheet I/O, and rendering.
- Interpolate: the text of an object or array (`String(o)`, through its `toString` or `join`) is carried by the
  value as given, or marked as throwing. It is not computed from the object's properties.
