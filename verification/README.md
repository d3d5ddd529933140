# PPE Marts: calculator, catalogue and safety assistant

The PPE Marts site sells personal protective equipment through affiliate links. It has two
pieces of logic worth modelling.

- **The browser script** holds the PPE requirement calculator:
  - the item table with per-worker-per-day rates, and the preset table;
  - the "Calculate" button, which computes `ceil(workers × rate × days)` per item and a running total;
  - the "Reset" button and the preset selector;
  - the category filter of the product grid;
  - the thousands-separator formatter.
- **The `/api/ai-assistant` endpoint** answers safety questions:
  - it validates the request;
  - it asks a completion service for a reply, and falls back to keyword-matched canned replies when it has no key or the service fails;
  - it attaches up to four catalogue products whose categories the message's keywords name, or four random products when no keyword matches.

The Dafny modules follow that structure.

| module | file | models |
|---|---|---|
| `Wrappers` | `wrappers.dfy` | `Option` and `Result` |
| `Text` | `text.dfy` | `toLowerCase` on ASCII, `String.prototype.includes` |
| `Catalogue` | `catalogue.dfy` | the catalogue of `getPPEProducts` and the `loadProducts` filter |
| `Calculator` | `calculator.dfy` | `ppeItems`, `ppePresets`, and the calculate, reset and preset-change handlers |
| `NumberFormat` | `number_format.dfy` | `formatNumber`, including the regular expression `\B(?=(\d{3})+(?!\d))` it applies |
| `Responder` | `responder.dfy` | `generateFallbackResponse`, the message list of `generateAIResponse`, and its choice of text |
| `Recommend` | `recommend.dfy` | `getRelevantProducts` |
| `HarnessQuestion` | `harness_question.dfy` | the recommendation for "I need a harness for fall protection at height", worked through |
| `Handler` | `handler.dfy` | `handler`: method dispatch, body validation and the answer |

Rates are whole thousandths, so the ceiling is exact integer arithmetic. The random shuffle is a
parameter `shuffled`, which must be a permutation of the catalogue. The completion service is a
function parameter from message lists to an optional text; `None` stands for a failed call. The
`OPENAI_API_KEY` environment variable is an `Option<string>`.

Edge cases the model makes explicit:
- **Unknown keys and presets.** Reading a missing table entry throws, and the calculation is
  abandoned. The model returns an error result, `UnknownItem` or `UnknownPreset`.
- **Which messages are rejected.** The endpoint answers status 400 for every falsy message,
  including `0`, `false`, `null`, the empty string and an absent field. A truthy message that is
  not a string fails with status 500, because lower-casing it throws.
- **Repeated categories.** A category can be collected more than once, but the filter tests
  membership with `includes`, so repeats change nothing: `KeepCategoriesOnlyUsesMembership` shows
  that only the set of matched categories matters.
- **Worker and day counts.** Any non-zero `parseInt` result is accepted, negative ones included.
  `Quantity` is the exact ceiling for every integer.

## Model

| member | source | states |
|---|---|---|
| Calculator.Lookup | script.js:114 | a property read on an item or preset table gives the value of an entry with that key, and is undefined exactly when no entry has the key |
| Calculator.Quantity | script.js:115 | the monthly quantity is the least integer at or above workers × rate × days |
| Calculator.Rows | script.js:113-125 | the `forEach` over the selection succeeds exactly when every selected key is in the item table; it gives one row per key, in selection order, built from that key's item; a missing key aborts with the first unknown key |
| Calculator.RunningTotal | script.js:111-116 | adding each row's quantity to the running total, left to right, ends at the start value plus the sum of all row quantities |
| Calculator.LineFor | script.js:114-124 | the pushed row carries the item's name, description, unit and rate, and the monthly quantity rounded up |
| Calculator.SumQty | script.js:111-116 | the total of the rows' quantities; when every row needs at least one item it is at least the number of rows |
| Calculator.SumQtyFront | script.js:116 | the sum of the row quantities splits into the first row's quantity plus the sum of the rest |
| Calculator.ThreeRows | script.js:113-123 | a three-key selection whose keys are all found gives exactly the three rows of those items, in order |
| Calculator.Calculate | script.js:104-125 | an empty selection is rejected; otherwise success exactly when every key is known, one row per selected key in order, and the total equals the sum of the rows |
| Calculator.PresetKeysKnown | script.js:62-81 | every key of every preset names an entry of the item table |
| Calculator.CustomPresetEmpty | script.js:80 | the custom preset holds no keys of its own |
| Calculator.QuantityPositive | script.js:115 | with positive workers, days and rate, at least one item is needed |
| Calculator.QuantitiesPositive | script.js:62-72 | with positive counts every computed row asks for at least one item, and the total is at least the number of rows |
| Calculator.BasicPresetExample | script.js:62-81 | the basic preset for 10 workers over 22 days gives 440 masks, 440 pairs of gloves and 110 gowns, 990 in all |
| Calculator.SingleHelmetExample | script.js:115 | one helmet-day at rate 0.01 rounds up to one helmet |
| Calculator.QuantityExact | script.js:115 | a whole-number product is not rounded |
| Calculator.LookupAt | script.js:62-72 | the item keys are distinct, so a lookup of an entry's key finds that entry |
| Calculator.InputCount | script.js:91-92 | `parseInt(...) \|\| fallback`: NaN or 0 gives the fallback, any other reading is kept, and the result is never 0 when the fallback is not |
| Calculator.CheckedValues | script.js:98-99 | the selection is the values of the checked boxes in document order (the checked boxes it describes occur in the box list in that order), each value as often as checked boxes carry it; a value is selected exactly when some checked box carries it |
| Calculator.Selection | script.js:96-102 | for "custom" the selection is the checked boxes; otherwise it is the named preset, or an unknown-preset error when there is no such preset |
| Calculator.OnCalculate | script.js:90-132 | the counts default to 10 workers and 22 days when unreadable or zero; the click succeeds exactly when the selection is read and the calculation succeeds, and then shows that calculation's rows and total with the counts used, changing only the results panel; an empty selection raises the "select at least one" error, and a rejected or failed click changes nothing |
| Calculator.OnReset | script.js:181-195 | a reset keeps the same boxes with the same values |
| Calculator.OnTypeChange | script.js:84-87 | the custom section is shown exactly when "custom" is chosen, and nothing else changes |
| Calculator.ResetRestoresDefaults | script.js:181-195 | after a reset the counts are 10 and 22, the preset is basic, the custom section is hidden, exactly the mask and gloves boxes are checked, and the results are cleared |
| Calculator.ResetForgetsCalculation | script.js:181-195 | nothing of a calculation survives a reset |
| Calculator.ResetIdempotent | script.js:181-195 | resetting twice equals resetting once |
| Calculator.CalculateAfterReset | script.js:90-132 | calculating straight after a reset shows the basic preset for 10 workers over 22 days, with 3 rows and a total of 990 |
| Catalogue.CatalogueShape | api/ai-assistant.js:176-278 | the catalogue holds nine products with ids 1 to 9, each in one of the eight catalogue categories |
| Catalogue.KeepCategories | api/ai-assistant.js:341-343 | the filtered products all have a listed category, and there are no more of them than in the catalogue |
| Catalogue.KeepCategoriesSpec | api/ai-assistant.js:341-343 | the filter keeps each product of a listed category as often as the catalogue holds it, drops all others, and keeps catalogue order |
| Catalogue.KeepCategoriesOnlyUsesMembership | api/ai-assistant.js:341-343 | two category lists with the same members filter identically, so repeated categories change nothing |
| Catalogue.LoadProducts | script.js:237-242 | "all" shows the whole list; any other filter shows exactly that category's products, each as often as the list holds it, in list order |
| Catalogue.FallProductsAreHarnesses | api/ai-assistant.js:176-278 | the catalogue's fall-protection products are products 4 and 5, in that order |
| Catalogue.CatalogueDistinct | api/ai-assistant.js:176-278 | no product appears twice in the catalogue |
| Catalogue.SubsequenceCons | script.js:98-99 | a list kept in order stays in order when an element is put in front of the list it is drawn from |
| Catalogue.SubsequenceReflexive | script.js:240-241 | the unfiltered list keeps its own order |
| NumberFormat.DigitRun | script.js:357 | the length of the maximal run of digits starting at a position |
| NumberFormat.FormatNumber | script.js:356-358 | removing the inserted commas gives back `num.toString()`; a non-negative number comes out as one to three digits followed by comma-separated groups of three |
| NumberFormat.IntToString | script.js:357 | `num.toString()` of an integer: at least one digit, no leading zero, denoting the number, after a minus sign when it is negative |
| NumberFormat.Digits | script.js:357 | the decimal digits denote the number and have no leading zero |
| NumberFormat.StripReplaceFrom | script.js:357 | the global replacement, at every position where the pattern matches, only inserts commas: removing them gives back the input |
| NumberFormat.InsertCommasGroupsDigits | script.js:357 | on a digit string the regular-expression replacement inserts a comma before every group of three digits counted from the right |
| NumberFormat.GroupedUnique | script.js:356-358 | two grouped texts with the same digits are equal, so the formatted text is the only grouping of its digits |
| NumberFormat.FormatNegative | script.js:356-358 | a negative number is formatted as "-" followed by the format of its absolute value |
| NumberFormat.ShortDigitsUnchanged | script.js:357 | numbers of at most three digits get no comma |
| NumberFormat.ReplaceSplitsLastTriple | script.js:357 | the replacement on a digit string ends with a comma and its last three digits |
| NumberFormat.StripCommasAppend | script.js:357 | removing commas distributes over concatenation |
| Text.ToLower | api/ai-assistant.js:128 | lower-casing keeps the length and lowers each letter on its own |
| Text.Includes | api/ai-assistant.js:168 | `includes` is true exactly when the needle occurs at some position |
| Text.IncludesLoweredIgnoresCase | api/ai-assistant.js:128-168 | a lower-case key is found in the lower-cased message exactly when it occurs in the message ignoring case |
| Text.ToLowerIdempotent | api/ai-assistant.js:128 | lower-casing twice equals lower-casing once |
| Text.SubstringTransitive | api/ai-assistant.js:167-171 | an occurrence inside an occurrence is an occurrence |
| Text.ToLowerAppend | api/ai-assistant.js:281 | lower-casing a concatenation lowers each part on its own |
| Text.SplitAtSpace | api/ai-assistant.js:330 | a keyword without a space that occurs in neither of two runs, the first ending in a space, does not occur in their concatenation |
| Text.MissesTwoRuns | api/ai-assistant.js:281-330 | a space-free keyword holding a letter missing, in both cases, from the first run and a letter missing from the second is not found in the lower-cased concatenation |
| Responder.FirstMatch | api/ai-assistant.js:167-171 | the found entry's key occurs and no earlier key does; with no find, no key occurs |
| Responder.Fallback | api/ai-assistant.js:127-174 | the reply is that of the first key, in declaration order, occurring in the lower-cased message, and the default reply when none occurs |
| Responder.RepliesDistinct | api/ai-assistant.js:130-164 | the thirteen canned replies are pairwise different |
| Responder.ChemicalGloveReplyUnreachable | api/ai-assistant.js:137-139 | the "chemical glove" reply is never given, because "glove" is declared earlier and occurs whenever "chemical glove" does |
| Responder.FallbackIgnoresCase | api/ai-assistant.js:128-171 | the reply is that of the first key the message spells in any mixture of cases |
| Responder.FallbackDefaultIgnoresCase | api/ai-assistant.js:128-173 | a message spelling no key in any case gets the default reply |
| Responder.HistoryMessages | api/ai-assistant.js:95-102 | one message per earlier turn, in order, with its text; a user message exactly when the sender is "user", never a system message |
| Responder.Messages | api/ai-assistant.js:66-108 | the system instruction first, then the history when present, then the new message as a user message |
| Responder.GenerateResponse | api/ai-assistant.js:55-125 | without a non-empty key the reply is the fallback; with one, it is the service's text, or the fallback when the service fails; the reply is always one of the two |
| Recommend.MatchedCategories | api/ai-assistant.js:328-333 | a category is collected exactly when some entry naming it has a keyword occurring in the message |
| Recommend.RelevantProducts | api/ai-assistant.js:280-344 | at most four products, never more copies than the catalogue has. With no keyword, min(4, size) products of the shuffle, without repeats when the catalogue has none. Otherwise the first min(4, n) of the n products in named categories, in catalogue order, each named by an occurring keyword |
| Recommend.KeywordTablesAgree | api/ai-assistant.js:285-326 | the keyword table as written, with "helmet" twice, names the same categories for every message as the table as built |
| Recommend.SameProductsAsWritten | api/ai-assistant.js:294-297 | the repeated "helmet" entry changes no recommendation |
| Recommend.OneCategoryRecommendations | api/ai-assistant.js:328-343 | when the keywords name one category, the recommendations are its first four products in catalogue order, whatever the shuffle |
| Recommend.FallQuestionGetsHarnesses | api/ai-assistant.js:322-343 | a question whose keywords name only the fall category is answered with catalogue products 4 and 5 |
| HarnessQuestion.OtherKeywordsMissed | api/ai-assistant.js:281-330 | no keyword of a category other than fall occurs in the lower-cased question "I need a harness for fall protection at height" |
| HarnessQuestion.HarnessOccurs | api/ai-assistant.js:281-330 | "harness" occurs in the lower-cased question |
| HarnessQuestion.OnlyFallNamed | api/ai-assistant.js:285-333 | the question names the fall category and no other |
| HarnessQuestion.HarnessQuestionGetsHarnesses | api/ai-assistant.js:280-344 | the question is answered with catalogue products 4 and 5, whatever the shuffle |
| Recommend.PrefixSubsequence | api/ai-assistant.js:343 | the first four of a catalogue-ordered selection are still in catalogue order |
| Recommend.SubmultisetDistinct | api/ai-assistant.js:337-343 | a selection drawing no product more often than a catalogue without repeats has no repeats either |
| Recommend.DistinctPermutation | api/ai-assistant.js:337 | a reordering of a catalogue without repeats, and every prefix of it, has no repeats |
| Handler.Handle | api/ai-assistant.js:14-53 | OPTIONS gives 200 with an empty body; another non-POST method gives 405; a POST whose body is undefined or null gives 500; a primitive body destructures to an absent message and gives 400; a falsy message gives 400; a truthy non-string message gives 500; a non-empty string message gives 200 with the generated text and the relevant products |
| Handler.Limit | api/ai-assistant.js:42 | slicing to four keeps min(4, n) leading elements and changes nothing on a shorter list |
| Handler.SuccessIff | api/ai-assistant.js:14-44 | status 200 is returned exactly for preflight requests and for POST requests with a non-empty string message |
| Handler.AnswerTextOrigin | api/ai-assistant.js:34-44 | an answer's text is either the service's text or the keyword reply, and always the keyword reply without a key |
| Handler.AnswerRecommendsFromCatalogue | api/ai-assistant.js:37-42 | an answer recommends at most four catalogue products, each no more often than the catalogue holds it |
| Handler.AnswerWithoutRepeats | api/ai-assistant.js:37-42 | from a catalogue without repeats, an answer recommends at most four products, none twice, each from the catalogue |
| Handler.Endpoint | api/ai-assistant.js:32-42 | the endpoint as deployed, on the catalogue of `getPPEProducts`, recommends at most four catalogue products and none twice |
| Handler.NoKeyIgnoresService | api/ai-assistant.js:57-59 | without a key the completion service has no influence on the response |

## Left out

- **The DOM.** Rendering the results table and the product cards, scrolling, printing and
  sharing are not modelled. The form is reduced to the values the handlers read and write.
- **Other page features.** The visitor counter, the timers and the tooltips are
  not part of the calculator or the assistant.
- **The completion service.** The service is a function parameter. Its model name, token limit
  and temperature are not represented, and neither is a response whose content is `null`.
- **HTTP details.** The CORS headers, the `timestamp` field of an answer and the `message` field
  of a 500 body are not modelled. That field carries the exception's own text.
- Recommend.RelevantProducts: the sort comparator `0.5 - Math.random()` is modelled only as
  "some permutation of the catalogue". Its bias is not represented.
- Calculator.Quantity: JavaScript multiplies binary floating-point numbers, so some exact
  products land just above an integer. For example, 3 workers of goggles over 10 days give
  `3 × 0.1 × 10 = 3.0000000000000004`, and `Math.ceil` returns 4. The model computes the exact
  ceiling, 3. Floating point is not modelled.
- Calculator.InputCount: the field's text is not parsed. The model starts from the `parseInt`
  result, with `None` standing for NaN.
- Text.ToLower: only ASCII letters are lowered. Unicode case mapping is not modelled.
- NumberFormat.FormatNumber: only integers are formatted. `Number.prototype.toString` uses
  exponent notation from 1e21 upward, and formats fractional numbers differently; neither is
  modelled.
- **The products of the grid.** `loadProducts` reads a global `products` array that is defined
  outside the browser script. `Catalogue.LoadProducts` takes that array as a parameter.
- **Prototype property names.** A preset or item key such as `toString` reads an inherited
  property in JavaScript. The model treats it as missing.
- **Body shapes.** The `history` field is modelled only when it is absent or a list of turns; other
  shapes are not. Array and object messages are truthy non-strings, and their contents are not
  looked into.
- Handler.Handle: it takes the catalogue as a parameter. `Handler.Endpoint` fixes that parameter
  to `PPEProducts`, the catalogue of `getPPEProducts`.
