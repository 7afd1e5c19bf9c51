# Trip weights, category colours and trip actions, in Dafny

This project models the computational core of a backpacking gear-and-trip planner:

- **Weight library.** The library that turns a trip's packing list into weights, from `src/lib/utils/weightCalculations.js`. It covers:
  - unit conversion through grams;
  - the water-volume helpers;
  - the total / base / worn / consumable breakdown;
  - the per-category breakdown with percentages, sorted heaviest first;
  - the display-unit choice.
- **Category palette.** The category colour palette of `src/lib/constants/colors.js`.
- **Server actions.** The decision logic of the server actions that edit a trip's items and water, manage its public share link, record feedback on assistant messages, and clean up the product data extracted from a URL.

Weights and volumes are `real`, so the library's decimal constants (28.3495 g/oz, 453.592 g/lb, 0.02957 L/fl oz) are exact. Its algebraic promises are proved without rounding:

- total = base + worn + consumable;
- bucket weights add up to the total;
- percentages add up to 100;
- every unit round-trips through grams.

The server actions work on a `Tables.Db` object whose fields are the database tables the actions read and write:

- `trips`, `items`, `tripItems`, `tripShares`, `conversations`, `feedback` and `categories`.
- Each action that writes is a method with a `modifies` clause naming the one table it changes.
- `getTripShare` and `getTripShareStatus` are functions that read the object (a `reads` clause); `getFeedback` is a method whose loop builds the map.
- A lookup with `.single()` finds a row only when exactly one row matches (`Tables.Single`).
- The signed-in user is a `userId` argument, and `""` stands for "not signed in".
- Identifiers and share tokens the database or `crypto` would generate are arguments.
- Whether a write succeeds is a `bool` argument.
- Alongside the actions, the model states the invariants the tables are meant to keep:
  - a (trip, item) pair occurs at most once;
  - each trip has at most one share row;
  - a user has at most one feedback row per message.

The model proves how the share actions interact. Toggling twice restores the table. `createTripShare` is idempotent while at most one active share exists. Beside an inactive share, though, `createTripShare` inserts a second row for the trip (`TripShares.CreateBesideInactiveShare`). After that, the status lookup, which expects a single row per trip, reports no share at all, and the next toggle inserts a third row.

`WeightUnits.DisplayBoundary` follows the code's constants: 45.359237 g is shown in pounds. One tenth of the international pound is just above 0.1 lb at the code's 453.592 g/lb, so only weights strictly below 45.3592 g are shown in ounces.

## Model

| member | source | states |
|---|---|---|
| WeightUnits.NormalizeUnit | src/lib/utils/weightCalculations.js:22 | a missing or empty unit reads as 'oz'; any other unit is lower-cased |
| WeightUnits.GramsPer | src/lib/utils/weightCalculations.js:24-35 | the gram factor is positive: oz 28.3495, lb 453.592, kg 1000, g 1, and anything unrecognised is treated as oz |
| WeightUnits.ConvertToGrams | src/lib/utils/weightCalculations.js:19-36 | a null weight gives 0 g; otherwise weight times the factor of the normalised unit; zero grams exactly when the weight is zero; 'g' is the identity |
| WeightUnits.ConvertFromGrams | src/lib/utils/weightCalculations.js:44-61 | 0 g gives 0; otherwise the amount of the unit that weighs exactly the given grams |
| WeightUnits.RoundTrip | src/lib/utils/weightCalculations.js:19-61 | converting to grams and back gives the original weight, for every weight and every unit string, the oz fallback included |
| WeightUnits.WaterWeightInGrams | src/lib/utils/weightCalculations.js:68-71 | a non-positive volume weighs 0; otherwise 1000 g per litre; never negative |
| WeightUnits.FlOzToLiters | src/lib/utils/weightCalculations.js:78-81 | a non-positive input gives 0; otherwise 0.02957 L per fl oz, which is positive |
| WeightUnits.LitersToFlOz | src/lib/utils/weightCalculations.js:88-91 | a non-positive input gives 0; otherwise the positive number of fl oz that make up the litres |
| WeightUnits.VolumeRoundTrip | src/lib/utils/weightCalculations.js:78-91 | the fl oz and litre conversions are inverse to each other on positive volumes, in both orders |
| WeightUnits.FormatWeightForDisplay | src/lib/utils/weightCalculations.js:153-165 | 0 g is '0 lb'; otherwise one decimal, in ounces exactly when below 0.1 lb, else in pounds; the amount shown weighs the given grams |
| WeightUnits.FormatWeight | src/lib/utils/weightCalculations.js:174-203 | 0 g is '0 oz' whatever the unit; an omitted unit means 'auto', which shows ounces below one pound and pounds from one pound up; a null unit fails with a TypeError for any other weight; any other unit is shown in that unit (oz, lb one decimal, g none, kg two) with unrecognised units in ounces; the amount always weighs the given grams |
| WeightUnits.DisplayBoundary | src/lib/utils/weightCalculations.js:156-164 | 45.3592 g and 45.359237 g are shown in pounds, 45.35 g in ounces, and 453.592 g as exactly 1.0 lb |
| TripWeights.EffectiveQuantity | src/lib/utils/weightCalculations.js:122 | a missing or zero quantity counts as 1; any other quantity is used as given |
| TripWeights.EntryGrams | src/lib/utils/weightCalculations.js:119-123 | an entry without an item or with a falsy weight adds nothing; any other entry adds a non-zero weight |
| TripWeights.CalculateTripWeights | src/lib/utils/weightCalculations.js:99-145 | water is the water weight of the volume; total is all counted entries plus water; worn and consumableItems are the sums of the flagged entries; consumable = consumableItems + water; total = base + worn + consumable (an empty list gives base = worn = consumableItems = 0) |
| TripWeights.SkippedEntriesContributeNothing | src/lib/utils/weightCalculations.js:117-134 | dropping the entries with no item or a falsy weight leaves every sum unchanged |
| TripWeights.ExclusiveFlagsKeepBaseNonNegative | src/lib/utils/weightCalculations.js:127-143 | when no entry is both worn and consumable and no entry weighs less than nothing, worn + consumable items lie between 0 and the item total, so base is not negative |
| TripWeights.BothFlagsSubtractTwice | src/lib/utils/weightCalculations.js:127-143 | an entry flagged both worn and consumable lowers the base weight by its own weight |
| TripWeights.PackingListExample | src/lib/utils/weightCalculations.js:99-145 | for a 2 lb tent, a worn 8 oz jacket, three consumable 4 oz bars and 2 L of water, the worn, consumable, total and base weights (base = the tent) |
| CategoryBreakdown.AddToFacts | src/lib/utils/weightCalculations.js:233-237 | adding to a category key adds the weight to that key only, keeps the key set plus that key, adds the weight to the sum, and keeps keys distinct |
| CategoryBreakdown.PutFacts | src/lib/utils/weightCalculations.js:245 | assigning the carried-water key overwrites its weight, keeps the other weights, and appends the key when it was absent |
| CategoryBreakdown.AccumulateFacts | src/lib/utils/weightCalculations.js:222-238 | the accumulated dictionary has distinct keys, exactly the counted entries' category keys, each key weighing the sum of its entries, and the values add up to the item total |
| CategoryBreakdown.WeightsFacts | src/lib/utils/weightCalculations.js:222-246 | after adding water, keys are the counted keys plus 'carried-water' exactly when water is positive; that key weighs the water; every other key weighs its entries; without a real category named 'carried-water' the values add up to items plus water |
| CategoryBreakdown.ToBuckets | src/lib/utils/weightCalculations.js:251-272 | one bucket per key, in key order, each built from its key and weight |
| CategoryBreakdown.ToBucketsSums | src/lib/utils/weightCalculations.js:251-272 | bucket weights add up to the dictionary's sum, and percentages to that sum over the total times 100 |
| CategoryBreakdown.SortFacts | src/lib/utils/weightCalculations.js:273 | the sort returns a permutation of the buckets, ordered by non-increasing weight, with the same weight and percentage sums |
| CategoryBreakdown.BucketIds | src/lib/utils/weightCalculations.js:241-272 | the unsorted buckets are not empty and have distinct ids; their ids are exactly the counted categories, plus 'carried-water' when water is positive; that water bucket weighs the water |
| CategoryBreakdown.BucketsDescribe | src/lib/utils/weightCalculations.js:251-272 | each bucket carries its weight over the total times 100; a category bucket has its category's name and colour, or 'Uncategorized' and '#6b7280'; the water bucket is 'Carried Water' in '#147DF5' |
| CategoryBreakdown.BucketSums | src/lib/utils/weightCalculations.js:241-272 | without a real category named 'carried-water', bucket weights add up to the total and percentages to 100 |
| CategoryBreakdown.WeightByCategoryShape | src/lib/utils/weightCalculations.js:217-274 | the result is empty exactly when the total weight is 0; otherwise it is sorted heaviest first, with distinct ids, and every bucket is described as above |
| CategoryBreakdown.WeightByCategoryCoverage | src/lib/utils/weightCalculations.js:233-269 | a non-empty result's ids are exactly the counted categories, plus 'carried-water' when water is positive, whose bucket weighs the water; an empty result has no ids |
| CategoryBreakdown.WeightByCategorySums | src/lib/utils/weightCalculations.js:241-274 | without a real category named 'carried-water', bucket weights add up to the same total calculateTripWeights reports, and a non-empty result's percentages add up to 100 |
| CategoryBreakdown.GetWeightByCategory | src/lib/utils/weightCalculations.js:217-274 | the loop over the entries, the water step and the sort return exactly the breakdown specified above |
| Colors.JsRem | src/lib/constants/colors.js:47 | JavaScript's `%`: the Euclidean remainder for non-negative counts; for negative counts a remainder in (-18, 0] that is 0 exactly when 18 divides the count |
| Colors.GetCategoryColor | src/lib/constants/colors.js:46-50 | every non-negative count gets a colour of the palette; a colour is returned exactly when the count is non-negative or a multiple of 18 |
| Colors.Periodic | src/lib/constants/colors.js:47 | the colour of count n + 18 is the colour of count n |
| Colors.OrderIsPermutation | src/lib/constants/colors.js:24-43 | the assignment order holds each of 0..17 exactly once, as long as the palette |
| Colors.PaletteDistinct | src/lib/constants/colors.js:1-20 | the 18 palette colours are pairwise different |
| Colors.FirstEighteenDistinct | src/lib/constants/colors.js:24-50 | counts 0 to 17 get pairwise different colours |
| Colors.FirstPicks | src/lib/constants/colors.js:24-50 | count 0 is '#FF0000', count 1 is '#580AFF', count 18 wraps to '#FF0000', and count -1 gets no colour |
| Tables.Single | src/server/actions/trips/toggleTripShare.js:42-46 | a `.single()` lookup finds a row exactly when one row matches, and then it is that row |
| TripItems.InsertKeepsPairsUnique | src/server/actions/trips/addItemToTrip.js:41-63 | inserting a row whose (trip, item) pair is absent keeps every pair unique and leaves exactly one row for the new pair |
| TripItems.AddItemToTrip | src/server/actions/trips/addItemToTrip.js:7-72 | the guards in order with their messages (sign-in, both ids, trip owned, item owned, pair not yet present, insert succeeded); on success one row is appended with the given quantity (1 when absent) and both flags false, otherwise the table is unchanged; pairs stay unique |
| TripItems.AllowedUpdates | src/server/actions/trips/updateTripItem.js:40-49 | the quantity is taken exactly when it is a number, as max(1, quantity); is_worn and is_consumable are taken exactly when they are booleans, with their values |
| TripItems.OnlyWhitelistedKeysMatter | src/server/actions/trips/updateTripItem.js:40-49 | two update objects that agree on quantity, is_worn and is_consumable give the same patch, so no other key reaches the row |
| TripItems.ApplyPatch | src/server/actions/trips/updateTripItem.js:56-61 | the row keeps its id, trip and item; each field takes the patched value when present and keeps its old value otherwise |
| TripItems.PatchedQuantityAtLeastOne | src/server/actions/trips/updateTripItem.js:41-43 | a numeric quantity in the update leaves the row with quantity at least 1 |
| TripItems.PatchKeepsPairsUnique | src/server/actions/trips/updateTripItem.js:56-61 | patching rows keeps (trip, item) pairs unique |
| TripItems.UpdateTripItem | src/server/actions/trips/updateTripItem.js:7-70 | the guards in order with their messages (sign-in, id, row found, trip owner, some allowed field, update succeeded); on success exactly that row is patched with the allowed updates, otherwise the table is unchanged; pairs stay unique |
| TripItems.RemoveOneRow | src/server/actions/trips/removeItemFromTrip.js:40-43 | deleting an existing id removes exactly one row, keeps every other row, and keeps pairs unique |
| TripItems.RemoveItemFromTrip | src/server/actions/trips/removeItemFromTrip.js:7-52 | the guards in order with their messages (sign-in, id, row found, trip owner, delete succeeded), independent of the trip id argument; on success exactly the row with that id is gone, otherwise the table is unchanged |
| TripWater.StoredVolume | src/server/actions/trips/updateTripWater.js:37-40 | an unreadable volume is stored as 0; a positive volume in 'fl oz' is stored as the library's fl oz to litre conversion; anything else is stored as given |
| TripWater.StoredUnit | src/server/actions/trips/updateTripWater.js:46 | the unit is stored as given, or 'L' when empty, and is never empty |
| TripWater.FlOzVolumeRoundTrip | src/server/actions/trips/updateTripWater.js:37-40 | a positive volume entered in fl oz reads back as the same number of fl oz |
| TripWater.SetWaterFound | src/server/actions/trips/updateTripWater.js:42-51 | after the update, looking the trip up finds it with the new water fields and its other fields unchanged |
| TripWater.UpdateTripWater | src/server/actions/trips/updateTripWater.js:10-60 | the guards in order with their messages; on success the trip row holds the stored volume and unit and is what is returned, otherwise the table is unchanged |
| TripShares.OwnerGuard | src/server/actions/trips/toggleTripShare.js:18-39 | the guard passes exactly when the user is signed in, the id is given, and the trip exists and belongs to the user; otherwise it gives the first failing message |
| TripShares.ToggleTripShare | src/server/actions/trips/toggleTripShare.js:15-93 | after the guard, an existing share has its active flag flipped and keeps its token; without one, one active row with the new token is inserted; the result reports the new state; on error the table is unchanged |
| TripShares.ToggleNeverRemovesShares | src/server/actions/trips/toggleTripShare.js:48-92 | toggling never decreases the number of share rows of any trip |
| TripShares.ToggleKeepsOneSharePerTrip | src/server/actions/trips/toggleTripShare.js:48-92 | when every trip has at most one share row, toggling keeps it that way |
| TripShares.ToggleMatchesStatus | src/server/actions/trips/toggleTripShare.js:48-92 | with at most one share row, the toggle's reported state is what the status lookup then reports |
| TripShares.ToggleTwiceRestores | src/server/actions/trips/toggleTripShare.js:50-55 | toggling an existing share twice gives back the original table |
| TripShares.StatusOf | src/server/actions/trips/getTripShareStatus.js:36-57 | a share is reported exactly when the single-row lookup finds one, with its active flag and token; otherwise inactive with no token |
| TripShares.GetTripShareStatus | src/server/actions/trips/getTripShareStatus.js:9-58 | the owner guard's error, or else the share status of the trip; it changes no table |
| TripShares.CreateTripShare | src/server/actions/trips/createTripShare.js:16-82 | after the guard, an active share's token is returned as not new with nothing inserted; otherwise one active row is inserted and reported as new; on error the table is unchanged |
| TripShares.CreateIsIdempotent | src/server/actions/trips/createTripShare.js:43-56 | a second create after a successful one returns the same token as not new and leaves the table as it was |
| TripShares.CreateBesideInactiveShare | src/server/actions/trips/createTripShare.js:43-70 | beside an inactive share, create inserts a second row; the status lookup then finds no share, and a toggle inserts a third row |
| TripShares.GetTripShare | src/server/actions/trips/getTripShare.js:9-86 | 'invalid' exactly for an empty or unmatched token, 'inactive' exactly for an inactive share, 'deleted' exactly for an active share whose trip is gone; otherwise the trip, its items and the owner's categories, each list empty when its fetch fails; it changes no table |
| Feedback.ValidateFeedback | src/server/actions/carlo/submitFeedback.js:17-31 | the checks in order (sign-in, required fields, rating, issue type) with their messages; passes exactly when all hold, a missing or empty issue type included |
| Feedback.Revised | src/server/actions/carlo/submitFeedback.js:55-65 | an update keeps the row's id, conversation, message and user, and rewrites rating, issue type, comment, message content and user query |
| Feedback.SubmitFeedback | src/server/actions/carlo/submitFeedback.js:6-95 | validation errors first; an unowned conversation gives 'Conversation not found'; otherwise the user's row for the message is revised (updated = true) or one row is inserted (updated = false), with the failure messages of each write; on error the table is unchanged |
| Feedback.SubmitKeepsOnePerUserMessage | src/server/actions/carlo/submitFeedback.js:46-94 | when each user has at most one row per message, a submission keeps it that way, and afterwards the user has exactly one row for the message |
| Feedback.FeedbackMapKeys | src/server/actions/carlo/submitFeedback.js:116-123 | the map's keys are exactly the message ids of the rows |
| Feedback.FeedbackMapLastWins | src/server/actions/carlo/submitFeedback.js:116-123 | a message id maps to the rating, issue type and comment of its last row |
| Feedback.GetFeedback | src/server/actions/carlo/submitFeedback.js:97-126 | not signed in or a failed fetch gives its message and an empty map; otherwise the loop builds the message-id map of the user's rows in that conversation |
| Extraction.Trim | src/server/actions/items/extractFromUrl.js:166 | the result has no white space (JavaScript's white-space set) at either end and is no longer than the input |
| Extraction.TrimAround | src/server/actions/items/extractFromUrl.js:166 | trimming a string made of white space, a body without surrounding white space, and white space gives exactly the body, so `trim` removes the surrounding white space and nothing else |
| Extraction.CleanFences | src/server/actions/items/extractFromUrl.js:166-176 | the step-by-step clean-up yields the trimmed text with one leading fence and one trailing fence removed, and has no surrounding white space |
| Extraction.CleanedKeepsPlainText | src/server/actions/items/extractFromUrl.js:166-176 | text without fences and without surrounding white space passes through unchanged |
| Extraction.CleanedUnwrapsFence | src/server/actions/items/extractFromUrl.js:166-176 | a trimmed body wrapped in a ```json fence or a bare ``` fence on their own lines comes out as the body |
| Extraction.DefaultFields | src/server/actions/items/extractFromUrl.js:187-198 | a null parse result fails with 'Failed to parse extracted product data'; otherwise the text fields are kept when truthy and '' when not (item_type 'gear'); weight and calories keep everything but a missing value, which becomes null; confidence is kept only when it is a number, else 0.5; product_url is the caller's URL |
| Extraction.ExtractGuards | src/server/actions/items/extractFromUrl.js:216-285 | a missing, non-string or empty URL fails first; then an invalid trimmed URL; then a missing key; a success went through all guards and a non-empty product description and carries the trimmed URL; every failure has a non-empty message |
| Extraction.ExtractIgnoresSurroundingSpace | src/server/actions/items/extractFromUrl.js:222-253 | white space around the URL changes nothing, because the trimmed URL is what is validated, sent on and returned |
| Extraction.ExtractFromUrl | src/server/actions/items/extractFromUrl.js:209-286 | the step-by-step extraction returns exactly the specified outcome |

## Left out

- Database access, Clerk `auth()`, `revalidatePath` and logging are external I/O. Tables are fields of `Tables.Db`, the user is an argument, and a failed query or write is a `bool` argument. `.single()` is modelled only as found or not found.
- Timestamps (`created_at`, `updated_at`) are not modelled: no action here decides anything on them.
- The ordering of query results is not modelled. Items are ordered by `created_at` and categories by name in `getTripShare`; the model lists them in table order.
- The `activities` join of `getTripShare` is not modelled: it is a database join.
- Fresh ids and share tokens are arguments. `crypto.randomBytes` and database id generation are not modelled.
- IEEE-754 floating point, NaN and infinities are not modelled: all numbers are exact reals. A NaN weight, quantity or volume therefore has no counterpart.
- `toFixed` and `Math.round` rendering of digits is not modelled. The formatters return the amount, the unit and the number of decimals.
- `toLowerCase` is modelled for ASCII letters only.
- `getPreferredUnit` and `setPreferredUnit` depend on the browser's `localStorage` and are not modelled.
- `parseFloat` of the water form value is not modelled. `TripWater.UpdateTripWater` takes the number it yields, with `None` for an unreadable value.
- The property order of `Object.entries` is not modelled. The dictionary in `getWeightByCategory` is a list in first-insertion order, which is JavaScript's order for non-numeric keys such as category UUIDs; integer-like keys, which JavaScript lists first, are not modelled.
- CategoryBreakdown.SortByWeight: the model's insertion sort keeps equal weights in their order, as JavaScript's stable sort does, but no lemma states that order.
- CategoryBreakdown.BucketSums: the sums are proved only when no real category id is 'carried-water'. Line 245 of weightCalculations.js overwrites such a category's weight with the water, so no sum holds there.
- TripItems.UpdateTripItem: `updates` is a dictionary of JSON values. A `null` or `undefined` `updates` object, which throws in the source, is not modelled.
- Extraction.ExtractFromUrl: the Perplexity and Anthropic calls, the `URL` constructor behind `isValidUrl`, and `JSON.parse` are function arguments. Their own behaviour is not modelled.
- The other server actions are not modelled because each is a database call behind the same sign-in checks: `sendMessage`, conversation creation, reading and deletion, profile and activities, templates, and trip creation, update and deletion.
- The React components and configuration files are not modelled: they are UI and wiring.
