# Gaming marketplace: nearby players, product search and API validators

This project is a Dafny model of the logic at the centre of a Next.js gaming
marketplace. The rest of the application is pages and database I/O. The model
covers three parts:

- **Nearby players.** These are the helpers of `lib/map-utils.ts` and the
  near-identical copies inside the player-map component:
  - the four-criterion player filter;
  - sorting by distance;
  - the de-duplicated game list;
  - distance annotation;
  - the deterministic skeleton of the mock-player generators;
  - the unit choice of distance formatting;
  - the component's start-up sequence, with its fallback origin and its filter state.
- **Product search.** These are the condition builder and pagination fields
  of the search route, and the `searchProducts`,
  `getRelatedProductsByCategory` and `getProductBySlug` server actions.
- **API validators.** These are the player-location route (`POST` upsert and
  `GET` nearby query) and the add-product route. Each is a function from a
  request record to a status and a body.

The database, the browser and `Math.random` are never called. What they
produce is an input to the model:

- the database's page of products, match count, matching documents, or exception;
- the geolocation outcome;
- the random draws and the trigonometric placement of generated players.

JavaScript's own behaviour is modelled explicitly in two modules:

- `JsStrings`: ASCII `toLowerCase`, `includes`, and `trim` over the ECMAScript whitespace set.
- `JsNumbers`: `parseInt`, `parseFloat`, `Math.ceil`, `Math.round`, number truthiness, and arithmetic with Infinity and NaN.

`JsNumbers.Number` is an exact real with NaN and the infinities added. It is used where the routes compute with numbers: page, limit, skip and the nearby-query parameters. The player record's coordinates, distance and distance ceiling are plain reals, so they are never NaN or infinite. The modules are:

| module | file | models |
|---|---|---|
| `Wrappers` | wrappers.dfy | `Option` / `Result` |
| `JsStrings` | js_strings.dfy | string built-ins |
| `JsNumbers` | js_numbers.dfy | number type and number built-ins |
| `Json` | json.dfy | parsed JSON values, field access, truthiness |
| `Http` | http.dfy | replies and parameters with fallbacks |
| `Sorting` | sorting.dfy | a stable sort by a numeric key |
| `Players` | players.dfy | the `Player` and filter shapes of `types/map.ts` |
| `MapUtils` | map_utils.dfy | `lib/map-utils.ts` |
| `PlayerMap` | player_map.dfy | `components/map/player-map.tsx` |
| `ProductSearch` | product_search.dfy | `app/api/search/route.ts`, `lib/actions/product.actions.ts` |
| `LocationRoute` | location_route.dfy | `app/api/location/route.ts` |
| `ProductAddRoute` | product_add_route.dfy | `app/api/product/add/route.ts` |

## Model

| member | source | states |
|---|---|---|
| MapUtils.Keep | lib/map-utils.ts:49-75 | The filter callback's early-return chain accepts a player exactly when all four criteria hold: empty term or lower-cased name/game contains the lower-cased term; game `'all'` or equal; distance at most the ceiling; not online-only or online. |
| MapUtils.FilterPlayers | lib/map-utils.ts:40-76 | The output is a subsequence of the input in the same relative order. A player is in the output exactly when it is in the input and meets all four criteria. Each kept player occurs as often as in the input, so duplicates are kept too. |
| MapUtils.FilterKeepsAll | lib/map-utils.ts:49-75 | When every player meets the criteria, the filter returns the input unchanged. |
| MapUtils.FilterIdempotent | lib/map-utils.ts:49-75 | Filtering the output again with the same filters returns it unchanged. |
| MapUtils.FilterWithOpenCriteria | lib/map-utils.ts:49-75 | With an empty term, game `'all'`, no online restriction and a ceiling at or above every distance, the filter is the identity. |
| MapUtils.FilterKeepsPlayerAtCeiling | lib/map-utils.ts:65-67 | The ceiling is inclusive: a player whose distance equals `maxDistance` and who meets the other criteria is kept. |
| MapUtils.FilterIgnoresTermCase | lib/map-utils.ts:51-56 | The search is case-insensitive: lower-casing the term first gives the same result. |
| MapUtils.SortPlayersByDistance | lib/map-utils.ts:79-81 | The result is a permutation of the input and is non-decreasing by distance. |
| MapUtils.Distinct | lib/map-utils.ts:85 | Iterating a `Set` built from a list yields each unseen element exactly once, with no duplicates, ordered by first occurrence. |
| MapUtils.GetUniqueGames | lib/map-utils.ts:84-86 | A game is listed exactly when some player plays it. Each game appears once, ordered by its first appearance in the player list. |
| MapUtils.CalculatePlayerDistances | lib/map-utils.ts:24-37 | Length and order are preserved. Every field except `distance` is copied. `distance` is the viewer-to-player distance function applied to the player's location. |
| MapUtils.FormatDistance | lib/map-utils.ts:89-94 | Metres are chosen exactly when the distance is under 1 km, as `Math.round(d*1000)`: within half a metre, and in 0..1000 for non-negative input. Otherwise the distance is shown in kilometres. |
| MapUtils.FormatDistanceJustUnderOneKm | lib/map-utils.ts:90-91 | 0.9996 km falls in the metre branch, yet shows as 1000 m. |
| MapUtils.PlayerIdInjective | lib/map-utils.ts:138 | The ids `player-${index + 1}` of different indices differ. |
| MapUtils.Scale | lib/map-utils.ts:147-149 | `Math.floor(r * n)` of a draw in [0, 1) lies in [0, n). |
| MapUtils.MockLevel | lib/map-utils.ts:148 | A generated level lies in 1..100. |
| MapUtils.MockAchievementList | lib/map-utils.ts:149 | Generated achievements are a prefix of length 1..3 of the labels. |
| MapUtils.MockPlayer | lib/map-utils.ts:134-150 | A generated player lies within 0.05 degrees of the viewer on each axis, with a level in 1..100 and 1..3 of the three achievement labels. |
| MapUtils.GenerateMockPlayers | lib/map-utils.ts:126-152 | Ten players are generated, with ids `player-1`..`player-10` (pairwise distinct), name `names[i % 10]`, game `games[i % 5]` and distance 0. Each lies within ±0.05 degrees of the viewer, is online exactly when its draw exceeds 0.3, has a level in 1..100, and has a 1..3 prefix of the achievement labels. |
| PlayerMap.FilterPlayers | components/map/player-map.tsx:113-146 | The component's copy, run as a loop, keeps exactly what `MapUtils.FilterPlayers` keeps, in the same order. |
| PlayerMap.KeepPlayer | components/map/player-map.tsx:119-145 | The component's callback, with its early returns, keeps a player exactly when the library's four criteria hold. |
| PlayerMap.GetUniqueGames | components/map/player-map.tsx:149-151 | The component's copy, run as set insertions, yields exactly the list `MapUtils.GetUniqueGames` yields. |
| PlayerMap.MockPlayer | components/map/player-map.tsx:75-100 | A generated player has a level in 1..100 and a prefix of length 1..3 of the five achievement labels. |
| PlayerMap.GenerateMockPlayers | components/map/player-map.tsx:67-102 | Fifteen players are generated, with pairwise-distinct ids `player-1`..`player-15`, name `names[i % 15]` and game `games[i % 8]`. Each sits at the drawn offset from the origin with the drawn distance, a level in 1..100, and a 1..3 prefix of the five labels. |
| PlayerMap.InitialFiltersKeepWithinTenKm | components/map/player-map.tsx:44-47 | The initial filters (`''`, `'all'`, 10, `false`) keep exactly the players within 10 km. |
| PlayerMap.Mount | components/map/player-map.tsx:153-202 | Applied to whatever state the component is in when the position arrives. The origin is the device position when one is obtained, otherwise (40.7128, -74.0060), and generation proceeds either way. `players` is a permutation of the 15 generated players, sorted by ascending distance. `filteredPlayers` equals `players`, the filters are left as the user set them meanwhile, and loading has ended. |
| PlayerMap.Refilter | components/map/player-map.tsx:204-212 | After the effect, the displayed list is the filter of the players by the current criteria. Players, filters, origin and loading flag are unchanged. |
| PlayerMap.Step | components/map/player-map.tsx:204-212 | A control action changes only the criterion it touches. After the effect the displayed list again is the filter of the unchanged players. |
| PlayerMap.MountThenRefilter | components/map/player-map.tsx:166-169 | If the filters are still the initial ones and every generated player lies within 10 km, re-running the filter effect after start-up leaves the sorted list on display unchanged. |
| PlayerMap.GameOptions | components/map/player-map.tsx:256-261 | The options are `'all'` followed by the players' games, each once, in the order of `MapUtils.GetUniqueGames` (first appearance). A game is offered exactly when some player plays it. |
| ProductSearch.BuildConditions | app/api/search/route.ts:19-34 | Building fails exactly when the query is not blank and is not a valid regular expression, as `new RegExp(query, 'i')` then throws. Otherwise: `isPublished` is always required. A category constraint is present exactly when the category is non-empty and not `'all'`. The `$or` is present exactly when the query is not blank after `trim`; it has four alternatives (name, description, brand, tags), each carrying the untrimmed query. |
| ProductSearch.TotalPages | app/api/search/route.ts:45 | For a positive limit, `ceil(count / limit)` is a whole number `t` with `(t - 1) * limit < count <= t * limit`. A negative limit gives at most 0 pages, an infinite one 0 pages, and a NaN one NaN. |
| ProductSearch.NextPageIffMoreItems | app/api/search/route.ts:53 | For a whole page `p` and positive limit `l`, `p < ceil(c / l)` exactly when `p * l < c`. |
| ProductSearch.Paginate | app/api/search/route.ts:47-55 | `currentPage` and `totalCount` are echoed and `totalPages` is `ceil(count / limit)`. For a whole page and positive limit, `hasNextPage` holds exactly when the pages up to this one hold fewer items than match. `hasPrevPage` holds exactly when page > 1. A NaN page has neither. A NaN limit gives no next page, and so does a negative or infinite limit for any positive page. |
| ProductSearch.ZeroLimitPagination | app/api/search/route.ts:45-53 | With limit 0 and some matches, `totalPages` is Infinity and every finite page has a next page. With no matches it is NaN and no page has a next page. |
| ProductSearch.Skip | app/api/search/route.ts:16 | `(page - 1) * limit` for finite operands; NaN when either is NaN. |
| ProductSearch.ParseSearchParams | app/api/search/route.ts:11-34 | `q` defaults to `''`, `category` to `'all'`, page to 1 and limit to 12. Page and limit are `parseInt` of the parameter text, or of the default text when it is missing or empty. A parameter written as the decimal text of a natural number `n` is read as `n`. Reading fails exactly when `BuildConditions` fails; otherwise the conditions are those of `BuildConditions` and skip is `(page - 1) * limit`. |
| ProductSearch.SearchRoute | app/api/search/route.ts:9-65 | A query that is not a valid regular expression, or a database exception, answers 500 "Failed to search products", whatever the database would have returned. Otherwise the answer is 200 with the database's products and the pagination of the parsed page and limit. |
| ProductSearch.InvalidPatternFailsSearch | app/api/search/route.ts:27-34 | A non-blank `q` that is not a valid regular expression makes the route answer 500 for every database answer. |
| ProductSearch.SearchProductsRequest | lib/actions/product.actions.ts:76-114 | Omitted arguments default to `''`, `'all'`, page 1 and limit 12. Building fails exactly when the query is not blank and is not a valid regular expression. Otherwise the conditions follow the same rules as the route, and skip is `(page - 1) * limit`. |
| ProductSearch.SearchProducts | lib/actions/product.actions.ts:116-134 | The action rejects exactly when the query is not blank and is not a valid regular expression, or the database throws. Otherwise the database's products are returned with the pagination of the defaulted page and limit. |
| ProductSearch.RouteMatchesAction | app/api/search/route.ts:11-34 | A route request whose parameters are all present, with page and limit written as the decimal text of natural numbers, asks for exactly what `searchProducts` asks for when given the same values, and both fail on the same queries. |
| ProductSearch.RelatedProductsRequest | lib/actions/product.actions.ts:46-63 | A product matches exactly when it is published, in the category, and not the given product. The limit defaults to the page size. Skip is `(page - 1) * limit`, with page defaulting to 1. |
| ProductSearch.RelatedExcludesProduct | lib/actions/product.actions.ts:62 | The product being viewed never matches its own related-products query. |
| ProductSearch.RelatedProducts | lib/actions/product.actions.ts:64-72 | The database's products are returned. `totalPages` is `ceil(count / limit)`, so for a positive limit it bounds the count from both sides. |
| ProductSearch.FindBySlug | lib/actions/product.actions.ts:41 | The first published product with the slug, or none exactly when no stored product is published with it. |
| ProductSearch.GetProductBySlug | lib/actions/product.actions.ts:39-44 | The error "Product not found" is raised exactly when no published product has the slug. Otherwise a stored published product with that slug is returned. |
| LocationRoute.UpdateDoc | app/api/location/route.ts:11-37 | `isOnline` becomes `true` only when the field is absent; any given value, even `null` or `false`, is kept. The update carries the body's `userId`, `username`, `game` and `location`. `level` and `achievements` are set exactly when the body has them. `lastSeen` is the request time. |
| LocationRoute.Upsert | lib/db/models/user-location.model.ts:35-41 | Every field the update carries overwrites the stored one. An omitted `level` or `achievements` keeps its stored value. On insert it takes the schema default, `1` or an empty array. |
| LocationRoute.UpsertIdempotent | app/api/location/route.ts:21-38 | Applying the same update to its own result changes nothing. |
| LocationRoute.FullUpdateForgetsExisting | app/api/location/route.ts:21-38 | An update that carries `level` and `achievements` gives the same document whatever was stored before. |
| LocationRoute.Post | app/api/location/route.ts:6-48 | These outcomes are covered: <br>• A failed connection, an unparsable body or a `null` body answers 500. <br>• A body with a falsy `userId`, `username`, `game` or `location` answers 400 "Missing required fields". <br>• A complete body answers 200 when the update succeeds, and 500 "Failed to update location" when it throws. <br>• Only a 200 changes the store. It merges the update into the document under that `userId`, or creates it, and answers that document. Every other user's document is unchanged. |
| LocationRoute.ReadNearParams | app/api/location/route.ts:55-60 | A missing or empty `lat` or `lng` reads as 0, and a missing or empty `maxDistance` as 10. Any other value is `parseFloat` of the parameter text, so the decimal text of a natural number reads as that number. The game is present exactly when the parameter is. The online flag holds exactly when `onlineOnly` is the text `'true'`. |
| LocationRoute.NumberParam | app/api/location/route.ts:56-58 | `parseFloat` of a parameter with a whole-number fallback: a missing or empty parameter reads as the fallback, any other is `parseFloat` of its text, and the decimal text of a natural number reads as that number. |
| LocationRoute.FractionalCoordinatesAccepted | app/api/location/route.ts:56-88 | `lat=40.7128&lng=-74.0060` reads as 40.7128 and -74.006 and gives the query `[-74.006, 40.7128]` with a radius of 10000 metres. |
| LocationRoute.NonNumericCoordinateRejected | app/api/location/route.ts:56-67 | A latitude with no digit and no `I` reads as NaN and the request is rejected. |
| LocationRoute.BuildNearQuery | app/api/location/route.ts:62-88 | Turns the read parameters into the nearby-player query: <br>• No query results exactly when the latitude or longitude is falsy (zero or NaN). <br>• Coordinates are `[lng, lat]`. <br>• The radius in metres is 1000 times the kilometres. <br>• A game constraint is present exactly when a game other than `''` or `'all'` is given. <br>• `isOnline: true` is present exactly when only online players are asked for. |
| LocationRoute.EquatorRejected | app/api/location/route.ts:56-67 | A latitude or longitude of `"0"`, exactly on the equator or the prime meridian, is rejected. |
| LocationRoute.MissingCoordinateRejected | app/api/location/route.ts:56-67 | A request without a latitude or without a longitude is rejected. |
| LocationRoute.DefaultNearQuery | app/api/location/route.ts:56-88 | With only non-zero whole coordinates given as decimal text, negative (western or southern) ones included, the query is `[lng, lat]` with a radius of 10000 metres and no game or status constraint. |
| LocationRoute.NewestFifty | app/api/location/route.ts:91-93 | Returns the matching documents sorted newest first: <br>• There are `min(50, n)` of them, in non-increasing `lastSeen` order. <br>• They are drawn from the matches. <br>• Every match left out is no newer than any returned one. |
| LocationRoute.NewestPrefix | app/api/location/route.ts:91-93 | Any prefix of the documents sorted newest first is in non-increasing `lastSeen` order, is drawn from the documents, and is at least as new as every document it leaves out. |
| LocationRoute.Get | app/api/location/route.ts:51-107 | A failed connection answers 500. A falsy latitude or longitude answers 400 before any query. A query exception answers 500. Otherwise the answer is the newest fifty matches with their count. |
| ProductAddRoute.FirstMissing | app/api/product/add/route.ts:27-34 | Returns the index of the first falsy field in checking order, every earlier field being truthy; none exactly when all fields are truthy. |
| ProductAddRoute.AddProduct | app/api/product/add/route.ts:11-49 | Outcomes of the add-product route: <br>• Without `application/json` in the content type, the answer is 415 and the body is not inspected. <br>• An unparsable or `null` body answers 500 with the thrown message. <br>• A 400 is returned exactly when some required field is falsy; it names the first falsy one in the order name, price, images, userId. <br>• A 201 with `{ product }` is returned exactly when every check passes and creation succeeds. <br>• A creation failure answers 500 with the error's message, or "Failed to add product" for non-Error values. |
| ProductAddRoute.ZeroPriceIsMissing | app/api/product/add/route.ts:28 | A price of 0 after a truthy name is reported as the missing field `price`. |
| Sorting.SortBy | lib/map-utils.ts:80 | The sort returns a permutation of the input, non-decreasing in the key. |
| Sorting.SortedPrefixIsLeast | app/api/location/route.ts:92-93 | A prefix of a sorted permutation is drawn from the input. Every element left out has a key at least that of each kept one. |
| JsStrings.LowerStr | lib/map-utils.ts:52-55 | `toLowerCase` keeps the length and lower-cases each character. |
| JsStrings.LowerStrIdempotent | lib/map-utils.ts:52-55 | Lower-casing twice is lower-casing once. |
| JsStrings.IncludesIffOccurs | lib/map-utils.ts:54-55 | `includes` holds exactly when the needle occurs at some position of the haystack. |
| JsStrings.Trim | app/api/search/route.ts:27 | `trim` returns a middle slice of the string with only whitespace before and after it. It is empty exactly when the string is all whitespace. A non-empty result begins and ends with non-whitespace characters. |
| JsNumbers.CeilReal | app/api/search/route.ts:45 | `Math.ceil` returns the least integer not below its argument. |
| JsNumbers.Round | lib/map-utils.ts:91 | `Math.round` lands within half a unit of its argument. |
| JsNumbers.ParseInt | app/api/search/route.ts:14-15 | `parseInt` yields NaN or a whole number. |
| JsNumbers.ParseIntOfNatToString | app/api/search/route.ts:14-15 | `parseInt` of the decimal text of `n` is `n`. |
| JsNumbers.ParseIntWithoutDigits | app/api/search/route.ts:14-15 | Text containing no decimal digit parses to NaN. |
| JsNumbers.ParseIntLiterals | app/api/search/route.ts:14-15 | The default texts `'1'` and `'12'` read as 1 and 12. |
| JsNumbers.ParseIntDecimal | app/api/search/route.ts:14-15 | Leading whitespace, then an optional `+` or `-`, then decimal digits, then any text not starting with a digit, reads as the digits' value, negated after `-`. Leading zeros are allowed; `0x` and `0X` are excluded because they start hexadecimal. |
| JsNumbers.ParseIntIgnoresTrailingText | app/api/search/route.ts:14-15 | `'2abc'` reads as 2. |
| JsNumbers.ParseIntSignedWithSpace | app/api/search/route.ts:14-15 | `' -7'` reads as -7. |
| JsNumbers.ParseIntLeadingZeros | app/api/search/route.ts:14-15 | `'007'` reads as 7. |
| JsNumbers.ParseIntHexPrefix | app/api/search/route.ts:14-15 | `'0x1A'` reads as 26. |
| JsNumbers.NatToStringValue | lib/map-utils.ts:138 | The decimal text of `n` has value `n` (template-literal number formatting). |
| JsNumbers.NatToStringInjective | lib/map-utils.ts:138 | Different numbers have different decimal texts. |
| JsNumbers.ParseFloatOfNatToString | app/api/location/route.ts:56-58 | `parseFloat` of the decimal text of `n` is `n`. |
| JsNumbers.ParseFloatWhole | app/api/location/route.ts:56-58 | Leading whitespace, an optional sign, decimal digits (leading zeros allowed), then text that continues neither the digits, a fraction nor an exponent, reads as the value of the digits, negated after `-`. |
| JsNumbers.ParseFloatOfIntToString | app/api/location/route.ts:56-58 | `parseFloat` of the decimal text of any integer `n`, negative ones included, is `n`. |
| JsNumbers.ParseFloatWholeWesternLongitude | app/api/location/route.ts:57 | `"-74"` reads as -74. |
| JsNumbers.ParseFloatPaddedWhole | app/api/location/route.ts:56-58 | `"+007km"` reads as 7: the sign, the leading zeros and the trailing unit do not change the value. |
| JsNumbers.ParseFloatDecimal | app/api/location/route.ts:56-58 | Leading whitespace, an optional sign, digits, a point, digits (at least one digit in all), then text that continues neither the fraction nor an exponent, reads as `whole + fraction / 10^k`, negated after `-`. |
| JsNumbers.ParseFloatLatitude | app/api/location/route.ts:56 | `'40.7128'` reads as 40.7128. |
| JsNumbers.ParseFloatWesternLongitude | app/api/location/route.ts:57 | `'-74.0060'` reads as -74.006. |
| JsNumbers.ParseFloatWithoutDigits | app/api/location/route.ts:56-58 | Text with no decimal digit and no `I`, so no `Infinity`, reads as NaN. |
| JsNumbers.ParseFloatLiterals | app/api/location/route.ts:56-58 | The default texts `'0'` and `'10'` read as 0 and 10. |
| Json.Field | app/api/location/route.ts:11 | Reading a field of a non-null value is defined exactly when the value is an object holding that key, and then it is that key's value. |

## Left out

- `calculateDistance` (the Haversine formula) is not modelled because it is floating-point trigonometry. `MapUtils.CalculatePlayerDistances` takes the distance function as a parameter. No symmetry or range claim is made.
- `Math.random` is not called. Its draws are per-player inputs in [0, 1): the `Draw` and `PlacedDraw` records.
- In the component generator, the random angle and radius feed `Math.cos`/`Math.sin` and the Haversine distance. Their results (degree offsets and distance) are inputs to `PlayerMap.MockPlayer`.
- PlayerMap.GenerateMockPlayers: does not state the online flag or the `lastSeen` text. They follow the same rules as in `MapUtils.GenerateMockPlayers`, which states the online flag.
- MapUtils.FormatDistance: models the unit choice and the rounding of the metre branch, not the text. `toFixed(1)` of the kilometre branch is decimal formatting of doubles.
- The component's own `formatDistance` (`components/map/player-map.tsx:105-110`) is the same as the library's and is not modelled twice.
- `getUserLocation` is browser geolocation and is left out. The component's geolocation outcome is an input (`PlayerMap.Geolocation`).
- `components/map/map-component.tsx` is a Leaflet widget with DOM side effects and is left out. Note that the origin marker it adds at lines 120-123 is a different object from the one it tracks at lines 124-126.
- Realtime updates, uploads and presentation pages are I/O or UI and are not part of the model. This covers `lib/realtime.ts`, `lib/aws/s3.ts`, `app/api/upload/route.ts`, the product cards, the header, the search form and `lib/data.ts`.
- The search form's check of `data.success`, which the search route never sets, is UI and is not modelled.
- Mongoose is represented by what it returns. This covers:
  - regular-expression matching of the `$or` clause (whether a query is a valid regular expression is the `validPattern` input of the search functions; a failure of the database's own pattern engine is a `Threw` answer);
  - the `$near` selection;
  - `sort`, `skip` and `limit` in the search and related-product queries;
  - `countDocuments`;
  - the casting of `userId`, and the casting and validation of the location update against its schema;
  - the `_id`, `createdAt` and `updatedAt` fields of a stored location, and the `deviceInfo` nesting of the device fields.
  The nearby query's `sort({ lastSeen: -1 }).limit(50)` is modelled.
- In `searchProducts`, any database exception, from `connectToDatabase`, `find` or `countDocuments`, is a `Threw` answer and rejects. In `getRelatedProductsByCategory` and `getProductBySlug` no database exception is representable: a failure of `connectToDatabase`, `find`, `countDocuments` or `findOne` there is not modelled.
- The search route's `connectToDatabase` call is not modelled; a connection failure there is a `Threw` answer.
- `lib/constants` is not part of this model. `PAGE_SIZE` is the `pageSize` parameter of `ProductSearch.RelatedProductsRequest`.
- ProductSearch.SearchProductsRequest: takes page and limit as finite numbers. A caller passing NaN or Infinity to `searchProducts` directly is not modelled.
- `Player.location`, `Player.distance` and `Filters.maxDistance` are plain reals. A NaN or infinite distance, which a failed Haversine computation or a non-numeric ceiling could produce in JavaScript, is not representable, so the filter's behaviour on it is not modelled.
- Doubles are exact reals. Rounding of `*`, `/` and `(page - 1) * limit`, negative zero, and the precision loss of `parseInt` on very long digit strings are not modelled.
- JsNumbers.ParseFloat: the exponent path and `Infinity` are modelled, but no property is stated about them. The properties cover integers (optional whitespace, sign, leading zeros and a trailing non-numeric tail), decimals with a point, and text without digits.
- JsStrings.LowerStr: lower-cases ASCII letters only. Unicode case mapping is not modelled.
- Reply bodies are the values before `JSON.stringify`. On the wire, NaN and the infinities become `null`: `currentPage` for `?page=abc`, and `totalPages` for `?limit=0` or `?limit=abc`. The `success: true` flag of the location route's answers is not modelled.
- Header names are assumed to be already lower-cased, as `Headers.get` makes them case-insensitive.
- Sorting.SortBy: stability is not stated. The JavaScript sorts involved are stable, and the model's insertion sort is too.
- `minLevel` of `MapFilters` (types/map.ts) is never read by any filter and is not modelled.
- Listing-title search, a has-listings filter and a session cache keyed by a quantised origin appear nowhere in the code modelled here and are not modelled.

