# Transport plan creator — a verified model of its routing core

The system is a logistics dashboard. It stores warehouses, with stock per
product per month, and enterprises, with consumption per product per
month. For a chosen month it sends both lists to a route optimizer. The
optimizer greedily assigns each enterprise's needs to the nearest warehouse
that still has stock, and the proposed routes come back sorted by distance.
Two routing proxies (Yandex and 2GIS) turn a pair of endpoints into a road
path. When the provider has nothing usable they fall back to the straight
segment.

This project models that core in Dafny and proves what it promises:

- **The optimizer** (`backend/optimize-routes/index.py`) is in `optimizer.dfy`.
  `Allocate` is a ghost left fold that states the greedy allocation need by
  need. `OptimizeRoutes` keeps the source's loops (stock copy, nearest-warehouse
  scan, per-need shipping) and is proved equal to the sorted routes of that fold.
  The nested loops are split into small methods: `CopyStocks`,
  `NearestWarehouse`, `ServeNeed` and `ServeEnterprise`. `optimizer_properties.dfy`
  proves what the fold guarantees:
  - the nearest candidate is chosen, the earlier one on a tie;
  - a shipment never exceeds the need or the remaining stock;
  - stock is conserved and never driven below zero;
  - every route answers a listed need;
  - each (enterprise, product) pair is shipped at most once.

  The sort is in `route_sort.dfy`, proved sorted, a permutation and stable.
- **The request builder** (`src/components/RouteOptimization.tsx`) is in
  `route_optimization.dfy`. Two functions give the stocks and needs objects for
  the selected month, and the `forEach` loops are methods proved equal to them.
  Lemmas characterise those objects:
  - the first record of the month is used;
  - a product without a record is absent, not zero;
  - the last product of a name wins;
  - keys keep the order of their first assignment;
  - a warehouse product without a series makes the whole request fail.

  The component is a class (`RouteOptimizer`) whose `HandleOptimize` takes the
  stored lists and the optimizer endpoint as inputs. JavaScript object
  assignment and `parseInt` are modelled in `payload.dfy` and `js_number.dfy`,
  with the differences listed under "Left out".
- **The form editors** (`MonthlyStockManager.tsx`, `MonthlyConsumptionManager.tsx`,
  `WarehouseFormDialog.tsx`) are in `monthly_series.dfy`, `warehouse_form.dfy`
  and `lists.dfy`. Their records are objects that the editors change in place,
  so they are classes. The update methods say which object changes and to what,
  and state that the list keeps the same objects.
- **Vehicle deletion** (`VehiclePanel.tsx`) is in `vehicle_panel.dfy`.
- **The routing proxies** (`backend/yandex-route/index.py`,
  `backend/dgis-route/index.py`) are in `route_proxy.dfy` (checks and fallback
  shared by both), `yandex_route.dfy` and `dgis_route.dfy`. The provider's
  answer is an input: either the message of a failed call or the decoded JSON.
  The flattening loops are proved equal to folds; Yandex's three nested
  loops are split into `ExtractRoute`, `AppendLeg` and `AppendStep`. The `fallback` flag is proved
  true exactly when no point was extracted.

Some facts about the code that the model follows:

- The optimization request carries `month`, `warehouses` and `enterprises` only. No `vehicles` list is sent.
- The returned routes are kept in the component's state. They are not written back to storage.
- The optimizer is the repository's own backend function, and it is modelled here.
- The routing proxies accept POST only. A request without a method counts as GET and is refused with 405.

## Model

| member | source | states |
|---|---|---|
| Lists.RemoveAt | src/components/warehouse/MonthlyStockManager.tsx:46-48 | removing an index in range leaves the list without exactly that element, in order; an index out of range leaves the list unchanged |
| Lists.RemoveAtShifts | src/components/enterprise/MonthlyConsumptionManager.tsx:47-49 | after removal, the elements before the index stay in place, those after move one left, and the length drops by one |
| Lists.RemoveAtMultiset | src/components/warehouse/WarehouseFormDialog.tsx:71-73 | removal takes away exactly one occurrence of the element at that index and nothing else |
| JsNumber.TrimStartDrops | src/components/warehouse/MonthlyStockManager.tsx:55 | `parseInt` reads its input with exactly the leading ECMAScript white space removed: what it keeps is a suffix of the input, and everything dropped is white space |
| JsNumber.TrimStart | src/components/warehouse/MonthlyStockManager.tsx:55 | the text kept does not start with white space (the rest of its meaning is TrimStartDrops) |
| JsNumber.DigitRunSpec | src/components/warehouse/MonthlyStockManager.tsx:55 | `parseInt` reads the longest prefix of digits of the radix: all of it is digits and the next character is not |
| JsNumber.ParseInt | src/components/warehouse/MonthlyStockManager.tsx:55 | `parseInt(value)` with no radix: white space, one sign, an optional `0x`, then the longest digit run, or NaN (None). A function that only computes, characterised by ParseIntRoundTrip, ParseIntReadsDecimal, ParseIntSkipsWhiteSpace, ParseIntHex and CoerceNoDigits |
| JsNumber.Coerce | src/components/enterprise/MonthlyConsumptionManager.tsx:56 | `typeof value === 'string' ? parseInt(value) \|\| 0 : value`. A function that only computes, characterised by ParseIntRoundTrip (which states Coerce of a rendering) and CoerceNoDigits |
| JsNumber.ParseIntRoundTrip | src/components/warehouse/MonthlyStockManager.tsx:55 | typing the decimal rendering of any integer stores that integer: `parseInt(String(n)) == n` |
| JsNumber.ParseIntReadsDecimal | src/components/enterprise/MonthlyConsumptionManager.tsx:56 | a decimal integer followed by text that cannot continue it is read as that integer |
| JsNumber.ParseIntSkipsWhiteSpace | src/components/enterprise/MonthlyConsumptionManager.tsx:56 | leading white space never changes what `parseInt` reads |
| JsNumber.CoerceNoDigits | src/components/enterprise/MonthlyConsumptionManager.tsx:56 | text with no number where one must start gives NaN, which `\|\| 0` turns into 0 |
| JsNumber.ParseIntHex | src/components/warehouse/MonthlyStockManager.tsx:55 | for any non-empty run of hexadecimal digits after `0x`, followed by text that cannot extend it, `parseInt` reads the run in radix 16 |
| JsNumber.ParseIntTrailingText | src/components/warehouse/MonthlyStockManager.tsx:55 | leading blanks are skipped, one sign is taken and trailing text is ignored ("  -12kg" is -12) |
| MonthlySeries.MonthsAreTwelveDistinctLabels | src/components/enterprise/MonthlyConsumptionManager.tsx:28-32 | the month selector offers twelve distinct labels, the first being "Январь 2025" |
| MonthlySeries.AddMonth | src/components/warehouse/MonthlyStockManager.tsx:42-44 | `addMonth` keeps every existing record and appends one new record for the first month with volume 0 |
| MonthlySeries.Edited | src/components/enterprise/MonthlyConsumptionManager.tsx:53-57 | a month edit replaces the label and keeps the volume; a volume edit keeps the label and stores the number, or the text coerced by `parseInt(...) \|\| 0` |
| MonthlySeries.UpdateMonth | src/components/warehouse/MonthlyStockManager.tsx:50-58 | `updateMonth` hands back the same record objects; exactly the record at the index changes, as `Edited` says; an index out of range throws (None) |
| WarehouseForm.AddProduct | src/components/warehouse/WarehouseFormDialog.tsx:64-69 | `addProduct` keeps every product and appends a new one with an empty name and an empty series |
| WarehouseForm.UpdateProduct | src/components/warehouse/WarehouseFormDialog.tsx:75-83 | `updateProduct` hands back the same product objects; only the chosen field of the product at the index changes; an index out of range throws (None) |
| VehiclePanel.WithoutId | src/components/VehiclePanel.tsx:67 | the filtered fleet holds exactly the vehicles whose id differs from the deleted one |
| VehiclePanel.WithoutIdDistributes | src/components/VehiclePanel.tsx:67 | the filter keeps relative order: it distributes over concatenation |
| VehiclePanel.WithoutAbsentId | src/components/VehiclePanel.tsx:67 | deleting an id no vehicle carries leaves the fleet unchanged |
| VehiclePanel.WithoutIdCount | src/components/VehiclePanel.tsx:67 | the fleet shrinks by exactly the number of vehicles carrying the id |
| VehiclePanel.Panel.AskDelete | src/components/VehiclePanel.tsx:188 | the delete button records the vehicle's id as pending and changes nothing else |
| VehiclePanel.Panel.CancelDelete | src/components/VehiclePanel.tsx:202 | closing the dialog clears the pending id and keeps the fleet |
| VehiclePanel.Panel.HandleDelete | src/components/VehiclePanel.tsx:65-74 | with a truthy pending id, every vehicle with that id is removed, the user is notified and the dialog closes; with none or 0 pending, nothing changes |
| Payload.Lookup | src/components/RouteOptimization.tsx:68 | reading back a key of a needs object, the observer the assignment lemmas are stated with: absent exactly when no entry has that key, otherwise the value of its entry |
| Payload.Put | src/components/RouteOptimization.tsx:68 | assigning a key of a JavaScript object keeps every existing key at its position and adds at most one entry |
| Payload.PutLength | src/components/RouteOptimization.tsx:68 | assigning an existing key keeps the number of entries; a new key adds exactly one |
| Payload.PutAppends | src/components/RouteOptimization.tsx:68 | a key the object does not have is appended after every existing entry |
| Payload.PutKeys | src/components/RouteOptimization.tsx:68 | after an assignment the keys are the old ones plus the assigned one |
| Payload.PutLookup | src/components/RouteOptimization.tsx:68 | after an assignment the key reads the new value and every other key reads what it read before |
| Payload.PutDistinct | src/components/RouteOptimization.tsx:68 | assignment never makes a key appear twice |
| RouteSort.Insert | backend/optimize-routes/index.py:136 | one insertion step of the sort adds exactly the inserted route |
| RouteSort.InsertMembers | backend/optimize-routes/index.py:136 | an insertion step introduces no route other than the inserted one |
| RouteSort.InsertSorted | backend/optimize-routes/index.py:136 | an insertion step keeps a list sorted by distance |
| RouteSort.SortByDistance | backend/optimize-routes/index.py:136 | the routes come out in ascending distance and form a permutation of the input |
| RouteSort.InsertKeepsTies | backend/optimize-routes/index.py:136 | an insertion step places the new route ahead of the routes at the same distance |
| RouteSort.SortIsStable | backend/optimize-routes/index.py:136 | the sort is stable: for every distance, the routes at that distance keep their original order |
| Optimizer.Distance | backend/optimize-routes/index.py:62-65 | a missing or zero coordinate on either side gives the 999999.0 distance |
| Optimizer.Withdraw | backend/optimize-routes/index.py:134 | shipping lowers exactly one (warehouse id, product) stock cell by the shipped volume |
| Optimizer.InitialTable | backend/optimize-routes/index.py:90-92 | the working table has a row for every warehouse id |
| Optimizer.InitialTableLast | backend/optimize-routes/index.py:90-92 | a warehouse id's row holds the stocks of the last warehouse listed with that id |
| Optimizer.CopyStocks | backend/optimize-routes/index.py:90-92 | the copy loop builds the working table of the request |
| Optimizer.Nearest | backend/optimize-routes/index.py:101-119 | the scan finds no warehouse exactly when none has the product left; otherwise it finds one with stock at minimal distance, the earliest listed on a tie |
| Optimizer.NearestWarehouse | backend/optimize-routes/index.py:104-119 | the scanning loop finds the warehouse `Nearest` specifies |
| Optimizer.NeedDemands | backend/optimize-routes/index.py:95-97 | an enterprise's needs are visited in their listed order, with their volumes |
| Optimizer.RoutesOf | backend/optimize-routes/index.py:125-132 | the routes list holds one route per shipment, in shipping order |
| Optimizer.Serve | backend/optimize-routes/index.py:97-134 | one need: skipped when not positive or when no warehouse has stock, otherwise `min(need, available)` from the nearest warehouse, one route appended and that stock lowered. Characterised by ServeSkips, ServeShips and ServeNeed |
| Optimizer.Allocate | backend/optimize-routes/index.py:94-134 | the greedy loop over all needs, one Serve step each, in order. Characterised by AllocateConserves, AllocateAnswers, AllocateOnePerPair and ServeEnterprise |
| Optimizer.Plan | backend/optimize-routes/index.py:88-134 | the allocation of a whole request, from the copied stock table. Characterised by PlanWithinStock, PlanAnswersNeeds, PlanOnePerPair and OptimizeRoutes |
| Optimizer.ServeNeed | backend/optimize-routes/index.py:98-134 | serving one need is one step of the allocation fold: at most one route is appended |
| Optimizer.ServeEnterprise | backend/optimize-routes/index.py:97-134 | the loop over one enterprise's needs advances the allocation fold over exactly those needs |
| Optimizer.OptimizeRoutes | backend/optimize-routes/index.py:80-138 | the routes are the greedy allocation's routes, sorted by distance: sorted, and a permutation of them |
| Optimizer.Handler | backend/optimize-routes/index.py:11-59 | a preflight gets 200 with no body, a method other than POST gets 405, and missing warehouses or enterprises get 400; otherwise the reply is 200 with the month, the optimized routes and their count |
| OptimizerProperties.ServeSkips | backend/optimize-routes/index.py:98-99 | a need that is not positive, or that no warehouse can supply, adds no route and changes no stock |
| OptimizerProperties.ServeShips | backend/optimize-routes/index.py:121-134 | otherwise exactly one route is added, from the nearest warehouse with stock (the first on a tie), carrying min(need, stock) > 0; that cell drops by the volume and stays non-negative, and no other cell changes |
| OptimizerProperties.AllocateConserves | backend/optimize-routes/index.py:134 | for every cell, what remains plus what was shipped equals what it started with, and a cell that was drawn on is non-negative |
| OptimizerProperties.PlanWithinStock | backend/optimize-routes/index.py:122-134 | nothing ships more of a product from a warehouse id than that id held, and remaining stock never grows |
| OptimizerProperties.ShippedNonNegative | backend/optimize-routes/index.py:123 | with positive route volumes, the shipped total of every cell is non-negative |
| OptimizerProperties.AllocateAnswers | backend/optimize-routes/index.py:121-132 | every route has a positive volume and answers one of the needs: the same enterprise and product, from a listed warehouse |
| OptimizerProperties.DemandsFromRequest | backend/optimize-routes/index.py:94-97 | every visited need is an entry of the needs of the enterprise it names |
| OptimizerProperties.DemandsDistinct | backend/optimize-routes/index.py:95-97 | since a needs object has no repeated key, no two needs share an enterprise and a product |
| OptimizerProperties.AllocateOnePerPair | backend/optimize-routes/index.py:97-134 | with distinct needs, no two routes serve the same enterprise and product |
| OptimizerProperties.PlanAnswersNeeds | backend/optimize-routes/index.py:125-132 | every route of the plan goes to an enterprise of the request, for a product it needs, with a positive volume no larger than the need |
| OptimizerProperties.PlanOnePerPair | backend/optimize-routes/index.py:94-134 | each (enterprise, product) pair gets at most one route |
| RouteOptimization.FindMonth | src/components/RouteOptimization.tsx:47 | the lookup finds no volume exactly when no record has the month, and otherwise the volume of the first record that has it |
| RouteOptimization.StocksFor | src/components/RouteOptimization.tsx:45-51 | the stocks object the `forEach` callback builds, or a failure when it throws. A fold that only computes, characterised by StocksForFails, StocksForKeys, StocksForLastWins and StocksFailurePersists |
| RouteOptimization.StocksForFails | src/components/RouteOptimization.tsx:44-51 | building a warehouse's stocks throws exactly when one of its products has no monthly series |
| RouteOptimization.StocksForKeys | src/components/RouteOptimization.tsx:46-50 | the stocks object has a key exactly for the products with a record for the month; a product without one is absent, not 0 |
| RouteOptimization.StocksForLastWins | src/components/RouteOptimization.tsx:49 | each key holds the volume of the last product of that name with a record for the month |
| RouteOptimization.StocksFailurePersists | src/components/RouteOptimization.tsx:46-47 | once a product has thrown, the whole stocks object fails |
| RouteOptimization.MonthlyStocks | src/components/RouteOptimization.tsx:45-51 | the `forEach` loop over a warehouse's products builds the stocks object |
| RouteOptimization.NeedsOf | src/components/RouteOptimization.tsx:65-70 | the needs object the `forEach` callback builds by JavaScript assignment. A fold that only computes, characterised by NeedsOfKeyOrder, NeedsOfKeys and NeedsOfLastWins |
| RouteOptimization.NeedsFor | src/components/RouteOptimization.tsx:63-71 | a missing `consumed` list gives `{}`, otherwise NeedsOf. Characterised by MonthlyNeeds, which the loop is proved equal to |
| RouteOptimization.KeySeqPut | src/components/RouteOptimization.tsx:68 | an assignment appends a new key to the key order and leaves the order as it was for an existing key |
| RouteOptimization.NeedsOfKeyOrder | src/components/RouteOptimization.tsx:63-71 | the needs object has no key twice, and its keys are the contributing products in the order each was first listed |
| RouteOptimization.NeedsOfKeys | src/components/RouteOptimization.tsx:64-70 | the needs object has a key exactly for the consumed products with a record for the month |
| RouteOptimization.NeedsOfLastWins | src/components/RouteOptimization.tsx:68 | each key holds the volume of the last consumed product of that name with a record for the month |
| RouteOptimization.MonthlyNeeds | src/components/RouteOptimization.tsx:63-71 | the loop over the consumed products builds the needs object; an enterprise with nothing consumed needs nothing |
| RouteOptimization.WarehousesPayload | src/components/RouteOptimization.tsx:44-60 | the warehouse list fails exactly when one warehouse throws; otherwise it has one entry per warehouse, in order |
| RouteOptimization.EnterprisesPayload | src/components/RouteOptimization.tsx:62-80 | the enterprise list has one entry per enterprise, in order |
| RouteOptimization.WarehouseStocks | src/components/RouteOptimization.tsx:44-59 | one warehouse's entry: its id, name, location and coordinates with the stocks of the month, or a failure. Characterised by WarehousesPayload and RequestForSpec |
| RouteOptimization.EnterpriseNeeds | src/components/RouteOptimization.tsx:62-79 | one enterprise's entry: its id, name, location and coordinates with the needs of the month. Characterised by EnterprisesPayload and RequestForSpec |
| RouteOptimization.RequestFor | src/components/RouteOptimization.tsx:44-89 | the JSON body `{month, warehouses, enterprises}`, or a failure when a `map` throws. Characterised by RequestForSpec and HandleOptimize |
| RouteOptimization.RequestForSpec | src/components/RouteOptimization.tsx:44-89 | a request is built exactly when every warehouse lists its products and every product has a series; it carries the selected month and copies each id, name, location and pair of coordinates in order; no needs object repeats a key |
| RouteOptimization.BuildWarehouses | src/components/RouteOptimization.tsx:44-60 | the `warehouses.map` loop builds the warehouse list or stops at the first warehouse that throws |
| RouteOptimization.BuildEnterprises | src/components/RouteOptimization.tsx:62-80 | the `enterprises.map` loop builds the enterprise list |
| RouteOptimization.RouteOptimizer.constructor | src/components/RouteOptimization.tsx:17-19 | the screen starts on "Январь 2025", not calculating, with no routes |
| RouteOptimization.RouteOptimizer.SelectMonth | src/components/RouteOptimization.tsx:131 | choosing a month changes only the selected month |
| RouteOptimization.RouteOptimizer.HandleOptimize | src/components/RouteOptimization.tsx:27-112 | with no warehouses or no enterprises, nothing is sent and a warning is shown; otherwise the request for the selected month is sent if it can be built; an OK reply sets the routes to the returned ones (or none) and reports their count; any other outcome keeps the routes and reports an error; calculation is off at the end on every path |
| RouteProxy.Endpoints | backend/yandex-route/index.py:73 | the straight segment runs from the origin to the destination |
| RouteProxy.Precheck | backend/yandex-route/index.py:13-57 | a preflight gets 200 with an empty body; a method other than POST (or none) gets 405; a missing or empty key gets 500; a missing or zero coordinate gets 400; only a POST with a key and four coordinates goes on |
| RouteProxy.Fallback | backend/dgis-route/index.py:66-76 | a fallback answer is 200 with the straight segment, distance 0 and the fallback flag set |
| RouteProxy.Answer | backend/dgis-route/index.py:88-97 | the answer is flagged as a fallback exactly when no point was extracted, and then shows the straight segment instead; the path is never empty |
| YandexRoute.StepPointsSwapped | backend/yandex-route/index.py:86-88 | a step contributes each polyline point swapped from `[lng, lat]` to `[lat, lng]`, in order, and nothing without a polyline |
| YandexRoute.StepsPointsAppend | backend/yandex-route/index.py:85-88 | flattening steps distributes over concatenation |
| YandexRoute.LegsPointsAppend | backend/yandex-route/index.py:84-88 | flattening legs distributes over concatenation |
| YandexRoute.LegsDistanceAppend | backend/yandex-route/index.py:89 | the distance sum distributes over concatenation of legs |
| YandexRoute.LegsPoints | backend/yandex-route/index.py:81-88 | the flattened, swapped polyline points of all legs, in order. Characterised by LegsPointsAppend, LegsPointsMembers, NoPointsIffNoPolyline and ExtractRoute |
| YandexRoute.LegsDistance | backend/yandex-route/index.py:89 | the sum of the legs' distances, a missing one counting 0. Characterised by LegsDistanceAppend and ExtractRoute |
| YandexRoute.StepsPointsMembers | backend/yandex-route/index.py:85-88 | a flattened point comes from one of the steps, and every step's points are flattened |
| YandexRoute.LegsPointsMembers | backend/yandex-route/index.py:84-88 | an extracted point comes from one of the legs, and the points of every leg are extracted |
| YandexRoute.NoPointsIffNoPolyline | backend/yandex-route/index.py:95-97 | no point is extracted, so the answer is a fallback, exactly when no step of any leg has a polyline point |
| YandexRoute.AppendStep | backend/yandex-route/index.py:86-88 | the innermost loop appends one step's swapped points |
| YandexRoute.AppendLeg | backend/yandex-route/index.py:85-88 | the loop over a leg's steps appends that leg's flattened points |
| YandexRoute.ExtractRoute | backend/yandex-route/index.py:81-89 | the loop over the legs extracts the flattened points and the summed leg distance, a missing value counting as 0 |
| YandexRoute.Handler | backend/yandex-route/index.py:7-114 | rejected requests get the check's answer; a failed call, or a reply without route legs, gives the straight-segment fallback (with the error message for a failed call); otherwise 200 with the extracted points (or the segment when there are none), fallback exactly when there are none, and the distance in km |
| DgisRoute.ManeuverPointsInPlace | backend/dgis-route/index.py:84-86 | a maneuver contributes its geometry points as `[lat, lon]`, in order, and nothing without a geometry |
| DgisRoute.PathPointsAppend | backend/dgis-route/index.py:83-86 | flattening maneuvers distributes over concatenation |
| DgisRoute.PathPoints | backend/dgis-route/index.py:82-86 | the flattened geometry points of all maneuvers, in order. Characterised by PathPointsAppend, PathPointsMembers, NoPointsIffNoGeometry and ExtractPath |
| DgisRoute.PathPointsMembers | backend/dgis-route/index.py:83-86 | an extracted point is a geometry point of some maneuver, and every such point is extracted |
| DgisRoute.NoPointsIffNoGeometry | backend/dgis-route/index.py:92-95 | no point is extracted, so the answer is a fallback, exactly when no maneuver has a geometry point |
| DgisRoute.ExtractPath | backend/dgis-route/index.py:82-86 | the loop over the maneuvers extracts the flattened points |
| DgisRoute.Handler | backend/dgis-route/index.py:6-112 | rejected requests get the check's answer; a failed call, or a missing or empty result, gives the straight-segment fallback; otherwise only the first route is used: 200 with its points (or the segment), fallback exactly when there are none, its distance in km and its duration |

## Left out

- I/O is replaced by parameters. This covers local storage, `fetch`, the optimizer and provider HTTP calls, environment variables, toasts and console logging. `HandleOptimize` takes the stored lists and the endpoint as inputs. The proxy handlers take the API key and the provider's reply.
- Optimizer.Distance: the haversine formula and its rounding to 2 decimals are a parameter of the model. Only the missing-coordinate sentinel is fixed.
- DgisRoute.Handler: the distance is reported unrounded, without `round(..., 1)` on floats.
- Numbers are exact reals and unbounded integers. Floating-point rounding is not modelled.
- JsNumber.ParseInt: returns exact integers, whereas JavaScript loses precision above 2^53.
- Payload.Put: JavaScript lists integer-like keys (such as "12") first, in ascending order. This model appends every new key instead.
- HTTP headers (CORS, content type) and `isBase64Encoded` are not modelled.
- A request body that is not JSON is not modelled. It raises outside any handler's `try`.
- Malformed provider replies are not modelled. These are a polyline without `points`, a point with fewer than two numbers, and a geometry point without `lat`/`lon`. Each raises inside the `try` and ends in the fallback with an error message, but the reply types here cannot express them.
- Coordinates are optional numbers. Python truthiness of other JSON values (strings, lists) in `all([...])` is not modelled.
- A route's `reason` text is modelled by its only data, `available`, the warehouse's stock before the delivery.
- The `isCalculating` flag is modelled only in its final state. The moment it is true during the call cannot be observed here.
- Rendering, the other panels, Excel import, `MapView.tsx` and `backend/osrm-route/index.py` are not part of this model.
- Records of unexpected shape are not modelled. Examples are a consumed product that is `null` or a volume that is not a number.
