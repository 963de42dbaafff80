# Bus tracker: route table, location store and client state

A Dafny model of the decision logic of a small bus-tracking system:

- **Route table** (`routes.dfy`, module `RouteData`): bus `BUS_001`'s morning trip is a literal list of 26 stops. Each stop is numbered with its index. The evening trip `BUS_001_EVE` is derived from it by reversing the stop list. Each evening stop takes its coordinates from the first morning stop of the same name and its time from an evening time table, or `"N/A"` when the name has no (truthy) entry.
- **Location store** (`server.dfy`, module `Server`): the backend keeps two tables keyed by bus id, routes and latest locations. At start-up every route is registered and seeded with a location at its first stop. A GPS sample is validated and its id upper-cased. The route's stops are scanned for the nearest one, first minimum winning. The status is `At Stop` when a stop is within 100 m, otherwise `Moving` or `Stopped` by speed. The sample then replaces that one table entry. The detail view joins the two tables into current stop, next stop, total stops and an ETA: whole minutes, `'Stopped'` or `'Unknown'`.
- **Client store** (`bus_context.dfy`, module `BusContext`): the reducer over `{buses, selectedBus, loading, error}`. Its five actions and the default case are modelled. The two fetch routines are modelled as the fixed action sequences they dispatch on success and on failure.
- **Search page** (`search_page.dfy`, module `SearchPage`): a search over trimmed, non-empty fields puts the new entry at the head of a most-recent-first history and keeps at most four older entries. Clicks on a recent search or on a suggested stop fill the fields.

The two backend tables are fields of the class `Server.Tracker`. Its constructor is the seeding loop and `PostLocation` is the table write. The proximity scan is the method `Server.NearestStop`, a loop proved against `IsFirstNearest`. The search form is the class `SearchPage.SearchForm`, whose methods assign the fields that the page's state setters set. Everything else is pure functions and lemmas.

The distance between two coordinates is a parameter of type `DistanceFn`. Any real-valued function of four reals that is never negative fits it, so every property holds for whatever distance the server computes. The server clock's timestamp is an opaque string parameter `now`.

The model follows the code as written. In particular:

- there is no choice between morning and evening variants per sample;
- the two trips are separate bus ids;
- there is no `Offline` status and no handling of a reported time;
- a sample for an id without a route is stored, not rejected;
- the numeric ETA has no 1-minute floor. It is nevertheless at least 1 whenever the distance to the next stop is positive, because it is a ceiling.

## Model

| member | source | states |
|---|---|---|
| `RouteData.Numbered` | backend/data/routes.js:4-31 | The morning stop list has one stop per literal entry, with the entry's name, coordinates and time, and `order` equal to its index. |
| `RouteData.Reverse` | backend/data/routes.js:67 | The reversed list has the same length, and element `i` is element `n-1-i` of the original. |
| `RouteData.Find` | backend/data/routes.js:69 | `find` by name gives nothing exactly when no stop has the name. Otherwise it gives the stop at the first index bearing the name. |
| `RouteData.EveningTime` | backend/data/routes.js:74 | The time is the table's entry when present and non-empty, and `"N/A"` otherwise. |
| `RouteData.EveningStops` | backend/data/routes.js:64-78 | The evening list is as long as the morning list. Stop `i` has `order == i`, the name of morning stop `n-1-i`, and the evening time looked up for that name. |
| `RouteData.EveningCoordinates` | backend/data/routes.js:67-73 | Evening stop `i` has the coordinates of the first morning stop with its name. When names are unique, these are morning stop `n-1-i`'s coordinates. |
| `RouteData.AllRoutes` | backend/data/routes.js:80 | The exported list is the morning route `BUS_001` then the evening route `BUS_001_EVE`. Each has 26 stops ordered by index. |
| `RouteData.MorningNamesUnique` | backend/data/routes.js:5-30 | The 26 morning stop names are pairwise distinct. |
| `RouteData.EveningMirrorsMorning` | backend/data/routes.js:64-78 | On the shipped data, evening stop `i` is morning stop `25-i`: same name and coordinates, with `order == i`. |
| `Server.ToUpper` | backend/server.js:161 | Upper-casing keeps the length, maps each character by itself, and leaves no lower-case ASCII letter. |
| `Server.ToUpperIdempotent` | backend/server.js:144 | Upper-casing an already upper-cased id changes nothing, so a GET with a stored id finds it. |
| `Server.NearestStop` | backend/server.js:164-176 | For a non-empty stop list, the index is in range, at minimum distance, and strictly closer than every earlier stop; the returned minimum is that stop's distance. For an empty list the index is 0 and the minimum stays Infinity. |
| `Server.ComputeUpdate` | backend/server.js:154-192 | A sample is rejected exactly when the id is missing or empty, or latitude or longitude is missing. An accepted one yields the record `IsUpdate` describes: upper-cased id, sample position, the speed when truthy and 0 otherwise, the first nearest stop on a known route and index 0 otherwise. Its status is `At Stop` exactly when the route exists and some stop is within 0.1 km; otherwise `Moving` exactly when speed > 0. |
| `Server.Tracker.PostLocation` | backend/server.js:154-203 | A rejected sample leaves the location table unchanged. An accepted one writes exactly the entry under its upper-cased id, leaving every other entry and the route table unchanged. The table invariant is kept. |
| `Server.StopAt` | backend/server.js:101-102 | Indexing the stop list gives the stop when the index is in range, and nothing otherwise. |
| `Server.Ceil` | backend/server.js:110 | The ceiling is the least integer not below its argument. |
| `Server.EtaFor` | backend/server.js:104-113 | The ETA is numeric exactly when a next stop exists and speed > 0. It is `'Stopped'` exactly when speed is 0, with or without a next stop, and `'Unknown'` otherwise. A numeric ETA is the ceiling of distance/speed·60, is ≥ 0, and is ≥ 1 when the distance is positive. |
| `Server.BusDetails` | backend/server.js:93-125 | The view is missing exactly when the location or the route is missing. Otherwise it holds the stored record, `stops[idx]` as current stop, `stops[idx+1]` as next stop (absent past the end), the stop count, the route name and the ETA rule. |
| `Server.Tracker.GetLocation` | backend/server.js:142-151 | A GET by id answers with the detail view under the upper-cased id, and with nothing (404) when either table lacks it. |
| `Server.Tracker.GetRoute` | backend/server.js:206-215 | A route GET answers with the route under the upper-cased id, and with nothing (404) when there is none. |
| `Server.RouteTable` | backend/server.js:68-69 | Every route-table entry sits under its own bus id and comes from the registered list. |
| `Server.RouteTableKeys` | backend/server.js:68-69 | Every registered id is a key of the route table. |
| `Server.RouteTableLastWins` | backend/server.js:68-69 | Under each id the table holds the last route registered with that id. |
| `Server.SeedLocations` | backend/server.js:70-78 | The seeded location table has exactly the route table's ids. |
| `Server.Tracker.constructor` | backend/server.js:67-79 | After start-up the route table is the registered list and each route has its seeded location. The table invariant holds. |
| `Server.UpdateKeepsTablesValid` | backend/server.js:194 | Writing an accepted sample keeps every entry under its own id and every stop index of a routed bus inside its route. |
| `Server.KnownBusHasCurrentStop` | backend/server.js:97-102 | Every bus with a route has a detail view whose current stop is the stop at its index. Its next stop is absent exactly at the last stop. |
| `Server.PostThenGet` | backend/server.js:142-194 | After an accepted sample for a routed bus, a GET by the device id as sent, or by the stored id, shows the stored record at the first nearest stop. Its ETA is `'Stopped'` when the sample's speed was missing or 0. |
| `Server.SeededDetails` | backend/server.js:68-79 | Right after start-up every registered bus shows its first stop's coordinates, speed 0, status `Stopped`, index 0, its first stop as current and ETA `'Stopped'`. |
| `Server.StartupTables` | backend/server.js:68-69 | Starting from the exported route list registers exactly `BUS_001` and `BUS_001_EVE`, each with stops. |
| `BusContext.Merge` | frontend/src/context/BusContext.tsx:75 | The merged bus shows every field the partial record carries and keeps every field it does not carry. Merging a record the bus already shows changes nothing. |
| `BusContext.MergeIdempotent` | frontend/src/context/BusContext.tsx:75 | Merging the same partial record twice is merging it once. |
| `BusContext.UpdateBuses` | frontend/src/context/BusContext.tsx:73-77 | The list keeps its length and order. Every bus with the id shows the partial record and keeps its other fields; every other bus is identical. |
| `BusContext.UpdateBusesIdempotent` | frontend/src/context/BusContext.tsx:73-77 | Repeating the same location update leaves the list as one update does, even when the update renames the bus. |
| `BusContext.UpdateUnknownIdKeepsBuses` | frontend/src/context/BusContext.tsx:73-77 | An update for an id no bus has leaves the list unchanged. |
| `BusContext.UpdateSelected` | frontend/src/context/BusContext.tsx:78-81 | The selected bus is merged only when its id matches. A null selection stays null, and a non-matching one is unchanged. |
| `BusContext.Reduce` | frontend/src/context/BusContext.tsx:62-91 | `SET_LOADING` changes only `loading`. `SET_BUSES` replaces the list and clears the error. `SET_SELECTED_BUS` changes only the selection. `SET_ERROR` sets the error and clears `loading`. `UPDATE_BUS_LOCATION` changes only the list and the selection. Any other action returns the state unchanged. |
| `BusContext.FetchBusesOutcome` | frontend/src/context/BusContext.tsx:96-107 | After the list fetch the store is not loading and the selection is untouched. On success the list is the fetched one and the error is cleared. On failure the list is kept and the error is "Failed to fetch buses". |
| `BusContext.FetchBusDetailsOutcome` | frontend/src/context/BusContext.tsx:109-120 | After the detail fetch the store is not loading and the list is untouched. On success the fetched bus is selected and an earlier error stays. On failure the selection is kept and the error is "Failed to fetch bus details". |
| `SearchPage.TrimStart` | frontend/src/pages/SearchPage.tsx:45-48 | The leading half of `trim`: the result is a suffix of the input, everything removed is white space (the set `String.prototype.trim` removes, as `IsSpace` lists it), and the result does not start with white space. So it removes the longest all-white-space prefix. |
| `SearchPage.TrimEnd` | frontend/src/pages/SearchPage.tsx:45-48 | The trailing half of `trim`: the result is a prefix of the input, everything removed is white space, and the result does not end with white space. So it removes the longest all-white-space suffix. `Trim` applies both. |
| `SearchPage.TrimEmptyIff` | frontend/src/pages/SearchPage.tsx:45 | A field trims to the empty string exactly when it is all white space. |
| `SearchPage.TrimIdempotent` | frontend/src/pages/SearchPage.tsx:46-48 | Trimming a trimmed field changes nothing. |
| `SearchPage.WithNewSearch` | frontend/src/pages/SearchPage.tsx:52 | The new history has the new entry at index 0 and length `1 + min(old length, 4)`, at most 5. Entries 1.. are the first old entries in their order. |
| `SearchPage.SearchKeepsHistoryRecorded` | frontend/src/pages/SearchPage.tsx:44-53 | A search records an entry whose fields are trimmed and non-empty. A history of such entries stays one. |
| `SearchPage.ReSearchRecorded` | frontend/src/pages/SearchPage.tsx:63-66 | Searching again with a recorded entry's values puts an entry with the same pair at the head of the history. |
| `SearchPage.SearchForm.HandleSearch` | frontend/src/pages/SearchPage.tsx:44-61 | A search leaves the history unchanged and does not navigate when either field trims to empty. Otherwise it records the trimmed pair with the time at the head of the history, and navigates with the untrimmed fields. The fields themselves are not changed. |
| `SearchPage.SearchForm.HandleRecentSearch` | frontend/src/pages/SearchPage.tsx:63-66 | Choosing a recent search sets both fields to its values and leaves the history unchanged. |
| `SearchPage.SearchForm.HandleStopClick` | frontend/src/pages/SearchPage.tsx:68-74 | A stop click sets only the named field. The other field and the history are unchanged. |
| `SearchPage.SearchForm.constructor` | frontend/src/pages/SearchPage.tsx:13-15 | The page starts with both fields empty and no history. |

## Left out

- Haversine formula (backend/server.js:54-63): floating-point trigonometry. The distance is any non-negative function, passed in as `DistanceFn`.
- Floating point in general: coordinates, speeds and distances are exact reals. `NaN`, `Infinity` inputs and rounding are not modelled. The initial `Infinity` of the nearest-stop scan is `None`.
- `parseFloat` and JSON typing: `lat`, `lon` and `speed` arrive as numbers or absent. `device_id` arrives as a string or absent. A non-string id, on which `toUpperCase` would throw, is not modelled. Speed truthiness is "present and non-zero".
- `Server.ToUpper`: maps only the ASCII letters a–z, because the bus ids are ASCII. JavaScript's full Unicode case mapping is not modelled.
- `Server.Tracker.constructor`: requires every registered route to have at least one stop. For a route with an empty stop list the start-up loop throws a TypeError at `route.stops[0].lat` (backend/server.js:72) and the server does not start; that crash is not modelled. `Server.StartupTables` shows the shipped route list meets the requirement. `Server.SeedLocation` and `Server.SeedLocations` carry the same requirement for the same reason.
- Timestamps (`new Date().toISOString()`): an opaque string parameter. Seeding uses one timestamp for all routes.
- Express wiring, middleware, the welcome and health endpoints, the 404 and 500 handlers, `app.listen`, `getLocalIP` and logging (backend/server.js:4-51, 83-90, 223-244): I/O plumbing.
- The list endpoints `GET /api/locations`, `GET /api/buses` and `GET /api/routes` (backend/server.js:25-28, 128-139, 218-221): they enumerate the tables in insertion order. The model's tables are unordered maps; the per-bus view they list is `Server.BusDetails`.
- The `driver` field of the detail view: no route defines one, so it is always undefined, and the model has no such field.
- Concurrency between requests: each handler runs to completion, and the model treats each as one atomic step.
- JavaScript object lookups of the evening time table: keys inherited from `Object.prototype` are not modelled. The table is a map from name to time.
- `RouteData.EveningMirrorsMorning`: does not state that every shipped evening stop has a time from the table, because checking 26 literal map lookups in one proof is too costly for the verifier. The general rule is stated by `RouteData.EveningStops` and `RouteData.EveningTime`.
- Building the evening route does not change the morning list: with value semantics this holds by construction, so no member states it.
- `BusContext`: a `Partial<Bus>` field that is present with the value `undefined` is not modelled. In JavaScript it would overwrite the field with `undefined`; the model treats it as absent.
- Asynchronous fetches, interleaving of concurrent fetches, `setInterval` polling and React context plumbing (frontend/src/context/BusContext.tsx:93-152): only the dispatch sequence of each fetch is modelled.
- `localStorage` loading and saving, `navigate` and `encodeURIComponent` on the search page: browser side effects. `HandleSearch` returns the untrimmed query it would navigate with.
- Rendering files, the HTTP service wrapper, localisation and the build configuration: no decision logic.
