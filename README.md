# Road-hazard front end: a Dafny model of the live stream and the hazard map

This project models the two components of the road-hazard detection web
client that hold its logic.

**LiveMode** (the live-stream page) covers:
- the WebSocket connection manager: connecting, tearing the old socket down, reconnecting with capped exponential back-off;
- the classification of inbound messages and the session fields telemetry writes;
- the hazard-alert debounce: instant raise, delayed clear after 3000 ms;
- painting decoded frames onto the canvas, and the one-second FPS counter;
- the guard that sends a GPS fix only over an open socket;
- the file-type check of the video upload.

**PotholeMap** (the hazard map page) covers:
- the location-validity filter that decides which reports get a marker;
- the heat-map points;
- the stats-card counts and the ten-item report list;
- the route planner: the start and end searches, "use current location", and clearing the route, with the route markers kept at most one per kind.

Modules:
- `Backoff`: the reconnect delay.
- `Protocol`: message kinds and the session fields they update.
- `AlertDebounce`: the alert state machine, with lemmas over whole event traces.
- `Frames`: paint and FPS.
- `UploadCheck`: the MIME-type and extension test.
- `LiveStream`: the `LiveMode` component as a class.
  - Its refs and state are fields; its handlers are methods.
  - Each handler is proved against the pure functions of the modules above.
  - It also has a `Socket` class, so the handlers of replaced sockets can be told apart from the current one's.
- `Reports`: the report filters and counts.
- `RouteMap`: the `PotholeMap` component as a class.
  - The planner is specified by the pure functions `Placed` and `PlacedFresh`.

Things the outside world supplies become parameters: the browser, the network, Leaflet, geocoding, geolocation, JSON parsing, image decoding, clocks and `Math.random`. Examples:
- the parse outcome travels with a text payload;
- the decode outcome is an `Option<Bitmap>`;
- the jitter is an integer in [0, 500].

React state read inside a handler is the value from the render that created the handler. The model keeps that staleness where the code has it:
- `onopen` is created in the mount render, so the location it reads is the one from mount.
- A route search is two steps. The click (`BeginSearch`) trims the input and returns the planner of that render. The continuation after the geocoding await (`HandleStartSearch`, `HandleEndSearch`, and `HandleUseCurrentLocation` for the geolocation callback) takes that snapshot as `seen`. The setters and the marker ref act on the current state. The test of the other point and `calculateRoute` read `seen`. So searches that overlap are modelled as the code runs them.

Behaviours of the code that the model keeps as they are:
- The retry counter is never reset when a socket opens. Each reconnect passes `retry + 1`, and the delay keeps growing until the cap.
- A telemetry object without `driver_lane_hazard_count` stores `undefined` as the count (`laneCount == None`). The alert treats it like 0, because `undefined > 0` is false.
- `hazardDetected` becomes the object `{type: hazard_type}` on every telemetry message, even when the type is absent.
- The jitter `Math.random() * 500` is added before `Math.round`. With an integer base the delay therefore reaches the upper end inclusively: the retry-3 delay lies in [8000, 8500].
- From retry 5 on, the cap applies: the delay is 30000 ms, below `1000 * 2^min(r, 6)`.

## Model

| member | source | states |
|---|---|---|
| Backoff.ReconnectDelay | project/frontend/src/components/LiveMode.jsx:231-234 | the delay lies in [1000, 30000] ms; it is either the cap or exactly base·2^min(retry,6) plus the jitter, and never more than that |
| Backoff.DelayUncapped | project/frontend/src/components/LiveMode.jsx:234 | for retry ≤ 4 the cap is never reached: the delay is 1000·2^retry + jitter |
| Backoff.DelaySaturates | project/frontend/src/components/LiveMode.jsx:234 | for retry ≥ 5 the delay is the 30000 ms cap, whatever the jitter |
| Backoff.DelayMonotone | project/frontend/src/components/LiveMode.jsx:234 | with equal jitter, a later retry never waits less |
| Backoff.DelayAtThirdRetry | project/frontend/src/components/LiveMode.jsx:234 | a close with retry = 3 waits 8000 ms plus the jitter, within [8000, 8500] |
| Protocol.Classify | project/frontend/src/components/LiveMode.jsx:109-114 | each message kind holds exactly when its condition holds: keepalive iff the text is "ping"; telemetry iff other text that parses; malformed iff other text that fails to parse; frame iff binary |
| Protocol.ApplyTelemetry | project/frontend/src/components/LiveMode.jsx:115-127 | hazard flag, lane count and distances always come from the same record (absent distances give []); the mode changes only for a non-empty mode; the progress changes only when present |
| Protocol.OnMessage | project/frontend/src/components/LiveMode.jsx:109-127 | keepalives, parse failures and non-text payloads leave the session unchanged; a parsed record updates it |
| Protocol.ApplyIdempotent | project/frontend/src/components/LiveMode.jsx:115-127 | applying the same record twice equals applying it once |
| Protocol.LatestRecordWins | project/frontend/src/components/LiveMode.jsx:115-119 | after any sequence of records, count, distances and hazard all come from the last record, so the count and distances are never mixed from two messages |
| Protocol.ModeStableWithoutModeField | project/frontend/src/components/LiveMode.jsx:120-122 | records without a non-empty mode never change the mode |
| Protocol.TwoHazardsScenario | project/frontend/src/components/LiveMode.jsx:115-119 | the message with count 2 and distances [5.1, 12.3] sets exactly those and keeps the mode |
| AlertDebounce.OnTelemetry | project/frontend/src/components/LiveMode.jsx:129-160 | a positive count raises the warning and cancels the clear timer, adding a toast only if none is up; a zero, negative or missing count never lowers the warning, arms a timer 3000 ms out only if none is pending, and never moves a pending one; one toast per active warning is preserved |
| AlertDebounce.OnTimerFire | project/frontend/src/components/LiveMode.jsx:156-166 | the fired timer dismisses the warning and its toast and frees the timer slot; from a consistent state the result is idle |
| AlertDebounce.ClearOnlyAfterQuietPeriod | project/frontend/src/components/LiveMode.jsx:129-166 | hysteresis: a raised warning is lowered only after a quiet message at t0, then no positive count until the clear timer fires at t ≥ t0 + 3000 |
| AlertDebounce.PendingClear | project/frontend/src/components/LiveMode.jsx:129-166 | with a clear pending at d, the warning goes down only when the timer fires at or after d with no positive count before it, or after a later quiet period |
| AlertDebounce.QuietRunKeepsDeadline | project/frontend/src/components/LiveMode.jsx:154-156 | repeated quiet messages neither re-arm nor extend a pending clear |
| AlertDebounce.DeadlineFromFirstQuiet | project/frontend/src/components/LiveMode.jsx:154-166 | after a run of quiet messages the clear is due 3000 ms after the first of them |
| AlertDebounce.AtMostOneWarning | project/frontend/src/components/LiveMode.jsx:129-160 | over any event trace at most one warning toast is on screen, and only while the warning is active |
| AlertDebounce.NonzeroBeforeDeadlineResets | project/frontend/src/components/LiveMode.jsx:129-157 | a non-zero count 2999 ms after a zero cancels the clear; the next zero starts a fresh 3000 ms |
| Frames.Paint | project/frontend/src/components/LiveMode.jsx:183-217 | a failed decode changes nothing; a paint gives the canvas the bitmap's size; a paint a full window after the window start publishes the window's count, this paint included, and resets the window; otherwise it only counts |
| Frames.WithinWindow | project/frontend/src/components/LiveMode.jsx:190-198 | within one window the counter grows by exactly the successful paints and nothing is published |
| Frames.PublishedIsWindowCount | project/frontend/src/components/LiveMode.jsx:190-198 | the published FPS is the number of successful paints since the window opened; failed decodes never count |
| UploadCheck.HasVideoExtension | project/frontend/src/components/LiveMode.jsx:299 | a name that matches has at least four characters, one of them a literal dot (ExtensionCaseInsensitive and ExtensionIgnoresPrefix state how it matches) |
| UploadCheck.Decide | project/frontend/src/components/LiveMode.jsx:293-302 | no file is reported iff none was chosen; rejected iff the MIME type is not in the allow-list and the name lacks a video extension |
| UploadCheck.ExtensionCaseInsensitive | project/frontend/src/components/LiveMode.jsx:299 | the extension test ignores the case of the name |
| UploadCheck.ExtensionIgnoresPrefix | project/frontend/src/components/LiveMode.jsx:299 | only the end of the name matters |
| UploadCheck.AcceptedByUpperCaseExtension | project/frontend/src/components/LiveMode.jsx:299 | "DashCam.MKV" with an unknown type is accepted |
| UploadCheck.AcceptedByType | project/frontend/src/components/LiveMode.jsx:298-299 | a name without extension but of type video/quicktime is accepted |
| UploadCheck.RejectedExamples | project/frontend/src/components/LiveMode.jsx:298-302 | "clip.mp4.txt" (text/plain) and "mp4" (video/MP4) are rejected: the extension must end the name after a dot, and the type is compared exactly |
| UploadCheck.LowerIdempotent | project/frontend/src/components/LiveMode.jsx:299 | ASCII case folding is idempotent |
| LiveStream.Socket.constructor | project/frontend/src/components/LiveMode.jsx:91 | a new socket is connecting, has its handlers attached, has sent nothing, and remembers the retry it was opened with |
| LiveStream.LiveMode.constructor | project/frontend/src/components/LiveMode.jsx:16-25 | the component mounts with no socket, the initial session (mode "live", count 0, no distances), an idle alert, no canvas and an empty FPS window |
| LiveStream.LiveMode.Connect | project/frontend/src/components/LiveMode.jsx:73-93 | the old socket's handlers are detached and it is closing (or stays closed) with nothing more sent; a fresh connecting socket carrying the retry becomes current |
| LiveStream.LiveMode.OnOpen | project/frontend/src/components/LiveMode.jsx:95-107 | as written: marks connected and sends the location of the mount render, never a fix cached later |
| LiveStream.LiveMode.OnOpenLatest | project/frontend/src/components/LiveMode.jsx:95-107 | as intended: marks connected and sends the latest cached fix, if any |
| LiveStream.LiveMode.OnError | project/frontend/src/components/LiveMode.jsx:224-229 | the current socket's error clears the connected flag; a replaced socket's error changes nothing |
| LiveStream.LiveMode.OnClose | project/frontend/src/components/LiveMode.jsx:231-240 | the current socket's close clears the connected flag and schedules exactly one reconnect with attempt retry+1 after ReconnectDelay(retry, jitter); a replaced socket's close schedules nothing |
| LiveStream.LiveMode.FireReconnect | project/frontend/src/components/LiveMode.jsx:239 | the fired timer is removed and a fresh socket opens with that attempt number (≥ 1); the socket it replaces is detached and closing (or stays closed), with nothing more sent, and joins the retired ones |
| LiveStream.LiveMode.OnLocation | project/frontend/src/components/LiveMode.jsx:44-56 | the fix is cached; it is sent only while the current socket is open, and never queued otherwise |
| LiveStream.LiveMode.AlertOnTelemetry | project/frontend/src/components/LiveMode.jsx:129-160 | the alert fields move exactly as AlertDebounce.OnTelemetry says |
| LiveStream.LiveMode.AlertTimerFire | project/frontend/src/components/LiveMode.jsx:156-166 | the alert fields move as AlertDebounce.OnTimerFire says and end idle |
| LiveStream.LiveMode.ApplyTelemetry | project/frontend/src/components/LiveMode.jsx:114-160 | the session fields become Protocol.ApplyTelemetry of the old ones and the alert moves as AlertDebounce.OnTelemetry, on the same record |
| LiveStream.LiveMode.EnsureCanvas | project/frontend/src/components/LiveMode.jsx:172-181 | afterwards a canvas exists; a new one is 300×150, an existing one is untouched |
| LiveStream.LiveMode.OnMessage | project/frontend/src/components/LiveMode.jsx:109-181 | a replaced socket's message changes nothing; otherwise the session follows Protocol.OnMessage, only telemetry moves the alert, a binary message ensures a canvas exists, and any other message leaves the canvas as it was |
| LiveStream.LiveMode.PaintFrame | project/frontend/src/components/LiveMode.jsx:183-217 | canvas and FPS fields follow Frames.Paint; the canvas is resized iff a bitmap was decoded whose size differs |
| LiveStream.LiveMode.HandleFileUpload | project/frontend/src/components/LiveMode.jsx:293-306 | the decision is UploadCheck.Decide; only an accepted file sets uploading and is sent, exactly once |
| LiveStream.LiveMode.UploadSettled | project/frontend/src/components/LiveMode.jsx:319-332 | the request's end always clears uploading; only success switches the mode to "video" |
| LiveStream.LiveMode.Unmount | project/frontend/src/components/LiveMode.jsx:259-263 | as written: the socket is closed with its handlers still attached |
| LiveStream.LiveMode.UnmountQuiet | project/frontend/src/components/LiveMode.jsx:259-263 | as intended: the socket is detached and closed and no reconnect is pending |
| LiveStream.FixBeforeOpenNeverSent | project/frontend/src/components/LiveMode.jsx:44-56 | a fix that arrives while the socket connects is never sent when it opens |
| LiveStream.FixBeforeOpenSentByLatest | project/frontend/src/components/LiveMode.jsx:95-107 | with the intended onopen that fix is the first message sent |
| LiveStream.UnmountedComponentReconnects | project/frontend/src/components/LiveMode.jsx:231-263 | after unmount, the close of the still-attached socket schedules a reconnect |
| LiveStream.QuietUnmountIsFinal | project/frontend/src/components/LiveMode.jsx:259-263 | after the intended unmount the close schedules nothing |
| LiveStream.ReconnectAfterThirdRetry | project/frontend/src/components/LiveMode.jsx:231-240 | a close of the socket opened with retry 3 schedules attempt 4 within [8000, 8500] ms |
| LiveStream.ReplacedSocketCloseIsSilent | project/frontend/src/components/LiveMode.jsx:73-77 | after a reconnect only the current socket's close schedules a further reconnect |
| Reports.ValidReports | project/frontend/src/components/PotholeMap.jsx:104-107 | every report it keeps has a truthy location, latitude and longitude, and every such report is kept; a single report is kept iff it is valid (with ValidReportsAppend this fixes the order) |
| Reports.ValidReportsMultiplicity | project/frontend/src/components/PotholeMap.jsx:104-107 | each valid report is kept exactly as often as it occurs, every other report never |
| Reports.ValidReportsAppend | project/frontend/src/components/PotholeMap.jsx:104-107 | the filter distributes over concatenation |
| Reports.MarkerPositions | project/frontend/src/components/PotholeMap.jsx:104-133 | at most one marker per report, and none at a zero latitude or longitude |
| Reports.MarkerPositionsSnoc | project/frontend/src/components/PotholeMap.jsx:104-133 | each report of the loop adds its own position iff its location is valid |
| Reports.HeatPoints | project/frontend/src/components/PotholeMap.jsx:138-140 | one heat point per marker, at the same coordinates, each of weight 1 |
| Reports.HeatLayer | project/frontend/src/components/PotholeMap.jsx:137-142 | the layer exists iff there are more than 10 reports, the plugin is loaded and some point exists; it then holds the heat points |
| Reports.ZeroCoordinateExcluded | project/frontend/src/components/PotholeMap.jsx:105 | a report at latitude or longitude exactly 0 gets no marker |
| Reports.ActiveCount | project/frontend/src/components/PotholeMap.jsx:551 | never more than the reports |
| Reports.ActiveCountAppend | project/frontend/src/components/PotholeMap.jsx:551 | the active count is additive over concatenation |
| Reports.RecentCount | project/frontend/src/components/PotholeMap.jsx:537 | never more than the reports |
| Reports.RecentCountShrinks | project/frontend/src/components/PotholeMap.jsx:537 | as time passes the recent count can only shrink |
| Reports.Listed | project/frontend/src/components/PotholeMap.jsx:740 | the list shows min(n, 10) reports, the first ones, in order |
| Reports.DisplayStatus | project/frontend/src/components/PotholeMap.jsx:758 | a non-empty status is shown as is; a missing or empty one shows "reported" |
| Reports.MissingStatusListedButNotActive | project/frontend/src/components/PotholeMap.jsx:758 | a report without status is listed as "reported" yet not counted as active |
| RouteMap.Trim | project/frontend/src/components/PotholeMap.jsx:230 | the trimmed text is no longer than the input and neither starts nor ends with JavaScript white space |
| RouteMap.TrimEmptyIffBlank | project/frontend/src/components/PotholeMap.jsx:230 | the search is skipped iff the input is made only of JavaScript white space |
| RouteMap.FindIndex | project/frontend/src/components/PotholeMap.jsx:241 | the result is -1 or an index of the list (FindIndexFirst states which one) |
| RouteMap.FindIndexFirst | project/frontend/src/components/PotholeMap.jsx:241 | findIndex gives the first marker of the kind, or -1 iff there is none |
| RouteMap.Replaced | project/frontend/src/components/PotholeMap.jsx:241-258 | the list grows by at most one marker and holds the new marker (ReplacedByKind states the rest) |
| RouteMap.ReplacedByKind | project/frontend/src/components/PotholeMap.jsx:239-259 | setting a route marker removes the first one of its kind and appends the new one; the other kind's markers are untouched |
| RouteMap.AtMostTwoRouteMarkers | project/frontend/src/components/PotholeMap.jsx:239-259 | every route marker is a start or an end marker, so one of each means at most two |
| RouteMap.Placed | project/frontend/src/components/PotholeMap.jsx:236-262 | as written: only the placed point and its input text change; without a map no marker is set and no route drawn; a route the branch draws joins the two points of the click-time render |
| RouteMap.PlacedFresh | project/frontend/src/components/PotholeMap.jsx:236-262 | as intended: on a map with both points set, the route joins the points just set; otherwise the route is kept |
| RouteMap.PlacedMarkers | project/frontend/src/components/PotholeMap.jsx:236-259 | with a map, a placed point leaves exactly one marker of its kind, at the point; the other kind's markers stay as they were |
| RouteMap.StaleRouteExample | project/frontend/src/components/PotholeMap.jsx:229-266 | as written, with searches that do not overlap: end b then start a draws no route though both points are set; start c then draws the route a→b, which does not follow the planner |
| RouteMap.OverlappingSearchesExample | project/frontend/src/components/PotholeMap.jsx:229-306 | as written, with a start search (c) and an end search (d) launched from the render holding a and b: after both resolve the planner holds c and d but the route runs a→b |
| RouteMap.PlacedFreshFollows | project/frontend/src/components/PotholeMap.jsx:229-266 | as intended: the route always runs between the planner's two points, and is drawn once both are set on a map |
| RouteMap.PlacedFreshOnlyFixesRoute | project/frontend/src/components/PotholeMap.jsx:229-266 | the intended branch agrees with the written one, for any click-time render, on everything but the route |
| RouteMap.PotholeMap.constructor | project/frontend/src/components/PotholeMap.jsx:10-25 | no map, no route information, an empty planner |
| RouteMap.PotholeMap.CreateMap | project/frontend/src/components/PotholeMap.jsx:69-156 | the hazard markers are exactly the positions of the valid reports in order, and the heat layer is Reports.HeatLayer |
| RouteMap.PotholeMap.Cleanup | project/frontend/src/components/PotholeMap.jsx:168-182 | no map, no hazard or route markers, no heat layer, no route |
| RouteMap.PotholeMap.CalculateRoute | project/frontend/src/components/PotholeMap.jsx:352-379 | with both points and a map the route runs from the given start to the given end; otherwise it is unchanged |
| RouteMap.PotholeMap.OnRoutesFound | project/frontend/src/components/PotholeMap.jsx:408-419 | the route information shown is the router's |
| RouteMap.PotholeMap.SetRouteMarker | project/frontend/src/components/PotholeMap.jsx:239-258 | the markers become Replaced, keeping at most one per kind |
| RouteMap.PotholeMap.EditStart | project/frontend/src/components/PotholeMap.jsx:618 | only the start text changes |
| RouteMap.PotholeMap.EditEnd | project/frontend/src/components/PotholeMap.jsx:655 | only the end text changes |
| RouteMap.PotholeMap.BeginSearch | project/frontend/src/components/PotholeMap.jsx:229-233 | the click goes on to geocode iff that side's input is not all white space, and hands the planner of the click-time render to the continuation; nothing changes |
| RouteMap.PotholeMap.PlacePoint | project/frontend/src/components/PotholeMap.jsx:236-262 | the success branch after the await: the planner becomes Placed of the current planner, with the click-time render `seen` deciding the route |
| RouteMap.PotholeMap.HandleStartSearch | project/frontend/src/components/PotholeMap.jsx:233-266 | after the await, a failed geocode changes nothing; otherwise the planner becomes Placed of the current planner and the click-time one, for the start point |
| RouteMap.PotholeMap.HandleEndSearch | project/frontend/src/components/PotholeMap.jsx:273-306 | after the await, a failed geocode changes nothing; otherwise the planner becomes Placed of the current planner and the click-time one, for the end point |
| RouteMap.PotholeMap.HandleUseCurrentLocation | project/frontend/src/components/PotholeMap.jsx:309-349 | without a fix nothing changes; otherwise the start becomes "Current Location" at the fix, as Placed with the click-time render |
| RouteMap.PotholeMap.SetRoutePoint | project/frontend/src/components/PotholeMap.jsx:236-262 | as intended: the planner becomes PlacedFresh, whatever search resolved before |
| RouteMap.PotholeMap.ClearRoute | project/frontend/src/components/PotholeMap.jsx:434-453 | the planner is empty: no route, no route markers, no points, empty inputs, no route information |

## Findings

| source | as written | input that shows it | evidently intended | confidence | as-written member | corrected member |
|---|---|---|---|---|---|---|
| project/frontend/src/components/LiveMode.jsx:95-107 | `onopen` reads `currentLocation` from the closure of the mount render, where it is always null | a GPS fix arrives while the socket is connecting; the socket then opens: nothing is sent | send the latest cached fix when the socket opens | high, not executed | LiveStream.LiveMode.OnOpen, LiveStream.FixBeforeOpenNeverSent | LiveStream.LiveMode.OnOpenLatest, LiveStream.FixBeforeOpenSentByLatest |
| project/frontend/src/components/LiveMode.jsx:259-263 | the unmount cleanup closes the socket with its `onclose` still attached | mount, open, unmount: the close schedules `connectWebSocket(1)` for an unmounted component | detach the handlers and cancel pending reconnects before closing | high, not executed | LiveStream.LiveMode.Unmount, LiveStream.UnmountedComponentReconnects | LiveStream.LiveMode.UnmountQuiet, LiveStream.QuietUnmountIsFinal |
| project/frontend/src/components/PotholeMap.jsx:260-262 | `calculateRoute` after a search uses the start and end points of the handler's render, not the ones just set (same at 300-302 and 340-342) | end set at b; start searched at a: no route; start searched at c: route drawn from a to b | route between the points just set | high, not executed | RouteMap.PotholeMap.HandleStartSearch, RouteMap.StaleRouteExample, RouteMap.OverlappingSearchesExample | RouteMap.PotholeMap.SetRoutePoint, RouteMap.PlacedFreshFollows |

## Left out

- The JSX layout, styling, popups, toasts, the alert sound and the toast close button: they are presentation.
- The hazard-notifier child components and App.jsx: they are not part of this model.
- The WebSocket URL choice (dev proxy or direct address) and `binaryType`: configuration only; the socket is abstract.
- The throttled logging (`retry % 10`, `retry % 3`): cosmetic, with no effect on timing.
- `handleModeSwitch`, `handleStopVideo`, `fetchMode`, `handleRefresh`, the upload request and its progress percentage: HTTP calls whose outcomes are parameters (`UploadSettled`).
- Geocoding, geolocation, `JSON.parse`, `createImageBitmap` and the Image fallback, and loading the routing script: foreign, asynchronous calls. Their results are parameters, and the race between two decodes of successive frames is not modelled.
- The object URL revocation and the processed-image cleanup at unmount: browser resource handling.
- Floating-point arithmetic: the map centre, fitBounds, the route's kilometres and minutes, and the upload percentage. Coordinates are `real` and only copied and compared.
- NaN coordinates: they are falsy in JavaScript and have no `real` counterpart.
- The createRoute error path: the routing control is foreign code.
- Protocol.ApplyTelemetry: a JSON `null` video progress is folded into "absent"; the code would store `null`.
- Protocol.Classify: a text frame whose JSON is not an object is treated as a parse failure. In the code a number or `null` would reach the field reads.
- RouteMap.PotholeMap.OnRoutesFound: the routing control's life cycle is reduced to the drawn route; a routesfound event from a replaced control is not modelled.
- LiveStream.LiveMode.OnMessage: the canvas is looked up by id in the document; the model holds one canvas in the component.
