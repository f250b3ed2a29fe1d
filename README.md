# Tree editor core in Dafny

A model of the three hooks that hold the logic of a React tree-placement editor.

- **Multi-reading location fusion** (`getEnhancedGeolocation`). The hook makes a fixed number of positioning attempts one after the other. It keeps the readings that pass an accuracy limit and tracks the most accurate one. It reports progress after every attempt. At the end it fuses the kept readings into one inverse-accuracy weighted position, or it reports an error. `getCurrentLocation` wraps it, refuses to start when the browser has no geolocation, and keeps the loading/error/progress state.
- **Local flat-earth projection** (`geoToPixel`). It maps latitude/longitude to pixels around a reference point: 111000 m per degree, a longitude factor cos(reference latitude), and half the preview width per view radius.
- **Tree list** (`useTreeData`). This is a table of tree records keyed by id, with a selected id. New ids are max+1. Delete never empties the list and reselects the first tree. Update replaces one field of the matching records.

Files:
- `types.dfy`: `Option`, `ReferencePoint` and `PreviewSize`.
- `geolocation.dfy`: module `Geolocation`.
  - The closure state of one run is the class `Run`. Its fields are the readings, the completed count, the best reading and the progress reports. A ghost field records the outcomes of the attempts so far, and `Run.Valid()` ties every other field to that trace.
  - `Run.TakeReading` is one attempt. `Run.AttemptsFrom` is the chain of attempts that `setTimeout` schedules, over a given sequence of per-attempt outcomes (`Ok(reading)` or `Err(code)`). `GetEnhancedGeolocation` sets up the settings and a fresh run and starts it.
  - `FinalizeReadings` is the fusion loop. It is proved equal to the function `Finalize`.
  - `LocationHook.GetCurrentLocation` is the wrapper.
- `coordinates.dfy`: module `Coordinates`, the projection as pure functions over a `Frame`.
- `tree_data.dfy`: module `TreeData`. It has pure list transforms (`FindById`, `Without`, `UpdateWhere`, `MaxId`) and the class `TreeStore` with fields `trees` and `selectedTreeId`.

Modelling choices:
- Numbers are `real` (ids and counts `int`). There is no NaN, infinity or rounding.
- `cos(refLat·π/180)` is the parameter `lonFactor` of a `Frame`.
- Each `Math.random()` call becomes a real parameter in [0, 1).
- An omitted option and an option of 0 both give the default, as `||` does in the source.
- A `numReadings` below 1 still runs exactly one attempt, because the first attempt is made unconditionally.
- When no reading was kept, the reported error depends only on the kind of the last attempt. A source error on the last attempt is passed on, even if earlier attempts returned readings that the accuracy limit dropped. A reading on the last attempt gives error code 0 ("No valid readings obtained"). If any reading was kept, the run succeeds whatever the last attempt did.
- The tree field `type` is called `kind` (a Dafny keyword). `updateTree(id, field, value)` takes a `FieldUpdate` value that names the field and carries a value of that field's type.

## Model

| member | source | states |
|---|---|---|
| `Geolocation.Configure` | hooks/useGeolocation.ts:26-32 | The `settings` object built from the options. It has no contract of its own: `ConfigureDefaults` states its defaults and that `numReadings` is never 0. |
| `Geolocation.ConfigureDefaults` | hooks/useGeolocation.ts:26-31 | A missing or zero option gives 5 readings, a 10000 ms timeout, a 2000 ms interval and no accuracy limit. Any other value is kept, so `numReadings` is never 0. |
| `Geolocation.AttemptCount` | hooks/useGeolocation.ts:84-100 | The number of attempts is the least k >= 1 with k >= numReadings, so it is exactly numReadings when that is at least 1. |
| `Geolocation.Run.constructor` | hooks/useGeolocation.ts:35-39 | A run starts with no readings, zero completed attempts, no best reading and no reports. |
| `Geolocation.Run.UpdateBestReading` | hooks/useGeolocation.ts:42-46 | The best reading is replaced only when there is none yet or the new one has strictly smaller accuracy. The other state is unchanged. |
| `Geolocation.Run.ReportProgress` | hooks/useGeolocation.ts:50-59 | Appends one report (completed, total, percent, latest reading) only when a progress callback was given. The other state is unchanged. |
| `Geolocation.Run.KeepIfAccurate` | hooks/useGeolocation.ts:75-82 | A reading is appended to the kept readings exactly when it passes the filter. The best reading stays the one `updateBestReading` would track over the kept readings. |
| `Geolocation.Run.TakeReading` | hooks/useGeolocation.ts:62-116 | One attempt adds its reading to the kept readings when it passes the filter and adds one to the completed count. It emits one report, whose latest reading is the raw reading, or none on an error. It finishes exactly when the count reaches numReadings. On finishing: kept readings give the fused result; no kept readings and an error give that error; no kept readings and a reading give the no-valid-readings error. |
| `Geolocation.Run.NextAttempt` | hooks/useGeolocation.ts:88-100 | The attempt that `setTimeout(takeReading, interval)` schedules consumes the next outcome of the sequence. The trace grows by that outcome and the state stays consistent with it. It finishes exactly when AttemptCount(numReadings) attempts have been made, and then its result follows the three terminal rules of `TakeReading`. |
| `Geolocation.Run.AttemptsFrom` | hooks/useGeolocation.ts:84-154 | From any unfinished consistent state (and so from the fresh run that the first `takeReading()` starts), attempts continue until exactly AttemptCount(numReadings) have been made. The state then matches the outcomes of those attempts, and the result follows the three terminal rules for the last one. |
| `Geolocation.GetEnhancedGeolocation` | hooks/useGeolocation.ts:20-155 | Exactly AttemptCount(numReadings) attempts run whatever their outcomes. The reports are those of every attempt in order. The terminal outcome follows the three rules above over the readings kept from all attempts. |
| `Geolocation.AttemptStep` | hooks/useGeolocation.ts:75-96 | One more attempt appends at most its own accepted reading to the kept readings, and exactly one report to the reports. |
| `Geolocation.Report` | hooks/useGeolocation.ts:50-58 | The report object (completed, total, percent = completed/total·100, latest reading). It has no contract of its own: `ProgressPercent` states the percent's range and order. |
| `Geolocation.Reports` | hooks/useGeolocation.ts:84-96 | The reports of a run: exactly one per attempt. `ReportsInOrder` gives each report's contents. |
| `Geolocation.ReportsInOrder` | hooks/useGeolocation.ts:84-96 | There is one report per attempt. Report i has completed = i+1, percent (i+1)/total·100, and the attempt's raw reading (even a dropped one), or none on an error. |
| `Geolocation.ProgressPercent` | hooks/useGeolocation.ts:55 | For total >= 1 the percentage rises strictly with the completed count, stays in 0..100, and is 100 after the last attempt. |
| `Geolocation.Accepts` | hooks/useGeolocation.ts:75 | The accuracy test: minAccuracy is 0, or the accuracy is at most minAccuracy. It has no contract of its own: `AcceptedMembership` and `FilterExample` state its effect. |
| `Geolocation.Accepted` | hooks/useGeolocation.ts:75-76 | The readings pushed over a sequence of outcomes. There are never more of them than attempts. `AcceptedMembership` states that every kept reading passes the accuracy test and comes from an attempt, and `AcceptedAppend` gives their order. |
| `Geolocation.AcceptedMembership` | hooks/useGeolocation.ts:75-76 | A reading is kept if and only if some attempt returned it (`Ok(r)` is among the outcomes) and it passes the filter (minAccuracy is 0, or accuracy <= minAccuracy). |
| `Geolocation.AcceptedAppend` | hooks/useGeolocation.ts:75-76 | Kept readings keep attempt order: the readings of a + b are those of a followed by those of b. |
| `Geolocation.FilterExample` | hooks/useGeolocation.ts:75 | With limit 10 a reading of accuracy 15 is dropped. With no limit it is kept. |
| `Geolocation.UpdateBest` | hooks/useGeolocation.ts:42-46 | The best reading afterwards is the old one or the new one. It is at least as accurate as both, so it never gets worse. |
| `Geolocation.BestOf` | hooks/useGeolocation.ts:79-80 | The best reading after a sequence of kept readings. It exists exactly when some reading was kept, and it is one of them. `BestIsFirstMinimum` says which one. |
| `Geolocation.BestIsFirstMinimum` | hooks/useGeolocation.ts:39-81 | There is a best reading if and only if some reading was kept, and it is the first kept reading of minimal accuracy. |
| `Geolocation.FirstMinimumUnique` | hooks/useGeolocation.ts:43 | The first minimum is unique. |
| `Geolocation.Weight` | hooks/useGeolocation.ts:133 | Every weight 1/max(accuracy, 0.1) lies in (0, 10]. |
| `Geolocation.MinAccuracy` | hooks/useGeolocation.ts:143 | The `Math.min` fallback is the smallest accuracy, attained by some reading. |
| `Geolocation.WeightSumPositive` | hooks/useGeolocation.ts:130-141 | The weights of a non-empty set of readings sum to a positive number, so the plain-average fallback is never taken. |
| `Geolocation.WeightedSumAtLeast` | hooks/useGeolocation.ts:130-137 | If every coordinate is at least lo, then Σw·x is at least lo·Σw. |
| `Geolocation.WeightedSumAtMost` | hooks/useGeolocation.ts:130-137 | If every coordinate is at most hi, then Σw·x is at most hi·Σw. |
| `Geolocation.Fused` | hooks/useGeolocation.ts:126-142 | The fused coordinate: the weighted mean, or the plain mean when the weights do not sum to a positive number. It has no contract of its own: `WeightSumPositive` shows the fallback is never taken, and `FusedWithinBounds`, `FuseSingleReading` and `TwoReadingExample` state its value. |
| `Geolocation.FusedWithinBounds` | hooks/useGeolocation.ts:126-142 | The fused latitude (longitude) is Σw·x/Σw. It lies between any bounds of the kept readings' latitudes (longitudes), so between their minimum and maximum. |
| `Geolocation.FuseSingleReading` | hooks/useGeolocation.ts:119-148 | Fusing one reading returns its own position, accuracy and altitude, and the one-element reading list. |
| `Geolocation.FusedAccuracyIsBest` | hooks/useGeolocation.ts:143-147 | The fused result carries the accuracy and altitude of the first most accurate reading. That accuracy is the minimum, and the kept readings are passed on unchanged. |
| `Geolocation.TwoReadingExample` | hooks/useGeolocation.ts:130-142 | (10,10) at 10 m and (20,20) at 5 m fuse to (50/3, 50/3) with accuracy 5. |
| `Geolocation.Finalize` | hooks/useGeolocation.ts:119-148 | Success exactly when readings were kept, carrying them unchanged. Otherwise the no-valid-readings error. |
| `Geolocation.FinalizeReadings` | hooks/useGeolocation.ts:119-151 | The `forEach` accumulation of weighted sums computes exactly `Finalize`. |
| `Geolocation.LocationHook.constructor` | hooks/useGeolocation.ts:14-18 | Not loading, no error, progress (0, 0, 0). |
| `Geolocation.LocationHook.GetCurrentLocation` | hooks/useGeolocation.ts:157-203 | Without geolocation: the unsupported error, no position, and the loading flag and progress unchanged. Otherwise a 5-reading run with a 50 m limit. Loading ends and progress is (5, 5, 100). A position (the fused latitude/longitude) is delivered if and only if a reading was kept. Otherwise the error holds the last attempt's code, or 0. |
| `Coordinates.GeoToPixel` | hooks/useCoordinates.ts:29-49 | `geoToPixel` itself. It has no contract of its own: its properties are stated by `ReferenceMapsToCentre`, `AxesAreSeparate`, `NorthIsUp`, `ShiftIsTranslation`, `EastWestEdges`, `NorthEdge`, `ViewRadiusScalesOffsets`, `DoublingViewRadiusHalvesOffsets` and `GeoToPixelInjective`. |
| `Coordinates.ReferenceMapsToCentre` | hooks/useCoordinates.ts:29-48 | The reference point maps exactly to (width/2, height/2) for every view radius. |
| `Coordinates.AxesAreSeparate` | hooks/useCoordinates.ts:32-46 | x depends only on the longitude and y only on the latitude. |
| `Coordinates.NorthIsUp` | hooks/useCoordinates.ts:31-46 | For lat1 < lat2, the point at lat2 has strictly smaller y if and only if the scale is positive. |
| `Coordinates.ShiftIsTranslation` | hooks/useCoordinates.ts:34-46 | Shifting by Δlat moves y by −Δlat·111000·scale. Shifting by Δlon moves x by Δlon·111000·lonFactor·scale, from any start point. |
| `Coordinates.EastWestEdges` | hooks/useCoordinates.ts:43-46 | A point viewRadius metres east of the reference lands at x = width, and the same distance west at x = 0, on the centre line. |
| `Coordinates.NorthEdge` | hooks/useCoordinates.ts:37-46 | A point viewRadius metres north lands width/2 pixels above the centre: both axes use the same scale. |
| `Coordinates.ViewRadiusScalesOffsets` | hooks/useCoordinates.ts:40-47 | Multiplying the view radius by k divides both offsets from the centre by k. |
| `Coordinates.DoublingViewRadiusHalvesOffsets` | hooks/useCoordinates.ts:43-47 | Doubling the view radius halves both offsets from the centre. |
| `Coordinates.GeoToPixelInjective` | hooks/useCoordinates.ts:29-48 | With non-zero width and longitude factor, distinct points map to distinct pixels. |
| `TreeData.InitialTree` | hooks/useTreeData.ts:6-16 | The single initial record. It has no contract of its own: `TreeStore.constructor` states the initial state built from it. |
| `TreeData.NewTree` | hooks/useTreeData.ts:32-44 | The record `addNewTree` appends. It has no contract of its own: `TreeStore.AddNewTree` states its id, fields, colour and position. |
| `TreeData.WithField` | hooks/useTreeData.ts:61 | `{ ...tree, [field]: value }`. The id changes only for an update of the `id` field, and then it becomes the given id. `UpdateKeepsIds` builds on this. |
| `TreeData.MaxId` | hooks/useTreeData.ts:25 | `Math.max` of the ids bounds every id and is attained. |
| `TreeData.NextId` | hooks/useTreeData.ts:25 | The new id is larger than, so different from, every existing id. |
| `TreeData.RandomColor` | hooks/useTreeData.ts:26 | The picked colour is one of the six palette colours. |
| `TreeData.RandomOffset` | hooks/useTreeData.ts:29-30 | Each random offset lies in [−0.001, 0.001). |
| `TreeData.FindById` | hooks/useTreeData.ts:21 | `find` returns nothing if and only if no record has the id, and otherwise the first record with it. |
| `TreeData.Without` | hooks/useTreeData.ts:53 | A record is in the filtered list if and only if it was in the list with a different id. |
| `TreeData.UpdateWhere` | hooks/useTreeData.ts:60-62 | Same length and order. Exactly the records with the id get the field replaced, and the others are unchanged. |
| `TreeData.WithoutAppend` | hooks/useTreeData.ts:53 | The filter keeps order: filtering a + b gives the filtered a followed by the filtered b. |
| `TreeData.WithoutUnknownId` | hooks/useTreeData.ts:53 | Deleting an unknown id removes nothing. |
| `TreeData.WithoutKnownIdRemovesOne` | hooks/useTreeData.ts:53 | With distinct ids, deleting a present id removes exactly one record. |
| `TreeData.WithoutKeepsIdsDistinct` | hooks/useTreeData.ts:53 | Filtering keeps ids pairwise distinct. |
| `TreeData.WithoutLeavesARecord` | hooks/useTreeData.ts:51-55 | With distinct ids and at least two records, deleting never empties the list. |
| `TreeData.DuplicateIdsCanEmptyTheList` | hooks/useTreeData.ts:53-55 | Without distinct ids the filter can empty a two-record list, so non-emptiness depends on uniqueness. |
| `TreeData.UpdateKeepsIds` | hooks/useTreeData.ts:59-62 | An update of any field but `id` keeps every id, and so keeps ids distinct. |
| `TreeData.UpdateUnknownId` | hooks/useTreeData.ts:59-62 | Updating an unknown id changes nothing. |
| `TreeData.TreeStore.constructor` | hooks/useTreeData.ts:6-18 | Exactly one tree, with id 1, at reference + (0.0002, 0.0002), selected. The invariant holds. |
| `TreeData.TreeStore.SelectedTree` | hooks/useTreeData.ts:21 | The first tree with the selected id if there is one, otherwise the first tree. |
| `TreeData.TreeStore.SetSelectedTreeId` | hooks/useTreeData.ts:18 | Sets the selected id and leaves the list unchanged. |
| `TreeData.TreeStore.AddNewTree` | hooks/useTreeData.ts:24-47 | Appends one tree and leaves the existing ones unchanged. Its id is max+1, unused before, and it carries the default fields and the random colour. It lies within ±0.001° of the reference point and is selected. The invariant (non-empty, distinct ids) is kept. |
| `TreeData.TreeStore.DeleteTree` | hooks/useTreeData.ts:50-56 | No change with at most one tree. Otherwise every tree with the id is removed, order is kept, and the first remaining tree is selected. Under the invariant this never fails, and the invariant is kept. |
| `TreeData.TreeStore.UpdateTree` | hooks/useTreeData.ts:59-63 | The list becomes `UpdateWhere` of the old list and the selection is unchanged. An update that does not touch `id` keeps the invariant. |

## Left out

- The asynchrony of positioning is not modelled. `navigator.geolocation.getCurrentPosition`, the `setTimeout` scheduling, the per-attempt timeout and the interval become a given sequence of attempt outcomes. `timeout` and `interval` are carried as settings only.
- Position timestamps and `Date.now()` in the fused result are not modelled, because they are clock readings.
- `GetEnhancedGeolocation`: `numReadings` is an integer. A fractional value, for which JavaScript runs max(1, ceil(numReadings)) attempts, is not modelled.
- `GetEnhancedGeolocation`: the model requires the outcome sequence to supply at least one outcome per attempt. Once the permission prompt is decided, every request ends in one of the two callbacks, because the per-attempt `timeout` bounds it. A request left waiting on an undecided prompt is not modelled.
- The error-message texts that `getCurrentLocation` chooses by error code are not modelled. `geoError` holds the code (`Failed(code)`) or `Unsupported` instead of the text.
- The `console.log` after a successful location is left out, because it is output only.
- The float semantics of JavaScript numbers are not modelled: NaN and infinity propagation, rounding, and division by zero. The projection requires a non-zero view radius, where JavaScript would produce Infinity; the view-radius slider starts at 1.
- `cos` and `π` are not computed: the longitude factor is a parameter. The approximation also degrades near the poles, where it reaches 0, and over kilometre distances.
- The preview size is measured from the DOM and updated by the window resize listener (`updatePreviewSize`). It enters the model as a given `PreviewSize`.
- React state semantics are not modelled: batching, the stale `trees` closure in `addNewTree`/`deleteTree`, and `useCallback`/`useEffect` dependencies. Every state update takes effect at once, in program order.
- `TreeStore.DeleteTree`: when the filter leaves no tree, the model's state is an empty list and `ok = false`, since the source sets the list and then fails on `newTrees[0].id`. What React does with the queued update after that exception is not modelled. The case cannot arise while ids are distinct.
- `TreeStore.UpdateTree`: `value: any` is replaced by a value of the field's own type. Ill-typed updates are not modelled.
- `saveData` is left out, because it is only `console.log` and `alert`.
- Three values of `constants.ts` are carried as Dafny constants: `DEFAULT_GEO_OPTIONS` as `Geolocation.DefaultGeoOptions`, `TREE_COLORS` as `TreeData.TreeColors`, and `TREE_TYPES[0]` as `TreeData.Broadleaf`. The rest of that file is left out, because the core does not use it: `DEFAULT_REFERENCE_POINT`, `DEFAULT_ZOOM`, `DEFAULT_VIEW_RADIUS` and the other tree types.
- The React components, the context wiring and the styling configuration are not part of this model. The context only routes the fused position to `updateTree` or `setReferencePoint`.
