# Exoplanet scene: a verified Dafny model

This project models the logic behind the exoplanet front end's 3D scene:

- **Catalog grouping** (`Catalog`). `groupByHostname` folds the flat list of planet rows fetched from the catalog into one star system per host star. Each system keeps the first row seen for that host as `starData`, and every row of that host, in input order, as `exoplanets`.
- **Host star appearance** (`HostStar`). Covers the null-coordinate check, the position with its z offset of 99, the star size and its fallback, the spectral-type table, the temperature ladder, and the rule that combines the two colors.
- **Planet appearance and animation** (`Exoplanet`). Covers the orbit radius and period with their defaults, the planet-size fallback chain and its final guard, the two-way planet color, and the per-frame orbit position. The `useFrame` callback writes that position into a mesh in place.
- **Visualization** (`Visualization`). Covers the camera controller's state and its event handlers, the spherical camera transform, and the scene. The scene drops systems with a null coordinate and gives each planet its key `hostname-index`, the star's raw position and the star's raw radius.

Modelling choices:

- A catalog number is an `Option<real>`, where `None` is JSON `null`. A JSON payload carries only finite numbers and `null`. `isFinite(null)` is true but `null > 0` is false, so the source's test `isFinite(v) && v > 0` holds exactly for a present positive value (`FinitePositive`).
- `v || d` falls back on `null` and on `0` (`Truthy`, `OrDefault`).
- A missing temperature compares like 0 in the temperature ladder. A missing inclination counts as 0, because `isFinite(null)` is true and `null * π` is 0.
- A `THREE.Color` is modelled as the red, green and blue components of its hex string. `colorsAreEqual` compares those components, so it is plain equality of colors.
- Comments in `MainPage.js` (line 26) and `ExoplanetVisualization.js` (line 121) speak of excluding the Sun, but no code excludes any host. The model groups and draws a "Sun" host like any other.
- The grouped catalog is a JavaScript object whose values the scene lists with `Object.values`. For string keys that are not array indices, an object lists its keys in the order they were first assigned. The model keeps the keys in that order beside the map (`HostGroups`).
- `Math.PI`, `Math.sin` and `Math.cos` are left uninterpreted and passed in as a `Trig` value. Lemmas that need facts about them take those facts as preconditions: `sin 0 = 0` and `cos 0 = 1` (`AnchoredAtZero`), and `sin² + cos² = 1` (`Pythagorean`).
- The clock's elapsed time is a parameter.
- The constants are kept per file, as the source has them:
  - A star is drawn at 0.25 units per solar radius, 99 units along z from its catalog position.
  - A planet uses a scale factor of 1 and an orbit offset of 97 along z.
  - The planet receives the star's raw `st_rad` as its star size.
- Two consequences of these constants are stated as lemmas, and the model does not correct them:
  - `OrbitCentreOffsetFromStar`: every orbit is centred 2 units short of its star along z.
  - `PlanetToStarDrawnRatio`: a planet with radius ratio `q` is drawn `4q` times its star's drawn radius.
- The star's color is always the temperature color (`StarColor`), so the spectral-type table never changes what is drawn (`SpectralTypeIrrelevant`). This holds because the override rule returns the temperature color both when the two colors differ and when they are equal.

## Model

| member | source | states |
|---|---|---|
| `Catalog.GroupByHostname` | hwo-frontend/src/Pages/MainPage.js:23-37 | The keys are the distinct host names in first-seen order. A host has an entry exactly when some row has that host. Each entry's `exoplanets` is exactly that host's rows in input order. Each list is non-empty and starts with the entry's `starData`. The lists together hold as many rows as the input. An empty input gives an empty object. |
| `Catalog.HostGroups.Values` | hwo-frontend/src/Components/ExoplanetVisualization.js:122 | `Object.values` lists one system per key, in key order, and a system is listed exactly when it is one of the object's values. |
| `Catalog.FirstRowIsStarData` | hwo-frontend/src/Pages/MainPage.js:27-31 | A host's first row in the input is the first of its rows, so it becomes `starData`. Later rows never replace it. |
| `Catalog.NoRowsBefore` | hwo-frontend/src/Pages/MainPage.js:27-33 | A host with no rows collects no rows. |
| `Catalog.RowsOfMembers` | hwo-frontend/src/Pages/MainPage.js:33 | A row is in a host's list exactly when it is an input row of that host. |
| `Catalog.HostsMembers` | hwo-frontend/src/Pages/MainPage.js:27-31 | Every row's host gets a key. |
| `Catalog.HostsWitness` | hwo-frontend/src/Pages/MainPage.js:27-31 | Every key is the host of some input row. |
| `Catalog.PlanetTotalUpdate` | hwo-frontend/src/Pages/MainPage.js:33 | Pushing onto one host's list changes the total number of planets by exactly the size of the push. |
| `Catalog.GroupStep` | hwo-frontend/src/Pages/MainPage.js:24-35 | One step of the `reduce` keeps the accumulator equal to the grouping of the rows folded so far. |
| `HostStar.StarSize` | hwo-frontend/src/Components/HostStar.js:53-54 | Gives `st_rad * 0.25` for a positive radius and 0.25 otherwise, so it is always positive. |
| `HostStar.ColorsAreEqual` | hwo-frontend/src/Components/HostStar.js:57-61 | Componentwise comparison holds exactly when the two colors are equal. |
| `HostStar.SpectralTypeColor` | hwo-frontend/src/Components/HostStar.js:64-89 | Exactly the ten known one-letter codes (O, B, A, F, G, K, M, L, T, D) get a color other than grey. Every other code, and a missing one, gets grey. |
| `HostStar.TemperatureColor` | hwo-frontend/src/Components/HostStar.js:92-103 | The result is grey exactly when the temperature is missing or below 550. `TemperatureColorIsBandColor` and `LadderMatchesSpectralTable` give every other band's color. |
| `HostStar.TemperatureColorIsBandColor` | hwo-frontend/src/Components/HostStar.js:64-103 | The ladder gives the color of the band the temperature falls in. That is the spectral table's color for the band's letter (T, L, M, K, G, F, A, B, O), or grey below 550 and when missing. |
| `HostStar.CountOfSorted` | hwo-frontend/src/Components/HostStar.js:92-103 | A temperature between the k-th and the (k+1)-th ascending threshold lies in band k. |
| `HostStar.BandMonotone` | hwo-frontend/src/Components/HostStar.js:93-101 | A hotter star never lands in a cooler band. |
| `HostStar.CountAtOrBelowMonotone` | hwo-frontend/src/Components/HostStar.js:93-101 | Raising the temperature never lowers the number of thresholds it reaches. |
| `HostStar.BandColorInjective` | hwo-frontend/src/Components/HostStar.js:93-102 | The ten ladder results are different colors, so the band can be read back from the color. |
| `HostStar.LadderMatchesSpectralTable` | hwo-frontend/src/Components/HostStar.js:66-83 | A temperature in a letter's band gets that letter's spectral color, for example "G" with 5300 <= teff < 6000. |
| `HostStar.DwarfWhiteNotOnLadder` | hwo-frontend/src/Components/HostStar.js:84-85 | The white-dwarf color `#f0f0f0` is never a temperature color. |
| `HostStar.StarColor` | hwo-frontend/src/Components/HostStar.js:105-112 | The resolved color always equals the temperature color componentwise, whatever the spectral type. |
| `HostStar.SpectralTypeIrrelevant` | hwo-frontend/src/Components/HostStar.js:105-112 | Two stars with the same temperature get the same color, whatever their spectral types. |
| `HostStar.RenderHostStar` | hwo-frontend/src/Components/HostStar.js:41-54 | Nothing is drawn exactly when a coordinate is null. Otherwise the star is at `(x, y, z + 99)`, unchanged by the position scale of 1, with a positive size and the temperature color. |
| `Exoplanet.OrbitRadius` | hwo-frontend/src/Components/Exoplanet.js:23-24 | The semi-major axis when it is truthy, and 1 when it is missing or 0. |
| `Exoplanet.ChainedSize` | hwo-frontend/src/Components/Exoplanet.js:29-39 | Every branch of the fallback chain gives a positive size. |
| `Exoplanet.GuardSize` | hwo-frontend/src/Components/Exoplanet.js:42 | The guard always yields a positive size and keeps one that is already positive. |
| `Exoplanet.PlanetSize` | hwo-frontend/src/Components/Exoplanet.js:27-42 | A positive ratio gives ratio × star size, with the star size falling back to 1, and the Earth radius is then ignored. Otherwise a positive Earth radius gives Earth radius / 109. Otherwise the size is 0.05. The result is always positive. |
| `Exoplanet.GuardKeepsChainedSize` | hwo-frontend/src/Components/Exoplanet.js:29-42 | Every branch of the chain is already positive, so with exact arithmetic the final guard never replaces a value. |
| `Exoplanet.RatioOverridesEarthRadii` | hwo-frontend/src/Components/Exoplanet.js:29-36 | With a usable ratio, the Earth radius has no effect on the size. |
| `Exoplanet.PlanetColor` | hwo-frontend/src/Components/Exoplanet.js:61 | "orange" exactly for type "Gas Giants", and "blue" for every other or missing type. |
| `Exoplanet.OrbitPeriod` | hwo-frontend/src/Components/Exoplanet.js:46 | The period when it is truthy, and 365 otherwise. It is never 0, so the angle is always defined. |
| `Exoplanet.InclinationRadians` | hwo-frontend/src/Components/Exoplanet.js:49 | A missing inclination gives an angle of 0. |
| `Exoplanet.OrbitAngle` | hwo-frontend/src/Components/Exoplanet.js:46 | The angle is 0 at time 0. |
| `Exoplanet.OrbitAngleFullTurn` | hwo-frontend/src/Components/Exoplanet.js:46 | Dividing by 0.5 doubles the speed: the angle grows by 2π every half period. |
| `Exoplanet.OrbitOffset` | hwo-frontend/src/Components/Exoplanet.js:49-54 | Given sin 0 = 0 and cos 0 = 1, the offset at time 0 is (orbit radius, 0, 0). With a missing or zero inclination, the offset has no y component. |
| `Exoplanet.PlanetPosition` | hwo-frontend/src/Components/Exoplanet.js:56-58 | Given sin 0 = 0 and cos 0 = 1, the planet at time 0 is at star position + (orbit radius, 0, 97). With a missing or zero inclination, its y always equals the star's y. |
| `Exoplanet.OrbitIsCircle` | hwo-frontend/src/Components/Exoplanet.js:52-54 | At any time and inclination, the offset from the orbit centre has the orbit radius as its length. |
| `Exoplanet.PlanetMesh.OnFrame` | hwo-frontend/src/Components/Exoplanet.js:44-59 | The frame callback writes star position + orbital offset + (0, 0, 97) into the mesh. |
| `Visualization.PerspectiveCamera.constructor` | hwo-frontend/src/Components/ExoplanetVisualization.js:104-109 | The canvas creates the camera at `(0, 0, maxZoom - zoom)`. |
| `Visualization.CameraPosition` | hwo-frontend/src/Components/ExoplanetVisualization.js:22-31 | Given sin 0 = 0 and cos 0 = 1: with no elevation the camera is level with the origin (y = 0), and with no rotation it is where the canvas first placed it, at `(0, 0, 3000 - zoom)`. |
| `Visualization.CameraOnSphere` | hwo-frontend/src/Components/ExoplanetVisualization.js:24-31 | At any angles, the camera's distance from the origin is `3000 - zoom`. |
| `Visualization.CameraController.constructor` | hwo-frontend/src/Components/ExoplanetVisualization.js:11-19 | Initial state: zoom 2900, both rotations 0, pointer at (0, 0), not dragging. The distance is 100. |
| `Visualization.CameraController.Distance` | hwo-frontend/src/Components/ExoplanetVisualization.js:26 | The distance is `3000 - zoom`, between 0 and 3000 while the zoom stays in the slider's range. |
| `Visualization.CameraController.UpdateCamera` | hwo-frontend/src/Components/ExoplanetVisualization.js:22-37 | Puts the camera at the spherical position for the current zoom and rotations, looking at the origin. |
| `Visualization.CameraController.ZoomChange` | hwo-frontend/src/Components/ExoplanetVisualization.js:45-47 | Sets the zoom to the slider value, from any state. The rotations, the pointer and the drag flag are unchanged. |
| `Visualization.CameraController.Reset` | hwo-frontend/src/Components/ExoplanetVisualization.js:49-53 | From any state, sets zoom to 2900 and both rotations to 0, leaving the pointer and drag flag alone. It is therefore idempotent. |
| `Visualization.CameraController.ZoomOut` | hwo-frontend/src/Components/ExoplanetVisualization.js:55-59 | From any state, sets zoom to 2200 and both rotations to 0, leaving the pointer and drag flag alone. |
| `Visualization.CameraController.MouseDown` | hwo-frontend/src/Components/ExoplanetVisualization.js:62-65 | Starts dragging and records the pointer. Zoom and rotations are unchanged. |
| `Visualization.CameraController.MouseMove` | hwo-frontend/src/Components/ExoplanetVisualization.js:68-78 | When not dragging, it changes nothing. When dragging, `rotateY += dx·0.05`, `rotateX -= dy·0.05` and the pointer is recorded, and nothing else changes. |
| `Visualization.CameraController.MouseUp` | hwo-frontend/src/Components/ExoplanetVisualization.js:81-83 | Stops dragging. Zoom, rotations and pointer are unchanged. |
| `Visualization.CameraController.MouseLeave` | hwo-frontend/src/Components/ExoplanetVisualization.js:86-88 | Stops dragging. Zoom, rotations and pointer are unchanged. |
| `Visualization.CameraController.Drag` | hwo-frontend/src/Components/ExoplanetVisualization.js:62-78 | Over a mouse-down and any number of moves, including none, the rotation changes by (last pointer − mouse-down point)·0.05. The deltas telescope. |
| `Visualization.HasPosition` | hwo-frontend/src/Components/ExoplanetVisualization.js:123-128 | The scene's filter holds exactly when the host star component would draw the star, which it does only when no coordinate is null. |
| `Visualization.VisibleSystems` | hwo-frontend/src/Components/ExoplanetVisualization.js:122-128 | Keeps exactly the systems whose three coordinates are all non-null. It keeps every system when all have coordinates. |
| `Visualization.VisibleSystemsAppend` | hwo-frontend/src/Components/ExoplanetVisualization.js:122-128 | The filter keeps order: filtering a concatenation gives the filtered parts, concatenated. |
| `Visualization.NatToString` | hwo-frontend/src/Components/ExoplanetVisualization.js:134 | The index prints as one or more decimal digits. |
| `Visualization.PlanetKey` | hwo-frontend/src/Components/ExoplanetVisualization.js:134 | The key is the host name, then a dash, then only decimal digits. |
| `Visualization.NatToStringInjective` | hwo-frontend/src/Components/ExoplanetVisualization.js:134 | Different indices print differently. |
| `Visualization.PlanetKeysDistinct` | hwo-frontend/src/Components/ExoplanetVisualization.js:134 | Within a system, the keys `hostname-index` are pairwise different. |
| `Visualization.PlanetNodes` | hwo-frontend/src/Components/ExoplanetVisualization.js:132-141 | There is one planet node per row, in order. Each gets the star's raw catalog position, the raw `st_rad` as star size, and a key distinct from its siblings'. |
| `Visualization.Scene` | hwo-frontend/src/Components/ExoplanetVisualization.js:122-143 | The drawn systems are the filtered `Object.values` list, one node per system in the same order. Each drawn system comes from the grouped catalog and has a position. Every grouped system with a position is drawn. Each node's planets are `PlanetNodes` of its system. |
| `Visualization.OrbitCentreOffsetFromStar` | hwo-frontend/src/Components/ExoplanetVisualization.js:136-140 | The orbit centre sits 2 units along z short of the drawn star, because the star offset is 99 and the planet offset is 97. |
| `Visualization.PlanetToStarDrawnRatio` | hwo-frontend/src/Components/ExoplanetVisualization.js:141 | With a raw `st_rad` as star size, a planet of ratio `q` is drawn `4q` times its star's drawn radius. |

## Left out

- Fetching the catalog (`MainPage.js`, lines 11-21) and the render tree around it.
- `applyFilters`. It is referenced in `MainPage.js` (line 43) but defined in none of the files modelled here, so no filter pipeline is modelled.
- The filter request in `RightDrawer.js`. `RightDrawer.js`, `LeftDrawer.js`, `ControlPanel.js`, `Sun.js`, `theme.js` and `App.js` are not part of this model: they hold layout, styling, routing and static decoration.
- The random texture choice, texture loading, font loading and the JSX meshes and materials.
- React hooks and effects, which re-run `updateCamera` when the state changes. In the model, `UpdateCamera` is an explicit call.
- React's state batching is not modelled. A handler may see the previous render's `isDragging` and `lastMousePosition`; the model applies events one after another to an up-to-date state.
- Floating point is not modelled. Values are exact reals, so no product overflows to infinity or underflows to 0, and no value is NaN. As a result the final guard of the planet size never fires in the model (`GuardKeepsChainedSize`).
- `Math.sin`, `Math.cos` and `Math.PI` are uninterpreted. Only the facts named in a lemma's preconditions are used about them.
- The initial `rotateX` of `-0` is modelled as 0. Exact reals have no negative zero.
- A field missing from a row (JavaScript `undefined` rather than `null`) is not modelled. With `undefined`, the `=== null` checks would let a coordinate through, and the position would be NaN.
- The rule that `Object.values` lists integer-like keys ("0", "42") first, in ascending numeric order, before the other keys in insertion order. The model keeps every key in insertion order, which matches the source only because catalog host names are never canonical integers. For host names ["b", "1"], JavaScript would list "1" first, while `GroupByHostname` keeps ["b", "1"].
- A host name that is also an inherited property of plain JavaScript objects (for example `constructor`) would make `!acc[hostname]` false on its first row, and the push would then fail. The model treats every host name as a fresh key.
- Visualization.CameraController.ZoomChange: requires the value to lie in the slider's range [0, 3000]. The handler itself does not clamp; the slider is its only caller.
