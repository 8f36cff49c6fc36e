# Fractal mesh generator and viewer — a Dafny model

The application has three parts:

- **The mesh backend** (`api/index.py`). Five generators each sample a grid of
  points and emit two triangles per grid cell. The generators are mandelbulb,
  torus knot, apollonian gasket, klein bottle and the 3-D mandelbox. The
  `/api/generate-model` endpoint validates the request, dispatches on a table
  of the five types, flattens the vertex and face lists into JSON arrays and
  builds a success message.
- **The viewer** (`app/three-js-model.jsx`). This React component holds a
  three.js scene with a post-processing composer and the generated mesh. It
  turns the mesh on every animation frame, swaps its geometry when new props
  arrive, selects one "look" pass, follows window resizes and tears everything
  down on unmount.
- **The form page** (`app/page.jsx`). It keeps the size, segments and
  desired-count fields, sanitises what is typed, and derives the grid
  resolution it sends from a desired vertex or face count.

The model has six modules:

- `Wrappers` (`wrappers.dfy`): `Option` and `Result`.
- `MeshGrid` (`mesh_grid.dfy`): the generators' vertex and face loops.
  - They are imperative methods, proved to build exactly the lists that
    `GridFaces`, `BoxFaces` and `Kept` specify position by position.
  - The face counts and index bounds are proved about those specifications.
  - Coordinates are not modelled. A *sampler* gives the point computed at
    each grid position, or `None` when it is not finite and the loop skips it.
- `FractalApi` (`fractal_api.dfy`): `generate_model`.
  - As functions: validation, table lookup, flattening and the message.
  - `GenerateModel` is the method that calls the generator loops, proved
    equal to `Response`.
- `Viewer` (`viewer.dfy`): the component as class `ThreeDModelViewer`.
  - Its fields are the refs and the parts of the three.js objects the
    component writes.
  - One method per effect, handler or callback.
  - A ghost event log records frames, disposals and the teardown sequence.
- `FormPage` (`form_page.dfy`): the sanitisers, the integer square root
  behind `adjustedSegments`, and the request body.
- `Pipeline` (`pipeline.dfy`): properties across the three parts, such as
  whether the indices a submission produces survive the viewer's 16-bit
  index buffer.

Where the code and its written description differ, the model follows the
code:

- The depth-of-field effect is keyed `"bokeh"`.
- The color-correction pass starts disabled at mount. It is on only once
  the effect-selection effect has run.
- The viewer does not check face indices. `new Uint16Array(faces)` reduces
  them modulo 2^16, so a grid of 257 or more segments silently renders wrong
  triangles (`Pipeline.SurfaceIndicesWrapAt257`).

## Model

| member | source | states |
|---|---|---|
| MeshGrid.GridFaces | api/index.py:22-26 | a surface face list has 2·(segments−1)² triangles |
| MeshGrid.GridFirstAtCell | api/index.py:22-24 | cell (i, j) is number i·(segments−1)+j of the row-major loop and its `first` is i·segments+j |
| MeshGrid.GridFacePair | api/index.py:24-26 | cell c contributes faces 2c and 2c+1: [first, second, first+1] and [second, second+1, first+1] with second = first+segments |
| MeshGrid.GridFaceBelow | api/index.py:22-26 | every index of every surface face is at most segments²−1 |
| MeshGrid.GridFacesBelow | api/index.py:10-26 | no surface face index reaches the segments² vertices of the grid loop |
| MeshGrid.StrideFaces | api/index.py:22-26 | the face loop of mandelbulb (and, identically, apollonian gasket at 83-87) builds exactly `GridFaces(segments)` |
| MeshGrid.NextRowNoWrap | api/index.py:65 | for i in range(segments−1), (i+1) % segments · segments = i·segments + segments: the modulo never wraps |
| MeshGrid.WrapFaces | api/index.py:62-66 | the torus knot loop (and the klein bottle loop at 104-108) builds the same list as the stride loop, `GridFaces(segments)` |
| MeshGrid.BoxFaces | api/index.py:39-44 | the mandelbox face list has 2·(segments−1)³ triangles |
| MeshGrid.BoxFirstAtCell | api/index.py:39-42 | cell (i, j, k) is number i·n²+j·n+k of the loop (n = segments−1), and its `first` is i·segments²+j·segments+k |
| MeshGrid.BoxFacePair | api/index.py:42-44 | mandelbox cell c contributes faces 2c and 2c+1 with second = first+segments |
| MeshGrid.BoxFaceBelow | api/index.py:39-44 | every index of every mandelbox face is below segments³ |
| MeshGrid.BoxFacesBelow | api/index.py:31-44 | no mandelbox face index reaches the segments³ vertices of the grid loop |
| MeshGrid.VolumeFaces | api/index.py:39-44 | the mandelbox face loop builds exactly `BoxFaces(segments)` |
| MeshGrid.Kept | api/index.py:18-20 | skipping non-finite points never yields more vertices than points visited |
| MeshGrid.KeptFromSamples | api/index.py:18-20 | every vertex returned is one of the computed points |
| MeshGrid.KeptComplete | api/index.py:18-20 | with no point skipped, the vertices are the computed points, in order |
| MeshGrid.KeptSnoc | api/index.py:18-20 | visiting one more point appends it when it is finite and changes nothing otherwise |
| MeshGrid.SurfaceVertices | api/index.py:10-20 | the surface vertex loop returns the finite points of the segments×segments grid in (i, j) order |
| MeshGrid.VolumeVertices | api/index.py:31-37 | the mandelbox vertex loop returns the finite points of the segments³ grid in (i, j, k) order |
| MeshGrid.SurfaceVisitedFacts | api/index.py:10-12 | before position (i, j) the loop has visited i·segments+j points, all finite when none is skipped |
| MeshGrid.CompleteSurfaceCount | api/index.py:10-20 | with no point skipped a surface generator yields segments² vertices |
| MeshGrid.VolumeVisitedFacts | api/index.py:31-33 | before position (i, j, k) the loop has visited (i·segments+j)·segments+k points |
| MeshGrid.CompleteVolumeCount | api/index.py:31-37 | with no point skipped generate_mandelbox yields segments³ vertices |
| FractalApi.LookupFractal | api/index.py:121-129 | the table finds a generator exactly for the five keys, and the generator found is registered under the requested key |
| FractalApi.LookupFindsEveryFractal | api/index.py:121-127 | each of the five generators, mandelbox included, is found under its own key |
| FractalApi.SizeOf | api/index.py:115 | an absent size reads as 1.0, a present one as the number sent |
| FractalApi.SegmentsOf | api/index.py:116 | absent segments read as 10; a present number is truncated toward zero, so it lies within one of the result on the side of zero |
| FractalApi.CheckRequest | api/index.py:113-131 | validation succeeds exactly for size > 0, segments ≥ 2 and a registered type, then carries that type's generator and key and the read size and segments; every rejection is a 400 |
| FractalApi.TruncateToInt | api/index.py:116 | `int()` truncates toward zero: floor for non-negative numbers, ceiling for negative ones |
| FractalApi.UnknownType | api/index.py:131 | the unknown-type error text contains the requested type, after the 14 characters of its prefix |
| FractalApi.FlattenVertices | api/index.py:134 | the flat coordinate array has 3·len(vertices) entries, and entries 3p..3p+2 are vertex p's x, y, z |
| FractalApi.GroupFlattenVertices | api/index.py:134 | regrouping the flat coordinates three by three gives back the vertex list |
| FractalApi.FlattenFaces | api/index.py:135 | the flat index array has 3·len(faces) entries, and the p-th triple is the p-th face |
| FractalApi.FlatFacesBelow | api/index.py:135 | flattening keeps every index below a bound that every face respects |
| FractalApi.ReplaceUnderscores | api/index.py:143 | `replace('_', ' ')` keeps the length and turns exactly the underscores into spaces |
| FractalApi.Capitalize | api/index.py:143 | on ASCII text such as the five keys, `capitalize()` keeps the length, upper-cases the first character and lower-cases the rest |
| FractalApi.SuccessMessage | api/index.py:143 | the message is as long as the key plus the suffix, and ends with " generated successfully!" right after the key's characters |
| FractalApi.SuccessMessageShape | api/index.py:143 | the message is the key with spaces for underscores, first character upper, rest lower, then " generated successfully!" |
| FractalApi.TorusKnotSpaced | api/index.py:143 | "torus_knot" reads "torus knot" once its underscore is replaced |
| FractalApi.TorusKnotCapitalized | api/index.py:143 | "torus knot" capitalized is "Torus knot" |
| FractalApi.TorusKnotMessage | api/index.py:143 | torus_knot's message is "Torus knot generated successfully!" |
| FractalApi.KeyMessages | api/index.py:121-143 | for every key of the table the message starts with a capital letter and ends with the suffix |
| FractalApi.Generate | api/index.py:133 | the dispatched generator returns the vertex list of its sampler and the face list of its grid: stride loop for mandelbulb and apollonian gasket, wrapping loop for torus knot and klein bottle, volume loops for mandelbox |
| FractalApi.Response | api/index.py:112-144 | the response succeeds exactly when validation does, passes validation's error on unchanged, and on success carries the message for the requested type |
| FractalApi.GenerateModel | api/index.py:112-144 | the endpoint answers `Response(req)`: a 400 on bad parameters, then a 400 on an unknown type, otherwise the flattened model and its message |
| FractalApi.ErrorTextsDiffer | api/index.py:119-131 | the two 400 texts differ, so the error tells which check failed |
| FractalApi.InvalidParametersExactly | api/index.py:118-119 | the "Invalid size or segments" error is returned exactly when size ≤ 0 or segments ≤ 1, whatever the type |
| FractalApi.UnknownTypeRejected | api/index.py:129-131 | with valid parameters, a missing type or one outside the table gets a 400 whose text contains that type |
| FractalApi.EveryKeyAccepted | api/index.py:121-143 | with valid parameters every key of the table is accepted, mandelbox included, with that key's success message |
| FractalApi.SuccessExactly | api/index.py:112-144 | a response succeeds exactly for size > 0, segments > 1 and a type among the five keys |
| FractalApi.FlatGridBelow | api/index.py:135 | every index of a flat surface face array is below segments² |
| FractalApi.FlatBoxBelow | api/index.py:135 | every index of a flat mandelbox face array is below segments³ |
| FractalApi.SurfaceModel | api/index.py:133-135 | a surface generator's model has 3·2·(segments−1)² face indices, each below segments², and 3·segments² coordinates when no point is skipped |
| FractalApi.BoxModel | api/index.py:133-135 | the mandelbox model has 3·2·(segments−1)³ face indices, each below segments³, and 3·segments³ coordinates when no point is skipped |
| FractalApi.AcceptedResponse | api/index.py:133-143 | a successful response carries the flattened output of the generator its type selects, for at least two segments |
| FractalApi.SurfaceResponse | api/index.py:133-144 | a successful response for a type other than mandelbox has 2·(segments−1)² faces with every index below segments² |
| FractalApi.MandelboxResponse | api/index.py:133-144 | a successful mandelbox response has 2·(segments−1)³ faces with every index below segments³ |
| Viewer.SelectionFlags | app/three-js-model.jsx:298-320 | color correction is always on, and bloom, vignette and bokeh are each on only when the effect prop names them |
| Viewer.SelectionExclusive | app/three-js-model.jsx:298-320 | the selection turns on at most one of bloom, vignette and bokeh, exactly one for those three names, and always turns on color correction |
| Viewer.SelectionNone | app/three-js-model.jsx:298-320 | "none", like any other name, leaves only color correction on |
| Viewer.SelectionDeterminedByEffect | app/three-js-model.jsx:298-332 | the flags depend only on which effect pass the name selects: re-running on a parameter change changes nothing |
| Viewer.Uint16Array | app/three-js-model.jsx:177-183 | `new Uint16Array(faces)` keeps the length and maps each index to the number in [0, 65536) congruent to it; nothing is rejected |
| Viewer.Uint16ArrayKeepsSmall | app/three-js-model.jsx:179 | indices below 65536 pass unchanged |
| Viewer.Uint16ArrayWraps | app/three-js-model.jsx:179 | an index from 65536 to 131071 loses 65536 |
| Viewer.JsDivide | app/three-js-model.jsx:65 | a finite quotient comes only from a positive height, and times the height gives the width back |
| Viewer.JsDivideCases | app/three-js-model.jsx:65 | `width / height` is finite exactly for a positive height, and then height·aspect = width; 0/0 is NaN and w/0 is Infinity |
| Viewer.InitialMaterial | app/three-js-model.jsx:156-169 | the material takes the wireframe prop, the texture map of the texture prop, and the color prop when there is no texture; it starts with no update pending |
| Viewer.TextureMap | app/three-js-model.jsx:157-159 | a texture prop is used only when non-empty, as the URL "data:image/png;base64," followed by the texture |
| Viewer.BuildGeometry | app/three-js-model.jsx:172-185 | the geometry holds the vertices as positions and `new Uint16Array(faces)` as index: one entry per face index, each the 16-bit residue of it, and the faces themselves when they all fit 16 bits |
| Viewer.MountKeepsDisposals | app/three-js-model.jsx:71-206 | the mount effect disposes nothing, and the geometry it creates is fresh and undisposed |
| Viewer.TeardownKeepsDisposals | app/three-js-model.jsx:208-223 | teardown disposes only the live geometry, so every geometry stays disposed at most once |
| Viewer.TeardownEvents | app/three-js-model.jsx:208-223 | the cleanup has eight steps, nine with a host to detach the canvas from: the frame it is given is cancelled first, the geometry disposed sixth, the listener removed eighth and the canvas detached last |
| Viewer.TeardownCancelsFirst | app/three-js-model.jsx:208-209 | the cleanup cancels the frame it is given first, and cancels no frame after that |
| Viewer.TeardownDisposalOrder | app/three-js-model.jsx:208-223 | teardown cancels the frame, then disposes controls, composer, renderer, geometry and material in that order, and removes the mesh before the listener |
| Viewer.TeardownDisposesOnce | app/three-js-model.jsx:213-217 | teardown disposes the mesh's geometry exactly once and no other geometry |
| Viewer.NewScene | app/three-js-model.jsx:99-138 | the composer built at mount holds render, bloom, vignette, bokeh and color correction in that order, all four effect passes disabled |
| Viewer.Turned | app/three-js-model.jsx:195-198 | a frame turns a rotating mesh forward about both axes |
| Viewer.ResizeKeepsValid | app/three-js-model.jsx:60-69 | a resize keeps the pass order and the flags, and leaves renderer and composer at the same size with aspect width/height |
| Viewer.SelectionKeepsValid | app/three-js-model.jsx:298-320 | the effect selection leaves color correction on with at most one look pass |
| Viewer.ParamsKeepValid | app/three-js-model.jsx:335-365 | copying the effect parameters into the passes changes neither the pass order, the flags nor the sizes |
| Viewer.LightsKeepValid | app/three-js-model.jsx:264-278 | setting the lights from the props changes neither the passes nor the viewport |
| Viewer.ThreeDModelViewer.constructor | app/three-js-model.jsx:15-57 | the first render: effect "none", default parameters, rotating, no refs set, nothing logged |
| Viewer.ThreeDModelViewer.Animate | app/three-js-model.jsx:192-202 | a frame requests the next frame, adds 0.005 and 0.01 to the rotation exactly when the rotation ref is set, then updates the controls and renders |
| Viewer.ThreeDModelViewer.Mount | app/three-js-model.jsx:71-206 | without a host nothing changes; with one, the scene, the composer with its disabled passes and the mesh are built, the first frame runs and is the pending one (frame counter advanced by one, geometry counter by one) and the listener is added |
| Viewer.ThreeDModelViewer.MountOn | app/three-js-model.jsx:74-206 | the mount effect on a host of a given size keeps the component invariant, makes the frame its `animate()` requests the pending one and uses one fresh geometry id |
| Viewer.ThreeDModelViewer.CreateScene | app/three-js-model.jsx:74-189 | the scene is sized to the host, the canvas attached and the mesh built from the props with a fresh geometry |
| Viewer.ThreeDModelViewer.SyncScene | app/three-js-model.jsx:227-278 | with a mesh and non-empty vertices and faces the geometry is replaced and the old one disposed exactly once; otherwise the geometry stays; the material always takes the props |
| Viewer.ThreeDModelViewer.ApplyEffectSelection | app/three-js-model.jsx:293-320 | without a composer nothing changes; with one the flags become `SelectionFlags(effect)` and nothing else changes |
| Viewer.ThreeDModelViewer.SetEffect | app/three-js-model.jsx:387 | choosing an effect re-runs the selection with the new name |
| Viewer.ThreeDModelViewer.SetEffectParams | app/three-js-model.jsx:321-365 | a parameter change re-runs the selection, which leaves already-selected flags unchanged, and copies the values into the passes |
| Viewer.ThreeDModelViewer.Tick | app/three-js-model.jsx:192-202 | a frame of a mounted viewer turns the mesh exactly when rotating and keeps the component invariant |
| Viewer.ThreeDModelViewer.ToggleRotation | app/three-js-model.jsx:367-371 | the button flips the rotation ref, and the state stays equal to it |
| Viewer.ThreeDModelViewer.HandleWindowResize | app/three-js-model.jsx:60-69 | with the refs present the renderer and composer take the host size and the aspect is width/height; otherwise nothing changes |
| Viewer.ThreeDModelViewer.DetachHost | app/three-js-model.jsx:376 | clearing the host ref keeps the component invariant |
| Viewer.ThreeDModelViewer.Teardown | app/three-js-model.jsx:208-223 | unmount appends the teardown steps in order, cancelling the last frame requested (the pending one), clears the mesh ref, stops frames and the listener, and detaches the canvas only from a host still present |
| Viewer.FirstCommit | app/three-js-model.jsx:71-332 | after the first commit the passes are in composer order with only color correction on, the mesh has turned once, and the mount's geometry is disposed once when the props are non-empty |
| Viewer.ToggleOffThenTick | app/three-js-model.jsx:195-198 | once rotation is toggled off the next frame leaves the angles unchanged |
| Viewer.ToggleTwiceThenTick | app/three-js-model.jsx:367-371 | toggling twice restores rotation: the next frame turns the mesh |
| Viewer.MountThenTeardown | app/three-js-model.jsx:71-223 | mounting then unmounting cancels frame 0, the one the mount requested, and disposes geometry 0, the one the mount built; the whole event log is given |
| Viewer.TeardownAfterSwap | app/three-js-model.jsx:208-248 | after a log that disposed the old geometry once and the new one never, teardown of the new one leaves each disposed exactly once |
| Viewer.SwapThenTeardown | app/three-js-model.jsx:208-248 | a geometry swap followed by unmount disposes the replaced geometry and the final one exactly once each |
| Viewer.ResizeWithoutHost | app/three-js-model.jsx:60-69 | once the host is gone a resize changes nothing |
| FormPage.SanitizeSize | app/page.jsx:93-96 | the stored size is always positive, and a parsed positive number is stored as is |
| FormPage.SanitizeSegments | app/page.jsx:110-113 | the stored segments are always at least 2, and a parsed integer above 1 is stored as is |
| FormPage.SanitizersIdempotent | app/page.jsx:93-113 | re-entering a stored value stores it unchanged |
| FormPage.SanitizersRejectExactly | app/page.jsx:93-113 | the stored value is the default exactly when the input is missing, not above the bound, or the default itself |
| FormPage.ISqrt | app/page.jsx:30 | `Math.floor(Math.sqrt(n))` is the r with r² ≤ n < (r+1)² |
| FormPage.ISqrtUnique | app/page.jsx:30 | the square-root bounds determine the root |
| FormPage.ISqrtAtLeastTwo | app/page.jsx:30 | the integer square root is at least 2 exactly for counts from 4 on |
| FormPage.SegmentsFor | app/page.jsx:30 | `Math.max(2, Math.floor(Math.sqrt(n)))` is 2 for a count below 4 and the integer square root of the count from 4 on |
| FormPage.AdjustedSegments | app/page.jsx:26-33 | an entered desired vertex count sends 2 below 4 and its integer square root from 4 on; failing that a desired face count does the same; with neither the stored segments are sent |
| FormPage.DesiredVerticesTakePrecedence | app/page.jsx:29-33 | when a vertex count is entered the face count is ignored |
| FormPage.AdjustedSegmentsBounds | app/page.jsx:29-32 | with a count entered at least 2 segments are sent, and from 4 on s² is the largest square not above the count |
| FormPage.OnInput | app/page.jsx:71-113 | each handler stores its own field (the sanitised size or segments, the typed count, the chosen offered type) and leaves every other field unchanged |
| FormPage.OnInputKeepsValid | app/page.jsx:71-113 | every handler keeps size positive, segments at least 2 and the type one the dropdown offers |
| FormPage.ValidAfterInputs | app/page.jsx:71-113 | any series of inputs from a valid form keeps it valid |
| FormPage.FormStaysValid | app/page.jsx:8-113 | from the initial form, whatever is typed in any order, the form stays valid |
| FormPage.RequestBody | app/page.jsx:35-39 | read back by the endpoint (`float()` and `int()` at api/index.py:115-116) the body gives the form's type, its size and exactly the adjusted segments |
| FormPage.RequestWithinBounds | app/page.jsx:26-39 | a valid form never sends segments ≤ 1 or a size ≤ 0 |
| FormPage.PageRequestAccepted | app/page.jsx:35-39 | the endpoint accepts the body of a valid form and generates its type with its size and adjusted segments |
| FormPage.EverySubmissionAccepted | app/page.jsx:26-39 | whatever is typed into the form, its submission passes the endpoint's checks |
| Pipeline.SurfaceIndicesFit | app/three-js-model.jsx:177-185 | a surface response of at most 256 segments reaches the index buffer unchanged |
| Pipeline.MandelboxIndicesFit | app/three-js-model.jsx:177-185 | a mandelbox response of at most 40 segments reaches the index buffer unchanged |
| Pipeline.SurfaceIndicesWrapAt257 | app/three-js-model.jsx:179 | at 257 segments the last cell's first index 65790 becomes 254 in the index buffer |
| Pipeline.SubmissionRendersFaithfully | app/three-js-model.jsx:227-248 | a valid form's submission of at most 256 segments is accepted, and the geometry the viewer builds from its faces has exactly those faces as index |
| Pipeline.DesiredCountCanWrap | app/page.jsx:29-30 | a desired vertex count of 66049 makes the page send 257 segments, which the endpoint accepts |

## Left out

- Vertex coordinates: the numpy trigonometry of api/index.py (11-17, 34, 51-57, 72-78, 93-99) is replaced by samplers. The index bounds on vertices assume no point is skipped, because a skipped point shifts every later index.
- The 500 "invalid values" branch (api/index.py:137-138) is not modelled. Coordinates are exact reals, non-finite points are already skipped, and face indices are integers, so the branch cannot be taken.
- Flask routing, `request.get_json`, `jsonify` and the HTTP wiring are reduced to a status and a message. A body that is not a JSON object is not modelled.
- JSON strings and booleans sent as size or segments are not modelled: `float()` accepts booleans and numeric strings for size, `int()` accepts booleans and only integer strings for segments (`int("2.5")` raises), and anything else (null, a list, an object, another string) raises, a 500 response; request numbers here are exact reals.
- FractalApi.Request: the `type` field is a string or absent. A number sent as `type` (rejected with the same 400 text showing it) and a list or object (which makes the table lookup raise, a 500) are not modelled.
- FractalApi.Capitalize: only ASCII letters change case. Python's Unicode case mapping, which can change the length (`"ß"` capitalizes to `"Ss"`), is not modelled; the five keys are ASCII.
- Floating point throughout: sizes, rotation angles, colours and the aspect ratio are exact reals, and `Float32Array` rounding of positions is not modelled.
- three.js and WebGL internals are foreign library code: rendering, shaders, OrbitControls damping, texture decoding and the `OES_element_index_uint` check. Each object is reduced to the fields the component writes.
- `requestAnimationFrame`, window events and React's effect scheduling are left out. One frame, one resize and one effect run are methods; the order of the first commit is fixed in `Viewer.FirstCommit`.
- React StrictMode's double mount is not modelled.
- The `try/catch` around `new Uint16Array(faces)` is not modelled, because that constructor never throws on an array of numbers; the conversion is modelled as wrap-around.
- The texture loaded for a texture prop is never disposed, and the old `map` is not disposed when replaced. The model records only geometry disposals.
- `isRotating` in `toggleRotation` is read from the render's closure. The model keeps it equal to the ref, which holds for one click per render.
- Viewer.TeardownCancelsFirst: stated for whatever frame the cleanup is given; that this is the pending frame is the Teardown contract (last frame requested) and MountThenTeardown (frame 0 after a mount).
- Viewer.ThreeDModelViewer.Teardown: the teardown steps are appended to the ghost log in one step after the state changes, not interleaved with them.
- Viewer.ThreeDModelViewer.SetEffectParams: the four uniform-copy effects (app/three-js-model.jsx:335-365) are modelled as one copy of all parameters into the composer; which uniform each value lands in is not modelled.
- Viewer.SceneValid: the flag invariant is stated as "all four disabled, or color correction on with at most one look pass", because between mount and the first selection run all four are off.
- `handleModelSubmit`'s `fetch`, `response.json()`, error display and loading state (app/page.jsx:20-24, 40-61) are I/O and are left out.
- FormPage.ISqrt: `Math.floor(Math.sqrt(n))` is modelled as the exact integer square root; double rounding, which is exact for counts below 2^52, is not modelled.
- Browser-side validation of the number fields (`min`, `step`, `required`), `parseFloat` returning Infinity, and non-numeric desired counts (which give NaN segments) are not modelled: desired counts are natural numbers or empty.
- The desired-face field has no rendered input, so it stays empty in practice. The model still covers it as the page's code does.
