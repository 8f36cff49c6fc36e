/**
  The `/api/generate-model` endpoint of the mesh backend (api/index.py):
  parameter defaults and validation, dispatch on the table of the five
  fractal generators, flattening of the vertex and face lists into the JSON
  arrays, and the success message. HTTP plumbing is reduced to a status and a
  message; the vertex coordinates come from samplers (see MeshGrid).
*/
module FractalApi {
  import opened Wrappers
  import opened MeshGrid

  /** The five generators of the type table. */
  datatype Fractal = Mandelbulb | Mandelbox | TorusKnot | ApollonianGasket | KleinBottle

  /** The key under which each generator is registered in the type table. */
  function FractalKey(f: Fractal): string {
    match f
    case Mandelbulb => "mandelbulb"
    case Mandelbox => "mandelbox"
    case TorusKnot => "torus_knot"
    case ApollonianGasket => "apollonian_gasket"
    case KleinBottle => "klein_bottle"
  }

  /** The keys of the type table. */
  const FractalKeys: set<string> := {"mandelbulb", "mandelbox", "torus_knot", "apollonian_gasket", "klein_bottle"}

  /**
    The table lookup `fractal_map.get(fractal_type)`: the generator registered
    under the requested type, None for a missing or unknown type.
  */
  function LookupFractal(name: Option<string>): (r: Option<Fractal>)
    ensures r.Some? <==> name.Some? && name.value in FractalKeys
    ensures r.Some? ==> FractalKey(r.value) == name.value
  {
    match name
    case None => None
    case Some(key) =>
      if key == "mandelbulb" then Some(Mandelbulb)
      else if key == "mandelbox" then Some(Mandelbox)
      else if key == "torus_knot" then Some(TorusKnot)
      else if key == "apollonian_gasket" then Some(ApollonianGasket)
      else if key == "klein_bottle" then Some(KleinBottle)
      else None
  }

  /** Every generator is found under its own key, and every key names a distinct generator. */
  lemma LookupFindsEveryFractal(f: Fractal)
    ensures FractalKey(f) in FractalKeys
    ensures LookupFractal(Some(FractalKey(f))) == Some(f)
  {
    match f
    case Mandelbulb =>
    case Mandelbox =>
      assert "mandelbox"[7] != "mandelbulb"[7];
    case TorusKnot =>
      assert "torus_knot"[0] != "mandelbulb"[0];
    case ApollonianGasket =>
      assert "apollonian_gasket"[0] != "mandelbulb"[0];
    case KleinBottle =>
      assert "klein_bottle"[0] != "mandelbulb"[0];
  }

  // ---------------------------------------------------------------------------
  // Requests and responses

  /**
    The JSON body of a request: each field may be absent. Numbers are exact
    reals; `segments` may arrive as a non-integral number.
  */
  datatype Request = Request(fractalType: Option<string>, size: Option<real>, segments: Option<real>)

  /** An error response: its HTTP status and the `error` text. */
  datatype ApiError = ApiError(status: nat, message: string)

  /** A validated request: the generator and its parameters. */
  datatype Generation = Generation(fractal: Fractal, key: string, size: real, segments: nat)

  /** A successful response: the flattened `vertices` and `faces` arrays and the `message`. */
  datatype Model = Model(vertices: seq<real>, faces: seq<int>, message: string)

  /** Python's `int()` on a number: truncation toward zero. */
  function TruncateToInt(x: real): (n: int)
    ensures 0.0 <= x ==> n as real <= x < n as real + 1.0
    ensures x < 0.0 ==> n as real - 1.0 < x <= n as real
  {
    if x >= 0.0 then x.Floor else -((-x).Floor)
  }

  /** `float(data.get("size", 1.0))`. */
  function SizeOf(req: Request): (size: real)
    ensures req.size.None? ==> size == 1.0
    ensures req.size.Some? ==> size == req.size.value
  {
    match req.size
    case None => 1.0
    case Some(x) => x
  }

  /** `int(data.get("segments", 10))`. */
  function SegmentsOf(req: Request): (n: int)
    ensures req.segments.None? ==> n == 10
    ensures req.segments.Some? && req.segments.value >= 0.0 ==> n as real <= req.segments.value < n as real + 1.0
    ensures req.segments.Some? && req.segments.value < 0.0 ==> n as real - 1.0 < req.segments.value <= n as real
  {
    match req.segments
    case None => 10
    case Some(x) => TruncateToInt(x)
  }

  const InvalidParameters: string := "Invalid size or segments provided."

  /** How an f-string shows the requested type: a missing one prints as `None`. */
  function Shown(name: Option<string>): string {
    match name
    case None => "None"
    case Some(s) => s
  }

  /** The error text for a type the table does not hold. */
  function UnknownType(name: Option<string>): (msg: string)
    ensures |msg| == 14 + |Shown(name)| + 17
    ensures msg[14..14 + |Shown(name)|] == Shown(name)
  {
    "Fractal type '" + Shown(name) + "' not recognized."
  }

  /**
    The checks of generate_model before any generator runs: non-positive size
    or at most one segment first, then an unknown type, both status 400.
  */
  function CheckRequest(req: Request): (r: Result<Generation, ApiError>)
    ensures r.Failure? ==> r.error.status == 400
    ensures r.Success? <==> SizeOf(req) > 0.0 && SegmentsOf(req) >= 2 && LookupFractal(req.fractalType).Some?
    ensures r.Success? ==>
      && req.fractalType == Some(r.value.key) && FractalKey(r.value.fractal) == r.value.key
      && r.value.size == SizeOf(req) && r.value.segments == SegmentsOf(req)
  {
    var size := SizeOf(req);
    var segments := SegmentsOf(req);
    if size <= 0.0 || segments <= 1 then
      Failure(ApiError(400, InvalidParameters))
    else
      match LookupFractal(req.fractalType)
      case None => Failure(ApiError(400, UnknownType(req.fractalType)))
      case Some(f) => Success(Generation(f, req.fractalType.value, size, segments))
  }

  // ---------------------------------------------------------------------------
  // Flattening

  /** `[coordinate for vertex in vertices for coordinate in vertex]`. */
  function FlattenVertices(vertices: seq<Vertex>): (flat: seq<real>)
    ensures |flat| == 3 * |vertices|
    ensures forall p :: 0 <= p < |vertices| ==>
      flat[3 * p] == vertices[p].x && flat[3 * p + 1] == vertices[p].y && flat[3 * p + 2] == vertices[p].z
  {
    if vertices == [] then []
    else
      var v := vertices[0];
      [v.x, v.y, v.z] + FlattenVertices(vertices[1..])
  }

  /** `[index for face in faces for index in face]`. */
  function FlattenFaces(faces: seq<Triangle>): (flat: seq<int>)
    ensures |flat| == 3 * |faces|
    ensures forall p :: 0 <= p < |faces| ==>
      flat[3 * p] == faces[p].a && flat[3 * p + 1] == faces[p].b && flat[3 * p + 2] == faces[p].c
  {
    if faces == [] then []
    else
      var t := faces[0];
      [t.a, t.b, t.c] + FlattenFaces(faces[1..])
  }

  /** Reading a flat coordinate array three at a time, as the viewer's position buffer does. */
  function GroupVertices(flat: seq<real>): seq<Vertex>
    requires |flat| % 3 == 0
  {
    if flat == [] then [] else [Vertex(flat[0], flat[1], flat[2])] + GroupVertices(flat[3..])
  }

  /** Flattening loses nothing: regrouping the coordinates gives back the vertex list. */
  lemma {:induction false} GroupFlattenVertices(vertices: seq<Vertex>)
    ensures GroupVertices(FlattenVertices(vertices)) == vertices
  {
    if vertices != [] {
      var flat := FlattenVertices(vertices);
      assert flat[3..] == FlattenVertices(vertices[1..]);
      GroupFlattenVertices(vertices[1..]);
    }
  }

  /** Every index of the flat face array is below `bound` when every face is. */
  lemma FlatFacesBelow(faces: seq<Triangle>, bound: nat)
    requires forall t :: t in faces ==> Below(t, bound)
    ensures forall x :: x in FlattenFaces(faces) ==> 0 <= x < bound
  {
    var flat := FlattenFaces(faces);
    forall x | x in flat ensures 0 <= x < bound {
      var q :| 0 <= q < |flat| && flat[q] == x;
      var p := q / 3;
      assert Below(faces[p], bound);
    }
  }

  // ---------------------------------------------------------------------------
  // The success message

  /** `str.replace('_', ' ')`, written as a walk over the characters. */
  function ReplaceUnderscores(s: string): (r: string)
    ensures |r| == |s|
    ensures forall p :: 0 <= p < |s| ==> r[p] == (if s[p] == '_' then ' ' else s[p])
  {
    if s == [] then [] else ReplaceUnderscores(s[..|s| - 1]) + [if s[|s| - 1] == '_' then ' ' else s[|s| - 1]]
  }

  /** An ASCII letter in upper case; any other character unchanged. */
  function Upper(c: char): char {
    if 'a' <= c <= 'z' then c - 'a' + 'A' else c
  }

  /** An ASCII letter in lower case; any other character unchanged. */
  function Lower(c: char): char {
    if 'A' <= c <= 'Z' then c - 'A' + 'a' else c
  }

  /** `str.capitalize()`: the first character in upper case, the rest in lower case. */
  function Capitalize(s: string): (r: string)
    ensures |r| == |s|
    ensures |s| > 0 ==> r[0] == Upper(s[0])
    ensures forall p :: 1 <= p < |s| ==> r[p] == Lower(s[p])
  {
    if s == [] then []
    else if |s| == 1 then [Upper(s[0])]
    else Capitalize(s[..|s| - 1]) + [Lower(s[|s| - 1])]
  }

  const GeneratedSuffix: string := " generated successfully!"

  /** The `message` of a successful response for the requested type. */
  function SuccessMessage(key: string): (msg: string)
    ensures |msg| == |key| + |GeneratedSuffix|
    ensures msg[|key|..] == GeneratedSuffix
  {
    Capitalize(ReplaceUnderscores(key)) + GeneratedSuffix
  }

  /** The message spells the key with spaces for underscores, capitalized, then the fixed suffix. */
  lemma SuccessMessageShape(key: string)
    ensures var msg := SuccessMessage(key);
      && |msg| == |key| + |GeneratedSuffix|
      && msg[|key|..] == GeneratedSuffix
      && (forall p :: 0 <= p < |key| ==> msg[p] != '_')
      && (forall p :: 1 <= p < |key| ==> msg[p] == Lower(if key[p] == '_' then ' ' else key[p]))
      && (|key| > 0 ==> msg[0] == Upper(if key[0] == '_' then ' ' else key[0]))
  {
    var spaced := ReplaceUnderscores(key);
    var msg := SuccessMessage(key);
    forall p | 0 <= p < |key| ensures msg[p] != '_' {
      assert msg[p] == Capitalize(spaced)[p];
    }
  }

  /** The message for torus_knot: the underscore becomes a space and only the first letter is capital. */
  lemma TorusKnotMessage()
    ensures SuccessMessage("torus_knot") == "Torus knot" + GeneratedSuffix
  {
    TorusKnotSpaced();
    TorusKnotCapitalized();
  }

  lemma TorusKnotSpaced()
    ensures ReplaceUnderscores("torus_knot") == "torus knot"
  {
  }

  lemma TorusKnotCapitalized()
    ensures Capitalize("torus knot") == "Torus knot"
  {
  }

  /** The message for every key of the table starts with a capital letter and ends with the suffix. */
  lemma KeyMessages(f: Fractal)
    ensures var msg := SuccessMessage(FractalKey(f));
      && 'A' <= msg[0] <= 'Z'
      && msg[|FractalKey(f)|..] == GeneratedSuffix
  {
    SuccessMessageShape(FractalKey(f));
  }

  // ---------------------------------------------------------------------------
  // Generation

  /**
    The points each generator computes: the surface generators from their
    type, size and resolution, generate_mandelbox from its size and resolution.
  */
  datatype Samplers = Samplers(surface: (Fractal, real, nat) -> SurfaceSampler, volume: (real, nat) -> VolumeSampler)

  /** The vertices a generator returns. */
  function GeneratedVertices(g: Generation, samplers: Samplers): seq<Vertex> {
    if g.fractal == Mandelbox then Kept(VolumeSamples(g.segments, samplers.volume(g.size, g.segments)))
    else Kept(SurfaceSamples(g.segments, samplers.surface(g.fractal, g.size, g.segments)))
  }

  /** The faces a generator returns. */
  function GeneratedFaces(g: Generation): seq<Triangle> {
    if g.fractal == Mandelbox then BoxFaces(g.segments) else GridFaces(g.segments)
  }

  /**
    `generate_func(size, segments)`: the vertex loop and the face loop of the
    chosen generator. Mandelbulb and apollonian gasket use the stride face
    loop, torus knot and klein bottle the wrapping one.
  */
  method Generate(g: Generation, samplers: Samplers) returns (vertices: seq<Vertex>, faces: seq<Triangle>)
    ensures vertices == GeneratedVertices(g, samplers)
    ensures faces == GeneratedFaces(g)
  {
    match g.fractal
    case Mandelbox =>
      vertices := VolumeVertices(g.segments, samplers.volume(g.size, g.segments));
      faces := VolumeFaces(g.segments);
    case Mandelbulb =>
      vertices := SurfaceVertices(g.segments, samplers.surface(g.fractal, g.size, g.segments));
      faces := StrideFaces(g.segments);
    case ApollonianGasket =>
      vertices := SurfaceVertices(g.segments, samplers.surface(g.fractal, g.size, g.segments));
      faces := StrideFaces(g.segments);
    case TorusKnot =>
      vertices := SurfaceVertices(g.segments, samplers.surface(g.fractal, g.size, g.segments));
      faces := WrapFaces(g.segments);
    case KleinBottle =>
      vertices := SurfaceVertices(g.segments, samplers.surface(g.fractal, g.size, g.segments));
      faces := WrapFaces(g.segments);
  }

  /** The response generate_model sends for a request. */
  function Response(req: Request, samplers: Samplers): (r: Result<Model, ApiError>)
    ensures r.Success? <==> CheckRequest(req).Success?
    ensures r.Failure? ==> r.error == CheckRequest(req).error
    ensures r.Success? ==> r.value.message == SuccessMessage(req.fractalType.value)
  {
    match CheckRequest(req)
    case Failure(e) => Failure(e)
    case Success(g) =>
      Success(Model(FlattenVertices(GeneratedVertices(g, samplers)), FlattenFaces(GeneratedFaces(g)), SuccessMessage(g.key)))
  }

  /** The endpoint: validate, dispatch, generate, flatten, and report. */
  method GenerateModel(req: Request, samplers: Samplers) returns (resp: Result<Model, ApiError>)
    ensures resp == Response(req, samplers)
  {
    var size := SizeOf(req);
    var segments := SegmentsOf(req);
    if size <= 0.0 || segments <= 1 {
      return Failure(ApiError(400, InvalidParameters));
    }
    var generator := LookupFractal(req.fractalType);
    if generator.None? {
      return Failure(ApiError(400, UnknownType(req.fractalType)));
    }
    var g := Generation(generator.value, req.fractalType.value, size, segments);
    var vertices, faces := Generate(g, samplers);
    resp := Success(Model(FlattenVertices(vertices), FlattenFaces(faces), SuccessMessage(g.key)));
  }

  // ---------------------------------------------------------------------------
  // Properties of the endpoint

  /** The two error texts differ, so a response tells which check failed. */
  lemma ErrorTextsDiffer(name: Option<string>)
    ensures UnknownType(name) != InvalidParameters
  {
    assert UnknownType(name)[0] == 'F';
    assert InvalidParameters[0] == 'I';
  }

  /** The size-or-segments error is sent exactly when size <= 0 or segments <= 1, whatever the type. */
  lemma InvalidParametersExactly(req: Request, samplers: Samplers)
    ensures Response(req, samplers) == Failure(ApiError(400, InvalidParameters))
      <==> SizeOf(req) <= 0.0 || SegmentsOf(req) <= 1
  {
    ErrorTextsDiffer(req.fractalType);
  }

  /** With valid parameters, a type outside the table is rejected with status 400 and a text naming it. */
  lemma UnknownTypeRejected(req: Request, samplers: Samplers)
    requires SizeOf(req) > 0.0 && SegmentsOf(req) > 1
    requires req.fractalType.None? || req.fractalType.value !in FractalKeys
    ensures Response(req, samplers).Failure?
    ensures Response(req, samplers).error.status == 400
    ensures var msg := Response(req, samplers).error.message;
      && 14 + |Shown(req.fractalType)| <= |msg|
      && msg[14..14 + |Shown(req.fractalType)|] == Shown(req.fractalType)
  {
  }

  /** With valid parameters, each of the five keys, mandelbox included, is accepted. */
  lemma EveryKeyAccepted(f: Fractal, req: Request, samplers: Samplers)
    requires req.fractalType == Some(FractalKey(f))
    requires SizeOf(req) > 0.0 && SegmentsOf(req) > 1
    ensures Response(req, samplers).Success?
    ensures Response(req, samplers).value.message == SuccessMessage(FractalKey(f))
  {
    LookupFindsEveryFractal(f);
    var g := Generation(f, FractalKey(f), SizeOf(req), SegmentsOf(req));
    assert CheckRequest(req) == Success(g);
    assert Response(req, samplers).value.message == SuccessMessage(g.key);
  }

  /** A response succeeds exactly for a positive size, at least two segments and a key of the table. */
  lemma SuccessExactly(req: Request, samplers: Samplers)
    ensures Response(req, samplers).Success?
      <==> SizeOf(req) > 0.0 && SegmentsOf(req) > 1 && req.fractalType.Some? && req.fractalType.value in FractalKeys
  {
  }

  /** Every index of the flat surface face array is below segments². */
  lemma FlatGridBelow(segments: nat)
    ensures forall x :: x in FlattenFaces(GridFaces(segments)) ==> 0 <= x < segments * segments
  {
    GridFacesBelow(segments);
    FlatFacesBelow(GridFaces(segments), segments * segments);
  }

  /** Every index of the flat mandelbox face array is below segments³. */
  lemma FlatBoxBelow(segments: nat)
    ensures forall x :: x in FlattenFaces(BoxFaces(segments)) ==> 0 <= x < segments * segments * segments
  {
    BoxFacesBelow(segments);
    FlatFacesBelow(BoxFaces(segments), segments * segments * segments);
  }

  /**
    The arrays a surface generator's model carries: 3 * 2 * (segments - 1)²
    face indices, each below segments², and 3 * segments² coordinates when
    no point was skipped.
  */
  lemma SurfaceModel(g: Generation, samplers: Samplers)
    requires g.fractal != Mandelbox && g.segments >= 2
    ensures |FlattenFaces(GeneratedFaces(g))| == 3 * (2 * ((g.segments - 1) * (g.segments - 1)))
    ensures forall x :: x in FlattenFaces(GeneratedFaces(g)) ==> 0 <= x < g.segments * g.segments
    ensures SurfaceComplete(g.segments, samplers.surface(g.fractal, g.size, g.segments)) ==>
      |FlattenVertices(GeneratedVertices(g, samplers))| == 3 * (g.segments * g.segments)
  {
    FlatGridBelow(g.segments);
    if SurfaceComplete(g.segments, samplers.surface(g.fractal, g.size, g.segments)) {
      CompleteSurfaceCount(g.segments, samplers.surface(g.fractal, g.size, g.segments));
    }
  }

  /** The same for generate_mandelbox, with segments³ points. */
  lemma BoxModel(g: Generation, samplers: Samplers)
    requires g.fractal == Mandelbox && g.segments >= 2
    ensures |FlattenFaces(GeneratedFaces(g))| == 3 * (2 * ((g.segments - 1) * (g.segments - 1) * (g.segments - 1)))
    ensures forall x :: x in FlattenFaces(GeneratedFaces(g)) ==> 0 <= x < g.segments * g.segments * g.segments
    ensures VolumeComplete(g.segments, samplers.volume(g.size, g.segments)) ==>
      |FlattenVertices(GeneratedVertices(g, samplers))| == 3 * (g.segments * g.segments * g.segments)
  {
    FlatBoxBelow(g.segments);
    if VolumeComplete(g.segments, samplers.volume(g.size, g.segments)) {
      CompleteVolumeCount(g.segments, samplers.volume(g.size, g.segments));
    }
  }

  /** A successful response is the flattened output of the generator its request selects. */
  lemma AcceptedResponse(req: Request, samplers: Samplers)
    requires Response(req, samplers).Success?
    ensures CheckRequest(req).Success?
    ensures var g := CheckRequest(req).value;
      && g.segments >= 2
      && FractalKey(g.fractal) == req.fractalType.value
      && Response(req, samplers).value.faces == FlattenFaces(GeneratedFaces(g))
      && Response(req, samplers).value.vertices == FlattenVertices(GeneratedVertices(g, samplers))
  {
  }

  /** The surface model arrives in every successful response for a type other than mandelbox. */
  lemma SurfaceResponse(req: Request, samplers: Samplers)
    requires Response(req, samplers).Success?
    requires req.fractalType != Some("mandelbox")
    ensures var g := CheckRequest(req).value;
      var model := Response(req, samplers).value;
      && g.segments >= 2
      && |model.faces| == 3 * (2 * ((g.segments - 1) * (g.segments - 1)))
      && (forall x :: x in model.faces ==> 0 <= x < g.segments * g.segments)
      && (SurfaceComplete(g.segments, samplers.surface(g.fractal, g.size, g.segments)) ==>
            |model.vertices| == 3 * (g.segments * g.segments))
  {
    AcceptedResponse(req, samplers);
    SurfaceModel(CheckRequest(req).value, samplers);
  }

  /** The volume model arrives in every successful mandelbox response. */
  lemma MandelboxResponse(req: Request, samplers: Samplers)
    requires Response(req, samplers).Success?
    requires req.fractalType == Some("mandelbox")
    ensures var g := CheckRequest(req).value;
      var model := Response(req, samplers).value;
      && g.segments >= 2
      && |model.faces| == 3 * (2 * ((g.segments - 1) * (g.segments - 1) * (g.segments - 1)))
      && (forall x :: x in model.faces ==> 0 <= x < g.segments * g.segments * g.segments)
      && (VolumeComplete(g.segments, samplers.volume(g.size, g.segments)) ==>
            |model.vertices| == 3 * (g.segments * g.segments * g.segments))
  {
    AcceptedResponse(req, samplers);
    LookupFindsEveryFractal(Mandelbox);
    BoxModel(CheckRequest(req).value, samplers);
  }
}
