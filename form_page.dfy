/**
  The generator form (app/page.jsx): the values it keeps, the sanitising
  `onChange` handlers for size and segments, the rule that turns a desired
  vertex or face count into a grid resolution, and the request body it
  posts to the model endpoint.
*/
module FormPage {
  import opened Wrappers
  import FractalApi

  /**
    The form's state. `desiredVertices` and `desiredFaces` hold the text of
    a number field: `None` when it is empty, otherwise the count typed.
  */
  datatype Form = Form(
    fractalType: string, size: real, segments: int,
    desiredVertices: Option<nat>, desiredFaces: Option<nat>)

  /** The form as first rendered. */
  const InitialForm: Form := Form("mandelbulb", 2.0, 5, None, None)

  /** The values the fractal type dropdown offers. */
  const PageFractalTypes: seq<string> := ["mandelbulb", "torus_knot", "apollonian_gasket", "klein_bottle"]

  /** What the handlers keep true of the stored values: a positive size and at least two segments. */
  predicate FormValid(f: Form) {
    f.size > 0.0 && f.segments >= 2
  }

  /**
    The size handler: a parsed positive number is stored, anything else
    (`NaN`, zero, a negative number) becomes 0.1.
  */
  function SanitizeSize(parsed: Option<real>): (size: real)
    ensures size > 0.0
    ensures parsed.Some? && parsed.value > 0.0 ==> size == parsed.value
  {
    if parsed.Some? && parsed.value > 0.0 then parsed.value else 0.1
  }

  /**
    The segments handler: a parsed integer above 1 is stored, anything else
    (`NaN`, 1 or less) becomes 2.
  */
  function SanitizeSegments(parsed: Option<int>): (segments: int)
    ensures segments >= 2
    ensures parsed.Some? && parsed.value > 1 ==> segments == parsed.value
  {
    if parsed.Some? && parsed.value > 1 then parsed.value else 2
  }

  /** Typing a value the handler already accepts stores it unchanged: both handlers are idempotent. */
  lemma SanitizersIdempotent(size: Option<real>, segments: Option<int>)
    ensures SanitizeSize(Some(SanitizeSize(size))) == SanitizeSize(size)
    ensures SanitizeSegments(Some(SanitizeSegments(segments))) == SanitizeSegments(segments)
  {
  }

  /** The stored value is the default exactly when the input is missing, not above the bound, or the default itself. */
  lemma SanitizersRejectExactly(size: Option<real>, segments: Option<int>)
    ensures SanitizeSize(size) == 0.1 <==> size.None? || size.value <= 0.0 || size.value == 0.1
    ensures SanitizeSegments(segments) == 2 <==> segments.None? || segments.value <= 2
  {
  }

  /** The integer square root: the largest `r` with `r * r <= n`, built up from `n - 1`. */
  function ISqrt(n: nat): (r: nat)
    ensures r * r <= n < (r + 1) * (r + 1)
  {
    if n == 0 then 0
    else
      var r := ISqrt(n - 1);
      if (r + 1) * (r + 1) <= n then r + 1 else r
  }

  /** The square-root bounds determine the root: any `r` within them is `ISqrt(n)`. */
  lemma ISqrtUnique(n: nat, r: nat)
    requires r * r <= n < (r + 1) * (r + 1)
    ensures r == ISqrt(n)
  {
    var q := ISqrt(n);
    if r < q {
      SquareMonotone(r + 1, q);
    } else if q < r {
      SquareMonotone(q + 1, r);
    }
  }

  /** Squaring is monotone on naturals. */
  lemma SquareMonotone(a: nat, b: nat)
    requires a <= b
    ensures a * a <= b * b
  {
    assert a * a <= a * b <= b * b;
  }

  /** Of two naturals, the one with the smaller square is the smaller. */
  lemma SquareOrder(a: nat, b: nat)
    requires a * a < b * b
    ensures a < b
  {
  }

  /** The integer square root reaches 2 exactly from 4 on. */
  lemma ISqrtAtLeastTwo(n: nat)
    ensures ISqrt(n) >= 2 <==> n >= 4
  {
    var r := ISqrt(n);
    if n >= 4 {
      SquareOrder(2, r + 1);
    } else if r >= 2 {
      SquareMonotone(2, r);
    }
  }

  /** `Math.max` on two integers. */
  function Max(a: int, b: int): int {
    if a >= b then a else b
  }

  /** `Math.max(2, Math.floor(Math.sqrt(n)))`: 2 for a count below 4, its integer square root from 4 on. */
  function SegmentsFor(n: nat): (s: nat)
    ensures n < 4 ==> s == 2
    ensures n >= 4 ==> s == ISqrt(n)
  {
    ISqrtAtLeastTwo(n);
    Max(2, ISqrt(n))
  }

  /**
    The segments a submission sends: from the desired vertex count when one
    is entered, else from the desired face count, else the stored value.
    An entered "0" counts as entered.
  */
  function AdjustedSegments(f: Form): (s: int)
    ensures f.desiredVertices.Some? && f.desiredVertices.value < 4 ==> s == 2
    ensures f.desiredVertices.Some? && f.desiredVertices.value >= 4 ==> s == ISqrt(f.desiredVertices.value)
    ensures f.desiredVertices.None? && f.desiredFaces.Some? && f.desiredFaces.value < 4 ==> s == 2
    ensures f.desiredVertices.None? && f.desiredFaces.Some? && f.desiredFaces.value >= 4 ==> s == ISqrt(f.desiredFaces.value)
    ensures f.desiredVertices.None? && f.desiredFaces.None? ==> s == f.segments
  {
    if f.desiredVertices.Some? then SegmentsFor(f.desiredVertices.value)
    else if f.desiredFaces.Some? then SegmentsFor(f.desiredFaces.value)
    else f.segments
  }

  /**
    The desired vertex count decides alone when it is entered; the face
    count is then ignored.
  */
  lemma DesiredVerticesTakePrecedence(f: Form, faces: Option<nat>)
    requires f.desiredVertices.Some?
    ensures AdjustedSegments(f.(desiredFaces := faces)) == AdjustedSegments(f)
  {
  }

  /** Whichever field decides, at least two segments are sent, and with a count entered its grid of s² vertices is the largest square not above it, unless that is below 2². */
  lemma AdjustedSegmentsBounds(f: Form)
    requires f.desiredVertices.Some? || f.desiredFaces.Some?
    ensures var n := if f.desiredVertices.Some? then f.desiredVertices.value else f.desiredFaces.value;
      var s := AdjustedSegments(f);
      && s >= 2
      && (n >= 4 ==> s * s <= n < (s + 1) * (s + 1))
  {
  }

  /** The handlers behind the size, segments, desired-count and type controls. */
  datatype Input =
    | SizeTyped(parsedSize: Option<real>)
    | SegmentsTyped(parsedSegments: Option<int>)
    | DesiredVerticesTyped(vertices: Option<nat>)
    | DesiredFacesTyped(faces: Option<nat>)
    | TypeChosen(choice: nat)

  /** The form after one `onChange`; the dropdown only offers the values of `PageFractalTypes`. */
  function OnInput(f: Form, input: Input): (g: Form)
    ensures !input.SizeTyped? ==> g.size == f.size
    ensures !input.SegmentsTyped? ==> g.segments == f.segments
    ensures !input.DesiredVerticesTyped? ==> g.desiredVertices == f.desiredVertices
    ensures !input.DesiredFacesTyped? ==> g.desiredFaces == f.desiredFaces
    ensures !input.TypeChosen? ==> g.fractalType == f.fractalType
    ensures input.TypeChosen? ==> g.fractalType in PageFractalTypes
    ensures input.TypeChosen? ==> g.fractalType == PageFractalTypes[input.choice % |PageFractalTypes|]
    ensures input.SizeTyped? ==> g.size == SanitizeSize(input.parsedSize)
    ensures input.SegmentsTyped? ==> g.segments == SanitizeSegments(input.parsedSegments)
    ensures input.DesiredVerticesTyped? ==> g.desiredVertices == input.vertices
    ensures input.DesiredFacesTyped? ==> g.desiredFaces == input.faces
  {
    match input
    case SizeTyped(p) => f.(size := SanitizeSize(p))
    case SegmentsTyped(p) => f.(segments := SanitizeSegments(p))
    case DesiredVerticesTyped(v) => f.(desiredVertices := v)
    case DesiredFacesTyped(v) => f.(desiredFaces := v)
    case TypeChosen(k) => f.(fractalType := PageFractalTypes[k % |PageFractalTypes|])
  }

  /** The form after a series of `onChange` calls, first to last. */
  function AfterInputs(f: Form, inputs: seq<Input>): Form
    decreases |inputs|
  {
    if inputs == [] then f else AfterInputs(OnInput(f, inputs[0]), inputs[1..])
  }

  /** Every handler keeps the form valid, and the fractal type one the dropdown offers. */
  lemma OnInputKeepsValid(f: Form, input: Input)
    requires FormValid(f) && f.fractalType in PageFractalTypes
    ensures FormValid(OnInput(f, input)) && OnInput(f, input).fractalType in PageFractalTypes
  {
  }

  /** Whatever is typed, in any order, the form stays valid. */
  lemma {:induction false} FormStaysValid(inputs: seq<Input>)
    ensures FormValid(AfterInputs(InitialForm, inputs))
    ensures AfterInputs(InitialForm, inputs).fractalType in PageFractalTypes
  {
    ValidAfterInputs(InitialForm, inputs);
  }

  /** The same from any valid form whose type the dropdown offers. */
  lemma {:induction false} ValidAfterInputs(f: Form, inputs: seq<Input>)
    requires FormValid(f) && f.fractalType in PageFractalTypes
    ensures FormValid(AfterInputs(f, inputs)) && AfterInputs(f, inputs).fractalType in PageFractalTypes
    decreases |inputs|
  {
    if inputs != [] {
      OnInputKeepsValid(f, inputs[0]);
      ValidAfterInputs(OnInput(f, inputs[0]), inputs[1..]);
    }
  }

  /**
    The JSON body a submission posts. Read back by the endpoint, it gives
    the form's type, its size and, through `int()`, the adjusted segments.
  */
  function RequestBody(f: Form): (req: FractalApi.Request)
    ensures req.fractalType == Some(f.fractalType)
    ensures FractalApi.SizeOf(req) == f.size
    ensures FractalApi.SegmentsOf(req) == AdjustedSegments(f)
  {
    FractalApi.Request(Some(f.fractalType), Some(f.size), Some(AdjustedSegments(f) as real))
  }

  /** A valid form never sends segments of 1 or less, nor a size of 0 or less. */
  lemma RequestWithinBounds(f: Form)
    requires FormValid(f)
    ensures AdjustedSegments(f) >= 2
    ensures FractalApi.SizeOf(RequestBody(f)) > 0.0
    ensures FractalApi.SegmentsOf(RequestBody(f)) == AdjustedSegments(f)
  {
  }

  /**
    A valid form whose type is one the dropdown offers is accepted by the
    endpoint, which generates that type with the form's size and adjusted
    segments.
  */
  lemma PageRequestAccepted(f: Form)
    requires FormValid(f) && f.fractalType in PageFractalTypes
    ensures var r := FractalApi.CheckRequest(RequestBody(f));
      && r.Success?
      && r.value.key == f.fractalType
      && r.value.size == f.size
      && r.value.segments == AdjustedSegments(f)
  {
    RequestWithinBounds(f);
    var i :| 0 <= i < |PageFractalTypes| && PageFractalTypes[i] == f.fractalType;
    var fractal := [FractalApi.Mandelbulb, FractalApi.TorusKnot, FractalApi.ApollonianGasket, FractalApi.KleinBottle][i];
    FractalApi.LookupFindsEveryFractal(fractal);
  }

  /** Whatever is typed into the form, its submission is accepted. */
  lemma EverySubmissionAccepted(inputs: seq<Input>)
    ensures FractalApi.CheckRequest(RequestBody(AfterInputs(InitialForm, inputs))).Success?
  {
    FormStaysValid(inputs);
    PageRequestAccepted(AfterInputs(InitialForm, inputs));
  }
}
