/**
  The path of one submission through the application: the form's request
  body, the endpoint's response, and the 16-bit index buffer the viewer
  builds from the response's `faces`. Indices of a surface grid stay below
  segments², so they fit 16 bits up to 256 segments and wrap from 257 on.
*/
module Pipeline {
  import opened Wrappers
  import opened MeshGrid
  import FractalApi
  import Viewer
  import FormPage

  /** Up to 256 segments a grid has at most 2^16 vertices, so every index fits 16 bits. */
  lemma SquareBelowIndexRange(s: nat)
    requires s <= 256
    ensures s * s <= 65536
  {
    FormPage.SquareMonotone(s, 256);
  }

  /** A mandelbox grid up to 40 segments has fewer than 2^16 vertices. */
  lemma CubeBelowIndexRange(s: nat)
    requires s <= 40
    ensures s * s * s < 65536
  {
    FormPage.SquareMonotone(s, 40);
    assert s * s * s <= 1600 * s by {
      MulMonotone(s * s, 1600, s);
    }
  }

  /**
    A successful surface response of at most 256 segments reaches the
    viewer's index buffer unchanged: every face index names the vertex the
    generator meant.
  */
  lemma SurfaceIndicesFit(req: FractalApi.Request, samplers: FractalApi.Samplers)
    requires FractalApi.Response(req, samplers).Success?
    requires req.fractalType != Some("mandelbox")
    requires FractalApi.CheckRequest(req).value.segments <= 256
    ensures var faces := FractalApi.Response(req, samplers).value.faces;
      Viewer.Uint16Array(faces) == faces
  {
    var s := FractalApi.CheckRequest(req).value.segments;
    FractalApi.SurfaceResponse(req, samplers);
    SquareBelowIndexRange(s);
    Viewer.Uint16ArrayKeepsSmall(FractalApi.Response(req, samplers).value.faces);
  }

  /** The same for a mandelbox response of at most 40 segments. */
  lemma MandelboxIndicesFit(req: FractalApi.Request, samplers: FractalApi.Samplers)
    requires FractalApi.Response(req, samplers).Success?
    requires req.fractalType == Some("mandelbox")
    requires FractalApi.CheckRequest(req).value.segments <= 40
    ensures var faces := FractalApi.Response(req, samplers).value.faces;
      Viewer.Uint16Array(faces) == faces
  {
    var s := FractalApi.CheckRequest(req).value.segments;
    FractalApi.MandelboxResponse(req, samplers);
    CubeBelowIndexRange(s);
    Viewer.Uint16ArrayKeepsSmall(FractalApi.Response(req, samplers).value.faces);
  }

  /**
    From 257 segments on the buffer no longer matches the response: the
    first corner of the last cell of a 257-segment grid is vertex 65790,
    which the index buffer turns into 254.
  */
  lemma SurfaceIndicesWrapAt257()
    ensures var faces := FractalApi.FlattenFaces(GridFaces(257));
      && 3 * 131070 < |faces|
      && faces[3 * 131070] == 65790
      && Viewer.Uint16Array(faces)[3 * 131070] == 254
  {
    GridFirstAtCell(257, 255, 255, 65535);
    GridFacePair(257, 65535);
    var faces := FractalApi.FlattenFaces(GridFaces(257));
    assert GridFaces(257)[131070] == Triangle(65790, 66047, 65791);
    Viewer.Uint16ArrayWraps(faces, 3 * 131070);
  }

  /**
    A submission from a valid form, whatever type the dropdown holds, is
    accepted, and when its adjusted segments are at most 256 the geometry
    the viewer builds from the response's faces indexes the very vertices
    the generator meant.
  */
  lemma SubmissionRendersFaithfully(f: FormPage.Form, samplers: FractalApi.Samplers, id: nat, props: Viewer.SceneProps)
    requires FormPage.FormValid(f) && f.fractalType in FormPage.PageFractalTypes
    requires FormPage.AdjustedSegments(f) <= 256
    ensures var resp := FractalApi.Response(FormPage.RequestBody(f), samplers);
      && resp.Success?
      && (props.faces == resp.value.faces ==> Viewer.BuildGeometry(id, props).index == resp.value.faces)
  {
    FormPage.PageRequestAccepted(f);
    var req := FormPage.RequestBody(f);
    assert "mandelbox" !in FormPage.PageFractalTypes;
    SurfaceIndicesFit(req, samplers);
  }

  /**
    A desired vertex count of 257² = 66049 is enough for the page to ask
    for a grid whose indices wrap in the viewer.
  */
  lemma DesiredCountCanWrap()
    ensures var f := FormPage.InitialForm.(desiredVertices := Some(66049));
      && FormPage.AdjustedSegments(f) == 257
      && FractalApi.CheckRequest(FormPage.RequestBody(f)).Success?
      && FractalApi.CheckRequest(FormPage.RequestBody(f)).value.segments == 257
  {
    var f := FormPage.InitialForm.(desiredVertices := Some(66049));
    FormPage.ISqrtUnique(66049, 257);
    FormPage.PageRequestAccepted(f);
  }
}
