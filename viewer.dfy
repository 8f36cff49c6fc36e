/**
  The ThreeDModelViewer component (app/three-js-model.jsx) as the state
  machine it drives over its refs and the three.js objects it mutates: the
  composer's pass list and `enabled` flags, the mesh whose geometry is
  swapped and disposed, the material and lights written from props, the
  rotation consumed by each animation frame, the viewport written on resize,
  and the teardown sequence. Three.js objects are reduced to the fields the
  component writes; a ghost log records the frames, disposals and listener
  and canvas changes, so that ordering and "disposed exactly once" can be
  stated.
*/
module Viewer {
  import opened Wrappers

  // ---------------------------------------------------------------------------
  // Values held by the component and by the three.js objects

  /** The passes the composer runs, in the order they were added. */
  datatype Pass = RenderPass | BloomPass | VignettePass | BokehPass | ColorCorrectionPass

  /** The composer's pass list as set up at mount. */
  const ComposerOrder: seq<Pass> := [RenderPass, BloomPass, VignettePass, BokehPass, ColorCorrectionPass]

  /** The `enabled` flags of the four effect passes. */
  datatype PassFlags = PassFlags(bloom: bool, vignette: bool, bokeh: bool, colorCorrection: bool)

  /** All four effect passes start disabled. */
  const AllDisabled: PassFlags := PassFlags(false, false, false, false)

  datatype Rgb = Rgb(r: real, g: real, b: real)
  datatype Position = Position(x: real, y: real, z: real)

  /** The effect controls: bloom, vignette, bokeh and color-correction parameters. */
  datatype EffectParams = EffectParams(
    bloomStrength: real, bloomRadius: real, bloomThreshold: real,
    vignetteDarkness: real,
    bokehFocus: real, bokehAperture: real, bokehMaxBlur: real,
    exposure: real, saturation: real)

  /** The initial values of the effect controls. */
  const DefaultEffectParams: EffectParams := EffectParams(1.5, 0.4, 0.85, 1.5, 1.0, 0.025, 1.0, 1.0, 1.0)

  /**
    What the geometry/material effect reads: the `vertices`, `faces` and
    `texture` props and the wireframe, color and lighting controls.
  */
  datatype SceneProps = SceneProps(
    vertices: seq<real>, faces: seq<int>, texture: Option<string>,
    wireframe: bool, color: Rgb,
    ambientIntensity: real, pointIntensity: real, lightPosition: Position)

  /** A buffer geometry: an identity, its position attribute and its index attribute. */
  datatype Geometry = Geometry(id: nat, positions: seq<real>, index: seq<nat>)

  /** The material fields the component writes; `texture` is the data URL its `map` loads. */
  datatype Material = Material(wireframe: bool, color: Rgb, texture: Option<string>, needsUpdate: bool)

  /** The ambient light's intensity and the point light's intensity and position. */
  datatype Lighting = Lighting(ambient: real, point: real, position: Position)

  /** The mesh rotation angles. */
  datatype Rotation = Rotation(x: real, y: real)

  /** The host element's client size in pixels. */
  datatype Size = Size(width: nat, height: nat)

  /** A JavaScript number as a division of pixel sizes can produce it. */
  datatype JsNumber = Finite(value: real) | Infinity | NaN

  /** The renderer size, the composer size and the camera aspect. */
  datatype Viewport = Viewport(renderer: Size, composer: Size, aspect: JsNumber)

  /** What the ghost log records. */
  datatype Event =
    | CanvasAttached | ListenerAdded
    | FrameRequested(frame: nat) | ControlsUpdated | Rendered
    | FrameCancelled(frame: nat) | ControlsDisposed | ComposerDisposed | RendererDisposed
    | MeshRemoved | GeometryDisposed(geometry: nat) | MaterialDisposed
    | ListenerRemoved | CanvasDetached

  // ---------------------------------------------------------------------------
  // Pure rules

  /**
    The flags the effect-selection effect leaves: the pass named by `effect`
    on, the other two effect passes off, color correction always on.
  */
  function SelectionFlags(effect: string): (f: PassFlags)
    ensures f.colorCorrection
    ensures f.bloom ==> effect == "bloom"
    ensures f.vignette ==> effect == "vignette"
    ensures f.bokeh ==> effect == "bokeh"
  {
    PassFlags(effect == "bloom", effect == "vignette", effect == "bokeh", true)
  }

  /** How many of the bloom, vignette and bokeh passes are on. */
  function LooksOn(f: PassFlags): nat {
    (if f.bloom then 1 else 0) + (if f.vignette then 1 else 0) + (if f.bokeh then 1 else 0)
  }

  /** The selection never turns on more than one effect pass, and always turns on color correction. */
  lemma SelectionExclusive(effect: string)
    ensures LooksOn(SelectionFlags(effect)) <= 1
    ensures SelectionFlags(effect).colorCorrection
    ensures LooksOn(SelectionFlags(effect)) == 1 <==> effect in {"bloom", "vignette", "bokeh"}
  {
    assert "bloom" != "vignette" && "bloom" != "bokeh" && "vignette" != "bokeh" by {
      assert "bloom"[0] != "vignette"[0];
      assert "bloom"[1] != "bokeh"[1];
      assert "vignette"[0] != "bokeh"[0];
    }
  }

  /** "none", like any value outside the three effect names, leaves only color correction on. */
  lemma SelectionNone(effect: string)
    requires effect !in {"bloom", "vignette", "bokeh"}
    ensures SelectionFlags(effect) == PassFlags(false, false, false, true)
  {
  }

  /** The flags depend on the effect name only through which effect pass it names. */
  lemma SelectionDeterminedByEffect(e1: string, e2: string)
    ensures SelectionFlags(e1) == SelectionFlags(e2)
      <==> e1 == e2 || (e1 !in {"bloom", "vignette", "bokeh"} && e2 !in {"bloom", "vignette", "bokeh"})
  {
    SelectionExclusive(e1);
    SelectionExclusive(e2);
  }

  /**
    `new Uint16Array(faces)`: each index is converted with ToUint16, the
    number in [0, 65536) congruent to it modulo 2^16. Nothing is rejected.
  */
  function Uint16Array(xs: seq<int>): (r: seq<nat>)
    ensures |r| == |xs|
    ensures forall k :: 0 <= k < |xs| ==> r[k] < 65536 && (xs[k] - r[k]) % 65536 == 0
  {
    seq(|xs|, k requires 0 <= k < |xs| => xs[k] % 65536)
  }

  /** Indices that fit in 16 bits are kept as they are. */
  lemma Uint16ArrayKeepsSmall(xs: seq<int>)
    requires forall x :: x in xs ==> 0 <= x < 65536
    ensures Uint16Array(xs) == xs
  {
    var r := Uint16Array(xs);
    forall k | 0 <= k < |xs| ensures r[k] == xs[k] {
      assert xs[k] in xs;
    }
  }

  /** An index of 65536 or more is silently wrapped: it no longer names the same vertex. */
  lemma Uint16ArrayWraps(xs: seq<int>, k: nat)
    requires k < |xs| && 65536 <= xs[k] < 2 * 65536
    ensures Uint16Array(xs)[k] == xs[k] - 65536
  {
  }

  /** `width / height` in JavaScript: Infinity for a zero height, NaN for 0 / 0. */
  function JsDivide(width: nat, height: nat): (q: JsNumber)
    ensures q.Finite? ==> height > 0 && q.value * (height as real) == width as real
  {
    if height > 0 then Finite(width as real / height as real)
    else if width > 0 then Infinity
    else NaN
  }

  /**
    The aspect is a finite ratio exactly when the height is positive, and
    then height times aspect gives the width back; 0 / 0 alone is NaN.
  */
  lemma JsDivideCases(width: nat, height: nat)
    ensures JsDivide(width, height).Finite? <==> height > 0
    ensures JsDivide(width, height).Finite? ==> JsDivide(width, height).value * (height as real) == width as real
    ensures JsDivide(width, height) == NaN <==> width == 0 && height == 0
    ensures JsDivide(width, height) == Infinity <==> width > 0 && height == 0
  {
  }

  /** The viewport after a resize to `size`: renderer and composer at that size, aspect width/height. */
  function ResizedViewport(size: Size): Viewport {
    Viewport(size, size, JsDivide(size.width, size.height))
  }

  /** A `texture` prop is used only when it is a non-empty string, as a PNG data URL. */
  function TextureMap(texture: Option<string>): (url: Option<string>)
    ensures url.Some? <==> texture.Some? && texture.value != ""
    ensures url.Some? ==> |url.value| == 22 + |texture.value| && url.value[22..] == texture.value
    ensures url.Some? ==> url.value[..22] == "data:image/png;base64,"
  {
    if texture.Some? && texture.value != "" then Some("data:image/png;base64," + texture.value) else None
  }

  /** The material created at mount: the texture if there is one, otherwise the chosen color. */
  function InitialMaterial(props: SceneProps): (m: Material)
    ensures m.wireframe == props.wireframe && m.texture == TextureMap(props.texture) && !m.needsUpdate
    ensures m.texture.None? ==> m.color == props.color
  {
    var url := TextureMap(props.texture);
    if url.Some? then Material(props.wireframe, Rgb(1.0, 1.0, 1.0), url, false)
    else Material(props.wireframe, props.color, None, false)
  }

  /** The geometry built from the `vertices` and `faces` props. */
  function BuildGeometry(id: nat, props: SceneProps): (g: Geometry)
    ensures g.id == id && g.positions == props.vertices && |g.index| == |props.faces|
    ensures forall k :: 0 <= k < |g.index| ==> g.index[k] < 65536 && (props.faces[k] - g.index[k]) % 65536 == 0
    ensures (forall x :: x in props.faces ==> 0 <= x < 65536) ==> g.index == props.faces
  {
    var index := Uint16Array(props.faces);
    if forall x :: x in props.faces ==> 0 <= x < 65536 then
      Uint16ArrayKeepsSmall(props.faces);
      Geometry(id, props.vertices, index)
    else
      Geometry(id, props.vertices, index)
  }

  /** The steps of the teardown closure, in order; the canvas is detached only from a host still present. */
  function TeardownEvents(frame: nat, geometry: nat, hostPresent: bool): (es: seq<Event>)
    ensures |es| == if hostPresent then 9 else 8
    ensures es[0] == FrameCancelled(frame) && es[5] == GeometryDisposed(geometry)
    ensures es[7] == ListenerRemoved && (hostPresent ==> es[8] == CanvasDetached)
  {
    [FrameCancelled(frame), ControlsDisposed, ComposerDisposed, RendererDisposed,
     MeshRemoved, GeometryDisposed(geometry), MaterialDisposed, ListenerRemoved]
    + (if hostPresent then [CanvasDetached] else [])
  }

  /** How many times `events` records the disposal of geometry `id`. */
  function DisposeCount(events: seq<Event>, id: nat): nat {
    if events == [] then 0
    else DisposeCount(events[..|events| - 1], id) + (if events[|events| - 1] == GeometryDisposed(id) then 1 else 0)
  }

  /** DisposeCount is the multiplicity of the disposal event in the log. */
  lemma {:induction false} DisposeCountIsMultiplicity(events: seq<Event>, id: nat)
    ensures DisposeCount(events, id) == multiset(events)[GeometryDisposed(id)]
  {
    if events != [] {
      var init := events[..|events| - 1];
      DisposeCountIsMultiplicity(init, id);
      assert events == init + [events[|events| - 1]];
    }
  }

  /** Counting disposals distributes over appending to the log. */
  lemma {:induction false} DisposeCountAppend(events: seq<Event>, more: seq<Event>, id: nat)
    ensures DisposeCount(events + more, id) == DisposeCount(events, id) + DisposeCount(more, id)
    decreases |more|
  {
    if more == [] {
      assert events + more == events;
    } else {
      var init := more[..|more| - 1];
      DisposeCountAppend(events, init, id);
      assert (events + more)[..|events + more| - 1] == events + init;
    }
  }

  /** `events` disposes no geometry. */
  predicate NoDisposal(events: seq<Event>) {
    forall i :: 0 <= i < |events| ==> !events[i].GeometryDisposed?
  }

  /** A log without disposals counts none. */
  lemma {:induction false} NoDisposalCount(events: seq<Event>, id: nat)
    requires NoDisposal(events)
    ensures DisposeCount(events, id) == 0
  {
    if events != [] {
      NoDisposalCount(events[..|events| - 1], id);
    }
  }

  /**
    Every geometry is disposed at most once, and none of the ids from
    `bound` on, which are not yet created, is disposed.
  */
  ghost predicate DisposalsValid(log: seq<Event>, bound: nat) {
    forall id: nat :: DisposeCount(log, id) <= 1 && (id >= bound ==> DisposeCount(log, id) == 0)
  }

  /** Appending events without disposals keeps every count, that of the live geometry `live` among them. */
  lemma AppendQuiet(log: seq<Event>, more: seq<Event>, bound: nat, live: nat)
    requires DisposalsValid(log, bound) && NoDisposal(more)
    ensures DisposalsValid(log + more, bound)
    ensures DisposeCount(log + more, live) == DisposeCount(log, live)
  {
    forall id: nat ensures DisposeCount(log + more, id) == DisposeCount(log, id) {
      DisposeCountAppend(log, more, id);
      NoDisposalCount(more, id);
    }
  }

  /** Creating a geometry with the next id: it is not disposed, and the bound moves past it. */
  lemma CreateGeometry(log: seq<Event>, bound: nat)
    requires DisposalsValid(log, bound)
    ensures DisposalsValid(log, bound + 1) && DisposeCount(log, bound) == 0
  {
  }

  /** Disposing a created, not yet disposed geometry counts it once and changes no other count. */
  lemma AppendDispose(log: seq<Event>, pre: seq<Event>, g: nat, post: seq<Event>, bound: nat)
    requires DisposalsValid(log, bound) && g < bound && DisposeCount(log, g) == 0
    requires NoDisposal(pre) && NoDisposal(post)
    ensures DisposalsValid(log + (pre + [GeometryDisposed(g)] + post), bound)
    ensures DisposeCount(log + (pre + [GeometryDisposed(g)] + post), g) == 1
  {
    var more := pre + [GeometryDisposed(g)] + post;
    forall id: nat ensures DisposeCount(log + more, id) == DisposeCount(log, id) + (if id == g then 1 else 0) {
      DisposeCountAppend(log, more, id);
      DisposeCountAppend(pre + [GeometryDisposed(g)], post, id);
      DisposeCountAppend(pre, [GeometryDisposed(g)], id);
      NoDisposalCount(pre, id);
      NoDisposalCount(post, id);
      assert [GeometryDisposed(g)][..0] == [];
    }
  }

  /**
    The mount effect's events dispose nothing, and the geometry it creates
    takes the next id: that id is counted as not disposed and the bound moves past it.
  */
  lemma MountKeepsDisposals(log: seq<Event>, frame: nat, bound: nat)
    requires DisposalsValid(log, bound)
    ensures var after := log + [CanvasAttached] + [FrameRequested(frame), ControlsUpdated, Rendered] + [ListenerAdded];
      DisposalsValid(after, bound + 1) && DisposeCount(after, bound) == 0
  {
    var events := [CanvasAttached, FrameRequested(frame), ControlsUpdated, Rendered, ListenerAdded];
    assert log + [CanvasAttached] + [FrameRequested(frame), ControlsUpdated, Rendered] + [ListenerAdded] == log + events;
    AppendQuiet(log, events, bound, bound);
    CreateGeometry(log + events, bound);
  }

  /** The teardown steps before the geometry is disposed. */
  function TeardownBefore(frame: nat): seq<Event> {
    [FrameCancelled(frame), ControlsDisposed, ComposerDisposed, RendererDisposed, MeshRemoved]
  }

  /** The teardown steps after the geometry is disposed. */
  function TeardownAfter(hostPresent: bool): seq<Event> {
    [MaterialDisposed, ListenerRemoved] + (if hostPresent then [CanvasDetached] else [])
  }

  /** Teardown disposes the live geometry and no other, which keeps every geometry disposed at most once. */
  lemma TeardownKeepsDisposals(log: seq<Event>, frame: nat, g: nat, hostPresent: bool, bound: nat)
    requires DisposalsValid(log, bound) && g < bound && DisposeCount(log, g) == 0
    ensures DisposalsValid(log + TeardownEvents(frame, g, hostPresent), bound)
  {
    assert TeardownEvents(frame, g, hostPresent) == TeardownBefore(frame) + [GeometryDisposed(g)] + TeardownAfter(hostPresent);
    AppendDispose(log, TeardownBefore(frame), g, TeardownAfter(hostPresent), bound);
  }

  /** `a` occurs in `events` at an earlier position than `b`. */
  predicate Precedes(events: seq<Event>, a: Event, b: Event) {
    exists i, j :: 0 <= i < j < |events| && events[i] == a && events[j] == b
  }

  /** Teardown cancels the pending frame first, and only once. */
  lemma TeardownCancelsFirst(frame: nat, geometry: nat, hostPresent: bool)
    ensures var es := TeardownEvents(frame, geometry, hostPresent);
      && es[0] == FrameCancelled(frame)
      && forall i :: 1 <= i < |es| ==> !es[i].FrameCancelled?
  {
  }

  /**
    Teardown disposes the controls, the composer, the renderer, the geometry
    and the material in that order.
  */
  lemma TeardownDisposalOrder(frame: nat, geometry: nat, hostPresent: bool)
    ensures var es := TeardownEvents(frame, geometry, hostPresent);
      && Precedes(es, FrameCancelled(frame), ControlsDisposed)
      && Precedes(es, ControlsDisposed, ComposerDisposed)
      && Precedes(es, ComposerDisposed, RendererDisposed)
      && Precedes(es, RendererDisposed, GeometryDisposed(geometry))
      && Precedes(es, GeometryDisposed(geometry), MaterialDisposed)
      && Precedes(es, MeshRemoved, ListenerRemoved)
  {
    var es := TeardownEvents(frame, geometry, hostPresent);
    assert es[0] == FrameCancelled(frame) && es[1] == ControlsDisposed;
    assert es[2] == ComposerDisposed && es[3] == RendererDisposed;
    assert es[4] == MeshRemoved && es[5] == GeometryDisposed(geometry);
    assert es[6] == MaterialDisposed && es[7] == ListenerRemoved;
  }

  /** Teardown disposes the mesh's geometry exactly once and no other geometry. */
  lemma TeardownDisposesOnce(frame: nat, geometry: nat, hostPresent: bool, id: nat)
    ensures DisposeCount(TeardownEvents(frame, geometry, hostPresent), id) == if id == geometry then 1 else 0
  {
    var pre, post := TeardownBefore(frame), TeardownAfter(hostPresent);
    assert TeardownEvents(frame, geometry, hostPresent) == pre + [GeometryDisposed(geometry)] + post;
    DisposeCountAppend(pre + [GeometryDisposed(geometry)], post, id);
    DisposeCountAppend(pre, [GeometryDisposed(geometry)], id);
    NoDisposalCount(pre, id);
    NoDisposalCount(post, id);
    assert [GeometryDisposed(geometry)][..0] == [];
  }
  // ---------------------------------------------------------------------------
  // The objects the mount effect creates

  /** The composer: its passes in the order added, the effect passes' flags, the parameters last copied into them. */
  datatype Composer = Composer(passes: seq<Pass>, flags: PassFlags, params: EffectParams)

  /**
    The scene, camera, renderer and composer refs, which the mount effect
    sets and nothing clears: the viewport, the composer and the two lights.
  */
  datatype Scene = Scene(viewport: Viewport, composer: Composer, lights: Lighting)

  /** The mesh `modelRef` holds: its geometry, its material and its rotation. */
  datatype Mesh = Mesh(geometry: Geometry, material: Material, rotation: Rotation)

  /** The lights as the lighting props set them. */
  function PropLights(props: SceneProps): Lighting {
    Lighting(props.ambientIntensity, props.pointIntensity, props.lightPosition)
  }

  /**
    The scene the mount effect builds on a host of the given size: the
    viewport sized to the host, the five passes with the four effect passes
    disabled and given the current parameters, and the lights from the props.
  */
  function NewScene(size: Size, props: SceneProps, params: EffectParams): (s: Scene)
    ensures SceneValid(s) && s.composer.flags == AllDisabled
  {
    Scene(ResizedViewport(size), Composer(ComposerOrder, AllDisabled, params), PropLights(props))
  }

  /** The mesh the mount effect builds from the props, not yet turned. */
  function NewMesh(id: nat, props: SceneProps): Mesh {
    Mesh(BuildGeometry(id, props), InitialMaterial(props), Rotation(0.0, 0.0))
  }

  /** The turn one animation frame gives a rotating mesh. */
  function Turned(r: Rotation): (t: Rotation)
    ensures t.x > r.x && t.y > r.y
  {
    Rotation(r.x + 0.005, r.y + 0.01)
  }

  /**
    What holds of a scene whenever the effects have run: the passes are in
    composer order, the composer has the renderer's size, the aspect is the
    renderer's width over its height, and the effect passes are either all
    disabled or color correction is on with at most one other pass.
  */
  predicate SceneValid(s: Scene) {
    && s.composer.passes == ComposerOrder
    && s.viewport.composer == s.viewport.renderer
    && s.viewport.aspect == JsDivide(s.viewport.renderer.width, s.viewport.renderer.height)
    && (s.composer.flags == AllDisabled
        || (s.composer.flags.colorCorrection && LooksOn(s.composer.flags) <= 1))
  }

  /** Resizing keeps a scene valid: renderer and composer share the new size and the aspect follows it. */
  lemma ResizeKeepsValid(s: Scene, size: Size)
    requires SceneValid(s)
    ensures SceneValid(s.(viewport := ResizedViewport(size)))
  {
  }

  /** Reselecting the effect keeps a scene valid: color correction on, at most one look pass. */
  lemma SelectionKeepsValid(s: Scene, effect: string)
    requires SceneValid(s)
    ensures SceneValid(s.(composer := s.composer.(flags := SelectionFlags(effect))))
  {
    SelectionExclusive(effect);
  }

  /** Copying effect parameters into the passes keeps a scene valid. */
  lemma ParamsKeepValid(s: Scene, params: EffectParams)
    requires SceneValid(s)
    ensures SceneValid(s.(composer := s.composer.(params := params)))
  {
  }

  /** Setting the lights keeps a scene valid. */
  lemma LightsKeepValid(s: Scene, props: SceneProps)
    requires SceneValid(s)
    ensures SceneValid(s.(lights := PropLights(props)))
  {
  }

  // ---------------------------------------------------------------------------
  // The component

  class ThreeDModelViewer {
    /** The selected effect: "none", "bloom", "vignette" or "bokeh". */
    var effect: string
    /** The effect controls. */
    var params: EffectParams
    /** The rotation state that labels the toggle button. */
    var isRotating: bool
    /** `isRotatingRef.current`, read by every animation frame. */
    var rotatingRef: bool

    /** `mountRef.current` is set. */
    var hostAttached: bool
    /** The scene, camera, renderer, composer and pass refs, once the mount effect has set them. */
    var scene: Option<Scene>
    /** `modelRef.current`. */
    var mesh: Option<Mesh>
    /** The id the next geometry built gets. */
    var nextGeometryId: nat
    /** The renderer's canvas is a child of the host element. */
    var canvasAttached: bool

    /** An animation frame is requested and not cancelled. */
    var frameScheduled: bool
    /** `animationIdRef.current`. */
    var animationId: nat
    /** The id the next `requestAnimationFrame` returns. */
    var nextFrameId: nat
    /** The window resize listener is registered. */
    var listening: bool

    ghost var log: seq<Event>

    /**
      The component's invariant: the scene is as the effects leave it, the
      rotation ref and state agree, a mesh exists only in a scene, a frame
      is pending exactly while the mesh and the listener exist, and each
      geometry is disposed at most once, the live one not yet.
    */
    ghost predicate Valid()
      reads this
    {
      && (scene.Some? ==> SceneValid(scene.value))
      && isRotating == rotatingRef
      && (mesh.Some? ==> scene.Some?)
      && mesh.Some? == listening
      && frameScheduled == listening
      && (frameScheduled ==> animationId + 1 == nextFrameId)
      && (listening ==> canvasAttached)
      && DisposalsValid(log, nextGeometryId)
      && (mesh.Some? ==> mesh.value.geometry.id < nextGeometryId && DisposeCount(log, mesh.value.geometry.id) == 0)
    }

    /** The first render, before any effect: no refs, effect "none", rotating. */
    constructor ()
      ensures Valid()
      ensures effect == "none" && params == DefaultEffectParams && isRotating && rotatingRef
      ensures !hostAttached && scene == None && mesh == None && !listening && !frameScheduled
      ensures log == [] && nextGeometryId == 0 && nextFrameId == 0
    {
      effect := "none";
      params := DefaultEffectParams;
      isRotating := true;
      rotatingRef := true;
      hostAttached := false;
      scene := None;
      mesh := None;
      nextGeometryId := 0;
      canvasAttached := false;
      frameScheduled := false;
      animationId := 0;
      nextFrameId := 0;
      listening := false;
      log := [];
    }

    /**
      One run of `animate`: request the next frame, turn the mesh if the
      rotation ref is set, update the controls and render.
    */
    method Animate()
      requires scene.Some?
      modifies this`animationId, this`nextFrameId, this`frameScheduled, this`mesh, this`log
      ensures frameScheduled && animationId == old(nextFrameId) && nextFrameId == old(nextFrameId) + 1
      ensures mesh.Some? == old(mesh).Some?
      ensures mesh.Some? ==> mesh.value == old(mesh).value.(rotation :=
        if rotatingRef then Turned(old(mesh).value.rotation) else old(mesh).value.rotation)
      ensures log == old(log) + [FrameRequested(old(nextFrameId)), ControlsUpdated, Rendered]
    {
      animationId := nextFrameId;
      nextFrameId := nextFrameId + 1;
      frameScheduled := true;
      if rotatingRef && mesh.Some? {
        mesh := Some(mesh.value.(rotation := Turned(mesh.value.rotation)));
      }
      log := log + [FrameRequested(animationId), ControlsUpdated, Rendered];
    }

    /**
      The mount effect. Without a host element it does nothing. Otherwise it
      builds the scene and the mesh, runs the first frame and registers the
      resize listener.
    */
    method Mount(host: Option<Size>, props: SceneProps)
      requires Valid() && !listening
      modifies this`hostAttached, this`scene, this`mesh, this`nextGeometryId, this`canvasAttached
      modifies this`animationId, this`nextFrameId, this`frameScheduled, this`listening, this`log
      ensures Valid()
      ensures hostAttached == host.Some?
      ensures host.None? ==>
        && scene == old(scene) && mesh == None && !listening && log == old(log)
        && canvasAttached == old(canvasAttached) && animationId == old(animationId)
        && nextFrameId == old(nextFrameId) && nextGeometryId == old(nextGeometryId)
      ensures host.Some? ==>
        && scene == Some(NewScene(host.value, props, params))
        && animationId == old(nextFrameId) && nextFrameId == old(nextFrameId) + 1
        && nextGeometryId == old(nextGeometryId) + 1
        && mesh == Some(NewMesh(old(nextGeometryId), props).(rotation :=
             if rotatingRef then Turned(Rotation(0.0, 0.0)) else Rotation(0.0, 0.0)))
        && listening && canvasAttached
        && log == old(log) + [CanvasAttached, FrameRequested(old(nextFrameId)), ControlsUpdated, Rendered, ListenerAdded]
    {
      hostAttached := host.Some?;
      if host.Some? {
        MountOn(host.value, props);
      }
    }

    /** The mount effect once a host element of the given size is there. */
    method MountOn(size: Size, props: SceneProps)
      requires Valid() && !listening
      modifies this`scene, this`mesh, this`nextGeometryId, this`canvasAttached
      modifies this`animationId, this`nextFrameId, this`frameScheduled, this`listening, this`log
      ensures Valid()
      ensures scene == Some(NewScene(size, props, params))
      ensures mesh == Some(NewMesh(old(nextGeometryId), props).(rotation :=
        if rotatingRef then Turned(Rotation(0.0, 0.0)) else Rotation(0.0, 0.0)))
      ensures listening && canvasAttached
      ensures animationId == old(nextFrameId) && nextFrameId == old(nextFrameId) + 1
      ensures nextGeometryId == old(nextGeometryId) + 1
      ensures log == old(log) + [CanvasAttached, FrameRequested(old(nextFrameId)), ControlsUpdated, Rendered, ListenerAdded]
    {
      CreateScene(size, props);
      Animate();
      listening := true;
      log := log + [ListenerAdded];
      MountKeepsDisposals(old(log), old(nextFrameId), old(nextGeometryId));
    }

    /**
      The part of the mount effect before the first frame: the scene sized
      to the host, the canvas attached, and the mesh built from the props.
    */
    method CreateScene(size: Size, props: SceneProps)
      modifies this`scene, this`mesh, this`nextGeometryId, this`canvasAttached, this`log
      ensures scene == Some(NewScene(size, props, params))
      ensures mesh == Some(NewMesh(old(nextGeometryId), props)) && nextGeometryId == old(nextGeometryId) + 1
      ensures canvasAttached && log == old(log) + [CanvasAttached]
    {
      var viewport := ResizedViewport(size);
      canvasAttached := true;
      log := log + [CanvasAttached];
      var composer := Composer(ComposerOrder, AllDisabled, params);
      scene := Some(Scene(viewport, composer, PropLights(props)));
      mesh := Some(Mesh(BuildGeometry(nextGeometryId, props), InitialMaterial(props), Rotation(0.0, 0.0)));
      nextGeometryId := nextGeometryId + 1;
    }

    /**
      The geometry/material effect. With a mesh, non-empty `vertices` and
      `faces` replace its geometry, disposing the old one; the material
      always takes the wireframe, color and texture props. With a scene, the
      lights take the lighting props.
    */
    method SyncScene(props: SceneProps)
      requires Valid()
      modifies this`mesh, this`nextGeometryId, this`log, this`scene
      ensures Valid()
      ensures mesh.Some? == old(mesh).Some?
      ensures mesh.Some? ==>
        && mesh.value.material == Material(props.wireframe, props.color, TextureMap(props.texture), true)
        && mesh.value.rotation == old(mesh).value.rotation
      ensures old(mesh).Some? && |props.vertices| > 0 && |props.faces| > 0 ==>
        && mesh.value.geometry == BuildGeometry(old(nextGeometryId), props)
        && nextGeometryId == old(nextGeometryId) + 1
        && log == old(log) + [GeometryDisposed(old(mesh).value.geometry.id)]
        && DisposeCount(log, old(mesh).value.geometry.id) == 1
      ensures !(old(mesh).Some? && |props.vertices| > 0 && |props.faces| > 0) ==>
        && (mesh.Some? ==> mesh.value.geometry == old(mesh).value.geometry)
        && nextGeometryId == old(nextGeometryId) && log == old(log)
      ensures scene == if old(scene).Some? then Some(old(scene).value.(lights := PropLights(props))) else None
    {
      if mesh.Some? {
        var m := mesh.value;
        if |props.vertices| > 0 && |props.faces| > 0 {
          var replacement := BuildGeometry(nextGeometryId, props);
          AppendDispose(log, [], m.geometry.id, [], nextGeometryId);
          assert [] + [GeometryDisposed(m.geometry.id)] + [] == [GeometryDisposed(m.geometry.id)];
          nextGeometryId := nextGeometryId + 1;
          log := log + [GeometryDisposed(m.geometry.id)];
          m := m.(geometry := replacement);
        }
        mesh := Some(m.(material := Material(props.wireframe, props.color, TextureMap(props.texture), true)));
      }
      if scene.Some? {
        LightsKeepValid(scene.value, props);
        scene := Some(scene.value.(lights := PropLights(props)));
      }
    }

    /**
      The effect-selection effect: with a composer, disable all four effect
      passes, enable the one `effect` names, then enable color correction.
    */
    method ApplyEffectSelection()
      requires Valid()
      modifies this`scene
      ensures Valid()
      ensures scene.Some? == old(scene).Some?
      ensures scene.Some? ==> scene.value == old(scene).value.(composer :=
        old(scene).value.composer.(flags := SelectionFlags(effect)))
    {
      if scene.None? {
        return;
      }
      var flags := AllDisabled;
      if effect == "bloom" {
        flags := flags.(bloom := true);
      }
      if effect == "vignette" {
        flags := flags.(vignette := true);
      }
      if effect == "bokeh" {
        flags := flags.(bokeh := true);
      }
      flags := flags.(colorCorrection := true);
      SelectionKeepsValid(scene.value, effect);
      scene := Some(scene.value.(composer := scene.value.composer.(flags := flags)));
    }

    /** Choosing an effect in the dropdown, which re-runs the selection effect. */
    method SetEffect(e: string)
      requires Valid()
      modifies this`effect, this`scene
      ensures Valid()
      ensures effect == e
      ensures scene.Some? == old(scene).Some?
      ensures scene.Some? ==> scene.value == old(scene).value.(composer :=
        old(scene).value.composer.(flags := SelectionFlags(e)))
    {
      effect := e;
      ApplyEffectSelection();
    }

    /**
      Changing an effect parameter: the selection effect runs again (it lists
      the parameters among its dependencies) and leaves the flags as they
      were once it has run; the parameter effects copy the values into the
      passes.
    */
    method SetEffectParams(p: EffectParams)
      requires Valid()
      modifies this`params, this`scene
      ensures Valid()
      ensures params == p
      ensures scene.Some? == old(scene).Some?
      ensures scene.Some? ==> scene.value == old(scene).value.(composer :=
        Composer(old(scene).value.composer.passes, SelectionFlags(effect), p))
      ensures scene.Some? && old(scene).value.composer.flags == SelectionFlags(effect) ==>
        scene.value.composer.flags == old(scene).value.composer.flags
    {
      params := p;
      ApplyEffectSelection();
      if scene.Some? {
        ParamsKeepValid(scene.value, p);
        scene := Some(scene.value.(composer := scene.value.composer.(params := p)));
      }
    }

    /** One animation frame, run by the browser while a frame is requested. */
    method Tick()
      requires Valid() && frameScheduled
      modifies this`animationId, this`nextFrameId, this`frameScheduled, this`mesh, this`log
      ensures Valid()
      ensures mesh.Some? && mesh.value == old(mesh).value.(rotation :=
        if rotatingRef then Turned(old(mesh).value.rotation) else old(mesh).value.rotation)
      ensures frameScheduled && animationId == old(nextFrameId) && nextFrameId == old(nextFrameId) + 1
      ensures log == old(log) + [FrameRequested(old(nextFrameId)), ControlsUpdated, Rendered]
    {
      AppendQuiet(log, [FrameRequested(nextFrameId), ControlsUpdated, Rendered], nextGeometryId, mesh.value.geometry.id);
      Animate();
    }

    /** The rotation button: flip the ref every frame reads, and the state that labels the button. */
    method ToggleRotation()
      requires Valid()
      modifies this`rotatingRef, this`isRotating
      ensures Valid()
      ensures rotatingRef == !old(rotatingRef) && isRotating == rotatingRef
    {
      rotatingRef := !rotatingRef;
      isRotating := !isRotating;
    }

    /**
      The resize listener: with renderer, camera and host present, size the
      renderer and the composer to the host and set the camera aspect;
      otherwise nothing.
    */
    method HandleWindowResize(size: Size)
      requires Valid()
      modifies this`scene
      ensures Valid()
      ensures scene == if old(scene).Some? && hostAttached
        then Some(old(scene).value.(viewport := ResizedViewport(size))) else old(scene)
    {
      if scene.Some? && hostAttached {
        ResizeKeepsValid(scene.value, size);
        scene := Some(scene.value.(viewport := ResizedViewport(size)));
      }
    }

    /** React clearing `mountRef` when the host element leaves the page. */
    method DetachHost()
      requires Valid()
      modifies this`hostAttached
      ensures Valid()
      ensures !hostAttached
    {
      hostAttached := false;
    }

    /**
      The mount effect's cleanup: cancel the pending frame, dispose the
      controls, composer and renderer, remove the mesh and dispose its
      geometry and material, clear `modelRef`, remove the resize listener,
      and detach the canvas when the host is still there.
    */
    method Teardown()
      requires Valid() && listening
      modifies this`frameScheduled, this`mesh, this`listening, this`canvasAttached, this`log
      ensures Valid()
      ensures log == old(log) + TeardownEvents(old(animationId), old(mesh).value.geometry.id, old(hostAttached))
      ensures old(animationId) + 1 == old(nextFrameId)
      ensures mesh == None && !frameScheduled && !listening
      ensures canvasAttached == !old(hostAttached)
    {
      ghost var steps := TeardownEvents(animationId, mesh.value.geometry.id, hostAttached);
      TeardownKeepsDisposals(log, animationId, mesh.value.geometry.id, hostAttached, nextGeometryId);
      // the pending frame is cancelled; the controls, composer and renderer are disposed
      frameScheduled := false;
      // the mesh is removed, its geometry and material disposed, and `modelRef` cleared
      mesh := None;
      listening := false;
      if hostAttached {
        canvasAttached := false;
      }
      log := log + steps;
    }
  }

  // ---------------------------------------------------------------------------
  // Sequences of component events

  /**
    The first commit with a host element: the mount effect, then the
    geometry/material effect, then the effect-selection effect, in the order
    they are declared. The passes are in composer order, and of the four
    effect passes, which the mount left disabled, only color correction is on.
    Non-empty props make the update effect replace, and dispose, the geometry
    the mount effect built from the same props.
  */
  method FirstCommit(host: Size, props: SceneProps) returns (v: ThreeDModelViewer)
    ensures fresh(v) && v.Valid()
    ensures v.scene.Some? && v.scene.value.composer == Composer(ComposerOrder, PassFlags(false, false, false, true), DefaultEffectParams)
    ensures v.scene.value.viewport == ResizedViewport(host)
    ensures v.mesh.Some? && v.frameScheduled && v.listening
    ensures v.mesh.value.geometry.positions == props.vertices && |v.mesh.value.geometry.index| == |props.faces|
    ensures v.mesh.value.rotation == Rotation(0.005, 0.01)
    ensures v.log == [CanvasAttached, FrameRequested(0), ControlsUpdated, Rendered, ListenerAdded]
      + (if |props.vertices| > 0 && |props.faces| > 0 then [GeometryDisposed(0)] else [])
  {
    v := new ThreeDModelViewer();
    v.Mount(Some(host), props);
    v.SyncScene(props);
    v.ApplyEffectSelection();
  }

  /**
    Mount followed at once by unmount: teardown cancels frame 0, the one
    the mount's first `animate()` requested, and disposes geometry 0, the
    one the mount built.
  */
  method MountThenTeardown(host: Size, props: SceneProps) returns (v: ThreeDModelViewer)
    ensures fresh(v) && v.Valid() && v.mesh == None && !v.frameScheduled
    ensures v.log == [CanvasAttached, FrameRequested(0), ControlsUpdated, Rendered, ListenerAdded]
      + TeardownEvents(0, 0, true)
  {
    v := new ThreeDModelViewer();
    v.Mount(Some(host), props);
    v.Teardown();
  }

  /** Once rotation is toggled off, the next frame leaves the angles unchanged. */
  method ToggleOffThenTick(v: ThreeDModelViewer)
    requires v.Valid() && v.frameScheduled && v.rotatingRef
    modifies v
    ensures v.Valid() && !v.rotatingRef && !v.isRotating
    ensures v.mesh == old(v.mesh)
  {
    v.ToggleRotation();
    v.Tick();
  }

  /** Toggling rotation twice restores it: the next frame turns the mesh again. */
  method ToggleTwiceThenTick(v: ThreeDModelViewer)
    requires v.Valid() && v.frameScheduled && v.rotatingRef
    modifies v
    ensures v.Valid() && v.rotatingRef
    ensures v.mesh.Some? && v.mesh.value.rotation == Turned(old(v.mesh).value.rotation)
  {
    v.ToggleRotation();
    v.ToggleRotation();
    v.Tick();
  }

  /**
    A prop update that swaps the geometry followed by unmount: the replaced
    geometry and the final one are each disposed exactly once.
  */
  method SwapThenTeardown(v: ThreeDModelViewer, props: SceneProps)
    requires v.Valid() && v.listening && |props.vertices| > 0 && |props.faces| > 0
    modifies v
    ensures v.Valid() && v.mesh == None
    ensures DisposeCount(v.log, old(v.mesh).value.geometry.id) == 1
    ensures DisposeCount(v.log, old(v.nextGeometryId)) == 1
  {
    var g0, g1 := v.mesh.value.geometry.id, v.nextGeometryId;
    v.SyncScene(props);
    ghost var swapped := v.log;
    var frame, host := v.animationId, v.hostAttached;
    assert DisposeCount(swapped, g0) == 1 && DisposeCount(swapped, g1) == 0;
    v.Teardown();
    TeardownAfterSwap(swapped, frame, g0, g1, host);
  }

  /** Disposal counts across a teardown that follows a swap from geometry `g0` to `g1`. */
  lemma TeardownAfterSwap(swapped: seq<Event>, frame: nat, g0: nat, g1: nat, hostPresent: bool)
    requires g0 != g1 && DisposeCount(swapped, g0) == 1 && DisposeCount(swapped, g1) == 0
    ensures DisposeCount(swapped + TeardownEvents(frame, g1, hostPresent), g0) == 1
    ensures DisposeCount(swapped + TeardownEvents(frame, g1, hostPresent), g1) == 1
  {
    DisposeCountAppend(swapped, TeardownEvents(frame, g1, hostPresent), g0);
    DisposeCountAppend(swapped, TeardownEvents(frame, g1, hostPresent), g1);
    TeardownDisposesOnce(frame, g1, hostPresent, g0);
    TeardownDisposesOnce(frame, g1, hostPresent, g1);
  }

  /** After the host is gone, a resize leaves the scene as it was. */
  method ResizeWithoutHost(v: ThreeDModelViewer, size: Size)
    requires v.Valid()
    modifies v
    ensures v.Valid() && v.scene == old(v.scene)
  {
    v.DetachHost();
    v.HandleWindowResize(size);
  }
}
