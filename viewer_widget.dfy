/**
 * The mesh and instance registry of the viewer widget
 * (PyIGL_viewer/viewer/viewer_widget.py). Callers request new meshes and
 * instances; each request hands back an index at once and emits a Qt signal,
 * and the connected slot changes the registry later, when Qt delivers the
 * signal. That hop is modelled as an explicit FIFO queue of events: requests
 * push, `Drain` pops and applies in order.
 */
module ViewerWidget {
  import opened Values
  import opened Gl
  import opened Mesh

  /** Per-vertex attribute arrays by name. */
  type Attributes = map<string, seq<real>>

  /** Uniform values by name. */
  type UniformValues = map<string, seq<real>>

  /** A compiled shader as the widget uses it: its name and its GL program handle. */
  datatype Shader = Shader(name: string, program: nat)

  /**
   * A Python dict of uniforms. It is an object because add_mesh_instance_
   * writes the light values into the dict it is handed; the model has the
   * signal hand the slot the caller's own dict object.
   */
  class UniformDict {
    var entries: UniformValues

    constructor (entries: UniformValues)
      ensures this.entries == entries
    {
      this.entries := entries;
    }
  }

  /**
   * Whether the instance constructor raises ValueError for a shader, the
   * attributes, the uniforms and the fill flag. The constructor's code is
   * not part of this model, so this is an input. It does not see the mesh,
   * so a ValueError that depends on the mesh (attribute sizes against its
   * vertex count, say) cannot be expressed.
   */
  type InstanceCheck = (Shader, Attributes, UniformValues, bool) -> bool

  /** The instance record of this revision: the six constructor arguments, the model matrix starting as None. */
  datatype MeshInstance = MeshInstance(
    mesh: GlMesh?,
    model_matrix: Option<Mat4>,
    attributes: Attributes,
    uniforms: UniformDict,
    shader: Shader,
    fill: bool)

  /** A signal emitted by a request and not yet delivered to its slot. */
  datatype Event =
    | AddMeshEvent(vertices: Rows, faces: Faces)
    | AddMeshInstanceEvent(mesh_index: nat, shader_name: string, attributes: Attributes,
                           uniforms: UniformDict, fill: bool)
    | UpdateMeshInstanceModelEvent(instance_index: nat, model: Mat4)

  /** The Python exceptions the modelled code can raise. */
  datatype PythonError = IndexError | KeyError(key: string) | ValueError | AttributeError

  /** One instance drawn by paintGL: which one, with what program, polygon mode, model matrix and index count. */
  datatype Draw = Draw(instance: nat, program: nat, mode: PolygonMode, model: Mat4, count: nat)

  /** The (vertices, faces) payloads of the queued add-mesh events, oldest first. */
  function PendingMeshes(q: seq<Event>): seq<(Rows, Faces)>
  {
    if q == [] then []
    else (if q[0].AddMeshEvent? then [(q[0].vertices, q[0].faces)] else []) + PendingMeshes(q[1..])
  }

  /** The queued add-instance events, oldest first. */
  function PendingInstanceRequests(q: seq<Event>): (r: seq<Event>)
    ensures forall e :: e in r ==> e.AddMeshInstanceEvent?
  {
    if q == [] then []
    else (if q[0].AddMeshInstanceEvent? then [q[0]] else []) + PendingInstanceRequests(q[1..])
  }

  /** The uniform dicts the queued add-instance events will write to. */
  ghost function QueuedDicts(q: seq<Event>): set<object>
  {
    if q == [] then {}
    else (if q[0].AddMeshInstanceEvent? then {q[0].uniforms} else {}) + QueuedDicts(q[1..])
  }

  /** Pushing an event at the back adds its payload at the back of the pending meshes. */
  lemma {:induction false} PendingMeshesAfterPush(q: seq<Event>, e: Event)
    ensures PendingMeshes(q + [e]) == PendingMeshes(q) + (if e.AddMeshEvent? then [(e.vertices, e.faces)] else [])
  {
    if q != [] {
      assert (q + [e])[1..] == q[1..] + [e];
      PendingMeshesAfterPush(q[1..], e);
    }
  }

  /** Pushing an event at the back adds it at the back of the pending instance requests when it is one. */
  lemma {:induction false} PendingInstancesAfterPush(q: seq<Event>, e: Event)
    ensures PendingInstanceRequests(q + [e]) == PendingInstanceRequests(q) + (if e.AddMeshInstanceEvent? then [e] else [])
  {
    if q != [] {
      assert (q + [e])[1..] == q[1..] + [e];
      PendingInstancesAfterPush(q[1..], e);
    }
  }

  /** The number of requests whose instance was appended. */
  function Count(outcomes: seq<bool>): (c: nat)
    ensures c <= |outcomes|
  {
    if outcomes == [] then 0
    else Count(outcomes[..|outcomes| - 1]) + (if outcomes[|outcomes| - 1] then 1 else 0)
  }

  /**
   * Every request was appended exactly when the count of appended requests
   * is the number of requests. InstancesFrom places the r-th request's
   * instance at Count(outcomes[..r]); ReturnedIndexHoldsRequest uses this
   * lemma to show that position is r when no earlier request was dropped.
   */
  lemma {:induction false} CountMatchesIndex(outcomes: seq<bool>)
    ensures Count(outcomes) == |outcomes| <==> forall j :: 0 <= j < |outcomes| ==> outcomes[j]
  {
    if outcomes != [] {
      var init := outcomes[..|outcomes| - 1];
      CountMatchesIndex(init);
      assert forall j :: 0 <= j < |init| ==> init[j] == outcomes[j];
    }
  }

  /**
   * The shader an instance request is built with, if any: none when the name
   * is unknown; the requested one unless its construction raises ValueError;
   * otherwise the 'default' shader. Failures are the exceptions that escape.
   */
  function ChooseShader(shaders: map<string, Shader>, shader: string, mesh_found: bool,
                        attributes: Attributes, uniforms: UniformValues, fill: bool,
                        rejects: InstanceCheck): (r: Result<Option<Shader>, PythonError>)
    ensures r == Success(None) <==> shader !in shaders
    ensures shader in shaders && !mesh_found ==> r == Failure(IndexError)
    ensures r.Success? && r.value.Some? ==>
      && !rejects(r.value.value, attributes, uniforms, fill)
      && (rejects(shaders[shader], attributes, uniforms, fill) ==>
            "default" in shaders && r.value.value == shaders["default"])
      && (!rejects(shaders[shader], attributes, uniforms, fill) ==> r.value.value == shaders[shader])
    ensures shader in shaders && mesh_found && !rejects(shaders[shader], attributes, uniforms, fill) ==>
      r == Success(Some(shaders[shader]))
    ensures r.Failure? && r.error != IndexError ==>
      rejects(shaders[shader], attributes, uniforms, fill) &&
      ("default" !in shaders || rejects(shaders["default"], attributes, uniforms, fill))
  {
    if shader !in shaders then Success(None)
    else if !mesh_found then Failure(IndexError)
    else if !rejects(shaders[shader], attributes, uniforms, fill) then Success(Some(shaders[shader]))
    else if "default" !in shaders then Failure(KeyError("default"))
    else if rejects(shaders["default"], attributes, uniforms, fill) then Failure(ValueError)
    else Success(Some(shaders["default"]))
  }

  /** Whether the slot appends an instance for a shader choice. */
  predicate Appends(choice: Result<Option<Shader>, PythonError>)
  {
    choice.Success? && choice.value.Some?
  }

  /** The exception that escapes the slot for a shader choice, if any. */
  function Raised(choice: Result<Option<Shader>, PythonError>): Option<PythonError>
  {
    if choice.Failure? then Some(choice.error) else None
  }

  /** The uniforms after the three light values are written into them. */
  function WithLights(uniforms: UniformValues, direction: seq<real>, intensity: seq<real>,
                      ambient: seq<real>): (r: UniformValues)
    ensures r.Keys == uniforms.Keys + {"lightDirection", "lightIntensity", "ambientLighting"}
    ensures r["lightDirection"] == direction && r["lightIntensity"] == intensity && r["ambientLighting"] == ambient
    ensures forall k :: k in uniforms && k !in {"lightDirection", "lightIntensity", "ambientLighting"} ==>
      r[k] == uniforms[k]
  {
    uniforms["lightDirection" := direction]["lightIntensity" := intensity]["ambientLighting" := ambient]
  }

  /** A mesh object built by add_mesh_ from the given request. */
  predicate BuiltFrom(m: GlMesh, request: (Rows, Faces))
  {
    && m.number_vertices == |request.0|
    && m.number_elements == |request.1|
    && m.element_buffer == Vbo(request.1, ElementArrayBuffer)
  }

  /** paintGL skips wireframe instances while the wireframe is switched off. */
  predicate Hidden(inst: MeshInstance, draw_wireframe: bool)
  {
    inst.shader.name == "wireframe" && !draw_wireframe
  }

  /** A drawn instance whose mesh was removed: drawing it raises AttributeError. */
  predicate Broken(inst: MeshInstance, draw_wireframe: bool)
  {
    !Hidden(inst, draw_wireframe) && inst.mesh == null
  }

  /** paintGL gives an instance without a model matrix the identity. */
  function WithDefaultModel(inst: MeshInstance): (r: MeshInstance)
    ensures r.model_matrix.Some?
    ensures inst.model_matrix.Some? ==> r == inst
    ensures r == inst.(model_matrix := r.model_matrix)
    ensures inst.model_matrix.None? ==> r.model_matrix == Some(Identity4())
  {
    if inst.model_matrix.None? then inst.(model_matrix := Some(Identity4())) else inst
  }

  /** The draw of instance i, once its model matrix has been defaulted. */
  function DrawOf(i: nat, inst: MeshInstance): Draw
    requires inst.mesh != null
  {
    Draw(i, inst.shader.program, if inst.fill then Fill else Line,
         WithDefaultModel(inst).model_matrix.value, 3 * inst.mesh.number_elements)
  }

  /** The position of the first instance whose drawing raises, or the length of the list. */
  function FirstBroken(insts: seq<MeshInstance>, draw_wireframe: bool): (k: nat)
    ensures k <= |insts|
    ensures forall j :: 0 <= j < k ==> !Broken(insts[j], draw_wireframe)
    ensures k < |insts| ==> Broken(insts[k], draw_wireframe)
  {
    if insts == [] then 0
    else if Broken(insts[0], draw_wireframe) then 0
    else 1 + FirstBroken(insts[1..], draw_wireframe)
  }

  /** No drawn instance of the list raises. */
  predicate NoneBroken(insts: seq<MeshInstance>, draw_wireframe: bool)
  {
    forall j :: 0 <= j < |insts| ==> !Broken(insts[j], draw_wireframe)
  }

  /** The draws of a list none of whose drawn instances raises, in list order. */
  function Draws(insts: seq<MeshInstance>, draw_wireframe: bool): seq<Draw>
    requires NoneBroken(insts, draw_wireframe)
  {
    if insts == [] then []
    else
      var last := |insts| - 1;
      assert !Broken(insts[last], draw_wireframe);
      assert forall j :: 0 <= j < last ==> insts[..last][j] == insts[j];
      Draws(insts[..last], draw_wireframe) +
        (if Hidden(insts[last], draw_wireframe) then [] else [DrawOf(last, insts[last])])
  }

  /** The positions paintGL draws: every instance that is not hidden, in list order. */
  function Visible(insts: seq<MeshInstance>, draw_wireframe: bool): seq<nat>
  {
    if insts == [] then []
    else
      var last := |insts| - 1;
      Visible(insts[..last], draw_wireframe) + (if Hidden(insts[last], draw_wireframe) then [] else [last])
  }

  /** What paintGL leaves at an instance's position: a visible instance without a model matrix gets the identity. */
  function PaintOne(inst: MeshInstance, draw_wireframe: bool): MeshInstance
  {
    if Hidden(inst, draw_wireframe) then inst else WithDefaultModel(inst)
  }

  /** The list after paintGL has handled its first n instances. */
  function Painted(insts: seq<MeshInstance>, draw_wireframe: bool, n: nat): (r: seq<MeshInstance>)
    requires n <= |insts|
    ensures |r| == |insts|
    decreases n
  {
    if n == 0 then insts
    else Painted(insts, draw_wireframe, n - 1)[n - 1 := PaintOne(insts[n - 1], draw_wireframe)]
  }

  /** Position j of the list is painted exactly when it is among the first n. */
  lemma {:induction false} PaintedAt(insts: seq<MeshInstance>, draw_wireframe: bool, n: nat, j: nat)
    requires n <= |insts| && j < |insts|
    ensures Painted(insts, draw_wireframe, n)[j] == if j < n then PaintOne(insts[j], draw_wireframe) else insts[j]
    decreases n
  {
    if n > 0 {
      PaintedAt(insts, draw_wireframe, n - 1, j);
    }
  }

  /** Painting changes nothing but model matrices. */
  lemma PaintedKeepsFields(insts: seq<MeshInstance>, draw_wireframe: bool, n: nat)
    requires n <= |insts|
    ensures KeptUpToModel(insts, Painted(insts, draw_wireframe, n))
  {
    forall j | 0 <= j < |insts|
      ensures Painted(insts, draw_wireframe, n)[j] == insts[j].(model_matrix := Painted(insts, draw_wireframe, n)[j].model_matrix)
    {
      PaintedAt(insts, draw_wireframe, n, j);
    }
  }

  /** Handling instance i adds its draw, unless it is hidden, when all before it are drawn without raising. */
  lemma DrawsStep(insts: seq<MeshInstance>, draw_wireframe: bool, i: nat)
    requires i <= FirstBroken(insts, draw_wireframe) && i < |insts| && !Broken(insts[i], draw_wireframe)
    ensures i < FirstBroken(insts, draw_wireframe)
    ensures NoneBroken(insts[..i], draw_wireframe) && NoneBroken(insts[..i + 1], draw_wireframe)
    ensures insts[i].mesh != null || Hidden(insts[i], draw_wireframe)
    ensures Draws(insts[..i + 1], draw_wireframe) == Draws(insts[..i], draw_wireframe) +
      (if Hidden(insts[i], draw_wireframe) then [] else [DrawOf(i, insts[i])])
  {
    assert insts[..i + 1][..i] == insts[..i];
  }

  /** The k-th draw is the draw of the k-th visible instance. */
  lemma {:induction false} DrawsFollowVisible(insts: seq<MeshInstance>, draw_wireframe: bool)
    requires NoneBroken(insts, draw_wireframe)
    ensures |Draws(insts, draw_wireframe)| == |Visible(insts, draw_wireframe)|
    ensures forall k :: 0 <= k < |Visible(insts, draw_wireframe)| ==>
      Visible(insts, draw_wireframe)[k] < |insts| &&
      !Hidden(insts[Visible(insts, draw_wireframe)[k]], draw_wireframe) &&
      Draws(insts, draw_wireframe)[k] == DrawOf(Visible(insts, draw_wireframe)[k], insts[Visible(insts, draw_wireframe)[k]])
  {
    if insts != [] {
      var last := |insts| - 1;
      var init := insts[..last];
      DrawsFollowVisible(init, draw_wireframe);
      forall k | 0 <= k < |Visible(init, draw_wireframe)|
        ensures insts[Visible(init, draw_wireframe)[k]] == init[Visible(init, draw_wireframe)[k]]
      {
      }
    }
  }

  /** An instance is drawn exactly when it is not a wireframe instance while the wireframe is off. */
  lemma {:induction false} VisibleExactly(insts: seq<MeshInstance>, draw_wireframe: bool, i: nat)
    ensures i in Visible(insts, draw_wireframe) <==> i < |insts| && !Hidden(insts[i], draw_wireframe)
  {
    if insts != [] {
      var last := |insts| - 1;
      VisibleExactly(insts[..last], draw_wireframe, i);
      if i < last {
        assert insts[..last][i] == insts[i];
      }
    }
  }

  /** With the wireframe switched on, every instance is drawn, in list order. */
  lemma {:induction false} AllVisibleWithWireframe(insts: seq<MeshInstance>)
    ensures Visible(insts, true) == seq(|insts|, i => i)
  {
    if insts != [] {
      AllVisibleWithWireframe(insts[..|insts| - 1]);
    }
  }

  /** After the whole list is handled, every position holds its painted instance. */
  lemma PaintedAll(insts: seq<MeshInstance>, draw_wireframe: bool)
    ensures forall j :: 0 <= j < |insts| ==>
      Painted(insts, draw_wireframe, |insts|)[j] == PaintOne(insts[j], draw_wireframe)
  {
    forall j | 0 <= j < |insts|
      ensures Painted(insts, draw_wireframe, |insts|)[j] == PaintOne(insts[j], draw_wireframe)
    {
      PaintedAt(insts, draw_wireframe, |insts|, j);
    }
  }

  /** Painting changes model matrices only, so the same instances are hidden and broken. */
  lemma PaintedKeepsBroken(insts: seq<MeshInstance>, draw_wireframe: bool)
    requires NoneBroken(insts, draw_wireframe)
    ensures NoneBroken(Painted(insts, draw_wireframe, |insts|), draw_wireframe)
  {
    PaintedAll(insts, draw_wireframe);
  }

  /** Two instances at position j are hidden alike and, when drawn, give the same draw. */
  predicate DrawnAlike(j: nat, x: MeshInstance, y: MeshInstance, draw_wireframe: bool)
  {
    && Hidden(x, draw_wireframe) == Hidden(y, draw_wireframe)
    && (x.mesh != null && y.mesh != null ==> DrawOf(j, x) == DrawOf(j, y))
  }

  /** Lists that are drawn alike position by position give the same draws. */
  lemma {:induction false} DrawsPointwise(a: seq<MeshInstance>, b: seq<MeshInstance>, draw_wireframe: bool)
    requires NoneBroken(a, draw_wireframe) && NoneBroken(b, draw_wireframe) && |a| == |b|
    requires forall j :: 0 <= j < |a| ==> DrawnAlike(j, a[j], b[j], draw_wireframe)
    ensures Draws(a, draw_wireframe) == Draws(b, draw_wireframe)
  {
    if a != [] {
      var last := |a| - 1;
      assert forall j :: 0 <= j < last ==> a[..last][j] == a[j] && b[..last][j] == b[j];
      DrawsPointwise(a[..last], b[..last], draw_wireframe);
    }
  }

  /** Painting changes model matrices only, so the same instances are drawn, with the same draws. */
  lemma DrawsOfPainted(insts: seq<MeshInstance>, draw_wireframe: bool)
    requires NoneBroken(insts, draw_wireframe)
    ensures var once := Painted(insts, draw_wireframe, |insts|);
      && NoneBroken(once, draw_wireframe)
      && Draws(once, draw_wireframe) == Draws(insts, draw_wireframe)
  {
    PaintedKeepsBroken(insts, draw_wireframe);
    PaintedAll(insts, draw_wireframe);
    var once := Painted(insts, draw_wireframe, |insts|);
    DrawsPointwise(once, insts, draw_wireframe);
  }

  /** Painting a list that was already painted draws the same and leaves the list as it is. */
  lemma RepaintIsStable(insts: seq<MeshInstance>, draw_wireframe: bool)
    requires NoneBroken(insts, draw_wireframe)
    ensures var once := Painted(insts, draw_wireframe, |insts|);
      && NoneBroken(once, draw_wireframe)
      && Painted(once, draw_wireframe, |once|) == once
      && Draws(once, draw_wireframe) == Draws(insts, draw_wireframe)
  {
    DrawsOfPainted(insts, draw_wireframe);
    var once := Painted(insts, draw_wireframe, |insts|);
    PaintedAll(insts, draw_wireframe);
    PaintedAll(once, draw_wireframe);
  }

  /**
   * The loop of paintGL over the instance list: skips hidden instances,
   * gives the others the identity when they have no model matrix, and draws
   * them, until an instance without a mesh raises AttributeError. Returns
   * the updated list alongside the draws.
   */
  method PaintList(insts: seq<MeshInstance>, w: bool)
    returns (list: seq<MeshInstance>, draws: seq<Draw>, error: Option<PythonError>)
    ensures var k := FirstBroken(insts, w);
      && (error.None? <==> k == |insts|)
      && (error.Some? ==> error == Some(AttributeError))
      && draws == Draws(insts[..k], w)
      && list == Painted(insts, w, if k < |insts| then k + 1 else k)
  {
    ghost var k := FirstBroken(insts, w);
    list := insts;
    draws, error := [], None;
    var i := 0;
    while i < |list|
      invariant 0 <= i <= k && |list| == |insts|
      invariant list == Painted(insts, w, i)
      invariant NoneBroken(insts[..i], w) && draws == Draws(insts[..i], w)
    {
      var inst := list[i];
      PaintedAt(insts, w, i, i);
      if Hidden(inst, w) {
        assert list[i := inst] == list;
      } else {
        if inst.model_matrix.None? {
          list := list[i := inst.(model_matrix := Some(Identity4()))];
        } else {
          assert list[i := inst] == list;
        }
        if inst.mesh == null {
          // bind_vertex_attributes dereferences the missing mesh
          assert i == k;
          error := Some(AttributeError);
          return;
        }
        draws := draws + [DrawOf(i, inst)];
      }
      DrawsStep(insts, w, i);
      i := i + 1;
    }
  }

  /**
   * Every mesh still present was built from the request at its own position,
   * and no mesh object sits at two positions.
   */
  predicate MeshesBuilt(meshes: seq<GlMesh?>, requests: seq<(Rows, Faces)>)
  {
    && |meshes| <= |requests|
    && (forall i :: 0 <= i < |meshes| && meshes[i] != null ==> BuiltFrom(meshes[i], requests[i]))
    && (forall i, j :: 0 <= i < j < |meshes| && meshes[i] != null ==> meshes[i] != meshes[j])
  }

  /** Applying the next add-mesh request keeps the registry built from its requests. */
  lemma MeshesBuiltSnoc(meshes: seq<GlMesh?>, requests: seq<(Rows, Faces)>, m: GlMesh)
    requires MeshesBuilt(meshes, requests) && |meshes| < |requests|
    requires BuiltFrom(m, requests[|meshes|]) && m !in meshes
    ensures MeshesBuilt(meshes + [m], requests)
  {
    var meshes' := meshes + [m];
    forall i, j | 0 <= i < j < |meshes'| && meshes'[i] != null
      ensures meshes'[i] != meshes'[j]
    {
      if j == |meshes| {
        assert meshes'[i] == meshes[i];
      }
    }
  }

  /** Removing a mesh keeps the registry built from its requests. */
  lemma MeshesBuiltClear(meshes: seq<GlMesh?>, requests: seq<(Rows, Faces)>, k: nat)
    requires MeshesBuilt(meshes, requests) && k < |meshes|
    ensures MeshesBuilt(meshes[k := null], requests)
  {
  }

  /**
   * b holds a's instances at a's positions, each with every field as it was
   * except possibly the model matrix; b may hold more after them.
   */
  predicate KeptUpToModel(a: seq<MeshInstance>, b: seq<MeshInstance>)
  {
    |a| <= |b| && forall i :: 0 <= i < |a| ==> b[i] == a[i].(model_matrix := b[i].model_matrix)
  }

  /**
   * An instance add_mesh_instance_ built for the request: its attributes,
   * uniforms dict and fill flag are the request's, and its mesh, unless it
   * had been removed before delivery, was built from the add-mesh request
   * whose index the request named.
   */
  predicate BuiltFor(inst: MeshInstance, request: Event, mesh_requests: seq<(Rows, Faces)>)
  {
    && request.AddMeshInstanceEvent?
    && inst.attributes == request.attributes && inst.uniforms == request.uniforms && inst.fill == request.fill
    && (inst.mesh != null ==> request.mesh_index < |mesh_requests| && BuiltFrom(inst.mesh, mesh_requests[request.mesh_index]))
  }

  /**
   * The instance list holds one instance per delivered request that appended
   * one, in delivery order: the r-th request's instance sits at
   * Count(outcomes[..r]) and was built for that request.
   */
  predicate InstancesFrom(insts: seq<MeshInstance>, outcomes: seq<bool>, requests: seq<Event>,
                          mesh_requests: seq<(Rows, Faces)>)
  {
    && |outcomes| <= |requests|
    && |insts| == Count(outcomes)
    && forall r :: 0 <= r < |outcomes| && outcomes[r] ==>
         Count(outcomes[..r]) < |insts| && BuiltFor(insts[Count(outcomes[..r])], requests[r], mesh_requests)
  }

  /** Delivering the next request keeps the instances matched to their requests. */
  lemma InstancesFromSnoc(insts: seq<MeshInstance>, outcomes: seq<bool>, requests: seq<Event>,
                          mesh_requests: seq<(Rows, Faces)>, appended: bool, inst: MeshInstance)
    requires InstancesFrom(insts, outcomes, requests, mesh_requests) && |outcomes| < |requests|
    requires appended ==> BuiltFor(inst, requests[|outcomes|], mesh_requests)
    ensures InstancesFrom(insts + (if appended then [inst] else []), outcomes + [appended], requests, mesh_requests)
  {
    var outcomes' := outcomes + [appended];
    assert outcomes'[..|outcomes|] == outcomes;
    forall r | 0 <= r < |outcomes|
      ensures outcomes'[..r] == outcomes[..r]
    {
    }
  }

  /** New requests, of either kind, leave the delivered ones matched. */
  lemma InstancesFromGrow(insts: seq<MeshInstance>, outcomes: seq<bool>, requests: seq<Event>,
                          mesh_requests: seq<(Rows, Faces)>, more: seq<Event>, more_meshes: seq<(Rows, Faces)>)
    requires InstancesFrom(insts, outcomes, requests, mesh_requests)
    ensures InstancesFrom(insts, outcomes, requests + more, mesh_requests + more_meshes)
  {
  }

  /** Changing model matrices leaves the instances matched. */
  lemma InstancesFromRemodel(a: seq<MeshInstance>, b: seq<MeshInstance>, outcomes: seq<bool>, requests: seq<Event>,
                             mesh_requests: seq<(Rows, Faces)>)
    requires InstancesFrom(a, outcomes, requests, mesh_requests)
    requires KeptUpToModel(a, b) && |b| == |a|
    ensures InstancesFrom(b, outcomes, requests, mesh_requests)
  {
  }

  /**
   * The index add_mesh_instance returned for the r-th request names that
   * request's instance when every request up to it appended one.
   */
  lemma ReturnedIndexHoldsRequest(insts: seq<MeshInstance>, outcomes: seq<bool>, requests: seq<Event>,
                                  mesh_requests: seq<(Rows, Faces)>, r: nat)
    requires InstancesFrom(insts, outcomes, requests, mesh_requests) && r < |outcomes|
    requires forall j :: 0 <= j <= r ==> outcomes[j]
    ensures r < |insts| && BuiltFor(insts[r], requests[r], mesh_requests)
  {
    CountMatchesIndex(outcomes[..r]);
    assert forall j :: 0 <= j < r ==> outcomes[..r][j] == outcomes[j];
  }

  /** Once an earlier request was dropped, the r-th request's instance sits before position r. */
  lemma DroppedRequestShifts(outcomes: seq<bool>, r: nat, j: nat)
    requires j < r <= |outcomes| && !outcomes[j]
    ensures Count(outcomes[..r]) < r
  {
    CountMatchesIndex(outcomes[..r]);
    assert outcomes[..r][j] == outcomes[j];
  }

  /**
   * The add-mesh bookkeeping: the applied meshes are the first requests, in
   * request order, and the queued add-mesh signals carry the rest.
   */
  predicate MeshBook(meshes: seq<GlMesh?>, mesh_requests: seq<(Rows, Faces)>, events: seq<Event>)
  {
    && |meshes| <= |mesh_requests|
    && PendingMeshes(events) == mesh_requests[|meshes|..]
    && MeshesBuilt(meshes, mesh_requests)
  }

  /**
   * The add-instance bookkeeping: the first requests were delivered, each
   * appended instance matched to its request, and the queued add-instance
   * signals carry the rest.
   */
  predicate InstanceBook(insts: seq<MeshInstance>, outcomes: seq<bool>, requests: seq<Event>,
                         mesh_requests: seq<(Rows, Faces)>, events: seq<Event>)
  {
    && |outcomes| <= |requests|
    && PendingInstanceRequests(events) == requests[|outcomes|..]
    && InstancesFrom(insts, outcomes, requests, mesh_requests)
  }

  /** A request pushes its signal and records itself; both books stay balanced. */
  lemma BooksAfterPush(meshes: seq<GlMesh?>, insts: seq<MeshInstance>, outcomes: seq<bool>, requests: seq<Event>,
                       mesh_requests: seq<(Rows, Faces)>, events: seq<Event>, e: Event)
    requires MeshBook(meshes, mesh_requests, events)
    requires InstanceBook(insts, outcomes, requests, mesh_requests, events)
    ensures var mesh_requests' := mesh_requests + (if e.AddMeshEvent? then [(e.vertices, e.faces)] else []);
      && MeshBook(meshes, mesh_requests', events + [e])
      && InstanceBook(insts, outcomes, requests + (if e.AddMeshInstanceEvent? then [e] else []),
                      mesh_requests', events + [e])
  {
    PendingMeshesAfterPush(events, e);
    PendingInstancesAfterPush(events, e);
    InstancesFromGrow(insts, outcomes, requests, mesh_requests,
                      if e.AddMeshInstanceEvent? then [e] else [],
                      if e.AddMeshEvent? then [(e.vertices, e.faces)] else []);
  }

  /** Delivering a signal that is not an add-mesh one leaves the mesh book balanced. */
  lemma MeshBookSkip(meshes: seq<GlMesh?>, mesh_requests: seq<(Rows, Faces)>, events: seq<Event>)
    requires MeshBook(meshes, mesh_requests, events) && events != [] && !events[0].AddMeshEvent?
    ensures MeshBook(meshes, mesh_requests, events[1..])
  {
    assert PendingMeshes(events) == PendingMeshes(events[1..]);
  }

  /** Delivering an add-mesh signal appends the mesh built from the oldest pending request. */
  lemma MeshBookDeliver(meshes: seq<GlMesh?>, mesh_requests: seq<(Rows, Faces)>, events: seq<Event>, m: GlMesh)
    requires MeshBook(meshes, mesh_requests, events) && events != [] && events[0].AddMeshEvent?
    requires BuiltFrom(m, (events[0].vertices, events[0].faces)) && m !in meshes
    ensures MeshBook(meshes + [m], mesh_requests, events[1..])
  {
    assert PendingMeshes(events) == [(events[0].vertices, events[0].faces)] + PendingMeshes(events[1..]);
    assert mesh_requests[|meshes|] == (events[0].vertices, events[0].faces);
    MeshesBuiltSnoc(meshes, mesh_requests, m);
    assert mesh_requests[|meshes| + 1..] == mesh_requests[|meshes|..][1..];
  }

  /** Delivering a signal that is not an add-instance one leaves the instance book balanced. */
  lemma InstanceBookSkip(insts: seq<MeshInstance>, outcomes: seq<bool>, requests: seq<Event>,
                         mesh_requests: seq<(Rows, Faces)>, events: seq<Event>)
    requires InstanceBook(insts, outcomes, requests, mesh_requests, events)
    requires events != [] && !events[0].AddMeshInstanceEvent?
    ensures InstanceBook(insts, outcomes, requests, mesh_requests, events[1..])
  {
    assert PendingInstanceRequests(events) == PendingInstanceRequests(events[1..]);
  }

  /** Delivering an add-instance signal records its outcome and, when it appended one, its instance. */
  lemma InstanceBookDeliver(insts: seq<MeshInstance>, outcomes: seq<bool>, requests: seq<Event>,
                            mesh_requests: seq<(Rows, Faces)>, events: seq<Event>, appended: bool, inst: MeshInstance)
    requires InstanceBook(insts, outcomes, requests, mesh_requests, events)
    requires events != [] && events[0].AddMeshInstanceEvent?
    requires appended ==> BuiltFor(inst, events[0], mesh_requests)
    ensures InstanceBook(insts + (if appended then [inst] else []), outcomes + [appended], requests, mesh_requests,
                         events[1..])
  {
    assert PendingInstanceRequests(events) == [events[0]] + PendingInstanceRequests(events[1..]);
    assert requests[|outcomes|] == events[0];
    InstancesFromSnoc(insts, outcomes, requests, mesh_requests, appended, inst);
    assert requests[|outcomes| + 1..] == requests[|outcomes|..][1..];
  }

  class ViewerWidget {
    var light_direction: seq<real>
    var light_intensity: seq<real>
    var ambient_lighting: seq<real>
    var shaders: map<string, Shader>
    var next_mesh: nat
    var next_mesh_instance: nat
    /** Applied meshes; a removed mesh leaves null (Python None) in its place. */
    var meshes: seq<GlMesh?>
    var mesh_instances: seq<MeshInstance>
    var draw_wireframe: bool
    /** Signals emitted and not yet delivered, oldest first. */
    var events: seq<Event>
    /** The one dict object Python made for the `uniforms={}` default of add_mesh_instance. */
    const default_uniforms: UniformDict

    /** Every add-mesh request so far, indexed by the index it returned. */
    ghost var mesh_requests: seq<(Rows, Faces)>
    /** Every add-instance request so far, indexed by the index it returned. */
    ghost var instance_requests: seq<Event>
    /** For every delivered add-instance request, in order: whether it appended an instance. */
    ghost var instance_outcomes: seq<bool>

    /**
     * Every index add_mesh has returned belongs to a mesh that is applied at
     * that position or still queued, in request order; every index
     * add_mesh_instance has returned belongs to a request that is still
     * queued or was delivered, and each delivered request that appended an
     * instance finds it, built for it, at the position its outcome gives.
     */
    ghost predicate Valid()
      reads this
    {
      && next_mesh == |mesh_requests|
      && next_mesh_instance == |instance_requests|
      && MeshBook(meshes, mesh_requests, events)
      && InstanceBook(mesh_instances, instance_outcomes, instance_requests, mesh_requests, events)
    }

    /** The lights, the shader table and the wireframe switch. */
    ghost function Settings(): (seq<real>, seq<real>, seq<real>, map<string, Shader>, bool)
      reads this
    {
      (light_direction, light_intensity, ambient_lighting, shaders, draw_wireframe)
    }

    /** The requests made so far and the outcomes of the delivered add-instance requests. */
    ghost function Records(): (seq<(Rows, Faces)>, seq<Event>, seq<bool>)
      reads this
    {
      (mesh_requests, instance_requests, instance_outcomes)
    }

    /**
     * A widget with no shaders, meshes, instances or pending events. The light
     * direction is (-0.1, -0.1, 1) normalized by numpy; it is passed in because
     * the square root is not modelled.
     */
    constructor (normalized_light_direction: seq<real>, default_uniforms: UniformDict)
      ensures Valid()
      ensures light_direction == normalized_light_direction
      ensures light_intensity == [1.5, 1.5, 1.5] && ambient_lighting == [0.1, 0.1, 0.1]
      ensures shaders == map[] && draw_wireframe
      ensures next_mesh == 0 && next_mesh_instance == 0 && meshes == [] && mesh_instances == [] && events == []
      ensures Records() == ([], [], [])
      ensures this.default_uniforms == default_uniforms
    {
      light_direction := normalized_light_direction;
      light_intensity := [1.5, 1.5, 1.5];
      ambient_lighting := [0.1, 0.1, 0.1];
      shaders := map[];
      next_mesh := 0;
      next_mesh_instance := 0;
      meshes := [];
      mesh_instances := [];
      draw_wireframe := true;
      events := [];
      this.default_uniforms := default_uniforms;
      mesh_requests := [];
      instance_requests := [];
      instance_outcomes := [];
    }

    /** Registers the shaders found on disk, by name. */
    method AddShaders(found: map<string, Shader>)
      requires Valid()
      modifies this
      ensures Valid()
      ensures shaders == old(shaders) + found
      ensures (light_direction, light_intensity, ambient_lighting, draw_wireframe) ==
              old((light_direction, light_intensity, ambient_lighting, draw_wireframe))
      ensures meshes == old(meshes) && mesh_instances == old(mesh_instances) && events == old(events)
      ensures next_mesh == old(next_mesh) && next_mesh_instance == old(next_mesh_instance)
      ensures Records() == old(Records())
    {
      shaders := shaders + found;
    }

    /** Requests a mesh: returns the next mesh index and queues the mesh for the slot. */
    method AddMesh(vertices: Rows, faces: Faces) returns (mesh_index: nat)
      requires Valid()
      modifies this
      ensures Valid()
      ensures mesh_index == old(next_mesh) && next_mesh == old(next_mesh) + 1
      ensures events == old(events) + [AddMeshEvent(vertices, faces)]
      ensures mesh_requests == old(mesh_requests) + [(vertices, faces)] && mesh_requests[mesh_index] == (vertices, faces)
      ensures instance_requests == old(instance_requests) && instance_outcomes == old(instance_outcomes)
      ensures meshes == old(meshes) && mesh_instances == old(mesh_instances)
      ensures next_mesh_instance == old(next_mesh_instance) && Settings() == old(Settings())
    {
      BooksAfterPush(meshes, mesh_instances, instance_outcomes, instance_requests, mesh_requests, events,
                     AddMeshEvent(vertices, faces));
      assert instance_requests + [] == instance_requests;
      events := events + [AddMeshEvent(vertices, faces)];
      mesh_index := next_mesh;
      next_mesh := next_mesh + 1;
      mesh_requests := mesh_requests + [(vertices, faces)];
    }

    /**
     * Requests an instance: returns the next instance index and queues the
     * request. Without a uniforms dict of its own, the request carries the one
     * shared default dict.
     */
    method AddMeshInstance(mesh_index: nat, shader: string := "default", attributes: Attributes := map[],
                           uniforms: UniformDict? := null, fill: bool := true)
      returns (instance_index: nat)
      requires Valid()
      modifies this
      ensures Valid()
      ensures instance_index == old(next_mesh_instance) && next_mesh_instance == old(next_mesh_instance) + 1
      ensures var e := AddMeshInstanceEvent(mesh_index, shader, attributes,
                                            if uniforms == null then default_uniforms else uniforms, fill);
        && events == old(events) + [e]
        && instance_requests == old(instance_requests) + [e] && instance_requests[instance_index] == e
      ensures mesh_requests == old(mesh_requests) && instance_outcomes == old(instance_outcomes)
      ensures meshes == old(meshes) && mesh_instances == old(mesh_instances)
      ensures next_mesh == old(next_mesh) && Settings() == old(Settings())
    {
      var dict := if uniforms == null then default_uniforms else uniforms;
      var e := AddMeshInstanceEvent(mesh_index, shader, attributes, dict, fill);
      BooksAfterPush(meshes, mesh_instances, instance_outcomes, instance_requests, mesh_requests, events, e);
      assert mesh_requests + [] == mesh_requests;
      events := events + [e];
      instance_index := next_mesh_instance;
      next_mesh_instance := next_mesh_instance + 1;
      instance_requests := instance_requests + [e];
    }

    /** Requests a new model matrix for an instance. */
    method UpdateMeshInstanceModel(instance_index: nat, model: Mat4)
      requires Valid()
      modifies this
      ensures Valid()
      ensures events == old(events) + [UpdateMeshInstanceModelEvent(instance_index, model)]
      ensures meshes == old(meshes) && mesh_instances == old(mesh_instances)
      ensures next_mesh == old(next_mesh) && next_mesh_instance == old(next_mesh_instance)
      ensures Settings() == old(Settings()) && Records() == old(Records())
    {
      var e := UpdateMeshInstanceModelEvent(instance_index, model);
      BooksAfterPush(meshes, mesh_instances, instance_outcomes, instance_requests, mesh_requests, events, e);
      assert mesh_requests + [] == mesh_requests && instance_requests + [] == instance_requests;
      events := events + [e];
    }

    /** The add_mesh_ slot: appends one new mesh at the end. */
    method ApplyAddMesh(vertices: Rows, faces: Faces)
      modifies this
      ensures |meshes| == |old(meshes)| + 1 && meshes[..|old(meshes)|] == old(meshes)
      ensures var m := meshes[|meshes| - 1];
        && m != null && fresh(m) && BuiltFrom(m, (vertices, faces))
        && m.vertex_buffer == Vbo(vertices, ArrayBuffer) && m.normal_buffer.None? && m.texture_buffer.None?
      ensures mesh_instances == old(mesh_instances) && events == old(events)
      ensures next_mesh == old(next_mesh) && next_mesh_instance == old(next_mesh_instance)
      ensures Records() == old(Records()) && Settings() == old(Settings())
    {
      var m := new GlMesh(vertices, faces, [], []);
      meshes := meshes + [m];
    }

    /**
     * The add_mesh_instance_ slot: writes the current light values into the
     * uniforms dict, then appends at most one instance, built with the shader
     * ChooseShader picks.
     */
    method ApplyAddMeshInstance(mesh_index: nat, shader: string, attributes: Attributes,
                                uniforms: UniformDict, fill: bool, rejects: InstanceCheck)
      returns (appended: bool, error: Option<PythonError>)
      modifies this, uniforms
      ensures uniforms.entries ==
        WithLights(old(uniforms.entries), light_direction, light_intensity, ambient_lighting)
      ensures var choice := ChooseShader(shaders, shader, mesh_index < |meshes|, attributes, uniforms.entries, fill, rejects);
        && appended == Appends(choice)
        && error == Raised(choice)
        && mesh_instances == old(mesh_instances) +
             (if appended then [MeshInstance(meshes[mesh_index], None, attributes, uniforms, choice.value.value, fill)]
              else [])
      ensures meshes == old(meshes) && events == old(events)
      ensures next_mesh == old(next_mesh) && next_mesh_instance == old(next_mesh_instance)
      ensures Records() == old(Records()) && Settings() == old(Settings())
    {
      uniforms.entries := WithLights(uniforms.entries, light_direction, light_intensity, ambient_lighting);
      var choice := ChooseShader(shaders, shader, mesh_index < |meshes|, attributes, uniforms.entries, fill, rejects);
      appended, error := false, None;
      if choice.Failure? {
        error := Some(choice.error);
      } else if choice.value.Some? {
        mesh_instances := mesh_instances +
          [MeshInstance(meshes[mesh_index], None, attributes, uniforms, choice.value.value, fill)];
        appended := true;
      }
    }

    /** The update_mesh_instance_model_ slot: sets one instance's model matrix. */
    method ApplyUpdateMeshInstanceModel(instance_index: nat, model: Mat4) returns (error: Option<PythonError>)
      modifies this
      ensures error == if instance_index < |old(mesh_instances)| then None else Some(IndexError)
      ensures mesh_instances ==
        if instance_index < |old(mesh_instances)|
        then old(mesh_instances)[instance_index := old(mesh_instances)[instance_index].(model_matrix := Some(model))]
        else old(mesh_instances)
      ensures meshes == old(meshes) && events == old(events)
      ensures next_mesh == old(next_mesh) && next_mesh_instance == old(next_mesh_instance)
      ensures Records() == old(Records()) && Settings() == old(Settings())
    {
      if instance_index < |mesh_instances| {
        mesh_instances := mesh_instances[instance_index := mesh_instances[instance_index].(model_matrix := Some(model))];
        error := None;
      } else {
        error := Some(IndexError);
      }
    }

    /** Delivers the oldest pending signal, an add-mesh signal, to add_mesh_. */
    method DeliverAddMesh()
      requires Valid() && events != [] && events[0].AddMeshEvent?
      modifies this
      ensures Valid()
      ensures events == old(events)[1..]
      ensures |meshes| == |old(meshes)| + 1 && meshes[..|old(meshes)|] == old(meshes)
      ensures var m := meshes[|meshes| - 1]; var e := old(events)[0];
        && m != null && fresh(m) && BuiltFrom(m, (e.vertices, e.faces)) && m.vertex_buffer == Vbo(e.vertices, ArrayBuffer)
      ensures mesh_instances == old(mesh_instances)
      ensures next_mesh == old(next_mesh) && next_mesh_instance == old(next_mesh_instance)
      ensures Records() == old(Records()) && Settings() == old(Settings())
    {
      var e := events[0];
      InstanceBookSkip(mesh_instances, instance_outcomes, instance_requests, mesh_requests, events);
      ghost var before, queue := meshes, events;
      events := events[1..];
      ApplyAddMesh(e.vertices, e.faces);
      MeshBookDeliver(before, mesh_requests, queue, meshes[|meshes| - 1]);
      assert meshes == before + [meshes[|meshes| - 1]];
    }

    /**
     * Delivers the oldest pending signal, an add-instance signal, to
     * add_mesh_instance_, and records whether it appended an instance.
     */
    method DeliverAddMeshInstance(rejects: InstanceCheck) returns (appended: bool, error: Option<PythonError>)
      requires Valid() && events != [] && events[0].AddMeshInstanceEvent?
      modifies this, events[0].uniforms
      ensures Valid()
      ensures events == old(events)[1..] && meshes == old(meshes)
      ensures var e := old(events)[0];
        && e.uniforms.entries == WithLights(old(e.uniforms.entries), light_direction, light_intensity, ambient_lighting)
        && var choice := ChooseShader(shaders, e.shader_name, e.mesh_index < |meshes|, e.attributes,
                                      e.uniforms.entries, e.fill, rejects);
        && appended == Appends(choice)
        && error == Raised(choice)
        && mesh_instances == old(mesh_instances) +
             (if appended then [MeshInstance(meshes[e.mesh_index], None, e.attributes, e.uniforms, choice.value.value, e.fill)]
              else [])
      ensures mesh_requests == old(mesh_requests) && instance_requests == old(instance_requests)
      ensures instance_outcomes == old(instance_outcomes) + [appended]
      ensures next_mesh == old(next_mesh) && next_mesh_instance == old(next_mesh_instance)
      ensures Settings() == old(Settings())
    {
      var e := events[0];
      MeshBookSkip(meshes, mesh_requests, events);
      ghost var before, queue := mesh_instances, events;
      events := events[1..];
      appended, error := ApplyAddMeshInstance(e.mesh_index, e.shader_name, e.attributes, e.uniforms, e.fill, rejects);
      ghost var inst := if appended then mesh_instances[|mesh_instances| - 1]
                        else MeshInstance(null, None, e.attributes, e.uniforms, Shader("", 0), e.fill);
      assert appended ==> e.mesh_index < |meshes| && inst.mesh == meshes[e.mesh_index];
      InstanceBookDeliver(before, instance_outcomes, instance_requests, mesh_requests, queue, appended, inst);
      instance_outcomes := instance_outcomes + [appended];
    }

    /** Delivers the oldest pending signal, a model update, to update_mesh_instance_model_. */
    method DeliverUpdateMeshInstanceModel() returns (error: Option<PythonError>)
      requires Valid() && events != [] && events[0].UpdateMeshInstanceModelEvent?
      modifies this
      ensures Valid()
      ensures events == old(events)[1..] && meshes == old(meshes)
      ensures var e := old(events)[0];
        && error == (if e.instance_index < |old(mesh_instances)| then None else Some(IndexError))
        && mesh_instances ==
             if e.instance_index < |old(mesh_instances)|
             then old(mesh_instances)[e.instance_index := old(mesh_instances)[e.instance_index].(model_matrix := Some(e.model))]
             else old(mesh_instances)
      ensures next_mesh == old(next_mesh) && next_mesh_instance == old(next_mesh_instance)
      ensures Records() == old(Records()) && Settings() == old(Settings())
    {
      var e := events[0];
      MeshBookSkip(meshes, mesh_requests, events);
      InstanceBookSkip(mesh_instances, instance_outcomes, instance_requests, mesh_requests, events);
      events := events[1..];
      ghost var before := mesh_instances;
      error := ApplyUpdateMeshInstanceModel(e.instance_index, e.model);
      InstancesFromRemodel(before, mesh_instances, instance_outcomes, instance_requests, mesh_requests);
    }

    /**
     * Delivers the oldest pending signal to its slot. Whatever the signal,
     * applied meshes and instances stay where they are, instances keep every
     * field but the model matrix, and no request is forgotten.
     */
    method ApplyNext(rejects: InstanceCheck) returns (error: Option<PythonError>)
      requires Valid() && events != []
      modifies this, QueuedDicts(events)
      ensures Valid()
      ensures events == old(events)[1..]
      ensures next_mesh == old(next_mesh) && next_mesh_instance == old(next_mesh_instance)
      ensures Settings() == old(Settings())
      ensures mesh_requests == old(mesh_requests) && instance_requests == old(instance_requests)
      ensures old(instance_outcomes) <= instance_outcomes && old(meshes) <= meshes
      ensures KeptUpToModel(old(mesh_instances), mesh_instances)
      ensures forall i :: |old(meshes)| <= i < |meshes| ==> meshes[i] != null && fresh(meshes[i])
      ensures old(events)[0].AddMeshEvent? ==>
        && error.None? && |meshes| == |old(meshes)| + 1 && mesh_instances == old(mesh_instances)
        && instance_outcomes == old(instance_outcomes)
        && var m := meshes[|meshes| - 1];
           m != null && fresh(m) && m.vertex_buffer == Vbo(old(events)[0].vertices, ArrayBuffer)
      ensures old(events)[0].AddMeshInstanceEvent? ==>
        && meshes == old(meshes)
        && var e := old(events)[0];
           var choice := ChooseShader(shaders, e.shader_name, e.mesh_index < |meshes|, e.attributes,
                                      e.uniforms.entries, e.fill, rejects);
        && e.uniforms.entries == WithLights(old(e.uniforms.entries), light_direction, light_intensity, ambient_lighting)
        && error == Raised(choice)
        && instance_outcomes == old(instance_outcomes) + [Appends(choice)]
        && mesh_instances == old(mesh_instances) +
             (if Appends(choice) then [MeshInstance(meshes[e.mesh_index], None, e.attributes, e.uniforms, choice.value.value, e.fill)]
              else [])
      ensures old(events)[0].UpdateMeshInstanceModelEvent? ==>
        && meshes == old(meshes) && instance_outcomes == old(instance_outcomes)
        && var e := old(events)[0];
        && error == (if e.instance_index < |old(mesh_instances)| then None else Some(IndexError))
        && mesh_instances ==
             if e.instance_index < |old(mesh_instances)|
             then old(mesh_instances)[e.instance_index := old(mesh_instances)[e.instance_index].(model_matrix := Some(e.model))]
             else old(mesh_instances)
    {
      error := None;
      match events[0]
      case AddMeshEvent(_, _) =>
        DeliverAddMesh();
      case AddMeshInstanceEvent(_, _, _, uniforms, _) =>
        assert uniforms in QueuedDicts(events);
        var appended;
        appended, error := DeliverAddMeshInstance(rejects);
      case UpdateMeshInstanceModelEvent(_, _) =>
        error := DeliverUpdateMeshInstanceModel();
    }

    /**
     * Delivers pending signals oldest first until none is left or a slot
     * raises. Nothing applied before moves, no request is forgotten, and a
     * complete drain leaves one mesh per index add_mesh returned and an
     * outcome for every index add_mesh_instance returned; Valid then ties each
     * mesh and each appended instance to its request.
     */
    method Drain(rejects: InstanceCheck) returns (error: Option<PythonError>)
      requires Valid()
      modifies this, QueuedDicts(events)
      ensures Valid()
      ensures next_mesh == old(next_mesh) && next_mesh_instance == old(next_mesh_instance)
      ensures Settings() == old(Settings())
      ensures mesh_requests == old(mesh_requests) && instance_requests == old(instance_requests)
      ensures old(instance_outcomes) <= instance_outcomes && old(meshes) <= meshes
      ensures KeptUpToModel(old(mesh_instances), mesh_instances)
      ensures forall i :: |old(meshes)| <= i < |meshes| ==> meshes[i] != null && fresh(meshes[i])
      ensures error.None? ==> events == []
      ensures error.None? ==> |meshes| == next_mesh
      ensures error.None? ==> |instance_outcomes| == next_mesh_instance
      ensures error.None? ==> forall i :: 0 <= i < |meshes| && meshes[i] != null ==> BuiltFrom(meshes[i], mesh_requests[i])
    {
      error := None;
      while events != [] && error.None?
        invariant Valid()
        invariant QueuedDicts(events) <= old(QueuedDicts(events))
        invariant next_mesh == old(next_mesh) && next_mesh_instance == old(next_mesh_instance)
        invariant Settings() == old(Settings())
        invariant mesh_requests == old(mesh_requests) && instance_requests == old(instance_requests)
        invariant old(instance_outcomes) <= instance_outcomes && old(meshes) <= meshes
        invariant KeptUpToModel(old(mesh_instances), mesh_instances)
        invariant forall i :: |old(meshes)| <= i < |meshes| ==> meshes[i] != null && fresh(meshes[i])
        decreases |events|
      {
        error := ApplyNext(rejects);
      }
    }

    /** Replaces the vertex data of one mesh at once; every other mesh keeps its buffer. */
    method UpdateMeshVertices(index: nat, vertices: Rows) returns (error: Option<PythonError>)
      requires Valid()
      modifies if index < |meshes| && meshes[index] != null then {meshes[index]} else {}
      ensures error == if index >= |meshes| then Some(IndexError)
                       else if meshes[index] == null then Some(AttributeError)
                       else None
      ensures error.None? ==> meshes[index].vertex_buffer == Vbo(vertices, old(meshes[index].vertex_buffer).target)
      ensures forall j :: 0 <= j < |meshes| && j != index && meshes[j] != null ==>
        meshes[j].vertex_buffer == old(meshes[j].vertex_buffer)
    {
      if index >= |meshes| {
        error := Some(IndexError);
      } else if meshes[index] == null {
        error := Some(AttributeError);
      } else {
        meshes[index].UpdateVertices(vertices);
        error := None;
      }
    }

    /**
     * Marks a mesh as removed without shortening the list; an index past the
     * end changes nothing. The loop that follows reads `mesh` from the widget
     * itself, which has no such attribute, so with any instance in the list it
     * raises AttributeError at its first step, after the mesh is cleared.
     */
    method RemoveMesh(mesh_index: nat) returns (error: Option<PythonError>)
      requires Valid()
      modifies this
      ensures Valid()
      ensures meshes == if mesh_index < |old(meshes)| then old(meshes)[mesh_index := null] else old(meshes)
      ensures |meshes| == |old(meshes)|
      ensures error == if mesh_index < |old(meshes)| && mesh_instances != [] then Some(AttributeError) else None
      ensures mesh_instances == old(mesh_instances) && events == old(events)
      ensures next_mesh == old(next_mesh) && next_mesh_instance == old(next_mesh_instance)
      ensures Records() == old(Records())
      ensures Settings() == old(Settings())
    {
      error := None;
      if mesh_index < |meshes| {
        MeshesBuiltClear(meshes, mesh_requests, mesh_index);
        meshes := meshes[mesh_index := null];
        if mesh_instances != [] {
          error := Some(AttributeError);
        }
      }
    }

    /** Later add-instance slots write these values into their uniforms. */
    method SetDirectionalLight(direction: seq<real>, intensity: seq<real>)
      requires Valid()
      modifies this
      ensures Valid()
      ensures light_direction == direction && light_intensity == intensity
      ensures ambient_lighting == old(ambient_lighting) && shaders == old(shaders) && draw_wireframe == old(draw_wireframe)
      ensures meshes == old(meshes) && mesh_instances == old(mesh_instances) && events == old(events)
      ensures next_mesh == old(next_mesh) && next_mesh_instance == old(next_mesh_instance)
      ensures Records() == old(Records())
    {
      light_direction := direction;
      light_intensity := intensity;
    }

    method SetAmbientLight(intensity: seq<real>)
      requires Valid()
      modifies this
      ensures Valid()
      ensures ambient_lighting == intensity
      ensures light_direction == old(light_direction) && light_intensity == old(light_intensity)
      ensures shaders == old(shaders) && draw_wireframe == old(draw_wireframe)
      ensures meshes == old(meshes) && mesh_instances == old(mesh_instances) && events == old(events)
      ensures next_mesh == old(next_mesh) && next_mesh_instance == old(next_mesh_instance)
      ensures Records() == old(Records())
    {
      ambient_lighting := intensity;
    }

    /** Flips the wireframe switch; two flips restore it. */
    method ToggleWireframe()
      requires Valid()
      modifies this
      ensures Valid()
      ensures draw_wireframe == !old(draw_wireframe)
      ensures (light_direction, light_intensity, ambient_lighting, shaders) ==
              old((light_direction, light_intensity, ambient_lighting, shaders))
      ensures meshes == old(meshes) && mesh_instances == old(mesh_instances) && events == old(events)
      ensures next_mesh == old(next_mesh) && next_mesh_instance == old(next_mesh_instance)
      ensures Records() == old(Records())
    {
      draw_wireframe := !draw_wireframe;
    }

    /**
     * Draws the instances in list order, skipping hidden ones. A drawn
     * instance without a model matrix gets the identity, kept in the list.
     * Drawing an instance whose mesh was removed raises AttributeError, after
     * its model matrix was defaulted.
     */
    method PaintGL() returns (draws: seq<Draw>, error: Option<PythonError>)
      requires Valid()
      modifies this
      ensures Valid()
      ensures var k := FirstBroken(old(mesh_instances), draw_wireframe);
        && (error.None? <==> k == |old(mesh_instances)|)
        && (error.Some? ==> error == Some(AttributeError))
        && draws == Draws(old(mesh_instances)[..k], draw_wireframe)
        && mesh_instances == Painted(old(mesh_instances), draw_wireframe,
                                     if k < |old(mesh_instances)| then k + 1 else k)
      ensures meshes == old(meshes) && events == old(events) && Settings() == old(Settings())
      ensures next_mesh == old(next_mesh) && next_mesh_instance == old(next_mesh_instance)
      ensures Records() == old(Records())
    {
      var list;
      list, draws, error := PaintList(mesh_instances, draw_wireframe);
      ghost var k := FirstBroken(mesh_instances, draw_wireframe);
      PaintedKeepsFields(mesh_instances, draw_wireframe, if k < |mesh_instances| then k + 1 else k);
      InstancesFromRemodel(mesh_instances, list, instance_outcomes, instance_requests, mesh_requests);
      // the model matrices defaulted before an exception are kept
      mesh_instances := list;
    }
  }
}
