/**
 * The older registry variant (PyIGL_viewer/viewer/viewer.py). Adding a mesh
 * creates the mesh and two instances of it, one with the requested shader and
 * one with the 'wireframe' shader; paintGL draws wireframe instances in line
 * mode. As in the newer widget, requests emit a signal that a slot applies
 * later, modelled as a FIFO queue of events.
 */
module Viewer {
  import opened Values
  import opened Gl
  import opened Mesh

  /** A compiled shader program: its GL program handle. */
  datatype ShaderProgram = ShaderProgram(program: nat)

  /** The instance record of this revision: a mesh, a model matrix and a shader name. */
  datatype MeshInstance = MeshInstance(mesh: GlMesh, model_matrix: Option<Mat4>, shader_name: string)

  /** A signal emitted by a request and not yet delivered to its slot. */
  datatype Event =
    | AddMeshEvent(vertices: Rows, faces: Faces, normals: Rows, texture_coords: Rows, shader: string)
    | UpdateMeshEvent(index: nat, vertices: Rows)

  /** The Python exceptions the modelled code can raise. */
  datatype PythonError = IndexError | KeyError(key: string)

  /** The queued add-mesh events, oldest first. */
  function PendingMeshes(q: seq<Event>): (r: seq<Event>)
    ensures forall e :: e in r ==> e.AddMeshEvent?
  {
    if q == [] then []
    else (if q[0].AddMeshEvent? then [q[0]] else []) + PendingMeshes(q[1..])
  }

  lemma {:induction false} PendingAfterPush(q: seq<Event>, e: Event)
    ensures PendingMeshes(q + [e]) == PendingMeshes(q) + (if e.AddMeshEvent? then [e] else [])
  {
    if q != [] {
      assert (q + [e])[1..] == q[1..] + [e];
      PendingAfterPush(q[1..], e);
    }
  }

  /** A mesh object built by add_mesh_ from the given add-mesh event. */
  predicate BuiltFrom(m: GlMesh, request: Event)
    requires request.AddMeshEvent?
  {
    && m.number_vertices == |request.vertices|
    && m.number_elements == |request.faces|
    && m.element_buffer == Vbo(request.faces, ElementArrayBuffer)
    && (m.normal_buffer.Some? <==> |request.normals| > 0)
    && (m.texture_buffer.Some? <==> |request.texture_coords| > 0)
  }

  predicate IsWireframe(inst: MeshInstance) { inst.shader_name == "wireframe" }

  /** The calls paintGL makes for one instance before its draw call. */
  function CallsBeforeDraw(inst: MeshInstance, program: nat): seq<GlCall>
    reads inst.mesh
  {
    (if IsWireframe(inst) then [SetPolygonMode(Line)] else []) + [UseProgram(program)] +
      BindCalls(inst.mesh.vertex_buffer, inst.mesh.normal_buffer, inst.mesh.texture_buffer, inst.mesh.element_buffer)
  }

  /** All calls paintGL makes for one instance: a wireframe draw is bracketed by line and fill mode. */
  function InstanceCalls(inst: MeshInstance, program: nat): seq<GlCall>
    reads inst.mesh
  {
    CallsBeforeDraw(inst, program) + [DrawElements(3 * inst.mesh.number_elements)] +
      (if IsWireframe(inst) then [SetPolygonMode(Fill)] else [])
  }

  predicate AllKnown(insts: seq<MeshInstance>, shaders: map<string, ShaderProgram>)
  {
    forall i :: 0 <= i < |insts| ==> insts[i].shader_name in shaders
  }

  /** The calls of paintGL for instances whose shaders are all known, in list order. */
  function PaintCalls(insts: seq<MeshInstance>, shaders: map<string, ShaderProgram>): seq<GlCall>
    requires AllKnown(insts, shaders)
    reads set i | 0 <= i < |insts| :: insts[i].mesh
  {
    if insts == [] then []
    else
      var last := |insts| - 1;
      PaintCalls(insts[..last], shaders) + InstanceCalls(insts[last], shaders[insts[last].shader_name].program)
  }

  lemma PaintCallsStep(insts: seq<MeshInstance>, shaders: map<string, ShaderProgram>, i: nat)
    requires i < |insts|
    requires AllKnown(insts[..i + 1], shaders)
    ensures AllKnown(insts[..i], shaders)
    ensures PaintCalls(insts[..i + 1], shaders) ==
      PaintCalls(insts[..i], shaders) + InstanceCalls(insts[i], shaders[insts[i].shader_name].program)
  {
    assert insts[..i + 1][..i] == insts[..i];
  }

  /** The position of the first instance whose shader is unknown, or the length of the list. */
  function FirstUnknown(insts: seq<MeshInstance>, shaders: map<string, ShaderProgram>): (k: nat)
    ensures k <= |insts|
    ensures forall j :: 0 <= j < k ==> insts[j].shader_name in shaders
    ensures k < |insts| ==> insts[k].shader_name !in shaders
  {
    if insts == [] then 0
    else if insts[0].shader_name !in shaders then 0
    else 1 + FirstUnknown(insts[1..], shaders)
  }

  /** The polygon mode in effect after the calls, starting from `mode`. */
  function ModeAfter(mode: PolygonMode, calls: seq<GlCall>): PolygonMode
    decreases |calls|
  {
    if calls == [] then mode
    else ModeAfter(if calls[0].SetPolygonMode? then calls[0].mode else mode, calls[1..])
  }

  lemma {:induction false} ModeAfterAppend(mode: PolygonMode, a: seq<GlCall>, b: seq<GlCall>)
    ensures ModeAfter(mode, a + b) == ModeAfter(ModeAfter(mode, a), b)
    decreases |a|
  {
    if a == [] {
      assert a + b == b;
    } else {
      assert (a + b)[1..] == a[1..] + b;
      ModeAfterAppend(if a[0].SetPolygonMode? then a[0].mode else mode, a[1..], b);
    }
  }

  lemma {:induction false} ModeKeptWithoutSet(mode: PolygonMode, calls: seq<GlCall>)
    requires forall c :: c in calls ==> !c.SetPolygonMode?
    ensures ModeAfter(mode, calls) == mode
    decreases |calls|
  {
    if calls != [] {
      assert calls[0] in calls;
      ModeKeptWithoutSet(mode, calls[1..]);
    }
  }

  /** Binding buffers does not touch the polygon mode. */
  lemma BindCallsKeepMode(mode: PolygonMode, inst: MeshInstance)
    ensures ModeAfter(mode, BindCalls(inst.mesh.vertex_buffer, inst.mesh.normal_buffer,
                                      inst.mesh.texture_buffer, inst.mesh.element_buffer)) == mode
  {
    var m := inst.mesh;
    var calls := BindCalls(m.vertex_buffer, m.normal_buffer, m.texture_buffer, m.element_buffer);
    BindCallsOnlyBind(m.vertex_buffer, m.normal_buffer, m.texture_buffer, m.element_buffer);
    ModeKeptWithoutSet(mode, calls);
  }

  lemma ModeAfterOne(mode: PolygonMode, c: GlCall)
    ensures ModeAfter(mode, [c]) == if c.SetPolygonMode? then c.mode else mode
  {
    assert [c][1..] == [];
  }

  /** One instance's calls: its draw is issued in line mode when it is a wireframe instance, and in the incoming mode otherwise. */
  lemma InstanceModes(mode: PolygonMode, inst: MeshInstance, program: nat)
    ensures ModeAfter(mode, CallsBeforeDraw(inst, program)) == if IsWireframe(inst) then Line else mode
    ensures ModeAfter(mode, InstanceCalls(inst, program)) == if IsWireframe(inst) then Fill else mode
  {
    var m := inst.mesh;
    var binds := BindCalls(m.vertex_buffer, m.normal_buffer, m.texture_buffer, m.element_buffer);
    var switch: seq<GlCall> := if IsWireframe(inst) then [SetPolygonMode(Line)] else [];
    var back: seq<GlCall> := if IsWireframe(inst) then [SetPolygonMode(Fill)] else [];
    var draw := DrawElements(3 * m.number_elements);
    var wired := if IsWireframe(inst) then Line else mode;
    if IsWireframe(inst) {
      ModeAfterOne(mode, SetPolygonMode(Line));
    }
    assert ModeAfter(mode, switch) == wired;
    ModeAfterAppend(mode, switch, [UseProgram(program)]);
    ModeAfterOne(wired, UseProgram(program));
    ModeAfterAppend(mode, switch + [UseProgram(program)], binds);
    BindCallsKeepMode(wired, inst);
    assert CallsBeforeDraw(inst, program) == switch + [UseProgram(program)] + binds;
    ModeAfterAppend(mode, CallsBeforeDraw(inst, program), [draw]);
    ModeAfterOne(wired, draw);
    ModeAfterAppend(mode, CallsBeforeDraw(inst, program) + [draw], back);
    if IsWireframe(inst) {
      ModeAfterOne(wired, SetPolygonMode(Fill));
    }
    assert ModeAfter(wired, back) == if IsWireframe(inst) then Fill else mode;
  }

  predicate AnyWireframe(insts: seq<MeshInstance>)
  {
    exists i :: 0 <= i < |insts| && IsWireframe(insts[i])
  }

  /**
   * After paintGL the polygon mode is fill if any instance was a wireframe
   * instance, and the starting mode otherwise: starting from fill, it ends in fill.
   */
  lemma {:induction false} PaintEndsInFill(mode: PolygonMode, insts: seq<MeshInstance>, shaders: map<string, ShaderProgram>)
    requires AllKnown(insts, shaders)
    ensures ModeAfter(mode, PaintCalls(insts, shaders)) == if AnyWireframe(insts) then Fill else mode
  {
    if insts != [] {
      var last := |insts| - 1;
      var init := insts[..last];
      assert forall j :: 0 <= j < last ==> init[j] == insts[j];
      assert AllKnown(init, shaders);
      PaintEndsInFill(mode, init, shaders);
      var program := shaders[insts[last].shader_name].program;
      ModeAfterAppend(mode, PaintCalls(init, shaders), InstanceCalls(insts[last], program));
      InstanceModes(ModeAfter(mode, PaintCalls(init, shaders)), insts[last], program);
      AnyWireframeSnoc(insts);
    }
  }

  lemma AnyWireframeSnoc(insts: seq<MeshInstance>)
    requires insts != []
    ensures AnyWireframe(insts) <==> AnyWireframe(insts[..|insts| - 1]) || IsWireframe(insts[|insts| - 1])
  {
    var init := insts[..|insts| - 1];
    if AnyWireframe(init) {
      var i :| 0 <= i < |init| && IsWireframe(init[i]);
      assert IsWireframe(insts[i]);
    }
    if AnyWireframe(insts) && !IsWireframe(insts[|insts| - 1]) {
      var i :| 0 <= i < |insts| && IsWireframe(insts[i]);
      assert IsWireframe(init[i]);
    }
  }

  /**
   * The draw call of the k-th instance runs in line mode for a wireframe
   * instance; otherwise in fill mode once any earlier instance was a
   * wireframe one, and in the starting mode before that.
   */
  lemma DrawModes(mode: PolygonMode, insts: seq<MeshInstance>, shaders: map<string, ShaderProgram>, k: nat)
    requires k < |insts|
    requires AllKnown(insts, shaders)
    ensures AllKnown(insts[..k], shaders)
    ensures ModeAfter(mode, PaintCalls(insts[..k], shaders) + CallsBeforeDraw(insts[k], shaders[insts[k].shader_name].program)) ==
      if IsWireframe(insts[k]) then Line else if AnyWireframe(insts[..k]) then Fill else mode
  {
    var program := shaders[insts[k].shader_name].program;
    PaintEndsInFill(mode, insts[..k], shaders);
    ModeAfterAppend(mode, PaintCalls(insts[..k], shaders), CallsBeforeDraw(insts[k], program));
    InstanceModes(ModeAfter(mode, PaintCalls(insts[..k], shaders)), insts[k], program);
  }

  /**
   * The n-th add-mesh request is applied as meshes[n] (all distinct), and the
   * instances come in pairs: the pair of meshes[n] sits at positions 2n
   * (requested shader) and 2n + 1 ('wireframe').
   */
  predicate Registry(meshes: seq<GlMesh>, insts: seq<MeshInstance>, requests: seq<Event>)
  {
    && |meshes| <= |requests|
    && |insts| == 2 * |meshes|
    && (forall i :: 0 <= i < |meshes| ==>
          && requests[i].AddMeshEvent?
          && BuiltFrom(meshes[i], requests[i])
          && insts[2 * i] == MeshInstance(meshes[i], None, requests[i].shader)
          && insts[2 * i + 1] == MeshInstance(meshes[i], None, "wireframe"))
    && (forall i, j :: 0 <= i < j < |meshes| ==> meshes[i] != meshes[j])
  }

  /** Applying the next add-mesh request extends the registry by one mesh and its pair of instances. */
  lemma RegistrySnoc(meshes: seq<GlMesh>, insts: seq<MeshInstance>, requests: seq<Event>, m: GlMesh)
    requires Registry(meshes, insts, requests)
    requires |meshes| < |requests| && requests[|meshes|].AddMeshEvent?
    requires BuiltFrom(m, requests[|meshes|]) && m !in meshes
    ensures Registry(meshes + [m],
                     insts + [MeshInstance(m, None, requests[|meshes|].shader), MeshInstance(m, None, "wireframe")],
                     requests)
  {
    var meshes' := meshes + [m];
    var insts' := insts + [MeshInstance(m, None, requests[|meshes|].shader), MeshInstance(m, None, "wireframe")];
    forall i | 0 <= i < |meshes'|
      ensures insts'[2 * i] == MeshInstance(meshes'[i], None, requests[i].shader)
      ensures insts'[2 * i + 1] == MeshInstance(meshes'[i], None, "wireframe")
    {
      if i < |meshes| {
        assert insts'[2 * i] == insts[2 * i] && insts'[2 * i + 1] == insts[2 * i + 1];
      }
    }
    forall i, j | 0 <= i < j < |meshes'|
      ensures meshes'[i] != meshes'[j]
    {
      if j == |meshes| {
        assert meshes'[i] in meshes;
      }
    }
  }

  /**
   * The vertex rows of every mesh once the signals of `delivered` have been
   * delivered in order to a widget that started empty: an add-mesh signal
   * appends its vertices, an update replaces the rows of the mesh it names
   * and, naming no mesh yet applied, changes nothing (its slot raises).
   */
  function VertexRows(delivered: seq<Event>): seq<Rows>
  {
    if delivered == [] then []
    else
      var rows := VertexRows(delivered[..|delivered| - 1]);
      var e := delivered[|delivered| - 1];
      match e
      case AddMeshEvent(vertices, _, _, _, _) => rows + [vertices]
      case UpdateMeshEvent(index, vertices) => if index < |rows| then rows[index := vertices] else rows
  }

  /** One more delivered signal, seen from the rows before it. */
  lemma VertexRowsSnoc(delivered: seq<Event>, e: Event)
    ensures VertexRows(delivered + [e]) ==
      if e.AddMeshEvent? then VertexRows(delivered) + [e.vertices]
      else if e.index < |VertexRows(delivered)| then VertexRows(delivered)[e.index := e.vertices]
      else VertexRows(delivered)
  {
    assert (delivered + [e])[..|delivered|] == delivered;
  }

  /** Whether a signal is an update of mesh i. */
  predicate Updates(e: Event, i: nat)
  {
    e.UpdateMeshEvent? && e.index == i
  }

  /**
   * The latest delivered update of an applied mesh decides its vertex rows:
   * the signals after it (new meshes, updates of other meshes) leave them.
   */
  lemma {:induction false} LatestUpdateWins(delivered: seq<Event>, i: nat, vertices: Rows, later: seq<Event>)
    requires i < |VertexRows(delivered)|
    requires forall k :: 0 <= k < |later| ==> !Updates(later[k], i)
    ensures var after := VertexRows(delivered + [UpdateMeshEvent(i, vertices)] + later);
      i < |after| && after[i] == vertices
    decreases |later|
  {
    var u := UpdateMeshEvent(i, vertices);
    if later == [] {
      assert delivered + [u] + later == delivered + [u];
      VertexRowsSnoc(delivered, u);
    } else {
      var init := later[..|later| - 1];
      var e := later[|later| - 1];
      LatestUpdateWins(delivered, i, vertices, init);
      assert delivered + [u] + later == (delivered + [u] + init) + [e];
      VertexRowsSnoc(delivered + [u] + init, e);
      assert !Updates(e, i);
    }
  }

  class ViewerWidget {
    var shaders: map<string, ShaderProgram>
    var meshes: seq<GlMesh>
    var mesh_instances: seq<MeshInstance>
    /** Signals emitted and not yet delivered, oldest first. */
    var events: seq<Event>
    /** Every add-mesh request so far, in request order. */
    ghost var mesh_requests: seq<Event>
    /** Every signal delivered so far, in delivery order. */
    ghost var delivered: seq<Event>

    /**
     * The n-th add-mesh request is applied as meshes[n] or still queued, in
     * request order; the instances come in pairs, the pair of meshes[n] at
     * positions 2n (requested shader) and 2n + 1 ('wireframe'); each mesh
     * holds the vertex rows the delivered signals give it.
     */
    ghost predicate Valid()
      reads this, meshes
    {
      && |meshes| <= |mesh_requests|
      && (forall e :: e in mesh_requests ==> e.AddMeshEvent?)
      && PendingMeshes(events) == mesh_requests[|meshes|..]
      && Registry(meshes, mesh_instances, mesh_requests)
      && |VertexRows(delivered)| == |meshes|
      && (forall i :: 0 <= i < |meshes| ==> meshes[i].vertex_buffer.rows == VertexRows(delivered)[i])
    }

    constructor ()
      ensures Valid()
      ensures shaders == map[] && meshes == [] && mesh_instances == [] && events == []
      ensures mesh_requests == [] && delivered == []
    {
      shaders := map[];
      meshes := [];
      mesh_instances := [];
      events := [];
      mesh_requests := [];
      delivered := [];
    }

    /** Registers the shaders found on disk, by name. */
    method AddShaders(found: map<string, ShaderProgram>)
      requires Valid()
      modifies this
      ensures Valid()
      ensures shaders == old(shaders) + found
      ensures meshes == old(meshes) && mesh_instances == old(mesh_instances) && events == old(events)
      ensures mesh_requests == old(mesh_requests) && delivered == old(delivered)
    {
      shaders := shaders + found;
    }

    /**
     * Requests a mesh. The returned number is the count of meshes applied so
     * far; the mesh itself will land after every add-mesh event already
     * queued, so the two agree only when none is queued.
     */
    method AddMesh(vertices: Rows, faces: Faces, normals: Rows := [], texture_coords: Rows := [],
                   shader: string := "default")
      returns (mesh_count: nat)
      requires Valid()
      modifies this
      ensures Valid()
      ensures mesh_count == |meshes|
      ensures events == old(events) + [AddMeshEvent(vertices, faces, normals, texture_coords, shader)]
      ensures |mesh_requests| - 1 == mesh_count + |PendingMeshes(old(events))|
      ensures mesh_requests[|mesh_requests| - 1] == AddMeshEvent(vertices, faces, normals, texture_coords, shader)
      ensures meshes == old(meshes) && mesh_instances == old(mesh_instances) && shaders == old(shaders)
      ensures delivered == old(delivered)
    {
      var e := AddMeshEvent(vertices, faces, normals, texture_coords, shader);
      PendingAfterPush(events, e);
      events := events + [e];
      mesh_requests := mesh_requests + [e];
      mesh_count := |meshes|;
    }

    /** Requests new vertex data for a mesh; the normals and texture coordinates are dropped. */
    method UpdateMesh(index: nat, vertices: Rows, normals: Rows := [], texture_coords: Rows := [])
      requires Valid()
      modifies this
      ensures Valid()
      ensures events == old(events) + [UpdateMeshEvent(index, vertices)]
      ensures meshes == old(meshes) && mesh_instances == old(mesh_instances) && shaders == old(shaders)
      ensures mesh_requests == old(mesh_requests) && delivered == old(delivered)
    {
      var e := UpdateMeshEvent(index, vertices);
      PendingAfterPush(events, e);
      events := events + [e];
    }

    /** The add_mesh_ slot: one mesh, then two instances of it, the requested shader's first. */
    method ApplyAddMesh(vertices: Rows, faces: Faces, normals: Rows, texture_coords: Rows, shader: string)
      modifies this
      ensures |meshes| == |old(meshes)| + 1 && meshes[..|old(meshes)|] == old(meshes)
      ensures var m := meshes[|meshes| - 1];
        && fresh(m) && BuiltFrom(m, AddMeshEvent(vertices, faces, normals, texture_coords, shader))
        && m.vertex_buffer == Vbo(vertices, ArrayBuffer)
        && mesh_instances == old(mesh_instances) + [MeshInstance(m, None, shader), MeshInstance(m, None, "wireframe")]
      ensures events == old(events) && shaders == old(shaders)
      ensures mesh_requests == old(mesh_requests) && delivered == old(delivered)
    {
      var m := new GlMesh(vertices, faces, normals, texture_coords);
      meshes := meshes + [m];
      mesh_instances := mesh_instances + [MeshInstance(meshes[|meshes| - 1], None, shader)];
      mesh_instances := mesh_instances + [MeshInstance(meshes[|meshes| - 1], None, "wireframe")];
    }

    /** The update_mesh_ slot: replaces the vertex data of one mesh; every other mesh keeps its buffer. */
    method ApplyUpdateMesh(index: nat, vertices: Rows) returns (error: Option<PythonError>)
      requires Valid()
      modifies if index < |meshes| then {meshes[index]} else {}
      ensures error == if index < |meshes| then None else Some(IndexError)
      ensures error.None? ==> meshes[index].vertex_buffer == Vbo(vertices, old(meshes[index].vertex_buffer).target)
      ensures forall j :: 0 <= j < |meshes| && j != index ==> meshes[j].vertex_buffer == old(meshes[j].vertex_buffer)
    {
      if index < |meshes| {
        meshes[index].UpdateVertices(vertices);
        error := None;
      } else {
        error := Some(IndexError);
      }
    }

    /** Delivers the oldest pending signal, an add-mesh signal, to add_mesh_. */
    method DeliverAddMesh()
      requires Valid() && events != [] && events[0].AddMeshEvent?
      modifies this
      ensures Valid()
      ensures events == old(events)[1..] && delivered == old(delivered) + [old(events)[0]]
      ensures shaders == old(shaders) && mesh_requests == old(mesh_requests)
      ensures |meshes| == |old(meshes)| + 1 && old(meshes) <= meshes
      ensures var m := meshes[|meshes| - 1]; var e := old(events)[0];
        && fresh(m) && BuiltFrom(m, e) && m.vertex_buffer == Vbo(e.vertices, ArrayBuffer)
        && mesh_instances == old(mesh_instances) + [MeshInstance(m, None, e.shader), MeshInstance(m, None, "wireframe")]
    {
      var e := events[0];
      assert PendingMeshes(events) == [e] + PendingMeshes(events[1..]);
      VertexRowsSnoc(delivered, e);
      events := events[1..];
      delivered := delivered + [e];
      ghost var before_meshes, before_insts := meshes, mesh_instances;
      assert mesh_requests[|meshes|] == e;
      ApplyAddMesh(e.vertices, e.faces, e.normals, e.texture_coords, e.shader);
      RegistrySnoc(before_meshes, before_insts, mesh_requests, meshes[|meshes| - 1]);
      assert meshes == before_meshes + [meshes[|meshes| - 1]];
    }

    /** Delivers the oldest pending signal, an update, to update_mesh_. */
    method DeliverUpdateMesh() returns (error: Option<PythonError>)
      requires Valid() && events != [] && events[0].UpdateMeshEvent?
      modifies this, if events[0].index < |meshes| then {meshes[events[0].index]} else {}
      ensures Valid()
      ensures events == old(events)[1..] && delivered == old(delivered) + [old(events)[0]]
      ensures shaders == old(shaders) && mesh_requests == old(mesh_requests)
      ensures meshes == old(meshes) && mesh_instances == old(mesh_instances)
      ensures var e := old(events)[0];
        && error == (if e.index < |meshes| then None else Some(IndexError))
        && (error.None? ==> meshes[e.index].vertex_buffer == Vbo(e.vertices, old(meshes[e.index].vertex_buffer).target))
        && forall j :: 0 <= j < |meshes| && j != e.index ==> meshes[j].vertex_buffer == old(meshes[j].vertex_buffer)
    {
      var e := events[0];
      assert PendingMeshes(events) == PendingMeshes(events[1..]);
      VertexRowsSnoc(delivered, e);
      ghost var rows := if e.index < |meshes| then VertexRows(delivered)[e.index := e.vertices] else VertexRows(delivered);
      error := ApplyUpdateMesh(e.index, e.vertices);
      events := events[1..];
      delivered := delivered + [e];
      forall i | 0 <= i < |meshes|
        ensures meshes[i].vertex_buffer.rows == rows[i]
      {
      }
    }

    /**
     * Delivers the oldest pending signal to its slot: an add-mesh signal
     * appends its mesh and that mesh's two instances; an update replaces the
     * vertex rows of the mesh it names, or raises IndexError when no such
     * mesh is applied yet.
     */
    method ApplyNext() returns (error: Option<PythonError>)
      requires Valid() && events != []
      modifies this, meshes
      ensures Valid()
      ensures events == old(events)[1..] && delivered == old(delivered) + [old(events)[0]]
      ensures delivered + events == old(delivered + events)
      ensures shaders == old(shaders) && mesh_requests == old(mesh_requests)
      ensures old(meshes) <= meshes && old(mesh_instances) <= mesh_instances
      ensures forall m :: m in meshes ==> m in old(meshes) || fresh(m)
      ensures forall i :: |old(meshes)| <= i < |meshes| ==> fresh(meshes[i])
      ensures old(events)[0].AddMeshEvent? ==>
        && error.None? && |meshes| == |old(meshes)| + 1
        && var m := meshes[|meshes| - 1]; var e := old(events)[0];
        && fresh(m) && BuiltFrom(m, e) && m.vertex_buffer == Vbo(e.vertices, ArrayBuffer)
        && mesh_instances == old(mesh_instances) + [MeshInstance(m, None, e.shader), MeshInstance(m, None, "wireframe")]
        && forall j :: 0 <= j < |old(meshes)| ==> meshes[j].vertex_buffer == old(meshes[j].vertex_buffer)
      ensures old(events)[0].UpdateMeshEvent? ==>
        && meshes == old(meshes) && mesh_instances == old(mesh_instances)
        && var e := old(events)[0];
        && error == (if e.index < |meshes| then None else Some(IndexError))
        && (error.None? ==> meshes[e.index].vertex_buffer == Vbo(e.vertices, old(meshes[e.index].vertex_buffer).target))
        && forall j :: 0 <= j < |meshes| && j != e.index ==> meshes[j].vertex_buffer == old(meshes[j].vertex_buffer)
    {
      error := None;
      assert [events[0]] + events[1..] == events;
      if events[0].AddMeshEvent? {
        DeliverAddMesh();
      } else {
        error := DeliverUpdateMesh();
      }
    }

    /**
     * Delivers pending signals oldest first until none is left or a slot
     * raises. Nothing applied before moves and no request is forgotten; a
     * complete drain has delivered every signal, so it leaves one mesh per
     * add-mesh request, in request order, two instances per mesh, and each
     * mesh with the vertex rows VertexRows gives for all signals so far.
     */
    method Drain() returns (error: Option<PythonError>)
      requires Valid()
      modifies this, meshes
      ensures Valid()
      ensures shaders == old(shaders) && mesh_requests == old(mesh_requests)
      ensures delivered + events == old(delivered + events)
      ensures old(meshes) <= meshes && old(mesh_instances) <= mesh_instances
      ensures forall i :: |old(meshes)| <= i < |meshes| ==> fresh(meshes[i])
      ensures error.Some? ==> error == Some(IndexError)
      ensures error.None? ==> events == [] && |meshes| == |mesh_requests| && |mesh_instances| == 2 * |mesh_requests|
      ensures error.None? ==> delivered == old(delivered) + old(events)
    {
      error := None;
      while events != [] && error.None?
        invariant Valid()
        invariant shaders == old(shaders) && mesh_requests == old(mesh_requests)
        invariant delivered + events == old(delivered + events)
        invariant old(meshes) <= meshes && old(mesh_instances) <= mesh_instances
        invariant forall i :: 0 <= i < |meshes| ==> meshes[i] in old(meshes) || fresh(meshes[i])
        invariant forall i :: |old(meshes)| <= i < |meshes| ==> fresh(meshes[i])
        invariant error.Some? ==> error == Some(IndexError)
        decreases |events|
      {
        error := ApplyNext();
      }
      if error.None? {
        assert delivered + events == delivered;
      }
    }

    /**
     * Issues the draw calls for every instance in list order. A wireframe
     * instance switches to line mode before its draw and back to fill after
     * it. An instance whose shader name is unknown raises KeyError, after the
     * line-mode switch for a wireframe instance.
     */
    method PaintGL() returns (calls: seq<GlCall>, error: Option<PythonError>)
      ensures var insts := mesh_instances; var k := FirstUnknown(insts, shaders);
        && (error.None? <==> k == |insts|)
        && (error.Some? ==> error == Some(KeyError(insts[k].shader_name)))
        && calls == PaintCalls(insts[..k], shaders) +
             (if k < |insts| && IsWireframe(insts[k]) then [SetPolygonMode(Line)] else [])
    {
      ghost var insts := mesh_instances;
      ghost var k := FirstUnknown(insts, shaders);
      calls, error := [], None;
      var i := 0;
      while i < |mesh_instances|
        invariant 0 <= i <= k
        invariant AllKnown(insts[..i], shaders)
        invariant calls == PaintCalls(insts[..i], shaders)
      {
        var inst := mesh_instances[i];
        assert inst == insts[i];
        if inst.shader_name !in shaders {
          // a wireframe instance has already switched to line mode when the lookup raises
          if IsWireframe(inst) {
            calls := calls + [SetPolygonMode(Line)];
          }
          assert i == k;
          error := Some(KeyError(inst.shader_name));
          return;
        }
        calls := calls + InstanceCalls(inst, shaders[inst.shader_name].program);
        assert AllKnown(insts[..i + 1], shaders) by {
          assert forall j :: 0 <= j < i + 1 ==> insts[..i + 1][j] == insts[j];
        }
        assert calls == PaintCalls(insts[..i + 1], shaders) by {
          PaintCallsStep(insts, shaders, i);
        }
        i := i + 1;
      }
    }
  }
}
