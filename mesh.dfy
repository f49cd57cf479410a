/**
 * GPU-side mesh records (PyIGL_viewer/mesh/mesh.py): a GlMesh owns the vertex,
 * element, normal and texture-coordinate buffers of one piece of geometry, and a
 * GlMeshInstance places a mesh with a model matrix, an albedo and a shader name.
 */
module Mesh {
  import opened Values
  import opened Gl

  /** A numpy array of floats, row by row (vertices, normals, texture coordinates). */
  type Rows = seq<seq<real>>

  /** A numpy array of vertex indices, one row per face. */
  type Faces = seq<seq<int>>

  /**
   * The calls `bind_buffers` issues for the given buffers: positions in slot 0
   * (3 floats), normals in slot 1 (3 floats) when there is a normal buffer,
   * texture coordinates in slot 2 (2 floats) when there is a texture buffer,
   * and the element buffer last.
   */
  function BindCalls(vertex: Vbo<real>, normal: Option<Vbo<real>>, texture: Option<Vbo<real>>,
                     element: Vbo<int>): (calls: seq<GlCall>)
    ensures |calls| == 4 + (if normal.Some? then 3 else 0) + (if texture.Some? then 3 else 0)
    ensures calls[..3] == [EnableVertexAttribArray(0), BindArrayBuffer(vertex), VertexAttribPointer(0, 3)]
    ensures calls[|calls| - 1] == BindElementBuffer(element)
  {
    var positions := [EnableVertexAttribArray(0), BindArrayBuffer(vertex), VertexAttribPointer(0, 3)];
    var normals := if normal.Some?
      then [EnableVertexAttribArray(1), BindArrayBuffer(normal.value), VertexAttribPointer(1, 3)]
      else [];
    var textures := if texture.Some?
      then [EnableVertexAttribArray(2), BindArrayBuffer(texture.value), VertexAttribPointer(2, 2)]
      else [];
    positions + (normals + (textures + [BindElementBuffer(element)]))
  }

  /** The attribute slots the calls enable, in call order. */
  function EnabledSlots(calls: seq<GlCall>): seq<nat>
  {
    if calls == [] then []
    else (if calls[0].EnableVertexAttribArray? then [calls[0].slot] else []) + EnabledSlots(calls[1..])
  }

  lemma {:induction false} EnabledSlotsAppend(a: seq<GlCall>, b: seq<GlCall>)
    ensures EnabledSlots(a + b) == EnabledSlots(a) + EnabledSlots(b)
  {
    if a == [] {
      assert a + b == b;
    } else {
      var head := if a[0].EnableVertexAttribArray? then [a[0].slot] else [];
      assert (a + b)[0] == a[0] && (a + b)[1..] == a[1..] + b;
      assert EnabledSlots(a + b) == head + EnabledSlots(a[1..] + b);
      EnabledSlotsAppend(a[1..], b);
      assert EnabledSlots(a) == head + EnabledSlots(a[1..]);
    }
  }

  /** A call that only binds buffers or describes attributes. */
  predicate IsBinding(c: GlCall)
  {
    c.EnableVertexAttribArray? || c.BindArrayBuffer? || c.VertexAttribPointer? || c.BindElementBuffer?
  }

  lemma EnabledSlotsOfGroup(slot: nat, buffer: Vbo<real>, size: nat)
    ensures EnabledSlots([EnableVertexAttribArray(slot), BindArrayBuffer(buffer), VertexAttribPointer(slot, size)]) == [slot]
  {
    var group := [EnableVertexAttribArray(slot), BindArrayBuffer(buffer), VertexAttribPointer(slot, size)];
    assert group[1..] == [BindArrayBuffer(buffer), VertexAttribPointer(slot, size)];
    assert group[1..][1..] == [VertexAttribPointer(slot, size)];
    assert group[1..][1..][1..] == [];
    assert EnabledSlots(group[1..][1..]) == [];
    assert EnabledSlots(group[1..]) == [];
  }

  /**
   * Binding enables slot 0, then slot 1 exactly when there are normals, then
   * slot 2 exactly when there are texture coordinates.
   */
  lemma BindCallsSlots(vertex: Vbo<real>, normal: Option<Vbo<real>>, texture: Option<Vbo<real>>, element: Vbo<int>)
    ensures EnabledSlots(BindCalls(vertex, normal, texture, element)) ==
      [0] + ((if normal.Some? then [1] else []) + (if texture.Some? then [2] else []))
  {
    var positions := [EnableVertexAttribArray(0), BindArrayBuffer(vertex), VertexAttribPointer(0, 3)];
    var normals := if normal.Some?
      then [EnableVertexAttribArray(1), BindArrayBuffer(normal.value), VertexAttribPointer(1, 3)]
      else [];
    var textures := if texture.Some?
      then [EnableVertexAttribArray(2), BindArrayBuffer(texture.value), VertexAttribPointer(2, 2)]
      else [];
    var last: seq<GlCall> := [BindElementBuffer(element)];
    EnabledSlotsOfGroup(0, vertex, 3);
    if normal.Some? { EnabledSlotsOfGroup(1, normal.value, 3); }
    if texture.Some? { EnabledSlotsOfGroup(2, texture.value, 2); }
    assert EnabledSlots(last) == [] by {
      assert last[1..] == [];
    }
    EnabledSlotsAppend(textures, last);
    assert EnabledSlots(textures + last) == (if texture.Some? then [2] else []);
    EnabledSlotsAppend(normals, textures + last);
    EnabledSlotsAppend(positions, normals + (textures + last));
  }

  /**
   * The normal buffer is bound to slot 1 with 3 components right after the
   * positions, and the texture buffer to slot 2 with 2 components right
   * before the element buffer.
   */
  lemma BindCallsGroups(vertex: Vbo<real>, normal: Option<Vbo<real>>, texture: Option<Vbo<real>>, element: Vbo<int>)
    ensures var calls := BindCalls(vertex, normal, texture, element);
      && (normal.Some? ==>
            calls[3..6] == [EnableVertexAttribArray(1), BindArrayBuffer(normal.value), VertexAttribPointer(1, 3)])
      && (texture.Some? ==>
            calls[|calls| - 4..|calls| - 1] ==
              [EnableVertexAttribArray(2), BindArrayBuffer(texture.value), VertexAttribPointer(2, 2)])
  {
    var calls := BindCalls(vertex, normal, texture, element);
    var positions := [EnableVertexAttribArray(0), BindArrayBuffer(vertex), VertexAttribPointer(0, 3)];
    var normals := if normal.Some?
      then [EnableVertexAttribArray(1), BindArrayBuffer(normal.value), VertexAttribPointer(1, 3)]
      else [];
    var textures := if texture.Some?
      then [EnableVertexAttribArray(2), BindArrayBuffer(texture.value), VertexAttribPointer(2, 2)]
      else [];
    var rest := normals + (textures + [BindElementBuffer(element)]);
    assert calls == positions + rest;
    assert calls[3..] == rest;
    if normal.Some? {
      assert calls[3..6] == rest[..3];
    }
    if texture.Some? {
      var n := |calls|;
      assert calls[n - 4..] == textures + [BindElementBuffer(element)];
      assert calls[n - 4..n - 1] == calls[n - 4..][..3];
    }
  }

  /** Binding never changes the polygon mode, selects a program or draws. */
  lemma BindCallsOnlyBind(vertex: Vbo<real>, normal: Option<Vbo<real>>, texture: Option<Vbo<real>>, element: Vbo<int>)
    ensures forall c :: c in BindCalls(vertex, normal, texture, element) ==> IsBinding(c)
  {
    var calls := BindCalls(vertex, normal, texture, element);
    forall c | c in calls
      ensures IsBinding(c)
    {
      var i :| 0 <= i < |calls| && calls[i] == c;
    }
  }

  class GlMesh {
    /** Row count of the vertex array given at construction. */
    const number_vertices: nat
    /** Row count of the face array given at construction. */
    const number_elements: nat
    /** The only buffer whose contents change after construction (update_vertices). */
    var vertex_buffer: Vbo<real>
    const element_buffer: Vbo<int>
    const normal_buffer: Option<Vbo<real>>
    const texture_buffer: Option<Vbo<real>>

    /**
     * Counts come from the row counts of the arrays; a normal (texture) buffer is
     * created exactly when the normal (texture-coordinate) array has a row.
     */
    constructor (vertices: Rows, faces: Faces, normals: Rows, texture_coords: Rows)
      ensures number_vertices == |vertices| && number_elements == |faces|
      ensures vertex_buffer == Vbo(vertices, ArrayBuffer)
      ensures element_buffer == Vbo(faces, ElementArrayBuffer)
      ensures normal_buffer.Some? <==> |normals| > 0
      ensures normal_buffer.Some? ==> normal_buffer.value == Vbo(normals, ArrayBuffer)
      ensures texture_buffer.Some? <==> |texture_coords| > 0
      ensures texture_buffer.Some? ==> texture_buffer.value == Vbo(texture_coords, ArrayBuffer)
    {
      number_vertices := |vertices|;
      number_elements := |faces|;
      vertex_buffer := Vbo(vertices, ArrayBuffer);
      element_buffer := Vbo(faces, ElementArrayBuffer);
      if |normals| > 0 {
        normal_buffer := Some(Vbo(normals, ArrayBuffer));
      } else {
        normal_buffer := None;
      }
      if |texture_coords| > 0 {
        texture_buffer := Some(Vbo(texture_coords, ArrayBuffer));
      } else {
        texture_buffer := None;
      }
    }

    /** Binds the buffers for drawing; the calls are returned as a log. */
    method BindBuffers() returns (calls: seq<GlCall>)
      ensures calls == BindCalls(vertex_buffer, normal_buffer, texture_buffer, element_buffer)
    {
      calls := [EnableVertexAttribArray(0), BindArrayBuffer(vertex_buffer), VertexAttribPointer(0, 3)];
      if normal_buffer.Some? {
        calls := calls + [EnableVertexAttribArray(1), BindArrayBuffer(normal_buffer.value), VertexAttribPointer(1, 3)];
      }
      if texture_buffer.Some? {
        calls := calls + [EnableVertexAttribArray(2), BindArrayBuffer(texture_buffer.value), VertexAttribPointer(2, 2)];
      }
      calls := calls + [BindElementBuffer(element_buffer)];
    }

    /**
     * Replaces the contents of the vertex buffer in place. The counts are not
     * recomputed, even when the new array has a different number of rows.
     */
    method UpdateVertices(vertices: Rows)
      modifies this
      ensures vertex_buffer == Vbo(vertices, old(vertex_buffer).target)
    {
      vertex_buffer := vertex_buffer.(rows := vertices);
    }
  }

  /** A placement of a mesh: the record the four-argument constructor builds. */
  class GlMeshInstance {
    const mesh: GlMesh
    const model_matrix: Option<Mat4>
    const albedo: seq<real>
    const shader_name: string

    constructor (mesh_prefab: GlMesh, model_matrix: Option<Mat4>, albedo: seq<real>, shader_name: string)
      ensures mesh == mesh_prefab
      ensures GetModelMatrix() == model_matrix && GetAlbedo() == albedo && GetShaderName() == shader_name
      ensures NumberVertices() == mesh_prefab.number_vertices
      ensures NumberElements() == mesh_prefab.number_elements
    {
      this.mesh := mesh_prefab;
      this.model_matrix := model_matrix;
      this.shader_name := shader_name;
      this.albedo := albedo;
    }

    function NumberVertices(): nat { mesh.number_vertices }

    function NumberElements(): nat { mesh.number_elements }

    function GetModelMatrix(): Option<Mat4> { model_matrix }

    function GetAlbedo(): seq<real> { albedo }

    function GetShaderName(): string { shader_name }

    /** Delegates to the referenced mesh's buffer binding. */
    method BindVertexAttributes() returns (calls: seq<GlCall>)
      ensures calls == BindCalls(mesh.vertex_buffer, mesh.normal_buffer, mesh.texture_buffer, mesh.element_buffer)
    {
      calls := mesh.BindBuffers();
    }
  }
}
