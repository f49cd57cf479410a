# PyIGL_viewer registry, camera, mouse and mesh model

A Dafny model of the bookkeeping core of PyIGL_viewer, a Qt/OpenGL mesh
viewer. Each piece keeps the form it has in the Python code.

- **Mesh records** (module `Mesh`, classes `GlMesh` and `GlMeshInstance`).
  - A mesh takes its vertex and element counts from the row counts of its arrays.
  - It has a normal buffer exactly when the normal array has a row, and a texture buffer exactly when the texture array has a row.
  - `update_vertices` replaces the vertex buffer in place.
  - `bind_buffers` binds in a fixed attribute-slot order.
  - OpenGL calls are entries of a call log (module `Gl`), and vertex buffer objects are records of their rows.
- **Viewer widget registry** (module `ViewerWidget`, class `ViewerWidget`).
  - `meshes` and `mesh_instances` are lists with independent index counters.
  - A request returns an index at once and emits a Qt signal; the connected slot changes the lists when the signal is delivered. That hop is an explicit FIFO queue `events`: requests push and `Drain` applies in order.
  - Ghost bookkeeping (`mesh_requests`, `instance_requests`, `instance_outcomes`) ties every returned index to the request that produced it. The invariant `Valid` places every appended instance, built for its request, at the position that request's outcome gives.
  - The instance slot writes the light values into the caller's uniforms dict, which is a heap object. Without a dict of its own, a request shares the one default dict.
  - An unknown shader drops the request. A construction that raises ValueError falls back to the `'default'` shader.
  - `paintGL` skips wireframe instances while the wireframe is off, and gives a drawn instance without a model matrix the identity, kept in the list. Its draws are a list of `Draw` records.
- **Older viewer** (module `Viewer`).
  - Adding a mesh creates the mesh and two instances of it: the requested shader's, then `'wireframe'`.
  - The ghost list `delivered` records the signals delivered so far. `VertexRows` is a reference definition of every mesh's vertex rows after those signals, and the invariant holds each mesh to it.
  - `paintGL` is a log of GL calls in which a wireframe draw is bracketed by line and fill polygon mode.
- **Camera** (module `Camera`, class `Camera`).
  - The committed `eye`/`target`/`up` and the working copy `current_*` are `array<real>` objects of length 3. This makes the aliasing visible: `reset` and `finalize_transformation` make a committed vector and its working copy one object, and `handle_zoom` moves `eye` in place.
  - The routines of projection.py are supplied as a record of functions (`ProjectionMath`).
- **Mouse tracker** (module `Mouse`, class `MouseHandler`).
  - A five-entry position history, newest first.
  - A button-to-timestamp map in which a nonzero timestamp means pressed.

Python exceptions that escape a slot or `paintGL` are returned as error values. A drain stops at the first one.

The widget was written against a newer revision of the mesh module than the one in the repository:
- It calls `GlMesh(vertices, faces)` without normal or texture arrays. The mesh.py shown would read `.shape` of `None` there and raise.
- It calls `GlMeshInstance` with six arguments, and mesh.py's constructor takes four.

The model follows the widget's evident intent:
- Its meshes are built with no normal and no texture buffer.
- Its instances are records of the six constructor arguments plus the model matrix.

The older viewer has a similar mismatch. Its `add_mesh_` calls `GlMeshInstance(mesh, None, shader)` with three arguments, while mesh.py's constructor takes four: mesh, model matrix, albedo and shader name. As written, the call would append the mesh and then raise TypeError. The model follows the evident intent: an instance of the older viewer is a record of the mesh, the model matrix (None) and the shader name, and `add_mesh_` appends the mesh and both instances.

`remove_mesh` in the widget is modelled as written. After clearing the mesh, its loop reads `mesh` from the widget itself, which has no such attribute. So with any instance in the list it raises AttributeError on its first step, and no instance is cleared.

## Model

| member | source | states |
|---|---|---|
| Values.Identity4 | PyIGL_viewer/viewer/viewer_widget.py:109 | the 4x4 matrix with ones exactly on the diagonal |
| Mesh.BindCalls | PyIGL_viewer/mesh/mesh.py:20-32 | binding issues 4 calls plus 3 per optional buffer, starts with the position group (slot 0, 3 floats) and ends with the element buffer |
| Mesh.BindCallsSlots | PyIGL_viewer/mesh/mesh.py:20-32 | the enabled slots are 0, then 1 exactly when there is a normal buffer, then 2 exactly when there is a texture buffer |
| Mesh.BindCallsGroups | PyIGL_viewer/mesh/mesh.py:24-31 | the normal buffer goes to slot 1 with 3 floats right after the positions; the texture buffer goes to slot 2 with 2 floats right before the element buffer |
| Mesh.BindCallsOnlyBind | PyIGL_viewer/mesh/mesh.py:20-32 | binding never sets the polygon mode, selects a program or draws |
| Mesh.GlMesh.constructor | PyIGL_viewer/mesh/mesh.py:6-18 | the counts are the row counts of vertices and faces; a normal (texture) buffer exists exactly when its array has a row and holds that array |
| Mesh.GlMesh.BindBuffers | PyIGL_viewer/mesh/mesh.py:20-32 | the calls issued are the binding sequence of the mesh's own buffers |
| Mesh.GlMesh.UpdateVertices | PyIGL_viewer/mesh/mesh.py:34-35 | the vertex buffer holds the new rows with its target kept; counts and the other buffers are constants and cannot change |
| Mesh.GlMeshInstance.constructor | PyIGL_viewer/mesh/mesh.py:38-57 | the getters return the constructor's model matrix, albedo and shader name; the instance's counts equal its mesh's |
| Mesh.GlMeshInstance.BindVertexAttributes | PyIGL_viewer/mesh/mesh.py:60-61 | binding an instance issues exactly its mesh's binding sequence |
| Mouse.AppendLeft | PyIGL_viewer/viewer/mouse.py:16-17 | the bounded appendleft puts the point first, shifts the others back one place and drops the oldest when full |
| Mouse.Moves | PyIGL_viewer/viewer/mouse.py:9-17 | the history keeps exactly five entries after any sequence of moves |
| Mouse.MovesKeepNewestFirst | PyIGL_viewer/viewer/mouse.py:9-17 | after any moves, entry i is the i-th newest move, or an older starting entry when fewer moves were made |
| Mouse.DeltaAfterMoves | PyIGL_viewer/viewer/mouse.py:25-26 | after two or more moves the delta is the last position minus the one before it |
| Mouse.Pressed | PyIGL_viewer/viewer/mouse.py:28-29 | a lookup fails exactly for a button without an entry; otherwise pressed exactly when the stored timestamp is nonzero |
| Mouse.MouseHandler.constructor | PyIGL_viewer/viewer/mouse.py:5-14 | five (0, 0) positions; Left, Right and Middle not pressed; any other button a lookup error |
| Mouse.MouseHandler.AddMouseMoveEvent | PyIGL_viewer/viewer/mouse.py:16-17 | the history gains the point in front, keeps length five, and the delta becomes the new point minus the old front; timestamps unchanged |
| Mouse.MouseHandler.AddMousePressEvent | PyIGL_viewer/viewer/mouse.py:19-20 | the button's timestamp is stored, so it reads pressed exactly when the timestamp is nonzero; other buttons and the history unchanged |
| Mouse.MouseHandler.AddMouseReleaseEvent | PyIGL_viewer/viewer/mouse.py:22-23 | the button's timestamp becomes 0, so it reads not pressed; other buttons and the history unchanged |
| Camera.Cross | PyIGL_viewer/viewer/camera.py:35 | the cross product is orthogonal to both of its arguments |
| Camera.ZoomFactor | PyIGL_viewer/viewer/camera.py:62-65 | the factor lies in [-0.9, 0.9], is the input when it already does, and is the nearer bound otherwise |
| Camera.Translated | PyIGL_viewer/viewer/camera.py:46-55 | eye and target move by one and the same offset, so eye minus target is kept |
| Camera.Camera.constructor | PyIGL_viewer/viewer/camera.py:6-10 | size and aspect ratio from the viewport, then the reset lens and view with the working copy aliased to the committed vectors |
| Camera.Camera.Reset | PyIGL_viewer/viewer/camera.py:12-23 | fov 60, near 0.01, far 100, new vectors eye (0,0,1), target (0,0,0), up (0,1,0), each working vector the same object as its committed one; size and aspect ratio kept; the result does not depend on the prior view, so a second reset gives the same values |
| Camera.Camera.ResetView | PyIGL_viewer/viewer/camera.py:17-23 | the view part of reset: three new distinct default vectors shared with the working copy, lens kept |
| Camera.Camera.HandleResize | PyIGL_viewer/viewer/camera.py:25-28 | width, height and aspect ratio width/height are set; a zero height raises ZeroDivisionError and changes nothing; lens and vectors kept |
| Camera.Camera.HandleRotation | PyIGL_viewer/viewer/camera.py:30-44 | only current_eye and current_up are written, with the orbit of the committed view; eye, target, up, current_target and the lens kept |
| Camera.Camera.HandleTranslation | PyIGL_viewer/viewer/camera.py:46-55 | the working eye and target are the committed ones moved by the same offset scaled by the viewport size, so current_eye minus current_target equals eye minus target; committed vectors and current_up kept; a zero width or height raises ZeroDivisionError and changes no vector |
| Camera.Camera.FinalizeTransformation | PyIGL_viewer/viewer/camera.py:57-60 | each committed vector becomes its working copy's object, so a second call changes nothing; lens kept |
| Camera.Camera.HandleZoom | PyIGL_viewer/viewer/camera.py:62-66 | eye minus target is scaled by 1 + the clamped factor, in place; target and up kept; the working eye moves with it exactly when it is the same object as eye |
| Camera.Camera.GetPosition | PyIGL_viewer/viewer/camera.py:68-69 | the position is the working eye object itself |
| Camera.Camera.GetViewMatrix | PyIGL_viewer/viewer/camera.py:71-72 | the view is built from the working copy, not from the committed vectors |
| Camera.Camera.GetProjectionMatrix | PyIGL_viewer/viewer/camera.py:74-77 | the projection depends on fov, aspect ratio and the two planes only |
| ViewerWidget.CountMatchesIndex | PyIGL_viewer/viewer/viewer_widget.py:178-198 | the delivered requests all appended an instance exactly when the instance count equals the request count |
| ViewerWidget.ReturnedIndexHoldsRequest | PyIGL_viewer/viewer/viewer_widget.py:178-198 | the index add_mesh_instance returned names its own request's instance when every request up to it appended one |
| ViewerWidget.DroppedRequestShifts | PyIGL_viewer/viewer/viewer_widget.py:178-198 | once an earlier request appended nothing (unknown shader, or IndexError, KeyError or ValueError escaping the slot), a later request's instance sits before its returned index |
| ViewerWidget.InstancesFromSnoc | PyIGL_viewer/viewer/viewer_widget.py:178-190 | delivering the next request keeps every appended instance, built for its request, at the position its outcome gives |
| ViewerWidget.InstancesFromRemodel | PyIGL_viewer/viewer/viewer_widget.py:210-212 | changing model matrices keeps the instances matched to their requests |
| ViewerWidget.BooksAfterPush | PyIGL_viewer/viewer/viewer_widget.py:170-198 | a request queues its signal and records itself, so the applied and queued parts of both registries stay in request order |
| ViewerWidget.MeshBookDeliver | PyIGL_viewer/viewer/viewer_widget.py:167-168 | delivering an add-mesh signal appends the mesh built from the oldest request not yet applied |
| ViewerWidget.InstanceBookDeliver | PyIGL_viewer/viewer/viewer_widget.py:178-190 | delivering an add-instance signal records its outcome and, when it appended, an instance built for that request at the next position |
| ViewerWidget.ChooseShader | PyIGL_viewer/viewer/viewer_widget.py:182-187 | nothing is built exactly when the shader name is unknown; a missing mesh raises IndexError; otherwise the requested shader unless its construction raises ValueError, then 'default', raising KeyError or ValueError when that also fails |
| ViewerWidget.WithLights | PyIGL_viewer/viewer/viewer_widget.py:179-181 | the three light keys get the given values, every other entry is kept |
| ViewerWidget.WithDefaultModel | PyIGL_viewer/viewer/viewer_widget.py:107-110 | a missing model matrix becomes the identity; a present one and all other fields are kept |
| ViewerWidget.FirstBroken | PyIGL_viewer/viewer/viewer_widget.py:87-117 | the first drawn instance without a mesh (requested for a mesh removed before delivery), every earlier one drawable |
| ViewerWidget.PaintedAt | PyIGL_viewer/viewer/viewer_widget.py:107-110 | after n instances are handled, exactly the first n positions carry their defaulted model matrix |
| ViewerWidget.DrawsFollowVisible | PyIGL_viewer/viewer/viewer_widget.py:87-117 | the k-th draw is the draw of the k-th visible instance, in list order |
| ViewerWidget.VisibleExactly | PyIGL_viewer/viewer/viewer_widget.py:88-90 | an instance is drawn exactly when it is not a wireframe instance while the wireframe is off |
| ViewerWidget.AllVisibleWithWireframe | PyIGL_viewer/viewer/viewer_widget.py:88-90 | with the wireframe on, every instance is drawn, in list order |
| ViewerWidget.PaintedKeepsFields | PyIGL_viewer/viewer/viewer_widget.py:107-110 | painting changes no field of any instance but its model matrix |
| ViewerWidget.PaintedKeepsBroken | PyIGL_viewer/viewer/viewer_widget.py:107-110 | defaulting model matrices makes no instance undrawable |
| ViewerWidget.DrawsOfPainted | PyIGL_viewer/viewer/viewer_widget.py:87-117 | painting a list changes none of its draws |
| ViewerWidget.RepaintIsStable | PyIGL_viewer/viewer/viewer_widget.py:107-110 | a second paint leaves the list as the first left it and draws the same |
| ViewerWidget.PaintList | PyIGL_viewer/viewer/viewer_widget.py:87-117 | the draws are those of the instances before the first drawn one without a mesh (requested for a mesh removed before delivery), which raises AttributeError; the list has the model matrices defaulted up to and including that instance |
| ViewerWidget.MeshesBuiltSnoc | PyIGL_viewer/viewer/viewer_widget.py:167-168 | appending the mesh built from the next request keeps every mesh built from the request at its position, with no mesh at two positions |
| ViewerWidget.MeshesBuiltClear | PyIGL_viewer/viewer/viewer_widget.py:214-217 | clearing a position keeps every remaining mesh built from its request |
| ViewerWidget.ViewerWidget.constructor | PyIGL_viewer/viewer/viewer_widget.py:24-47 | the given light direction, intensity 1.5 and ambient 0.1; no shaders, meshes, instances, pending signals or recorded requests; both counters 0; wireframe on |
| ViewerWidget.ViewerWidget.AddShaders | PyIGL_viewer/viewer/viewer_widget.py:64-73 | the found shaders are added by name over the table; nothing else changes |
| ViewerWidget.ViewerWidget.AddMesh | PyIGL_viewer/viewer/viewer_widget.py:170-176 | returns the mesh counter and increments it by one; the request is queued and recorded under the returned index; lists and instance records unchanged |
| ViewerWidget.ViewerWidget.AddMeshInstance | PyIGL_viewer/viewer/viewer_widget.py:192-198 | returns the instance counter and increments it by one; the request is queued carrying the caller's dict or the shared default dict, and recorded under the returned index; lists unchanged |
| ViewerWidget.ViewerWidget.UpdateMeshInstanceModel | PyIGL_viewer/viewer/viewer_widget.py:207-208 | the model update is queued; nothing else changes |
| ViewerWidget.ViewerWidget.ApplyAddMesh | PyIGL_viewer/viewer/viewer_widget.py:167-168 | exactly one new mesh, built from the vertices and faces, is appended; earlier entries kept |
| ViewerWidget.ViewerWidget.ApplyAddMeshInstance | PyIGL_viewer/viewer/viewer_widget.py:178-190 | the light values are written into the passed dict; at most one instance is appended, with the shader ChooseShader picks and no model matrix; the escaping exception is returned |
| ViewerWidget.ViewerWidget.ApplyUpdateMeshInstanceModel | PyIGL_viewer/viewer/viewer_widget.py:210-212 | only the indexed instance's model matrix changes; an index past the end raises IndexError and changes nothing |
| ViewerWidget.ViewerWidget.DeliverAddMesh | PyIGL_viewer/viewer/viewer_widget.py:55 | the oldest signal is consumed and one new mesh built from its vertices and faces is appended, landing at the index its request returned; instances and request records kept |
| ViewerWidget.ViewerWidget.DeliverAddMeshInstance | PyIGL_viewer/viewer/viewer_widget.py:58 | the oldest signal is consumed: its dict gets the light values, the instance ChooseShader allows is appended, the escaping exception is returned, and the outcome is recorded; meshes and request records kept |
| ViewerWidget.ViewerWidget.DeliverUpdateMeshInstanceModel | PyIGL_viewer/viewer/viewer_widget.py:62 | the oldest signal is consumed and only the indexed instance's model matrix changes; an index past the end raises IndexError; records kept |
| ViewerWidget.ViewerWidget.ApplyNext | PyIGL_viewer/viewer/viewer_widget.py:53-62 | the oldest signal goes to its slot, FIFO, with that slot's effect and exception; earlier meshes and instances stay where they are, instances keep every field but the model matrix, and no request is forgotten |
| ViewerWidget.ViewerWidget.Drain | PyIGL_viewer/viewer/viewer_widget.py:53-62 | earlier meshes, instances and outcomes stay where they are and the requests are kept; a complete drain leaves one mesh per returned mesh index, each built from the request that returned it, and an outcome for every returned instance index; every mesh a drain appends, complete or not, is a new object (never None) |
| ViewerWidget.ViewerWidget.UpdateMeshVertices | PyIGL_viewer/viewer/viewer_widget.py:200-202 | only the indexed mesh's vertex buffer changes; past the end raises IndexError, a removed mesh AttributeError |
| ViewerWidget.ViewerWidget.RemoveMesh | PyIGL_viewer/viewer/viewer_widget.py:214-220 | past the end nothing changes; otherwise the position becomes None with the length kept, and any instance in the list makes the loop raise AttributeError |
| ViewerWidget.ViewerWidget.SetDirectionalLight | PyIGL_viewer/viewer/viewer_widget.py:227-229 | direction and intensity are replaced; nothing else changes |
| ViewerWidget.ViewerWidget.SetAmbientLight | PyIGL_viewer/viewer/viewer_widget.py:231-232 | the ambient light is replaced; nothing else changes |
| ViewerWidget.ViewerWidget.ToggleWireframe | PyIGL_viewer/viewer/viewer_widget.py:234-236 | the wireframe switch flips, so two toggles restore it; nothing else changes |
| ViewerWidget.ViewerWidget.PaintGL | PyIGL_viewer/viewer/viewer_widget.py:83-117 | the draws and the updated list are those of PaintList on the instance list, with the defaulted model matrices kept in the widget; nothing else changes |
| Viewer.FirstUnknown | PyIGL_viewer/viewer/viewer.py:73-77 | the first instance whose shader name is not in the table, every earlier one known |
| Viewer.BindCallsKeepMode | PyIGL_viewer/viewer/viewer.py:89 | binding an instance's buffers leaves the polygon mode as it was |
| Viewer.InstanceModes | PyIGL_viewer/viewer/viewer.py:73-92 | a wireframe instance is drawn in line mode and leaves fill mode; any other is drawn in, and leaves, the incoming mode |
| Viewer.PaintEndsInFill | PyIGL_viewer/viewer/viewer.py:73-92 | after paintGL the mode is fill when any instance was a wireframe one, else the starting mode; from fill it ends in fill |
| Viewer.DrawModes | PyIGL_viewer/viewer/viewer.py:73-92 | the k-th draw runs in line mode for a wireframe instance, else in fill after an earlier wireframe instance, else in the starting mode |
| Viewer.LatestUpdateWins | PyIGL_viewer/viewer/viewer.py:119-134 | the latest delivered update of an applied mesh decides its vertex rows, whatever is delivered after it |
| Viewer.RegistrySnoc | PyIGL_viewer/viewer/viewer.py:119-123 | adding a mesh extends the registry by that mesh and its pair of instances (requested shader at 2n, 'wireframe' at 2n + 1) |
| Viewer.ViewerWidget.constructor | PyIGL_viewer/viewer/viewer.py:22-46 | no shaders, meshes, instances, pending or delivered signals |
| Viewer.ViewerWidget.AddShaders | PyIGL_viewer/viewer/viewer.py:49-58 | the found shaders are added by name over the table; nothing else changes |
| Viewer.ViewerWidget.AddMesh | PyIGL_viewer/viewer/viewer.py:125-127 | returns len(meshes) as it is when the call returns; with the signal queued that is the count applied so far, the new mesh's index only when no add-mesh signal is already pending; queues the request; lists unchanged |
| Viewer.ViewerWidget.UpdateMesh | PyIGL_viewer/viewer/viewer.py:133-134 | queues the index and vertices only, dropping normals and texture coordinates |
| Viewer.ViewerWidget.ApplyAddMesh | PyIGL_viewer/viewer/viewer.py:119-123 | one new mesh built from the request, then two instances of it, the requested shader's first and 'wireframe' second |
| Viewer.ViewerWidget.ApplyUpdateMesh | PyIGL_viewer/viewer/viewer.py:129-131 | only the indexed mesh's vertex buffer changes; past the end raises IndexError |
| Viewer.ViewerWidget.DeliverAddMesh | PyIGL_viewer/viewer/viewer.py:45 | the oldest signal is consumed and recorded as delivered; one new mesh built from it and its two instances are appended, earlier ones kept |
| Viewer.ViewerWidget.DeliverUpdateMesh | PyIGL_viewer/viewer/viewer.py:46 | the oldest signal is consumed and recorded as delivered; only the indexed mesh's vertex rows change, and an index past the end raises IndexError |
| Viewer.ViewerWidget.ApplyNext | PyIGL_viewer/viewer/viewer.py:45-46 | the oldest signal goes to its slot, FIFO, with that slot's effect and exception; every mesh stays paired with its two instances and holds the rows VertexRows gives for the delivered signals |
| Viewer.ViewerWidget.Drain | PyIGL_viewer/viewer/viewer.py:45-46 | the signals move from pending to delivered in order, every mesh appended is a new object, and the only exception that can stop it is the IndexError of an update; a complete drain delivers them all, leaving one mesh per request, two instances per mesh, and each mesh's vertex rows those VertexRows gives for every signal so far |
| Viewer.ViewerWidget.PaintGL | PyIGL_viewer/viewer/viewer.py:69-92 | the calls are, per instance in list order, line mode for wireframe, program, binding, a draw of 3 x number_elements indices and fill mode for wireframe; an unknown shader name raises KeyError after that instance's line-mode switch |

## Left out

- OpenGL itself: calls are entries of a log, and buffer objects are records of their rows. `glClear`, uniform locations and uploads (projection, view and model matrices), `initializeGL` and `resizeGL` are not in the log.
- `bind_uniforms` and the `fill` flag's polygon mode in the widget's `paintGL` are recorded in the `Draw` record only. The instance class they belong to is from another revision.
- projection.py (`perspective`, `lookat`, `rotate`, `normalize`, `magnitude`): floating point, trigonometry and square roots. They are uninterpreted functions passed in `ProjectionMath`.
- Camera.Orbit: states no geometric property (distance kept, orthogonal up), because `magnitude`, `normalize` and `rotate` are uninterpreted.
- Camera.Camera.constructor: requires a nonzero height. A constructor cannot return the ZeroDivisionError that `float(width) / float(0)` raises.
- Camera arithmetic is exact `real` arithmetic, while camera.py computes in float64. This covers the aspect ratio `float(width) / float(height)`, the translation offset `dx / width`, adding that offset to eye and target, and the zoom scaling. So `Camera.Translated` and `HandleTranslation`, which keep `eye - target` exactly, hold only up to rounding in the source. `(e + d) - (t + d)` need not equal `e - t` in floating point.
- Camera.Camera.HandleTranslation: the caller's QPointF, which `handle_translation` divides by the viewport size in place, is passed as two reals and not updated.
- Shader compilation and the shader-folder walk in `add_shaders`: `AddShaders` takes the found shaders as a map.
- The instance constructor's ValueError condition: the newer GlMeshInstance code is not part of this model, so the condition is an input predicate `rejects`.
- The light direction's normalization: numpy's square root is not modelled, so the normalized direction is a constructor argument.
- Threading locks and Qt signal delivery: the system is sequential, with an explicit FIFO event queue and no interleavings.
- Direct signal delivery: only queued delivery is modelled. With PyQt's default AutoConnection, a signal emitted from the widget's own thread (as in the package's `__main__` block) runs its slot inside `emit`. Then viewer.py's `add_mesh` returns the new mesh's index plus one, and the widget's requests are applied before they return. Direct delivery behaves like the queue drained right after each request.
- The uniforms dict is handed to the slot as the caller's own object. PyQt may convert a `dict` argument of a `pyqtSignal` and deliver a copy; the light values would then not reach the caller's dict.
- Exceptions escaping a slot end the drain: PyQt aborts on an unhandled exception in a slot, so later signals are not delivered.
- `update_mesh_vertices_` in the widget: it re-emits the signal it is connected to, so it recurses without end. The public `update_mesh_vertices` applies the update at once and is modelled.
- Qt event plumbing: key, mouse, wheel and resize handlers. `wheelEvent` calls scroll methods that mouse.py does not define, and `keyPressEvent` exits the process.
- Mouse.MouseHandler: the `previous_pos` and `current_pos` fields are never read and are not modelled. Timestamps are natural numbers.
- Negative Python indices: mesh and instance indices are natural numbers. Python would count a negative index from the end.
- The GlMeshInstance getters carry no contract of their own; their results are stated in `Mesh.GlMeshInstance.constructor`.
- ViewerWidget.ViewerWidget.Drain: it does not state which delivered add-instance requests appended an instance, nor how many signals a drain that stops on an exception delivered. Appending depends on the shader table, the mesh count and the uniforms at each delivery; ApplyNext states it for one delivery, and `Valid` ties every appended instance to its request.
- ViewerWidget.ViewerWidget.Valid: keeps which request each instance was built for, but not which shader it got, because the shader table can change after delivery; ApplyNext states the shader at delivery.
- ui_widgets.py, shader.py, the package `__init__.py` and the examples are not part of this model.
