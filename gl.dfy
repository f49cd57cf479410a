/**
 * The part of OpenGL the viewer talks to, reduced to values: buffer objects are
 * records of the rows they hold, and the calls the viewer makes are entries of a log.
 */
module Gl {

  /** The binding point a vertex buffer object is created for. */
  datatype BufferTarget = ArrayBuffer | ElementArrayBuffer

  /** A vertex buffer object: the rows of the numpy array it was given, and its target. */
  datatype Vbo<T> = Vbo(rows: seq<seq<T>>, target: BufferTarget)

  datatype PolygonMode = Fill | Line

  /** One OpenGL call issued by the viewer. */
  datatype GlCall =
    | EnableVertexAttribArray(slot: nat)
    | BindArrayBuffer(buffer: Vbo<real>)
    | BindElementBuffer(elements: Vbo<int>)
    | VertexAttribPointer(slot: nat, size: nat)
    | SetPolygonMode(mode: PolygonMode)
    | UseProgram(program: nat)
    | DrawElements(count: nat)
}
