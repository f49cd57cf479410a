/** Small value types shared by every module of the viewer model. */
module Values {

  datatype Option<T> = None | Some(value: T)

  datatype Result<T, E> = Success(value: T) | Failure(error: E)

  /** A 4x4 matrix as numpy holds it: four rows of four reals. */
  type Mat4 = seq<seq<real>>

  /** The matrix `np.eye(4)`. */
  function Identity4(): (m: Mat4)
    ensures |m| == 4
    ensures forall i :: 0 <= i < 4 ==> |m[i]| == 4
    ensures forall i, j :: 0 <= i < 4 && 0 <= j < 4 ==> m[i][j] == if i == j then 1.0 else 0.0
  {
    [[1.0, 0.0, 0.0, 0.0],
     [0.0, 1.0, 0.0, 0.0],
     [0.0, 0.0, 1.0, 0.0],
     [0.0, 0.0, 0.0, 1.0]]
  }
}
