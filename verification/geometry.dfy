/**
 * The value types shared by the pipeline: four-component float vectors
 * (quaternion iterates, sample points and feedback records alike), 3D vertices
 * and triangles, and the flat 4-floats-per-vector buffers that carry vectors
 * to and from the GPU.
 */
module Geometry {
  import opened Float32

  /** A `vec4` / `quaternion`: components x, y, z, w. */
  datatype Quat = Quat(x: Float, y: Float, z: Float, w: Float)

  /** A `vertex_3`. */
  datatype Vec3 = Vec3(x: Float, y: Float, z: Float)

  /** A `triangle`: three vertices in their stored order. */
  datatype Triangle = Triangle(v0: Vec3, v1: Vec3, v2: Vec3)

  function Components(q: Quat): seq<Float> {
    [q.x, q.y, q.z, q.w]
  }

  /** Lays vectors out one after another, four floats each. */
  function Flatten(qs: seq<Quat>): (r: seq<Float>)
    ensures |r| == 4 * |qs|
  {
    if qs == [] then [] else Flatten(qs[..|qs| - 1]) + Components(qs[|qs| - 1])
  }

  /** Appending one vector appends its four components. */
  lemma FlattenSnoc(qs: seq<Quat>, q: Quat)
    ensures Flatten(qs + [q]) == Flatten(qs) + Components(q)
  {
    assert (qs + [q])[..|qs|] == qs;
  }

  /** Reads a float buffer as consecutive 4-float vectors; a trailing partial vector is ignored. */
  function Unflatten(data: seq<Float>): (r: seq<Quat>)
    ensures |r| == |data| / 4
  {
    seq(|data| / 4, i requires 0 <= i < |data| / 4 =>
      Quat(data[4 * i], data[4 * i + 1], data[4 * i + 2], data[4 * i + 3]))
  }

  /** Vector i of a flattened buffer occupies offsets 4i .. 4i+3, components in order. */
  lemma {:induction false} FlattenAt(qs: seq<Quat>, i: nat)
    requires i < |qs|
    ensures Flatten(qs)[4 * i] == qs[i].x && Flatten(qs)[4 * i + 1] == qs[i].y
    ensures Flatten(qs)[4 * i + 2] == qs[i].z && Flatten(qs)[4 * i + 3] == qs[i].w
    decreases |qs|
  {
    var init := qs[..|qs| - 1];
    assert Flatten(qs) == Flatten(init) + Components(qs[|qs| - 1]);
    if i < |init| {
      FlattenAt(init, i);
    }
  }

  /** Reading back what was laid out gives the same vectors in the same order. */
  lemma UnflattenFlatten(qs: seq<Quat>)
    ensures Unflatten(Flatten(qs)) == qs
  {
    var r := Unflatten(Flatten(qs));
    forall i | 0 <= i < |qs|
      ensures r[i] == qs[i]
    {
      FlattenAt(qs, i);
    }
  }

  /** Laying out what was read back restores the buffer up to its trailing partial vector. */
  lemma FlattenUnflatten(data: seq<Float>)
    ensures Flatten(Unflatten(data)) == data[..4 * (|data| / 4)]
  {
    var qs := Unflatten(data);
    var f := Flatten(qs);
    forall m | 0 <= m < |f|
      ensures f[m] == data[m]
    {
      var i := m / 4;
      FlattenAt(qs, i);
    }
  }
}
