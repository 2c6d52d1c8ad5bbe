# Julia set meshing through a geometry shader: a Dafny model

The program samples a 3D grid of points, one xy-slice at a time. A geometry
shader computes each point's escape-time trajectory under
Z := Z² + C (quaternions). It emits every trajectory into one
transform-feedback buffer as a run of 4-float records, and closes each run
with a sentinel record (10000, 10000, 10000, 10000). The host then:

- splits the buffer back into trajectories at the sentinels;
- stores the magnitude of each trajectory's last point in a scalar plane;
- runs marching cubes over every adjacent pair of planes;
- writes the resulting triangles as a binary STL file.

This project models that core in Dafny and proves properties of the model:

- `float32.dfy`: floats as their IEEE 754 binary32 bit patterns. This covers
  the IEEE `>=` comparison and the four bytes of a float in little-endian
  memory. Float arithmetic is never interpreted.
- `geometry.dfy`: the vector types, and the flat 4-floats-per-vector buffers
  that carry vectors to and from the GPU.
- `trajectories.dfy`: three parts.
  - The shader's `main` as the method `ShaderMain`. It is proved against the
    recursive `Orbit` and against an independent characterisation, `IsOrbit`.
  - The captured stream: the records of all points in input order, cut off
    once the 502-records-per-point buffer is full.
  - The read-back loop of `get_trajectories` as the method `GetTrajectories`.
    Its specification, `Terminated`, is shown to be the inverse of joining
    trajectories with sentinels.
- `stl.dfy`: the STL writer as a method over a byte array, mirroring the
  `memcpy` loop. It is proved equal to the file layout `StlFile`, and a
  reader `ParseStl` gets every triangle and its normal back from that layout.
- `pipeline.dfy`: the driver in `main`.
  - The nested sampling loops.
  - The plane fill loop.
  - The slab loop, with its two plane buffers swapped after every slab.
  - The final conditional write.

  The central results are `RunPipeline` and `PlaneHoldsField`.
  `RunPipeline` produces exactly the triangles of `Mesh`, the
  slab-by-slab tessellation of the planes. `PlaneHoldsField` says that plane
  entry x·y_res + y holds the last trajectory value of sample point (x, y).
  It needs two conditions: no trajectory meets the sentinel record, and each
  slice's records fit the capture buffer (502 records per point).
- `sequences.dfy`: generic facts about slices of concatenations, used by the
  buffer proofs.

The float operations are parameters: `pow_vec4`, vector addition, GLSL
`length`, the host's `magnitude`, and the face normal (difference, cross
product, normalisation). So is the marching-cubes tessellator, passed as
`Tessellator`.

The clearing of `trajectories` at main.h:42 is modelled by `GetTrajectories`
starting from an empty result.

## Model

| member | source | states |
|---|---|---|
| Float32.FromBytesToBytes | main.h:187-199 | reading back the four bytes `memcpy` copies for a float gives the same float |
| Float32.ToBytesFromBytes | main.h:187-199 | every four bytes are the in-memory image of the float they encode, so the byte encoding is a bijection |
| Float32.AtLeastOrder | main.h:319 | the escape test's IEEE `>=` (`AtLeast`) is false whenever an operand is NaN, reflexive on every other value, total and transitive on non-NaN values, and treats +0 and -0 as equal; +inf is at least, and -inf at most, every non-NaN value, and 5.0f is at least 4.0f but not the reverse |
| Geometry.FlattenAt | main.cpp:94-97 | vector i of a flat buffer occupies offsets 4i .. 4i+3, with the components in x, y, z, w order |
| Geometry.UnflattenFlatten | main.h:111-131 | reading a laid-out buffer as 4-float records gives back the same vectors in the same order |
| Geometry.FlattenUnflatten | main.h:111-131 | laying out the records read from a buffer restores the buffer, except a trailing partial record |
| Trajectories.IteratesFormOrbit | main.h:311-321 | the computed trajectory satisfies IsOrbit: it starts at its seed, each element is one step from the one before, no intermediate iterate has escaped, and it ends when the budget runs out or on the first escaped iterate |
| Trajectories.OrbitUnique | main.h:311-321 | any sequence satisfying IsOrbit is the one computed from its first element |
| Trajectories.OrbitCharacterised | main.h:305-321 | Orbit(seed) is the unique sequence with the IsOrbit properties that starts at the seed (both directions) |
| Trajectories.EmittedLength | main.h:305-327 | one point yields between 2 and max_iterations + 2 records, starting with the seed and ending with the sentinel |
| Trajectories.StopsAtThreshold | main.h:319-320 | the escape test is `>=`: an iterate whose length equals a non-NaN threshold is the last one |
| Trajectories.ShaderMain | main.h:303-328 | the shader emits the seed, then the iterates up to and including the first escaped one (at most max_iterations of them), then the sentinel |
| Trajectories.Capture | main.h:79-104 | transform feedback keeps a prefix of the emitted records: all of them when they fit the buffer, exactly as many as fit otherwise |
| Trajectories.FeedbackRecords | main.h:51-104 | the buffer read back holds, as 4-float records, the points' records in input order, cut to the room for 502 records per point, so it is never longer than 4·502·N floats |
| Trajectories.StreamLength | main.h:70-72 | a batch of N points produces between 2N and (max_iterations + 2)·N records |
| Trajectories.GetTrajectories | main.h:109-133 | the parse loop returns exactly the runs of records closed by a sentinel, in order; records after the last sentinel are dropped |
| Trajectories.AppendUnterminated | main.h:123-132 | records that contain no sentinel close no trajectory; they only extend the pending run |
| Trajectories.TerminatedJoin | main.h:109-133 | splitting sentinel-free trajectories that were joined with sentinels gives them back, with nothing pending |
| Trajectories.JoinTerminated | main.h:109-133 | re-joining the parsed trajectories and appending the pending run rebuilds the stream exactly |
| Trajectories.TerminatedSentinelFree | main.h:115-122 | no parsed trajectory, and no pending run, contains the sentinel record |
| Trajectories.TerminatedCount | main.h:115-122 | the parser returns one trajectory per sentinel record |
| Trajectories.TerminatedPrefix | main.h:99-133 | parsing a truncated stream gives a prefix of the trajectories of the full stream |
| Trajectories.CapturedTrajectories | main.h:70-133 | when no trajectory meets the sentinel, the parsed capture is a prefix of the points' trajectories, and all of them when the stream fits |
| Trajectories.FeedbackTrajectories | main.h:51-133 | end to end for one draw call, when no trajectory meets the sentinel record: get_trajectories returns a prefix of the batch's trajectories in input order, so never more than one per point, and exactly one per point when the batch's records fit 502 per point (`StreamFits`), in particular when max_iterations + 2 <= 502 |
| Trajectories.BudgetStreamFits | main.h:70-72 | when max_iterations + 2 <= 502 every batch's records fit the buffer |
| Stl.FileLayout | main.h:152-161 | the file is 84 + 50n bytes: an 80-byte zero header, the count as a 4-byte little-endian integer, then the records |
| Stl.RecordLayout | main.h:179-201 | record k starts at byte 84 + 50k: float j of (normal, v0, v1, v2) sits at 84 + 50k + 4j, and bytes 48 and 49 of the record are zero |
| Stl.RecordFloatAt | main.h:187-199 | float j of triangle k's record sits at bytes 50k + 4j .. + 3 of the data buffer |
| Stl.RecordPadding | main.h:201 | the two attribute bytes of every record are zero |
| Stl.UInt32Bytes | main.h:154-161 | the count field is exactly four bytes |
| Stl.UInt32Decode | main.h:154-161 | the four count bytes, read back as a little-endian unsigned int, give the triangle count that was written |
| Stl.StlRoundTrip | main.h:139-210 | a reader of the format, which decodes the count field and checks it against the file length, recovers every triangle, in order, with its face normal |
| Stl.ParseRecordsRoundTrip | main.h:179-202 | parsing the data buffer record by record gives each triangle with its normal |
| Stl.PutFloat | main.h:187 | one `memcpy` of a float replaces exactly four bytes at the cursor with the float's bytes; the rest of the buffer is unchanged |
| Stl.PutFloats | main.h:187-199 | the run of twelve `memcpy` calls writes the floats' bytes consecutively from the cursor, advances it by 4 per float and leaves the rest unchanged |
| Stl.FillRecords | main.h:177-202 | the fill loop turns the zeroed data buffer into the records of all triangles, in order |
| Stl.WriteStl | main.h:139-210 | the writer fails when there are no triangles or the file cannot be opened; otherwise it writes exactly StlFile |
| Pipeline.CellsProduct | main.cpp:78-79 | the recursive cell count is x_res·y_res, the size of each plane |
| Pipeline.RowsAt | main.cpp:88-99 | sample point (x, y) is number Cells(x, y_res) + y (x·y_res + y) in the enumeration order of the loops |
| Pipeline.SampleRow | main.cpp:131-141 | the inner loop appends row x's points (x, y) for y = 0 .. y_res-1, each as x, y, z, w |
| Pipeline.SampleSlice | main.cpp:126-142 | the nested loops lay out all sample points of the slice, x-major and y-minor, 4 floats each |
| Pipeline.BatchLayout | main.cpp:88-99 | the batch holds 4·Cells(x_res, y_res) floats, and point (x, y) is at offset 4(Cells(x, y_res) + y), that is 4(x·y_res + y) by CellsProduct, with the slice's z and the fixed w |
| Pipeline.FillPlane | main.cpp:152-158 | entry i of the plane becomes the magnitude of trajectory i's last point (0 for an empty one); entries beyond the trajectory count keep their old value |
| Pipeline.TrajectoryCount | main.cpp:144-158 | when no trajectory meets the sentinel value, a slice never yields more trajectories than the plane has entries |
| Pipeline.SentinelFreeFits | main.cpp:144-158 | sentinel-free trajectories keep every slice's fill loop inside its plane (`FitsPlanes`) |
| Pipeline.BudgetFits | main.cpp:144-150 | when max_iterations + 2 <= 502 every slice's records fit the buffer (`StreamsFit`) |
| Pipeline.SliceOrbits | main.cpp:144-150 | when no trajectory meets the sentinel record and every slice's records fit 502 records per point (`StreamsFit`), slice k yields exactly the trajectories of its sample points, in order |
| Pipeline.PlaneAt | main.cpp:152-158 | when no trajectory meets the sentinel record and every slice's records fit the buffer (`StreamsFit`), entry i of slice k's plane is the value of the trajectory of sample point i |
| Pipeline.Plane | main.cpp:78-79 | every plane, whichever slice it holds, has x_res·y_res entries |
| Pipeline.PlaneEntry | main.cpp:115-173 | entry i of slice k's plane is trajectory i's value when the slice yields more than i trajectories; otherwise it is 0 for slices 0 and 1 and entry i of slice k - 2's plane for later slices. That the swapped buffer really holds slice k - 2's plane is `RunPipeline`'s loop invariant, not this lemma |
| Pipeline.MeshPrefix | main.cpp:124-174 | later slabs only append triangles; those of the first j slabs are never changed |
| Pipeline.MeshSlab | main.cpp:162-170 | slab j's triangles follow those of the slabs below it and are the tessellation of the planes of slices j and j + 1, with slab index j and the threshold as isovalue |
| Pipeline.PlaneHoldsField | main.cpp:124-158 | when no trajectory meets the sentinel record and every slice's records fit the buffer (`StreamsFit`), entry Cells(x, y_res) + y (that is x·y_res + y, by CellsProduct) of slice k's plane is the magnitude of the last point of the trajectory of sample point (x, y) at height z_k |
| Pipeline.FillSlice | main.cpp:126-158 | when the slice yields at most as many trajectories as the plane has entries, one slice (sampling, feedback, parsing, fill) overwrites the buffer with that slice's values and keeps the other entries |
| Pipeline.Slab | main.cpp:144-170 | one slab fills the upper buffer with slice z and appends the tessellation of planes z-1 and z |
| Pipeline.RunPipeline | main.cpp:72-174 | the slab loop produces the tessellation of every adjacent plane pair, slab 0 first; each plane is filled over the buffer that held the plane two slices earlier, because of the swap |
| Pipeline.SaveMesh | main.cpp:176-177 | the file is written, with contents StlFile, only when there are triangles and it can be opened |

## Left out

- OpenGL and GLUT (context, buffers, queries, shader compilation) and the
  shader source emission (`emit_shaders_to_files`) are not modelled. The
  GPU's effect is the function `GpuFeedback`: all points' records, in input
  order, cut off once 502 records per point have been written.
- `pow_vec4`, vector addition, GLSL `length`, the host `magnitude`, the float
  step divisions and the coordinate additions are uninterpreted parameters.
  Their IEEE rounding is not modelled.
- The face normal computation (vertex differences, cross product,
  normalisation) is one uninterpreted parameter, `normal`.
- The marching-cubes tessellator is one uninterpreted parameter,
  `Tessellator`. `marching_cubes.h` is not part of this model.
- Console output (`cout`) is not modelled.
- Opening the output file is the parameter `canOpen`. The write itself is
  the returned byte sequence.
- The host is assumed little-endian: floats and the count are laid out
  lowest byte first.
- NaN is modelled only where the source compares (`>=`, and the sentinel
  equality on bit patterns). Which operations yield NaN is not modelled; the
  uninterpreted operations may return any bit pattern, NaN included.
- Stl.WriteStl: requires fewer than 2^32 triangles. The source casts the
  count to a 4-byte unsigned int and sizes its buffer from the cast value.
  With 2^32 or more triangles the copy loop would write past the buffer.
- Pipeline.SaveMesh: requires fewer than 2^32 triangles, for the same reason.
- Pipeline.RunPipeline: requires `FitsPlanes`, that every slice yields at
  most x_res·y_res trajectories. Otherwise the fill loop writes past the end
  of its plane, which is undefined behaviour. That can only happen when a
  trajectory contains the record (10000, 10000, 10000, 10000), and
  `SentinelFreeFits` shows that sentinel-free trajectories always fit.
- Trajectories.FeedbackTrajectories: stated only when no trajectory meets the
  sentinel record; a trajectory that does is split in two by the parser.
  Exactly one trajectory per point is stated only when the batch's records
  fit the buffer (`StreamFits`).
- Pipeline.PlaneHoldsField: stated only when no trajectory meets the sentinel
  record (`AvoidsSentinel`) and every slice's records fit the capture buffer
  (`StreamsFit`, which holds whenever max_iterations + 2 <= 502, by
  `BudgetFits`).
  - When a trajectory meets the sentinel record, the parser splits it in two,
    so one point yields several trajectories and later entries no longer
    belong to their own sample points.
  - Otherwise the capture buffer can fill up. The captured stream
    is then cut, the parser drops the unterminated last run and every later
    point's trajectory, and the entries those points would have filled keep
    their old value: 0 for slices 0 and 1, slice k - 2's value later
    (`PlaneEntry`).
- Pipeline.PlaneAt: stated only when no trajectory meets the sentinel record
  (`AvoidsSentinel`) and every slice's records fit (`StreamsFit`), for the
  same reasons.
- Pipeline.SliceOrbits: stated only under the same two conditions.
- `box_count` is an output counter of the tessellator and is not modelled.
