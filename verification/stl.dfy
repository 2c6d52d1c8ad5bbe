/**
 * The binary Stereo Lithography writer: an 80-byte zero header, the triangle
 * count as a 4-byte unsigned integer, then 50 bytes per triangle (face normal,
 * the three vertices, each as three 4-byte floats, and a 2-byte zero attribute).
 */
module Stl {
  import opened Float32
  import opened Geometry
  import opened Sequences

  datatype Option<T> = None | Some(value: T)

  /** What a reader recovers from one 50-byte record. */
  datatype Facet = Facet(normal: Vec3, triangle: Triangle)

  /** The count field is a 4-byte unsigned int. */
  const MaxTriangles: nat := 0x1_0000_0000

  function Zeros(n: nat): (r: seq<Byte>)
    ensures |r| == n
  {
    seq(n, _ => 0)
  }

  /** An unsigned 32-bit integer's four bytes on a little-endian host, lowest first. */
  function UInt32Bytes(n: nat): (r: seq<Byte>)
    requires n < MaxTriangles
    ensures |r| == 4
  {
    [(n % 256) as bv8, ((n / 256) % 256) as bv8, ((n / 65536) % 256) as bv8, (n / 16777216) as bv8]
  }

  /** The twelve floats of a record: normal x, y, z, then vertex 0, 1 and 2, each x, y, z. */
  function Fields(normal: Vec3, t: Triangle): seq<Float> {
    [normal.x, normal.y, normal.z,
     t.v0.x, t.v0.y, t.v0.z,
     t.v1.x, t.v1.y, t.v1.z,
     t.v2.x, t.v2.y, t.v2.z]
  }

  /** Floats copied one after another, four bytes each. */
  function FloatsBytes(fs: seq<Float>): (r: seq<Byte>)
    ensures |r| == 4 * |fs|
  {
    if fs == [] then [] else FloatsBytes(fs[..|fs| - 1]) + ToBytes(fs[|fs| - 1])
  }

  /** One triangle's 50 bytes; `normal` is the face-normal computation. */
  function Record(normal: Triangle -> Vec3, t: Triangle): seq<Byte> {
    FloatsBytes(Fields(normal(t), t)) + [0, 0]
  }

  function Records(normal: Triangle -> Vec3, ts: seq<Triangle>): (r: seq<Byte>)
    ensures |r| == 50 * |ts|
  {
    if ts == [] then [] else Records(normal, ts[..|ts| - 1]) + Record(normal, ts[|ts| - 1])
  }

  /** The bytes of the file written for `ts`. */
  function StlFile(normal: Triangle -> Vec3, ts: seq<Triangle>): seq<Byte>
    requires |ts| < MaxTriangles
  {
    Zeros(80) + UInt32Bytes(|ts|) + Records(normal, ts)
  }

  // ----- Reading the format back -----

  function FloatAt(r: seq<Byte>, j: nat): Float
    requires 4 * j + 4 <= |r|
  {
    FromBytes(r[4 * j..4 * j + 4])
  }

  function ParseRecord(r: seq<Byte>): Facet
    requires |r| == 50
  {
    Facet(Vec3(FloatAt(r, 0), FloatAt(r, 1), FloatAt(r, 2)),
          Triangle(Vec3(FloatAt(r, 3), FloatAt(r, 4), FloatAt(r, 5)),
                   Vec3(FloatAt(r, 6), FloatAt(r, 7), FloatAt(r, 8)),
                   Vec3(FloatAt(r, 9), FloatAt(r, 10), FloatAt(r, 11))))
  }

  function ParseRecords(d: seq<Byte>, n: nat): (r: seq<Facet>)
    requires |d| == 50 * n
    ensures |r| == n
  {
    if n == 0 then [] else ParseRecords(d[..50 * (n - 1)], n - 1) + [ParseRecord(d[50 * (n - 1)..])]
  }

  /** Four bytes read as an unsigned 32-bit integer on a little-endian host. */
  function LE32(b: seq<Byte>): nat
    requires |b| == 4
  {
    (b[0] as nat) + 256 * ((b[1] as nat) + 256 * ((b[2] as nat) + 256 * (b[3] as nat)))
  }

  /**
   * A reader of the format: None unless the data after the count field is a
   * whole number of records and the count field, read as a little-endian
   * 4-byte unsigned int, is that number.
   */
  function ParseStl(b: seq<Byte>): Option<seq<Facet>> {
    if |b| < 84 || (|b| - 84) % 50 != 0 then None
    else
      var n := (|b| - 84) / 50;
      if LE32(b[80..84]) != n then None
      else Some(ParseRecords(b[84..], n))
  }

  function Facets(normal: Triangle -> Vec3, ts: seq<Triangle>): seq<Facet> {
    seq(|ts|, i requires 0 <= i < |ts| => Facet(normal(ts[i]), ts[i]))
  }

  // ----- Layout lemmas -----

  /** Float j of a copied run sits at bytes 4j .. 4j+3. */
  lemma {:induction false} FloatsBytesAt(fs: seq<Float>, j: nat)
    requires j < |fs|
    ensures FloatsBytes(fs)[4 * j..4 * j + 4] == ToBytes(fs[j])
    decreases |fs|
  {
    var init := fs[..|fs| - 1];
    var front, last := FloatsBytes(init), ToBytes(fs[|fs| - 1]);
    assert FloatsBytes(fs) == front + last;
    if j < |init| {
      FloatsBytesAt(init, j);
      SliceOfAppendLeft(front, last, 4 * j, 4 * j + 4);
    } else {
      SliceOfAppendRight(front, last, 0, 4);
    }
  }

  /** Record k sits at bytes 50k .. 50k+49 of the data. */
  lemma {:induction false} RecordsAt(normal: Triangle -> Vec3, ts: seq<Triangle>, k: nat)
    requires k < |ts|
    ensures Records(normal, ts)[50 * k..50 * k + 50] == Record(normal, ts[k])
    decreases |ts|
  {
    var init := ts[..|ts| - 1];
    var front, last := Records(normal, init), Record(normal, ts[|ts| - 1]);
    assert Records(normal, ts) == front + last;
    if k < |init| {
      RecordsAt(normal, init, k);
      assert init[k] == ts[k];
      SliceOfAppendLeft(front, last, 50 * k, 50 * k + 50);
    } else {
      assert |front| == 50 * k && |last| == 50;
      SliceOfAppendRight(front, last, 0, 50);
      assert last[0..50] == last;
    }
  }

  /** The file is 84 + 50n bytes: 80 zero bytes, the count n, then the n records. */
  lemma FileLayout(normal: Triangle -> Vec3, ts: seq<Triangle>)
    requires |ts| < MaxTriangles
    ensures |StlFile(normal, ts)| == 84 + 50 * |ts|
    ensures StlFile(normal, ts)[..80] == Zeros(80)
    ensures StlFile(normal, ts)[80..84] == UInt32Bytes(|ts|)
    ensures StlFile(normal, ts)[84..] == Records(normal, ts)
  {
    var header := Zeros(80) + UInt32Bytes(|ts|);
    AppendHalves(header, Records(normal, ts));
    SliceOfAppendLeft(header, Records(normal, ts), 0, 80);
    SliceOfAppendLeft(header, Records(normal, ts), 80, 84);
    AppendHalves(Zeros(80), UInt32Bytes(|ts|));
  }

  /** Float j of record k sits at bytes 50k + 4j .. 50k + 4j + 3 of the data. */
  lemma RecordFloatAt(normal: Triangle -> Vec3, ts: seq<Triangle>, k: nat, j: nat)
    requires k < |ts| && j < 12
    ensures Records(normal, ts)[50 * k + 4 * j..50 * k + 4 * j + 4] == ToBytes(Fields(normal(ts[k]), ts[k])[j])
  {
    var data, fs := Records(normal, ts), Fields(normal(ts[k]), ts[k]);
    var r, o := Record(normal, ts[k]), 50 * k;
    RecordsAt(normal, ts, k);
    assert data[o..o + 50] == r;
    SliceOfSlice(data, o, o + 50, 4 * j, 4 * j + 4);
    assert data[o + 4 * j..o + 4 * j + 4] == r[4 * j..4 * j + 4];
    SliceOfAppendLeft(FloatsBytes(fs), [0, 0], 4 * j, 4 * j + 4);
    assert r[4 * j..4 * j + 4] == FloatsBytes(fs)[4 * j..4 * j + 4];
    FloatsBytesAt(fs, j);
  }

  /** The last two bytes of record k are zero. */
  lemma RecordPadding(normal: Triangle -> Vec3, ts: seq<Triangle>, k: nat)
    requires k < |ts|
    ensures Records(normal, ts)[50 * k + 48] == 0 && Records(normal, ts)[50 * k + 49] == 0
  {
    var data, fs := Records(normal, ts), Fields(normal(ts[k]), ts[k]);
    RecordsAt(normal, ts, k);
    assert data[50 * k + 48] == data[50 * k..50 * k + 50][48];
    assert data[50 * k + 49] == data[50 * k..50 * k + 50][49];
  }

  /**
   * Record k occupies bytes 84 + 50k .. 84 + 50k + 49: normal x, y, z, then
   * vertex 0, 1, 2 (x, y, z each), four bytes per float, then two zero
   * attribute bytes.
   */
  lemma RecordLayout(normal: Triangle -> Vec3, ts: seq<Triangle>, k: nat, j: nat)
    requires |ts| < MaxTriangles && k < |ts| && j < 12
    ensures StlFile(normal, ts)[84 + 50 * k + 4 * j..84 + 50 * k + 4 * j + 4] == ToBytes(Fields(normal(ts[k]), ts[k])[j])
    ensures StlFile(normal, ts)[84 + 50 * k + 48] == 0 && StlFile(normal, ts)[84 + 50 * k + 49] == 0
  {
    var header, data := Zeros(80) + UInt32Bytes(|ts|), Records(normal, ts);
    var file := StlFile(normal, ts);
    assert file == header + data && |header| == 84;
    SliceOfAppendRight(header, data, 50 * k + 4 * j, 50 * k + 4 * j + 4);
    assert file[84 + 50 * k + 4 * j..84 + 50 * k + 4 * j + 4] == data[50 * k + 4 * j..50 * k + 4 * j + 4];
    RecordFloatAt(normal, ts, k, j);
    RecordPadding(normal, ts, k);
    assert file[84 + 50 * k + 48] == data[50 * k + 48];
    assert file[84 + 50 * k + 49] == data[50 * k + 49];
  }

  lemma ParseRecordRoundTrip(normal: Triangle -> Vec3, t: Triangle)
    ensures ParseRecord(Record(normal, t)) == Facet(normal(t), t)
  {
    var fs := Fields(normal(t), t);
    var r := Record(normal, t);
    forall j | 0 <= j < 12
      ensures FloatAt(r, j) == fs[j]
    {
      FloatsBytesAt(fs, j);
      SliceOfAppendLeft(FloatsBytes(fs), [0, 0], 4 * j, 4 * j + 4);
      FromBytesToBytes(fs[j]);
    }
  }

  lemma {:induction false} ParseRecordsRoundTrip(normal: Triangle -> Vec3, ts: seq<Triangle>)
    ensures ParseRecords(Records(normal, ts), |ts|) == Facets(normal, ts)
    decreases |ts|
  {
    if ts != [] {
      var n := |ts|;
      var init := ts[..n - 1];
      assert Records(normal, ts) == Records(normal, init) + Record(normal, ts[n - 1]);
      AppendHalves(Records(normal, init), Record(normal, ts[n - 1]));
      ParseRecordsRoundTrip(normal, init);
      ParseRecordRoundTrip(normal, ts[n - 1]);
      FacetsSnoc(normal, ts);
    }
  }

  lemma FacetsSnoc(normal: Triangle -> Vec3, ts: seq<Triangle>)
    requires ts != []
    ensures Facets(normal, ts) == Facets(normal, ts[..|ts| - 1]) + [Facet(normal(ts[|ts| - 1]), ts[|ts| - 1])]
  {
    var lhs, rhs := Facets(normal, ts), Facets(normal, ts[..|ts| - 1]) + [Facet(normal(ts[|ts| - 1]), ts[|ts| - 1])];
    forall i | 0 <= i < |ts|
      ensures lhs[i] == rhs[i]
    {
    }
  }

  lemma RecordCount(n: nat)
    ensures (50 * n) % 50 == 0 && (50 * n) / 50 == n
  {
  }

  /** The count field decodes, little-endian, to the count that was written. */
  lemma UInt32Decode(n: nat)
    requires n < MaxTriangles
    ensures LE32(UInt32Bytes(n)) == n
  {
    var b := UInt32Bytes(n);
    ByteValue(n % 256);
    ByteValue((n / 256) % 256);
    ByteValue((n / 65536) % 256);
    ByteValue(n / 16777216);
    assert b[0] as nat == n % 256 && b[1] as nat == (n / 256) % 256;
    assert b[2] as nat == (n / 65536) % 256 && b[3] as nat == n / 16777216;
    Digits(n);
  }

  /** n written in base 256 with four digits, lowest first. */
  lemma Digits(n: nat)
    requires n < MaxTriangles
    ensures n == n % 256 + 256 * ((n / 256) % 256 + 256 * ((n / 65536) % 256 + 256 * (n / 16777216)))
  {
    var q1, q2, q3 := n / 256, n / 65536, n / 16777216;
    assert q2 == q1 / 256;
    assert q3 == q2 / 256;
    Digit(n);
    Digit(q1);
    Digit(q2);
  }

  lemma Digit(m: nat)
    ensures m == m % 256 + 256 * (m / 256)
  {
  }

  /** Reading a written file gives back every triangle, with its normal, exactly and in order. */
  lemma StlRoundTrip(normal: Triangle -> Vec3, ts: seq<Triangle>)
    requires |ts| < MaxTriangles
    ensures ParseStl(StlFile(normal, ts)) == Some(Facets(normal, ts))
  {
    var file := StlFile(normal, ts);
    var n := |ts|;
    FileLayout(normal, ts);
    RecordCount(n);
    assert (|file| - 84) / 50 == n;
    assert !(|file| < 84 || (|file| - 84) % 50 != 0);
    UInt32Decode(n);
    assert LE32(file[80..84]) == n;
    assert ParseStl(file) == Some(ParseRecords(file[84..], n));
    ParseRecordsRoundTrip(normal, ts);
  }

  // ----- The writer -----

  /** `memcpy` of one float into the buffer at `cp`. */
  method PutFloat(buffer: array<Byte>, cp: nat, f: Float)
    requires cp + 4 <= buffer.Length
    modifies buffer
    ensures buffer[..] == old(buffer[..])[..cp] + ToBytes(f) + old(buffer[..])[cp + 4..]
  {
    var b := ToBytes(f);
    buffer[cp] := b[0];
    buffer[cp + 1] := b[1];
    buffer[cp + 2] := b[2];
    buffer[cp + 3] := b[3];
  }

  /** Copying float j of `fs` right after the first j extends the copied run by one float. */
  lemma FloatWritten(head: seq<Byte>, tail: seq<Byte>, fs: seq<Float>, j: nat, before: seq<Byte>, after: seq<Byte>)
    requires j < |fs| && 4 * |fs| <= |tail|
    requires before == head + FloatsBytes(fs[..j]) + tail[4 * j..]
    requires after == before[..|head| + 4 * j] + ToBytes(fs[j]) + before[|head| + 4 * j + 4..]
    ensures after == head + FloatsBytes(fs[..j + 1]) + tail[4 * (j + 1)..]
  {
    var done, b := FloatsBytes(fs[..j]), ToBytes(fs[j]);
    Spliced(head + done, tail[4 * j..], b);
    DropDrop(tail, 4 * j, 4);
    assert fs[..j + 1][..j] == fs[..j];
    assert FloatsBytes(fs[..j + 1]) == done + b;
    AppendAssoc(head, done, b);
  }

  /** The run of `memcpy` calls that copies `fs` into the buffer from `cp` on. */
  method PutFloats(buffer: array<Byte>, cp: nat, fs: seq<Float>) returns (next: nat)
    requires cp + 4 * |fs| <= buffer.Length
    modifies buffer
    ensures next == cp + 4 * |fs|
    ensures buffer[..] == old(buffer[..])[..cp] + FloatsBytes(fs) + old(buffer[..])[cp + 4 * |fs|..]
  {
    ghost var head, tail := buffer[..cp], buffer[cp..];
    next := cp;
    for j := 0 to |fs|
      invariant next == cp + 4 * j
      invariant buffer[..] == head + FloatsBytes(fs[..j]) + tail[4 * j..]
    {
      ghost var before := buffer[..];
      PutFloat(buffer, next, fs[j]);
      FloatWritten(head, tail, fs, j, before, buffer[..]);
      next := next + 4;
    }
    assert fs[..|fs|] == fs;
    assert tail[4 * |fs|..] == old(buffer[..])[cp + 4 * |fs|..];
  }

  /** Copying record k's floats over the zeros that follow the first k records. */
  lemma RecordWritten(normal: Triangle -> Vec3, ts: seq<Triangle>, k: nat, before: seq<Byte>, after: seq<Byte>)
    requires k < |ts|
    requires before == Records(normal, ts[..k]) + Zeros(50 * (|ts| - k))
    requires after == before[..50 * k] + FloatsBytes(Fields(normal(ts[k]), ts[k])) + before[50 * k + 48..]
    ensures after == Records(normal, ts[..k + 1]) + Zeros(50 * (|ts| - (k + 1)))
  {
    var head, tail := Records(normal, ts[..k]), Zeros(50 * (|ts| - k));
    var fields, rest := FloatsBytes(Fields(normal(ts[k]), ts[k])), Zeros(50 * (|ts| - (k + 1)));
    Spliced(head, tail, fields);
    assert after == head + fields + tail[48..];
    assert tail[48..] == [0, 0] + rest;
    assert ts[..k + 1][..k] == ts[..k];
    assert Records(normal, ts[..k + 1]) == head + (fields + [0, 0]);
    AppendAssoc(head, fields, [0, 0] + rest);
    AppendAssoc(fields, [0, 0], rest);
    AppendAssoc(head, fields + [0, 0], rest);
  }

  /** The loop of `memcpy` calls that fills the zeroed data buffer, record by record. */
  method FillRecords(buffer: array<Byte>, triangles: seq<Triangle>, normal: Triangle -> Vec3)
    requires buffer[..] == Zeros(50 * |triangles|)
    modifies buffer
    ensures buffer[..] == Records(normal, triangles)
  {
    var n := |triangles|;
    var cp := 0;
    for k := 0 to n
      invariant cp == 50 * k
      invariant buffer[..] == Records(normal, triangles[..k]) + Zeros(50 * (n - k))
    {
      var t := triangles[k];
      ghost var before := buffer[..];
      cp := PutFloats(buffer, cp, Fields(normal(t), t));
      // The two attribute bytes are skipped and keep their zero value.
      cp := cp + 2;
      RecordWritten(normal, triangles, k, before, buffer[..]);
    }
    assert triangles[..n] == triangles;
  }

  /**
   * `write_triangles_to_binary_stereo_lithography_file`. `canOpen` stands for
   * whether the output file could be opened; the result `file` is None when
   * nothing is written.
   */
  method WriteStl(triangles: seq<Triangle>, normal: Triangle -> Vec3, canOpen: bool)
    returns (ok: bool, file: Option<seq<Byte>>)
    requires |triangles| < MaxTriangles
    ensures ok <==> |triangles| > 0 && canOpen
    ensures file == if ok then Some(StlFile(normal, triangles)) else None
  {
    if |triangles| == 0 {
      return false, None;
    }
    if !canOpen {
      return false, None;
    }
    var header := Zeros(80);
    // The count, cast to a 4-byte unsigned int; the precondition keeps the cast lossless.
    var numTriangles := |triangles|;
    var buffer := new Byte[50 * numTriangles](_ => 0);
    assert buffer[..] == Zeros(50 * numTriangles);
    FillRecords(buffer, triangles, normal);
    ok, file := true, Some(header + UInt32Bytes(numTriangles) + buffer[..]);
  }
}
