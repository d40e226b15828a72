/**
 * The binary STL file of one plate: an 80-byte header, the triangle count as a little-endian
 * unsigned 32-bit integer, then 50 bytes per triangle (a zero normal, the three vertices, a zero
 * attribute word). Vertices are packed as three little-endian 32-bit floats; the float encoding
 * itself is a given function here.
 */
module StlEncoding {
  import opened SeqUtil
  import opened Mesh

  newtype byte = x: int | 0 <= x < 256

  /** The text at the start of the header. */
  const Label: string := "Tenji P-Fab Generated STL"

  function AsciiBytes(s: string): (bs: seq<byte>)
    requires forall i :: 0 <= i < |s| ==> s[i] as int < 128
    ensures |bs| == |s|
    ensures forall i :: 0 <= i < |s| ==> bs[i] as int == s[i] as int
  {
    seq(|s|, i requires 0 <= i < |s| => s[i] as int as byte)
  }

  function Zeros(n: nat): (bs: seq<byte>)
    ensures |bs| == n && forall i :: 0 <= i < n ==> bs[i] == 0
  {
    seq(n, i => 0)
  }

  /** The 80-byte header: the label, then zero bytes. */
  function Header(): (h: seq<byte>)
    ensures |h| == 80
    ensures forall i :: 0 <= i < |Label| ==> h[i] as int == Label[i] as int
    ensures forall i :: |Label| <= i < 80 ==> h[i] == 0
  {
    AsciiBytes(Label) + Zeros(80 - |Label|)
  }

  const U32Limit: nat := 0x1_0000_0000

  /** `struct.pack('<I', n)`. */
  function U32LE(n: nat): (bs: seq<byte>)
    requires n < U32Limit
    ensures |bs| == 4
  {
    [(n % 0x100) as byte, (n / 0x100 % 0x100) as byte,
     (n / 0x1_0000 % 0x100) as byte, (n / 0x100_0000) as byte]
  }

  function DecodeU32LE(bs: seq<byte>): (n: nat)
    requires |bs| == 4
    ensures n < U32Limit
  {
    bs[0] as nat + 0x100 * (bs[1] as nat + 0x100 * (bs[2] as nat + 0x100 * bs[3] as nat))
  }

  /** The count field reads back as the count that was written. */
  lemma U32RoundTrip(n: nat)
    requires n < U32Limit
    ensures DecodeU32LE(U32LE(n)) == n
  {
    var b0, b1, b2, b3 := n % 0x100, n / 0x100 % 0x100, n / 0x1_0000 % 0x100, n / 0x100_0000;
    assert n / 0x100 == b1 + 0x100 * (n / 0x1_0000);
    assert n / 0x1_0000 == b2 + 0x100 * b3;
  }

  /** The field read as a count is the value written into it; two counts that differ give
      different fields. */
  lemma U32Injective(m: nat, n: nat)
    requires m < U32Limit && n < U32Limit
    ensures U32LE(m) == U32LE(n) <==> m == n
  {
    U32RoundTrip(m);
    U32RoundTrip(n);
  }

  /** The float32 encoding of vertices: `struct.pack('<3f', x, y, z)`, twelve bytes. */
  ghost predicate PacksTwelve(pack: Vec3 -> seq<byte>)
  {
    forall v :: |pack(v)| == 12
  }

  /** One triangle's record: the stored normal is not written, twelve zero bytes stand for it. */
  function Record(tri: Triangle, pack: Vec3 -> seq<byte>): (r: seq<byte>)
    requires PacksTwelve(pack)
    ensures |r| == 50
    ensures r[..12] == Zeros(12)
    ensures r[12..24] == pack(tri.v1) && r[24..36] == pack(tri.v2) && r[36..48] == pack(tri.v3)
    ensures r[48..] == Zeros(2)
  {
    Zeros(12) + pack(tri.v1) + pack(tri.v2) + pack(tri.v3) + Zeros(2)
  }

  /** The records of the first `n` triangles, in emission order. */
  function Records(tris: seq<Triangle>, pack: Vec3 -> seq<byte>): (rs: seq<byte>)
    requires PacksTwelve(pack)
    ensures |rs| == 50 * |tris|
  {
    if tris == [] then []
    else Records(tris[..|tris| - 1], pack) + Record(tris[|tris| - 1], pack)
  }

  /** The file for `tris`; `None` when the count does not fit the 32-bit field and packing it
      raises. */
  function StlBytes(tris: seq<Triangle>, pack: Vec3 -> seq<byte>): Option<seq<byte>>
    requires PacksTwelve(pack)
  {
    if |tris| >= U32Limit then None else Some(Header() + U32LE(|tris|) + Records(tris, pack))
  }

  /** Record `k` sits at byte `50 * k` of the records. */
  lemma {:induction false} RecordsAt(tris: seq<Triangle>, pack: Vec3 -> seq<byte>, k: nat)
    requires PacksTwelve(pack) && k < |tris|
    ensures Records(tris, pack)[50 * k .. 50 * k + 50] == Record(tris[k], pack)
  {
    var n := |tris|;
    var front := Records(tris[..n - 1], pack);
    if k < n - 1 {
      RecordsAt(tris[..n - 1], pack, k);
      assert Records(tris, pack)[50 * k .. 50 * k + 50] == front[50 * k .. 50 * k + 50];
    } else {
      assert Records(tris, pack)[50 * k ..] == Record(tris[k], pack);
    }
  }

  /** The file is 84 + 50 × count bytes; the header comes first, bytes 80 to 83 read back as the
      count and triangle `k`'s record starts at byte 84 + 50 × k. */
  lemma StlLayout(tris: seq<Triangle>, pack: Vec3 -> seq<byte>)
    requires PacksTwelve(pack)
    ensures StlBytes(tris, pack).None? <==> |tris| >= U32Limit
    ensures StlBytes(tris, pack).Some? ==>
      var data := StlBytes(tris, pack).value;
      && |data| == 84 + 50 * |tris|
      && data[..80] == Header()
      && DecodeU32LE(data[80..84]) == |tris|
      && forall k :: 0 <= k < |tris| ==> data[84 + 50 * k .. 84 + 50 * k + 50] == Record(tris[k], pack)
  {
    if |tris| < U32Limit {
      var data := StlBytes(tris, pack).value;
      var rs := Records(tris, pack);
      assert data[..80] == Header();
      assert data[80..84] == U32LE(|tris|);
      U32RoundTrip(|tris|);
      forall k | 0 <= k < |tris|
        ensures data[84 + 50 * k .. 84 + 50 * k + 50] == Record(tris[k], pack)
      {
        RecordsAt(tris, pack, k);
        assert data[84..] == rs;
        assert data[84 + 50 * k .. 84 + 50 * k + 50] == rs[50 * k .. 50 * k + 50];
      }
    }
  }

  /** The bytes-building loop of `_create_plate_stl`: header, count, then one record per triangle
      appended to the buffer. */
  method EncodeStl(tris: seq<Triangle>, pack: Vec3 -> seq<byte>) returns (data: Option<seq<byte>>)
    requires PacksTwelve(pack)
    ensures data == StlBytes(tris, pack)
  {
    if |tris| >= U32Limit {
      return None;
    }
    var buf := Header();
    buf := buf + U32LE(|tris|);
    ghost var prefix := buf;
    for i := 0 to |tris|
      invariant buf == prefix + Records(tris[..i], pack)
    {
      var tri := tris[i];
      buf := buf + Zeros(12);
      buf := buf + pack(tri.v1);
      buf := buf + pack(tri.v2);
      buf := buf + pack(tri.v3);
      buf := buf + Zeros(2);
      assert tris[..i + 1][..i] == tris[..i];
      AppendAssoc(prefix, Records(tris[..i], pack), Record(tri, pack));
    }
    assert tris[..|tris|] == tris;
    data := Some(buf);
  }
}
