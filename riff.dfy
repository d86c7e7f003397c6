/** The in-memory RIFF builder: a top-level "RIFF" container (`Writer`) and
    nested "LIST" containers (`List`), each wrapping a `Chunk` record that
    holds a tag, a running 32-bit length and the already-serialised content.
    Length fields are written big-endian, as this writer does. */
module Riff {
  import opened Wire
  import opened Format

  const RiffTag: FourCC := Tag("RIFF")
  const ListTag: FourCC := Tag("LIST")

  /** Go's `chunk` record: an ID, a length and a byte buffer. */
  datatype Chunk = Chunk(id: FourCC, len: u32, data: seq<byte>) {

    /** `chunk.bytes()`: the ID, the length field and the buffer, so that
        the length field reads back as `len` and the buffer follows the
        8-byte header unchanged. */
    function Bytes(): (b: seq<byte>)
      ensures |b| == 8 + |data|
      ensures b[..4] == id && DecodeBE32(b[4..8]) == len && b[8..] == data
    {
      id + BE32(len) + data
    }
  }

  /** The error a write reports: a short write, or whatever the sink itself
      returned. */
  datatype Error = ShortWrite | SinkError(reason: string)

  /** What the sink's `Write` returns: a byte count and an optional error. */
  datatype SinkResult = SinkResult(n: int, err: Option<Error>)

  /** The representation invariant shared by both kinds of container: the
      buffer is the 4-byte form (or list) type followed by the frames of the
      children in order, the stored length is the buffer's size, it is even,
      and the whole serialised container fits a 32-bit size. */
  ghost predicate Wellformed(c: Chunk, cs: seq<Child>) {
    && |c.data| >= 4
    && c.len as int == |c.data|
    && c.len as int % 2 == 0
    && 8 + c.len as int <= MaxU32
    && Sized(cs)
    && c.data[4..] == Frames(cs)
  }

  /** `appendChunk`: extends the buffer `to` by one chunk and returns the
      growth of its parent's length. The prefix is kept; the chunk's own
      length field is the exact content length; an odd-length chunk gets one
      zero pad byte, which only the returned increment counts. */
  function AppendChunkTo(to: seq<byte>, id: FourCC, data: seq<byte>): (r: (seq<byte>, u32))
    requires 8 + |data| + |data| % 2 <= MaxU32
    ensures r.1 as int == |r.0| - |to| == 8 + |data| + |data| % 2
    ensures r.0[..|to|] == to
    ensures r.0[|to|..|to| + 4] == id
    ensures DecodeBE32(r.0[|to| + 4..|to| + 8]) as int == |data|
    ensures r.0[|to| + 8..|to| + 8 + |data|] == data
    ensures |r.0| == |to| + 8 + |data| + 1 <==> |data| % 2 == 1
    ensures |data| % 2 == 1 ==> r.0[|r.0| - 1] == 0
    ensures r.0 == to + Frame(Child(id, data))
  {
    var len := |data| as u32;
    var b := to + Chunk(id, len, data).Bytes();
    assert b == to + id + BE32(len) + data;
    assert b[|to| + 4..|to| + 8] == BE32(len);
    if len % 2 == 1 then (b + [0], 8 + (len + 1)) else (b, 8 + len)
  }

  /** `appendList`: extends the buffer `to` by the list's serialised form and
      returns `8 + l.c.len`. Because a list's length is even, no pad byte is
      ever needed: the bytes appended are exactly the list's frame. */
  function AppendListTo(to: seq<byte>, l: List): (r: (seq<byte>, u32))
    reads l
    requires l.Valid()
    ensures r.0 == to + l.c.Bytes()
    ensures r.1 as int == |r.0| - |to| == 8 + l.c.len as int
    ensures r.0 == to + Frame(Child(ListTag, l.c.data))
  {
    assert l.c.Bytes() == Frame(Child(ListTag, l.c.data)) by {
      assert Pad(|l.c.data|) == [];
    }
    (to + l.c.Bytes(), 8 + l.c.len)
  }

  /** Appending one child's frame to a well-formed container's buffer and
      its on-wire size to the length keeps the container well-formed,
      provided the result still fits 32 bits. */
  lemma WellformedSnoc(c: Chunk, cs: seq<Child>, ch: Child, c': Chunk)
    requires Wellformed(c, cs) && |ch.payload| <= MaxU32
    requires c'.data == c.data + Frame(ch)
    requires c'.len as int == c.len as int + WireSize(ch) && 8 + c'.len as int <= MaxU32
    ensures Wellformed(c', cs + [ch])
  {
    FramesSnoc(cs, ch);
    DropAppend(c.data, Frame(ch));
    EvenGrowth(c.len as int, |ch.payload|);
  }

  /** Helper: an even length grown by an on-wire size stays even. */
  lemma EvenGrowth(len: int, n: nat)
    requires len % 2 == 0
    ensures (len + 8 + n + n % 2) % 2 == 0
  {
  }

  /** Helper: dropping the 4-byte type from a buffer commutes with appending. */
  lemma DropAppend(a: seq<byte>, f: seq<byte>)
    requires |a| >= 4
    ensures (a + f)[4..] == a[4..] + f
  {
  }

  /** The container's stored length is 4 plus the on-wire sizes of its
      children, and its serialised form is 8 bytes longer than that. */
  lemma LengthAccounting(c: Chunk, cs: seq<Child>)
    requires Wellformed(c, cs)
    ensures c.len as int == 4 + TotalSize(cs)
    ensures |c.Bytes()| == 8 + c.len as int
  {
    FramesSize(cs);
    assert |c.data| == 4 + |c.data[4..]|;
  }

  /** A well-formed chunk serialises to exactly the wire grammar's encoding
      of its tag, its form type and its children, so it decodes back to
      them. */
  lemma BytesDecode(c: Chunk, cs: seq<Child>)
    requires Wellformed(c, cs)
    ensures c.Bytes() == Container(c.id, c.data[..4], cs)
    ensures ParseContainer(c.Bytes()) == Some(Parsed(c.id, c.data[..4], cs))
  {
    assert c.data == c.data[..4] + c.data[4..];
    ParseContainerOfContainer(c.id, c.data[..4], cs);
  }

  /** Go's `Writer`: the top-level "RIFF" container. */
  class Writer {
    var c: Chunk
    /** The children appended so far, in order. */
    ghost var children: seq<Child>

    ghost predicate Valid()
      reads this
    {
      c.id == RiffTag && Wellformed(c, children)
    }

    /** `NewWriter`: length 4, the buffer holding only the form type. */
    constructor NewWriter(formType: FourCC)
      ensures Valid()
      ensures c == Chunk(RiffTag, 4, formType) && children == []
    {
      c := Chunk(RiffTag, 4, formType);
      children := [];
    }

    method AppendChunk(id: FourCC, data: seq<byte>)
      requires Valid()
      requires 8 + c.len as int + WireSize(Child(id, data)) <= MaxU32
      modifies this
      ensures Valid()
      ensures c.data == old(c.data) + Frame(Child(id, data))
      ensures c.len as int == old(c.len) as int + WireSize(Child(id, data))
      ensures children == old(children) + [Child(id, data)]
    {
      var (to, n) := AppendChunkTo(c.data, id, data);
      c := c.(len := c.len + n, data := to);
      children := children + [Child(id, data)];
      WellformedSnoc(old(c), old(children), Child(id, data), c);
    }

    method AppendList(l: List)
      requires Valid() && l.Valid()
      requires 8 + c.len as int + 8 + l.c.len as int <= MaxU32
      modifies this
      ensures Valid()
      ensures c.data == old(c.data) + l.c.Bytes()
      ensures c.len as int == old(c.len) as int + 8 + l.c.len as int
      ensures children == old(children) + [Child(ListTag, l.c.data)]
      ensures unchanged(l)
    {
      var (to, n) := AppendListTo(c.data, l);
      c := c.(len := c.len + n, data := to);
      children := children + [Child(ListTag, l.c.data)];
      WellformedSnoc(old(c), old(children), Child(ListTag, l.c.data), c);
    }

    /** `WriteTo`: hands the serialised container to the sink and reports a
        short write exactly when the sink's count, as a `uint32`, differs
        from the number of bytes handed over; otherwise the sink's own
        error. The container is not changed. */
    method WriteTo(sink: seq<byte> -> SinkResult) returns (err: Option<Error>)
      requires Valid()
      ensures var r := sink(c.Bytes());
        err == if Uint32(r.n) as int != |c.Bytes()| then Some(ShortWrite) else r.err
    {
      var r := sink(c.Bytes());
      err := r.err;
      if Uint32(r.n) != 8 + c.len {
        err := Some(ShortWrite);
      }
    }
  }

  /** Go's `List`: a nested "LIST" container. */
  class List {
    var c: Chunk
    /** The children appended so far, in order. */
    ghost var children: seq<Child>

    ghost predicate Valid()
      reads this
    {
      c.id == ListTag && Wellformed(c, children)
    }

    /** `NewList`: length 4, the buffer holding only the list type. */
    constructor NewList(listType: FourCC)
      ensures Valid()
      ensures c == Chunk(ListTag, 4, listType) && children == []
    {
      c := Chunk(ListTag, 4, listType);
      children := [];
    }

    method AppendChunk(id: FourCC, data: seq<byte>)
      requires Valid()
      requires 8 + c.len as int + WireSize(Child(id, data)) <= MaxU32
      modifies this
      ensures Valid()
      ensures c.data == old(c.data) + Frame(Child(id, data))
      ensures c.len as int == old(c.len) as int + WireSize(Child(id, data))
      ensures children == old(children) + [Child(id, data)]
    {
      var (to, n) := AppendChunkTo(c.data, id, data);
      c := c.(len := c.len + n, data := to);
      children := children + [Child(id, data)];
      WellformedSnoc(old(c), old(children), Child(id, data), c);
    }

    /** `sub` may be this very list: what is appended is its state before
        the call. */
    method AppendList(sub: List)
      requires Valid() && sub.Valid()
      requires 8 + c.len as int + 8 + sub.c.len as int <= MaxU32
      modifies this
      ensures Valid()
      ensures c.data == old(c.data) + old(sub.c).Bytes()
      ensures c.len as int == old(c.len) as int + 8 + old(sub.c.len) as int
      ensures children == old(children) + [Child(ListTag, old(sub.c.data))]
      ensures sub != this ==> unchanged(sub)
    {
      ghost var subData := sub.c.data;
      var (to, n) := AppendListTo(c.data, sub);
      c := c.(len := c.len + n, data := to);
      children := children + [Child(ListTag, subData)];
      WellformedSnoc(old(c), old(children), Child(ListTag, subData), c);
    }
  }
}
