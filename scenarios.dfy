/** The worked scenarios of riff/writer_test.go and the short-write path of
    `WriteTo`, stated as postconditions on the exact bytes produced. */
module Scenarios {
  import opened Wire
  import opened Format
  import opened Riff

  /** A sink that accepts everything it is given, like `bytes.Buffer`. */
  function AcceptAll(b: seq<byte>): SinkResult {
    SinkResult(|b|, None)
  }

  /** A sink that takes one byte fewer than it is given and reports no error. */
  function DropsOne(b: seq<byte>): SinkResult {
    SinkResult(|b| - 1, None)
  }

  /** A sink that takes everything but reports an error of its own. */
  function DiskFull(b: seq<byte>): SinkResult {
    SinkResult(|b|, Some(SinkError("disk full")))
  }

  /** A misbehaving sink that reports 2^32 bytes more than it was given. */
  function Overcounts(b: seq<byte>): SinkResult {
    SinkResult(|b| + 0x1_0000_0000, None)
  }

  /** A child whose payload is shorter than 256 bytes: its length field is
      three zero bytes and the length itself. */
  lemma SmallFrame(id: FourCC, p: seq<byte>)
    requires |p| < 0x100
    ensures Frame(Child(id, p)) == id + [0, 0, 0, |p| as byte] + p + Pad(|p|)
  {
    assert BE32(|p| as u32) == [0, 0, 0, |p| as byte];
  }

  /** The first scenario's writer after its three appends. */
  method BuildTestForm() returns (w: Writer)
    ensures fresh(w) && w.Valid() && w.c.len == 40
    ensures w.c.data ==
      Tag("TEST") +
      (Tag("even") + [0, 0, 0, 4] + [0x00, 0x11, 0x22, 0x33]) +
      (Tag("odd ") + [0, 0, 0, 3] + [0x44, 0x55, 0x66] + [0]) +
      (Tag("LIST") + [0, 0, 0, 4] + Tag("lst "))
  {
    w := new Writer.NewWriter(Tag("TEST"));
    w.AppendChunk(Tag("even"), [0x00, 0x11, 0x22, 0x33]);
    SmallFrame(Tag("even"), [0x00, 0x11, 0x22, 0x33]);
    assert w.c.data == Tag("TEST") + (Tag("even") + [0, 0, 0, 4] + [0x00, 0x11, 0x22, 0x33]);
    w.AppendChunk(Tag("odd "), [0x44, 0x55, 0x66]);
    SmallFrame(Tag("odd "), [0x44, 0x55, 0x66]);
    var l := new List.NewList(Tag("lst "));
    assert l.c.Bytes() == Tag("LIST") + [0, 0, 0, 4] + Tag("lst ") by {
      assert BE32(4) == [0, 0, 0, 4];
    }
    w.AppendList(l);
  }

  /** A top-level "TEST" form with an even chunk, an odd chunk and an empty
      list "lst ": total length 40, the odd chunk padded, its own length 3. */
  method TestWriter() returns (out: seq<byte>, err: Option<Error>)
    ensures err == None
    ensures out ==
      Tag("RIFF") + [0, 0, 0, 40] +
      (Tag("TEST") +
       (Tag("even") + [0, 0, 0, 4] + [0x00, 0x11, 0x22, 0x33]) +
       (Tag("odd ") + [0, 0, 0, 3] + [0x44, 0x55, 0x66] + [0]) +
       (Tag("LIST") + [0, 0, 0, 4] + Tag("lst ")))
  {
    var w := BuildTestForm();
    err := w.WriteTo(AcceptAll);
    out := w.c.Bytes();
    assert BE32(40) == [0, 0, 0, 40];
  }

  /** The list "SUB1" of the second scenario: chunks of length 4 and 3. */
  method BuildSub1() returns (l: List)
    ensures fresh(l) && l.Valid() && l.c.len == 28
    ensures l.c.data ==
      Tag("SUB1") +
      (Tag("chnk") + [0, 0, 0, 4] + [1, 2, 3, 4]) +
      (Tag("chnk") + [0, 0, 0, 3] + [1, 2, 3] + [0])
  {
    l := new List.NewList(Tag("SUB1"));
    l.AppendChunk(Tag("chnk"), [1, 2, 3, 4]);
    SmallFrame(Tag("chnk"), [1, 2, 3, 4]);
    l.AppendChunk(Tag("chnk"), [1, 2, 3]);
    SmallFrame(Tag("chnk"), [1, 2, 3]);
  }

  /** The list "SUB2" of the second scenario: one chunk of length 3. */
  method BuildSub2() returns (l: List)
    ensures fresh(l) && l.Valid() && l.c.len == 16
    ensures l.c.data ==
      Tag("SUB2") +
      (Tag("chnk") + [0, 0, 0, 3] + [1, 2, 3] + [0])
  {
    l := new List.NewList(Tag("SUB2"));
    l.AppendChunk(Tag("chnk"), [1, 2, 3]);
    SmallFrame(Tag("chnk"), [1, 2, 3]);
  }

  /** Two sub-lists inside a list "TEST": lengths 28 and 16 for the
      sub-lists and 64 for the outer list. */
  method TestList() returns (out: seq<byte>)
    ensures out ==
      Tag("LIST") + [0, 0, 0, 64] +
      (Tag("TEST") +
       (Tag("LIST") + [0, 0, 0, 28] +
        (Tag("SUB1") +
         (Tag("chnk") + [0, 0, 0, 4] + [1, 2, 3, 4]) +
         (Tag("chnk") + [0, 0, 0, 3] + [1, 2, 3] + [0]))) +
       (Tag("LIST") + [0, 0, 0, 16] +
        (Tag("SUB2") +
         (Tag("chnk") + [0, 0, 0, 3] + [1, 2, 3] + [0]))))
  {
    var l := new List.NewList(Tag("TEST"));
    var l1 := BuildSub1();
    l.AppendList(l1);
    assert BE32(28) == [0, 0, 0, 28];
    var l2 := BuildSub2();
    l.AppendList(l2);
    assert BE32(16) == [0, 0, 0, 16];
    out := l.c.Bytes();
    assert BE32(64) == [0, 0, 0, 64];
  }

  /** A list appended to itself embeds its state from before the call. */
  method TestSelfAppend() returns (out: seq<byte>)
    ensures out == Tag("LIST") + [0, 0, 0, 16] + (Tag("SELF") + (Tag("LIST") + [0, 0, 0, 4] + Tag("SELF")))
  {
    var l := new List.NewList(Tag("SELF"));
    l.AppendList(l);
    assert BE32(4) == [0, 0, 0, 4];
    out := l.c.Bytes();
    assert BE32(16) == [0, 0, 0, 16];
  }

  /** A one-chunk "WAVE" form that the write-path scenarios hand to sinks. */
  method BuildWave() returns (w: Writer)
    ensures fresh(w) && w.Valid() && |w.c.Bytes()| == 22
  {
    w := new Writer.NewWriter(Tag("WAVE"));
    w.AppendChunk(Tag("data"), [7]);
  }

  /** A sink that takes one byte fewer than offered gives a short write and
      leaves the container as it was. */
  method TestShortWrite() returns (err: Option<Error>, same: bool)
    ensures err == Some(ShortWrite)
    ensures same
  {
    var w := BuildWave();
    var before := w.c.Bytes();
    err := w.WriteTo(DropsOne);
    same := w.c.Bytes() == before;
  }

  /** A sink that reports its own error with a full count gives that error. */
  method TestSinkError() returns (err: Option<Error>)
    ensures err == Some(SinkError("disk full"))
  {
    var w := BuildWave();
    err := w.WriteTo(DiskFull);
  }

  /** A count that is off by exactly 2^32 is not noticed, because it is
      compared as a `uint32`. */
  method TestWrappedCount() returns (err: Option<Error>)
    ensures err == None
  {
    var w := BuildWave();
    err := w.WriteTo(Overcounts);
  }
}
