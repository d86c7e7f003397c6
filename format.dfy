/** The wire grammar the writer produces, stated independently of the writer:

      Container := Tag(4) Length(4, big-endian) FormType(4) Child*
      Child     := ID(4) Len(4, big-endian) Payload(Len) Pad

    where Pad is one zero byte exactly when Len is odd, and Length counts the
    form type and every child's bytes, pads included. A nested list is a child
    whose ID is "LIST" and whose payload is the list type and the list's own
    children. Besides the encoders this module defines the matching decoders
    and proves that each pair are inverses. */
module Format {
  import opened Wire

  /** A child of a container as it appears on the wire: its ID and the
      payload its length field counts (the pad byte is not part of it). */
  datatype Child = Child(id: FourCC, payload: seq<byte>)

  /** A decoded container: its structural tag, its form (or list) type and
      its children in order. */
  datatype Parsed = Parsed(tag: FourCC, form: FourCC, children: seq<Child>)

  /** The single zero byte that follows odd-length content. */
  function Pad(n: nat): (p: seq<byte>)
    ensures |p| == n % 2 && forall i :: 0 <= i < |p| ==> p[i] == 0
  {
    if n % 2 == 1 then [0] else []
  }

  /** Every payload's length fits a 32-bit length field. */
  predicate Sized(cs: seq<Child>) {
    forall i :: 0 <= i < |cs| ==> |cs[i].payload| <= MaxU32
  }

  /** The on-wire size of a child: header, payload and pad. */
  function WireSize(ch: Child): nat {
    8 + |ch.payload| + |ch.payload| % 2
  }

  /** The sum of the on-wire sizes of a sequence of children. */
  function TotalSize(cs: seq<Child>): nat {
    if cs == [] then 0 else WireSize(cs[0]) + TotalSize(cs[1..])
  }

  /** One child on the wire. */
  function Frame(ch: Child): (b: seq<byte>)
    requires |ch.payload| <= MaxU32
    ensures |b| == WireSize(ch) && |b| % 2 == 0
  {
    ch.id + BE32(|ch.payload| as u32) + ch.payload + Pad(|ch.payload|)
  }

  /** A sequence of children on the wire, one after the other; its length is
      always even. */
  function Frames(cs: seq<Child>): (b: seq<byte>)
    requires Sized(cs)
    ensures |b| % 2 == 0
  {
    if cs == [] then []
    else
      SizedTail(cs);
      var f := Frame(cs[0]);
      var rest := Frames(cs[1..]);
      EvenConcat(f, rest);
      f + rest
  }

  /** Helper: two even-length byte sequences concatenate to an even length. */
  lemma EvenConcat(a: seq<byte>, b: seq<byte>)
    requires |a| % 2 == 0 && |b| % 2 == 0
    ensures |a + b| % 2 == 0
  {
  }

  /** Helper: the tail of a sized sequence of children is sized. */
  lemma SizedTail(cs: seq<Child>)
    requires Sized(cs) && cs != []
    ensures |cs[0].payload| <= MaxU32 && Sized(cs[1..])
  {
    forall i | 0 <= i < |cs[1..]| ensures |cs[1..][i].payload| <= MaxU32 {
      assert cs[1..][i] == cs[i + 1];
    }
  }

  /** The whole container on the wire. */
  function Container(tag: FourCC, form: FourCC, cs: seq<Child>): seq<byte>
    requires Sized(cs) && 4 + |Frames(cs)| <= MaxU32
  {
    tag + BE32((4 + |Frames(cs)|) as u32) + form + Frames(cs)
  }

  /** Decodes the child at the front of `b`; `None` when its header or its
      padded payload does not fit in `b` or a pad byte is not zero. */
  function ParseHead(b: seq<byte>): (r: Option<Child>)
    ensures r.Some? ==> |r.value.payload| <= MaxU32 && 8 <= WireSize(r.value) <= |b|
  {
    if |b| < 8 then None
    else
      var n := DecodeBE32(b[4..8]) as int;
      if |b| < 8 + n + n % 2 then None
      else if n % 2 == 1 && b[8 + n] != 0 then None
      else Some(Child(b[..4], b[8..8 + n]))
  }

  /** Decodes a sequence of children that fills `b` exactly. */
  function ParseFrames(b: seq<byte>): Option<seq<Child>>
    decreases |b|
  {
    if |b| == 0 then Some([])
    else match ParseHead(b)
      case None => None
      case Some(ch) =>
        match ParseFrames(b[WireSize(ch)..])
        case None => None
        case Some(rest) => Some([ch] + rest)
  }

  /** Decodes a whole container; `None` unless its length field equals the
      number of bytes after the header and the content decodes. */
  function ParseContainer(b: seq<byte>): Option<Parsed> {
    if |b| < 12 || DecodeBE32(b[4..8]) as int != |b| - 8 then None
    else match ParseFrames(b[12..])
      case None => None
      case Some(cs) => Some(Parsed(b[..4], b[8..12], cs))
  }

  /** Appending a child appends its frame. */
  lemma {:induction false} FramesSnoc(cs: seq<Child>, ch: Child)
    requires Sized(cs) && |ch.payload| <= MaxU32
    ensures Sized(cs + [ch]) && Frames(cs + [ch]) == Frames(cs) + Frame(ch)
  {
    assert Sized(cs + [ch]) by {
      forall i | 0 <= i < |cs + [ch]| ensures |(cs + [ch])[i].payload| <= MaxU32 {
        if i < |cs| { assert (cs + [ch])[i] == cs[i]; }
      }
    }
    if cs == [] {
      assert [ch][1..] == [];
    } else {
      assert (cs + [ch])[1..] == cs[1..] + [ch];
      FramesSnoc(cs[1..], ch);
    }
  }

  /** The children's bytes are as long as the sum of their on-wire sizes. */
  lemma {:induction false} FramesSize(cs: seq<Child>)
    requires Sized(cs)
    ensures |Frames(cs)| == TotalSize(cs)
  {
    if cs != [] {
      FramesSize(cs[1..]);
    }
  }

  /** The child at the front of a frame is the child it encodes. */
  lemma ParseHeadOfFrame(ch: Child, tail: seq<byte>)
    requires |ch.payload| <= MaxU32
    ensures ParseHead(Frame(ch) + tail) == Some(ch)
  {
    var n := |ch.payload|;
    var b := Frame(ch) + tail;
    assert b == ch.id + BE32(n as u32) + ch.payload + Pad(n) + tail;
    assert b[..4] == ch.id;
    assert b[4..8] == BE32(n as u32);
    assert b[8..8 + n] == ch.payload;
    if n % 2 == 1 {
      assert b[8 + n] == Pad(n)[0];
    }
  }

  /** A decoded head is the frame of the child decoded. */
  lemma FrameOfParseHead(b: seq<byte>)
    requires ParseHead(b).Some?
    ensures b[..WireSize(ParseHead(b).value)] == Frame(ParseHead(b).value)
  {
    var ch := ParseHead(b).value;
    var n := |ch.payload|;
    EncodeDecodeBE32(b[4..8]);
    assert Pad(n) == b[8 + n..8 + n + n % 2];
    assert b[..8 + n + n % 2] == b[..4] + b[4..8] + b[8..8 + n] + b[8 + n..8 + n + n % 2];
  }

  /** Decoding the encoding of children gives them back. */
  lemma {:induction false} ParseFramesOfFrames(cs: seq<Child>)
    requires Sized(cs)
    ensures ParseFrames(Frames(cs)) == Some(cs)
  {
    if cs != [] {
      var b := Frames(cs);
      ParseHeadOfFrame(cs[0], Frames(cs[1..]));
      assert b[WireSize(cs[0])..] == Frames(cs[1..]);
      ParseFramesOfFrames(cs[1..]);
      assert [cs[0]] + cs[1..] == cs;
    }
  }

  /** Whatever decodes was produced by encoding what it decodes to. */
  lemma {:induction false} FramesOfParseFrames(b: seq<byte>)
    ensures ParseFrames(b).Some? ==> Sized(ParseFrames(b).value) && Frames(ParseFrames(b).value) == b
    decreases |b|
  {
    if |b| > 0 && ParseFrames(b).Some? {
      var ch := ParseHead(b).value;
      var end := WireSize(ch);
      FramesOfParseFrames(b[end..]);
      FrameOfParseHead(b);
      var rest := ParseFrames(b[end..]).value;
      var cs := [ch] + rest;
      assert ParseFrames(b).value == cs;
      assert cs[0] == ch && cs[1..] == rest;
      assert Sized(cs) by {
        forall i | 0 <= i < |cs| ensures |cs[i].payload| <= MaxU32 {
          if i > 0 { assert cs[i] == rest[i - 1]; }
        }
      }
      assert Frames(cs) == Frame(ch) + Frames(rest);
      assert b == b[..end] + b[end..];
    }
  }

  /** Children decode from `b` exactly when `b` is their encoding. */
  lemma ParseFramesIff(b: seq<byte>, cs: seq<Child>)
    ensures ParseFrames(b) == Some(cs) <==> Sized(cs) && Frames(cs) == b
  {
    FramesOfParseFrames(b);
    if Sized(cs) && Frames(cs) == b {
      ParseFramesOfFrames(cs);
    }
  }

  /** Decoding an encoded container gives back its tag, form type and
      children. */
  lemma ParseContainerOfContainer(tag: FourCC, form: FourCC, cs: seq<Child>)
    requires Sized(cs) && 4 + |Frames(cs)| <= MaxU32
    ensures ParseContainer(Container(tag, form, cs)) == Some(Parsed(tag, form, cs))
  {
    var f := Frames(cs);
    var len := BE32((4 + |f|) as u32);
    var b := Container(tag, form, cs);
    assert b == tag + len + form + f;
    assert b[..4] == tag;
    assert b[4..8] == len;
    assert b[8..12] == form;
    assert b[12..] == f;
    ParseFramesOfFrames(cs);
  }

  /** Whatever decodes as a container is the encoding of what it decodes to. */
  lemma ContainerOfParseContainer(b: seq<byte>)
    requires ParseContainer(b).Some?
    ensures var p := ParseContainer(b).value;
      Sized(p.children) && 4 + |Frames(p.children)| <= MaxU32 &&
      Container(p.tag, p.form, p.children) == b
  {
    FramesOfParseFrames(b[12..]);
    EncodeDecodeBE32(b[4..8]);
    assert b == b[..4] + b[4..8] + b[8..12] + b[12..];
  }

  /** A container decodes from `b` exactly when `b` is the container's
      encoding. */
  lemma ParseContainerIff(b: seq<byte>, p: Parsed)
    ensures ParseContainer(b) == Some(p) <==>
      Sized(p.children) && 4 + |Frames(p.children)| <= MaxU32 &&
      Container(p.tag, p.form, p.children) == b
  {
    if ParseContainer(b) == Some(p) {
      ContainerOfParseContainer(b);
    }
    if Sized(p.children) && 4 + |Frames(p.children)| <= MaxU32 && Container(p.tag, p.form, p.children) == b {
      ParseContainerOfContainer(p.tag, p.form, p.children);
    }
  }
}
