# RIFF container writer, modelled in Dafny

This project models the in-memory builder of package `riff` (`riff/writer.go`).
The builder assembles a RIFF-style container. A `Writer` is the top-level
"RIFF" container and a `List` is a nested "LIST" container. Both wrap a
`chunk` record: a 4-byte tag, a running `uint32` length and a byte buffer
that holds the already-serialised children.

- `NewWriter` and `NewList` start with length 4 and a buffer holding only the form (or list) type.
- `AppendChunk` appends a chunk: its ID, its exact length, its content, and a zero pad byte when the content length is odd.
- `AppendList` appends a sub-list's serialised form.
- Both appends add the child's on-wire size to the parent's length.
- `chunk.bytes()` gives tag, length field and buffer.
- `WriteTo` hands those bytes to a sink and reports a short write.

Length fields are written **big-endian**, as the code does. The RIFF chapter
of the IBM/Microsoft *Multimedia Programming Interface and Data
Specifications 1.0* uses little-endian lengths; the model follows the code.

Files and modules:

- `wire.dfy`, module `Wire`: bytes, `u32` (Go's `uint32`), `FourCC`, Go's `uint32(n)` conversion, and the big-endian length field `BE32` with its decoder `DecodeBE32`.
- `format.dfy`, module `Format`: the wire grammar written independently of the builder. `Frame`/`Frames`/`Container` encode it; `ParseHead`/`ParseFrames`/`ParseContainer` decode it. The lemmas prove that encoder and decoder are inverse in both directions.
- `riff.dfy`, module `Riff`: the builder itself.
  - Go's `chunk` struct is a value, so it is the datatype `Chunk` with member `Bytes()`.
  - `Writer` and `List` are classes whose one field `c: Chunk` their methods update, as the Go methods update `w.c`.
  - Each class also has a ghost field `children`: the children appended so far, as the wire grammar sees them.
  - `Valid()` is the representation invariant (`Wellformed`): the buffer is the form type followed by the children's frames, `len` equals the buffer's size, `len` is even, and the serialised container fits 32 bits.
  - The Go helpers `appendChunk` and `appendList` change a buffer through a pointer and return an increment. They are pure functions (`AppendChunkTo`, `AppendListTo`) that return the new buffer and the increment; the methods assign both.
- `scenarios.dfy`, module `Scenarios`: the two worked scenarios of `riff/writer_test.go`, a list appended to itself, and the short-write path.

## Model

| member | source | states |
|---|---|---|
| `Wire.Uint32` | riff/writer.go:29 | Go's `uint32(n)` leaves `n` unchanged exactly when `0 <= n <= 2^32-1` |
| `Wire.BE32` | riff/writer.go:64-67 | the four length bytes are `len` most significant byte first: they decode back to `len` |
| `Wire.EncodeDecodeBE32` | riff/writer.go:64-67 | the other direction of the round trip: any four bytes are the encoding of their big-endian value |
| `Riff.Chunk.Bytes` | riff/writer.go:57-70 | `bytes()` is 8 + `len(data)` bytes: the tag, a length field that decodes to `len`, then the buffer unchanged |
| `Riff.AppendChunkTo` | riff/writer.go:72-80 | the prefix is kept; the chunk's own length field is the exact content length; one zero pad byte follows if and only if the length is odd; the increment returned equals the number of bytes appended, `8 + n + (n & 1)`; the bytes appended are the grammar's frame of the chunk |
| `Riff.AppendListTo` | riff/writer.go:82-85 | appends exactly the sub-list's `bytes()` and returns `8 + sub.len`, which equals the bytes appended; because a list's length is even, these bytes are the grammar's frame of the list with no pad |
| `Riff.WellformedSnoc` | riff/writer.go:20-24 | appending a child's frame and adding its on-wire size keeps the invariant: length equals buffer size, is even, and the buffer is the form type followed by the children's frames |
| `Riff.LengthAccounting` | riff/writer.go:79-84 | a container's length is 4 plus the sum of its children's on-wire sizes, and `bytes()` is `8 + len` bytes long |
| `Riff.BytesDecode` | riff/writer.go:57-70 | a well-formed container serialises to the grammar's encoding of its tag, form type and children, and decodes back to exactly them |
| `Riff.Writer.NewWriter` | riff/writer.go:11-13 | a fresh writer has tag "RIFF", length 4, buffer equal to the form type, no children, and satisfies the invariant |
| `Riff.Writer.AppendChunk` | riff/writer.go:19-21 | keeps the invariant; the buffer grows by the chunk's frame, the length by its on-wire size, and the chunk becomes the last child |
| `Riff.Writer.AppendList` | riff/writer.go:23-25 | keeps the invariant; the buffer grows by the list's `bytes()`, the length by `8 + l.len`; the list becomes the last child; the list is not changed |
| `Riff.Writer.WriteTo` | riff/writer.go:27-33 | hands `bytes()` to the sink; gives a short-write error exactly when the sink's count (as `uint32`) differs from the number of bytes handed over, otherwise the sink's own error; changes nothing |
| `Riff.List.NewList` | riff/writer.go:35-37 | a fresh list has tag "LIST", length 4, buffer equal to the list type, no children, and satisfies the invariant |
| `Riff.List.AppendChunk` | riff/writer.go:43-45 | as for the writer: keeps the invariant, appends the chunk's frame and adds its on-wire size |
| `Riff.List.AppendList` | riff/writer.go:47-49 | keeps the invariant; appends the sub-list's serialised state from before the call (the sub-list may be this list) and adds `8 + sub.len`; a distinct sub-list is not changed |
| `Format.Frames` | riff/writer.go:72-85 | the serialised children always have even length |
| `Format.FramesSnoc` | riff/writer.go:74-83 | appending a child to the child list appends its frame to the bytes |
| `Format.FramesSize` | riff/writer.go:79-84 | the serialised children are as long as the sum of their on-wire sizes |
| `Format.ParseHead` | riff/writer.go:72-80 | a decoded child fits a 32-bit length field and its padded frame lies inside the input |
| `Format.ParseHeadOfFrame` | riff/writer.go:72-80 | the child at the front of a frame decodes to that child |
| `Format.FrameOfParseHead` | riff/writer.go:72-80 | the bytes a child is decoded from are that child's frame, its pad byte zero |
| `Format.ParseFramesOfFrames` | riff/writer.go:72-85 | decoding serialised children gives back the same children in order |
| `Format.FramesOfParseFrames` | riff/writer.go:72-85 | any bytes that decode as children are the serialisation of those children |
| `Format.ParseFramesIff` | riff/writer.go:72-85 | children decode from `b` if and only if `b` is their serialisation |
| `Format.ParseContainerOfContainer` | riff/writer.go:57-70 | a serialised container decodes to its tag, form type and children |
| `Format.ContainerOfParseContainer` | riff/writer.go:57-70 | whatever decodes as a container has a length field equal to its size after the header and is the serialisation of what it decodes to |
| `Format.ParseContainerIff` | riff/writer.go:57-70 | a container decodes from `b` if and only if `b` is its serialisation |
| `Scenarios.BuildTestForm` | riff/writer_test.go:13-18 | after the first scenario's three appends the writer has length 40 and the expected content bytes |
| `Scenarios.TestWriter` | riff/writer_test.go:12-38 | the first scenario writes without error, with total length 40, the odd chunk's own length 3 followed by a pad byte, and the empty list with length 4 |
| `Scenarios.BuildSub1` | riff/writer_test.go:43-45 | list "SUB1" has length 28 and the expected content bytes |
| `Scenarios.BuildSub2` | riff/writer_test.go:48-49 | list "SUB2" has length 16 and the expected content bytes |
| `Scenarios.TestList` | riff/writer_test.go:40-71 | the nested scenario serialises to the expected bytes, with lengths 28, 16 and 64 |
| `Scenarios.TestSelfAppend` | riff/writer.go:47-49 | a list appended to itself embeds its own state from before the call: length 16 |
| `Scenarios.BuildWave` | riff/writer.go:11-21 | a writer with one 1-byte chunk serialises to 22 bytes: header 8, form type 4, chunk header 8, content 1 and one pad byte |
| `Scenarios.TestShortWrite` | riff/writer.go:27-33 | a sink that takes one byte too few gives a short write, and the container is unchanged |
| `Scenarios.TestSinkError` | riff/writer.go:27-33 | when the sink's count is right, the sink's own error is returned |
| `Scenarios.TestWrappedCount` | riff/writer.go:27-33 | a count off by exactly 2^32 is not noticed, because it is compared after conversion to `uint32` |

## Left out

- The `io.Writer` sink (riff/writer.go:28) is the function parameter `sink` of `WriteTo`, from the bytes handed over to the sink's `(n, err)`. The sink's own side effects are outside the model.
- Riff.Writer.WriteTo: the sink is a pure function of the bytes it is given, so a sink whose answer depends on earlier calls is not modelled.
- `uint32` wrap-around when lengths are added (riff/writer.go:20, 24, 44, 48, 73, 77, 79, 84, 29) is not modelled. Every append requires that the container's serialised size, `8 + len`, stays at most 2^32 - 1 afterwards, and `Valid()` keeps that bound. Within it no addition wraps.
- The capacity hint `make([]byte, 0, 8+c.len)` at riff/writer.go:58 is not modelled: it is overwritten at once and has no effect.
- Slice capacity and the aliasing behaviour of Go's `append` are not modelled. Buffers are value sequences. A sub-list appended to itself is modelled by the state it had before the call, which is what the Go code computes.
- The `FourCC` type declaration is not part of this model; `FourCC` is any sequence of exactly four bytes.
- The test helper `sliceAssertion` (riff/writer_test.go:73-77) is not modelled; the scenarios state the expected bytes as postconditions.
