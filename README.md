# hexed: the streaming hex-dump encoder, in Dafny

`hexed.Encoder` (encoder.go) is an `io.Writer` that turns a byte stream into
a hex dump, one line per 16 bytes:

```
00000000: 746f 7461 6c6c 7909 7261 6469 6361 6c21  totally.radical!
```

Each line has the offset in eight hex digits, the bytes in groups of two,
padding so that the ASCII column always starts at the same place, and the
ASCII column with non-printable bytes shown as `.`. The encoder keeps three
fields:

- `buf`: bytes received and not yet printed;
- `n`: the offset of the next line;
- `e`: a sticky error, which also holds `io.EOF` after a clean close.

`Write` appends to `buf` and then `drain` prints every full line. Each line
is two `fmt.Fprintf` calls: the hex part through the template
`fmtStrings[len]`, then the ASCII column through `"%s\n"`. `Close` drains
and then either stores `io.EOF` (nothing left) or prints one short line for
the 1 to 15 bytes left over.

The project is laid out as follows:

- `fmt.dfy` (module `Fmt`): the part of Go's `fmt` the encoder relies on.
  - `%0Dx` on an int and on a byte slice, with lowercase digits.
  - Substitution of such verbs into a template (`Sprintf`).
  - `%s` on a byte slice.
- `table.dfy` (modules `FmtTable`, `Templates`):
  - the 17-row template table as the source spells it;
  - a rule that generates each row from N;
  - proofs that every row follows the rule and asks for exactly the verbs `chunks` supplies.
- `layout.dfy` (module `Layout`):
  - `chunks`, the group layout and `printable`;
  - the proof that filling row N with `chunks` gives the intended column layout;
  - the fixed column of the ASCII part.
- `sink.dfy` (module `Sinks`): the writer, as a class holding its output and a script of outcomes.
  - A scripted outcome is either "accept" or "fail after k characters".
  - This lets every error path be followed.
- `machine.dfy` (module `EncoderSpec`): `drain`, `Write` and `Close` as functions on the encoder's state.
- `encoder.dfy` (module `Hexed`): the class `Encoder`.
  - Its fields are those of the Go struct.
  - Its methods are proved to do exactly what the `EncoderSpec` functions say.
  - `Drain` carries the loop invariant that relates the bytes consumed, the offset and the lines printed.
- `properties.dfy` (module `Properties`): what the encoder promises, proved over `EncoderSpec`:
  - the sticky-error rules;
  - the output of `drain` and of `Close`;
  - independence from how the input is split into writes;
  - the whole-stream result.
- `example.dfy` (module `Example`): the line for the sixteen bytes of `"totally\tradical!"`.

### Error and close behaviour of the encoder

The model follows encoder.go in each of these points:

- A failed write is not always terminal.
  - `Close` does not consult `e`. After a stored failure it drains again and can write to the sink.
  - Errors of the short line in `Close` are returned but not stored. A later `Write` is then accepted if no error was stored before.
- A `Close` that printed a short line leaves `buf` and `e` as they were. A second `Close` prints the same line again.
- In `drain`, a failed hex part is not stored in `e`, while a failed ASCII part is. `Write` and the drain step of `Close` store it anyway.
- Either way, the partial line already written stays in the sink, and `buf` is not advanced.

## Model

| member | source | states |
|---|---|---|
| Fmt.Hex | encoder.go:95-110 | `%0Dx` on an int gives at least D digits, every one a lowercase hex digit |
| Fmt.HexRoundTrip | encoder.go:95-110 | reading the digits of `%0Dx` back gives the number printed, so no information is lost by the padding |
| Fmt.HexExactWidth | encoder.go:95-110 | `%0Dx` prints exactly D digits if and only if the value is below 16^D; larger offsets get more digits |
| Fmt.HexBytes | encoder.go:95-110 | `%x` on a byte slice prints two hex digits per byte |
| Fmt.HexBytesRoundTrip | encoder.go:95-110 | reading `%x` of a byte slice back two digits at a time gives the bytes, in order |
| Fmt.Chars | encoder.go:45 | `%s` on a byte slice prints one character per byte, each with that byte's value |
| Fmt.Sprintf | encoder.go:41-53 | `fmt.Fprintf`'s formatting: each `%0Dx` verb takes the next argument at width D and other characters are copied; with no arguments, or no `%` in the template, the template prints as it stands |
| Fmt.SprintfText | encoder.go:95-110 | text with no `%` in a template is copied unchanged |
| Fmt.SprintfVerb | encoder.go:95-110 | a `%0Dx` verb at the head of a template is replaced by the next argument printed with width D |
| Templates.GroupWidth | encoder.go:95-110 | the rendered width of an N-byte line's groups lies between (5N-2)/2 and (5N-1)/2 |
| Templates.TableFollowsRule | encoder.go:93-111 | every row N of the table is `"%08x: "`, the group verbs of N bytes and spaces padding the groups to 41 characters |
| Templates.GroupVerbsSnoc | encoder.go:95-110 | each row gains one verb over the row before: `%02x` for an odd N, and `%02x` becomes `%04x` for an even N |
| Templates.GroupVerbsWidths | encoder.go:95-110 | the group verbs of N bytes are floor(N/2) verbs `%04x` and then one `%02x` exactly when N is odd |
| Templates.TemplateVerbs | encoder.go:93-111 | row N holds an `%08x` verb and then floor(N/2) `%04x` verbs and one `%02x` exactly when N is odd, and no other verb |
| Templates.NoPercentNoVerbs | encoder.go:95-110 | the padding holds no verb |
| Layout.Groups | encoder.go:66-75 | `chunks` yields ceil(len(b)/2) groups after the offset |
| Layout.GroupsStructure | encoder.go:66-75 | group i is bytes 2i and 2i+1; a final one-byte group is present exactly when len(b) is odd; the groups concatenate back to b |
| Layout.GroupsConcat | encoder.go:68-73 | the groups joined end to end are the bytes given |
| Layout.GroupText | encoder.go:95-110 | the text `%04x`/`%02x` print for the groups has the width of the rule |
| Layout.GroupTextDigits | encoder.go:95-110 | with the separating spaces taken out, the group text is `%x` of all the bytes |
| Layout.GroupTextColumns | encoder.go:95-110 | column i of the group text is a space at every fifth position and otherwise the digit of byte 2(i/5) + (i%5)/2, high nibble first |
| Layout.SprintfGroups | encoder.go:95-110 | the group verbs of N bytes filled with the groups of those bytes print the group text |
| Layout.LineLayout | encoder.go:93-111 | the rule's template for N bytes, filled with `chunks`, prints the offset, `": "`, the group columns and padding |
| Layout.TableLine | encoder.go:41 | `Fprintf(fmtStrings[len(b)], chunks(b)...)` prints that layout for every length 1 to 16; `drain` passes `fmtStrings[16]` for 16 bytes (encoder.go:53) |
| Layout.OffsetWidth | encoder.go:95 | an offset below 2^32 prints in exactly eight digits |
| Layout.AsciiColumn | encoder.go:77-91 | `printable` keeps the length; a byte from 32 to 127 (127 included) is kept, any other becomes `'.'` |
| Layout.Printable | encoder.go:77-91 | the loop that fills a fresh buffer byte by byte produces the ASCII column, and nothing for an empty input |
| Layout.AsciiColumnIdempotent | encoder.go:84-88 | every byte of the ASCII column is printable, so applying `printable` again changes nothing |
| Layout.AsciiColumnAligned | encoder.go:93-111 | for offsets below 2^32 the hex part of every line, full or short, is 51 characters, so the ASCII column starts at the same column on every line |
| Sinks.Put | encoder.go:53-59 | a write either appends all of its text and succeeds, or appends a prefix of it and fails with a writer error; it consumes one scripted outcome |
| Sinks.PutReliable | encoder.go:53-59 | a sink that accepts everything appends each write whole and keeps accepting |
| Sinks.PutFailure | encoder.go:53-59 | a write fails exactly when the next scripted outcome is a failure, with that outcome's error |
| Sinks.TwoWrites | encoder.go:41-47 | the error of the first failing write among two in a row is the first failure among the next two scripted outcomes |
| Sinks.Sink.Write | encoder.go:9 | the writer object does what `Put` says to its output and script |
| EncoderSpec.DrainSpec | encoder.go:51-64 | the pending bytes shrink by a multiple of 16 and the offset grows by the same amount; success leaves fewer than 16 bytes and `e` as it was; a failure is a writer error with a full line still pending and `e` either unchanged or that error |
| EncoderSpec.DrainLeavesSuffix | encoder.go:60 | what `drain` leaves pending is what follows the bytes it moved past |
| EncoderSpec.DrainHexFails | encoder.go:53-55 | a failed hex part ends `drain` with that error, the bytes still pending and `e` untouched |
| EncoderSpec.DrainAsciiFails | encoder.go:56-59 | a failed ASCII part ends `drain` with that error stored in `e`, the bytes still pending |
| EncoderSpec.DrainLinePrinted | encoder.go:60-61 | a line printed whole moves `drain` 16 bytes on and the offset 16 on |
| EncoderSpec.WriteSpec | encoder.go:19-29 | success reports len(b) and leaves fewer than 16 bytes pending and no error; failure reports 0 with the error stored |
| EncoderSpec.CloseSpec | encoder.go:31-49 | `Close` leaves the bytes and offset that `drain` leaves; success leaves fewer than 16 pending; it either stores `io.EOF` with nothing pending, stores a drain error, or leaves `e` as it was |
| EncoderSpec.FullLinesAppend | encoder.go:52-62 | lines come out in input order: the line for the next 16 bytes follows the earlier lines, at offset n plus the bytes before it |
| EncoderSpec.FullLinesShortTail | encoder.go:52 | fewer than 16 bytes after the last full line add no line |
| EncoderSpec.DrainRound | encoder.go:52-62 | one round of the loop keeps "the original buffer is the bytes printed so far followed by the pending bytes" and "the output is the full lines of the bytes printed so far" |
| Hexed.Encoder.constructor | encoder.go:15-17 | `NewEncoder(w)` starts with nothing pending, offset 0 and no error |
| Hexed.Encoder.Chunks | encoder.go:66-75 | the index loop builds the offset followed by the groups of b |
| Hexed.Encoder.PrintHex | encoder.go:41 | one write of the line's hex layout at the current offset |
| Hexed.Encoder.PrintAscii | encoder.go:45 | one write of the ASCII column and a newline |
| Hexed.Encoder.DrainLine | encoder.go:53-61 | one round of the loop: on success the first 16 bytes are consumed, `n` grows by 16, `e` is unchanged and the sink received exactly that line; on failure `buf` and `n` are unchanged and the state is what `drain` ends in |
| Hexed.Encoder.Drain | encoder.go:51-64 | the loop ends in the state `DrainSpec` gives; the original buffer is always the bytes moved past followed by `buf`; on success the sink received exactly the full lines of the original buffer, in order, at offsets n, n+16, ... |
| Hexed.Encoder.Write | encoder.go:19-29 | the method ends in the state and result `WriteSpec` gives |
| Hexed.Encoder.Close | encoder.go:31-49 | the method ends in the state and result `CloseSpec` gives |
| Properties.StickyWrite | encoder.go:20-22 | with an error or `io.EOF` stored, `Write` returns 0 and that error and leaves the buffer, offset and sink unchanged |
| Properties.DrainOutput | encoder.go:51-64 | `drain` prints a prefix of the full lines of the buffer, including every line before the bytes left pending, and exactly the full lines when it succeeds; a failure prints nothing past the line that failed |
| Properties.DrainAppend | encoder.go:51-64 | bytes appended behind the pending ones do not change what `drain` does with the lines before them |
| Properties.WriteSplit | encoder.go:23-24 | `Write(a + b)` and `Write(a); Write(b)` leave the same state and error when `Write(a)` succeeds, and the same total count when the joined write succeeds; they fail at the same point when `Write(a)` fails |
| Properties.SettledKept | encoder.go:23-28 | between calls, with no stored error, fewer than 16 bytes are pending: true after `NewEncoder` and kept by `Write` and `Close` |
| Properties.WriteAllFlatten | encoder.go:23-24 | writing slices one call after another gives the same error, offset, stored error and output as one `Write` of them joined, and the same state when no write fails |
| Properties.DrainReliable | encoder.go:51-64 | with a sink that accepts everything, `drain` never fails |
| Properties.WriteReliable | encoder.go:23-28 | with such a sink and no stored error, `Write` succeeds and reports every byte |
| Properties.CloseEmpty | encoder.go:36-39 | with nothing pending, `Close` writes nothing, stores `io.EOF` and succeeds |
| Properties.WriteAfterClose | encoder.go:20-22 | after a clean close with nothing pending, every `Write` returns 0 and `io.EOF` |
| Properties.CloseShortLine | encoder.go:41-47 | with 1 to 15 bytes pending, `Close` prints one line for them at offset n in two writes; the error of the first write that fails is returned but not stored; `buf`, `n` and `e` stay as they were |
| Properties.CloseTwice | encoder.go:48 | on a sink that accepts everything, a second `Close` after one that printed a short line prints the same line again |
| Properties.CloseAfterDrain | encoder.go:32 | closing after a successful drain is the same as closing directly |
| Properties.CloseReliable | encoder.go:31-49 | with a sink that accepts everything, `Close` succeeds |
| Properties.DumpLines | encoder.go:31-64 | the dump of some data is its full lines followed by one short line for the bytes after them |
| Properties.CloseOutput | encoder.go:31-49 | `Close` prints a prefix of the dump of the pending bytes, and all of it when it succeeds |
| Properties.StreamDump | encoder.go:15-49 | a new encoder on a sink that accepts everything, given slices in any number of writes and then closed, reports no error and prints exactly the dump of the bytes joined, from offset 0; empty input prints nothing |
| Properties.DrainFailures | encoder.go:51-64 | `drain` makes two writes per full line and returns the error of the first of them that fails, or none; on success it has used exactly those outcomes |
| Properties.WriteFailures | encoder.go:23-27 | with no stored error, `Write` fails exactly when `drain` fails on the joined bytes, with count 0 and that error, the first failure among two writes per full line |
| Properties.ShortLineFailure | encoder.go:41-47 | with 1 to 15 bytes pending, `Close` returns the first failure among its two writes |
| Properties.CloseFailures | encoder.go:31-49 | `Close` returns the first failure among the writes of the full lines and then of the short line, if any |
| Properties.DrainIgnoresError | encoder.go:51-64 | `drain` returns the same error and reaches the same state, apart from `e`, whatever error is stored |
| Properties.CloseIgnoresError | encoder.go:31-49 | `Close` prints the same and returns the same error whatever error is stored, even after a failure or an earlier clean close |
| Example.OffsetZero | encoder.go:95 | `%08x` of offset 0 is eight zeros |
| Example.TotallyGroups | encoder.go:110 | the groups of `"totally\tradical!"` print as `746f 7461 6c6c 7909 7261 6469 6361 6c21` |
| Example.TotallyAscii | encoder.go:84-88 | the ASCII column of those bytes is `totally.radical!`, with the tab shown as `.` |
| Example.TotallyLine | encoder.go:53-56 | the whole line for them at offset 0 is the offset, the groups, two spaces of padding, the ASCII column and a newline |

## Left out

- `cmd/main.go` is not part of this model. It copies standard input into an encoder and closes it, with no logic of its own.
- Go's `fmt` is modelled only for `%0Dx` with a single-digit width, applied to an int or a byte slice, and for `%s` on a byte slice.
  - A verb with no argument left is copied literally, where Go would print `%!x(MISSING)`.
  - Arguments left over after the last verb are dropped, where Go would append `%!(EXTRA ...)`.
  - `TemplateVerbs` and the count in `Layout.Groups` show that each row of the table takes exactly the arguments `chunks` supplies, so neither case arises.
- A writer is an output string and a script of outcomes, and an error is an abstract code.
  - A short write that reports no error is not modelled.
  - The error values themselves are not modelled.
- `Properties.StreamDump` and the other whole-run lemmas assume a sink that accepts everything. Failing sinks are covered step by step by the `drain`, `Write` and `Close` lemmas.
- Offsets are unbounded naturals.
  - Go's `int` would overflow after 2^63 bytes; that is not modelled.
  - `%08x` prints all the digits of larger offsets, as Go does.
- `Layout.AsciiColumnAligned`: states the fixed ASCII column only for offsets below 2^32. Above that, `%08x` prints more than eight digits and the column moves.
- `printable` returns `nil` for empty input. The model returns the empty sequence, which `%s` prints the same way.
- Concurrency is not modelled. The encoder has no locking and is used from one caller.
- In `drain`, the Go code passes `fmtStrings[16]` for the 16-byte line. The model uses the row for the line's length, which is the same row.
