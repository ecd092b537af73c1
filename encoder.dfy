/**
 * The `Encoder` object of encoder.go: an `io.Writer` that buffers what it is
 * given and prints it to the underlying writer `w` as a hex dump, one line
 * per 16 bytes, keeping the offset of the next line in `n` and a sticky
 * error in `e`. Each method is proved to do what the matching function of
 * `EncoderSpec` says, call for call on the writer.
 */
module Hexed {
  import opened Fmt
  import opened Sinks
  import opened Templates
  import opened Layout
  import opened EncoderSpec

  class Encoder {
    /** The writer the dump goes to. */
    const w: Sink
    /** Bytes received and not yet printed. */
    var buf: seq<byte>
    /** The offset of the first byte of `buf`. */
    var n: nat
    /** The sticky error; `EOF` after a clean close. */
    var e: Error

    function State(): Machine
      reads this, w
    {
      Machine(buf, n, e, w.State())
    }

    /** `NewEncoder(w)`: nothing pending, offset 0, no error. */
    constructor (w: Sink)
      ensures this.w == w
      ensures buf == [] && n == 0 && e == Nil
    {
      this.w := w;
      buf := [];
      n := 0;
      e := Nil;
    }

    /**
     * `chunks(b)`: the arguments of one line's template, the offset first,
     * then the bytes two at a time, an odd last byte on its own.
     */
    method Chunks(b: seq<byte>) returns (c: seq<Arg>)
      ensures c == ChunkList(n, b)
    {
      c := [IntArg(n)];
      var i := 0;
      while i < (|b| / 2) * 2
        invariant 0 <= i <= (|b| / 2) * 2 && i % 2 == 0
        invariant c == [IntArg(n)] + Groups(b)[..i / 2]
      {
        GroupsAt(b, i / 2);
        TakeSnoc(Groups(b), i / 2);
        c := c + [BytesArg(b[i..i + 2])];
        i := i + 2;
      }
      if |b| % 2 == 1 {
        GroupsLast(b);
        TakeSnoc(Groups(b), |b| / 2);
        assert b[|b| - 1..] == [b[|b| - 1]];
        c := c + [BytesArg(b[|b| - 1..])];
      }
      assert Groups(b)[..|Groups(b)|] == Groups(b);
    }

    /**
     * `fmt.Fprintf(e.w, fmtStrings[len(b)], e.chunks(b)...)`: the hex part
     * of the line for b at the current offset, in one write.
     */
    method PrintHex(b: seq<byte>) returns (err: Error)
      requires 1 <= |b| <= 16
      modifies w
      ensures PutResult(w.State(), err) == Put(old(w.State()), HexLayout(n, b))
    {
      var c := Chunks(b);
      TableLine(n, b);
      err := w.Write(Sprintf(FmtStrings[|b|], c));
    }

    /** `fmt.Fprintf(e.w, "%s\n", printable(b))`: the ASCII column of b and a newline, in one write. */
    method PrintAscii(b: seq<byte>) returns (err: Error)
      modifies w
      ensures PutResult(w.State(), err) == Put(old(w.State()), AsciiLine(b))
    {
      var p := Printable(b);
      err := w.Write(Chars(p) + "\n");
    }

    /**
     * One round of `drain`'s loop: print the line for the first 16 pending
     * bytes and, if both writes succeed, move past them.
     */
    method DrainLine() returns (err: Error)
      requires |buf| >= 16
      modifies this, w
      ensures err != Nil ==> Result(State(), err) == DrainSpec(old(State()))
      ensures err != Nil ==> buf == old(buf) && n == old(n)
      ensures err == Nil ==> DrainSpec(State()) == DrainSpec(old(State()))
      ensures err == Nil ==> buf == old(buf)[16..] && n == old(n) + 16 && e == old(e)
      ensures err == Nil ==> w.out == old(w.out) + Line(old(n), old(buf)[..16])
    {
      ghost var m := State();
      var line := buf[..16];
      var err1 := PrintHex(line);
      ghost var p1 := PutResult(w.State(), err1);
      if err1 != Nil {
        DrainHexFails(m, p1);
        return err1;
      }
      var err2 := PrintAscii(line);
      ghost var p2 := PutResult(w.State(), err2);
      if err2 != Nil {
        DrainAsciiFails(m, p1, p2);
        e := err2;
        return err2;
      }
      DrainLinePrinted(m, p1, p2);
      ghost var next := Machine(m.buf[16..], m.n + 16, m.e, p2.sink);
      buf := buf[16..];
      n := n + 16;
      assert w.State() == p2.sink;
      assert buf == next.buf;
      assert n == next.n;
      assert e == m.e;
      assert m.e == next.e;
      assert State() == next;
      DrainCong(State(), next);
      assert w.out == m.sink.out + HexLayout(m.n, line) + AsciiLine(line);
      return Nil;
    }

    /**
     * `drain`: print every full line pending, stopping at the first failed
     * write with that write's error. The bytes it moves past are the lines
     * it printed, in order, at offsets n, n + 16, ...
     */
    method Drain() returns (err: Error)
      modifies this, w
      ensures Result(State(), err) == DrainSpec(old(State()))
      ensures old(buf) == old(buf)[..|old(buf)| - |buf|] + buf
      ensures err == Nil ==> w.out == old(w.out) + FullLines(old(n), old(buf))
    {
      ghost var done: seq<byte> := [];
      while |buf| >= 16
        invariant DrainSpec(State()) == DrainSpec(old(State()))
        invariant |done| % 16 == 0 && old(buf) == done + buf
        invariant n == old(n) + |done| && e == old(e)
        invariant w.out == old(w.out) + FullLines(old(n), done)
        decreases |buf|
      {
        ghost var b0, n0, o1 := buf, n, w.out;
        err := DrainLine();
        if err != Nil {
          assert done == old(buf)[..|old(buf)| - |buf|];
          return err;
        }
        DrainRound(old(n), old(buf), done, b0, n0, old(w.out), o1, w.out);
        done := done + b0[..16];
      }
      FullLinesShortTail(old(n), done, buf);
      assert done == old(buf)[..|old(buf)| - |buf|];
      return Nil;
    }

    /**
     * `Write(b)`: refused with the sticky error if there is one; otherwise
     * b is buffered and every full line printed. A failure is stored and
     * reported with a count of 0; success reports all of b.
     */
    method Write(b: seq<byte>) returns (count: nat, err: Error)
      modifies this, w
      ensures WriteResult(State(), count, err) == WriteSpec(old(State()), b)
    {
      if e != Nil {
        return 0, e;
      }
      buf := buf + b;
      ghost var m := State();
      DrainCong(m, old(State()).(buf := old(buf) + b));
      var r := Drain();
      if r != Nil {
        e := r;
        return 0, r;
      }
      return |b|, Nil;
    }

    /**
     * `Close`: print every full line, then the short last line if bytes
     * remain; with nothing left, mark the encoder closed with `EOF`.
     */
    method Close() returns (err: Error)
      modifies this, w
      ensures Result(State(), err) == CloseSpec(old(State()))
    {
      var r := Drain();
      if r != Nil {
        e := r;
        return r;
      }
      if |buf| == 0 {
        e := EOF;
        return Nil;
      }
      var r1 := PrintHex(buf);
      if r1 != Nil {
        return r1;
      }
      var r2 := PrintAscii(buf);
      if r2 != Nil {
        return r2;
      }
      return Nil;
    }
  }
}
