/**
 * What the encoder's operations promise, stated over the state machine of
 * `EncoderSpec`: the sticky-error rules, the accounting of `drain`, that
 * the output does not depend on how the input is split into writes, and
 * the outcomes of `Close`.
 */
module Properties {
  import opened Fmt
  import opened Sinks
  import opened Layout
  import opened EncoderSpec

  lemma PrefixTrans(x: string, y: string, z: string)
    requires x <= y && y <= z
    ensures x <= z
  {
  }

  // ---------------------------------------------------------------- Write

  /**
   * A stored error (a failure or `io.EOF`) makes `Write` return 0 and that
   * error, and leaves the buffer, the offset and the sink as they are.
   */
  lemma StickyWrite(m: Machine, b: seq<byte>)
    requires m.e != Nil
    ensures WriteSpec(m, b) == WriteResult(m, 0, m.e)
  {
  }

  // ---------------------------------------------------------------- drain

  /**
   * What draining m to r printed: a continuation of the sink's output by a
   * prefix of the full lines of the buffer, including every line before the
   * bytes left pending; on failure, nothing beyond the line that failed;
   * and, on success, exactly the full lines.
   */
  ghost predicate PrintedLines(m: Machine, r: Result) {
    && |r.m.buf| <= |m.buf|
    && m.sink.out <= r.m.sink.out <= m.sink.out + FullLines(m.n, m.buf)
    && m.sink.out + FullLines(m.n, m.buf[..|m.buf| - |r.m.buf|]) <= r.m.sink.out
    && (r.err != Nil ==>
          16 <= |r.m.buf| && r.m.sink.out <= m.sink.out + FullLines(m.n, m.buf[..|m.buf| - |r.m.buf| + 16]))
    && (r.err == Nil ==> r.m.sink.out == m.sink.out + FullLines(m.n, m.buf))
  }

  /**
   * The text `drain` prints: the full lines of the buffer, in order, at
   * offsets n, n + 16, ..., up to the first failed write.
   */
  lemma {:induction false} DrainOutput(m: Machine)
    ensures PrintedLines(m, DrainSpec(m))
    decreases |m.buf|, 1
  {
    if |m.buf| < 16 {
      NothingTaken(m, DrainSpec(m));
    } else {
      var p1 := Put(m.sink, HexLayout(m.n, m.buf[..16]));
      if p1.err != Nil {
        HexFailed(m, p1);
      } else {
        var p2 := Put(p1.sink, AsciiLine(m.buf[..16]));
        if p2.err != Nil {
          AsciiFailed(m, p1, p2);
        } else {
          LinePrinted(m, p1, p2);
        }
      }
    }
  }

  lemma HexFailed(m: Machine, p1: PutResult)
    requires |m.buf| >= 16 && Put(m.sink, HexLayout(m.n, m.buf[..16])) == p1 && p1.err != Nil
    ensures PrintedLines(m, DrainSpec(m))
  {
    DrainHexFails(m, p1);
    FullLinesCons(m.n, m.buf);
    PartialLine(m.sink.out, HexLayout(m.n, m.buf[..16]), AsciiLine(m.buf[..16]), FullLines(m.n + 16, m.buf[16..]),
      FullLines(m.n, m.buf), p1.sink.out);
    FailedFirstLine(m, DrainSpec(m));
    PartialLine(m.sink.out, HexLayout(m.n, m.buf[..16]), AsciiLine(m.buf[..16]), [],
      FullLines(m.n, m.buf[..16]), p1.sink.out);
    NothingTaken(m, DrainSpec(m));
  }

  lemma AsciiFailed(m: Machine, p1: PutResult, p2: PutResult)
    requires |m.buf| >= 16 && Put(m.sink, HexLayout(m.n, m.buf[..16])) == p1 && p1.err == Nil
    requires Put(p1.sink, AsciiLine(m.buf[..16])) == p2 && p2.err != Nil
    ensures PrintedLines(m, DrainSpec(m))
  {
    DrainAsciiFails(m, p1, p2);
    FullLinesCons(m.n, m.buf);
    PartialAscii(m.sink.out, HexLayout(m.n, m.buf[..16]), AsciiLine(m.buf[..16]), FullLines(m.n + 16, m.buf[16..]),
      FullLines(m.n, m.buf), p1.sink.out, p2.sink.out);
    FailedFirstLine(m, DrainSpec(m));
    PartialAscii(m.sink.out, HexLayout(m.n, m.buf[..16]), AsciiLine(m.buf[..16]), [],
      FullLines(m.n, m.buf[..16]), p1.sink.out, p2.sink.out);
    NothingTaken(m, DrainSpec(m));
  }

  lemma {:induction false} LinePrinted(m: Machine, p1: PutResult, p2: PutResult)
    requires |m.buf| >= 16 && Put(m.sink, HexLayout(m.n, m.buf[..16])) == p1 && p1.err == Nil
    requires Put(p1.sink, AsciiLine(m.buf[..16])) == p2 && p2.err == Nil
    ensures PrintedLines(m, DrainSpec(m))
    decreases |m.buf|, 0
  {
    var next := Machine(m.buf[16..], m.n + 16, m.e, p2.sink);
    DrainLinePrinted(m, p1, p2);
    DrainOutput(next);
    PrintedStep(m, next, DrainSpec(m), p1.sink.out);
  }

  /** A first line printed whole, then the rest drained from the following offset. */
  lemma PrintedStep(m: Machine, next: Machine, r: Result, p1: string)
    requires |m.buf| >= 16 && next.buf == m.buf[16..] && next.n == m.n + 16
    requires p1 == m.sink.out + HexLayout(m.n, m.buf[..16])
    requires next.sink.out == p1 + AsciiLine(m.buf[..16])
    requires PrintedLines(next, r)
    ensures PrintedLines(m, r)
  {
    var k := |m.buf| - |r.m.buf|;
    assert |next.buf| - |r.m.buf| == k - 16;
    FullLinesCons(m.n, m.buf);
    FullLinesTake(m.n, m.buf, k);
    WholeLine(m.sink.out, HexLayout(m.n, m.buf[..16]), AsciiLine(m.buf[..16]), p1, next.sink.out,
      FullLines(m.n + 16, m.buf[16..]), FullLines(m.n + 16, m.buf[16..][..k - 16]),
      FullLines(m.n, m.buf), FullLines(m.n, m.buf[..k]), r.m.sink.out, r.err == Nil);
    if r.err != Nil {
      FailedLater(m, next, r, p1);
    }
  }

  /** A failure further on: the output stops within the line that failed. */
  lemma FailedLater(m: Machine, next: Machine, r: Result, p1: string)
    requires |m.buf| >= 16 && next.buf == m.buf[16..] && next.n == m.n + 16
    requires p1 == m.sink.out + HexLayout(m.n, m.buf[..16])
    requires next.sink.out == p1 + AsciiLine(m.buf[..16])
    requires |r.m.buf| <= |next.buf| && 16 <= |r.m.buf|
    requires r.m.sink.out <= next.sink.out + FullLines(next.n, next.buf[..|next.buf| - |r.m.buf| + 16])
    ensures r.m.sink.out <= m.sink.out + FullLines(m.n, m.buf[..|m.buf| - |r.m.buf| + 16])
  {
    var k := |next.buf| - |r.m.buf| + 16;
    var h, a := HexLayout(m.n, m.buf[..16]), AsciiLine(m.buf[..16]);
    assert |m.buf| - |r.m.buf| + 16 == k + 16;
    FullLinesTake(m.n, m.buf, k + 16);
    assert next.buf[..k] == m.buf[16..][..k];
    var x := FullLines(m.n + 16, m.buf[16..][..k]);
    ConcatAssoc(m.sink.out, h, a);
    ConcatAssoc(m.sink.out, h + a, x);
  }

  /** A drain that stopped at its first line: the line it failed on is the first one. */
  lemma FailedFirstLine(m: Machine, r: Result)
    requires |m.buf| >= 16 && r.m.buf == m.buf
    ensures FullLines(m.n, m.buf[..|m.buf| - |r.m.buf| + 16]) == HexLayout(m.n, m.buf[..16]) + AsciiLine(m.buf[..16]) + []
  {
    assert m.buf[..|m.buf| - |r.m.buf| + 16] == m.buf[..16];
    FullLinesCons(m.n, m.buf[..16]);
    assert m.buf[..16][..16] == m.buf[..16];
  }

  /** A drain that printed no line whole. */
  lemma NothingTaken(m: Machine, r: Result)
    requires r.m.buf == m.buf && m.sink.out <= r.m.sink.out
    ensures m.sink.out + FullLines(m.n, m.buf[..|m.buf| - |r.m.buf|]) <= r.m.sink.out
  {
    assert m.buf[..|m.buf| - |r.m.buf|] == [];
    assert m.sink.out + [] == m.sink.out;
  }

  /** A line whose hex part failed: the output stops inside the hex part. */
  lemma PartialLine(o: string, h: string, a: string, all: string, full: string, out: string)
    requires o <= out <= o + h && full == h + a + all
    ensures o <= out <= o + full
  {
    ConcatAssoc(h, a, all);
    ConcatAssoc(o, h, a + all);
    PrefixTrans(out, o + h, o + h + (a + all));
  }

  /** A line whose ASCII column failed: the output stops inside the ASCII column. */
  lemma PartialAscii(o: string, h: string, a: string, all: string, full: string, p1: string, out: string)
    requires p1 == o + h && p1 <= out <= p1 + a && full == h + a + all
    ensures o <= out <= o + full
  {
    ConcatAssoc(o, h, a);
    ConcatAssoc(o, h + a, all);
    PrefixTrans(o, o + h, out);
    PrefixTrans(out, o + (h + a), o + (h + a) + all);
  }

  /** A line printed whole, followed by what the rest of the drain printed. */
  lemma WholeLine(o: string, h: string, a: string, p1: string, p2: string, all: string, taken: string,
                  full: string, fullTaken: string, out: string, ok: bool)
    requires p1 == o + h && p2 == p1 + a
    requires full == h + a + all && fullTaken == h + a + taken
    requires p2 <= out <= p2 + all
    requires p2 + taken <= out
    requires ok ==> out == p2 + all
    ensures o <= out <= o + full
    ensures o + fullTaken <= out
    ensures ok ==> out == o + full
  {
    ConcatAssoc(o, h, a);
    ConcatAssoc(o, h + a, all);
    ConcatAssoc(o, h + a, taken);
    PrefixTrans(o, p2, out);
  }

  lemma TakeParts(b: seq<byte>, k: nat)
    requires 16 <= k <= |b|
    ensures b[..k][..16] == b[..16] && b[..k][16..] == b[16..][..k - 16]
  {
  }

  lemma FullLinesCons(n: nat, b: seq<byte>)
    requires |b| >= 16
    ensures FullLines(n, b) == HexLayout(n, b[..16]) + AsciiLine(b[..16]) + FullLines(n + 16, b[16..])
  {
  }

  /** The full lines of the first k bytes, k at least 16, begin with the first line. */
  lemma FullLinesTake(n: nat, b: seq<byte>, k: nat)
    requires 16 <= k <= |b|
    ensures FullLines(n, b[..k]) == HexLayout(n, b[..16]) + AsciiLine(b[..16]) + FullLines(n + 16, b[16..][..k - 16])
  {
    TakeParts(b, k);
    FullLinesCons(n, b[..k]);
  }

  // ------------------------------------------------- bytes appended later

  /**
   * Bytes appended behind the pending ones do not change what `drain` does
   * with the lines before them: it prints the same lines through the same
   * writes and, if it stops at a failed write, stops at the same one, with
   * the extra bytes still pending after the old ones.
   */
  lemma {:induction false} DrainAppend(m: Machine, y: seq<byte>)
    ensures DrainSpec(m).err == Nil ==>
      DrainSpec(m.(buf := m.buf + y)) == DrainSpec(DrainSpec(m).m.(buf := DrainSpec(m).m.buf + y))
    ensures DrainSpec(m).err != Nil ==>
      DrainSpec(m.(buf := m.buf + y)) == Result(DrainSpec(m).m.(buf := DrainSpec(m).m.buf + y), DrainSpec(m).err)
    decreases |m.buf|, 1
  {
    if |m.buf| < 16 {
    } else {
      var my := m.(buf := m.buf + y);
      assert my.buf[..16] == m.buf[..16];
      var p1 := Put(m.sink, HexLayout(m.n, m.buf[..16]));
      if p1.err != Nil {
        DrainHexFails(m, p1);
        DrainHexFails(my, p1);
      } else {
        var p2 := Put(p1.sink, AsciiLine(m.buf[..16]));
        if p2.err != Nil {
          DrainAsciiFails(m, p1, p2);
          DrainAsciiFails(my, p1, p2);
        } else {
          AppendLinePrinted(m, y, p1, p2);
        }
      }
    }
  }

  lemma {:induction false} AppendLinePrinted(m: Machine, y: seq<byte>, p1: PutResult, p2: PutResult)
    requires |m.buf| >= 16 && Put(m.sink, HexLayout(m.n, m.buf[..16])) == p1 && p1.err == Nil
    requires Put(p1.sink, AsciiLine(m.buf[..16])) == p2 && p2.err == Nil
    ensures DrainSpec(m).err == Nil ==>
      DrainSpec(m.(buf := m.buf + y)) == DrainSpec(DrainSpec(m).m.(buf := DrainSpec(m).m.buf + y))
    ensures DrainSpec(m).err != Nil ==>
      DrainSpec(m.(buf := m.buf + y)) == Result(DrainSpec(m).m.(buf := DrainSpec(m).m.buf + y), DrainSpec(m).err)
    decreases |m.buf|, 0
  {
    var my := m.(buf := m.buf + y);
    assert my.buf[..16] == m.buf[..16] && my.buf[16..] == m.buf[16..] + y;
    var next := Machine(m.buf[16..], m.n + 16, m.e, p2.sink);
    DrainLinePrinted(m, p1, p2);
    DrainLinePrinted(my, p1, p2);
    DrainCong(Machine(my.buf[16..], my.n + 16, my.e, p2.sink), next.(buf := next.buf + y));
    DrainAppend(next, y);
  }

  // ------------------------------------------------- splitting the input

  /**
   * One `Write(a + b)` against `Write(a)` then `Write(b)`, from an encoder
   * with no stored error: the second call goes through exactly when the
   * single one does, and then both leave the same state and report the same
   * total count. If `Write(a)` already fails, the single write fails at the
   * same point with the same error, with b pending behind what a left.
   */
  lemma WriteSplit(m: Machine, a: seq<byte>, b: seq<byte>)
    requires m.e == Nil
    ensures WriteSpec(m, a).err == Nil ==>
      && WriteSpec(m, a + b).m == WriteSpec(WriteSpec(m, a).m, b).m
      && WriteSpec(m, a + b).err == WriteSpec(WriteSpec(m, a).m, b).err
      && (WriteSpec(m, a + b).err == Nil ==>
            WriteSpec(m, a + b).count == WriteSpec(m, a).count + WriteSpec(WriteSpec(m, a).m, b).count)
    ensures WriteSpec(m, a).err != Nil ==>
      WriteSpec(m, a + b) == WriteResult(WriteSpec(m, a).m.(buf := WriteSpec(m, a).m.buf + b), 0, WriteSpec(m, a).err)
  {
    var ma := m.(buf := m.buf + a);
    assert m.buf + (a + b) == ma.buf + b;
    DrainCong(m.(buf := m.buf + (a + b)), ma.(buf := ma.buf + b));
    DrainAppend(ma, b);
  }

  /** The encoder's invariant between calls: with no stored error, fewer than 16 bytes are pending. */
  predicate Settled(m: Machine) {
    m.e == Nil ==> |m.buf| < 16
  }

  /** `NewEncoder` starts settled, and `Write` and `Close` keep it so. */
  lemma SettledKept(m: Machine, b: seq<byte>)
    ensures Settled(Machine([], 0, Nil, m.sink))
    ensures Settled(WriteSpec(m, b).m)
    ensures Settled(m) ==> Settled(CloseSpec(m).m)
  {
  }

  /**
   * Chunk-boundary independence: from a settled encoder with no stored
   * error, writing the slices of bs one call after another makes the same
   * writes to the sink as one `Write` of all of them joined. Both end with
   * the same error, the same offset and the same output, and, when no write
   * fails, in the same state.
   */
  lemma {:induction false} WriteAllFlatten(m: Machine, bs: seq<seq<byte>>)
    requires m.e == Nil && |m.buf| < 16
    ensures WriteAll(m, bs).err == WriteSpec(m, Flatten(bs)).err
    ensures WriteAll(m, bs).m.sink == WriteSpec(m, Flatten(bs)).m.sink
    ensures WriteAll(m, bs).m.n == WriteSpec(m, Flatten(bs)).m.n
    ensures WriteAll(m, bs).m.e == WriteSpec(m, Flatten(bs)).m.e
    ensures WriteAll(m, bs).err == Nil ==> WriteAll(m, bs).m == WriteSpec(m, Flatten(bs)).m
    decreases |bs|
  {
    if bs == [] {
      assert m.(buf := m.buf + []) == m;
    } else {
      var w := WriteSpec(m, bs[0]);
      WriteSplit(m, bs[0], Flatten(bs[1..]));
      assert Flatten(bs) == bs[0] + Flatten(bs[1..]);
      if w.err == Nil {
        WriteAllFlatten(w.m, bs[1..]);
      }
    }
  }

  // ------------------------------------------------- a sink that never fails

  /** With a reliable sink, `drain` never fails and the sink stays reliable. */
  lemma {:induction false} DrainReliable(m: Machine)
    requires Reliable(m.sink)
    ensures DrainSpec(m).err == Nil && Reliable(DrainSpec(m).m.sink)
    decreases |m.buf|
  {
    if |m.buf| >= 16 {
      var p1 := Put(m.sink, HexLayout(m.n, m.buf[..16]));
      PutReliable(m.sink, HexLayout(m.n, m.buf[..16]));
      var p2 := Put(p1.sink, AsciiLine(m.buf[..16]));
      PutReliable(p1.sink, AsciiLine(m.buf[..16]));
      DrainLinePrinted(m, p1, p2);
      DrainReliable(Machine(m.buf[16..], m.n + 16, m.e, p2.sink));
    }
  }

  /** With a reliable sink and no stored error, `Write` succeeds and reports every byte. */
  lemma WriteReliable(m: Machine, b: seq<byte>)
    requires m.e == Nil && Reliable(m.sink)
    ensures WriteSpec(m, b).err == Nil && WriteSpec(m, b).count == |b| && Reliable(WriteSpec(m, b).m.sink)
  {
    DrainReliable(m.(buf := m.buf + b));
  }

  // ---------------------------------------------------------------- Close

  /** With nothing pending, `Close` prints nothing, stores `io.EOF` and succeeds. */
  lemma CloseEmpty(m: Machine)
    requires m.buf == []
    ensures CloseSpec(m) == Result(m.(e := EOF), Nil)
  {
  }

  /** After a clean close with nothing pending, every `Write` is refused with `io.EOF`. */
  lemma WriteAfterClose(m: Machine, b: seq<byte>)
    requires CloseSpec(m).err == Nil && CloseSpec(m).m.buf == []
    ensures WriteSpec(CloseSpec(m).m, b) == WriteResult(CloseSpec(m).m, 0, EOF)
  {
    var d := DrainSpec(m);
    assert |d.m.buf| == 0;
  }

  /**
   * `Close` with 1 to 15 bytes pending prints one short line for them, hex
   * part and ASCII column in two writes, whatever error is stored. The
   * pending bytes, the offset and the stored error stay as they were: an
   * error of either write is returned, the first one that fails, but not
   * stored.
   */
  lemma CloseShortLine(m: Machine)
    requires 1 <= |m.buf| < 16
    ensures CloseSpec(m).m == m.(sink := CloseSpec(m).m.sink)
    ensures m.sink.out <= CloseSpec(m).m.sink.out <= m.sink.out + Line(m.n, m.buf)
    ensures CloseSpec(m).err == Nil ==> CloseSpec(m).m.sink.out == m.sink.out + Line(m.n, m.buf)
    ensures Reliable(m.sink) ==> CloseSpec(m).err == Nil && Reliable(CloseSpec(m).m.sink)
    ensures Put(m.sink, HexLayout(m.n, m.buf)).err != Nil ==>
      CloseSpec(m).err == Put(m.sink, HexLayout(m.n, m.buf)).err
    ensures Put(m.sink, HexLayout(m.n, m.buf)).err == Nil ==>
      CloseSpec(m).err == Put(Put(m.sink, HexLayout(m.n, m.buf)).sink, AsciiLine(m.buf)).err
  {
    var h, a := HexLayout(m.n, m.buf), AsciiLine(m.buf);
    var p1 := Put(m.sink, h);
    var p2 := Put(p1.sink, a);
    ConcatAssoc(m.sink.out, h, a);
    if p1.err != Nil {
      PrefixTrans(p1.sink.out, m.sink.out + h, m.sink.out + h + a);
    } else {
      PrefixTrans(m.sink.out, p1.sink.out, p2.sink.out);
    }
    if Reliable(m.sink) {
      PutReliable(m.sink, h);
      PutReliable(p1.sink, a);
    }
  }

  /**
   * Because the pending bytes are not cleared, a second `Close` after one
   * that printed a short line prints the same line again.
   */
  lemma CloseTwice(m: Machine)
    requires 1 <= |m.buf| < 16 && Reliable(m.sink)
    ensures CloseSpec(CloseSpec(m).m).m.sink.out == m.sink.out + Line(m.n, m.buf) + Line(m.n, m.buf)
  {
    CloseShortLine(m);
    CloseShortLine(CloseSpec(m).m);
  }

  /** Once `drain` has succeeded, closing the drained encoder is closing the original one. */
  lemma CloseAfterDrain(m: Machine)
    requires DrainSpec(m).err == Nil
    ensures CloseSpec(DrainSpec(m).m) == CloseSpec(m)
  {
    var d := DrainSpec(m);
    assert DrainSpec(d.m) == Result(d.m, Nil);
  }

  /** With a reliable sink, `Close` succeeds. */
  lemma CloseReliable(m: Machine)
    requires Reliable(m.sink)
    ensures CloseSpec(m).err == Nil
  {
    DrainReliable(m);
    CloseAfterDrain(m);
    var d := DrainSpec(m);
    if d.m.buf == [] {
      CloseEmpty(d.m);
    } else {
      CloseShortLine(d.m);
    }
  }

  /** The short line for the bytes of `data` from index k on, if there are any. */
  function LastLine(n: nat, data: seq<byte>, k: nat): string
    requires k <= |data| <= k + 16
  {
    if k == |data| then [] else Line(n + k, data[k..])
  }

  /**
   * A dump is the full lines followed by the short last line: for k the
   * bytes in the full lines, k a multiple of 16 with less than 16 bytes after it.
   */
  lemma {:induction false} DumpLines(n: nat, data: seq<byte>, k: nat)
    requires k % 16 == 0 && k <= |data| < k + 16
    ensures Dump(n, data) == FullLines(n, data) + LastLine(n, data, k)
    decreases |data|
  {
    if |data| <= 16 {
      MultipleBelow16(k);
      DumpOneLine(n, data, k);
    } else {
      EarlierMultiple(k);
      DumpLines(n + 16, data[16..], k - 16);
      DumpLinesStep(n, data, k);
    }
  }

  lemma MultipleBelow16(k: nat)
    requires k % 16 == 0
    ensures k < 16 ==> k == 0
  {
  }

  lemma EarlierMultiple(k: nat)
    requires k % 16 == 0 && k > 0
    ensures k >= 16 && (k - 16) % 16 == 0
  {
  }

  /** Sixteen bytes or fewer make at most one line. */
  lemma DumpOneLine(n: nat, data: seq<byte>, k: nat)
    requires |data| <= 16 && (k == 0 || k == 16) && k <= |data| < k + 16
    ensures Dump(n, data) == FullLines(n, data) + LastLine(n, data, k)
  {
    if |data| < 16 {
      assert data[0..] == data;
    } else {
      assert data[..16] == data;
    }
  }

  /** The first line, then the dump of the rest. */
  lemma DumpLinesStep(n: nat, data: seq<byte>, k: nat)
    requires 16 <= k <= |data| < k + 16 && |data| > 16
    requires Dump(n + 16, data[16..]) == FullLines(n + 16, data[16..]) + LastLine(n + 16, data[16..], k - 16)
    ensures Dump(n, data) == FullLines(n, data) + LastLine(n, data, k)
  {
    LastLineShift(n, data, k);
    assert FullLines(n, data) == Line(n, data[..16]) + FullLines(n + 16, data[16..]);
    assert Dump(n, data) == Line(n, data[..16]) + Dump(n + 16, data[16..]);
    ConcatAssoc(Line(n, data[..16]), FullLines(n + 16, data[16..]), LastLine(n, data, k));
  }

  lemma LastLineShift(n: nat, data: seq<byte>, k: nat)
    requires 16 <= k <= |data| < k + 16
    ensures LastLine(n, data, k) == LastLine(n + 16, data[16..], k - 16)
  {
    if k != |data| {
      assert data[16..][k - 16..] == data[k..];
      LineCong(n + 16 + (k - 16), data[16..][k - 16..], n + k, data[k..]);
    }
  }

  lemma LineCong(n: nat, b: seq<byte>, n': nat, b': seq<byte>)
    requires n == n' && b == b' && 1 <= |b| <= 16
    ensures Line(n, b) == Line(n', b')
  {
  }

  /**
   * What `Close` prints: a continuation of the sink's output by a prefix of
   * the dump of the pending bytes and, when it succeeds, the whole dump.
   */
  lemma CloseOutput(m: Machine)
    ensures m.sink.out <= CloseSpec(m).m.sink.out <= m.sink.out + Dump(m.n, m.buf)
    ensures CloseSpec(m).err == Nil ==> CloseSpec(m).m.sink.out == m.sink.out + Dump(m.n, m.buf)
  {
    DrainOutput(m);
    if DrainSpec(m).err != Nil {
      DumpHasFullLines(m.sink.out, m.n, m.buf);
      PrefixTrans(DrainSpec(m).m.sink.out, m.sink.out + FullLines(m.n, m.buf), m.sink.out + Dump(m.n, m.buf));
    } else {
      CloseDrained(m);
    }
  }

  /** The full lines are where the dump starts. */
  lemma DumpHasFullLines(o: string, n: nat, data: seq<byte>)
    ensures o + FullLines(n, data) <= o + Dump(n, data)
  {
    var k := |data| - |data| % 16;
    assert k % 16 == 0 by {
      assert |data| == 16 * (|data| / 16) + |data| % 16;
    }
    DumpLines(n, data, k);
    ConcatAssoc(o, FullLines(n, data), LastLine(n, data, k));
  }

  lemma CloseDrained(m: Machine)
    requires DrainSpec(m).err == Nil && DrainSpec(m).m.sink.out == m.sink.out + FullLines(m.n, m.buf)
    ensures m.sink.out <= CloseSpec(m).m.sink.out <= m.sink.out + Dump(m.n, m.buf)
    ensures CloseSpec(m).err == Nil ==> CloseSpec(m).m.sink.out == m.sink.out + Dump(m.n, m.buf)
  {
    var d := DrainSpec(m).m;
    DumpOfDrain(m);
    CloseAfterDrain(m);
    var c := CloseSpec(d);
    if |d.buf| == 0 {
      CloseEmpty(d);
      ThenLastLine(m.sink.out, FullLines(m.n, m.buf), [], Dump(m.n, m.buf), d.sink.out, c.m.sink.out, c.err == Nil);
    } else {
      CloseShortLine(d);
      ThenLastLine(m.sink.out, FullLines(m.n, m.buf), Line(d.n, d.buf), Dump(m.n, m.buf), d.sink.out, c.m.sink.out, c.err == Nil);
    }
  }

  /** The dump of the buffer is the full lines and then the line of what a successful `drain` leaves pending. */
  lemma DumpOfDrain(m: Machine)
    requires DrainSpec(m).err == Nil
    ensures |DrainSpec(m).m.buf| == 0 ==> Dump(m.n, m.buf) == FullLines(m.n, m.buf) + []
    ensures |DrainSpec(m).m.buf| > 0 ==> Dump(m.n, m.buf) == FullLines(m.n, m.buf) + Line(DrainSpec(m).m.n, DrainSpec(m).m.buf)
  {
    DrainLeavesSuffix(m);
    DumpOfDrained(m.n, m.buf, DrainSpec(m).m.n, DrainSpec(m).m.buf);
  }

  /** The same for bytes `rest` at offset n' that are what follows the full lines of `data`. */
  lemma DumpOfDrained(n: nat, data: seq<byte>, n': nat, rest: seq<byte>)
    requires |rest| <= |data| && rest == data[|data| - |rest|..]
    requires (|data| - |rest|) % 16 == 0 && |rest| < 16 && n' == n + (|data| - |rest|)
    ensures |rest| == 0 ==> Dump(n, data) == FullLines(n, data) + []
    ensures |rest| > 0 ==> Dump(n, data) == FullLines(n, data) + Line(n', rest)
  {
    var k := |data| - |rest|;
    DumpLines(n, data, k);
  }

  /** Full lines printed, then a prefix of the last line. */
  lemma ThenLastLine(o: string, full: string, last: string, dump: string, p: string, out: string, ok: bool)
    requires dump == full + last && p == o + full
    requires p <= out <= p + last && (ok ==> out == p + last)
    ensures o <= out <= o + dump && (ok ==> out == o + dump)
  {
    ConcatAssoc(o, full, last);
    PrefixTrans(o, p, out);
  }

  /**
   * The whole run: a fresh encoder (as `NewEncoder` makes it) on a reliable
   * sink, given the slices of bs in any number of `Write` calls and then
   * closed, reports no error and prints exactly the hex dump of the bytes
   * joined, from offset 0.
   */
  lemma StreamDump(s: SinkState, bs: seq<seq<byte>>)
    requires Reliable(s)
    ensures WriteAll(Machine([], 0, Nil, s), bs).err == Nil
    ensures CloseSpec(WriteAll(Machine([], 0, Nil, s), bs).m).err == Nil
    ensures CloseSpec(WriteAll(Machine([], 0, Nil, s), bs).m).m.sink.out == s.out + Dump(0, Flatten(bs))
  {
    var m0 := Machine([], 0, Nil, s);
    var data := Flatten(bs);
    WriteAllFlatten(m0, bs);
    WriteReliable(m0, data);
    var md := Machine(data, 0, Nil, s);
    assert m0.(buf := m0.buf + data) == md;
    DrainReliable(md);
    CloseAfterDrain(md);
    CloseOutput(md);
    CloseReliable(md);
  }

  // ------------------------------------------------- failures are reported

  /**
   * `drain` makes two writes per full line and returns the error of the
   * first of them that fails, or `Nil` when every one is taken whole; in
   * that case it has used up exactly those writes' outcomes.
   */
  lemma {:induction false} DrainFailures(m: Machine)
    ensures DrainSpec(m).err == FirstFailure(m.sink.script, 2 * (|m.buf| / 16))
    ensures DrainSpec(m).err == Nil ==> DrainSpec(m).m.sink.script == Rest(m.sink.script, 2 * (|m.buf| / 16))
    decreases |m.buf|, 1
  {
    if |m.buf| < 16 {
      assert Rest(m.sink.script, 0) == m.sink.script;
    } else {
      var p1 := Put(m.sink, HexLayout(m.n, m.buf[..16]));
      PutFailure(m.sink, HexLayout(m.n, m.buf[..16]));
      if p1.err != Nil {
        DrainHexFails(m, p1);
        FirstFailureMono(m.sink.script, 1, 2 * (|m.buf| / 16));
      } else {
        var p2 := Put(p1.sink, AsciiLine(m.buf[..16]));
        PutFailure(p1.sink, AsciiLine(m.buf[..16]));
        if p2.err != Nil {
          AsciiFailure(m, p1, p2);
        } else {
          LineFailures(m, p1, p2);
        }
      }
    }
  }

  lemma AsciiFailure(m: Machine, p1: PutResult, p2: PutResult)
    requires |m.buf| >= 16 && Put(m.sink, HexLayout(m.n, m.buf[..16])) == p1 && p1.err == Nil
    requires Put(p1.sink, AsciiLine(m.buf[..16])) == p2 && p2.err != Nil
    requires p1.err == FirstFailure(m.sink.script, 1) && p1.sink.script == Rest(m.sink.script, 1)
    requires p2.err == FirstFailure(p1.sink.script, 1)
    ensures DrainSpec(m).err == FirstFailure(m.sink.script, 2 * (|m.buf| / 16))
  {
    var s, k := m.sink.script, 2 * (|m.buf| / 16);
    DrainAsciiFails(m, p1, p2);
    FirstFailureSplit(s, 1, k - 1);
    FirstFailureMono(Rest(s, 1), 1, k - 1);
  }

  lemma {:induction false} LineFailures(m: Machine, p1: PutResult, p2: PutResult)
    requires |m.buf| >= 16 && Put(m.sink, HexLayout(m.n, m.buf[..16])) == p1 && p1.err == Nil
    requires Put(p1.sink, AsciiLine(m.buf[..16])) == p2 && p2.err == Nil
    requires p1.err == FirstFailure(m.sink.script, 1) && p1.sink.script == Rest(m.sink.script, 1)
    requires p2.err == FirstFailure(p1.sink.script, 1) && p2.sink.script == Rest(p1.sink.script, 1)
    ensures DrainSpec(m).err == FirstFailure(m.sink.script, 2 * (|m.buf| / 16))
    ensures DrainSpec(m).err == Nil ==> DrainSpec(m).m.sink.script == Rest(m.sink.script, 2 * (|m.buf| / 16))
    decreases |m.buf|, 0
  {
    var k := 2 * (|m.buf| / 16);
    var next := Machine(m.buf[16..], m.n + 16, m.e, p2.sink);
    DrainLinePrinted(m, p1, p2);
    assert 2 * (|next.buf| / 16) == k - 2;
    TwoAccepted(m.sink.script, k);
    DrainFailures(next);
  }

  /**
   * With no error stored, `Write(b)` reports `(0, err)` exactly when the
   * `drain` of the buffer with b appended fails with err, and that error is
   * the first failure among the writes of the full lines.
   */
  lemma WriteFailures(m: Machine, b: seq<byte>)
    requires m.e == Nil
    ensures DrainSpec(m.(buf := m.buf + b)).err != Nil <==> WriteSpec(m, b).err != Nil
    ensures DrainSpec(m.(buf := m.buf + b)).err != Nil ==>
      WriteSpec(m, b).count == 0 && WriteSpec(m, b).err == DrainSpec(m.(buf := m.buf + b)).err
    ensures WriteSpec(m, b).err == FirstFailure(m.sink.script, 2 * (|m.buf + b| / 16))
  {
    var mb := m.(buf := m.buf + b);
    var d := DrainSpec(mb);
    DrainFailures(mb);
    if d.err != Nil {
      assert WriteSpec(m, b) == WriteResult(d.m.(e := d.err), 0, d.err);
    } else {
      assert WriteSpec(m, b) == WriteResult(d.m, |b|, Nil);
    }
  }

  /**
   * `Close` returns the error of the first failing write it makes: two per
   * full line, and two more for a short line when the length is not a
   * multiple of 16. With no failure it returns `Nil`.
   */
  lemma CloseFailures(m: Machine)
    ensures CloseSpec(m).err ==
      FirstFailure(m.sink.script, CloseWrites(|m.buf|))
  {
    DrainFailures(m);
    if DrainSpec(m).err != Nil {
      FirstFailureMono(m.sink.script, 2 * (|m.buf| / 16), CloseWrites(|m.buf|));
    } else {
      ClosingDrained(m);
    }
  }

  function CloseWrites(len: nat): nat {
    2 * (len / 16) + if len % 16 == 0 then 0 else 2
  }

  /** After a successful `drain`: nothing more, or the two writes of the short line. */
  lemma ClosingDrained(m: Machine)
    requires DrainSpec(m).err == Nil
    requires DrainSpec(m).err == FirstFailure(m.sink.script, 2 * (|m.buf| / 16))
    requires DrainSpec(m).m.sink.script == Rest(m.sink.script, 2 * (|m.buf| / 16))
    ensures CloseSpec(m).err == FirstFailure(m.sink.script, CloseWrites(|m.buf|))
  {
    DrainRemainder(m);
    CloseAfterDrain(m);
    DrainedClose(DrainSpec(m).m, m.sink.script, |m.buf|);
  }

  /** `Close` on an encoder drained from `len` bytes: nothing more, or the two writes of the short line. */
  lemma DrainedClose(d: Machine, s: seq<Outcome>, len: nat)
    requires |d.buf| == len % 16
    requires FirstFailure(s, 2 * (len / 16)) == Nil && d.sink.script == Rest(s, 2 * (len / 16))
    ensures CloseSpec(d).err == FirstFailure(s, CloseWrites(len))
  {
    if |d.buf| != 0 {
      ShortLineFailure(d);
      FirstFailureSplitAt(s, 2 * (len / 16), 2, CloseWrites(len));
    }
  }

  /** A successful `drain` leaves the length of the buffer modulo 16 pending. */
  lemma DrainRemainder(m: Machine)
    requires DrainSpec(m).err == Nil
    ensures |DrainSpec(m).m.buf| == |m.buf| % 16
  {
  }

  /** The short line of `Close` fails with the first failure among its two writes. */
  lemma ShortLineFailure(m: Machine)
    requires 1 <= |m.buf| < 16
    ensures CloseSpec(m).err == FirstFailure(m.sink.script, 2)
  {
    var r := m.sink.script;
    var p1 := Put(m.sink, HexLayout(m.n, m.buf));
    PutFailure(m.sink, HexLayout(m.n, m.buf));
    CloseShortLine(m);
    if p1.err != Nil {
      FirstFailureMono(r, 1, 2);
    } else {
      PutFailure(p1.sink, AsciiLine(m.buf));
      FirstFailureSplit(r, 1, 1);
    }
  }

  // ------------------------------------------------- the stored error

  /**
   * `drain` never consults the stored error: apart from that field, the
   * result is the same whatever error is stored.
   */
  lemma {:induction false} DrainIgnoresError(m: Machine, x: Error)
    ensures DrainSpec(m.(e := x)).err == DrainSpec(m).err
    ensures DrainSpec(m.(e := x)).m.(e := Nil) == DrainSpec(m).m.(e := Nil)
    decreases |m.buf|
  {
    if |m.buf| >= 16 {
      var mx := m.(e := x);
      var p1 := Put(m.sink, HexLayout(m.n, m.buf[..16]));
      if p1.err != Nil {
        DrainHexFails(m, p1);
        DrainHexFails(mx, p1);
      } else {
        var p2 := Put(p1.sink, AsciiLine(m.buf[..16]));
        if p2.err != Nil {
          DrainAsciiFails(m, p1, p2);
          DrainAsciiFails(mx, p1, p2);
        } else {
          var next := Machine(m.buf[16..], m.n + 16, m.e, p2.sink);
          DrainLinePrinted(m, p1, p2);
          DrainLinePrinted(mx, p1, p2);
          DrainCong(Machine(mx.buf[16..], mx.n + 16, mx.e, p2.sink), next.(e := x));
          DrainIgnoresError(next, x);
        }
      }
    }
  }

  /**
   * Nor does `Close`: with the same pending bytes, offset and sink it
   * prints the same and returns the same error, even after a failure has
   * been stored or after an earlier clean close.
   */
  lemma CloseIgnoresError(m: Machine, x: Error)
    ensures CloseSpec(m.(e := x)).err == CloseSpec(m).err
    ensures CloseSpec(m.(e := x)).m.(e := Nil) == CloseSpec(m).m.(e := Nil)
  {
    DrainIgnoresError(m, x);
  }
}
