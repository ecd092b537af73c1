/**
 * The encoder as a state machine over values: its three fields (`buf`,
 * `n`, `e`) and the state of the sink it prints to, and what `drain`,
 * `Write` and `Close` in encoder.go do to them. The class `Hexed.Encoder`
 * is proved to follow these functions step for step.
 */
module EncoderSpec {
  import opened Fmt
  import opened Sinks
  import opened Layout

  /** The encoder's fields, with the sink's state in place of the writer. */
  datatype Machine = Machine(buf: seq<byte>, n: nat, e: Error, sink: SinkState)

  /** The encoder after `drain` or `Close`, and the error returned. */
  datatype Result = Result(m: Machine, err: Error)

  /** The encoder after `Write`, the count returned and the error returned. */
  datatype WriteResult = WriteResult(m: Machine, count: nat, err: Error)

  /**
   * `drain`: while at least 16 bytes are pending, print one full line, hex
   * part first, then the ASCII column, and move past its 16 bytes. A failed
   * hex part is returned without being stored; a failed ASCII part is
   * stored in `e` as well. Either way the failed line's bytes stay pending.
   */
  function DrainSpec(m: Machine): (r: Result)
    ensures |r.m.buf| <= |m.buf|
    ensures (|m.buf| - |r.m.buf|) % 16 == 0 && r.m.n == m.n + (|m.buf| - |r.m.buf|)
    ensures r.err == Nil ==> |r.m.buf| < 16 && r.m.e == m.e
    ensures r.err != Nil ==> |r.m.buf| >= 16 && r.err.WriteError? && (r.m.e == m.e || r.m.e == r.err)
    decreases |m.buf|
  {
    if |m.buf| < 16 then Result(m, Nil)
    else
      var line := m.buf[..16];
      var p1 := Put(m.sink, HexLayout(m.n, line));
      if p1.err != Nil then Result(m.(sink := p1.sink), p1.err)
      else
        var p2 := Put(p1.sink, AsciiLine(line));
        if p2.err != Nil then Result(m.(sink := p2.sink, e := p2.err), p2.err)
        else
          var r := DrainSpec(Machine(m.buf[16..], m.n + 16, m.e, p2.sink));
          OneLineMore(|m.buf| - 16 - |r.m.buf|);
          r
  }

  lemma OneLineMore(k: int)
    requires k % 16 == 0
    ensures (k + 16) % 16 == 0
  {
  }

  /** What `drain` leaves pending is what follows the lines it printed. */
  lemma {:induction false} DrainLeavesSuffix(m: Machine)
    ensures DrainSpec(m).m.buf == m.buf[|m.buf| - |DrainSpec(m).m.buf|..]
    decreases |m.buf|
  {
    if |m.buf| >= 16 {
      var p1 := Put(m.sink, HexLayout(m.n, m.buf[..16]));
      if p1.err == Nil {
        var p2 := Put(p1.sink, AsciiLine(m.buf[..16]));
        if p2.err == Nil {
          var next := Machine(m.buf[16..], m.n + 16, m.e, p2.sink);
          DrainLinePrinted(m, p1, p2);
          DrainLeavesSuffix(next);
          DropTwice(m.buf, 16, |next.buf| - |DrainSpec(next).m.buf|);
        }
      }
    }
  }

  lemma DropTwice(s: seq<byte>, i: nat, j: nat)
    requires i + j <= |s|
    ensures s[i..][j..] == s[i + j..]
  {
  }

  lemma DrainCong(m: Machine, m': Machine)
    requires m == m'
    ensures DrainSpec(m) == DrainSpec(m')
  {
  }

  /** The three ways one round of `drain`'s loop can end. */
  lemma DrainHexFails(m: Machine, p1: PutResult)
    requires |m.buf| >= 16 && Put(m.sink, HexLayout(m.n, m.buf[..16])) == p1 && p1.err != Nil
    ensures DrainSpec(m) == Result(m.(sink := p1.sink), p1.err)
  {
  }

  lemma DrainAsciiFails(m: Machine, p1: PutResult, p2: PutResult)
    requires |m.buf| >= 16 && Put(m.sink, HexLayout(m.n, m.buf[..16])) == p1 && p1.err == Nil
    requires Put(p1.sink, AsciiLine(m.buf[..16])) == p2 && p2.err != Nil
    ensures DrainSpec(m) == Result(m.(sink := p2.sink, e := p2.err), p2.err)
  {
  }

  lemma DrainLinePrinted(m: Machine, p1: PutResult, p2: PutResult)
    requires |m.buf| >= 16 && Put(m.sink, HexLayout(m.n, m.buf[..16])) == p1 && p1.err == Nil
    requires Put(p1.sink, AsciiLine(m.buf[..16])) == p2 && p2.err == Nil
    ensures DrainSpec(m) == DrainSpec(Machine(m.buf[16..], m.n + 16, m.e, p2.sink))
  {
  }

  /**
   * `Write(b)`: refused with the stored error if there is one; otherwise b
   * is appended and drained, and a drain error is stored and returned with
   * a count of 0. A successful write reports all of b and leaves fewer than
   * 16 bytes pending.
   */
  function WriteSpec(m: Machine, b: seq<byte>): (r: WriteResult)
    ensures r.err == Nil ==> r.count == |b| && |r.m.buf| < 16 && r.m.e == Nil
    ensures r.err != Nil ==> r.count == 0 && r.m.e == r.err
  {
    if m.e != Nil then WriteResult(m, 0, m.e)
    else
      var d := DrainSpec(m.(buf := m.buf + b));
      if d.err != Nil then WriteResult(d.m.(e := d.err), 0, d.err)
      else WriteResult(d.m, |b|, Nil)
  }

  /**
   * `Close`: drain (storing a drain error); then, with nothing pending,
   * store `io.EOF` and report success; otherwise print one short line for
   * the pending bytes. Errors of that short line are returned and not
   * stored, and the pending bytes are not cleared. The stored error is
   * never consulted.
   */
  function CloseSpec(m: Machine): (r: Result)
    ensures r.m.buf == DrainSpec(m).m.buf && r.m.n == DrainSpec(m).m.n
    ensures r.err == Nil ==> |r.m.buf| < 16
    ensures (r.err == Nil && r.m.buf == [] && r.m.e == EOF) || (r.err != Nil && r.m.e == r.err) || r.m.e == m.e
  {
    var d := DrainSpec(m);
    if d.err != Nil then Result(d.m.(e := d.err), d.err)
    else if |d.m.buf| == 0 then Result(d.m.(e := EOF), Nil)
    else
      var p1 := Put(d.m.sink, HexLayout(d.m.n, d.m.buf));
      if p1.err != Nil then Result(d.m.(sink := p1.sink), p1.err)
      else
        var p2 := Put(p1.sink, AsciiLine(d.m.buf));
        Result(d.m.(sink := p2.sink), p2.err)
  }

  /** The full lines of bs at offsets n, n + 16, ...; a tail of fewer than 16 bytes prints nothing. */
  function FullLines(n: nat, bs: seq<byte>): string
    decreases |bs|
  {
    if |bs| < 16 then [] else Line(n, bs[..16]) + FullLines(n + 16, bs[16..])
  }

  /**
   * Full lines grow one line at a time, in input order: the line for 16
   * bytes that follow whole lines d comes after the lines of d, at offset
   * n + |d|.
   */
  lemma {:induction false} FullLinesAppend(n: nat, d: seq<byte>, l: seq<byte>)
    requires |d| % 16 == 0 && |l| == 16
    ensures FullLines(n, d + l) == FullLines(n, d) + Line(n + |d|, l)
    decreases |d|
  {
    if |d| == 0 {
      assert d + l == l && l[..16] == l && |l[16..]| == 0;
    } else {
      var d', at := d[16..], n + |d|;
      FullLinesAppend(n + 16, d', l);
      assert n + 16 + |d'| == at;
      AppendParts(d, l);
    }
  }

  lemma AppendParts(d: seq<byte>, l: seq<byte>)
    requires |d| >= 16
    ensures (d + l)[..16] == d[..16] && (d + l)[16..] == d[16..] + l
  {
  }

  /** Fewer than 16 bytes after whole lines d add no line. */
  lemma {:induction false} FullLinesShortTail(n: nat, d: seq<byte>, t: seq<byte>)
    requires |d| % 16 == 0 && |t| < 16
    ensures FullLines(n, d + t) == FullLines(n, d)
    decreases |d|
  {
    if |d| != 0 {
      FullLinesShortTail(n + 16, d[16..], t);
      assert (d + t)[..16] == d[..16] && (d + t)[16..] == d[16..] + t;
    }
  }

  /**
   * One round of `drain`'s loop, on values: after whole lines `done` have
   * been printed from `orig` and the next line is printed, the bytes moved
   * past are `done` and that line, and the output is their full lines.
   */
  lemma DrainRound(n: nat, orig: seq<byte>, done: seq<byte>, b: seq<byte>, at: nat, o: string, o1: string, o2: string)
    requires |done| % 16 == 0 && |b| >= 16 && orig == done + b && at == n + |done|
    requires o1 == o + FullLines(n, done) && o2 == o1 + Line(at, b[..16])
    ensures orig == (done + b[..16]) + b[16..] && |done + b[..16]| % 16 == 0
    ensures o2 == o + FullLines(n, done + b[..16])
  {
    var l := b[..16];
    assert b == l + b[16..];
    ConcatAssoc(done, l, b[16..]);
    assert |done + l| == |done| + 16;
    OneLineMore(|done|);
    FullLinesAppend(n, done, l);
    ConcatAssoc(o, FullLines(n, done), Line(at, l));
  }

  /**
   * The whole hex dump of `data` starting at offset n: a line per 16 bytes,
   * and a short line for what is left over, if anything.
   */
  function Dump(n: nat, data: seq<byte>): string
    decreases |data|
  {
    if |data| == 0 then []
    else if |data| <= 16 then Line(n, data)
    else Line(n, data[..16]) + Dump(n + 16, data[16..])
  }

  /** `Write` over a sequence of byte slices, one call after another. */
  function WriteAll(m: Machine, bs: seq<seq<byte>>): (r: Result)
    decreases |bs|
  {
    if bs == [] then Result(m, Nil)
    else
      var w := WriteSpec(m, bs[0]);
      if w.err != Nil then Result(w.m, w.err) else WriteAll(w.m, bs[1..])
  }

  /** The slices joined end to end. */
  function Flatten(bs: seq<seq<byte>>): seq<byte>
    decreases |bs|
  {
    if bs == [] then [] else bs[0] + Flatten(bs[1..])
  }
}
