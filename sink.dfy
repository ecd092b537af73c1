/**
 * The `io.Writer` the encoder prints to, reduced to what the encoder
 * relies on: a write appends text to the output or fails with an error.
 * Which writes fail is given in advance as a script of outcomes, one per
 * write, so that every error path of the encoder can be followed.
 */
module Sinks {

  /**
   * A Go `error` value as the encoder sees it: `nil`, `io.EOF` (stored after
   * a clean close), or an error the writer returned.
   */
  datatype Error = Nil | EOF | WriteError(code: nat)

  /**
   * What the sink does with one write: take all of it, or take the first
   * `written` characters and fail with error `code`.
   */
  datatype Outcome = Accept | Fail(code: nat, written: nat)

  /** All the sink has received, and the outcomes of the writes still to come. */
  datatype SinkState = SinkState(out: string, script: seq<Outcome>)

  /** The sink after a write, and the write's error. */
  datatype PutResult = PutResult(sink: SinkState, err: Error)

  /**
   * One write of `text`. Once the script is used up the sink takes every
   * write whole.
   */
  function Put(s: SinkState, text: string): (r: PutResult)
    ensures r.sink.out <= s.out + text && s.out <= r.sink.out
    ensures r.err == Nil <==> r.sink.out == s.out + text && (s.script == [] || s.script[0] == Accept)
    ensures r.err != Nil ==> r.err.WriteError?
    ensures r.sink.script == if s.script == [] then [] else s.script[1..]
  {
    if s.script == [] then PutResult(SinkState(s.out + text, []), Nil)
    else match s.script[0]
      case Accept => PutResult(SinkState(s.out + text, s.script[1..]), Nil)
      case Fail(code, written) =>
        PutResult(SinkState(s.out + text[..if written < |text| then written else |text|], s.script[1..]), WriteError(code))
  }

  /** A sink that takes every write whole from now on. */
  predicate Reliable(s: SinkState) {
    forall i :: 0 <= i < |s.script| ==> s.script[i] == Accept
  }

  /** A reliable sink appends each write and stays reliable. */
  lemma PutReliable(s: SinkState, text: string)
    requires Reliable(s)
    ensures Put(s, text).err == Nil && Put(s, text).sink.out == s.out + text && Reliable(Put(s, text).sink)
  {
    if s.script != [] {
      assert s.script[0] == Accept;
    }
  }

  /**
   * The error of the first failing write among the next k writes, or `Nil`
   * when all k are taken whole.
   */
  function FirstFailure(script: seq<Outcome>, k: nat): Error
    decreases k
  {
    if k == 0 || script == [] then Nil
    else if script[0].Fail? then WriteError(script[0].code)
    else FirstFailure(script[1..], k - 1)
  }

  /** The outcomes still to come after k more writes. */
  function Rest(script: seq<Outcome>, k: nat): seq<Outcome>
    decreases k
  {
    if k == 0 || script == [] then script else Rest(script[1..], k - 1)
  }

  /** A write reports the error its scripted outcome names, and uses up that outcome. */
  lemma PutFailure(s: SinkState, text: string)
    ensures Put(s, text).err == FirstFailure(s.script, 1)
    ensures Put(s, text).sink.script == Rest(s.script, 1)
  {
  }

  /** Two writes in a row: the first one's error if it fails, else the second one's. */
  lemma TwoWrites(s: SinkState, first: string, second: string)
    ensures (if Put(s, first).err != Nil then Put(s, first).err else Put(Put(s, first).sink, second).err)
      == FirstFailure(s.script, 2)
  {
    PutFailure(s, first);
    PutFailure(Put(s, first).sink, second);
    if Put(s, first).err == Nil {
      FirstFailureSplit(s.script, 1, 1);
    } else {
      FirstFailureMono(s.script, 1, 2);
    }
  }

  /** Once one of the next k writes has failed, looking further ahead finds the same failure. */
  lemma {:induction false} FirstFailureMono(script: seq<Outcome>, k: nat, k': nat)
    requires FirstFailure(script, k) != Nil && k <= k'
    ensures FirstFailure(script, k') == FirstFailure(script, k)
    decreases k
  {
    if script[0].Accept? {
      FirstFailureMono(script[1..], k - 1, k' - 1);
    }
  }

  /** When the next k writes all succeed, a failure within k + j writes is one of the j after them. */
  lemma {:induction false} FirstFailureSplit(script: seq<Outcome>, k: nat, j: nat)
    requires FirstFailure(script, k) == Nil
    ensures FirstFailure(script, k + j) == FirstFailure(Rest(script, k), j)
    decreases k
  {
    if k != 0 && script != [] {
      FirstFailureSplit(script[1..], k - 1, j);
    }
  }

  /** Two writes taken whole, then k - 2 more: the failure and the outcomes left are those of the k - 2. */
  lemma TwoAccepted(script: seq<Outcome>, k: nat)
    requires 2 <= k && FirstFailure(script, 1) == Nil && FirstFailure(Rest(script, 1), 1) == Nil
    ensures FirstFailure(script, k) == FirstFailure(Rest(Rest(script, 1), 1), k - 2)
    ensures Rest(Rest(Rest(script, 1), 1), k - 2) == Rest(script, k)
  {
    FirstFailureSplit(script, 1, k - 1);
    FirstFailureSplit(Rest(script, 1), 1, k - 2);
    RestRest(script, 1, 1);
    RestRest(script, 2, k - 2);
  }

  /** `FirstFailureSplit` with the total number of writes named. */
  lemma FirstFailureSplitAt(script: seq<Outcome>, k: nat, j: nat, total: nat)
    requires FirstFailure(script, k) == Nil && total == k + j
    ensures FirstFailure(script, total) == FirstFailure(Rest(script, k), j)
  {
    FirstFailureSplit(script, k, j);
  }

  lemma {:induction false} RestRest(script: seq<Outcome>, i: nat, j: nat)
    ensures Rest(Rest(script, i), j) == Rest(script, i + j)
    decreases i
  {
    if i != 0 && script != [] {
      RestRest(script[1..], i - 1, j);
    }
  }

  /** The writer object: its output so far and the outcomes still to come. */
  class Sink {
    var out: string
    var script: seq<Outcome>

    function State(): SinkState
      reads this
    {
      SinkState(out, script)
    }

    constructor (script: seq<Outcome>)
      ensures State() == SinkState([], script)
    {
      out := [];
      this.script := script;
    }

    method Write(text: string) returns (err: Error)
      modifies this
      ensures PutResult(State(), err) == Put(old(State()), text)
    {
      if script == [] {
        out := out + text;
        err := Nil;
      } else {
        var o := script[0];
        script := script[1..];
        match o
        case Accept =>
          out := out + text;
          err := Nil;
        case Fail(code, written) =>
          out := out + text[..if written < |text| then written else |text|];
          err := WriteError(code);
      }
    }
  }
}
