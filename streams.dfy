/**
 * src/command.rs: the tee writer, the drain loop (`io::copy`) that pushes a
 * child's output pipe through a tee, and `output_and_write_streams`, which
 * captures a child's output while forwarding it to the caller's writers.
 */
module Streams {
  import opened Wrappers
  import opened StdIo

  // ---------------------------------------------------------------------
  // The tee writer

  /** The two sinks of a tee: `inner_a`, written first, and `inner_b`. */
  datatype TeeState = TeeState(a: SinkState, b: SinkState)

  /**
   * `TeeWrite::write`: `write_all` to A, then (only if that succeeded)
   * `write_all` to B, then report the whole chunk as written.
   */
  function TeeWriteStep(t: TeeState, buf: seq<byte>): (r: (TeeState, Result<nat, IoError>))
    // it succeeds exactly when neither sink has to accept bytes it cannot take,
    // and then both sinks received the whole chunk and its length is returned
    ensures r.1.Ok? <==> buf == [] || (t.a.failure.None? && t.b.failure.None?)
    ensures r.1.Ok? ==> r.1.value == |buf| && r.0.a.data == t.a.data + buf && r.0.b.data == t.b.data + buf
    // fail fast: when A fails, its error is returned and B is not attempted
    ensures buf != [] && t.a.failure.Some? ==> r == (t, Err(t.a.failure.value))
    // when B fails, A has already received the chunk
    ensures buf != [] && t.a.failure.None? && t.b.failure.Some? ==>
      r == (TeeState(t.a.(data := t.a.data + buf), t.b), Err(t.b.failure.value))
    // a write changes no sink's health and flushes nothing
    ensures r.0.a.failure == t.a.failure && r.0.a.flushes == t.a.flushes
    ensures r.0.b.failure == t.b.failure && r.0.b.flushes == t.b.flushes
  {
    var (a1, ra) := SinkWriteAll(t.a, buf);
    if ra.Err? then (TeeState(a1, t.b), Err(ra.error))
    else
      var (b1, rb) := SinkWriteAll(t.b, buf);
      if rb.Err? then (TeeState(a1, b1), Err(rb.error))
      else (TeeState(a1, b1), Ok(|buf|))
  }

  /** `TeeWrite::flush`: flush A, then (only if that succeeded) flush B and return B's result. */
  function TeeFlushStep(t: TeeState): (r: (TeeState, Result<(), IoError>))
    ensures t.a.failure.Some? ==> r == (t, Err(t.a.failure.value))
    ensures t.a.failure.None? ==> r.1 == SinkFlush(t.b).1
    ensures t.a.failure.None? ==> r.0.a.flushes == t.a.flushes + 1
    ensures t.a.failure.None? ==> r.0.b.flushes == t.b.flushes + (if t.b.failure.None? then 1 else 0)
    ensures r.0.a.data == t.a.data && r.0.b.data == t.b.data
    ensures r.0.a.failure == t.a.failure && r.0.b.failure == t.b.failure
  {
    var (a1, ra) := SinkFlush(t.a);
    if ra.Err? then (TeeState(a1, t.b), Err(ra.error))
    else
      var (b1, rb) := SinkFlush(t.b);
      (TeeState(a1, b1), rb)
  }

  /** `TeeWrite`: a writer that writes everything to `innerA` and then to `innerB`. */
  class TeeWrite {
    const innerA: Sink
    const innerB: Sink

    function State(): TeeState
      reads innerA, innerB
    {
      TeeState(innerA.State(), innerB.State())
    }

    /**
     * `tee(a, b)`. The two writers are two values the tee owns, so they are
     * two distinct sinks.
     */
    constructor Tee(a: Sink, b: Sink)
      requires a != b
      ensures innerA == a && innerB == b
      ensures State() == old(TeeState(a.State(), b.State()))
    {
      innerA := a;
      innerB := b;
    }

    method Write(buf: seq<byte>) returns (r: Result<nat, IoError>)
      requires innerA != innerB
      modifies innerA, innerB
      ensures (State(), r) == TeeWriteStep(old(State()), buf)
    {
      var ra := innerA.WriteAll(buf);
      if ra.Err? {
        return Err(ra.error);
      }
      var rb := innerB.WriteAll(buf);
      if rb.Err? {
        return Err(rb.error);
      }
      return Ok(|buf|);
    }

    method Flush() returns (r: Result<(), IoError>)
      requires innerA != innerB
      modifies innerA, innerB
      ensures (State(), r) == TeeFlushStep(old(State()))
    {
      var ra := innerA.Flush();
      if ra.Err? {
        return Err(ra.error);
      }
      r := innerB.Flush();
    }
  }

  // ---------------------------------------------------------------------
  // Draining a pipe through a tee

  /** One answer of `Read::read` on a child's output pipe. */
  datatype ReadResult = Bytes(chunk: seq<byte>) | ReadFailed(error: IoError)

  /**
   * The answers a pipe gives to successive reads. An empty chunk, or running
   * out of answers, is end-of-stream.
   */
  type Pipe = seq<ReadResult>

  /** The chunks a pipe yields before end-of-stream or its first read error. */
  function Chunks(p: Pipe): (cs: seq<seq<byte>>)
    ensures forall i | 0 <= i < |cs| :: cs[i] != []
  {
    if p == [] then []
    else match p[0]
      case ReadFailed(_) => []
      case Bytes(c) => if c == [] then [] else [c] + Chunks(p[1..])
  }

  /** The read error that stops a pipe before end-of-stream, if any. */
  function ReadError(p: Pipe): Option<IoError> {
    if p == [] then None
    else match p[0]
      case ReadFailed(e) => Some(e)
      case Bytes(c) => if c == [] then None else ReadError(p[1..])
  }

  function Concat(cs: seq<seq<byte>>): seq<byte> {
    if cs == [] then [] else cs[0] + Concat(cs[1..])
  }

  /** Every byte a pipe yields before end-of-stream or its first read error, in order. */
  function Delivered(p: Pipe): seq<byte> {
    Concat(Chunks(p))
  }

  /**
   * `io::copy(pipe, tee)` from tee state `t`, having copied `copied` bytes so
   * far. `io::copy` hands each chunk to `write_all`, which calls
   * `TeeWrite::write` once: that write always reports the whole chunk.
   */
  function Copy(p: Pipe, t: TeeState, copied: nat): (r: (TeeState, Result<nat, IoError>))
    // a drain only appends to the two sinks, leaves their health and flush
    // counts alone, and never reports fewer bytes than were already copied
    ensures r.0.a.failure == t.a.failure && r.0.a.flushes == t.a.flushes
    ensures r.0.b.failure == t.b.failure && r.0.b.flushes == t.b.flushes
    ensures r.1.Ok? ==> r.1.value >= copied
    decreases |p|
  {
    if p == [] then (t, Ok(copied))
    else match p[0]
      case ReadFailed(e) => (t, Err(e))
      case Bytes(c) =>
        if c == [] then (t, Ok(copied))
        else
          var (t1, w) := TeeWriteStep(t, c);
          if w.Err? then (t1, Err(w.error)) else Copy(p[1..], t1, copied + |c|)
  }

  /**
   * A drain succeeds exactly when the pipe reaches end-of-stream without a
   * read error and every chunk it yields gets through both sinks; it then
   * reports the byte count, and A and B have each received every byte, in
   * order.
   */
  lemma {:induction false} CopyOk(p: Pipe, t: TeeState, copied: nat)
    ensures var (t', r) := Copy(p, t, copied);
      && (r.Ok? <==> ReadError(p).None? && (Chunks(p) == [] || (t.a.failure.None? && t.b.failure.None?)))
      && (r.Ok? ==> r.value == copied + |Delivered(p)|
                    && t'.a.data == t.a.data + Delivered(p)
                    && t'.b.data == t.b.data + Delivered(p))
    decreases |p|
  {
    if p != [] && p[0].Bytes? && p[0].chunk != [] {
      var c := p[0].chunk;
      assert Chunks(p) == [c] + Chunks(p[1..]);
      assert ReadError(p) == ReadError(p[1..]);
      var (t1, w) := TeeWriteStep(t, c);
      if w.Ok? {
        CopyOk(p[1..], t1, copied + |c|);
        assert Copy(p, t, copied) == Copy(p[1..], t1, copied + |c|);
        assert Delivered(p) == c + Delivered(p[1..]) by {
          assert ([c] + Chunks(p[1..]))[1..] == Chunks(p[1..]);
        }
      } else {
        assert Copy(p, t, copied).1.Err?;
      }
    }
  }

  /**
   * A failed drain returns the first error met: A's when a chunk reaches a
   * broken A, B's when a chunk reaches a broken B behind a healthy A, and
   * the read error when every chunk read before it got through.
   */
  lemma {:induction false} CopyError(p: Pipe, t: TeeState, copied: nat)
    ensures var r := Copy(p, t, copied).1;
      && (r.Err? && Chunks(p) != [] && t.a.failure.Some? ==> r.error == t.a.failure.value)
      && (r.Err? && Chunks(p) != [] && t.a.failure.None? && t.b.failure.Some? ==> r.error == t.b.failure.value)
      && (r.Err? && (Chunks(p) == [] || (t.a.failure.None? && t.b.failure.None?)) ==> ReadError(p).Some? && r.error == ReadError(p).value)
    decreases |p|
  {
    if p != [] && p[0].Bytes? && p[0].chunk != [] {
      var c := p[0].chunk;
      assert Chunks(p) == [c] + Chunks(p[1..]);
      var (t1, w) := TeeWriteStep(t, c);
      if w.Ok? {
        CopyError(p[1..], t1, copied + |c|);
      }
    }
  }

  /**
   * After a drain from `t` to `t'` over chunks `cs`, B has received the first
   * `k` chunks, and A either the same or exactly one chunk more.
   */
  ghost predicate ReceivedUpTo(t: TeeState, t': TeeState, cs: seq<seq<byte>>, k: int) {
    && 0 <= k <= |cs|
    && t'.b.data == t.b.data + Concat(cs[..k])
    && (|| t'.a.data == t.a.data + Concat(cs[..k])
        || (k < |cs| && t'.a.data == t.a.data + Concat(cs[..k]) + cs[k]))
  }

  lemma ConcatTake(c: seq<byte>, rest: seq<seq<byte>>, k: nat)
    requires k <= |rest|
    ensures Concat(([c] + rest)[..k + 1]) == c + Concat(rest[..k])
  {
    assert ([c] + rest)[..k + 1] == [c] + rest[..k];
    assert ([c] + rest[..k])[1..] == rest[..k];
  }

  /** Shifting a drain's progress over the tail of the chunks by one leading chunk. */
  lemma ReceivedUpToCons(t: TeeState, t1: TeeState, t': TeeState, c: seq<byte>, rest: seq<seq<byte>>, k: int)
    requires ReceivedUpTo(t1, t', rest, k)
    requires t1.a.data == t.a.data + c && t1.b.data == t.b.data + c
    ensures ReceivedUpTo(t, t', [c] + rest, k + 1)
  {
    var cs := [c] + rest;
    ConcatTake(c, rest, k);
    if k < |rest| {
      assert cs[k + 1] == rest[k];
    }
  }

  /**
   * Whatever happens, B has received the first `k` chunks of the pipe, for
   * some `k`, and A has received either the same or exactly one chunk more
   * (the one B then failed on): A is never behind B, and never more than a
   * chunk ahead.
   */
  lemma {:induction false} CopyKeepsOrder(p: Pipe, t: TeeState, copied: nat)
    ensures exists k :: ReceivedUpTo(t, Copy(p, t, copied).0, Chunks(p), k)
    decreases |p|
  {
    var t' := Copy(p, t, copied).0;
    var cs := Chunks(p);
    if p == [] || p[0].ReadFailed? || p[0].chunk == [] {
      assert cs[..0] == [];
      assert ReceivedUpTo(t, t', cs, 0);
    } else {
      var c := p[0].chunk;
      assert cs == [c] + Chunks(p[1..]);
      assert cs[..0] == [];
      var (t1, w) := TeeWriteStep(t, c);
      if w.Err? {
        assert ReceivedUpTo(t, t', cs, 0);
      } else {
        CopyKeepsOrder(p[1..], t1, copied + |c|);
        var k :| ReceivedUpTo(t1, t', Chunks(p[1..]), k);
        ReceivedUpToCons(t, t1, t', c, Chunks(p[1..]), k);
      }
    }
  }

  /** `io::copy(&mut pipe, &mut tee)`: read until end-of-stream, writing each chunk through the tee. */
  method IoCopy(pipe: Pipe, w: TeeWrite) returns (r: Result<nat, IoError>)
    requires w.innerA != w.innerB
    modifies w.innerA, w.innerB
    ensures (w.State(), r) == Copy(pipe, old(w.State()), 0)
  {
    var i := 0;
    var copied: nat := 0;
    while i < |pipe|
      invariant 0 <= i <= |pipe|
      invariant Copy(pipe[i..], w.State(), copied) == Copy(pipe, old(w.State()), 0)
    {
      assert pipe[i..][1..] == pipe[i + 1..];
      match pipe[i]
      case ReadFailed(e) =>
        return Err(e);
      case Bytes(chunk) =>
        if chunk == [] {
          return Ok(copied);
        }
        var written := w.Write(chunk);
        if written.Err? {
          return Err(written.error);
        }
        copied := copied + |chunk|;
        i := i + 1;
    }
    return Ok(copied);
  }

  // ---------------------------------------------------------------------
  // The child process

  /**
   * What the caller can see of a spawned child: the pipe handles still held
   * in `child.stdout` and `child.stderr`, the status `wait` will report, and
   * whether `wait` has been called.
   */
  datatype ChildState = ChildState(
    stdout: Option<Pipe>,
    stderr: Option<Pipe>,
    exit: Result<ExitStatus, IoError>,
    waited: bool)

  /** `std::process::Child` as spawned with both output streams piped. */
  class Child {
    var stdout: Option<Pipe>
    var stderr: Option<Pipe>
    const exit: Result<ExitStatus, IoError>
    var waited: bool

    function State(): ChildState
      reads this
    {
      ChildState(stdout, stderr, exit, waited)
    }

    constructor Spawned(stdoutPipe: Pipe, stderrPipe: Pipe, exit: Result<ExitStatus, IoError>)
      ensures State() == ChildState(Some(stdoutPipe), Some(stderrPipe), exit, false)
    {
      stdout := Some(stdoutPipe);
      stderr := Some(stderrPipe);
      this.exit := exit;
      waited := false;
    }

    /** `mem::take(&mut child.stdout)`. */
    method TakeStdout() returns (p: Option<Pipe>)
      modifies this
      ensures p == old(stdout)
      ensures State() == old(State()).(stdout := None)
    {
      p := stdout;
      stdout := None;
    }

    /** `mem::take(&mut child.stderr)`. */
    method TakeStderr() returns (p: Option<Pipe>)
      modifies this
      ensures p == old(stderr)
      ensures State() == old(State()).(stderr := None)
    {
      p := stderr;
      stderr := None;
    }

    /** `child.wait()`. */
    method Wait() returns (r: Result<ExitStatus, IoError>)
      modifies this
      ensures r == exit
      ensures State() == old(State()).(waited := true)
    {
      waited := true;
      r := exit;
    }
  }

  // ---------------------------------------------------------------------
  // output_and_write_streams

  /**
   * A drain task's result: a taken pipe is copied through the tee; a missing
   * one (`None`) counts as `Ok(0)`, as `map_or_else(|| Ok(0), ..)` has it.
   */
  function Drain(p: Option<Pipe>, t: TeeState): (r: (TeeState, Result<nat, IoError>))
    ensures p.None? ==> r == (t, Ok(0))
    // a successful drain hands B exactly the bytes it appends to A
    ensures r.1.Ok? ==> |r.0.a.data| >= |t.a.data| && r.0.b.data == t.b.data + r.0.a.data[|t.a.data|..]
  {
    if p.None? then (t, Ok(0))
    else
      CopyOk(p.value, t, 0);
      Copy(p.value, t, 0)
  }

  /**
   * `stdout_result.and(stderr_result).and_then(|_| child.wait())`: the stdout
   * drain's error wins over the stderr drain's, and `wait`'s result is the
   * answer only when both drains succeeded.
   */
  function JoinOutcomes(out: Result<nat, IoError>, err: Result<nat, IoError>, wait: Result<ExitStatus, IoError>)
    : (r: Result<ExitStatus, IoError>)
    ensures out.Err? ==> r == Err(out.error)
    ensures out.Ok? && err.Err? ==> r == Err(err.error)
    ensures out.Ok? && err.Ok? ==> r == wait
  {
    match out
    case Err(e) => Err(e)
    case Ok(_) =>
      match err
      case Err(e) => Err(e)
      case Ok(_) => wait
  }

  /**
   * The end of one run of `output_and_write_streams`: what it returns, the
   * caller's two writers, and the child (none when spawning failed).
   */
  datatype Run = Run(
    result: Result<Output, IoError>,
    stdoutWrite: SinkState,
    stderrWrite: SinkState,
    child: Option<ChildState>)

  /**
   * Combining the two drains: `wait` is called exactly when both drains
   * succeeded, and on success the `Output` holds the status and the two
   * buffers (the A side of each tee).
   */
  function Finish(child: ChildState, out: (TeeState, Result<nat, IoError>), err: (TeeState, Result<nat, IoError>))
    : (r: Run)
    ensures r.stdoutWrite == out.0.b && r.stderrWrite == err.0.b
    ensures r.child.Some? && r.child.value.waited == (child.waited || (out.1.Ok? && err.1.Ok?))
    ensures r.result.Ok? <==> JoinOutcomes(out.1, err.1, child.exit).Ok?
    ensures r.result.Ok? ==>
      r.result.value == Output(JoinOutcomes(out.1, err.1, child.exit).value, out.0.a.data, err.0.a.data)
    ensures r.result.Err? ==> r.result.error == JoinOutcomes(out.1, err.1, child.exit).error
  {
    var waits := out.1.Ok? && err.1.Ok?;
    var status := JoinOutcomes(out.1, err.1, child.exit);
    Run(
      if status.Ok? then Ok(Output(status.value, out.0.a.data, err.0.a.data)) else Err(status.error),
      out.0.b,
      err.0.b,
      Some(child.(waited := child.waited || waits)))
  }

  /**
   * `output_and_write_streams` as written: spawn (or fail before anything
   * else happens), take `child.stdout` for the stdout drain, then take
   * `child.stdout` again for the stderr drain (src/command.rs:26) -- which is
   * `None` by then, so the stderr drain is `Ok(0)` and child.stderr is never read.
   */
  function RunAsWritten(launch: Result<ChildState, IoError>, stdoutWrite: SinkState, stderrWrite: SinkState): (r: Run)
    ensures launch.Err? ==> r == Run(Err(launch.error), stdoutWrite, stderrWrite, None)
    // the stderr writer is never written to, and nothing of stderr is captured
    ensures r.stderrWrite == stderrWrite
    ensures r.result.Ok? ==> r.result.value.stderr == []
    ensures r.result.Ok? ==> r.stdoutWrite.data == stdoutWrite.data + r.result.value.stdout
  {
    match launch
    case Err(e) => Run(Err(e), stdoutWrite, stderrWrite, None)
    case Ok(child) =>
      var out := Drain(child.stdout, TeeState(EmptyBuffer, stdoutWrite));
      var err := Drain(None, TeeState(EmptyBuffer, stderrWrite));
      Finish(child.(stdout := None), out, err)
  }

  /** `output_and_write_streams` with the stderr drain reading `child.stderr`. */
  function RunCorrected(launch: Result<ChildState, IoError>, stdoutWrite: SinkState, stderrWrite: SinkState): (r: Run)
    ensures launch.Err? ==> r == Run(Err(launch.error), stdoutWrite, stderrWrite, None)
    // on success each writer received exactly the bytes captured for its stream
    ensures r.result.Ok? ==> r.stdoutWrite.data == stdoutWrite.data + r.result.value.stdout
    ensures r.result.Ok? ==> r.stderrWrite.data == stderrWrite.data + r.result.value.stderr
  {
    match launch
    case Err(e) => Run(Err(e), stdoutWrite, stderrWrite, None)
    case Ok(child) =>
      var out := Drain(child.stdout, TeeState(EmptyBuffer, stdoutWrite));
      var err := Drain(child.stderr, TeeState(EmptyBuffer, stderrWrite));
      Finish(child.(stdout := None, stderr := None), out, err)
  }

  function LaunchState(launch: Result<Child, IoError>): Result<ChildState, IoError>
    reads if launch.Ok? then {launch.value} else {}
  {
    match launch
    case Ok(c) => Ok(c.State())
    case Err(e) => Err(e)
  }

  /** One drain task: copy the pipe if it was taken, or report `Ok(0)` if there was none. */
  method DrainTask(p: Option<Pipe>, w: TeeWrite) returns (r: Result<nat, IoError>)
    requires w.innerA != w.innerB
    modifies w.innerA, w.innerB
    ensures (w.State(), r) == Drain(p, old(w.State()))
  {
    if p.Some? {
      r := IoCopy(p.value, w);
    } else {
      r := Ok(0);
    }
  }

  /** Joining the two drain results with `and`, then `and_then(|_| child.wait())`. */
  method JoinAndWait(out: Result<nat, IoError>, err: Result<nat, IoError>, child: Child)
    returns (status: Result<ExitStatus, IoError>)
    modifies child
    ensures status == JoinOutcomes(out, err, child.exit)
    ensures child.State() == old(child.State()).(waited := old(child.waited) || (out.Ok? && err.Ok?))
  {
    if out.Err? {
      status := Err(out.error);
    } else if err.Err? {
      status := Err(err.error);
    } else {
      status := child.Wait();
    }
  }

  /**
   * `output_and_write_streams(command, stdout_write, stderr_write)`, with the
   * outcome of `spawn` given as `launch`; the drains run one after the other.
   */
  method OutputAndWriteStreams(launch: Result<Child, IoError>, stdoutWrite: Sink, stderrWrite: Sink)
    returns (r: Result<Output, IoError>)
    requires stdoutWrite != stderrWrite
    modifies stdoutWrite, stderrWrite, if launch.Ok? then {launch.value} else {}
    ensures var run := RunAsWritten(old(LaunchState(launch)), old(stdoutWrite.State()), old(stderrWrite.State()));
      && r == run.result
      && stdoutWrite.State() == run.stdoutWrite
      && stderrWrite.State() == run.stderrWrite
      && (launch.Ok? ==> run.child == Some(launch.value.State()))
  {
    var stdoutBuffer := new Sink([], None);
    var stderrBuffer := new Sink([], None);
    var stdout := new TeeWrite.Tee(stdoutBuffer, stdoutWrite);
    var stderr := new TeeWrite.Tee(stderrBuffer, stderrWrite);
    if launch.Err? {
      return Err(launch.error);
    }
    var child := launch.value;
    var stdoutPipe := child.TakeStdout();
    var stderrPipe := child.TakeStdout();
    var outDrain := DrainTask(stdoutPipe, stdout);
    var errDrain := DrainTask(stderrPipe, stderr);
    var status := JoinAndWait(outDrain, errDrain, child);
    if status.Err? {
      return Err(status.error);
    }
    return Ok(Output(status.value, stdoutBuffer.data, stderrBuffer.data));
  }

  /** `output_and_write_streams` with the stderr drain taking `child.stderr`. */
  method OutputAndWriteStreamsCorrected(launch: Result<Child, IoError>, stdoutWrite: Sink, stderrWrite: Sink)
    returns (r: Result<Output, IoError>)
    requires stdoutWrite != stderrWrite
    modifies stdoutWrite, stderrWrite, if launch.Ok? then {launch.value} else {}
    ensures var run := RunCorrected(old(LaunchState(launch)), old(stdoutWrite.State()), old(stderrWrite.State()));
      && r == run.result
      && stdoutWrite.State() == run.stdoutWrite
      && stderrWrite.State() == run.stderrWrite
      && (launch.Ok? ==> run.child == Some(launch.value.State()))
  {
    var stdoutBuffer := new Sink([], None);
    var stderrBuffer := new Sink([], None);
    var stdout := new TeeWrite.Tee(stdoutBuffer, stdoutWrite);
    var stderr := new TeeWrite.Tee(stderrBuffer, stderrWrite);
    if launch.Err? {
      return Err(launch.error);
    }
    var child := launch.value;
    var stdoutPipe := child.TakeStdout();
    var stderrPipe := child.TakeStderr();
    var outDrain := DrainTask(stdoutPipe, stdout);
    var errDrain := DrainTask(stderrPipe, stderr);
    var status := JoinAndWait(outDrain, errDrain, child);
    if status.Err? {
      return Err(status.error);
    }
    return Ok(Output(status.value, stdoutBuffer.data, stderrBuffer.data));
  }

  // ---------------------------------------------------------------------
  // What a run promises

  /** A spawn failure is returned before any drain starts: no writer is touched and no child exists. */
  lemma SpawnFailureTouchesNothing(e: IoError, stdoutWrite: SinkState, stderrWrite: SinkState)
    ensures RunAsWritten(Err(e), stdoutWrite, stderrWrite) == Run(Err(e), stdoutWrite, stderrWrite, None)
    ensures RunCorrected(Err(e), stdoutWrite, stderrWrite) == Run(Err(e), stdoutWrite, stderrWrite, None)
  {
  }

  /**
   * A run as written succeeds exactly when the stdout pipe drains cleanly
   * into the stdout writer and `wait` succeeds. Its `Output` then holds the
   * exit status, every byte of stdout (exactly what the stdout writer
   * received, independently of what that writer held before), and an empty
   * stderr; the stderr writer is never touched. `wait` is called exactly
   * when the drain succeeded.
   */
  lemma RunAsWrittenOutcome(child: ChildState, pipe: Pipe, stdoutWrite: SinkState, stderrWrite: SinkState)
    requires child.stdout == Some(pipe) && !child.waited
    ensures var run := RunAsWritten(Ok(child), stdoutWrite, stderrWrite);
      var drained := ReadError(pipe).None? && (Chunks(pipe) == [] || stdoutWrite.failure.None?);
      && (run.result.Ok? <==> drained && child.exit.Ok?)
      && (run.result.Ok? ==>
            && run.result.value == Output(child.exit.value, Delivered(pipe), [])
            && run.stdoutWrite.data == stdoutWrite.data + Delivered(pipe))
      && run.stderrWrite == stderrWrite
      && run.child == Some(child.(stdout := None, waited := drained))
  {
    CopyOk(pipe, TeeState(EmptyBuffer, stdoutWrite), 0);
  }

  /**
   * With the stderr drain reading `child.stderr`, a run succeeds exactly when
   * both pipes drain cleanly and `wait` succeeds; its `Output` then holds the
   * exit status and every byte of each stream, which is exactly what each
   * writer received.
   */
  lemma RunCorrectedOutcome(child: ChildState, outPipe: Pipe, errPipe: Pipe, stdoutWrite: SinkState, stderrWrite: SinkState)
    requires child.stdout == Some(outPipe) && child.stderr == Some(errPipe) && !child.waited
    ensures var run := RunCorrected(Ok(child), stdoutWrite, stderrWrite);
      var outDrained := ReadError(outPipe).None? && (Chunks(outPipe) == [] || stdoutWrite.failure.None?);
      var errDrained := ReadError(errPipe).None? && (Chunks(errPipe) == [] || stderrWrite.failure.None?);
      && (run.result.Ok? <==> outDrained && errDrained && child.exit.Ok?)
      && (run.result.Ok? ==>
            && run.result.value == Output(child.exit.value, Delivered(outPipe), Delivered(errPipe))
            && run.stdoutWrite.data == stdoutWrite.data + Delivered(outPipe)
            && run.stderrWrite.data == stderrWrite.data + Delivered(errPipe))
      && run.child.value.waited == (outDrained && errDrained)
  {
    CopyOk(outPipe, TeeState(EmptyBuffer, stdoutWrite), 0);
    CopyOk(errPipe, TeeState(EmptyBuffer, stderrWrite), 0);
  }

  /**
   * When the stdout drain fails, whatever the stderr drain gives, the stdout
   * drain's error is the one returned, and the child is not waited on.
   */
  lemma RunCorrectedStdoutErrorWins(child: ChildState, stdoutWrite: SinkState, stderrWrite: SinkState)
    requires child.stdout.Some? && child.stderr.Some? && !child.waited
    requires Copy(child.stdout.value, TeeState(EmptyBuffer, stdoutWrite), 0).1.Err?
    ensures var run := RunCorrected(Ok(child), stdoutWrite, stderrWrite);
      && run.result == Err(Copy(child.stdout.value, TeeState(EmptyBuffer, stdoutWrite), 0).1.error)
      && !run.child.value.waited
  {
  }

  /** "Hello World!" in ASCII. */
  const HelloWorld: seq<byte> := [0x48, 0x65, 0x6C, 0x6C, 0x6F, 0x20, 0x57, 0x6F, 0x72, 0x6C, 0x64, 0x21]

  /**
   * `echo -n "Hello World!"` run into two empty `Vec`s: both the stdout writer
   * and the captured stdout hold the text, both stderrs are empty, and the
   * status code is 0.
   */
  lemma EchoHelloWorld()
    ensures var child := ChildState(Some([Bytes(HelloWorld)]), Some([]), Ok(Exited(0)), false);
      var run := RunAsWritten(Ok(child), EmptyBuffer, EmptyBuffer);
      && run.stdoutWrite.data == HelloWorld
      && run.stderrWrite.data == []
      && run.result.Ok?
      && run.result.value.status.Code() == Some(0)
      && run.result.value.stdout == HelloWorld
      && run.result.value.stderr == []
  {
    var child := ChildState(Some([Bytes(HelloWorld)]), Some([]), Ok(Exited(0)), false);
    RunAsWrittenOutcome(child, [Bytes(HelloWorld)], EmptyBuffer, EmptyBuffer);
    assert [Bytes(HelloWorld)][1..] == [];
    assert Chunks([Bytes(HelloWorld)]) == [HelloWorld];
    assert Delivered([Bytes(HelloWorld)]) == HelloWorld by {
      assert [HelloWorld][1..] == [];
      assert Concat([HelloWorld]) == HelloWorld + Concat([]);
      assert HelloWorld + [] == HelloWorld;
    }
  }

  /** "oops" in ASCII. */
  const Oops: seq<byte> := [0x6F, 0x6F, 0x70, 0x73]

  /**
   * A child that writes "oops" to stderr and exits 0: as written, the
   * captured stderr is empty and the stderr writer receives nothing; with the
   * stderr drain reading `child.stderr`, both hold "oops".
   */
  lemma StderrDroppedAsWritten()
    ensures var child := ChildState(Some([]), Some([Bytes(Oops)]), Ok(Exited(0)), false);
      && RunAsWritten(Ok(child), EmptyBuffer, EmptyBuffer).result == Ok(Output(Exited(0), [], []))
      && RunAsWritten(Ok(child), EmptyBuffer, EmptyBuffer).stderrWrite.data == []
      && RunCorrected(Ok(child), EmptyBuffer, EmptyBuffer).result == Ok(Output(Exited(0), [], Oops))
      && RunCorrected(Ok(child), EmptyBuffer, EmptyBuffer).stderrWrite.data == Oops
  {
    var child := ChildState(Some([]), Some([Bytes(Oops)]), Ok(Exited(0)), false);
    RunAsWrittenOutcome(child, [], EmptyBuffer, EmptyBuffer);
    RunCorrectedOutcome(child, [], [Bytes(Oops)], EmptyBuffer, EmptyBuffer);
    assert [Bytes(Oops)][1..] == [];
    assert Chunks([Bytes(Oops)]) == [Oops];
    assert Delivered([Bytes(Oops)]) == Oops by {
      assert [Oops][1..] == [];
      assert Concat([Oops]) == Oops + Concat([]);
      assert Oops + [] == Oops;
    }
  }
}
