/**
 * The parts of Rust's standard library that the crate's core leans on:
 * bytes, `io::Error`, `process::ExitStatus` (Unix), `process::Output`, and
 * an abstract `io::Write` sink.
 */
module StdIo {
  import opened Wrappers

  /** Rust's `u8`. */
  type byte = b: int | 0 <= b < 0x100

  /** Rust's `i32` (C's `int`), the width of raw OS error codes and wait statuses. */
  type i32 = x: int | -0x8000_0000 <= x < 0x8000_0000

  /**
   * `std::io::Error`: the raw OS error code it carries, if any, and the text
   * its `Display` implementation prints.
   */
  datatype IoError = IoError(rawOsError: Option<i32>, message: string)

  /**
   * `std::process::ExitStatus` on Unix: a raw wait status as `waitpid`
   * reports it (`ExitStatusExt::from_raw` builds one from any `i32`).
   */
  datatype ExitStatus = ExitStatus(raw: i32) {

    /** `ExitStatus::success`: std treats exactly the raw status 0 as success. */
    predicate Success() {
      raw == 0
    }

    /**
     * `ExitStatus::code`: `WEXITSTATUS` when `WIFEXITED`, otherwise none.
     * `raw & 0x7f` is `raw % 0x80` and `(raw >> 8) & 0xff` is
     * `(raw / 0x100) % 0x100` on two's complement, which Dafny's Euclidean
     * division and remainder reproduce for negative values as well.
     */
    function Code(): (r: Option<int>)
      ensures r.Some? ==> 0 <= r.value < 0x100
      ensures Success() ==> r == Some(0)
    {
      if raw % 0x80 == 0 then Some((raw / 0x100) % 0x100) else None
    }
  }

  /** The status a process that called `exit(code)` reports. */
  function Exited(code: int): (s: ExitStatus)
    requires 0 <= code < 0x100
    ensures s.Code() == Some(code)
    ensures s.Success() <==> code == 0
  {
    ExitStatus(code * 0x100)
  }

  /** `std::process::Output`. */
  datatype Output = Output(status: ExitStatus, stdout: seq<byte>, stderr: seq<byte>)

  /**
   * The observable state of an `io::Write` sink: the bytes it has accepted,
   * the error it fails with once broken (a healthy sink has none), and how
   * many times it has been flushed.
   */
  datatype SinkState = SinkState(data: seq<byte>, failure: Option<IoError>, flushes: nat)

  /** A fresh, healthy, empty sink, as `Vec::new()`. */
  const EmptyBuffer := SinkState([], None, 0)

  /**
   * `Write::write_all` on a sink: an empty buffer is accepted without touching
   * the sink (the default `write_all` loop never calls `write`); otherwise a
   * broken sink fails with its error and a healthy one appends the whole buffer.
   */
  function SinkWriteAll(s: SinkState, buf: seq<byte>): (r: (SinkState, Result<(), IoError>))
    ensures r.1.Ok? <==> buf == [] || s.failure.None?
    ensures r.1.Ok? ==> r.0 == s.(data := s.data + buf)
    ensures r.1.Err? ==> r.0 == s && r.1.error == s.failure.value
  {
    if buf == [] then (s, Ok(()))
    else if s.failure.Some? then (s, Err(s.failure.value))
    else (s.(data := s.data + buf), Ok(()))
  }

  /** `Write::flush` on a sink: a broken sink fails, a healthy one counts the flush. */
  function SinkFlush(s: SinkState): (r: (SinkState, Result<(), IoError>))
    ensures r.1.Ok? <==> s.failure.None?
    ensures r.1.Ok? ==> r.0 == s.(flushes := s.flushes + 1)
    ensures r.1.Err? ==> r.0 == s && r.1.error == s.failure.value
  {
    if s.failure.Some? then (s, Err(s.failure.value))
    else (s.(flushes := s.flushes + 1), Ok(()))
  }

  /** A byte sink updated in place: a `Vec<u8>` buffer or a caller's writer. */
  class Sink {
    var data: seq<byte>
    var failure: Option<IoError>
    var flushes: nat

    function State(): SinkState
      reads this
    {
      SinkState(data, failure, flushes)
    }

    constructor (data: seq<byte>, failure: Option<IoError>)
      ensures State() == SinkState(data, failure, 0)
    {
      this.data := data;
      this.failure := failure;
      this.flushes := 0;
    }

    method WriteAll(buf: seq<byte>) returns (r: Result<(), IoError>)
      modifies this
      ensures (State(), r) == SinkWriteAll(old(State()), buf)
    {
      if buf == [] {
        r := Ok(());
      } else if failure.Some? {
        r := Err(failure.value);
      } else {
        data := data + buf;
        r := Ok(());
      }
    }

    method Flush() returns (r: Result<(), IoError>)
      modifies this
      ensures (State(), r) == SinkFlush(old(State()))
    {
      if failure.Some? {
        r := Err(failure.value);
      } else {
        flushes := flushes + 1;
        r := Ok(());
      }
    }
  }
}
