/**
  `copyToStream` and `closeQuietly`: the byte-at-a-time copy from the source
  stream to the destination stream, after which both streams are closed on
  every path and close failures are discarded.
 */
module StreamCopier {
  import opened Platform

  /** What `InputStream.read()` returns: a byte, or -1 at end of stream. */
  type ReadResult = x: int | -1 <= x <= 255

  const Eof: ReadResult := -1

  /** A source stream: the values its successive `read()` calls return. A read
      past the last of them throws an `IOException` carrying `readError`;
      a stream that ends normally therefore has -1 among its results. */
  datatype InStream = InStream(results: seq<ReadResult>, readError: string, closeThrows: bool)

  /** A destination stream: when `accepts` is `Some(k)` the first `k` writes
      succeed and the next throws an `IOException` carrying `writeError`. */
  datatype Sink = Sink(accepts: Option<nat>, writeError: string, closeThrows: bool)

  /** The state of one stream slot of `copyToStream` (`is` or `os`). */
  datatype Handle = NoStream | Open | Closed

  /** What one call of `copyToStream` leaves behind: the bytes that reached
      the destination, the exception it ends with (if any), and both slots. */
  datatype CopyResult = CopyResult(written: seq<int>, thrown: Option<Exc>, input: Handle, output: Handle)

  /** The message of the `IOException` a failing `close()` throws. */
  const CloseFailed := "close failed"

  /** `stream.close()` on a stream that is not null: the exception it throws,
      if any. `close()` declares only `IOException`. */
  function Close(closeThrows: bool): (e: Option<Exc>)
    ensures e.Some? <==> closeThrows
    ensures e.Some? ==> e.value.IOError?
  {
    if closeThrows then Some(IOError(CloseFailed)) else None
  }

  /** A stream slot after a release, and the exception the release throws. */
  datatype Released = Released(handle: Handle, thrown: Option<Exc>)

  /** `closeQuietly`: a null stream is skipped; any other is closed, and the
      `IOException` its `close()` may throw is caught and dropped. */
  function CloseQuietly(h: Handle, closeThrows: bool): (r: Released)
    ensures r.handle != Open
    ensures r.handle == NoStream <==> h == NoStream
    ensures r.thrown.None?
  {
    if h == NoStream then Released(NoStream, None)
    else
      var e := Close(closeThrows);
      Released(Closed, if e.Some? && e.value.IOError? then None else e)
  }

  /** An exception thrown by a `finally` block replaces the one the `try`
      block ended with; otherwise the `try` block's stands. */
  function Finally(body: Option<Exc>, cleanup: Option<Exc>): (r: Option<Exc>)
    ensures cleanup.Some? ==> r == cleanup
    ensures cleanup.None? ==> r == body
  {
    if cleanup.Some? then cleanup else body
  }

  /** The data a stream delivers before its end: its reads up to, not
      including, the first -1. */
  function Payload(results: seq<ReadResult>): (p: seq<int>)
    ensures |p| <= |results|
    ensures p == results[..|p|]
    ensures forall i :: 0 <= i < |p| ==> p[i] != Eof
    ensures |p| < |results| ==> results[|p|] == Eof
  {
    if results == [] then []
    else if results[0] == Eof then []
    else [results[0] as int] + Payload(results[1..])
  }

  /** The slot `os` before the `finally` block. */
  function OutHandle(os: Option<Sink>): Handle
  {
    if os.Some? then Open else NoStream
  }

  /** Whether the destination's `close()` fails. */
  function OutCloseThrows(os: Option<Sink>): bool
  {
    os.Some? && os.value.closeThrows
  }

  /** The `finally` block of `copyToStream`, `closeQuietly(is)` then
      `closeQuietly(os)`, after a `try` block that wrote `written` and ended
      with `body`. */
  function Release(written: seq<int>, body: Option<Exc>, inHandle: Handle, inCloseThrows: bool,
                   os: Option<Sink>): CopyResult
  {
    var ri := CloseQuietly(inHandle, inCloseThrows);
    var ro := CloseQuietly(OutHandle(os), OutCloseThrows(os));
    CopyResult(written, Finally(Finally(body, ri.thrown), ro.thrown), ri.handle, ro.handle)
  }

  /** The exception the destination throws on its `n`-th write (from 0), if any:
      writing to a null stream is a null dereference. */
  function WriteFault(os: Option<Sink>, n: nat): Option<Exc>
  {
    match os
    case None => Some(NullDeref)
    case Some(s) => if s.accepts.Some? && s.accepts.value <= n then Some(IOError(s.writeError)) else None
  }

  /** Whether `os` takes `n` writes without failing. */
  predicate TakesWrites(os: Option<Sink>, n: nat)
  {
    n == 0 || (os.Some? && (os.value.accepts.None? || n <= os.value.accepts.value))
  }

  /** `copyToStream(os)`, where `attempt` is what opening the source yielded,
      stated declaratively: the stream delivers its payload, the destination
      takes it until a write fails, and whichever fault comes first ends the
      copy. */
  function Copy(attempt: Attempt<InStream>, os: Option<Sink>): (r: CopyResult)
    ensures r.input != Open && r.output != Open
    ensures r.input == Closed <==> attempt.Ok?
    ensures r.output == Closed <==> os.Some?
    ensures !attempt.Ok? ==> r.written == [] && r.thrown.Some?
    ensures attempt.Threw? ==> r.thrown == Some(attempt.error)
    ensures attempt.Null? ==> r.thrown == Some(NullDeref)
    ensures attempt.Ok? ==> StartsWith(Payload(attempt.stream.results), r.written)
    ensures attempt.Ok? && !TakesWrites(os, |Payload(attempt.stream.results)|) ==>
              if os.None? then r.thrown == Some(NullDeref) && r.written == []
              else r.thrown == Some(IOError(os.value.writeError)) && |r.written| == os.value.accepts.value
    ensures attempt.Ok? && TakesWrites(os, |Payload(attempt.stream.results)|) && Eof !in attempt.stream.results ==>
              r.thrown == Some(IOError(attempt.stream.readError)) && r.written == Payload(attempt.stream.results)
    ensures r.thrown.None? <==>
              && attempt.Ok?
              && Eof in attempt.stream.results
              && TakesWrites(os, |Payload(attempt.stream.results)|)
    ensures r.thrown.None? ==> r.written == Payload(attempt.stream.results)
  {
    match attempt
    case Threw(e) => Release([], Some(e), NoStream, false, os)
    case Null => Release([], Some(NullDeref), NoStream, false, os)
    case Ok(src) =>
      var p := Payload(src.results);
      if !TakesWrites(os, |p|) then
        var n := if os.None? then 0 else os.value.accepts.value;
        Release(p[..n], WriteFault(os, n), Open, src.closeThrows, os)
      else if |p| == |src.results| then
        Release(p, Some(IOError(src.readError)), Open, src.closeThrows, os)
      else
        Release(p, None, Open, src.closeThrows, os)
  }

  /** `copyToStream(os)` as the source writes it: read a value, stop at -1,
      otherwise write it and go on; then release both slots. */
  method CopyToStream(attempt: Attempt<InStream>, os: Option<Sink>) returns (r: CopyResult)
    ensures r == Copy(attempt, os)
  {
    if !attempt.Ok? {
      var thrown := if attempt.Threw? then attempt.error else NullDeref;
      r := Release([], Some(thrown), NoStream, false, os);
      return;
    }
    var src := attempt.stream;
    var written: seq<int> := [];
    var thrown: Option<Exc> := None;
    var i := 0;
    while true
      invariant 0 <= i <= |src.results|
      invariant written == src.results[..i]
      invariant forall j :: 0 <= j < i ==> src.results[j] != Eof
      invariant TakesWrites(os, i)
      decreases |src.results| - i
    {
      if i == |src.results| {
        thrown := Some(IOError(src.readError));
        break;
      }
      var c := src.results[i];
      if c == Eof {
        break;
      }
      var fault := WriteFault(os, i);
      if fault.Some? {
        thrown := fault;
        break;
      }
      written := written + [c as int];
      i := i + 1;
    }
    r := Release(written, thrown, Open, src.closeThrows, os);
  }

  /** The data a stream delivers is exactly what precedes its first end
      marker, whatever follows it. */
  lemma {:induction false} PayloadOfTerminated(data: seq<ReadResult>, rest: seq<ReadResult>)
    requires Eof !in data
    ensures Payload(data + [Eof] + rest) == data
  {
    if data != [] {
      assert (data + [Eof] + rest)[1..] == data[1..] + [Eof] + rest;
      PayloadOfTerminated(data[1..], rest);
    }
  }

  /** Round trip: a stream holding `data` and then its end, copied into a
      destination that takes every write, arrives whole and in order, and
      both streams end closed. */
  lemma CopyDeliversData(data: seq<ReadResult>, rest: seq<ReadResult>, readError: string, inCloseThrows: bool, out: Sink)
    requires Eof !in data
    requires out.accepts.None?
    ensures var r := Copy(Ok(InStream(data + [Eof] + rest, readError, inCloseThrows)), Some(out));
      && r.thrown.None?
      && r.written == data
      && r.input == Closed && r.output == Closed
  {
    PayloadOfTerminated(data, rest);
    assert Eof in data + [Eof] + rest by { assert (data + [Eof] + rest)[|data|] == Eof; }
  }

  /** The source attempt with its stream's `close()` set to fail or not. */
  function WithInClose(attempt: Attempt<InStream>, closeThrows: bool): Attempt<InStream>
  {
    if attempt.Ok? then Ok(attempt.stream.(closeThrows := closeThrows)) else attempt
  }

  /** The destination with its `close()` set to fail or not. */
  function WithOutClose(os: Option<Sink>, closeThrows: bool): Option<Sink>
  {
    if os.Some? then Some(os.value.(closeThrows := closeThrows)) else os
  }

  /** A failing `close()` on either stream changes nothing a caller of the
      copy can see: neither the bytes written, nor the exception, nor the
      released slots. */
  lemma CloseFailuresSwallowed(attempt: Attempt<InStream>, os: Option<Sink>, inThrows: bool, outThrows: bool)
    ensures Copy(WithInClose(attempt, inThrows), WithOutClose(os, outThrows)) == Copy(attempt, os)
  {
  }
}
