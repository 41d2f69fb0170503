/**
 * The logger: level filter, closed flag, rendering through an encoder, ordered fan-out
 * to the registered writers, and recycling of the record and the buffer.
 *
 * Writers are known by an identifier; what they are asked to do is recorded, in order,
 * in a shared Sink. The flush goroutine is not modelled: the flush channel is a
 * one-slot flag that the goroutine would drain.
 */
module Logging {
  import opened Levels
  import opened Values
  import opened TypeEncoding
  import opened Records
  import TextEncoding
  import JsonEncoding

  /** The two encoders a logger can be given. */
  datatype Encoder = TextEnc(text: TextEncoding.TextEncoder) | JsonEnc(json: JsonEncoding.JSONEncoder)

  /** The bytes an encoder produces for a record. */
  function Line(enc: Encoder, rt: Runtime, r: RecordView): string
  {
    match enc
    case TextEnc(t) => TextEncoding.TextLine(t, rt, r)
    case JsonEnc(j) => JsonEncoding.JsonLine(j, rt, r)
  }

  /** Either encoding of a record ends with a newline (newlines inside values pass through as they are). */
  lemma LineEndsWithNewline(enc: Encoder, rt: Runtime, r: RecordView)
    ensures |Line(enc, rt, r)| > 0 && Line(enc, rt, r)[|Line(enc, rt, r)| - 1] == '\n'
  {
    match enc
    case TextEnc(t) => TextEncoding.TextLineEndsWithNewline(t, rt, r);
    case JsonEnc(j) => JsonEncoding.JsonLineBraces(j, rt, r);
  }

  /** Encoder.Encode: only the JSON encoder changes the record (its Format). */
  method EncodeRecord(enc: Encoder, rt: Runtime, buf: Buffer, log: Log)
    modifies buf, log`format
    ensures buf.data == old(buf.data) + Line(enc, rt, old(log.View()))
    ensures enc.TextEnc? ==> log.format == old(log.format)
    ensures enc.JsonEnc? ==> log.format == JsonEncoding.JsonFormat(old(log.prefix), old(log.format))
  {
    match enc
    case TextEnc(t) => TextEncoding.Encode(t, rt, buf, log);
    case JsonEnc(j) => JsonEncoding.Encode(j, rt, buf, log);
  }

  type WriterId = nat

  /** One call on a Writer. */
  datatype WriterCall = Wrote(w: WriterId, level: Level, bytes: string) | Flushed(w: WriterId) | Closed(w: WriterId)

  /** The calls on all writers, in the order they were made. */
  class Sink {
    var calls: seq<WriterCall>

    constructor ()
      ensures calls == []
    {
      calls := [];
    }

    method Write(w: WriterId, level: Level, bytes: string)
      modifies this
      ensures calls == old(calls) + [Wrote(w, level, bytes)]
    {
      calls := calls + [Wrote(w, level, bytes)];
    }

    method Close(w: WriterId)
      modifies this
      ensures calls == old(calls) + [Closed(w)]
    {
      calls := calls + [Closed(w)];
    }
  }

  /** The Write calls of one fan-out: every writer once, in registration order. */
  function WriteCalls(ws: seq<WriterId>, level: Level, bytes: string): (r: seq<WriterCall>)
    ensures |r| == |ws|
    ensures forall i :: 0 <= i < |ws| ==> r[i] == Wrote(ws[i], level, bytes)
  {
    if ws == [] then [] else WriteCalls(ws[..|ws| - 1], level, bytes) + [Wrote(ws[|ws| - 1], level, bytes)]
  }

  /** The Close calls of Close: every writer once, in registration order. */
  function CloseCalls(ws: seq<WriterId>): (r: seq<WriterCall>)
    ensures |r| == |ws|
    ensures forall i :: 0 <= i < |ws| ==> r[i] == Closed(ws[i])
  {
    if ws == [] then [] else CloseCalls(ws[..|ws| - 1]) + [Closed(ws[|ws| - 1])]
  }

  /** A buffered channel of capacity one, and whether it has been closed. */
  class FlushChan {
    var pending: bool
    var closed: bool

    constructor ()
      ensures !pending && !closed
    {
      pending := false;
      closed := false;
    }
  }

  /** Write's filter: the record reaches the writers only at or above the logger's level, and only while it is open. */
  predicate Accepts(recordLevel: Level, loggerLevel: Level, closed: bool)
  {
    recordLevel >= loggerLevel && !closed
  }

  /** How a call ends: normally, by a panic with a message, or by os.Exit. */
  datatype Outcome = Returned | Panicked(msg: string) | Exited(code: int)

  const NanosPerSecond := 1_000_000_000

  /** New's flush period: zero seconds means thirty. */
  function FlushSeconds(flushSeconds: int): (s: int)
    ensures flushSeconds == 0 ==> s == 30
    ensures flushSeconds != 0 ==> s == flushSeconds
  {
    if flushSeconds == 0 then 30 else flushSeconds
  }

  class Logger {
    var encoder: Encoder
    var level: Level
    var writers: seq<WriterId>
    var prefix: string
    var flushInterval: int
    var flush: FlushChan?
    var closed: bool
    /** fmt, time and encoding/json, as the encoders see them. */
    const rt: Runtime
    /** The writers' side of the calls. */
    const sink: Sink
    /** The package's record and buffer pools. */
    const logs: LogPool
    const bufs: BufferPool

    /** The pools are well formed, and there is a flush channel exactly for levels up to Fatal. */
    ghost predicate Valid()
      reads this, logs, bufs, logs.free, bufs.free
    {
      logs.Valid() && bufs.Valid() && (flush != null <==> level <= LevelMax)
    }

    /**
     * New: a zero flush period becomes thirty seconds; a logger whose level is above
     * Fatal gets neither a flush channel nor a period. (backlog is defaulted and never used.)
     */
    constructor (level: Level, flushSeconds: int, encoder: Encoder, rt: Runtime,
                 sink: Sink, logs: LogPool, bufs: BufferPool)
      requires logs.Valid() && bufs.Valid()
      ensures Valid()
      ensures this.level == level && this.encoder == encoder && this.rt == rt
      ensures this.sink == sink && this.logs == logs && this.bufs == bufs
      ensures writers == [] && prefix == [] && !closed
      ensures level <= LevelMax ==> flush != null && fresh(flush) && !flush.pending && !flush.closed
      ensures flushInterval == (if level <= LevelMax then FlushSeconds(flushSeconds) * NanosPerSecond else 0)
    {
      this.level := level;
      this.encoder := encoder;
      this.rt := rt;
      this.sink := sink;
      this.logs := logs;
      this.bufs := bufs;
      writers := [];
      prefix := [];
      closed := false;
      if level <= LevelMax {
        flush := new FlushChan();
        flushInterval := FlushSeconds(flushSeconds) * NanosPerSecond;
      } else {
        flush := null;
        flushInterval := 0;
      }
    }

    /** AddWriter: the writer goes to the end of the list. */
    method AddWriter(w: WriterId) returns (r: Logger)
      modifies this`writers
      ensures r == this && writers == old(writers) + [w]
    {
      writers := writers + [w];
      r := this;
    }

    /**
     * Prefix: the receiver itself when the prefix is the same; otherwise a new logger
     * equal to it in everything but the prefix (it shares the flush channel, the writer
     * list and the pools, and copies the closed flag as it is now).
     */
    method Prefix(p: string) returns (r: Logger)
      ensures p == prefix ==> r == this
      ensures p != prefix ==> fresh(r) && r.prefix == p
      ensures p != prefix ==> r.encoder == encoder && r.level == level && r.writers == writers
      ensures p != prefix ==> r.flushInterval == flushInterval && r.flush == flush && r.closed == closed
      ensures p != prefix ==> r.rt == rt && r.sink == sink && r.logs == logs && r.bufs == bufs
    {
      if p == prefix {
        return this;
      }
      r := new Logger.Copy(this, p);
    }

    /** `nl := *l; nl.prefix = p`. */
    constructor Copy(l: Logger, p: string)
      ensures prefix == p && encoder == l.encoder && level == l.level && writers == l.writers
      ensures flushInterval == l.flushInterval && flush == l.flush && closed == l.closed
      ensures rt == l.rt && sink == l.sink && logs == l.logs && bufs == l.bufs
    {
      encoder := l.encoder;
      level := l.level;
      writers := l.writers;
      prefix := p;
      flushInterval := l.flushInterval;
      flush := l.flush;
      closed := l.closed;
      rt := l.rt;
      sink := l.sink;
      logs := l.logs;
      bufs := l.bufs;
    }

    /**
     * Flush: nothing on a closed logger or one without a channel; otherwise a request
     * is left in the one slot, and a request made while one is pending is dropped.
     * A send on a channel that another copy has closed panics.
     */
    method Flush() returns (out: Outcome)
      modifies flush
      ensures closed || flush == null ==> out == Returned && (flush != null ==> flush.pending == old(flush.pending))
      ensures !closed && flush != null && old(flush.closed) ==> out.Panicked? && flush.pending == old(flush.pending)
      ensures !closed && flush != null && !old(flush.closed) ==> out == Returned && flush.pending
      ensures flush != null ==> flush.closed == old(flush.closed)
    {
      out := Returned;
      if !closed && flush != null {
        if flush.closed {
          out := Panicked("send on closed channel");
        } else if !flush.pending {
          flush.pending := true;
        }
      }
    }

    /** markClosed: true exactly for the call that sets the flag. */
    method MarkClosed() returns (swapped: bool)
      modifies this`closed
      ensures swapped == !old(closed) && closed
    {
      swapped := !closed;
      closed := true;
    }

    /**
     * Close: only the first call does anything. It closes every writer once, in order,
     * then closes the flush channel, which panics when there is none (level above
     * Fatal) or when a copy made by Prefix has closed it already.
     */
    method Close() returns (out: Outcome)
      modifies this`closed, sink, flush
      ensures closed
      ensures old(closed) ==> out == Returned && sink.calls == old(sink.calls)
      ensures old(closed) && flush != null ==> flush.closed == old(flush.closed)
      ensures !old(closed) ==> sink.calls == old(sink.calls) + CloseCalls(writers)
      ensures !old(closed) && flush == null ==> out == Panicked("close of nil channel")
      ensures !old(closed) && flush != null ==> flush.closed
      ensures !old(closed) && flush != null ==>
        out == (if old(flush.closed) then Panicked("close of closed channel") else Returned)
      ensures flush != null ==> flush.pending == old(flush.pending)
    {
      var first := MarkClosed();
      if !first {
        return Returned;
      }
      CloseWriters();
      if flush == null {
        out := Panicked("close of nil channel");
      } else if flush.closed {
        out := Panicked("close of closed channel");
      } else {
        flush.closed := true;
        out := Returned;
      }
    }

    /** The loop of Close over the writers. */
    method CloseWriters()
      modifies sink
      ensures sink.calls == old(sink.calls) + CloseCalls(writers)
    {
      var i := 0;
      while i < |writers|
        invariant 0 <= i <= |writers|
        invariant sink.calls == old(sink.calls) + CloseCalls(writers[..i])
      {
        assert writers[..i + 1][..i] == writers[..i];
        sink.Close(writers[i]);
        i := i + 1;
      }
      assert writers[..i] == writers;
    }

    /** The fan-out loop of Write. */
    method FanOut(lvl: Level, bytes: string)
      modifies sink
      ensures sink.calls == old(sink.calls) + WriteCalls(writers, lvl, bytes)
    {
      var i := 0;
      while i < |writers|
        invariant 0 <= i <= |writers|
        invariant sink.calls == old(sink.calls) + WriteCalls(writers[..i], lvl, bytes)
      {
        assert writers[..i + 1][..i] == writers[..i];
        sink.Write(writers[i], lvl, bytes);
        i := i + 1;
      }
      assert writers[..i] == writers;
    }

    /** allocBuffer, Encode, freeBuffer: the bytes of the record, with the buffer back in the pool. */
    method Render(log: Log) returns (bytes: string)
      requires bufs.Valid()
      modifies bufs, bufs.free, log`format
      ensures bufs.Valid()
      ensures bytes == Line(encoder, rt, old(log.View()))
      ensures old(bufs.free) != [] ==> bufs.free == old(bufs.free)
      ensures old(bufs.free) == [] ==> |bufs.free| == 1
    {
      var buf := bufs.Alloc();
      EncodeRecord(encoder, rt, buf, log);
      bytes := buf.data;
      bufs.Free(buf);
    }

    /**
     * Write: a record below the logger's level, or one sent to a closed logger, reaches
     * no writer and is released. Otherwise it is encoded once, every writer receives
     * the same level and bytes in registration order, the buffer and the record are
     * released, and then Panic panics with the bytes and Fatal closes the logger and exits.
     */
    method Write(log: Log) returns (out: Outcome)
      requires Valid() && log !in logs.free
      modifies this`closed, flush, sink, logs, bufs, log, bufs.free
      ensures Valid()
      ensures log.IsReset() && log.time == old(log.time) && logs.free == old(logs.free) + [log]
      ensures !Accepts(old(log.level), level, old(closed)) ==>
        out == Returned && sink.calls == old(sink.calls) && bufs.free == old(bufs.free) && closed == old(closed)
      ensures Accepts(old(log.level), level, old(closed)) && old(log.level) != Fatal ==>
        sink.calls == old(sink.calls) + WriteCalls(writers, old(log.level), Line(encoder, rt, old(log.View())))
        && !closed
      ensures Accepts(old(log.level), level, old(closed)) && old(log.level) == Fatal ==>
        sink.calls == old(sink.calls) + WriteCalls(writers, old(log.level), Line(encoder, rt, old(log.View())))
                      + CloseCalls(writers)
        && closed && flush != null && flush.closed
        && out == (if old(flush.closed) then Panicked("close of closed channel") else Exited(-1))
      ensures Accepts(old(log.level), level, old(closed)) && old(log.level) == Panic ==>
        out == Panicked(Line(encoder, rt, old(log.View())))
      ensures Accepts(old(log.level), level, old(closed)) && old(log.level) != Panic && old(log.level) != Fatal ==>
        out == Returned
      ensures flush != null ==> flush.pending == old(flush.pending)
      ensures flush != null && !(Accepts(old(log.level), level, old(closed)) && old(log.level) == Fatal) ==>
        flush.closed == old(flush.closed)
      ensures old(bufs.free) != [] ==> bufs.free == old(bufs.free)
      ensures old(bufs.free) == [] ==> |bufs.free| <= 1
    {
      var lvl := log.level;
      if lvl < level || closed {
        logs.Free(log);
        return Returned;
      }
      var bytes := Emit(log);
      out := Finish(lvl, bytes);
    }

    /** The accepted path of Write up to the level switch: encode, fan out, release. */
    method Emit(log: Log) returns (bytes: string)
      requires Valid() && log !in logs.free
      modifies sink, logs, bufs, log, bufs.free
      ensures Valid()
      ensures log.IsReset() && log.time == old(log.time) && logs.free == old(logs.free) + [log]
      ensures bytes == Line(encoder, rt, old(log.View()))
      ensures sink.calls == old(sink.calls) + WriteCalls(writers, old(log.level), bytes)
      ensures old(bufs.free) != [] ==> bufs.free == old(bufs.free)
      ensures old(bufs.free) == [] ==> |bufs.free| <= 1
    {
      var lvl := log.level;
      bytes := Render(log);
      FanOut(lvl, bytes);
      logs.Free(log);
    }

    /** The level switch at the end of Write: Panic panics with the bytes, Fatal closes and exits. */
    method Finish(lvl: Level, bytes: string) returns (out: Outcome)
      requires Valid() && Accepts(lvl, level, closed)
      modifies this`closed, sink, flush
      ensures Valid()
      ensures lvl != Fatal ==> sink.calls == old(sink.calls) && !closed
      ensures lvl == Fatal ==> sink.calls == old(sink.calls) + CloseCalls(writers)
      ensures lvl == Fatal ==> closed && flush != null && flush.closed
      ensures lvl == Fatal ==> out == (if old(flush.closed) then Panicked("close of closed channel") else Exited(-1))
      ensures lvl == Panic ==> out == Panicked(bytes)
      ensures lvl != Panic && lvl != Fatal ==> out == Returned
      ensures flush != null ==> flush.pending == old(flush.pending)
      ensures flush != null && lvl != Fatal ==> flush.closed == old(flush.closed)
    {
      out := Returned;
      if lvl == Panic {
        out := Panicked(bytes);
      } else if lvl == Fatal {
        var c := Close();
        out := if c.Panicked? then c else Exited(-1);
      }
    }

    /** newLog: a pooled record stamped with the time, the prefix and this logger. */
    method NewLog(p: string, now: Instant) returns (log: Log)
      requires Valid()
      modifies logs, logs.free
      ensures Valid()
      ensures log.level == 0 && log.position == [] && log.format == [] && log.args == [] && log.fields == []
      ensures log.time == now && log.prefix == p && log.logger == this
      ensures log !in logs.free && logs.free <= old(logs.free)
      ensures fresh(log) || log in old(logs.free)
    {
      log := logs.Alloc();
      log.time := now;
      log.prefix := p;
      log.logger := this;
    }

    /** WithField: a new record carrying the logger's prefix and one field. */
    method WithField(key: string, val: Value, now: Instant) returns (log: Log)
      requires Valid()
      modifies logs, logs.free
      ensures Valid() && log !in logs.free && log.logger == this
      ensures log.prefix == prefix && log.time == now && log.fields == [Field(key, val)]
    {
      log := NewLog(prefix, now);
      log := log.WithField(key, val);
    }

    /** WithFields: a new record carrying the logger's prefix and the fields read from args. */
    method WithFields(args: seq<Value>, now: Instant) returns (log: Log)
      requires Valid()
      modifies logs, logs.free
      ensures Valid() && log !in logs.free && log.logger == this
      ensures log.prefix == prefix && log.time == now && log.fields == CollectFields(args)
    {
      log := NewLog(prefix, now);
      log := log.WithFields(args);
    }

    /**
     * Depthf: below the logger's level nothing happens (no record is even taken from
     * the pool); otherwise a new record is filled in and written.
     */
    method Depthf(lvl: Level, file: string, line: int, osSep: char, format: string, args: seq<Value>, now: Instant)
      returns (out: Outcome)
      requires Valid()
      modifies this`closed, flush, sink, logs, bufs, logs.free, bufs.free
      ensures Valid()
      ensures lvl < old(level) ==> out == Returned && sink.calls == old(sink.calls)
      ensures lvl < old(level) ==> logs.free == old(logs.free) && bufs.free == old(bufs.free)
      ensures !Accepts(lvl, level, old(closed)) ==> out == Returned && sink.calls == old(sink.calls) && closed == old(closed)
      ensures var bytes := Line(encoder, rt, RecordView(lvl, now, CallerPos(file, line, osSep), prefix, format, args, []));
        Accepts(lvl, level, old(closed)) && lvl != Fatal ==>
          sink.calls == old(sink.calls) + WriteCalls(writers, lvl, bytes) && !closed
      ensures var bytes := Line(encoder, rt, RecordView(lvl, now, CallerPos(file, line, osSep), prefix, format, args, []));
        Accepts(lvl, level, old(closed)) && lvl == Fatal ==>
          sink.calls == old(sink.calls) + WriteCalls(writers, lvl, bytes) + CloseCalls(writers)
          && closed && flush != null && flush.closed
          && out == (if old(flush.closed) then Panicked("close of closed channel") else Exited(-1))
      ensures var bytes := Line(encoder, rt, RecordView(lvl, now, CallerPos(file, line, osSep), prefix, format, args, []));
        Accepts(lvl, level, old(closed)) && lvl == Panic ==> out == Panicked(bytes)
      ensures Accepts(lvl, level, old(closed)) && lvl != Panic && lvl != Fatal ==> out == Returned
      ensures flush != null ==> flush.pending == old(flush.pending)
      ensures flush != null && !(Accepts(lvl, level, old(closed)) && lvl == Fatal) ==> flush.closed == old(flush.closed)
    {
      out := Returned;
      if lvl >= level {
        var log := NewLog(prefix, now);
        out := RecordDepthf(log, lvl, file, line, osSep, format, args);
      }
    }
  }

  /**
   * The record's Depthf: set the level, the caller position, the format and the
   * arguments, then hand the record to its logger.
   */
  method RecordDepthf(log: Log, lvl: Level, file: string, line: int, osSep: char,
                      format: string, args: seq<Value>) returns (out: Outcome)
    requires log.logger is Logger
    requires (log.logger as Logger).Valid() && log !in (log.logger as Logger).logs.free
    modifies (log.logger as Logger)`closed, (log.logger as Logger).flush, (log.logger as Logger).sink,
      (log.logger as Logger).logs, (log.logger as Logger).bufs, log, (log.logger as Logger).bufs.free
    ensures var l := old(log.logger) as Logger;
      && l.Valid()
      && log.IsReset() && l.logs.free == old(l.logs.free) + [log]
    ensures var l := old(log.logger) as Logger;
      !Accepts(lvl, l.level, old(l.closed)) ==> out == Returned && l.sink.calls == old(l.sink.calls) && l.closed == old(l.closed)
    ensures var l := old(log.logger) as Logger;
      var r := old(log.View()).(level := lvl, position := CallerPos(file, line, osSep), format := format, args := args);
      Accepts(lvl, l.level, old(l.closed)) && lvl != Fatal ==>
        l.sink.calls == old(l.sink.calls) + WriteCalls(l.writers, lvl, Line(l.encoder, l.rt, r)) && !l.closed
    ensures var l := old(log.logger) as Logger;
      var r := old(log.View()).(level := lvl, position := CallerPos(file, line, osSep), format := format, args := args);
      Accepts(lvl, l.level, old(l.closed)) && lvl == Fatal ==>
        l.sink.calls == old(l.sink.calls) + WriteCalls(l.writers, lvl, Line(l.encoder, l.rt, r)) + CloseCalls(l.writers)
        && l.closed && l.flush != null && l.flush.closed
        && out == (if old(l.flush.closed) then Panicked("close of closed channel") else Exited(-1))
    ensures var l := old(log.logger) as Logger;
      var r := old(log.View()).(level := lvl, position := CallerPos(file, line, osSep), format := format, args := args);
      Accepts(lvl, l.level, old(l.closed)) && lvl == Panic ==> out == Panicked(Line(l.encoder, l.rt, r))
    ensures var l := old(log.logger) as Logger;
      Accepts(lvl, l.level, old(l.closed)) && lvl != Panic && lvl != Fatal ==> out == Returned
    ensures var l := old(log.logger) as Logger;
      l.flush != null ==> l.flush.pending == old(l.flush.pending)
    ensures var l := old(log.logger) as Logger;
      l.flush != null && !(Accepts(lvl, l.level, old(l.closed)) && lvl == Fatal) ==> l.flush.closed == old(l.flush.closed)
  {
    var l := log.logger as Logger;
    ghost var r := log.View().(level := lvl, position := CallerPos(file, line, osSep), format := format, args := args);
    log.level := lvl;
    log.position := CallerPos(file, line, osSep);
    log.format := format;
    log.args := args;
    assert log.View() == r;
    assert l.Valid() && log !in l.logs.free;
    out := l.Write(log);
  }
}
