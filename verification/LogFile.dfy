/**
 The size-limited log file with its retry buffer.

 A file is its contents and the offset of the handle in use; opening does not truncate and starts
 at offset 0. Input and output may fail: `Io` says at which point of an operation that happens and
 what the failed write left behind. The newline search of the source recurses without progress at
 the end of the file; the model gives that the outcome "never returns".
 */
module LogFile {
  import opened Common

  type Byte = b: int | 0 <= b < 256

  const NEWLINE: Byte := 10

  /** `header` is the header line with its newline. */
  datatype Config = Config(limit: nat, header: seq<Byte>, readSize: nat, capacity: nat)

  datatype RawFile = RawFile(contents: seq<Byte>, offset: nat)

  type File = f: RawFile | f.offset <= |f.contents| witness RawFile([], 0)

  // ----- searching for the end of a line

  function FirstNewline(bytes: seq<Byte>): Option<nat> {
    if bytes == [] then None
    else if bytes[0] == NEWLINE then Some(0)
    else match FirstNewline(bytes[1..])
      case None => None
      case Some(i) => Some(i + 1)
  }

  predicate NoNewline(bytes: seq<Byte>, from: nat, to: nat) {
    forall k | from <= k < to && k < |bytes| :: bytes[k] != NEWLINE
  }

  /** What one read of `readSize` bytes at `offset` returns. */
  function Chunk(config: Config, contents: seq<Byte>, offset: nat): (chunk: seq<Byte>)
    ensures |chunk| <= config.readSize
  {
    if offset >= |contents| then []
    else if offset + config.readSize <= |contents| then contents[offset..offset + config.readSize]
    else contents[offset..]
  }

  /** `readUntilNextLineBreak`: the offset it leaves, or None when it never returns. */
  function NextLine(config: Config, contents: seq<Byte>, offset: nat): Option<nat>
    decreases |contents| - offset
  {
    if offset + config.readSize > config.limit then Some(offset)
    else
      var chunk := Chunk(config, contents, offset);
      match FirstNewline(chunk)
      case Some(i) => Some(offset + i + 1)
      case None => if chunk == [] then None else NextLine(config, contents, offset + |chunk|)
  }

  function Max(a: nat, b: nat): nat {
    if a < b then b else a
  }

  function Min(a: nat, b: nat): nat {
    if a < b then a else b
  }

  /** The part of the contents from an offset on, which may lie past the end. */
  function From(contents: seq<Byte>, offset: nat): seq<Byte> {
    contents[Min(offset, |contents|)..]
  }

  lemma {:induction false} FirstNewlineSpec(bytes: seq<Byte>)
    ensures match FirstNewline(bytes)
            case Some(i) => i < |bytes| && bytes[i] == NEWLINE && NoNewline(bytes, 0, i)
            case None => NoNewline(bytes, 0, |bytes|)
  {
    if bytes != [] {
      FirstNewlineSpec(bytes[1..]);
      assert forall k | 0 < k < |bytes| :: bytes[k] == bytes[1..][k - 1];
    }
  }

  lemma FoundInChunk(config: Config, contents: seq<Byte>, offset: nat, p: nat)
    requires offset <= p < |contents| && p < offset + config.readSize <= config.limit
    requires contents[p] == NEWLINE && NoNewline(contents, offset, p)
    ensures NextLine(config, contents, offset) == Some(p + 1)
  {
    var chunk := Chunk(config, contents, offset);
    assert forall k | 0 <= k < |chunk| :: chunk[k] == contents[offset + k];
    FirstNewlineSpec(chunk);
    assert chunk[p - offset] == NEWLINE;
  }

  lemma SkipsChunk(config: Config, contents: seq<Byte>, offset: nat)
    requires 0 < config.readSize && offset + config.readSize <= config.limit && offset < |contents|
    requires NoNewline(contents, offset, offset + config.readSize)
    ensures var n := |Chunk(config, contents, offset)|;
            && n == Min(config.readSize, |contents| - offset)
            && NextLine(config, contents, offset) == NextLine(config, contents, offset + n)
  {
    var chunk := Chunk(config, contents, offset);
    assert forall k | 0 <= k < |chunk| :: chunk[k] == contents[offset + k];
    FirstNewlineSpec(chunk);
  }

  lemma SkipsWholeChunk(config: Config, contents: seq<Byte>, offset: nat, next: nat)
    requires 0 < config.readSize && next == offset + config.readSize && next <= config.limit && next <= |contents|
    requires NoNewline(contents, offset, next)
    ensures NextLine(config, contents, offset) == NextLine(config, contents, next)
  {
    SkipsChunk(config, contents, offset);
  }

  /** Without a newline ahead, the search stops only where no chunk may be read any more. */
  lemma {:induction false} SearchWithoutNewline(config: Config, contents: seq<Byte>, offset: nat)
    requires config.readSize > 0 && NoNewline(contents, offset, |contents|)
    ensures NextLine(config, contents, offset).None? <==> Max(offset, |contents|) + config.readSize <= config.limit
    decreases |contents| - offset
  {
    if offset + config.readSize <= config.limit && offset < |contents| {
      SkipsChunk(config, contents, offset);
      SearchWithoutNewline(config, contents, offset + Min(config.readSize, |contents| - offset));
    }
  }

  /** The start of the chunk, counted from `offset`, that holds position `p`. */
  function ChunkStart(readSize: nat, offset: nat, p: nat): (q: nat)
    requires readSize > 0 && offset <= p
    ensures offset <= q <= p < q + readSize
    decreases p - offset
  {
    if p < offset + readSize then offset else ChunkStart(readSize, offset + readSize, p)
  }

  /**
   Just behind the newline at `p` if the chunk that holds it may be read, and otherwise at or
   before the start of that chunk, from where no chunk may be read.
   */
  predicate Lands(config: Config, offset: nat, p: nat, r: Option<nat>)
    requires config.readSize > 0 && offset <= p
  {
    var q := ChunkStart(config.readSize, offset, p);
    && r.Some?
    && (q + config.readSize <= config.limit ==> r.value == p + 1)
    && (q + config.readSize > config.limit ==> offset <= r.value <= q && r.value + config.readSize > config.limit)
  }

  lemma LandsFromNextChunk(config: Config, offset: nat, p: nat, r: Option<nat>)
    requires config.readSize > 0 && offset + config.readSize <= p && Lands(config, offset + config.readSize, p, r)
    ensures Lands(config, offset, p, r)
  {
  }

  lemma LandsInChunk(config: Config, contents: seq<Byte>, offset: nat, p: nat)
    requires config.readSize > 0 && offset <= p < |contents| && p < offset + config.readSize
    requires contents[p] == NEWLINE && NoNewline(contents, offset, p)
    ensures Lands(config, offset, p, NextLine(config, contents, offset))
  {
    if offset + config.readSize <= config.limit {
      FoundInChunk(config, contents, offset, p);
    }
  }

  lemma LandsAtLimit(config: Config, contents: seq<Byte>, offset: nat, p: nat)
    requires config.readSize > 0 && offset <= p && offset + config.readSize > config.limit
    ensures Lands(config, offset, p, NextLine(config, contents, offset))
  {
    assert NextLine(config, contents, offset) == Some(offset);
  }

  /** The search lands at the first newline, or stops short of it at the limit. */
  lemma {:induction false} SearchLandsBehindNewline(config: Config, contents: seq<Byte>, offset: nat, p: nat)
    requires config.readSize > 0 && offset <= p < |contents|
    requires contents[p] == NEWLINE && NoNewline(contents, offset, p)
    ensures Lands(config, offset, p, NextLine(config, contents, offset))
    decreases p - offset
  {
    if p < offset + config.readSize {
      LandsInChunk(config, contents, offset, p);
    } else if offset + config.readSize > config.limit {
      LandsAtLimit(config, contents, offset, p);
    } else {
      var next := offset + config.readSize;
      SearchLandsBehindNewline(config, contents, next, p);
      LandsFromNextChunk(config, offset, p, NextLine(config, contents, next));
      SkipsWholeChunk(config, contents, offset, next);
    }
  }

  lemma {:induction false} FirstNewlineFrom(contents: seq<Byte>, offset: nat) returns (p: nat)
    requires !NoNewline(contents, offset, |contents|)
    ensures offset <= p < |contents| && contents[p] == NEWLINE && NoNewline(contents, offset, p)
    decreases |contents| - offset
  {
    if contents[offset] == NEWLINE {
      p := offset;
    } else {
      p := FirstNewlineFrom(contents, offset + 1);
    }
  }

  /**
   Exactly when the search never returns: there is no newline left, and the end of the file, or the
   offset if that lies behind it, is at least a whole chunk below the limit.
   */
  lemma SearchHangsIff(config: Config, contents: seq<Byte>, offset: nat)
    requires config.readSize > 0
    ensures NextLine(config, contents, offset).None? <==>
            NoNewline(contents, offset, |contents|) && Max(offset, |contents|) + config.readSize <= config.limit
  {
    if NoNewline(contents, offset, |contents|) {
      SearchWithoutNewline(config, contents, offset);
    } else {
      var p := FirstNewlineFrom(contents, offset);
      SearchLandsBehindNewline(config, contents, offset, p);
    }
  }

  /** The search only moves forward, and by at least a byte if it may read at all. */
  lemma {:induction false} SearchMovesForward(config: Config, contents: seq<Byte>, offset: nat)
    requires NextLine(config, contents, offset).Some?
    ensures offset <= NextLine(config, contents, offset).value
    ensures offset + config.readSize <= config.limit ==> offset < NextLine(config, contents, offset).value
    decreases |contents| - offset
  {
    var chunk := Chunk(config, contents, offset);
    if offset + config.readSize <= config.limit && FirstNewline(chunk).None? {
      SearchMovesForward(config, contents, offset + |chunk|);
    }
  }

  // ----- writing

  function WriteAt(f: File, data: seq<Byte>): (g: File)
    ensures g.offset == f.offset + |data| && |g.contents| == Max(|f.contents|, f.offset + |data|)
  {
    RawFile(f.contents[..f.offset] + data + From(f.contents, f.offset + |data|), f.offset + |data|)
  }

  /** `truncateFileInHalf`: header and last half, or None when the search never returns. */
  function TruncatedInHalf(config: Config, f: File): Option<File> {
    match NextLine(config, f.contents, config.limit / 2)
    case None => None
    case Some(p) =>
      var lastHalf := From(f.contents, p);
      Some(RawFile(config.header + lastHalf, |config.header| + |lastHalf|))
  }

  predicate Truncates(config: Config, f: File, data: seq<Byte>) {
    f.offset + |data| >= config.limit
  }

  datatype Written = TooLarge | NeverReturns | Written(file: File)

  /** `write(fileHandle:data:)` when no input or output fails. */
  function Write(config: Config, f: File, data: seq<Byte>): Written
  {
    if |data| > config.limit then TooLarge
    else if Truncates(config, f, data) then
      match TruncatedInHalf(config, f)
      case None => NeverReturns
      case Some(g) => Written(WriteAt(g, data))
    else Written(WriteAt(f, data))
  }

  /** A write that failed after some prefix of its data. */
  ghost predicate PartlyWritten(f: File, data: seq<Byte>, g: File)
  {
    exists k | 0 <= k <= |data| :: g == WriteAt(f, data[..k])
  }

  /** What `write(fileHandle:data:)` may leave when one of its steps throws. */
  ghost predicate LeftBehind(config: Config, f: File, data: seq<Byte>, g: File)
  {
    if |data| <= config.limit && Truncates(config, f, data) then
      || g.contents == f.contents
      || PartlyWritten(RawFile([], 0), config.header, g)
      || match TruncatedInHalf(config, f)
         case None => false
         case Some(t) =>
           || PartlyWritten(RawFile(config.header, |config.header|), t.contents[|config.header|..], g)
           || PartlyWritten(t, data, g)
    else PartlyWritten(f, data, g)
  }

  /** A chunk that fits half the file next to the header. */
  predicate Fits(config: Config, data: seq<Byte>) {
    |data| + |config.header| <= config.limit / 2
  }

  lemma TruncatedSize(config: Config, f: File)
    requires |f.contents| < config.limit && TruncatedInHalf(config, f).Some?
    ensures var g := TruncatedInHalf(config, f).value;
            && g.offset == |g.contents| && config.header <= g.contents
            && |g.contents| < |config.header| + config.limit - config.limit / 2
  {
    SearchMovesForward(config, f.contents, config.limit / 2);
  }

  /** A fitting chunk keeps the file below the limit, and the header at its start once that is behind the offset. */
  lemma WriteKeepsFileBounded(config: Config, f: File, data: seq<Byte>)
    requires |f.contents| < config.limit && Fits(config, data) && |config.header| > 0
    ensures match Write(config, f, data)
            case TooLarge => false
            case NeverReturns => true
            case Written(g) =>
              && |g.contents| < config.limit
              && (f.offset >= |config.header| && config.header <= f.contents ==>
                    config.header <= g.contents && |config.header| <= g.offset)
  {
    if Truncates(config, f, data) {
      if TruncatedInHalf(config, f).Some? {
        TruncatedSize(config, f);
        var t := TruncatedInHalf(config, f).value;
        assert WriteAt(t, data).contents[..|config.header|] == t.contents[..|config.header|];
      }
    } else if f.offset >= |config.header| {
      assert WriteAt(f, data).contents[..|config.header|] == f.contents[..|config.header|];
    }
  }

  lemma FailureKeepsFileBounded(config: Config, f: File, data: seq<Byte>, g: File)
    requires |f.contents| < config.limit && Fits(config, data) && |config.header| > 0
    requires LeftBehind(config, f, data, g)
    ensures |g.contents| < config.limit
  {
    if Truncates(config, f, data) && TruncatedInHalf(config, f).Some? {
      TruncatedSize(config, f);
    }
  }

  /**
   How large a chunk may be, exactly: a write of a chunk that is nonempty and not above the limit keeps every file
   below the limit if and only if the chunk and the header together are at most half the limit, plus
   one byte if the search for a line break may read a chunk at all.
   */
  lemma WriteStaysBelowLimitIff(config: Config, data: seq<Byte>)
    requires 0 < |data| <= config.limit && config.readSize > 0 && config.limit >= 3
    ensures (forall f: File | |f.contents| < config.limit :: StaysBelow(config, f, data)) <==>
            |data| + |config.header| <= config.limit / 2 +
                                        if config.readSize <= config.limit - config.limit / 2 then 1 else 0
  {
    var half := config.limit / 2;
    var skip := if config.readSize <= config.limit - half then 1 else 0;
    if |data| + |config.header| <= half + skip {
      forall f: File | |f.contents| < config.limit
        ensures StaysBelow(config, f, data)
      {
        if Truncates(config, f, data) && TruncatedInHalf(config, f).Some? {
          SearchMovesForward(config, f.contents, half);
        }
      }
    } else {
      var f := FullFile(config);
      assert !StaysBelow(config, f, data);
    }
  }

  predicate StaysBelow(config: Config, f: File, data: seq<Byte>)
  {
    var r := Write(config, f, data);
    r.Written? ==> |r.file.contents| < config.limit
  }

  /** A file one byte below the limit whose middle byte is a newline: truncation keeps as much as it ever can. */
  lemma FullFile(config: Config) returns (f: File)
    requires config.readSize > 0 && config.limit >= 3
    ensures |f.contents| == f.offset == config.limit - 1
    ensures TruncatedInHalf(config, f).Some?
    ensures |TruncatedInHalf(config, f).value.contents| == |config.header| + config.limit - 1 - config.limit / 2 -
              if config.readSize <= config.limit - config.limit / 2 then 1 else 0
  {
    var half := config.limit / 2;
    var contents: seq<Byte> := seq(config.limit - 1, i => if i == half then NEWLINE else 0);
    f := RawFile(contents, config.limit - 1);
    SearchLandsBehindNewline(config, contents, half, half);
  }

  // ----- the stream

  datatype State = Closed | Opened | WaitingToReopen

  /** `hung`: a write never returned. */
  datatype Stream = Stream(state: State, file: File, buffer: seq<Byte>, timer: bool, hung: bool)

  /** Where an operation fails, if it does. */
  datatype Io = Fine | OpenFails | HeaderFails(left: File) | WriteFails(left: File)

  datatype Event = Record(data: seq<Byte>, io: Io) | Reopen(io: Io)

  datatype Attempt = Threw(file: File) | Hung | Done(file: File)

  function New(contents: seq<Byte>): Stream {
    Stream(Closed, RawFile(contents, 0), [], false, false)
  }

  function Attempted(config: Config, f: File, data: seq<Byte>): Attempt
  {
    match Write(config, f, data)
    case TooLarge => Threw(f)
    case NeverReturns => Hung
    case Written(g) => Done(g)
  }

  function TryWrite(config: Config, f: File, data: seq<Byte>, io: Io): Attempt
  {
    if io.WriteFails? then Threw(io.left) else Attempted(config, f, data)
  }

  /** `openFileWithHeader`; whatever header it is given, it writes the configured one. */
  function TryOpen(config: Config, contents: seq<Byte>, io: Io): Attempt {
    match io
    case OpenFails => Threw(RawFile(contents, 0))
    case HeaderFails(left) => Threw(left)
    case _ => Attempted(config, RawFile(contents, 0), config.header)
  }

  /** The last `n` bytes, or all. */
  function Suffix(bytes: seq<Byte>, n: nat): (s: seq<Byte>)
    ensures |s| == Min(|bytes|, n)
  {
    if |bytes| > n then bytes[|bytes| - n..] else bytes
  }

  function Buffered(config: Config, s: Stream, data: seq<Byte>): Stream {
    s.(buffer := Suffix(s.buffer + data, config.capacity))
  }

  /** Setting the state starts or stops the timer. */
  function SetState(s: Stream, state: State): Stream {
    s.(state := state,
       timer := if s.state != WaitingToReopen && state == WaitingToReopen then true
                else if s.state == WaitingToReopen && state != WaitingToReopen then false
                else s.timer)
  }

  /** The result of writing a record to the open file. */
  function AfterWrite(config: Config, s: Stream, data: seq<Byte>, attempt: Attempt): Stream {
    match attempt
    case Threw(f) => SetState(Buffered(config, s.(file := f), data), WaitingToReopen)
    case Hung => s.(hung := true)
    case Done(f) => s.(file := f)
  }

  function Recorded(config: Config, s: Stream, data: seq<Byte>, io: Io): Stream
  {
    match s.state
    case Closed =>
      (match TryOpen(config, s.file.contents, io)
       case Threw(f) => SetState(Buffered(config, s.(file := f), data), WaitingToReopen)
       case Hung => s.(hung := true)
       case Done(f) => AfterWrite(config, SetState(s.(file := f), Opened), data, TryWrite(config, f, data, io)))
    case Opened => AfterWrite(config, s, data, TryWrite(config, s.file, data, io))
    case WaitingToReopen => Buffered(config, s, data)
  }

  function Reopened(config: Config, s: Stream, io: Io): Stream {
    match TryOpen(config, s.file.contents, io)
    case Threw(f) => s.(file := f)
    case Hung => s.(hung := true)
    case Done(f) =>
      if s.buffer == [] then SetState(s.(file := f), Opened)
      else match TryWrite(config, f, s.buffer, io)
        case Threw(g) => s.(file := g)
        case Hung => s.(hung := true)
        case Done(g) => SetState(s.(file := g, buffer := []), Opened)
  }

  /** One step; nothing happens any more once a write never returned, and only a waiting stream reopens. */
  function Next(config: Config, s: Stream, e: Event): Stream
  {
    if s.hung then s
    else match e
      case Record(data, io) => Recorded(config, s, data, io)
      case Reopen(io) => if s.state == WaitingToReopen then Reopened(config, s, io) else s
  }

  function Run(config: Config, s: Stream, events: seq<Event>): Stream {
    if events == [] then s else Next(config, Run(config, s, Front(events)), Last(events))
  }

  // ----- the buffer and the timer

  /** The last bytes of `all`, as many as fit. */
  predicate LatestBytes(bytes: seq<Byte>, all: seq<Byte>, capacity: nat) {
    && |bytes| == Min(|all|, capacity)
    && forall i | 0 <= i < |bytes| :: bytes[i] == all[|all| - |bytes| + i]
  }

  lemma BufferedIsLatest(config: Config, s: Stream, all: seq<Byte>, data: seq<Byte>)
    requires LatestBytes(s.buffer, all, config.capacity)
    ensures LatestBytes(Buffered(config, s, data).buffer, all + data, config.capacity)
  {
    var joined := s.buffer + data;
    assert forall i | 0 <= i < |joined| :: joined[i] == (all + data)[|all| + |data| - |joined| + i];
  }

  predicate BufferValid(config: Config, s: Stream) {
    && |s.buffer| <= config.capacity
    && (s.state != WaitingToReopen ==> s.buffer == [])
    && (s.timer <==> s.state == WaitingToReopen)
  }

  lemma NextKeepsBuffer(config: Config, s: Stream, e: Event)
    requires BufferValid(config, s)
    ensures BufferValid(config, Next(config, s, e))
  {
  }

  /** What was recorded in a run since the file was last open, or ever if it never was. */
  function Unwritten(config: Config, contents: seq<Byte>, events: seq<Event>): seq<Byte> {
    if events == [] || Run(config, New(contents), events).state != WaitingToReopen then []
    else
      var e := Last(events);
      Unwritten(config, contents, Front(events)) +
      if e.Record? && !Run(config, New(contents), Front(events)).hung then e.data else []
  }

  /** The buffer after a step. */
  lemma NextBuffer(config: Config, s: Stream, e: Event)
    requires BufferValid(config, s)
    ensures var t := Next(config, s, e);
            t.buffer == if t.state != WaitingToReopen then []
                        else if e.Record? && !s.hung then Buffered(config, s, e.data).buffer
                        else s.buffer
  {
  }

  lemma LatestStep(config: Config, s: Stream, all: seq<Byte>, e: Event)
    requires BufferValid(config, s) && LatestBytes(s.buffer, all, config.capacity)
    ensures var t := Next(config, s, e);
            LatestBytes(t.buffer, if t.state != WaitingToReopen then [] else if e.Record? && !s.hung then all + e.data else all,
                        config.capacity)
  {
    NextBuffer(config, s, e);
    if e.Record? {
      BufferedIsLatest(config, s, all, e.data);
    }
  }

  /**
   In every run, whatever fails: the retry buffer is the last `capacity` bytes, or all, of what was
   recorded since the file was last open, it is empty whenever the file is open, and the reopen timer
   runs exactly while the stream waits to reopen.
   */
  lemma {:induction false} BufferIsLatestBytes(config: Config, contents: seq<Byte>, events: seq<Event>)
    ensures var s := Run(config, New(contents), events);
            && LatestBytes(s.buffer, Unwritten(config, contents, events), config.capacity)
            && (s.state == Opened ==> s.buffer == [])
            && (s.timer <==> s.state == WaitingToReopen)
            && BufferValid(config, s)
  {
    if events != [] {
      var s := Run(config, New(contents), Front(events));
      BufferIsLatestBytes(config, contents, Front(events));
      NextKeepsBuffer(config, s, Last(events));
      LatestStep(config, s, Unwritten(config, contents, Front(events)), Last(events));
      assert Unwritten(config, contents, Front(events)) + [] == Unwritten(config, contents, Front(events));
    }
  }

  /** Opening or writing fails, or a chunk is refused for its size. */
  predicate RecordFails(config: Config, s: Stream, data: seq<Byte>, io: Io) {
    || |data| > config.limit || io.WriteFails?
    || (s.state == Closed && (io.OpenFails? || io.HeaderFails? || |config.header| > config.limit))
  }

  predicate ReopenFails(config: Config, s: Stream, io: Io) {
    || io.OpenFails? || io.HeaderFails? || |config.header| > config.limit
    || (s.buffer != [] && (io.WriteFails? || |s.buffer| > config.limit))
  }

  lemma ThrowsIff(config: Config, f: File, contents: seq<Byte>, data: seq<Byte>, io: Io)
    ensures TryWrite(config, f, data, io).Threw? <==> io.WriteFails? || |data| > config.limit
    ensures TryOpen(config, contents, io).Threw? <==> io.OpenFails? || io.HeaderFails? || |config.header| > config.limit
  {
  }

  lemma RecordWaitsIffFailed(config: Config, s: Stream, data: seq<Byte>, io: Io)
    requires !s.hung && !Recorded(config, s, data, io).hung
    ensures var t := Recorded(config, s, data, io);
            t.state != Closed && (t.state == WaitingToReopen <==> s.state == WaitingToReopen || RecordFails(config, s, data, io))
  {
    ThrowsIff(config, s.file, s.file.contents, data, io);
    if s.state == Closed && TryOpen(config, s.file.contents, io).Done? {
      ThrowsIff(config, TryOpen(config, s.file.contents, io).file, s.file.contents, data, io);
    }
  }

  lemma ReopenWaitsIffFailed(config: Config, s: Stream, io: Io)
    requires !s.hung && s.state == WaitingToReopen && !Reopened(config, s, io).hung
    ensures Reopened(config, s, io).state == WaitingToReopen <==> ReopenFails(config, s, io)
  {
    ThrowsIff(config, s.file, s.file.contents, s.buffer, io);
    if TryOpen(config, s.file.contents, io).Done? {
      ThrowsIff(config, TryOpen(config, s.file.contents, io).file, s.file.contents, s.buffer, io);
    }
  }

  /**
   Exactly when the stream waits to reopen after a step that returned: it waited and was not
   reopened, or a write failed.
   */
  lemma WaitsIffFailed(config: Config, s: Stream, e: Event)
    requires !s.hung && !Next(config, s, e).hung
    ensures var t := Next(config, s, e);
            match e
            case Record(data, io) =>
              t.state != Closed && (t.state == WaitingToReopen <==> s.state == WaitingToReopen || RecordFails(config, s, data, io))
            case Reopen(io) => t.state == WaitingToReopen <==> s.state == WaitingToReopen && ReopenFails(config, s, io)
  {
    match e
    case Record(data, io) => RecordWaitsIffFailed(config, s, data, io);
    case Reopen(io) =>
      if s.state == WaitingToReopen {
        ReopenWaitsIffFailed(config, s, io);
      }
  }

  /** A record made while waiting, or a step that cannot open the file, leaves the file as it is. */
  lemma FileKeptUnlessOpened(config: Config, s: Stream, e: Event)
    requires (s.state == WaitingToReopen && e.Record?) || (s.state != Opened && e.io.OpenFails?)
    ensures Next(config, s, e).file.contents == s.file.contents
  {
  }

  // ----- the size of the file

  /** Every chunk the stream may write leaves room: the header, the largest buffer and the record. */
  predicate Roomy(config: Config) {
    |config.header| > 0 && config.capacity + |config.header| <= config.limit / 2
  }

  /** A failure that the input and output of this event can have. */
  ghost predicate Plausible(config: Config, s: Stream, e: Event) {
    var rewound: File := RawFile(s.file.contents, 0);
    match e.io
    case HeaderFails(left) => LeftBehind(config, rewound, config.header, left)
    case WriteFails(left) =>
      var data := if e.Record? then e.data else s.buffer;
      if e.Record? && s.state == Opened then LeftBehind(config, s.file, data, left)
      else
        var header := Write(config, rewound, config.header);
        header.Written? ==> LeftBehind(config, header.file, data, left)
    case _ => true
  }

  /** An event whose record fits and whose failure is plausible. */
  ghost predicate Allowed(config: Config, s: Stream, e: Event) {
    (e.Record? ==> Fits(config, e.data)) && Plausible(config, s, e)
  }

  predicate FileValid(config: Config, s: Stream) {
    && |s.file.contents| < config.limit
    && (s.state == Opened ==> config.header <= s.file.contents && |config.header| <= s.file.offset)
    && |s.buffer| <= config.capacity
  }

  lemma OpeningWritesHeader(config: Config, contents: seq<Byte>)
    requires Roomy(config) && |contents| < config.limit
    ensures var f: File := RawFile(contents, 0);
            var r := Write(config, f, config.header);
            && r.Written? && |r.file.contents| < config.limit
            && config.header <= r.file.contents && r.file.offset == |config.header|
  {
  }

  lemma HeaderFailureIsBounded(config: Config, contents: seq<Byte>, left: File)
    requires Roomy(config) && |contents| < config.limit
    requires var f: File := RawFile(contents, 0); LeftBehind(config, f, config.header, left)
    ensures |left.contents| < config.limit
  {
  }

  lemma RecordKeepsFile(config: Config, s: Stream, data: seq<Byte>, io: Io)
    requires Roomy(config) && FileValid(config, s) && Allowed(config, s, Record(data, io))
    ensures FileValid(config, Recorded(config, s, data, io))
  {
    var f: File := RawFile(s.file.contents, 0);
    OpeningWritesHeader(config, s.file.contents);
    if io.HeaderFails? {
      HeaderFailureIsBounded(config, s.file.contents, io.left);
    }
    if s.state != WaitingToReopen {
      var g := if s.state == Opened then s.file else Write(config, f, config.header).file;
      WriteKeepsFileBounded(config, g, data);
      if io.WriteFails? {
        FailureKeepsFileBounded(config, g, data, io.left);
      }
    }
  }

  lemma ReopenKeepsFile(config: Config, s: Stream, io: Io)
    requires Roomy(config) && FileValid(config, s) && Allowed(config, s, Reopen(io))
    ensures FileValid(config, Reopened(config, s, io)) || s.state == Opened
  {
    var f: File := RawFile(s.file.contents, 0);
    OpeningWritesHeader(config, s.file.contents);
    if io.HeaderFails? {
      HeaderFailureIsBounded(config, s.file.contents, io.left);
    }
    var g := Write(config, f, config.header).file;
    WriteKeepsFileBounded(config, g, s.buffer);
    if io.WriteFails? && s.state != Opened {
      FailureKeepsFileBounded(config, g, s.buffer, io.left);
    }
  }

  lemma NextKeepsFile(config: Config, s: Stream, e: Event)
    requires Roomy(config) && FileValid(config, s) && Allowed(config, s, e)
    ensures FileValid(config, Next(config, s, e))
  {
    match e
    case Record(data, io) => RecordKeepsFile(config, s, data, io);
    case Reopen(io) => ReopenKeepsFile(config, s, io);
  }

  ghost predicate AllAllowed(config: Config, contents: seq<Byte>, events: seq<Event>) {
    forall k | 0 <= k < |events| :: Allowed(config, Run(config, New(contents), events[..k]), events[k])
  }

  /**
   Bounded log file: if the file starts below the limit and every record, and the largest buffer,
   fits half the limit next to the header, the file is below the limit in every state of every run,
   whatever input and output fail, and it begins with the header whenever it is open.
   */
  lemma {:induction false} FileStaysBounded(config: Config, contents: seq<Byte>, events: seq<Event>)
    requires Roomy(config) && |contents| < config.limit && AllAllowed(config, contents, events)
    ensures var s := Run(config, New(contents), events);
            && |s.file.contents| < config.limit
            && (s.state == Opened ==> config.header <= s.file.contents)
            && FileValid(config, s)
  {
    if events != [] {
      var before := Front(events);
      assert forall k | 0 <= k < |before| :: before[..k] == events[..k] && before[k] == events[k];
      FileStaysBounded(config, contents, before);
      assert events[..|events| - 1] == before;
      NextKeepsFile(config, Run(config, New(contents), before), Last(events));
    }
  }

  // ----- what the file holds

  /** Everything a run records, in order. */
  function AllRecords(events: seq<Event>): seq<Byte> {
    if events == [] then []
    else AllRecords(Front(events)) + if Last(events).Record? then Last(events).data else []
  }

  /** What was written, with the old bytes behind its first `cut` bytes that opening left in place. */
  function Layered(config: Config, before: seq<Byte>, written: seq<Byte>, cut: nat): seq<Byte>
    requires cut <= |written|
  {
    written[..cut] + From(before, |config.header| + cut) + written[cut..]
  }

  /**
   What a file holds that was opened on the contents `before` and then written to. Up to the first
   truncation, which comes with the byte that reaches the limit, it is the header, what was written
   and the old bytes behind that. From then on it is the header and an end of what was written, in
   which the old bytes still stand where the first truncation found them.
   */
  predicate Session(config: Config, before: seq<Byte>, written: seq<Byte>, f: File, cut: nat, j: nat) {
    var n := |config.header|;
    if n + |written| < config.limit then
      f.contents == config.header + written + From(before, n + |written|) && f.offset == n + |written|
    else
      && cut <= |written| && n + cut < config.limit
      && j <= |Layered(config, before, written, cut)|
      && f.contents == config.header + Layered(config, before, written, cut)[j..] && f.offset == |f.contents|
  }

  lemma FromBehind(a: seq<Byte>, before: seq<Byte>, more: nat)
    ensures From(a + From(before, |a|), |a| + more) == From(before, |a| + more)
  {
  }

  lemma OpeningBegins(config: Config, before: seq<Byte>)
    requires |config.header| < config.limit
    ensures var r := Write(config, RawFile(before, 0), config.header);
            r.Written? && Session(config, before, [], r.file, 0, 0)
  {
  }

  lemma AppendKeepsSession(config: Config, before: seq<Byte>, written: seq<Byte>, f: File, data: seq<Byte>)
    requires Session(config, before, written, f, 0, 0) && |config.header| + |written| + |data| < config.limit
    ensures Session(config, before, written + data, WriteAt(f, data), 0, 0)
  {
    var start := config.header + written;
    FromBehind(start, before, |data|);
    assert f.contents[..f.offset] == start;
    assert start + data == config.header + (written + data);
  }

  /** A truncation keeps the header and an end of what was behind it. */
  lemma TruncationCuts(config: Config, f: File, all: seq<Byte>, j: nat) returns (k: nat)
    requires |config.header| <= config.limit / 2 && j <= |all| && f.contents == config.header + all[j..]
    requires TruncatedInHalf(config, f).Some?
    ensures j <= k <= |all| && TruncatedInHalf(config, f).value.contents == config.header + all[k..]
  {
    var p := NextLine(config, f.contents, config.limit / 2).value;
    SearchMovesForward(config, f.contents, config.limit / 2);
    k := Min(j + (p - |config.header|), |all|);
    assert From(f.contents, p) == all[k..];
  }

  /** Appending to a header and an end of `all` gives a header and an end of `all + data`. */
  lemma WriteKeepsLatest(config: Config, f: File, all: seq<Byte>, j: nat, data: seq<Byte>) returns (k: nat)
    requires |config.header| <= config.limit / 2 && j <= |all| && f.contents == config.header + all[j..]
    requires f.offset == |f.contents| || Truncates(config, f, data)
    requires Write(config, f, data).Written?
    ensures var g := Write(config, f, data).file;
            && j <= k <= |all| && g.contents == config.header + (all + data)[k..] && g.offset == |g.contents|
  {
    var g := Write(config, f, data).file;
    k := j;
    if Truncates(config, f, data) {
      k := TruncationCuts(config, f, all, j);
    }
    assert g.contents == config.header + all[k..] + data;
    assert all[k..] + data == (all + data)[k..];
  }

  lemma LayeredAppend(config: Config, before: seq<Byte>, written: seq<Byte>, cut: nat, data: seq<Byte>)
    requires cut <= |written|
    ensures Layered(config, before, written + data, cut) == Layered(config, before, written, cut) + data
  {
    assert (written + data)[..cut] == written[..cut] && (written + data)[cut..] == written[cut..] + data;
  }

  /** Truncated or not, the file is the header and an end of the layered bytes. */
  lemma SessionIsLayered(config: Config, before: seq<Byte>, written: seq<Byte>, f: File, cut: nat, j: nat)
    returns (c: nat, k: nat)
    requires Session(config, before, written, f, cut, j) && |config.header| < config.limit
    ensures c <= |written| && |config.header| + c < config.limit && k <= |Layered(config, before, written, c)|
    ensures f.contents == config.header + Layered(config, before, written, c)[k..]
    ensures |config.header| + |written| >= config.limit ==> f.offset == |f.contents|
    ensures |config.header| + |written| < config.limit ==> f.offset == |config.header| + |written|
  {
    c, k := cut, j;
    if |config.header| + |written| < config.limit {
      c, k := |written|, 0;
      assert Layered(config, before, written, c)[0..] == written + From(before, |config.header| + |written|);
      assert config.header + written + From(before, |config.header| + |written|) ==
             config.header + (written + From(before, |config.header| + |written|));
    }
  }

  lemma WriteKeepsSession(config: Config, before: seq<Byte>, written: seq<Byte>, f: File, cut: nat, j: nat, data: seq<Byte>)
    returns (c: nat, k: nat)
    requires |config.header| <= config.limit / 2 && config.limit > 0 && Session(config, before, written, f, cut, j)
    requires Write(config, f, data).Written?
    ensures Session(config, before, written + data, Write(config, f, data).file, c, k)
  {
    if |config.header| + |written| + |data| < config.limit {
      c, k := 0, 0;
      AppendKeepsSession(config, before, written, f, data);
    } else {
      c, k := SessionIsLayered(config, before, written, f, cut, j);
      LayeredAppend(config, before, written, c, data);
      k := WriteKeepsLatest(config, f, Layered(config, before, written, c), k, data);
    }
  }

  /** No failure, and no record that is refused for its size. */
  predicate Smooth(config: Config, e: Event) {
    e.io == Fine && (e.Record? ==> |e.data| <= config.limit)
  }

  predicate AllSmooth(config: Config, events: seq<Event>) {
    forall k | 0 <= k < |events| :: Smooth(config, events[k])
  }

  predicate NoRecords(events: seq<Event>) {
    forall k | 0 <= k < |events| :: events[k].Reopen?
  }

  lemma RecordKeepsSession(config: Config, s: Stream, before: seq<Byte>, written: seq<Byte>, cut: nat, j: nat, e: Event)
    returns (c: nat, k: nat)
    requires |config.header| <= config.limit / 2 && config.limit > 0 && s.state == Opened
    requires Session(config, before, written, s.file, cut, j)
    requires Smooth(config, e) && !Next(config, s, e).hung
    ensures var t := Next(config, s, e);
            t.state == Opened && Session(config, before, written + if e.Record? then e.data else [], t.file, c, k)
  {
    c, k := cut, j;
    if e.Record? {
      c, k := WriteKeepsSession(config, before, written, s.file, cut, j, e.data);
    } else {
      assert written + [] == written;
    }
  }

  lemma AllRecordsSnoc(written: seq<Byte>, events: seq<Event>)
    requires events != []
    ensures var e := Last(events);
            written + AllRecords(events) == written + AllRecords(Front(events)) + if e.Record? then e.data else []
  {
  }

  lemma {:induction false} RunKeepsSession(config: Config, s: Stream, before: seq<Byte>, written: seq<Byte>,
                                           cut: nat, j: nat, events: seq<Event>)
    returns (c: nat, k: nat)
    requires |config.header| <= config.limit / 2 && config.limit > 0 && s.state == Opened
    requires Session(config, before, written, s.file, cut, j)
    requires AllSmooth(config, events) && !Run(config, s, events).hung
    ensures Run(config, s, events).state == Opened
    ensures Session(config, before, written + AllRecords(events), Run(config, s, events).file, c, k)
  {
    if events == [] {
      c, k := cut, j;
      assert written + [] == written;
    } else {
      c, k := RunKeepsSession(config, s, before, written, cut, j, Front(events));
      AllRecordsSnoc(written, events);
      c, k := RecordKeepsSession(config, Run(config, s, Front(events)), before, written + AllRecords(Front(events)), c, k,
                                 Last(events));
    }
  }

  lemma FirstRecordBegins(config: Config, contents: seq<Byte>, data: seq<Byte>) returns (c: nat, k: nat)
    requires |config.header| <= config.limit / 2 && config.limit > 0 && |data| <= config.limit
    requires !Recorded(config, New(contents), data, Fine).hung
    ensures var t := Recorded(config, New(contents), data, Fine);
            t.state == Opened && Session(config, contents, data, t.file, c, k)
  {
    OpeningBegins(config, contents);
    var begun := Write(config, RawFile(contents, 0), config.header).file;
    c, k := WriteKeepsSession(config, contents, [], begun, 0, 0, data);
    assert [] + data == data;
  }

  /** What a log started on any contents holds after any records, when nothing fails. */
  lemma {:induction false} FileHoldsRecords(config: Config, contents: seq<Byte>, events: seq<Event>)
    returns (cut: nat, j: nat)
    requires |config.header| <= config.limit / 2 && config.limit > 0
    requires AllSmooth(config, events) && !Run(config, New(contents), events).hung
    ensures var s := Run(config, New(contents), events);
            && s.state != WaitingToReopen
            && (s.state == Closed <==> NoRecords(events))
            && (s.state == Closed ==> s == New(contents))
            && (s.state == Opened ==> Session(config, contents, AllRecords(events), s.file, cut, j))
  {
    cut, j := 0, 0;
    if events != [] {
      var fewer, e := Front(events), Last(events);
      var s := Run(config, New(contents), fewer);
      cut, j := FileHoldsRecords(config, contents, fewer);
      assert forall k | 0 <= k < |fewer| :: fewer[k] == events[k];
      if s.state == Opened {
        cut, j := RecordKeepsSession(config, s, contents, AllRecords(fewer), cut, j, e);
      } else if e.Record? {
        NothingRecorded(fewer);
        cut, j := FirstRecordBegins(config, contents, e.data);
        assert AllRecords(events) == e.data;
      }
    }
  }

  lemma {:induction false} NothingRecorded(events: seq<Event>)
    requires NoRecords(events)
    ensures AllRecords(events) == []
  {
    if events != [] {
      NothingRecorded(Front(events));
    }
  }

  /**
   Reopening writes over the file from its start: the header, the buffer and whatever is recorded
   from then on lie over the old bytes in the same way.
   */
  lemma ReopenedHoldsBuffer(config: Config, s: Stream, events: seq<Event>) returns (cut: nat, j: nat)
    requires |config.header| <= config.limit / 2 && config.limit > 0 && |s.buffer| <= config.limit
    requires s.state == WaitingToReopen && !s.hung && AllSmooth(config, events)
    requires !Run(config, Next(config, s, Reopen(Fine)), events).hung
    ensures var t := Run(config, Next(config, s, Reopen(Fine)), events);
            t.state == Opened && Session(config, s.file.contents, s.buffer + AllRecords(events), t.file, cut, j)
  {
    var before := s.file.contents;
    OpeningBegins(config, before);
    var begun := Write(config, RawFile(before, 0), config.header).file;
    var t := Next(config, s, Reopen(Fine));
    HungStays(config, t, events);
    cut, j := 0, 0;
    if s.buffer != [] {
      cut, j := WriteKeepsSession(config, before, [], begun, 0, 0, s.buffer);
      assert [] + s.buffer == s.buffer;
    }
    cut, j := RunKeepsSession(config, t, before, s.buffer, cut, j, events);
  }

  lemma {:induction false} HungStays(config: Config, s: Stream, events: seq<Event>)
    ensures s.hung ==> Run(config, s, events).hung
  {
    if events != [] {
      HungStays(config, s, Front(events));
    }
  }

  /** The file is the header and an end of what was written. */
  ghost predicate OnlyLatest(config: Config, written: seq<Byte>, f: File) {
    exists i | 0 <= i <= |written| :: f.contents == config.header + written[i..]
  }

  /**
   Until the first truncation the file is the header and an end of what was written if and only if
   that covers the old contents.
   */
  lemma OnlyLatestIff(config: Config, before: seq<Byte>, written: seq<Byte>, f: File, cut: nat, j: nat)
    requires Session(config, before, written, f, cut, j) && |config.header| + |written| < config.limit
    ensures OnlyLatest(config, written, f) <==> |before| <= |config.header| + |written|
  {
    if |before| <= |config.header| + |written| {
      assert f.contents == config.header + written[0..];
    }
  }

  /** When the header covers the old contents, no old bytes are left, truncated or not. */
  lemma {:induction false} FileHoldsLatestRecords(config: Config, contents: seq<Byte>, events: seq<Event>)
    requires |config.header| <= config.limit / 2 && config.limit > 0 && |contents| <= |config.header|
    requires AllSmooth(config, events) && !Run(config, New(contents), events).hung
    ensures var s := Run(config, New(contents), events);
            s.state == Opened ==> OnlyLatest(config, AllRecords(events), s.file) && s.file.offset == |s.file.contents|
  {
    var cut, j := FileHoldsRecords(config, contents, events);
    var s, written := Run(config, New(contents), events), AllRecords(events);
    if s.state == Opened {
      if |config.header| + |written| < config.limit {
        OnlyLatestIff(config, contents, written, s.file, cut, j);
      } else {
        assert Layered(config, contents, written, cut) == written;
        assert s.file.contents == config.header + written[j..];
      }
    }
  }

  /** A log opened on an existing file of three bytes: the last of them stays behind the first record. */
  lemma OldBytesSurvive()
    ensures var config := Config(16, [NEWLINE], 4, 8);
            var s := Run(config, New([1, 2, 3]), [Record([65], Fine)]);
            s.state == Opened && s.file.contents == [NEWLINE, 65, 3] && !OnlyLatest(config, [65], s.file)
  {
    var config := Config(16, [NEWLINE], 4, 8);
    var contents: seq<Byte>, data: seq<Byte> := [1, 2, 3], [65];
    var events := [Record(data, Fine)];
    assert Front(events) == [] && Run(config, New(contents), []) == New(contents);
    var s := Run(config, New(contents), events);
    assert s == Recorded(config, New(contents), data, Fine);
    var cut, j := FirstRecordBegins(config, contents, data);
    assert Session(config, contents, data, s.file, cut, j);
    OnlyLatestIff(config, contents, data, s.file, cut, j);
    assert From(contents, 2) == [3];
  }

  // ----- a buffer that is never written out

  /** Waiting, with a buffer above the limit. */
  predicate Oversized(config: Config, s: Stream) {
    s.state == WaitingToReopen && !s.hung && config.limit < |s.buffer| <= config.capacity
  }

  lemma NextKeepsOversized(config: Config, s: Stream, e: Event)
    requires |config.header| < config.limit && Oversized(config, s)
    ensures Oversized(config, Next(config, s, e))
  {
    if e.Reopen? {
      OpeningBegins(config, s.file.contents);
    }
  }

  lemma {:induction false} RunKeepsOversized(config: Config, s: Stream, events: seq<Event>)
    requires |config.header| < config.limit && Oversized(config, s)
    ensures Oversized(config, Run(config, s, events))
  {
    if events != [] {
      RunKeepsOversized(config, s, Front(events));
      NextKeepsOversized(config, Run(config, s, Front(events)), Last(events));
    }
  }

  /** Whatever happens from here on, the stream goes on waiting. */
  ghost predicate WaitsForever(config: Config, s: Stream) {
    forall events: seq<Event> :: KeepsWaiting(config, s, events)
  }

  predicate KeepsWaiting(config: Config, s: Stream, events: seq<Event>) {
    var t := Run(config, s, events);
    t.state == WaitingToReopen && !t.hung
  }

  /**
   A buffer above the limit is refused whole at every reopening: a stream that waits, in any run,
   never leaves that state if and only if its buffer is above the limit.
   */
  lemma {:induction false} WaitsForeverIff(config: Config, contents: seq<Byte>, events: seq<Event>)
    requires |config.header| < config.limit
    requires var s := Run(config, New(contents), events); s.state == WaitingToReopen && !s.hung
    ensures var s := Run(config, New(contents), events);
            WaitsForever(config, s) <==> |s.buffer| > config.limit
  {
    var s := Run(config, New(contents), events);
    BufferIsLatestBytes(config, contents, events);
    if |s.buffer| > config.limit {
      forall more: seq<Event>
        ensures KeepsWaiting(config, s, more)
      {
        RunKeepsOversized(config, s, more);
      }
    } else {
      var more := [Reopen(Fine)];
      OpeningBegins(config, s.file.contents);
      assert Front(more) == [] && Run(config, s, more) == Reopened(config, s, Fine);
      assert !KeepsWaiting(config, s, more);
    }
  }

  /** Such a stream: a buffer of four bytes, a limit of three, and one failure to open. */
  lemma OversizedBufferHappens()
    ensures var config := Config(3, [NEWLINE], 1, 4);
            var s := Run(config, New([]), [Record([65, 65, 65, 65], OpenFails)]);
            s.state == WaitingToReopen && !s.hung && WaitsForever(config, s)
  {
    var config := Config(3, [NEWLINE], 1, 4);
    var data: seq<Byte> := [65, 65, 65, 65];
    var events := [Record(data, OpenFails)];
    assert Front(events) == [] && Run(config, New([]), []) == New([]);
    assert Run(config, New([]), events) == Recorded(config, New([]), data, OpenFails);
    WaitsForeverIff(config, [], events);
  }

  // ----- writes that never return

  /** The file is empty or ends with a newline. */
  predicate EndsLine(bytes: seq<Byte>) {
    bytes == [] || Last(bytes) == NEWLINE
  }

  /** A stream of whole lines: records and header end with a newline and no write fails halfway. */
  predicate WholeLines(e: Event) {
    (e.io == Fine || e.io == OpenFails) && (e.Record? ==> EndsLine(e.data))
  }

  lemma WriteAtKeepsLines(f: File, data: seq<Byte>)
    requires EndsLine(f.contents) && EndsLine(data)
    ensures EndsLine(WriteAt(f, data).contents)
  {
    var rest := From(f.contents, f.offset + |data|);
    if rest != [] {
      assert Last(WriteAt(f, data).contents) == Last(rest) == Last(f.contents);
    } else if data != [] {
      assert Last(WriteAt(f, data).contents) == Last(data);
    } else {
      assert WriteAt(f, data).contents == f.contents;
    }
  }

  /** A file of whole lines that reaches behind the middle can be truncated, and stays one of whole lines. */
  lemma TruncationKeepsLines(config: Config, f: File)
    requires config.readSize > 0 && config.limit / 2 < |f.contents|
    requires EndsLine(config.header) && EndsLine(f.contents)
    ensures var r := TruncatedInHalf(config, f); r.Some? && EndsLine(r.value.contents)
  {
    var half := config.limit / 2;
    assert f.contents[|f.contents| - 1] == NEWLINE;
    SearchHangsIff(config, f.contents, half);
    var lastHalf := From(f.contents, NextLine(config, f.contents, half).value);
    if lastHalf != [] {
      assert Last(config.header + lastHalf) == Last(lastHalf) == Last(f.contents);
    } else {
      assert config.header + lastHalf == config.header;
    }
  }

  lemma WriteKeepsLines(config: Config, f: File, data: seq<Byte>)
    requires |f.contents| < config.limit && Fits(config, data) && |config.header| > 0 && config.readSize > 0
    requires EndsLine(config.header) && EndsLine(f.contents) && EndsLine(data)
    ensures var r := Write(config, f, data); r.Written? && EndsLine(r.file.contents)
  {
    if Truncates(config, f, data) {
      TruncationKeepsLines(config, f);
      WriteAtKeepsLines(TruncatedInHalf(config, f).value, data);
    } else {
      WriteAtKeepsLines(f, data);
    }
  }

  lemma OpeningKeepsLines(config: Config, contents: seq<Byte>)
    requires Roomy(config) && |contents| < config.limit && EndsLine(config.header) && EndsLine(contents)
    ensures var f: File := RawFile(contents, 0);
            var r := Write(config, f, config.header); r.Written? && EndsLine(r.file.contents)
  {
  }

  predicate LinesValid(s: Stream) {
    !s.hung && EndsLine(s.file.contents) && EndsLine(s.buffer)
  }

  lemma NextKeepsLines(config: Config, s: Stream, e: Event)
    requires Roomy(config) && config.readSize > 0 && EndsLine(config.header)
    requires FileValid(config, s) && LinesValid(s) && Allowed(config, s, e) && WholeLines(e)
    ensures LinesValid(Next(config, s, e))
  {
    match e
    case Record(data, io) => RecordKeepsLines(config, s, data, io);
    case Reopen(io) =>
      if s.state == WaitingToReopen {
        ReopenKeepsLines(config, s, io);
      }
  }

  lemma TryWriteKeepsLines(config: Config, f: File, data: seq<Byte>, io: Io)
    requires |f.contents| < config.limit && Fits(config, data) && |config.header| > 0 && config.readSize > 0
    requires EndsLine(config.header) && EndsLine(f.contents) && EndsLine(data) && !io.WriteFails?
    ensures var a := TryWrite(config, f, data, io); a.Done? && EndsLine(a.file.contents)
  {
    WriteKeepsLines(config, f, data);
  }

  lemma BufferedKeepsLines(config: Config, s: Stream, data: seq<Byte>)
    requires EndsLine(s.buffer) && EndsLine(data)
    ensures EndsLine(Buffered(config, s, data).buffer)
  {
    SuffixKeepsLines(s.buffer + data, config.capacity);
  }

  lemma FirstRecordKeepsLines(config: Config, s: Stream, data: seq<Byte>, io: Io)
    requires Roomy(config) && config.readSize > 0 && EndsLine(config.header) && s.state == Closed
    requires FileValid(config, s) && LinesValid(s) && Fits(config, data) && WholeLines(Record(data, io))
    ensures LinesValid(Recorded(config, s, data, io))
  {
    if io == OpenFails {
      BufferedKeepsLines(config, s.(file := RawFile(s.file.contents, 0)), data);
    } else {
      OpeningWritesHeader(config, s.file.contents);
      OpeningKeepsLines(config, s.file.contents);
      var f: File := RawFile(s.file.contents, 0);
      TryWriteKeepsLines(config, Write(config, f, config.header).file, data, io);
    }
  }

  lemma RecordKeepsLines(config: Config, s: Stream, data: seq<Byte>, io: Io)
    requires Roomy(config) && config.readSize > 0 && EndsLine(config.header)
    requires FileValid(config, s) && LinesValid(s) && Fits(config, data) && WholeLines(Record(data, io))
    ensures LinesValid(Recorded(config, s, data, io))
  {
    match s.state
    case Closed => FirstRecordKeepsLines(config, s, data, io);
    case Opened => TryWriteKeepsLines(config, s.file, data, io);
    case WaitingToReopen => BufferedKeepsLines(config, s, data);
  }

  lemma ReopenKeepsLines(config: Config, s: Stream, io: Io)
    requires Roomy(config) && config.readSize > 0 && EndsLine(config.header)
    requires FileValid(config, s) && LinesValid(s) && (io == Fine || io == OpenFails)
    ensures LinesValid(Reopened(config, s, io))
  {
    OpeningWritesHeader(config, s.file.contents);
    OpeningKeepsLines(config, s.file.contents);
    var f: File := RawFile(s.file.contents, 0);
    WriteKeepsLines(config, Write(config, f, config.header).file, s.buffer);
  }

  lemma SuffixKeepsLines(bytes: seq<Byte>, n: nat)
    requires EndsLine(bytes)
    ensures EndsLine(Suffix(bytes, n))
  {
  }

  /**
   A stream of whole lines never hangs: if the first contents, the header and every record end with
   a newline, the records fit, and opening is all that fails, every write returns.
   */
  lemma {:induction false} WholeLinesNeverHang(config: Config, contents: seq<Byte>, events: seq<Event>)
    requires Roomy(config) && config.readSize > 0 && EndsLine(config.header)
    requires |contents| < config.limit && EndsLine(contents) && AllAllowed(config, contents, events)
    requires forall e | e in events :: WholeLines(e)
    ensures !Run(config, New(contents), events).hung && LinesValid(Run(config, New(contents), events))
  {
    if events != [] {
      var before := Front(events);
      assert forall k | 0 <= k < |before| :: before[..k] == events[..k] && before[k] == events[k];
      WholeLinesNeverHang(config, contents, before);
      FileStaysBounded(config, contents, before);
      assert events[..|events| - 1] == before;
      assert Last(events) in events;
      NextKeepsLines(config, Run(config, New(contents), before), Last(events));
    }
  }

  /**
   A record above half the limit can hang the stream: written to a file that ends below the middle,
   it asks for a truncation whose search starts behind the end of the file.
   */
  lemma LargeRecordHangs(config: Config, f: File, data: seq<Byte>)
    requires 0 < config.readSize <= config.limit - config.limit / 2
    requires |f.contents| <= config.limit / 2 && config.limit - f.offset <= |data| <= config.limit
    ensures Write(config, f, data) == NeverReturns
  {
    SearchHangsIff(config, f.contents, config.limit / 2);
  }

  // ----- the object

  class LogFileOutputStream {
    const config: Config
    var state: State
    var file: File
    var buffer: seq<Byte>
    var timer: bool
    var hung: bool

    function Model(): Stream
      reads this
    {
      Stream(state, file, buffer, timer, hung)
    }

    constructor (config: Config, contents: seq<Byte>)
      ensures this.config == config && Model() == New(contents)
    {
      this.config := config;
      state, file, buffer, timer, hung := Closed, RawFile(contents, 0), [], false, false;
    }

    /** The state observer. */
    method AssignState(newState: State)
      modifies this`state, this`timer
      ensures Model() == SetState(old(Model()), newState)
    {
      var oldState := state;
      state := newState;
      match (oldState, newState)
      case (Opened, WaitingToReopen) => timer := true;
      case (Closed, WaitingToReopen) => timer := true;
      case (WaitingToReopen, Opened) => timer := false;
      case (WaitingToReopen, Closed) => timer := false;
      case _ =>
    }

    method BufferData(data: seq<Byte>)
      modifies this`buffer
      ensures Model() == Buffered(config, old(Model()), data)
    {
      buffer := buffer + data;
      if |buffer| > config.capacity {
        buffer := buffer[|buffer| - config.capacity..];
      }
    }

    method WriteRecord(data: seq<Byte>, io: Io)
      modifies this
      ensures Model() == AfterWrite(config, old(Model()), data, TryWrite(config, old(file), data, io))
    {
      var attempt := TryWrite(config, file, data, io);
      match attempt
      case Threw(f) =>
        file := f;
        BufferData(data);
        AssignState(WaitingToReopen);
      case Hung => hung := true;
      case Done(f) => file := f;
    }

    method WriteOnQueue(data: seq<Byte>, io: Io)
      requires BufferValid(config, Model()) && !hung
      modifies this
      ensures Model() == Next(config, old(Model()), Record(data, io))
      ensures BufferValid(config, Model())
    {
      NextKeepsBuffer(config, Model(), Record(data, io));
      match state
      case Closed =>
        var attempt := TryOpen(config, file.contents, io);
        match attempt {
          case Threw(f) =>
            file := f;
            BufferData(data);
            AssignState(WaitingToReopen);
          case Hung => hung := true;
          case Done(f) =>
            file := f;
            AssignState(Opened);
            WriteRecord(data, io);
        }
      case Opened => WriteRecord(data, io);
      case WaitingToReopen => BufferData(data);
    }

    method ReopenFile(io: Io)
      requires BufferValid(config, Model()) && !hung && state == WaitingToReopen
      modifies this
      ensures Model() == Next(config, old(Model()), Reopen(io))
      ensures BufferValid(config, Model())
    {
      NextKeepsBuffer(config, Model(), Reopen(io));
      var attempt := TryOpen(config, file.contents, io);
      if attempt.Done? && buffer != [] {
        attempt := TryWrite(config, attempt.file, buffer, io);
      }
      match attempt
      case Threw(f) => file := f;
      case Hung => hung := true;
      case Done(f) =>
        file := f;
        buffer := [];
        AssignState(Opened);
    }
  }
}
