/** Whole lives of a log: writes, failures, crashes and restarts, and which of its records can still be read. */
module WalLife {
  import opened Basics
  import opened Record
  import opened Wal

  /** JSON text has no NUL byte. */
  ghost predicate NulFree(codec: Codec) {
    forall b :: codec.unmarshal(b).Some? ==> 0 !in b
  }

  /** The reader gets to the very end of the file. */
  predicate Intact(codec: Codec, file: Bytes) {
    Scan(codec, file).good == |file|
  }

  // ---------------------------------------------------------------- a frame behind any file

  predicate FrameStart(b: Bytes) {
    |b| >= HEADER_SIZE && b[0] == 0x4c && b[1] == 0x41 && b[2] == 0x57 && b[3] == 0x46 && b[7] == 0
  }

  lemma FrameStarts(codec: Codec, payload: Bytes, later: Bytes)
    requires |payload| <= MAX_PAYLOAD
    ensures FrameStart(Frame(codec, payload) + later)
  {
    MagicBytes();
    ShortLengthHighByte(|payload|);
  }

  lemma FoundStarts(codec: Codec, ahead: Bytes)
    requires ReadNextRecord(codec, ahead).Found?
    ensures FrameStart(ahead)
    ensures codec.unmarshal(ahead[HEADER_SIZE..ReadNextRecord(codec, ahead).size]).Some?
  {
    var r := ReadNextRecord(codec, ahead);
    FoundIsFrame(codec, ahead, r.rec, r.size);
    FrameStarts(codec, ahead[HEADER_SIZE..r.size], ahead[r.size..]);
    assert ahead == ahead[..r.size] + ahead[r.size..];
  }

  lemma FoundHasNoNul(codec: Codec, ahead: Bytes, i: nat)
    requires NulFree(codec) && ReadNextRecord(codec, ahead).Found?
    requires HEADER_SIZE <= i < ReadNextRecord(codec, ahead).size
    ensures ahead[i] != 0
  {
    FoundStarts(codec, ahead);
    var payload := ahead[HEADER_SIZE..ReadNextRecord(codec, ahead).size];
    assert ahead[i] == payload[i - HEADER_SIZE] && ahead[i] in payload;
  }

  /** More bytes make nothing of an unreadable tail that ends before them. */
  lemma FoundReachesFurther(codec: Codec, tail: Bytes, next: Bytes)
    requires !ReadNextRecord(codec, tail).Found? && ReadNextRecord(codec, tail + next).Found?
    ensures ReadNextRecord(codec, tail + next).size > |tail|
  {
    var r := ReadNextRecord(codec, tail + next);
    if r.size <= |tail| {
      FoundIsFrame(codec, tail + next, r.rec, r.size);
      assert tail == (tail + next)[..r.size] + tail[r.size..];
      ReadFrame(codec, (tail + next)[HEADER_SIZE..r.size], tail[r.size..]);
    }
  }

  lemma ShortTailNoFrame(tail: Bytes, next: Bytes)
    requires 0 < |tail| <= 4 && FrameStart(next)
    ensures !FrameStart(tail + next)
  {
    assert (tail + next)[|tail|] == next[0] && (tail + next)[|tail| + 3] == next[3];
  }

  lemma NoFrameShifted(next: Bytes, k: nat)
    requires FrameStart(next) && 0 < k <= 7
    ensures !FrameStart(next[k..])
  {
    assert next[k..][0] == next[k];
    assert k > 3 ==> next[k..][7 - k] == next[7];
  }

  /** A record read across the start of a frame takes at most 7 bytes of it: its eighth byte is a NUL. */
  lemma FoundTakesLittle(codec: Codec, tail: Bytes, next: Bytes)
    requires NulFree(codec) && tail != [] && FrameStart(next) && ReadNextRecord(codec, tail + next).Found?
    ensures ReadNextRecord(codec, tail + next).size <= |tail| + 7
  {
    var ahead, size := tail + next, ReadNextRecord(codec, tail + next).size;
    FoundStarts(codec, ahead);
    if |tail| <= 4 {
      ShortTailNoFrame(tail, next);
    } else if size > |tail| + 7 {
      assert ahead[|tail| + 7] == next[7];
      FoundHasNoNul(codec, ahead, |tail| + 7);
    }
  }

  lemma NoFrameInside(codec: Codec, next: Bytes, k: nat)
    requires FrameStart(next) && 0 < k <= 7
    ensures !ReadNextRecord(codec, next[k..]).Found?
  {
    NoFrameShifted(next, k);
    if ReadNextRecord(codec, next[k..]).Found? {
      FoundStarts(codec, next[k..]);
    }
  }

  lemma ScanOne(codec: Codec, ahead: Bytes)
    ensures var r := ReadNextRecord(codec, ahead);
      if !r.Found? then Scan(codec, ahead).good == 0
      else !ReadNextRecord(codec, ahead[r.size..]).Found? ==> Scan(codec, ahead).good == r.size
  {
  }

  lemma SwallowedStart(codec: Codec, tail: Bytes, next: Bytes)
    requires NulFree(codec) && tail != [] && FrameStart(next) && !ReadNextRecord(codec, tail).Found?
    ensures Scan(codec, tail + next).good <= |tail| + 7
  {
    var ahead := tail + next;
    ScanOne(codec, ahead);
    if ReadNextRecord(codec, ahead).Found? {
      var size := ReadNextRecord(codec, ahead).size;
      FoundReachesFurther(codec, tail, next);
      FoundTakesLittle(codec, tail, next);
      assert ahead[size..] == next[size - |tail|..];
      NoFrameInside(codec, next, size - |tail|);
    }
  }

  /** What is appended to a file is read on from where its last whole record ends. */
  lemma ScanOn(codec: Codec, file: Bytes, more: Bytes)
    ensures var s := Scan(codec, file);
      Scan(codec, file + more) == After(s.records, s.good, Scan(codec, file[s.good..] + more))
      && !ReadNextRecord(codec, file[s.good..]).Found?
  {
    var payloads := ScanReadsLog(codec, file);
    var good := Scan(codec, file).good;
    assert file + more == Log(codec, payloads) + (file[good..] + more);
    ScanLog(codec, payloads, file[good..] + more);
  }

  /** The reader gets past these bytes of the file. */
  predicate Reads(codec: Codec, seen: Bytes, file: Bytes) {
    seen <= file && Scan(codec, file).good >= |seen|
  }

  /** The reader gets past the frame that was written behind a file. */
  predicate ReadsBack(codec: Codec, before: Bytes, payload: Bytes, file: Bytes) {
    Reads(codec, before + Frame(codec, payload), file)
  }

  lemma IntactReadsBack(codec: Codec, before: Bytes, payload: Bytes, later: Bytes)
    requires Readable(codec, payload) && Intact(codec, before)
    ensures var s := Scan(codec, (before + Frame(codec, payload)) + later);
      s.good >= |before + Frame(codec, payload)|
      && Scan(codec, before).records + [codec.unmarshal(payload).value] <= s.records
  {
    var frame, r := Frame(codec, payload), Scan(codec, before);
    assert (before + frame) + later == before + (frame + later);
    assert before[r.good..] + (frame + later) == frame + later;
    ScanOn(codec, before, frame + later);
    ScanFrame(codec, payload, later);
    AfterAfter(r.records, r.good, [codec.unmarshal(payload).value], |frame|, Scan(codec, later));
  }

  lemma BrokenStopsShort(codec: Codec, before: Bytes, payload: Bytes, later: Bytes)
    requires NulFree(codec) && Readable(codec, payload) && !Intact(codec, before)
    ensures Scan(codec, (before + Frame(codec, payload)) + later).good <= |before| + 7
  {
    var frame, r := Frame(codec, payload), Scan(codec, before);
    assert (before + frame) + later == before + (frame + later);
    ScanOn(codec, before, frame + later);
    FrameStarts(codec, payload, later);
    SwallowedStart(codec, before[r.good..], frame + later);
  }

  /**
   A record written behind a file, whatever is in it, is read back from every file that goes on from there, if and
   only if the reader got to the end of the file before the write; otherwise it never gets past the eighth byte of the
   frame.
   */
  lemma ReadsBackIffIntact(codec: Codec, before: Bytes, payload: Bytes, file: Bytes)
    requires NulFree(codec) && Readable(codec, payload) && before + Frame(codec, payload) <= file
    ensures ReadsBack(codec, before, payload, file) <==> Intact(codec, before)
    ensures !Intact(codec, before) ==> Scan(codec, file).good < |before| + 8
    ensures Intact(codec, before) ==>
      Scan(codec, before).records + [codec.unmarshal(payload).value] <= Scan(codec, file).records
  {
    var written := before + Frame(codec, payload);
    assert file == written + file[|written|..];
    if Intact(codec, before) {
      IntactReadsBack(codec, before, payload, file[|written|..]);
    } else {
      BrokenStopsShort(codec, before, payload, file[|written|..]);
    }
  }

  // ---------------------------------------------------------------- what keeps a file intact

  lemma AppendIntactIff(codec: Codec, file: Bytes, payload: Bytes)
    requires NulFree(codec) && Readable(codec, payload)
    ensures Intact(codec, file + Frame(codec, payload)) <==> Intact(codec, file)
  {
    ReadsBackIffIntact(codec, file, payload, file + Frame(codec, payload));
  }

  function Take(b: Bytes, n: nat): Bytes {
    if n <= |b| then b[..n] else b
  }

  lemma IntactScan(codec: Codec, file: Bytes, more: Bytes)
    requires Intact(codec, file)
    ensures Scan(codec, file + more) == After(Scan(codec, file).records, |file|, Scan(codec, more))
  {
    ScanOn(codec, file, more);
    assert file[|file|..] + more == more;
  }

  /** A failed write leaves an intact file intact if and only if it left nothing, or the whole frame. */
  lemma FailureIntactIff(codec: Codec, file: Bytes, payload: Bytes, n: nat)
    requires Intact(codec, file) && Readable(codec, payload)
    ensures Intact(codec, file + Take(Frame(codec, payload), n)) <==> n == 0 || n >= |Frame(codec, payload)|
  {
    var frame := Frame(codec, payload);
    IntactScan(codec, file, Take(frame, n));
    if n < |frame| {
      TornFrame(codec, payload, n);
    } else {
      ReadFrame(codec, payload, []);
      assert frame + [] == frame;
    }
  }

  /** Reopening mends any file, except one that ends in a piece of a header. */
  lemma RecoveryIntactIff(codec: Codec, file: Bytes)
    ensures Intact(codec, Recovered(codec, file)) <==> Intact(codec, file) || !Scan(codec, file).clean
    ensures Scan(codec, Recovered(codec, file)).good == Scan(codec, file).good
  {
    var payloads := ScanReadsLog(codec, file);
    if !Scan(codec, file).clean {
      LogScansClean(codec, payloads);
    }
  }

  /** A crash leaves an intact file intact if and only if it got nothing out, or at least a whole header. */
  lemma CrashIntactIff(codec: Codec, file: Bytes, payload: Bytes, n: nat)
    requires Intact(codec, file) && Readable(codec, payload)
    ensures Intact(codec, Recovered(codec, file + Take(Frame(codec, payload), n))) <==> n == 0 || n >= HEADER_SIZE
  {
    var frame := Frame(codec, payload);
    RecoveryIntactIff(codec, file + Take(frame, n));
    FailureIntactIff(codec, file, payload, n);
    IntactScan(codec, file, Take(frame, n));
    if n < |frame| {
      TornFrame(codec, payload, n);
    }
  }

  // ---------------------------------------------------------------- runs

  /**
   A write that is acknowledged; one that fails after some of its bytes, or after all of them when only the sync failed;
   one cut off by a crash after some of its bytes, followed by a restart.
   */
  datatype Event =
    | Append(payload: Bytes)
    | Fail(payload: Bytes, written: nat)
    | Crash(payload: Bytes, written: nat)

  function FileStep(codec: Codec, before: Bytes, e: Event): Bytes {
    match e
    case Append(payload) => before + Frame(codec, payload)
    case Fail(payload, written) => before + Take(Frame(codec, payload), written)
    case Crash(payload, written) => Recovered(codec, before + Take(Frame(codec, payload), written))
  }

  function FileAfter(codec: Codec, start: Bytes, events: seq<Event>): Bytes {
    if events == [] then start
    else FileStep(codec, FileAfter(codec, start, events[..|events| - 1]), events[|events| - 1])
  }

  lemma ReadOn(codec: Codec, file: Bytes, more: Bytes)
    ensures Scan(codec, file + more).good >= Scan(codec, file).good
  {
    ScanOn(codec, file, more);
  }

  /** What the reader has got to, no later event takes away. */
  lemma ReadStays(codec: Codec, seen: Bytes, before: Bytes, e: Event)
    requires Reads(codec, seen, before)
    ensures Reads(codec, seen, FileStep(codec, before, e))
  {
    var more := if e.Append? then Frame(codec, e.payload) else Take(Frame(codec, e.payload), e.written);
    ReadOn(codec, before, more);
    if e.Crash? {
      RecoveryIntactIff(codec, before + more);
    }
  }

  lemma PrefixOfRun<T>(events: seq<T>, k: nat)
    requires k < |events|
    ensures events[..|events| - 1][..k] == events[..k]
  {
  }

  lemma {:induction false} ReadStaysOn(codec: Codec, start: Bytes, seen: Bytes, events: seq<Event>, k: nat)
    requires k <= |events| && Reads(codec, seen, FileAfter(codec, start, events[..k]))
    ensures Reads(codec, seen, FileAfter(codec, start, events))
  {
    if k == |events| {
      assert events[..k] == events;
    } else {
      var before, last := FileAfter(codec, start, events[..|events| - 1]), events[|events| - 1];
      assert FileAfter(codec, start, events) == FileStep(codec, before, last);
      PrefixOfRun(events, k);
      ReadStaysOn(codec, start, seen, events[..|events| - 1], k);
      ReadStays(codec, seen, before, last);
    }
  }

  lemma ReadBackStays(codec: Codec, start: Bytes, events: seq<Event>, i: nat)
    requires NulFree(codec) && i < |events| && events[i].Append? && Readable(codec, events[i].payload)
    requires Intact(codec, FileAfter(codec, start, events[..i]))
    ensures ReadsBack(codec, FileAfter(codec, start, events[..i]), events[i].payload, FileAfter(codec, start, events))
  {
    var before, payload := FileAfter(codec, start, events[..i]), events[i].payload;
    var written := before + Frame(codec, payload);
    ReadsBackIffIntact(codec, before, payload, written);
    assert events[..i + 1][..i] == events[..i];
    assert FileAfter(codec, start, events[..i + 1]) == written;
    ReadStaysOn(codec, start, written, events, i + 1);
  }

  /**
   From whatever file, an acknowledged record is read back after any run of later writes, failures, crashes and
   restarts, if and only if the file was intact when it was written.
   */
  lemma AcknowledgedReadIff(codec: Codec, start: Bytes, events: seq<Event>, i: nat)
    requires NulFree(codec) && i < |events| && events[i].Append? && Readable(codec, events[i].payload)
    ensures var before := FileAfter(codec, start, events[..i]);
      ReadsBack(codec, before, events[i].payload, FileAfter(codec, start, events)) <==> Intact(codec, before)
    ensures var before := FileAfter(codec, start, events[..i]);
      Intact(codec, before) ==>
        Scan(codec, before).records + [codec.unmarshal(events[i].payload).value]
          <= Scan(codec, FileAfter(codec, start, events)).records
  {
    var before, payload, file := FileAfter(codec, start, events[..i]), events[i].payload,
      FileAfter(codec, start, events);
    if Intact(codec, before) {
      ReadBackStays(codec, start, events, i);
    }
    if before + Frame(codec, payload) <= file {
      ReadsBackIffIntact(codec, before, payload, file);
    }
  }

  lemma {:induction false} AppendsKeepIntact(codec: Codec, file: Bytes, payloads: seq<Bytes>)
    requires NulFree(codec) && AllReadable(codec, payloads)
    ensures Intact(codec, file + Log(codec, payloads)) <==> Intact(codec, file)
    decreases |payloads|
  {
    if payloads == [] {
      assert file + Log(codec, payloads) == file;
    } else {
      var frame, rest := Frame(codec, payloads[0]), Log(codec, payloads[1..]);
      assert file + Log(codec, payloads) == (file + frame) + rest;
      AppendsKeepIntact(codec, file + frame, payloads[1..]);
      AppendIntactIff(codec, file, payloads[0]);
    }
  }

  /**
   After a write that failed part of the way, the records that the log acknowledges next, without being reopened, are
   all out of the reader's reach, whatever is written later; so they are if and only if the failure left a piece of
   the frame.
   */
  lemma FailureHidesNext(
    codec: Codec, file: Bytes, failed: Bytes, n: nat, between: seq<Bytes>, payload: Bytes, later: Bytes)
    requires NulFree(codec) && Intact(codec, file) && Readable(codec, failed)
    requires AllReadable(codec, between) && Readable(codec, payload)
    ensures var before := (file + Take(Frame(codec, failed), n)) + Log(codec, between);
      !ReadsBack(codec, before, payload, (before + Frame(codec, payload)) + later) <==> 0 < n < |Frame(codec, failed)|
  {
    var left := file + Take(Frame(codec, failed), n);
    FailureIntactIff(codec, file, failed, n);
    AppendsKeepIntact(codec, left, between);
    var before := left + Log(codec, between);
    ReadsBackIffIntact(codec, before, payload, (before + Frame(codec, payload)) + later);
  }

  /** The payloads that a life of the log owes its readers: every acknowledged one, and any other that got out whole. */
  function Owed(codec: Codec, events: seq<Event>): seq<Bytes> {
    if events == [] then []
    else
      var before, e := Owed(codec, events[..|events| - 1]), events[|events| - 1];
      if e.Append? || e.written >= |Frame(codec, e.payload)| then before + [e.payload] else before
  }

  /** A failure outside a frame, or a crash outside a header. */
  predicate Tidy(codec: Codec, e: Event) {
    match e
    case Append(_) => true
    case Fail(payload, written) => written == 0 || written >= |Frame(codec, payload)|
    case Crash(_, written) => written == 0 || written >= HEADER_SIZE
  }

  predicate AllAccepted(codec: Codec, events: seq<Event>) {
    forall i :: 0 <= i < |events| ==> Readable(codec, events[i].payload)
  }

  predicate AllTidy(codec: Codec, events: seq<Event>) {
    forall i :: 0 <= i < |events| ==> Tidy(codec, events[i])
  }

  /** The file is intact at every moment of the run. */
  predicate AlwaysIntact(codec: Codec, start: Bytes, events: seq<Event>) {
    Intact(codec, FileAfter(codec, start, events))
    && (events == [] || AlwaysIntact(codec, start, events[..|events| - 1]))
  }

  lemma AllTidySnoc(codec: Codec, events: seq<Event>)
    requires events != []
    ensures var k := |events| - 1; AllTidy(codec, events) <==> AllTidy(codec, events[..k]) && Tidy(codec, events[k])
  {
  }

  lemma StepIntactIff(codec: Codec, file: Bytes, e: Event)
    requires Intact(codec, file) && Readable(codec, e.payload)
    ensures Intact(codec, FileStep(codec, file, e)) <==> Tidy(codec, e)
  {
    match e {
      case Append(payload) =>
        var frame := Frame(codec, payload);
        assert Take(frame, |frame|) == frame;
        FailureIntactIff(codec, file, payload, |frame|);
      case Fail(payload, written) => FailureIntactIff(codec, file, payload, written);
      case Crash(payload, written) => CrashIntactIff(codec, file, payload, written);
    }
  }

  /**
   A run from an intact file keeps it intact all along if and only if no write fails inside a frame and no crash cuts
   off a header.
   */
  lemma {:induction false} AlwaysIntactIff(codec: Codec, start: Bytes, events: seq<Event>)
    requires Intact(codec, start) && AllAccepted(codec, events)
    ensures AlwaysIntact(codec, start, events) <==> AllTidy(codec, events)
  {
    if events != [] {
      var k := |events| - 1;
      AlwaysIntactIff(codec, start, events[..k]);
      AllTidySnoc(codec, events);
      if AlwaysIntact(codec, start, events[..k]) {
        StepIntactIff(codec, FileAfter(codec, start, events[..k]), events[k]);
      }
    }
  }

  lemma {:induction false} LogSnoc(codec: Codec, payloads: seq<Bytes>, payload: Bytes)
    ensures Log(codec, payloads + [payload]) == Log(codec, payloads) + Frame(codec, payload)
  {
    if payloads == [] {
      assert Log(codec, [payload]) == Frame(codec, payload) + [];
    } else {
      LogSnoc(codec, payloads[1..], payload);
      assert (payloads + [payload])[1..] == payloads[1..] + [payload];
    }
  }

  lemma StepIsLog(codec: Codec, owed: seq<Bytes>, e: Event)
    requires AllReadable(codec, owed) && Readable(codec, e.payload) && Tidy(codec, e)
    ensures FileStep(codec, Log(codec, owed), e)
      == Log(codec, if e.Append? || e.written >= |Frame(codec, e.payload)| then owed + [e.payload] else owed)
  {
    var frame := Frame(codec, e.payload);
    LogSnoc(codec, owed, e.payload);
    if e.Append? || e.written >= |frame| {
      LogScansClean(codec, owed + [e.payload]);
      assert e.Append? || Take(frame, e.written) == frame;
    } else if e.Crash? {
      CrashRecovery(codec, owed, e.payload, e.written);
      assert e.written == 0 ==> Log(codec, owed) + Take(frame, e.written) == Log(codec, owed);
      assert Log(codec, owed) + [] == Log(codec, owed);
    } else {
      assert Log(codec, owed) + Take(frame, 0) == Log(codec, owed);
    }
  }

  /** Durability over any such run, from an empty file: the file holds exactly the owed records, in order. */
  lemma {:induction false} Durable(codec: Codec, events: seq<Event>)
    requires AllAccepted(codec, events) && AllTidy(codec, events)
    ensures AllReadable(codec, Owed(codec, events))
    ensures FileAfter(codec, [], events) == Log(codec, Owed(codec, events))
    ensures Scan(codec, FileAfter(codec, [], events)).records == Records(codec, Owed(codec, events))
    ensures Scan(codec, FileAfter(codec, [], events)).clean
  {
    if events != [] {
      Durable(codec, events[..|events| - 1]);
      StepIsLog(codec, Owed(codec, events[..|events| - 1]), events[|events| - 1]);
    }
    LogScansClean(codec, Owed(codec, events));
  }
}
