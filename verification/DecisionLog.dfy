/** The decision pipeline writing to a real log file: which of the decisions it returned a replay will find. */
module DecisionLog {
  import opened Basics
  import opened Record
  import opened Wal
  import opened WalLife
  import Chain
  import Pipeline

  datatype State = State(pipe: Pipeline.State, file: Bytes)

  /** The disk decides whether a write succeeds. */
  datatype Event =
    | Build(call: nat, draft: Canonical, rest: Uncommitted, effect: Pipeline.Effect)
    | Write(call: nat, disk: Disk)

  /** A process that opens a log file finds the records that a scan of it reads. */
  function Opened(codec: Codec, seed: map<string, string>, disk: Bytes): State {
    State(Pipeline.Started(seed, Scan(codec, disk).records), Recovered(codec, disk))
  }

  /** The event as the pipeline sees it. */
  function Seen(codec: Codec, s: State, e: Event): Pipeline.Event {
    match e
    case Build(call, draft, rest, effect) => Pipeline.Build(call, draft, rest, effect)
    case Write(call, disk) =>
      Pipeline.Write(call, call in s.pipe.inFlight && Written(codec, s.file, s.pipe.inFlight[call].rec, disk).1.None?)
  }

  function FileNext(codec: Codec, s: State, e: Event): Bytes {
    if e.Write? && e.call in s.pipe.inFlight then Written(codec, s.file, s.pipe.inFlight[e.call].rec, e.disk).0
    else s.file
  }

  function Next(h: Hashing, codec: Codec, s: State, e: Event): State {
    State(Pipeline.Step(h, s.pipe, Seen(codec, s, e)), FileNext(codec, s, e))
  }

  function Run(h: Hashing, codec: Codec, start: State, events: seq<Event>): State {
    if events == [] then start else Next(h, codec, Run(h, codec, start, events[..|events| - 1]), events[|events| - 1])
  }

  function AllSeen(h: Hashing, codec: Codec, start: State, events: seq<Event>): seq<Pipeline.Event> {
    if events == [] then []
    else
      var before, e := events[..|events| - 1], events[|events| - 1];
      AllSeen(h, codec, start, before) + [Seen(codec, Run(h, codec, start, before), e)]
  }

  /** What the pipeline does is a run of the pipeline. */
  lemma {:induction false} PipelineRuns(h: Hashing, codec: Codec, start: State, events: seq<Event>)
    ensures Run(h, codec, start, events).pipe == Pipeline.Run(h, start.pipe, AllSeen(h, codec, start, events))
  {
    if events != [] {
      var before, e := events[..|events| - 1], events[|events| - 1];
      PipelineRuns(h, codec, start, before);
      Pipeline.RunSnoc(h, start.pipe, AllSeen(h, codec, start, before), Seen(codec, Run(h, codec, start, before), e));
    }
  }

  // ---------------------------------------------------------------- one returned decision

  /** A record that JSON gives back, within the size that the reader takes, or that JSON cannot write at all. */
  predicate Stores(codec: Codec, rec: Record) {
    match codec.marshal(rec)
    case None => true
    case Some(payload) => Readable(codec, payload) && codec.unmarshal(payload) == Some(rec)
  }

  lemma FileGrows(h: Hashing, codec: Codec, s: State, e: Event)
    ensures s.file <= Next(h, codec, s, e).file
  {
  }

  /** A returned decision stays as it is. */
  predicate Returned(s: Pipeline.State, call: nat, d: Pipeline.Decision) {
    call in s.returned && s.returned[call] == d && call !in s.inFlight
  }

  lemma ReturnedStays(h: Hashing, s: Pipeline.State, e: Pipeline.Event, call: nat, d: Pipeline.Decision)
    requires Returned(s, call, d)
    ensures Returned(Pipeline.Step(h, s, e), call, d)
  {
  }

  lemma {:induction false} ReturnedKept(
    h: Hashing, codec: Codec, start: State, events: seq<Event>, k: nat, call: nat, d: Pipeline.Decision)
    requires k <= |events| && Returned(Run(h, codec, start, events[..k]).pipe, call, d)
    ensures Returned(Run(h, codec, start, events).pipe, call, d)
    ensures Run(h, codec, start, events[..k]).file <= Run(h, codec, start, events).file
  {
    if k == |events| {
      assert events[..k] == events;
    } else {
      var s, e := Run(h, codec, start, events[..|events| - 1]), events[|events| - 1];
      PrefixOfRun(events, k);
      ReturnedKept(h, codec, start, events[..|events| - 1], k, call, d);
      ReturnedStays(h, s.pipe, Seen(codec, s, e), call, d);
      FileGrows(h, codec, s, e);
    }
  }

  /** The write of a call that awaits it, and that the log acknowledges. */
  predicate Acknowledges(codec: Codec, s: State, e: Event) {
    e.Write? && e.call in s.pipe.inFlight && Written(codec, s.file, s.pipe.inFlight[e.call].rec, e.disk).1.None?
  }

  lemma AcknowledgedStep(h: Hashing, codec: Codec, s: State, e: Event)
    requires Acknowledges(codec, s, e)
    ensures var p := s.pipe.inFlight[e.call];
      && codec.marshal(p.rec).Some?
      && Next(h, codec, s, e).file == s.file + Frame(codec, codec.marshal(p.rec).value)
      && Returned(Next(h, codec, s, e).pipe, e.call, Pipeline.Decision(p.effect, Some(p.rec)))
  {
  }

  /**
   The decision of a call whose write is acknowledged is returned with its record, and stays so whatever follows; a
   replay of the file reads that record, then and after whatever follows, if and only if the file was intact before
   the write.
   */
  lemma ReturnedReadIff(h: Hashing, codec: Codec, start: State, events: seq<Event>, i: nat)
    requires NulFree(codec) && i < |events| && Acknowledges(codec, Run(h, codec, start, events[..i]), events[i])
    requires Stores(codec, Run(h, codec, start, events[..i]).pipe.inFlight[events[i].call].rec)
    ensures var s, t := Run(h, codec, start, events[..i]), Run(h, codec, start, events);
      var p := s.pipe.inFlight[events[i].call];
      && Returned(t.pipe, events[i].call, Pipeline.Decision(p.effect, Some(p.rec)))
      && codec.marshal(p.rec).Some?
      && (ReadsBack(codec, s.file, codec.marshal(p.rec).value, t.file) <==> Intact(codec, s.file))
      && (Intact(codec, s.file) ==> Scan(codec, s.file).records + [p.rec] <= Scan(codec, t.file).records)
  {
    var s, t := Run(h, codec, start, events[..i]), Run(h, codec, start, events);
    var p := s.pipe.inFlight[events[i].call];
    AcknowledgedStep(h, codec, s, events[i]);
    assert events[..i + 1][..i] == events[..i];
    ReturnedKept(h, codec, start, events, i + 1, events[i].call, Pipeline.Decision(p.effect, Some(p.rec)));
    ReadsBackIffIntact(codec, s.file, codec.marshal(p.rec).value, t.file);
  }

  // ---------------------------------------------------------------- the file against the log of the run model

  /** The file is intact, and its records are the log of the run model. */
  predicate HoldsLog(codec: Codec, s: State) {
    Intact(codec, s.file) && Scan(codec, s.file).records == s.pipe.wal
  }

  /** A write that fails leaves nothing in the file. */
  predicate Honest(codec: Codec, s: State, e: Event) {
    e.Write? && e.call in s.pipe.inFlight ==>
      var (file, error) := Written(codec, s.file, s.pipe.inFlight[e.call].rec, e.disk);
      error.Some? ==> file == s.file
  }

  predicate WritesStored(codec: Codec, s: State, e: Event) {
    e.Write? && e.call in s.pipe.inFlight ==> Stores(codec, s.pipe.inFlight[e.call].rec)
  }

  lemma AppendedRecord(codec: Codec, file: Bytes, payload: Bytes)
    requires Intact(codec, file) && Readable(codec, payload)
    ensures Intact(codec, file + Frame(codec, payload))
    ensures Scan(codec, file + Frame(codec, payload)).records
      == Scan(codec, file).records + [codec.unmarshal(payload).value]
  {
    var frame := Frame(codec, payload);
    assert frame + [] == frame;
    IntactScan(codec, file, frame);
    ScanFrame(codec, payload, []);
  }

  /** From a file that holds the log, a step keeps it so if and only if it is no failing write that leaves something. */
  lemma HoldsLogStep(h: Hashing, codec: Codec, s: State, e: Event)
    requires HoldsLog(codec, s) && WritesStored(codec, s, e)
    ensures HoldsLog(codec, Next(h, codec, s, e)) <==> Honest(codec, s, e)
  {
    if e.Write? && e.call in s.pipe.inFlight && codec.marshal(s.pipe.inFlight[e.call].rec).Some? {
      var payload := codec.marshal(s.pipe.inFlight[e.call].rec).value;
      AppendedRecord(codec, s.file, payload);
      if e.disk.FailsAfter? {
        FailureIntactIff(codec, s.file, payload, e.disk.bytes);
      }
    }
  }

  predicate AllStored(h: Hashing, codec: Codec, start: State, events: seq<Event>) {
    events == [] ||
    (var before := events[..|events| - 1];
     AllStored(h, codec, start, before)
     && WritesStored(codec, Run(h, codec, start, before), events[|events| - 1]))
  }

  predicate AllHonest(h: Hashing, codec: Codec, start: State, events: seq<Event>) {
    events == [] ||
    (var before := events[..|events| - 1];
     AllHonest(h, codec, start, before) && Honest(codec, Run(h, codec, start, before), events[|events| - 1]))
  }

  predicate AlwaysHoldsLog(h: Hashing, codec: Codec, start: State, events: seq<Event>) {
    HoldsLog(codec, Run(h, codec, start, events))
    && (events == [] || AlwaysHoldsLog(h, codec, start, events[..|events| - 1]))
  }

  /** The records of the file are the log of the run model all along if and only if no failing write leaves anything. */
  lemma {:induction false} AlwaysHoldsLogIff(h: Hashing, codec: Codec, start: State, events: seq<Event>)
    requires HoldsLog(codec, start) && AllStored(h, codec, start, events)
    ensures AlwaysHoldsLog(h, codec, start, events) <==> AllHonest(h, codec, start, events)
  {
    if events != [] {
      var before := events[..|events| - 1];
      AlwaysHoldsLogIff(h, codec, start, before);
      if AlwaysHoldsLog(h, codec, start, before) {
        HoldsLogStep(h, codec, Run(h, codec, start, before), events[|events| - 1]);
      }
    }
  }

  /**
   A process that opens any file but one ending in a piece of a header, on a disk whose failing writes leave nothing:
   only a denial is returned without a record that a replay of the file reads, and that replay passes validation if
   and only if the log of the run model does.
   */
  lemma NoDecisionUnread(h: Hashing, codec: Codec, seed: map<string, string>, disk: Bytes, events: seq<Event>)
    requires Intact(codec, Recovered(codec, disk))
    requires AllStored(h, codec, Opened(codec, seed, disk), events)
    requires AllHonest(h, codec, Opened(codec, seed, disk), events)
    ensures var s := Run(h, codec, Opened(codec, seed, disk), events); var found := Scan(codec, s.file).records;
      && (forall c :: c in s.pipe.returned && s.pipe.returned[c].effect != Pipeline.Deny ==>
            s.pipe.returned[c].logged.Some? && s.pipe.returned[c].logged.value in found)
      && (Chain.Accepts(h, found) <==> Chain.Accepts(h, s.pipe.wal))
  {
    var start := Opened(codec, seed, disk);
    RecoveredScansClean(codec, disk);
    AlwaysHoldsLogIff(h, codec, start, events);
    PipelineRuns(h, codec, start, events);
    Pipeline.NoDecisionWithoutRecord(h, seed, Scan(codec, disk).records, AllSeen(h, codec, start, events));
  }

  // ---------------------------------------------------------------- several processes, one file

  /**
   One process: the hashes the store gives it at its start, what happens in it, and the crash that ends it, which gets
   less than a whole frame out of the record of a call that awaits its write.
   */
  datatype Process = Process(seed: map<string, string>, events: seq<Event>, call: nat, cut: nat)

  function Ended(h: Hashing, codec: Codec, disk: Bytes, p: Process): State {
    Run(h, codec, Opened(codec, p.seed, disk), p.events)
  }

  /** What the crash lets out. A frame that gets out whole is a write like any other. */
  function Torn(codec: Codec, s: State, call: nat, cut: nat): Bytes {
    if call in s.pipe.inFlight && codec.marshal(s.pipe.inFlight[call].rec).Some? then
      var frame := Frame(codec, codec.marshal(s.pipe.inFlight[call].rec).value);
      if cut < |frame| then frame[..cut] else []
    else []
  }

  function DiskAfter(h: Hashing, codec: Codec, disk: Bytes, p: Process): Bytes {
    var s := Ended(h, codec, disk, p);
    s.file + Torn(codec, s, p.call, p.cut)
  }

  /** The file after a life of processes, each started on what the one before left. */
  function Life(h: Hashing, codec: Codec, disk: Bytes, ps: seq<Process>): Bytes {
    if ps == [] then disk else DiskAfter(h, codec, Life(h, codec, disk, ps[..|ps| - 1]), ps[|ps| - 1])
  }

  /**
   No write fails, no agent has two calls at a time, JSON gives the records back, and the crash cuts off no header.
   */
  predicate Orderly(h: Hashing, codec: Codec, disk: Bytes, p: Process) {
    var start, s := Opened(codec, p.seed, disk), Ended(h, codec, disk, p);
    && Pipeline.Serial(h, start.pipe, AllSeen(h, codec, start, p.events))
    && AllStored(h, codec, start, p.events)
    && (p.call in s.pipe.inFlight ==> Stores(codec, s.pipe.inFlight[p.call].rec))
    && (p.cut == 0 || p.cut >= HEADER_SIZE)
  }

  predicate AllOrderly(h: Hashing, codec: Codec, disk: Bytes, ps: seq<Process>) {
    ps == [] ||
    (var before := ps[..|ps| - 1];
     AllOrderly(h, codec, disk, before) && Orderly(h, codec, Life(h, codec, disk, before), ps[|ps| - 1]))
  }

  lemma {:induction false} SerialIsHonest(h: Hashing, codec: Codec, start: State, events: seq<Event>)
    requires Pipeline.Serial(h, start.pipe, AllSeen(h, codec, start, events))
    ensures AllHonest(h, codec, start, events)
  {
    if events != [] {
      var before := events[..|events| - 1];
      var seen := AllSeen(h, codec, start, before);
      var last := Seen(codec, Run(h, codec, start, before), events[|events| - 1]);
      assert (seen + [last])[..|seen|] == seen;
      SerialIsHonest(h, codec, start, before);
    }
  }

  /** An orderly process leaves a file that opens intact, with exactly the records of its log. */
  lemma OrderlyHoldsLog(h: Hashing, codec: Codec, disk: Bytes, p: Process)
    requires Intact(codec, Recovered(codec, disk)) && Orderly(h, codec, disk, p)
    ensures HoldsLog(codec, Ended(h, codec, disk, p))
  {
    var start := Opened(codec, p.seed, disk);
    RecoveredScansClean(codec, disk);
    SerialIsHonest(h, codec, start, p.events);
    AlwaysHoldsLogIff(h, codec, start, p.events);
  }

  lemma TornIsCutOff(codec: Codec, file: Bytes, payload: Bytes, cut: nat)
    requires Intact(codec, file) && Readable(codec, payload) && cut < |Frame(codec, payload)|
    requires cut == 0 || cut >= HEADER_SIZE
    ensures Scan(codec, file + Frame(codec, payload)[..cut]).records == Scan(codec, file).records
    ensures Intact(codec, Recovered(codec, file + Frame(codec, payload)[..cut]))
  {
    CrashIntactIff(codec, file, payload, cut);
    IntactScan(codec, file, Frame(codec, payload)[..cut]);
    TornFrame(codec, payload, cut);
  }

  lemma IntactIsRecovered(codec: Codec, file: Bytes)
    requires Intact(codec, file)
    ensures Recovered(codec, file) == file
  {
    assert file[..|file|] == file;
  }

  lemma OrderlyDisk(h: Hashing, codec: Codec, disk: Bytes, p: Process)
    requires Intact(codec, Recovered(codec, disk)) && Orderly(h, codec, disk, p)
    ensures Scan(codec, DiskAfter(h, codec, disk, p)).records == Ended(h, codec, disk, p).pipe.wal
    ensures Intact(codec, Recovered(codec, DiskAfter(h, codec, disk, p)))
  {
    var s := Ended(h, codec, disk, p);
    OrderlyHoldsLog(h, codec, disk, p);
    if Torn(codec, s, p.call, p.cut) == [] {
      assert s.file + [] == s.file;
      IntactIsRecovered(codec, s.file);
    } else {
      TornIsCutOff(codec, s.file, codec.marshal(s.pipe.inFlight[p.call].rec).value, p.cut);
    }
  }

  /** The log that a process ends with goes on from the records that it found. */
  lemma LogGoesOn(h: Hashing, codec: Codec, disk: Bytes, p: Process)
    ensures Scan(codec, disk).records <= Ended(h, codec, disk, p).pipe.wal
  {
    var start := Opened(codec, p.seed, disk);
    PipelineRuns(h, codec, start, p.events);
    Pipeline.LogGrows(h, start.pipe, AllSeen(h, codec, start, p.events), 0);
  }

  /** The store knew the last record of each agent that the process logged a record of. */
  ghost predicate StoreKnew(h: Hashing, codec: Codec, disk: Bytes, p: Process) {
    var found := Scan(codec, disk).records;
    forall agent ::
      Pipeline.Resumed(found, Ended(h, codec, disk, p).pipe, agent) ==> Pipeline.Knows(h, p.seed, found, agent)
  }

  lemma ProcessAcceptedIff(h: Hashing, codec: Codec, disk: Bytes, p: Process)
    requires Orderly(h, codec, disk, p)
    ensures Chain.Accepts(h, Ended(h, codec, disk, p).pipe.wal)
      <==> Chain.Accepts(h, Scan(codec, disk).records) && StoreKnew(h, codec, disk, p)
  {
    var start, found, wal := Opened(codec, p.seed, disk), Scan(codec, disk).records, Ended(h, codec, disk, p).pipe.wal;
    PipelineRuns(h, codec, start, p.events);
    LogGoesOn(h, codec, disk, p);
    if Chain.Accepts(h, found) {
      Pipeline.SerialAcceptedIff(h, p.seed, found, AllSeen(h, codec, start, p.events));
    } else if Chain.Accepts(h, wal) {
      assert wal[..|found|] == found;
      Chain.AcceptsPrefix(h, wal, |found|);
    }
  }

  lemma {:induction false} LifeIntact(h: Hashing, codec: Codec, disk: Bytes, ps: seq<Process>)
    requires Intact(codec, Recovered(codec, disk)) && AllOrderly(h, codec, disk, ps)
    ensures Intact(codec, Recovered(codec, Life(h, codec, disk, ps)))
  {
    if ps != [] {
      var before := ps[..|ps| - 1];
      LifeIntact(h, codec, disk, before);
      OrderlyDisk(h, codec, Life(h, codec, disk, before), ps[|ps| - 1]);
    }
  }

  ghost predicate StoresKnew(h: Hashing, codec: Codec, disk: Bytes, ps: seq<Process>) {
    ps == [] ||
    (var before := ps[..|ps| - 1];
     StoresKnew(h, codec, disk, before) && StoreKnew(h, codec, Life(h, codec, disk, before), ps[|ps| - 1]))
  }

  /**
   Over any number of crashes and restarts, replay of the file passes validation if and only if each process was given
   by its store the hash of the last record, in the file it found, of each agent that it went on to log a record of.
   */
  lemma {:induction false} LifeAcceptedIff(h: Hashing, codec: Codec, disk: Bytes, ps: seq<Process>)
    requires Intact(codec, Recovered(codec, disk)) && Chain.Accepts(h, Scan(codec, disk).records)
    requires AllOrderly(h, codec, disk, ps)
    ensures Chain.Accepts(h, Scan(codec, Life(h, codec, disk, ps)).records) <==> StoresKnew(h, codec, disk, ps)
  {
    if ps != [] {
      var before, p := ps[..|ps| - 1], ps[|ps| - 1];
      LifeAcceptedIff(h, codec, disk, before);
      LifeIntact(h, codec, disk, before);
      OrderlyDisk(h, codec, Life(h, codec, disk, before), p);
      ProcessAcceptedIff(h, codec, Life(h, codec, disk, before), p);
    }
  }

  lemma {:induction false} RecordsStay(h: Hashing, codec: Codec, disk: Bytes, ps: seq<Process>, k: nat)
    requires k <= |ps| && Intact(codec, Recovered(codec, disk)) && AllOrderly(h, codec, disk, ps)
    ensures Scan(codec, Life(h, codec, disk, ps[..k])).records <= Scan(codec, Life(h, codec, disk, ps)).records
  {
    if k == |ps| {
      assert ps[..k] == ps;
    } else {
      var before, p := ps[..|ps| - 1], ps[|ps| - 1];
      PrefixOfRun(ps, k);
      RecordsStay(h, codec, disk, before, k);
      LifeIntact(h, codec, disk, before);
      OrderlyDisk(h, codec, Life(h, codec, disk, before), p);
      LogGoesOn(h, codec, Life(h, codec, disk, before), p);
    }
  }

  lemma {:induction false} OrderlyFront(h: Hashing, codec: Codec, disk: Bytes, ps: seq<Process>, k: nat)
    requires k < |ps| && AllOrderly(h, codec, disk, ps)
    ensures AllOrderly(h, codec, disk, ps[..k]) && Orderly(h, codec, Life(h, codec, disk, ps[..k]), ps[k])
  {
    if k < |ps| - 1 {
      PrefixOfRun(ps, k);
      OrderlyFront(h, codec, disk, ps[..|ps| - 1], k);
    }
  }

  lemma DecisionLogged(h: Hashing, codec: Codec, disk: Bytes, p: Process, call: nat)
    requires var s := Ended(h, codec, disk, p).pipe; call in s.returned && s.returned[call].effect != Pipeline.Deny
    ensures var s := Ended(h, codec, disk, p).pipe;
      s.returned[call].logged.Some? && s.returned[call].logged.value in s.wal
  {
    var start := Opened(codec, p.seed, disk);
    PipelineRuns(h, codec, start, p.events);
    Pipeline.NoDecisionWithoutRecord(
      h, p.seed, Scan(codec, disk).records, AllSeen(h, codec, start, p.events));
  }

  lemma LifeNext(h: Hashing, codec: Codec, disk: Bytes, ps: seq<Process>, k: nat, next: nat)
    requires k < |ps| && next == k + 1
    ensures Life(h, codec, disk, ps[..next]) == DiskAfter(h, codec, Life(h, codec, disk, ps[..k]), ps[k])
  {
    assert ps[..next][..k] == ps[..k];
  }

  /** What the log of a process has, the file still has at the end. */
  lemma LogStays(h: Hashing, codec: Codec, disk: Bytes, ps: seq<Process>, k: nat)
    requires k < |ps| && Intact(codec, Recovered(codec, disk)) && AllOrderly(h, codec, disk, ps)
    ensures Ended(h, codec, Life(h, codec, disk, ps[..k]), ps[k]).pipe.wal
      <= Scan(codec, Life(h, codec, disk, ps)).records
  {
    var next := k + 1;
    OrderlyFront(h, codec, disk, ps, k);
    LifeIntact(h, codec, disk, ps[..k]);
    OrderlyDisk(h, codec, Life(h, codec, disk, ps[..k]), ps[k]);
    LifeNext(h, codec, disk, ps, k, next);
    RecordsStay(h, codec, disk, ps, next);
  }

  lemma FoundInLonger(xs: seq<Record>, ys: seq<Record>, r: Record)
    requires xs <= ys && r in xs
    ensures r in ys
  {
    var i :| 0 <= i < |xs| && xs[i] == r;
    assert ys[i] == r;
  }

  /** No such process returns anything but a denial without a record that the file still gives back at the end. */
  lemma NoDecisionLost(h: Hashing, codec: Codec, disk: Bytes, ps: seq<Process>, k: nat, call: nat)
    requires k < |ps| && Intact(codec, Recovered(codec, disk)) && AllOrderly(h, codec, disk, ps)
    requires var s := Ended(h, codec, Life(h, codec, disk, ps[..k]), ps[k]).pipe;
      call in s.returned && s.returned[call].effect != Pipeline.Deny
    ensures var s := Ended(h, codec, Life(h, codec, disk, ps[..k]), ps[k]).pipe;
      s.returned[call].logged.Some?
      && s.returned[call].logged.value in Scan(codec, Life(h, codec, disk, ps)).records
  {
    var s := Ended(h, codec, Life(h, codec, disk, ps[..k]), ps[k]).pipe;
    DecisionLogged(h, codec, Life(h, codec, disk, ps[..k]), ps[k], call);
    LogStays(h, codec, disk, ps, k);
    FoundInLonger(s.wal, Scan(codec, Life(h, codec, disk, ps)).records, s.returned[call].logged.value);
  }
}
