/** The write-ahead log file: framing, recovery of a torn tail on opening, replay. */
module Wal {
  import opened Basics
  import opened Record
  import Chain

  const MAGIC: nat := 0x4657_414c
  const HEADER_SIZE: nat := 12
  const MAX_PAYLOAD: nat := 8 * 1024 * 1024
  const TWO_TO_THE_32: nat := 0x1_0000_0000

  type uint32 = n: int | 0 <= n < TWO_TO_THE_32

  /** JSON in both directions and CRC-32, taken as given. */
  datatype Codec = Codec(marshal: Record -> Option<Bytes>, unmarshal: Bytes -> Option<Record>, crc: Bytes -> uint32)

  // ---------------------------------------------------------------- frames

  function LittleEndian(n: uint32): (b: Bytes)
    ensures |b| == 4
  {
    [n % 256, n / 256 % 256, n / 256 / 256 % 256, n / 256 / 256 / 256]
  }

  function Uint32(b: Bytes): uint32
    requires |b| == 4
  {
    var v: seq<int> := b;
    v[0] + 256 * (v[1] + 256 * (v[2] + 256 * v[3]))
  }

  lemma Uint32LittleEndian(n: uint32)
    ensures Uint32(LittleEndian(n)) == n
  {
  }

  function Header(codec: Codec, payload: Bytes): (b: Bytes)
    ensures |b| == HEADER_SIZE
  {
    LittleEndian(MAGIC) + LittleEndian(|payload| % TWO_TO_THE_32) + LittleEndian(codec.crc(payload))
  }

  function Frame(codec: Codec, payload: Bytes): Bytes {
    Header(codec, payload) + payload
  }

  function Log(codec: Codec, payloads: seq<Bytes>): Bytes {
    if payloads == [] then [] else Frame(codec, payloads[0]) + Log(codec, payloads[1..])
  }

  /** The payloads that the reader takes back. */
  predicate Readable(codec: Codec, payload: Bytes) {
    0 < |payload| <= MAX_PAYLOAD && codec.unmarshal(payload).Some?
  }

  predicate AllReadable(codec: Codec, payloads: seq<Bytes>) {
    forall i :: 0 <= i < |payloads| ==> Readable(codec, payloads[i])
  }

  function Records(codec: Codec, payloads: seq<Bytes>): seq<Record>
    requires AllReadable(codec, payloads)
  {
    if payloads == [] then [] else [codec.unmarshal(payloads[0]).value] + Records(codec, payloads[1..])
  }

  // ---------------------------------------------------------------- reading

  datatype ReadResult = EndOfFile | Corrupt | Found(rec: Record, size: nat)

  /** The next record of the bytes ahead. A header that is not there in full reads as the end of the file. */
  function ReadNextRecord(codec: Codec, ahead: Bytes): (r: ReadResult)
    ensures r.Found? ==> HEADER_SIZE < r.size <= |ahead|
  {
    if |ahead| < HEADER_SIZE then EndOfFile
    else
      var n := Uint32(ahead[4..8]);
      if Uint32(ahead[0..4]) != MAGIC then Corrupt
      else if n == 0 || n > MAX_PAYLOAD then Corrupt
      else if |ahead| < HEADER_SIZE + n then Corrupt
      else
        var payload := ahead[HEADER_SIZE..HEADER_SIZE + n];
        if codec.crc(payload) != Uint32(ahead[8..12]) then Corrupt
        else match codec.unmarshal(payload)
          case None => Corrupt
          case Some(rec) => Found(rec, HEADER_SIZE + n)
  }

  /** The records of a file up to the first unreadable byte, where that is, and whether the file just ends there. */
  datatype ScanResult = ScanResult(records: seq<Record>, good: nat, clean: bool)

  function Scan(codec: Codec, file: Bytes): (r: ScanResult)
    ensures r.good <= |file|
  {
    match ReadNextRecord(codec, file)
    case EndOfFile => ScanResult([], 0, true)
    case Corrupt => ScanResult([], 0, false)
    case Found(rec, size) =>
      var rest := Scan(codec, file[size..]);
      ScanResult([rec] + rest.records, size + rest.good, rest.clean)
  }

  /** What opening the log leaves of a file. */
  function Recovered(codec: Codec, file: Bytes): Bytes {
    var s := Scan(codec, file);
    if s.clean then file else file[..s.good]
  }

  // ---------------------------------------------------------------- frames and scans

  lemma LittleEndianUint32(b: Bytes)
    requires |b| == 4
    ensures LittleEndian(Uint32(b)) == b
  {
    var v: seq<int> := b;
    LowByte(v[2], v[3]);
    LowByte(v[1], v[2] + 256 * v[3]);
    LowByte(v[0], v[1] + 256 * (v[2] + 256 * v[3]));
  }

  lemma LowByte(low: int, high: int)
    requires 0 <= low < 256 && 0 <= high
    ensures (low + 256 * high) % 256 == low && (low + 256 * high) / 256 == high
  {
  }

  lemma HeaderFields(codec: Codec, payload: Bytes, tail: Bytes)
    requires |payload| < TWO_TO_THE_32
    ensures var ahead := Header(codec, payload) + tail;
      && Uint32(ahead[0..4]) == MAGIC && Uint32(ahead[4..8]) == |payload| && Uint32(ahead[8..12]) == codec.crc(payload)
  {
    var ahead := Header(codec, payload) + tail;
    assert ahead[0..4] == LittleEndian(MAGIC);
    assert ahead[4..8] == LittleEndian(|payload|);
    assert ahead[8..12] == LittleEndian(codec.crc(payload));
    Uint32LittleEndian(MAGIC);
    Uint32LittleEndian(|payload|);
    Uint32LittleEndian(codec.crc(payload));
  }

  /** The checksum covers the payload: a payload swapped for another of its length is not read, collisions aside. */
  lemma SwappedPayloadUnread(codec: Codec, payload: Bytes, other: Bytes, tail: Bytes)
    requires |payload| == |other| < TWO_TO_THE_32 && codec.crc(payload) != codec.crc(other)
    ensures ReadNextRecord(codec, Header(codec, payload) + (other + tail)) == Corrupt
  {
    var ahead := Header(codec, payload) + (other + tail);
    HeaderFields(codec, payload, other + tail);
    assert |other| > 0 ==> ahead[HEADER_SIZE..HEADER_SIZE + |other|] == other;
  }

  lemma ReadFrame(codec: Codec, payload: Bytes, tail: Bytes)
    requires Readable(codec, payload)
    ensures ReadNextRecord(codec, Frame(codec, payload) + tail)
         == Found(codec.unmarshal(payload).value, HEADER_SIZE + |payload|)
  {
    var ahead := Frame(codec, payload) + tail;
    assert ahead == Header(codec, payload) + (payload + tail);
    HeaderFields(codec, payload, payload + tail);
    assert ahead[HEADER_SIZE..HEADER_SIZE + |payload|] == payload;
  }

  lemma HeaderOf(codec: Codec, ahead: Bytes, payload: Bytes)
    requires |ahead| >= HEADER_SIZE && |payload| < TWO_TO_THE_32
    requires Uint32(ahead[0..4]) == MAGIC && Uint32(ahead[4..8]) == |payload|
      && Uint32(ahead[8..12]) == codec.crc(payload)
    ensures ahead[..HEADER_SIZE] == Header(codec, payload)
  {
    LittleEndianUint32(ahead[0..4]);
    LittleEndianUint32(ahead[4..8]);
    LittleEndianUint32(ahead[8..12]);
    assert ahead[..HEADER_SIZE] == ahead[0..4] + ahead[4..8] + ahead[8..12];
  }

  lemma FoundIsFrame(codec: Codec, ahead: Bytes, rec: Record, size: nat)
    requires ReadNextRecord(codec, ahead) == Found(rec, size)
    ensures Readable(codec, ahead[HEADER_SIZE..size]) && codec.unmarshal(ahead[HEADER_SIZE..size]) == Some(rec)
    ensures ahead[..size] == Frame(codec, ahead[HEADER_SIZE..size])
  {
    var payload := ahead[HEADER_SIZE..size];
    HeaderOf(codec, ahead, payload);
    assert ahead[..size] == ahead[..HEADER_SIZE] + payload;
  }

  function After(records: seq<Record>, size: nat, s: ScanResult): ScanResult {
    ScanResult(records + s.records, size + s.good, s.clean)
  }

  lemma ScanFrame(codec: Codec, payload: Bytes, tail: Bytes)
    requires Readable(codec, payload)
    ensures Scan(codec, Frame(codec, payload) + tail)
         == After([codec.unmarshal(payload).value], |Frame(codec, payload)|, Scan(codec, tail))
  {
    ReadFrame(codec, payload, tail);
    assert (Frame(codec, payload) + tail)[HEADER_SIZE + |payload|..] == tail;
  }

  lemma AfterAfter(rs: seq<Record>, m: nat, rs': seq<Record>, n: nat, s: ScanResult)
    ensures After(rs, m, After(rs', n, s)) == After(rs + rs', m + n, s)
    ensures After([], 0, s) == s
  {
    assert rs + (rs' + s.records) == (rs + rs') + s.records;
    assert [] + s.records == s.records;
  }

  lemma {:induction false} ScanLog(codec: Codec, payloads: seq<Bytes>, tail: Bytes)
    requires AllReadable(codec, payloads)
    ensures Scan(codec, Log(codec, payloads) + tail)
         == After(Records(codec, payloads), |Log(codec, payloads)|, Scan(codec, tail))
  {
    if payloads == [] {
      assert Log(codec, payloads) + tail == tail;
      AfterAfter([], 0, [], 0, Scan(codec, tail));
    } else {
      var frame, rest := Frame(codec, payloads[0]), Log(codec, payloads[1..]);
      assert Log(codec, payloads) + tail == frame + (rest + tail);
      ScanFrame(codec, payloads[0], rest + tail);
      ScanLog(codec, payloads[1..], tail);
      AfterAfter([codec.unmarshal(payloads[0]).value], |frame|, Records(codec, payloads[1..]), |rest|,
        Scan(codec, tail));
    }
  }

  lemma SplitTwice(file: Bytes, m: nat, n: nat)
    requires m + n <= |file|
    ensures file[..m + n] == file[..m] + file[m..][..n]
    ensures file[m + n..] == file[m..][n..]
  {
  }

  /** What a scan has read is a log of readable payloads, and what follows it is no readable frame. */
  lemma {:induction false} ScanReadsLog(codec: Codec, file: Bytes) returns (payloads: seq<Bytes>)
    ensures AllReadable(codec, payloads)
    ensures Log(codec, payloads) == file[..Scan(codec, file).good]
    ensures Records(codec, payloads) == Scan(codec, file).records
    ensures ReadNextRecord(codec, file[Scan(codec, file).good..])
      == if Scan(codec, file).clean then EndOfFile else Corrupt
  {
    payloads := [];
    match ReadNextRecord(codec, file) {
      case Found(rec, size) =>
        FoundIsFrame(codec, file, rec, size);
        var rest := ScanReadsLog(codec, file[size..]);
        var good := Scan(codec, file[size..]).good;
        payloads := [file[HEADER_SIZE..size]] + rest;
        assert payloads[1..] == rest;
        SplitTwice(file, size, good);
      case _ =>
        assert file[0..] == file;
    }
  }

  // ---------------------------------------------------------------- recovery

  /** No longer run of readable frames starts the file than the one the scan reads. */
  lemma ScanIsLongest(codec: Codec, file: Bytes, payloads: seq<Bytes>)
    requires AllReadable(codec, payloads) && Log(codec, payloads) <= file
    ensures |Log(codec, payloads)| <= Scan(codec, file).good
  {
    var log := Log(codec, payloads);
    var tail := file[|log|..];
    assert file == log + tail;
    ScanLog(codec, payloads, tail);
  }

  /**
   Recovery of any file whatever keeps exactly its longest prefix of readable frames, plus at most 11 bytes of
   a torn header when those are all that follows.
   */
  lemma RecoveryKeepsLongestLog(codec: Codec, file: Bytes) returns (payloads: seq<Bytes>, torn: Bytes)
    ensures AllReadable(codec, payloads) && Records(codec, payloads) == Scan(codec, file).records
    ensures Log(codec, payloads) <= file
    ensures Recovered(codec, file) == Log(codec, payloads) + torn
    ensures torn == [] || (|torn| < HEADER_SIZE && Recovered(codec, file) == file)
    ensures forall qs :: AllReadable(codec, qs) && Log(codec, qs) <= file ==> |Log(codec, qs)| <= |Log(codec, payloads)|
  {
    payloads := ScanReadsLog(codec, file);
    var s := Scan(codec, file);
    torn := if s.clean then file[s.good..] else [];
    assert file == file[..s.good] + file[s.good..];
    forall qs | AllReadable(codec, qs) && Log(codec, qs) <= file
      ensures |Log(codec, qs)| <= |Log(codec, payloads)|
    {
      ScanIsLongest(codec, file, qs);
    }
  }

  /**
   A recovered file scans to its end, to the records the damaged file had, and recovering it again changes nothing.
   */
  lemma RecoveredScansClean(codec: Codec, file: Bytes)
    ensures Scan(codec, Recovered(codec, file)).clean
    ensures Scan(codec, Recovered(codec, file)).records == Scan(codec, file).records
    ensures Recovered(codec, Recovered(codec, file)) == Recovered(codec, file)
  {
    var payloads := ScanReadsLog(codec, file);
    if !Scan(codec, file).clean {
      LogScansClean(codec, payloads);
    }
  }

  lemma LogScansClean(codec: Codec, payloads: seq<Bytes>)
    requires AllReadable(codec, payloads)
    ensures Scan(codec, Log(codec, payloads)) == ScanResult(Records(codec, payloads), |Log(codec, payloads)|, true)
  {
    ScanLog(codec, payloads, []);
    assert Log(codec, payloads) + [] == Log(codec, payloads);
    assert Records(codec, payloads) + [] == Records(codec, payloads);
  }

  lemma TornFrame(codec: Codec, payload: Bytes, k: nat)
    requires |payload| < TWO_TO_THE_32 && k < |Frame(codec, payload)|
    ensures ReadNextRecord(codec, Frame(codec, payload)[..k]) == if k < HEADER_SIZE then EndOfFile else Corrupt
  {
    if k >= HEADER_SIZE {
      var torn := Frame(codec, payload)[..k];
      assert torn == Header(codec, payload) + payload[..k - HEADER_SIZE];
      HeaderFields(codec, payload, payload[..k - HEADER_SIZE]);
    }
  }

  /** A crash while the next frame is written loses nothing before it, and leaves a file of whole frames unless fewer
      than 12 of its bytes got out. */
  lemma CrashRecovery(codec: Codec, payloads: seq<Bytes>, payload: Bytes, k: nat)
    requires AllReadable(codec, payloads)
    requires |payload| < TWO_TO_THE_32 && k < |Frame(codec, payload)|
    ensures var torn := Frame(codec, payload)[..k];
      var file := Recovered(codec, Log(codec, payloads) + torn);
      && file == Log(codec, payloads) + (if k < HEADER_SIZE then torn else [])
      && Scan(codec, file).clean && Scan(codec, file).records == Records(codec, payloads)
  {
    var torn := Frame(codec, payload)[..k];
    var file := Log(codec, payloads) + torn;
    TornFrame(codec, payload, k);
    ScanLog(codec, payloads, torn);
    assert Records(codec, payloads) + [] == Records(codec, payloads);
    assert file[..|Log(codec, payloads)|] == Log(codec, payloads);
    RecoveredScansClean(codec, file);
  }

  /**
   What JSON guarantees of every text it decodes, as far as it matters here: no NUL byte anywhere, and no
   first byte among those of the frame magic after its first.
   */
  ghost predicate DecodesJsonOnly(codec: Codec) {
    forall b :: codec.unmarshal(b).Some? ==> b != [] && 0 !in b && b[0] != 0x41 && b[0] != 0x57 && b[0] != 0x46
  }

  lemma MagicBytes()
    ensures LittleEndian(MAGIC) == [0x4c, 0x41, 0x57, 0x46]
  {
  }

  lemma HighByteMakesLarge(b: Bytes)
    requires |b| == 4 && b[3] > 0
    ensures Uint32(b) > MAX_PAYLOAD
  {
  }

  lemma ShortLengthHighByte(n: uint32)
    requires n <= MAX_PAYLOAD
    ensures LittleEndian(n)[3] == 0
  {
  }

  /** A frame written behind 1 to 7 bytes of a torn header: magic or length come out wrong. */
  lemma SplicedEarly(codec: Codec, torn: Bytes, next: Bytes, payload: Bytes)
    requires 0 < |torn| < 8 && torn <= Header(codec, payload)
    requires |next| >= HEADER_SIZE && next[..4] == LittleEndian(MAGIC)
    ensures ReadNextRecord(codec, torn + next) == Corrupt
  {
    var ahead, k := torn + next, |torn|;
    MagicBytes();
    assert forall i :: 0 <= i < 4 ==> next[i] == next[..4][i];
    if k < 4 {
      assert ahead[0..4][k] == next[0];
      LittleEndianUint32(ahead[0..4]);
    } else {
      assert ahead[4..8][3] == next[7 - k];
      HighByteMakesLarge(ahead[4..8]);
    }
  }

  lemma HeaderBytes(codec: Codec, payload: Bytes)
    requires |payload| <= MAX_PAYLOAD
    ensures var h := Header(codec, payload); h[1] == 0x41 && h[2] == 0x57 && h[3] == 0x46 && h[7] == 0
  {
    MagicBytes();
    ShortLengthHighByte(|payload|);
  }

  /** A byte of the spliced payload that belongs to the header of the frame written behind. */
  lemma SplicedByte(torn: Bytes, next: Bytes, header: Bytes, n: nat, i: nat)
    requires 8 <= |torn| < HEADER_SIZE && header <= next && i < n && HEADER_SIZE + n <= |torn + next|
    requires HEADER_SIZE + i - |torn| < |header|
    ensures (torn + next)[HEADER_SIZE..HEADER_SIZE + n][i] == header[HEADER_SIZE + i - |torn|]
  {
    assert (torn + next)[HEADER_SIZE + i] == next[HEADER_SIZE + i - |torn|];
  }

  lemma SplicedLength(torn: Bytes, next: Bytes, header: Bytes)
    requires 8 <= |torn| < HEADER_SIZE && torn <= header
    ensures (torn + next)[4..8] == header[4..8]
  {
  }

  lemma SplicedBody(codec: Codec, torn: Bytes, next: Bytes, header: Bytes, n: nat)
    requires DecodesJsonOnly(codec)
    requires 8 <= |torn| < HEADER_SIZE && header <= next && 4 <= n && HEADER_SIZE + n <= |torn + next|
    requires |header| == HEADER_SIZE && header[1] == 0x41 && header[2] == 0x57 && header[3] == 0x46 && header[7] == 0
    ensures codec.unmarshal((torn + next)[HEADER_SIZE..HEADER_SIZE + n]).None?
  {
    SplicedByte(torn, next, header, n, 0);
    if |torn| == 8 {
      SplicedByte(torn, next, header, n, 3);
    }
  }

  lemma NoRecordInPayload(codec: Codec, ahead: Bytes, n: nat)
    requires |ahead| >= HEADER_SIZE && Uint32(ahead[4..8]) == n
    requires |ahead| >= HEADER_SIZE + n ==> codec.unmarshal(ahead[HEADER_SIZE..HEADER_SIZE + n]).None?
    ensures ReadNextRecord(codec, ahead) == Corrupt
  {
  }

  /** A frame written behind 8 to 11 bytes of a torn header: what is read as the payload is no JSON. */
  lemma SplicedLate(codec: Codec, torn: Bytes, payload: Bytes, next: Bytes, written: Bytes)
    requires DecodesJsonOnly(codec)
    requires 8 <= |torn| < HEADER_SIZE && torn <= Header(codec, payload) && 4 <= |payload| < TWO_TO_THE_32
    requires Readable(codec, written) && Header(codec, written) <= next
    ensures ReadNextRecord(codec, torn + next) == Corrupt
  {
    var n := |payload|;
    assert Uint32((torn + next)[4..8]) == n by {
      SplicedLength(torn, next, Header(codec, payload));
      assert Header(codec, payload)[4..8] == LittleEndian(n);
      Uint32LittleEndian(n);
    }
    if |torn + next| >= HEADER_SIZE + n {
      HeaderBytes(codec, written);
      SplicedBody(codec, torn, next, Header(codec, written), n);
    }
    NoRecordInPayload(codec, torn + next, n);
  }

  /** Any frame written behind a torn header of 1 to 11 bytes is unreadable, and with it whatever comes later. */
  lemma TornHeaderHidesNext(codec: Codec, torn: Bytes, payload: Bytes, written: Bytes, later: Bytes)
    requires DecodesJsonOnly(codec)
    requires 0 < |torn| < HEADER_SIZE && torn <= Header(codec, payload) && 4 <= |payload| < TWO_TO_THE_32
    requires Readable(codec, written)
    ensures ReadNextRecord(codec, torn + (Frame(codec, written) + later)) == Corrupt
  {
    var next := Frame(codec, written) + later;
    assert next[..HEADER_SIZE] == Header(codec, written) <= next;
    assert next[..4] == Header(codec, written)[..4] == LittleEndian(MAGIC);
    if |torn| < 8 {
      SplicedEarly(codec, torn, next, payload);
    } else {
      SplicedLate(codec, torn, payload, next, written);
    }
  }

  lemma WritesBehindTornHeader(codec: Codec, payloads: seq<Bytes>, torn: Bytes, payload: Bytes, later: seq<Bytes>)
    requires DecodesJsonOnly(codec)
    requires AllReadable(codec, payloads) && AllReadable(codec, later) && later != []
    requires 0 < |torn| < HEADER_SIZE && torn <= Header(codec, payload) && 4 <= |payload| < TWO_TO_THE_32
    ensures Scan(codec, (Log(codec, payloads) + torn) + Log(codec, later)).records == Records(codec, payloads)
  {
    var log, tail := Log(codec, payloads), torn + Log(codec, later);
    assert (log + torn) + Log(codec, later) == log + tail;
    assert ReadNextRecord(codec, tail) == Corrupt by {
      TornHeaderHidesNext(codec, torn, payload, later[0], Log(codec, later[1..]));
    }
    ScanLog(codec, payloads, tail);
    assert Records(codec, payloads) + [] == Records(codec, payloads);
  }

  lemma WritesBehindWholeFrames(codec: Codec, payloads: seq<Bytes>, later: seq<Bytes>)
    requires AllReadable(codec, payloads) && AllReadable(codec, later)
    ensures Scan(codec, Log(codec, payloads) + Log(codec, later)).records
      == Records(codec, payloads) + Records(codec, later)
  {
    ScanLog(codec, payloads, Log(codec, later));
    LogScansClean(codec, later);
  }

  /**
   After a crash that got k bytes of a frame out, what is written to the reopened log and acknowledged is read back
   exactly when k is 0 or at least 12: behind a torn header of 1 to 11 bytes every later record is lost.
   */
  lemma WritesAfterCrash(codec: Codec, payloads: seq<Bytes>, payload: Bytes, k: nat, later: seq<Bytes>)
    requires DecodesJsonOnly(codec)
    requires AllReadable(codec, payloads) && AllReadable(codec, later) && later != []
    requires 4 <= |payload| < TWO_TO_THE_32 && k < |Frame(codec, payload)|
    ensures var file := Recovered(codec, Log(codec, payloads) + Frame(codec, payload)[..k]) + Log(codec, later);
      Scan(codec, file).records == Records(codec, payloads) + Records(codec, later) <==> k == 0 || k >= HEADER_SIZE
  {
    var torn, log := Frame(codec, payload)[..k], Log(codec, payloads);
    CrashRecovery(codec, payloads, payload, k);
    if k == 0 || k >= HEADER_SIZE {
      assert Recovered(codec, log + torn) == log;
      WritesBehindWholeFrames(codec, payloads, later);
    } else {
      assert torn <= Header(codec, payload);
      WritesBehindTornHeader(codec, payloads, torn, payload, later);
      assert Records(codec, later) != [];
    }
  }

  lemma UnreadableFrame(codec: Codec, payload: Bytes, later: Bytes)
    requires !Readable(codec, payload) && |payload| < TWO_TO_THE_32
    ensures ReadNextRecord(codec, Frame(codec, payload) + later) == Corrupt
  {
    var ahead := Frame(codec, payload) + later;
    assert ahead == Header(codec, payload) + (payload + later);
    HeaderFields(codec, payload, payload + later);
    if 0 < |payload| <= MAX_PAYLOAD {
      assert ahead[HEADER_SIZE..HEADER_SIZE + |payload|] == payload;
    }
  }

  /** Write does not check what the reader demands: a payload it would reject hides every record behind it. */
  lemma UnreadableWriteHidesRest(codec: Codec, payloads: seq<Bytes>, payload: Bytes, later: Bytes)
    requires AllReadable(codec, payloads) && |payload| < TWO_TO_THE_32
    ensures var s := Scan(codec, Log(codec, payloads) + (Frame(codec, payload) + later));
      if Readable(codec, payload)
      then s.records == Records(codec, payloads) + ([codec.unmarshal(payload).value] + Scan(codec, later).records)
      else s.records == Records(codec, payloads) && !s.clean
  {
    var tail := Frame(codec, payload) + later;
    ScanLog(codec, payloads, tail);
    if Readable(codec, payload) {
      ScanFrame(codec, payload, later);
    } else {
      UnreadableFrame(codec, payload, later);
      assert Records(codec, payloads) + [] == Records(codec, payloads);
    }
  }

  // ---------------------------------------------------------------- the open log

  /** How far the disk gets with a write before it fails. */
  datatype Disk = Healthy | FailsAfter(bytes: nat) | FailsToSync

  datatype WriteError = MarshalFailed | WriteFailed | SyncFailed

  /** The file after a write of a record, and what the writer reports; what a failing disk took is not taken back. */
  function Written(codec: Codec, file: Bytes, rec: Record, disk: Disk): (Bytes, Option<WriteError>) {
    match codec.marshal(rec)
    case None => (file, Some(MarshalFailed))
    case Some(payload) =>
      var frame := Frame(codec, payload);
      match disk
      case Healthy => (file + frame, None)
      case FailsToSync => (file + frame, Some(SyncFailed))
      case FailsAfter(n) => if n < |frame| then (file + frame[..n], Some(WriteFailed)) else (file + frame, None)
  }

  datatype Outcome = Done | Unreadable | Invalid(error: Chain.ChainError) | Refused

  /** What the writer reports, and what is in the file then. */
  lemma WriteTells(codec: Codec, file: Bytes, rec: Record, disk: Disk)
    ensures var (after, error) := Written(codec, file, rec, disk); var json := codec.marshal(rec);
      && (error == Some(MarshalFailed) <==> json.None?)
      && (error == Some(WriteFailed) <==> json.Some? && disk.FailsAfter? && disk.bytes < HEADER_SIZE + |json.value|)
      && (error == Some(SyncFailed) <==> json.Some? && disk.FailsToSync?)
      && (error == Some(SyncFailed) || error == None ==> after == file + Frame(codec, json.value))
      && (error == Some(WriteFailed) ==> after == file + Frame(codec, json.value)[..disk.bytes])
      && (error == Some(MarshalFailed) ==> after == file)
  {
  }

  /** What a scan of the bytes ahead finds continues, at the given offset, to what a scan of the file finds. */
  ghost predicate ReadTo(all: ScanResult, offset: nat, ahead: ScanResult) {
    all.good == offset + ahead.good && all.clean == ahead.clean
  }

  lemma ReadToEnd(codec: Codec, ahead: Bytes)
    requires !ReadNextRecord(codec, ahead).Found?
    ensures Scan(codec, ahead).good == 0 && Scan(codec, ahead).clean == ReadNextRecord(codec, ahead).EndOfFile?
  {
  }

  ghost predicate TakesAll(callback: Record -> bool, records: seq<Record>) {
    records == [] || (TakesAll(callback, records[..|records| - 1]) && callback(records[|records| - 1]))
  }

  lemma TakesMore(callback: Record -> bool, records: seq<Record>, rec: Record)
    requires TakesAll(callback, records)
    ensures TakesAll(callback, records + [rec]) <==> callback(rec)
    ensures (records + [rec])[..|records|] == records && (records + [rec])[|records|] == rec
  {
    assert (records + [rec])[..|records|] == records;
  }

  /** What a callback has seen of a scanned file when a replay ends the given way. */
  ghost predicate Delivered(file: ScanResult, callback: Record -> bool, seen: seq<Record>, outcome: Outcome) {
    && seen <= file.records
    && match outcome
      case Done => seen == file.records && file.clean && TakesAll(callback, seen)
      case Unreadable => seen == file.records && !file.clean && TakesAll(callback, seen)
      case Invalid(_) => TakesAll(callback, seen)
      case Refused => seen != [] && TakesAll(callback, seen[..|seen| - 1]) && !callback(seen[|seen| - 1])
  }

  /** The records seen and those of the bytes ahead make up the scan of the file, and the callback took them so far. */
  ghost predicate Replaying(all: ScanResult, callback: Record -> bool, seen: seq<Record>, rest: ScanResult) {
    all.records == seen + rest.records && all.clean == rest.clean && TakesAll(callback, seen)
  }

  lemma ReplayEnds(codec: Codec, all: ScanResult, callback: Record -> bool, seen: seq<Record>, ahead: Bytes)
    requires Replaying(all, callback, seen, Scan(codec, ahead)) && !ReadNextRecord(codec, ahead).Found?
    ensures Delivered(all, callback, seen, if ReadNextRecord(codec, ahead).EndOfFile? then Done else Unreadable)
  {
    assert seen + [] == seen;
  }

  lemma ScanNext(codec: Codec, ahead: Bytes, rec: Record, size: nat)
    requires ReadNextRecord(codec, ahead) == Found(rec, size)
    ensures var rest := Scan(codec, ahead[size..]);
      Scan(codec, ahead) == ScanResult([rec] + rest.records, size + rest.good, rest.clean)
  {
  }

  lemma ReplaySteps(
    all: ScanResult, callback: Record -> bool, seen: seq<Record>, rec: Record, rest: ScanResult, size: nat)
    requires Replaying(all, callback, seen, ScanResult([rec] + rest.records, size + rest.good, rest.clean))
    ensures |seen| < |all.records| && all.records[|seen|] == rec && seen + [rec] <= all.records
    ensures callback(rec) ==> Replaying(all, callback, seen + [rec], rest)
    ensures !callback(rec) ==> Delivered(all, callback, seen + [rec], Refused)
  {
    assert seen + ([rec] + rest.records) == (seen + [rec]) + rest.records;
    TakesMore(callback, seen, rec);
  }

  class WAL {
    const codec: Codec
    var file: Bytes

    /** Opening a log recovers its tail. */
    constructor (codec: Codec, disk: Bytes)
      ensures this.codec == codec && file == Recovered(codec, disk)
    {
      this.codec := codec;
      this.file := disk;
      new;
      RecoverTail();
    }

    method RecoverTail()
      modifies this
      ensures file == Recovered(codec, old(file))
    {
      var goodOffset, clean := FindGoodOffset();
      if !clean {
        file := file[..goodOffset];
      }
    }

    /** Where the last whole record ends, and whether the reader stops there as at the end of the file. */
    method FindGoodOffset() returns (goodOffset: nat, clean: bool)
      ensures goodOffset == Scan(codec, file).good && clean == Scan(codec, file).clean
    {
      goodOffset := 0;
      var ahead := file;
      while true
        invariant ReadTo(Scan(codec, file), goodOffset, Scan(codec, ahead))
        decreases |ahead|
      {
        match ReadNextRecord(codec, ahead) {
          case EndOfFile =>
            ReadToEnd(codec, ahead);
            return goodOffset, true;
          case Corrupt =>
            ReadToEnd(codec, ahead);
            return goodOffset, false;
          case Found(rec, size) =>
            ScanNext(codec, ahead, rec, size);
            goodOffset := goodOffset + size;
            ahead := ahead[size..];
        }
      }
    }

    /** Appends one frame; a failing disk leaves part of it behind, and the writer does not take that back. */
    method Write(rec: Record, disk: Disk) returns (error: Option<WriteError>)
      modifies this
      ensures (file, error) == Written(codec, old(file), rec, disk)
    {
      var marshalled := codec.marshal(rec);
      if marshalled.None? {
        return Some(MarshalFailed);
      }
      var payload := marshalled.value;
      var hdr := LittleEndian(MAGIC) + LittleEndian(|payload| % TWO_TO_THE_32) + LittleEndian(codec.crc(payload));
      ghost var frame := Frame(codec, payload);
      if disk.FailsAfter? && disk.bytes < |hdr| {
        assert frame[..disk.bytes] == hdr[..disk.bytes];
        file := file + hdr[..disk.bytes];
        return Some(WriteFailed);
      }
      file := file + hdr;
      if disk.FailsAfter? && disk.bytes < |hdr| + |payload| {
        assert frame[..disk.bytes] == hdr + payload[..disk.bytes - |hdr|];
        file := file + payload[..disk.bytes - |hdr|];
        assert file == old(file) + frame[..disk.bytes];
        return Some(WriteFailed);
      }
      file := file + payload;
      assert file == old(file) + frame;
      if disk.FailsToSync? {
        return Some(SyncFailed);
      }
      return None;
    }

    /** Every record in order, until the callback refuses one or the file becomes unreadable. */
    method Replay(callback: Record -> bool) returns (seen: seq<Record>, outcome: Outcome)
      ensures !outcome.Invalid? && Delivered(Scan(codec, file), callback, seen, outcome)
    {
      var ahead := file;
      ghost var all := Scan(codec, file);
      seen := [];
      assert [] + all.records == all.records;
      while true
        invariant Replaying(all, callback, seen, Scan(codec, ahead))
        decreases |ahead|
      {
        match ReadNextRecord(codec, ahead) {
          case EndOfFile =>
            ReplayEnds(codec, all, callback, seen, ahead);
            return seen, Done;
          case Corrupt =>
            ReplayEnds(codec, all, callback, seen, ahead);
            return seen, Unreadable;
          case Found(rec, size) =>
            ScanNext(codec, ahead, rec, size);
            ReplaySteps(all, callback, seen, rec, Scan(codec, ahead[size..]), size);
            seen := seen + [rec];
            if !callback(rec) {
              return seen, Refused;
            }
            ahead := ahead[size..];
        }
      }
    }

    /**
     Replay that checks each record against its agent's chain before the callback sees it. With a callback that
     refuses nothing it succeeds exactly on a readable file whose records pass the chain check.
     */
    method ReplayValidated(h: Hashing, callback: Record -> bool) returns (seen: seq<Record>, outcome: Outcome)
      ensures Chain.Accepts(h, seen)
      ensures Delivered(Scan(codec, file), callback, seen, outcome)
      ensures outcome.Invalid? ==>
        && |seen| < |Scan(codec, file).records|
        && Chain.Validate(h, Scan(codec, file).records[|seen|], Chain.LastHashes(seen)) == Some(outcome.error)
        && !Chain.Accepts(h, Scan(codec, file).records)
    {
      var ahead := file;
      ghost var all := Scan(codec, file);
      var lastHashByAgent: map<string, string> := map[];
      seen := [];
      assert [] + all.records == all.records;
      while true
        invariant Replaying(all, callback, seen, Scan(codec, ahead))
        invariant Chain.Accepts(h, seen) && lastHashByAgent == Chain.LastHashes(seen)
        decreases |ahead|
      {
        match ReadNextRecord(codec, ahead) {
          case EndOfFile =>
            ReplayEnds(codec, all, callback, seen, ahead);
            return seen, Done;
          case Corrupt =>
            ReplayEnds(codec, all, callback, seen, ahead);
            return seen, Unreadable;
          case Found(rec, size) =>
            ScanNext(codec, ahead, rec, size);
            ReplaySteps(all, callback, seen, rec, Scan(codec, ahead[size..]), size);
            Chain.AcceptsNext(h, seen, rec);
            var failure := Chain.Validate(h, rec, lastHashByAgent);
            if failure.Some? {
              Chain.AcceptsOnlyIfNext(h, all.records, seen, rec);
              return seen, Invalid(failure.value);
            }
            lastHashByAgent := lastHashByAgent[rec.canon.agentID := rec.recordHash];
            seen := seen + [rec];
            if !callback(rec) {
              return seen, Refused;
            }
            ahead := ahead[size..];
        }
      }
    }
  }
}
