/**
 * The streaming loops of `play_wav_file1` ... `play_wav_file9`: load the header, set
 * the sink's sample rate, then repeatedly clear a malloc'd buffer, fread into it and
 * i2s_write it until a read comes back empty or short, then write trailing silence
 * from the zero-filled SILENCE buffer. The nine functions are one algorithm with four
 * knobs, collected in Config.
 */
module Player {
  import opened Results
  import opened Bytes
  import opened WavFile
  import opened Loader

  /** SILENCE_SIZE */
  const SILENCE_SIZE: nat := 8096

  /** The I2S sink: its sample rate and every i2s_write made to it, in order. */
  class Sink {
    var sampleRate: nat
    ghost var writes: seq<seq<Byte>>

    constructor (rate: nat)
      ensures sampleRate == rate && writes == []
    {
      sampleRate := rate;
      writes := [];
    }

    /** i2s_set_sample_rates */
    method SetSampleRate(rate: nat)
      modifies this
      ensures sampleRate == rate && writes == old(writes)
    {
      sampleRate := rate;
    }

    /** i2s_write(port, buf, n, ...): the sink receives the first n bytes of buf. */
    method Write(buf: array<Byte>, n: nat)
      requires n <= buf.Length
      modifies this
      ensures writes == old(writes) + [buf[..n]] && sampleRate == old(sampleRate)
    {
      writes := writes + [buf[..n]];
    }
  }

  /** memset(buf, 0, buf.Length) */
  method Clear(buf: array<Byte>)
    modifies buf
    ensures buf[..] == Zeros(buf.Length)
  {
    var i := 0;
    while i < buf.Length
      invariant 0 <= i <= buf.Length
      invariant forall k :: 0 <= k < i ==> buf[k] == 0
    {
      buf[i] := 0;
      i := i + 1;
    }
  }

  /** The part of init_sound that the player depends on: SILENCE is malloc'd and zeroed. */
  method InitSilence() returns (silence: array<Byte>)
    ensures fresh(silence) && silence[..] == Zeros(SILENCE_SIZE)
  {
    silence := new Byte[SILENCE_SIZE];
    Clear(silence);
  }

  /** The trailing silence written after the loop. */
  datatype Padding =
    | NoPadding           // no trailing write
    | FullSingle          // one SILENCE_SIZE write
    | FullDouble          // two SILENCE_SIZE writes
    | ComplementSingle    // SILENCE_SIZE - nr_bytes_read
    | ComplementThenFull  // SILENCE_SIZE - nr_bytes_read, then SILENCE_SIZE

  /**
   * capacity: WAV_DATA_BUFFER_SIZE; writeFull: each i2s_write sends the whole buffer
   * rather than the bytes read; discardFirst: one fread before the loop whose bytes are
   * never written; padding: the trailing silence.
   */
  datatype Config = Config(capacity: nat, writeFull: bool, discardFirst: bool, padding: Padding)
  {
    predicate Valid()
    {
      && capacity > 0
      && (padding.ComplementSingle? || padding.ComplementThenFull? ==> capacity <= SILENCE_SIZE)
    }
  }

  /**
   * The knobs of play_wav_fileN. WAV_DATA_BUFFER_SIZE is #defined again above each
   * function, 1024 for the first three and 8096 from the fourth on.
   */
  function Variant(n: nat): (c: Config)
    requires 1 <= n <= 9
    ensures c.Valid()
    ensures c.capacity == if n <= 3 then 1024 else 8096
    ensures c.writeFull <==> n in {1, 2, 3, 4, 9}
    ensures c.discardFirst <==> n in {6, 7, 8}
  {
    match n
    case 1 => Config(1024, true, false, FullDouble)
    case 2 => Config(1024, true, false, NoPadding)
    case 3 => Config(1024, true, false, FullSingle)
    case 4 => Config(8096, true, false, NoPadding)
    case 5 => Config(8096, false, false, NoPadding)
    case 6 => Config(8096, false, true, ComplementSingle)
    case 7 => Config(8096, false, true, ComplementThenFull)
    case 8 => Config(8096, false, true, FullDouble)
    case 9 => Config(8096, true, false, FullDouble)
  }

  /** The bytes the loop reads: what is left of the payload after a discarded first read of up to one buffer. */
  function Streamed(cfg: Config, payload: seq<Byte>): (r: seq<Byte>)
    ensures |r| <= |payload| && r == payload[|payload| - |r|..]
    ensures |payload| - |r| == if cfg.discardFirst then Min(cfg.capacity, |payload|) else 0
  {
    if cfg.discardFirst then payload[Min(cfg.capacity, |payload|)..] else payload
  }

  /** The value of each fread in the loop over bytes s: full reads, then one short or empty read. */
  function LoopReads(cap: nat, s: seq<Byte>): (r: seq<nat>)
    requires cap > 0
    ensures |r| >= 1
    ensures r[|r| - 1] < cap
    decreases |s|
  {
    if |s| < cap then [|s|] else [cap] + LoopReads(cap, s[cap..])
  }

  /** nr_bytes_read when the loop ends: the short read, or 0 after an empty read. */
  function FinalRead(cap: nat, s: seq<Byte>): (r: nat)
    requires cap > 0
    ensures r < cap
    decreases |s|
  {
    if |s| < cap then |s| else FinalRead(cap, s[cap..])
  }

  /**
   * The i2s_write records of the loop over bytes s: one per non-empty read, none of
   * them empty or longer than the buffer, each a whole buffer when the whole buffer is written.
   */
  function DataWrites(cap: nat, writeFull: bool, s: seq<Byte>): (r: seq<seq<Byte>>)
    requires cap > 0
    ensures r == [] <==> s == []
    decreases |s|
  {
    if |s| == 0 then []
    else if |s| < cap then [if writeFull then s + Zeros(cap - |s|) else s]
    else [s[..cap]] + DataWrites(cap, writeFull, s[cap..])
  }

  /**
   * The i2s_write records from SILENCE after the loop: at most two, each a run of zeros
   * that is either all of SILENCE or tops the last read up to SILENCE_SIZE.
   */
  function PaddingWrites(p: Padding, finalRead: nat): (r: seq<seq<Byte>>)
    requires p.ComplementSingle? || p.ComplementThenFull? ==> finalRead <= SILENCE_SIZE
    ensures |r| <= 2
    ensures forall i :: 0 <= i < |r| ==>
      && r[i] == Zeros(|r[i]|)
      && (|r[i]| == SILENCE_SIZE || |r[i]| + finalRead == SILENCE_SIZE)
  {
    match p
    case NoPadding => []
    case FullSingle => [Zeros(SILENCE_SIZE)]
    case FullDouble => [Zeros(SILENCE_SIZE), Zeros(SILENCE_SIZE)]
    case ComplementSingle => [Zeros(SILENCE_SIZE - finalRead)]
    case ComplementThenFull => [Zeros(SILENCE_SIZE - finalRead), Zeros(SILENCE_SIZE)]
  }

  /** Every fread the player makes on the payload, in order: none over a buffer, the last one short. */
  function Reads(cfg: Config, payload: seq<Byte>): (r: seq<nat>)
    requires cfg.Valid()
    ensures |r| >= 1 && r[|r| - 1] < cfg.capacity
    ensures forall i :: 0 <= i < |r| ==> r[i] <= cfg.capacity
  {
    LoopReadsBounded(cfg.capacity, Streamed(cfg, payload));
    (if cfg.discardFirst then [Min(cfg.capacity, |payload|)] else [])
    + LoopReads(cfg.capacity, Streamed(cfg, payload))
  }

  /**
   * Every i2s_write the player makes after the header, in order: none is empty, and
   * none is longer than the data buffer or SILENCE it is sent from.
   */
  function Output(cfg: Config, payload: seq<Byte>): (r: seq<seq<Byte>>)
    requires cfg.Valid()
    ensures forall i :: 0 <= i < |r| ==> 0 < |r[i]| && (|r[i]| <= cfg.capacity || |r[i]| <= SILENCE_SIZE)
  {
    var s := Streamed(cfg, payload);
    DataWritesBounded(cfg.capacity, cfg.writeFull, s);
    DataWrites(cfg.capacity, cfg.writeFull, s) + PaddingWrites(cfg.padding, FinalRead(cfg.capacity, s))
  }

  /** No fread of the loop asks for more than the buffer. */
  lemma {:induction false} LoopReadsBounded(cap: nat, s: seq<Byte>)
    requires cap > 0
    ensures forall i :: 0 <= i < |LoopReads(cap, s)| ==> LoopReads(cap, s)[i] <= cap
    decreases |s|
  {
    if |s| >= cap {
      LoopReadsBounded(cap, s[cap..]);
    }
  }

  /** No i2s_write of the loop is empty or longer than the buffer. */
  lemma {:induction false} DataWritesBounded(cap: nat, writeFull: bool, s: seq<Byte>)
    requires cap > 0
    ensures forall i :: 0 <= i < |DataWrites(cap, writeFull, s)| ==> 0 < |DataWrites(cap, writeFull, s)[i]| <= cap
    decreases |s|
  {
    if |s| >= cap {
      DataWritesBounded(cap, writeFull, s[cap..]);
    }
  }

  /** The i2s_write calls from SILENCE after the loop. */
  method WriteSilence(sink: Sink, silence: array<Byte>, p: Padding, nrBytesRead: nat)
    requires silence[..] == Zeros(SILENCE_SIZE)
    requires p.ComplementSingle? || p.ComplementThenFull? ==> nrBytesRead <= SILENCE_SIZE
    modifies sink
    ensures sink.writes == old(sink.writes) + PaddingWrites(p, nrBytesRead)
    ensures sink.sampleRate == old(sink.sampleRate)
  {
    assert silence[..SILENCE_SIZE] == Zeros(SILENCE_SIZE);
    match p
    case NoPadding =>
    case FullSingle =>
      sink.Write(silence, SILENCE_SIZE);
    case FullDouble =>
      sink.Write(silence, SILENCE_SIZE);
      sink.Write(silence, SILENCE_SIZE);
    case ComplementSingle =>
      ZerosSplit(SILENCE_SIZE - nrBytesRead, SILENCE_SIZE);
      sink.Write(silence, SILENCE_SIZE - nrBytesRead);
    case ComplementThenFull =>
      ZerosSplit(SILENCE_SIZE - nrBytesRead, SILENCE_SIZE);
      sink.Write(silence, SILENCE_SIZE - nrBytesRead);
      sink.Write(silence, SILENCE_SIZE);
  }

  /**
   * The while (true) loop: clear the buffer, fread up to its capacity, stop on an empty
   * read, i2s_write the whole buffer or the bytes read, stop after a short read.
   * Returns the value of the last fread.
   */
  method StreamLoop(f: File, data: array<Byte>, writeFull: bool, sink: Sink) returns (nrBytesRead: nat)
    requires f.Valid() && data.Length > 0
    modifies f, data, sink
    ensures f.Valid() && f.pos == |f.bytes|
    ensures f.readLog == old(f.readLog) + LoopReads(data.Length, old(f.Remaining()))
    ensures sink.writes == old(sink.writes) + DataWrites(data.Length, writeFull, old(f.Remaining()))
    ensures nrBytesRead == FinalRead(data.Length, old(f.Remaining()))
    ensures sink.sampleRate == old(sink.sampleRate)
  {
    var cap := data.Length;
    ghost var rest := f.Remaining();
    nrBytesRead := 0;
    while true
      invariant f.Valid()
      invariant f.readLog + LoopReads(cap, f.Remaining()) == old(f.readLog) + LoopReads(cap, rest)
      invariant sink.writes + DataWrites(cap, writeFull, f.Remaining())
             == old(sink.writes) + DataWrites(cap, writeFull, rest)
      invariant FinalRead(cap, f.Remaining()) == FinalRead(cap, rest)
      invariant sink.sampleRate == old(sink.sampleRate)
      decreases |f.bytes| - f.pos
    {
      ghost var remaining := f.Remaining();
      nrBytesRead := TransferBlock(f, data, writeFull, sink);
      if nrBytesRead == 0 {
        break;
      }
      if nrBytesRead != cap {
        assert remaining[..nrBytesRead] == remaining;
        ShortRead(cap, writeFull, remaining);
        break;
      }
      FullRead(cap, writeFull, remaining);
    }
  }

  /**
   * One pass of the loop body: clear the buffer, fread up to its capacity and, unless
   * the read is empty, i2s_write the whole buffer or the bytes read.
   */
  method TransferBlock(f: File, data: array<Byte>, writeFull: bool, sink: Sink) returns (n: nat)
    requires f.Valid() && data.Length > 0
    modifies f, data, sink
    ensures f.Valid() && n == Min(data.Length, |old(f.Remaining())|)
    ensures f.Remaining() == old(f.Remaining())[n..]
    ensures f.readLog == old(f.readLog) + [n]
    ensures sink.writes == old(sink.writes) + (if n == 0 then [] else [Block(data.Length, writeFull, old(f.Remaining())[..n])])
    ensures sink.sampleRate == old(sink.sampleRate)
  {
    ghost var remaining := f.Remaining();
    var cap := data.Length;
    Clear(data);
    n := f.ReadInto(data, cap);
    assert data[..n] == remaining[..n];
    if n == 0 {
      return;
    }
    if writeFull {
      assert data[..cap] == remaining[..n] + Zeros(cap - n) by {
        assert data[n..] == Zeros(cap - n);
      }
      sink.Write(data, cap);
    } else {
      sink.Write(data, n);
    }
  }

  /** What one i2s_write of the loop sends after a read of the bytes b. */
  function Block(cap: nat, writeFull: bool, b: seq<Byte>): (r: seq<Byte>)
    requires |b| <= cap
    ensures |r| == if writeFull then cap else |b|
    ensures r[..|b|] == b
  {
    if writeFull && |b| < cap then b + Zeros(cap - |b|) else b
  }

  /** A full read: the loop goes on with the bytes after the first buffer. */
  lemma FullRead(cap: nat, writeFull: bool, s: seq<Byte>)
    requires 0 < cap <= |s|
    ensures LoopReads(cap, s) == [cap] + LoopReads(cap, s[cap..])
    ensures DataWrites(cap, writeFull, s) == [Block(cap, writeFull, s[..cap])] + DataWrites(cap, writeFull, s[cap..])
    ensures FinalRead(cap, s) == FinalRead(cap, s[cap..])
  {
  }

  /** A short, non-empty read is the last one, and so is its write. */
  lemma ShortRead(cap: nat, writeFull: bool, s: seq<Byte>)
    requires 0 < |s| < cap
    ensures LoopReads(cap, s) == [|s|] && FinalRead(cap, s) == |s|
    ensures DataWrites(cap, writeFull, s) == [Block(cap, writeFull, s)]
  {
  }

  /**
   * Everything after i2s_set_sample_rates: malloc the buffer, the optional discarded
   * read, the loop and the trailing silence, from the current read position to the
   * end of the file.
   */
  method Stream(f: File, cfg: Config, sink: Sink, silence: array<Byte>)
    requires f.Valid() && cfg.Valid()
    requires silence[..] == Zeros(SILENCE_SIZE)
    modifies f, sink
    ensures f.Valid() && f.pos == |f.bytes|
    ensures f.readLog == old(f.readLog) + Reads(cfg, old(f.Remaining()))
    ensures sink.writes == old(sink.writes) + Output(cfg, old(f.Remaining()))
    ensures sink.sampleRate == old(sink.sampleRate)
  {
    ghost var payload := f.Remaining();
    var data := new Byte[cfg.capacity];
    var nrBytesRead := 0;
    if cfg.discardFirst {
      nrBytesRead := f.ReadInto(data, cfg.capacity);
      assert f.Remaining() == payload[nrBytesRead..];
    }
    ghost var rest := f.Remaining();
    assert rest == Streamed(cfg, payload);
    ghost var readsBefore := f.readLog;
    ghost var writesBefore := sink.writes;
    nrBytesRead := StreamLoop(f, data, cfg.writeFull, sink);
    ghost var afterLoop := sink.writes;
    WriteSilence(sink, silence, cfg.padding, nrBytesRead);
    assert sink.writes == writesBefore
      + (DataWrites(cfg.capacity, cfg.writeFull, rest) + PaddingWrites(cfg.padding, nrBytesRead));
  }

  /**
   * What play_wav_fileN leaves behind with configuration cfg on a file with these
   * contents: on a load failure (where ESP_ERROR_CHECK aborts) nothing reaches the
   * sink; otherwise the sink runs at the header's sample rate and receives Output
   * of every byte from the read position after the "data" descriptor to end of file.
   */
  ghost predicate Played(contents: seq<Byte>, cfg: Config, r: Result<(), LoadError>,
                         writesBefore: seq<seq<Byte>>, writesAfter: seq<seq<Byte>>,
                         rateBefore: nat, rateAfter: nat)
    requires cfg.Valid()
  {
    match ParseWav(contents)
    case Err(e) => r == Err(e) && writesAfter == writesBefore && rateAfter == rateBefore
    case Ok(p) =>
      && r == Ok(())
      && rateAfter == p.header.sampleRate
      && writesAfter == writesBefore + Output(cfg, contents[p.payloadStart..])
  }

  /** play_wav_fileN with its four knobs as a parameter. */
  method PlayWavFile(contents: seq<Byte>, cfg: Config, sink: Sink, silence: array<Byte>)
    returns (r: Result<(), LoadError>)
    requires cfg.Valid() && silence[..] == Zeros(SILENCE_SIZE)
    modifies sink
    ensures Played(contents, cfg, r, old(sink.writes), sink.writes, old(sink.sampleRate), sink.sampleRate)
  {
    var loaded, f := LoadWavHeader(contents);
    if loaded.Err? {
      return Err(loaded.error);
    }
    sink.SetSampleRate(loaded.value.sampleRate);
    Stream(f, cfg, sink, silence);
    r := Ok(());
  }

  method PlayWavFile1(contents: seq<Byte>, sink: Sink, silence: array<Byte>) returns (r: Result<(), LoadError>)
    requires silence[..] == Zeros(SILENCE_SIZE)
    modifies sink
    ensures Played(contents, Variant(1), r, old(sink.writes), sink.writes, old(sink.sampleRate), sink.sampleRate)
  {
    r := PlayWavFile(contents, Variant(1), sink, silence);
  }

  method PlayWavFile2(contents: seq<Byte>, sink: Sink, silence: array<Byte>) returns (r: Result<(), LoadError>)
    requires silence[..] == Zeros(SILENCE_SIZE)
    modifies sink
    ensures Played(contents, Variant(2), r, old(sink.writes), sink.writes, old(sink.sampleRate), sink.sampleRate)
  {
    r := PlayWavFile(contents, Variant(2), sink, silence);
  }

  method PlayWavFile3(contents: seq<Byte>, sink: Sink, silence: array<Byte>) returns (r: Result<(), LoadError>)
    requires silence[..] == Zeros(SILENCE_SIZE)
    modifies sink
    ensures Played(contents, Variant(3), r, old(sink.writes), sink.writes, old(sink.sampleRate), sink.sampleRate)
  {
    r := PlayWavFile(contents, Variant(3), sink, silence);
  }

  method PlayWavFile4(contents: seq<Byte>, sink: Sink, silence: array<Byte>) returns (r: Result<(), LoadError>)
    requires silence[..] == Zeros(SILENCE_SIZE)
    modifies sink
    ensures Played(contents, Variant(4), r, old(sink.writes), sink.writes, old(sink.sampleRate), sink.sampleRate)
  {
    r := PlayWavFile(contents, Variant(4), sink, silence);
  }

  method PlayWavFile5(contents: seq<Byte>, sink: Sink, silence: array<Byte>) returns (r: Result<(), LoadError>)
    requires silence[..] == Zeros(SILENCE_SIZE)
    modifies sink
    ensures Played(contents, Variant(5), r, old(sink.writes), sink.writes, old(sink.sampleRate), sink.sampleRate)
  {
    r := PlayWavFile(contents, Variant(5), sink, silence);
  }

  method PlayWavFile6(contents: seq<Byte>, sink: Sink, silence: array<Byte>) returns (r: Result<(), LoadError>)
    requires silence[..] == Zeros(SILENCE_SIZE)
    modifies sink
    ensures Played(contents, Variant(6), r, old(sink.writes), sink.writes, old(sink.sampleRate), sink.sampleRate)
  {
    r := PlayWavFile(contents, Variant(6), sink, silence);
  }

  method PlayWavFile7(contents: seq<Byte>, sink: Sink, silence: array<Byte>) returns (r: Result<(), LoadError>)
    requires silence[..] == Zeros(SILENCE_SIZE)
    modifies sink
    ensures Played(contents, Variant(7), r, old(sink.writes), sink.writes, old(sink.sampleRate), sink.sampleRate)
  {
    r := PlayWavFile(contents, Variant(7), sink, silence);
  }

  method PlayWavFile8(contents: seq<Byte>, sink: Sink, silence: array<Byte>) returns (r: Result<(), LoadError>)
    requires silence[..] == Zeros(SILENCE_SIZE)
    modifies sink
    ensures Played(contents, Variant(8), r, old(sink.writes), sink.writes, old(sink.sampleRate), sink.sampleRate)
  {
    r := PlayWavFile(contents, Variant(8), sink, silence);
  }

  method PlayWavFile9(contents: seq<Byte>, sink: Sink, silence: array<Byte>) returns (r: Result<(), LoadError>)
    requires silence[..] == Zeros(SILENCE_SIZE)
    modifies sink
    ensures Played(contents, Variant(9), r, old(sink.writes), sink.writes, old(sink.sampleRate), sink.sampleRate)
  {
    r := PlayWavFile(contents, Variant(9), sink, silence);
  }

  // ---------------------------------------------------------------------------------
  // What reaches the sink.

  lemma MulStep(k: nat, c: nat)
    ensures (k + 1) * c == k * c + c
  {
  }

  lemma MulGap(a: nat, b: nat, c: nat)
    ensures a < b ==> a * c + c <= b * c
    decreases b
  {
    if a < b {
      MulStep(b - 1, c);
      if a + 1 < b {
        MulGap(a, b - 1, c);
      }
    }
  }

  /** Euclidean division is unique: b and f are the quotient and remainder of b * c + f. */
  lemma DivModUnique(b: nat, c: nat, f: nat)
    requires f < c
    ensures (b * c + f) / c == b && (b * c + f) % c == f
  {
    var q := (b * c + f) / c;
    MulGap(b, q, c);
    MulGap(q, b, c);
  }

  /**
   * The loop reads full buffers and ends on the first short or empty read: no read
   * follows it, and the full reads plus the last one account for every byte.
   */
  lemma {:induction false} LoopReadsShape(cap: nat, s: seq<Byte>)
    requires cap > 0
    ensures var r := LoopReads(cap, s);
      && (forall i :: 0 <= i < |r| - 1 ==> r[i] == cap)
      && r[|r| - 1] == FinalRead(cap, s) < cap
      && |s| == (|r| - 1) * cap + FinalRead(cap, s)
  {
    if |s| >= cap {
      LoopReadsShape(cap, s[cap..]);
      var r' := LoopReads(cap, s[cap..]);
      assert LoopReads(cap, s) == [cap] + r';
      MulStep(|r'| - 1, cap);
    }
  }

  /** nr_bytes_read after the loop is the payload length modulo the buffer capacity. */
  lemma FinalReadIsRemainder(cap: nat, s: seq<Byte>)
    requires cap > 0
    ensures FinalRead(cap, s) == |s| % cap
  {
    LoopReadsShape(cap, s);
    DivModUnique(|LoopReads(cap, s)| - 1, cap, FinalRead(cap, s));
  }

  /**
   * Writing the bytes read (play_wav_file5 to 8): the writes concatenate to exactly the
   * bytes read, each write is as long as the read before it, every write but the last
   * is a full buffer, and no write is empty.
   */
  lemma {:induction false} BytesReadWrites(cap: nat, s: seq<Byte>)
    requires cap > 0
    ensures var w := DataWrites(cap, false, s);
      var r := LoopReads(cap, s);
      && Flatten(w) == s
      && |r| == |w| + (if FinalRead(cap, s) == 0 then 1 else 0)
      && (forall i :: 0 <= i < |w| ==> |w[i]| == r[i] && 0 < |w[i]| <= cap)
      && (forall i :: 0 <= i < |w| - 1 ==> |w[i]| == cap)
  {
    if |s| == 0 {
    } else if |s| < cap {
      assert Flatten([s]) == s + Flatten([]);
    } else {
      BytesReadWrites(cap, s[cap..]);
      var w' := DataWrites(cap, false, s[cap..]);
      assert DataWrites(cap, false, s) == [s[..cap]] + w';
      assert LoopReads(cap, s) == [cap] + LoopReads(cap, s[cap..]);
      assert ([s[..cap]] + w')[1..] == w';
      assert s == s[..cap] + s[cap..];
    }
  }

  /** The zeros memset leaves after the last short read of the loop over s. */
  function FillBytes(cap: nat, s: seq<Byte>): (r: nat)
    requires cap > 0
    ensures r < cap
  {
    var fr := FinalRead(cap, s);
    if fr == 0 then 0 else cap - fr
  }

  /**
   * Writing the whole buffer (play_wav_file1 to 4 and 9): every write is a full buffer,
   * there are ceil(|s| / cap) of them, and together they are the bytes read followed by
   * the zeros memset left in the last buffer.
   */
  lemma {:induction false} FullBufferWrites(cap: nat, s: seq<Byte>)
    requires cap > 0
    ensures var w := DataWrites(cap, true, s);
      && (forall i :: 0 <= i < |w| ==> |w[i]| == cap)
      && |w| * cap == |s| + FillBytes(cap, s)
      && Flatten(w) == s + Zeros(FillBytes(cap, s))
  {
    var w := DataWrites(cap, true, s);
    if |s| == 0 {
    } else if |s| < cap {
      assert Flatten(w) == (s + Zeros(cap - |s|)) + Flatten([]);
    } else {
      FullBufferWrites(cap, s[cap..]);
      var w' := DataWrites(cap, true, s[cap..]);
      assert w == [s[..cap]] + w';
      assert w[1..] == w';
      MulStep(|w'|, cap);
      assert s == s[..cap] + s[cap..];
    }
  }

  /** The number of whole-buffer writes is ceil(|s| / cap). */
  lemma FullBufferWriteCount(cap: nat, s: seq<Byte>)
    requires cap > 0
    ensures |DataWrites(cap, true, s)| == (|s| + cap - 1) / cap
  {
    FullBufferWrites(cap, s);
    DivModUnique(|DataWrites(cap, true, s)|, cap, cap - 1 - FillBytes(cap, s));
  }

  /** The number of zero bytes a padding policy writes. */
  function PaddingBytes(p: Padding, finalRead: nat): nat
    requires p.ComplementSingle? || p.ComplementThenFull? ==> finalRead <= SILENCE_SIZE
  {
    match p
    case NoPadding => 0
    case FullSingle => SILENCE_SIZE
    case FullDouble => 2 * SILENCE_SIZE
    case ComplementSingle => SILENCE_SIZE - finalRead
    case ComplementThenFull => 2 * SILENCE_SIZE - finalRead
  }

  /**
   * The trailing silence of each variant, in bytes, given the value of the loop's last
   * read (nr_bytes_read): none for 2, 4 and 5; one block for 3; two blocks for 1, 8
   * and 9; the rest of one block for 6; that plus one block for 7.
   */
  lemma VariantTrailingSilence(n: nat, finalRead: nat)
    requires 1 <= n <= 9 && finalRead < Variant(n).capacity
    ensures PaddingBytes(Variant(n).padding, finalRead) ==
      if n in {2, 4, 5} then 0
      else if n == 3 then SILENCE_SIZE
      else if n in {1, 8, 9} then 2 * SILENCE_SIZE
      else if n == 6 then SILENCE_SIZE - finalRead
      else 2 * SILENCE_SIZE - finalRead
  {
  }

  /** The trailing writes are all silence, PaddingBytes(p, finalRead) bytes in all. */
  lemma PaddingIsSilence(p: Padding, finalRead: nat)
    requires p.ComplementSingle? || p.ComplementThenFull? ==> finalRead <= SILENCE_SIZE
    ensures Flatten(PaddingWrites(p, finalRead)) == Zeros(PaddingBytes(p, finalRead))
  {
    match p
    case NoPadding =>
    case FullSingle =>
      FlattenPair(Zeros(SILENCE_SIZE), []);
    case FullDouble =>
      FlattenPair(Zeros(SILENCE_SIZE), Zeros(SILENCE_SIZE));
      ZerosSplit(SILENCE_SIZE, SILENCE_SIZE);
    case ComplementSingle =>
      FlattenPair(Zeros(SILENCE_SIZE - finalRead), []);
    case ComplementThenFull =>
      FlattenPair(Zeros(SILENCE_SIZE - finalRead), Zeros(SILENCE_SIZE));
      ZerosSplit(SILENCE_SIZE - finalRead, SILENCE_SIZE);
  }

  /**
   * The bytes the sink receives after the header: the bytes the loop read (zero-filled
   * up to a whole buffer when the whole buffer is written), then the trailing silence.
   */
  lemma OutputBytes(cfg: Config, payload: seq<Byte>)
    requires cfg.Valid()
    ensures var s := Streamed(cfg, payload);
      Flatten(Output(cfg, payload))
        == (if cfg.writeFull then s + Zeros(FillBytes(cfg.capacity, s)) else s)
           + Zeros(PaddingBytes(cfg.padding, FinalRead(cfg.capacity, s)))
  {
    var s := Streamed(cfg, payload);
    var w := DataWrites(cfg.capacity, cfg.writeFull, s);
    var fr := FinalRead(cfg.capacity, s);
    FlattenAppend(w, PaddingWrites(cfg.padding, fr));
    PaddingIsSilence(cfg.padding, fr);
    if cfg.writeFull {
      FullBufferWrites(cfg.capacity, s);
    } else {
      BytesReadWrites(cfg.capacity, s);
    }
  }

  /**
   * With a complement policy and a buffer as large as SILENCE (play_wav_file6 and 7),
   * data and trailing silence together are a positive whole number of SILENCE blocks.
   */
  lemma ComplementFillsBlocks(cfg: Config, payload: seq<Byte>)
    requires cfg.Valid() && cfg.capacity == SILENCE_SIZE && !cfg.writeFull
    requires cfg.padding.ComplementSingle? || cfg.padding.ComplementThenFull?
    ensures var total := |Flatten(Output(cfg, payload))|;
      total >= SILENCE_SIZE && total % SILENCE_SIZE == 0
  {
    var s := Streamed(cfg, payload);
    var fr := FinalRead(SILENCE_SIZE, s);
    var k := |LoopReads(SILENCE_SIZE, s)| - 1;
    var total := |Flatten(Output(cfg, payload))|;
    assert total == |s| + PaddingBytes(cfg.padding, fr) by {
      OutputBytes(cfg, payload);
    }
    var m := if cfg.padding.ComplementSingle? then k + 1 else k + 2;
    assert total == m * SILENCE_SIZE by {
      LoopReadsShape(SILENCE_SIZE, s);
      MulStep(k, SILENCE_SIZE);
      MulStep(k + 1, SILENCE_SIZE);
    }
    DivModUnique(m, SILENCE_SIZE, 0);
  }

  /** An empty payload: the loop makes one empty read and no write; only silence follows. */
  lemma EmptyPayload(cfg: Config)
    requires cfg.Valid()
    ensures Reads(cfg, []) == (if cfg.discardFirst then [0, 0] else [0])
    ensures Output(cfg, []) == PaddingWrites(cfg.padding, 0)
  {
  }

  /**
   * play_wav_file6 as written on an 8000-byte payload: the read before the loop takes
   * all 8000 bytes and throws them away, the loop's only read is empty, and the sink
   * gets one block of silence and no audio.
   */
  lemma DiscardedFirstRead(payload: seq<Byte>)
    requires |payload| == 8000
    ensures Reads(Variant(6), payload) == [8000, 0]
    ensures Output(Variant(6), payload) == [Zeros(SILENCE_SIZE)]
  {
    assert Streamed(Variant(6), payload) == [];
  }

  /** Variants 6 to 8 write only what follows the first min(8096, |payload|) bytes. */
  lemma DiscardLosesFirstBlock(n: nat, payload: seq<Byte>)
    requires 6 <= n <= 8
    ensures var s := payload[Min(8096, |payload|)..];
      Flatten(Output(Variant(n), payload))
        == s + Zeros(PaddingBytes(Variant(n).padding, FinalRead(8096, s)))
  {
    OutputBytes(Variant(n), payload);
  }

  /** The bytes-read loop with no discarded read and complement padding. */
  const CORRECTED: Config := Config(SILENCE_SIZE, false, false, ComplementSingle)

  /**
   * Without the discarded read every payload byte reaches the sink, topped up with
   * silence to the next SILENCE block boundary; an 8000-byte payload is one read of
   * 8000 bytes, one write of 8000 bytes and one write of 96 zero bytes.
   */
  lemma CorrectedPlaysWholePayload(payload: seq<Byte>)
    ensures Flatten(Output(CORRECTED, payload))
         == payload + Zeros(SILENCE_SIZE - |payload| % SILENCE_SIZE)
    ensures |payload| == 8000 ==>
      && Reads(CORRECTED, payload) == [8000]
      && Output(CORRECTED, payload) == [payload, Zeros(96)]
  {
    OutputBytes(CORRECTED, payload);
    FinalReadIsRemainder(SILENCE_SIZE, payload);
  }

  /** play_wav_file5: the sink receives exactly the bytes from the read position to end of file. */
  lemma Variant5WritesPayload(payload: seq<Byte>)
    ensures Flatten(Output(Variant(5), payload)) == payload
  {
    OutputBytes(Variant(5), payload);
  }
}
