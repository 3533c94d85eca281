/**
 * `load_wav_header`: read the 44-byte header, skip every chunk that is not "data"
 * by its declared size, then validate. The file is given as already open.
 */
module Loader {
  import opened Results
  import opened Bytes
  import opened WavFormat
  import opened WavFile

  /** Why a header was not loaded. */
  datatype LoadError =
    | Truncated               // fewer than 44 bytes in the file
    | DataChunkNotFound       // the file ended before a "data" descriptor was read
    | Invalid(failed: Check)  // validate_wav_data returned false on this check

  /** A loaded header and the read position it leaves: the first payload byte. */
  datatype Parsed = Parsed(header: Header, payloadStart: nat)

  /**
   * One pass of the scan loop from a non-"data" descriptor `d` whose body starts at
   * `pos`: skip the body, then read the next 8-byte descriptor. None when the file
   * does not hold the whole body and descriptor.
   */
  function ScanPass(s: seq<Byte>, pos: nat, d: Chunk): (r: Option<(nat, Chunk)>)
    requires pos <= |s|
    ensures r.None? <==> pos + d.size + CHUNK_DESCRIPTOR_SIZE > |s|
    ensures r.Some? ==> r.value.0 == pos + d.size + CHUNK_DESCRIPTOR_SIZE
    ensures r.Some? ==> EncodeChunk(r.value.1) == s[pos + d.size..r.value.0]
  {
    var next := pos + d.size;
    if next + CHUNK_DESCRIPTOR_SIZE > |s| then None
    else
      Some((next + CHUNK_DESCRIPTOR_SIZE, DecodeChunk(s[next..next + CHUNK_DESCRIPTOR_SIZE])))
  }

  /**
   * The whole scan from descriptor `d` with the position at `pos`: the "data" descriptor
   * it stops at and the position after it, or None when the file is exhausted first.
   */
  function ScanFrom(s: seq<Byte>, pos: nat, d: Chunk): (r: Option<(Chunk, nat)>)
    requires pos <= |s|
    ensures r.Some? ==> r.value.0.id == DATA_ID && pos <= r.value.1 <= |s|
    ensures d.id == DATA_ID ==> r == Some((d, pos))
    ensures r.None? ==> d.id != DATA_ID
    ensures r.Some? && d.id != DATA_ID ==>
      && r.value.1 >= pos + d.size + CHUNK_DESCRIPTOR_SIZE
      && EncodeChunk(r.value.0) == s[r.value.1 - CHUNK_DESCRIPTOR_SIZE..r.value.1]
    decreases |s| - pos
  {
    if d.id == DATA_ID then Some((d, pos))
    else
      match ScanPass(s, pos, d)
      case None => None
      case Some((next, d')) => ScanFrom(s, next, d')
  }

  /** The outcome of `load_wav_header` on a file with contents s. */
  function ParseWav(s: seq<Byte>): (r: Result<Parsed, LoadError>)
    ensures r == Err(Truncated) <==> |s| < WAV_HEADER_SIZE
    ensures r.Ok? ==>
      var p := r.value;
      var h0 := DecodeHeader(s[..WAV_HEADER_SIZE]);
      && ValidateWavData(p.header)
      && p.header.(data := h0.data) == h0
      && WAV_HEADER_SIZE <= p.payloadStart <= |s|
      && EncodeChunk(p.header.data) == s[p.payloadStart - CHUNK_DESCRIPTOR_SIZE..p.payloadStart]
    ensures r.Err? && r.error.Invalid? ==> r.error.failed != DataSection
  {
    if |s| < WAV_HEADER_SIZE then Err(Truncated)
    else
      var h0 := DecodeHeader(s[..WAV_HEADER_SIZE]);
      assert s[..WAV_HEADER_SIZE][DESCRIPTOR_OFFSET..WAV_HEADER_SIZE] == s[DESCRIPTOR_OFFSET..WAV_HEADER_SIZE];
      assert h0.data == DecodeChunk(s[DESCRIPTOR_OFFSET..WAV_HEADER_SIZE]);
      match ScanFrom(s, WAV_HEADER_SIZE, h0.data)
      case None => Err(DataChunkNotFound)
      case Some((d, cursor)) =>
        var h := h0.(data := d);
        if ValidateWavData(h) then Ok(Parsed(h, cursor))
        else Err(Invalid(FirstFailure(h).value))
  }

  /** The header `load_wav_header` returns, or the reason it fails. */
  function Loaded(s: seq<Byte>): Result<Header, LoadError>
  {
    match ParseWav(s)
    case Ok(p) => Ok(p.header)
    case Err(e) => Err(e)
  }

  /**
   * `load_wav_header`, from fopen on: returns the loaded header (ESP_OK) or the reason
   * it failed (ESP_FAIL), and the open file, positioned at the payload on success.
   */
  method LoadWavHeader(contents: seq<Byte>) returns (r: Result<Header, LoadError>, f: File)
    ensures fresh(f) && f.Valid() && f.bytes == contents
    ensures r == Loaded(contents)
    ensures r.Ok? ==> f.pos == ParseWav(contents).value.payloadStart
  {
    f := new File.Open(contents);
    var buffer := f.Read(WAV_HEADER_SIZE);
    if |buffer| < WAV_HEADER_SIZE {
      return Err(Truncated), f;
    }
    assert buffer == contents[..WAV_HEADER_SIZE];
    var header := DecodeHeader(buffer);
    ghost var h0 := header;
    while header.data.id != DATA_ID
      invariant f.Valid() && f.bytes == contents && WAV_HEADER_SIZE <= f.pos
      invariant header.(data := h0.data) == h0
      invariant ScanFrom(contents, f.pos, header.data) == ScanFrom(contents, WAV_HEADER_SIZE, h0.data)
      decreases |contents| - f.pos
    {
      ghost var pos0 := f.pos;
      var next := SkipChunk(f, header.data);
      ScanFromUnfold(contents, pos0, header.data);
      if next.None? {
        ParseNotFound(contents);
        return Err(DataChunkNotFound), f;
      }
      header := header.(data := next.value);
    }
    ParseAfterScan(contents, header.data, f.pos);
    assert h0.(data := header.data) == header;
    if !ValidateWavData(header) {
      return Err(Invalid(FirstFailure(header).value)), f;
    }
    return Ok(header), f;
  }

  /**
   * One iteration of the scan loop: skip the body of `d` and read the next descriptor,
   * two freads that together advance the position by at most body + 8 bytes.
   * None when the descriptor read comes back short.
   */
  method SkipChunk(f: File, d: Chunk) returns (next: Option<Chunk>)
    requires f.Valid()
    modifies f
    ensures f.Valid() && f.pos == Min(old(f.pos) + d.size + CHUNK_DESCRIPTOR_SIZE, |f.bytes|)
    ensures var body := Min(d.size, |f.bytes| - old(f.pos));
      f.readLog == old(f.readLog) + [body, f.pos - old(f.pos) - body]
    ensures next.None? <==> ScanPass(f.bytes, old(f.pos), d).None?
    ensures next.Some? ==> ScanPass(f.bytes, old(f.pos), d) == Some((f.pos, next.value))
  {
    ghost var pos0 := f.pos;
    // The source reads the skipped body into the 44-byte stack buffer; only the position matters.
    var skipped := f.Read(d.size);
    var descriptor := f.Read(CHUNK_DESCRIPTOR_SIZE);
    if |descriptor| < CHUNK_DESCRIPTOR_SIZE {
      return None;
    }
    PassLands(f.bytes, pos0, d, f.pos, descriptor);
    return Some(DecodeChunk(descriptor));
  }

  /** One pass of the scan from a non-"data" descriptor: stop if it runs out of file, else go on from where it lands. */
  lemma ScanFromUnfold(s: seq<Byte>, pos: nat, d: Chunk)
    requires pos <= |s| && d.id != DATA_ID
    ensures ScanPass(s, pos, d).None? ==> ScanFrom(s, pos, d).None?
    ensures ScanPass(s, pos, d).Some? ==>
      ScanFrom(s, pos, d) == ScanFrom(s, ScanPass(s, pos, d).value.0, ScanPass(s, pos, d).value.1)
  {
  }

  /** A pass over a file that holds the whole body lands just after the descriptor that follows it. */
  lemma PassLands(s: seq<Byte>, pos: nat, d: Chunk, next: nat, descriptor: seq<Byte>)
    requires next == pos + d.size + CHUNK_DESCRIPTOR_SIZE <= |s|
    requires descriptor == s[pos + d.size..next]
    ensures ScanPass(s, pos, d) == Some((next, DecodeChunk(descriptor)))
  {
  }

  /** When the scan from the header's descriptor finds no "data" descriptor, loading reports DataChunkNotFound. */
  lemma ParseNotFound(s: seq<Byte>)
    requires WAV_HEADER_SIZE <= |s|
    requires ScanFrom(s, WAV_HEADER_SIZE, DecodeHeader(s[..WAV_HEADER_SIZE]).data).None?
    ensures ParseWav(s) == Err(DataChunkNotFound)
  {
  }

  /** A chunk the scan skips: its identifier (not "data") and its body. */
  datatype Skip = Skip(id: FourCC, body: seq<Byte>)

  /** Every chunk in cs is one the scan skips and whose size fits chunk_size. */
  predicate Skippable(cs: seq<Skip>)
  {
    cs == [] || (cs[0].id != DATA_ID && |cs[0].body| < 0x1_0000_0000 && Skippable(cs[1..]))
  }

  /** The descriptor in front of the chunks cs, with `final` after the last of them. */
  function Descriptor(cs: seq<Skip>, final: Chunk): Chunk
    requires Skippable(cs)
  {
    if cs == [] then final else Chunk(cs[0].id, |cs[0].body|)
  }

  /** The number of bytes the scan passes over for the chunks cs: each body and the descriptor after it. */
  function SkippedLength(cs: seq<Skip>): nat
  {
    if cs == [] then 0 else |cs[0].body| + CHUNK_DESCRIPTOR_SIZE + SkippedLength(cs[1..])
  }

  /** The bytes after the first descriptor: every body followed by the next descriptor. */
  function Skipped(cs: seq<Skip>, final: Chunk): (r: seq<Byte>)
    requires Skippable(cs)
    ensures |r| == SkippedLength(cs)
  {
    if cs == [] then []
    else
      cs[0].body + EncodeChunk(Descriptor(cs[1..], final)) + Skipped(cs[1..], final)
  }

  /**
   * From the descriptor in front of any run of non-"data" chunks, the scan skips every
   * one of them by its declared size and stops at the "data" descriptor after the last,
   * at position end.
   */
  lemma {:induction false} ScanSkips(s: seq<Byte>, pos: nat, cs: seq<Skip>, final: Chunk, end: nat)
    requires Skippable(cs) && final.id == DATA_ID
    requires end == pos + SkippedLength(cs) <= |s| && s[pos..end] == Skipped(cs, final)
    ensures ScanFrom(s, pos, Descriptor(cs, final)) == Some((final, end))
    decreases |cs|
  {
    if cs != [] {
      var d := Descriptor(cs, final);
      var d' := Descriptor(cs[1..], final);
      var next := pos + |cs[0].body| + CHUNK_DESCRIPTOR_SIZE;
      assert d.size == |cs[0].body| && d.id != DATA_ID && Skippable(cs[1..]);
      assert s[pos + d.size..next] == EncodeChunk(d') && next + SkippedLength(cs[1..]) == end
          && s[next..end] == Skipped(cs[1..], final) by {
        var rest := Skipped(cs[1..], final);
        assert Skipped(cs, final) == cs[0].body + EncodeChunk(d') + rest;
        SlicesOf(s, pos, cs[0].body, EncodeChunk(d'), rest);
      }
      ScanSkips(s, next, cs[1..], final, end);
      ScanStep(s, pos, d, d', next, Some((final, end)));
    }
  }

  /** If the scan from d' at next gives r, so does the scan from d, whose pass lands there. */
  lemma ScanStep(s: seq<Byte>, pos: nat, d: Chunk, d': Chunk, next: nat, r: Option<(Chunk, nat)>)
    requires next == pos + d.size + CHUNK_DESCRIPTOR_SIZE <= |s| && d.id != DATA_ID
    requires s[pos + d.size..next] == EncodeChunk(d')
    requires ScanFrom(s, next, d') == r
    ensures ScanFrom(s, pos, d) == r
  {
    PassOver(s, pos, d, d', next);
  }

  /** The pieces of s[pos..] when it starts with body + desc + rest. */
  lemma SlicesOf(s: seq<Byte>, pos: nat, body: seq<Byte>, desc: seq<Byte>, rest: seq<Byte>)
    requires pos + |body| + |desc| + |rest| <= |s|
    requires s[pos..pos + |body| + |desc| + |rest|] == body + desc + rest
    ensures s[pos + |body|..pos + |body| + |desc|] == desc
    ensures s[pos + |body| + |desc|..pos + |body| + |desc| + |rest|] == rest
  {
    var t := s[pos..pos + |body| + |desc| + |rest|];
    forall i | 0 <= i < |desc|
      ensures s[pos + |body|..pos + |body| + |desc|][i] == desc[i]
    {
      assert t[|body| + i] == desc[i];
    }
    forall i | 0 <= i < |rest|
      ensures s[pos + |body| + |desc|..pos + |body| + |desc| + |rest|][i] == rest[i]
    {
      assert t[|body| + |desc| + i] == rest[i];
    }
  }

  /** A pass over a body followed by the encoding of d' moves to d' just after it. */
  lemma PassOver(s: seq<Byte>, pos: nat, d: Chunk, d': Chunk, next: nat)
    requires next == pos + d.size + CHUNK_DESCRIPTOR_SIZE <= |s| && d.id != DATA_ID
    requires s[pos + d.size..next] == EncodeChunk(d')
    ensures ScanFrom(s, pos, d) == ScanFrom(s, next, d')
  {
    ChunkRoundTrip(d');
    assert ScanPass(s, pos, d) == Some((next, d'));
  }

  /**
   * A file whose header descriptor starts a run of any number of non-"data" chunks,
   * ending in the "data" descriptor `final`, loads to its header with `final` as the
   * data chunk (or fails on the check that header fails); the payload starts after them.
   */
  lemma SkipUnknownChunks(s: seq<Byte>, cs: seq<Skip>, final: Chunk)
    requires final.id == DATA_ID && Skippable(cs)
    requires WAV_HEADER_SIZE + SkippedLength(cs) <= |s|
    requires DecodeHeader(s[..WAV_HEADER_SIZE]).data == Descriptor(cs, final)
    requires s[WAV_HEADER_SIZE..WAV_HEADER_SIZE + SkippedLength(cs)] == Skipped(cs, final)
    ensures var h := DecodeHeader(s[..WAV_HEADER_SIZE]).(data := final);
      ParseWav(s) == if ValidateWavData(h) then Ok(Parsed(h, WAV_HEADER_SIZE + SkippedLength(cs)))
                     else Err(Invalid(FirstFailure(h).value))
  {
    var end := WAV_HEADER_SIZE + SkippedLength(cs);
    ScanSkips(s, WAV_HEADER_SIZE, cs, final, end);
    ParseAfterScan(s, final, end);
  }

  /** Once the scan from the header's descriptor stops at d and end, loading validates the header with d. */
  lemma ParseAfterScan(s: seq<Byte>, d: Chunk, end: nat)
    requires WAV_HEADER_SIZE <= |s|
    requires ScanFrom(s, WAV_HEADER_SIZE, DecodeHeader(s[..WAV_HEADER_SIZE]).data) == Some((d, end))
    ensures var h := DecodeHeader(s[..WAV_HEADER_SIZE]).(data := d);
      ParseWav(s) == if ValidateWavData(h) then Ok(Parsed(h, end)) else Err(Invalid(FirstFailure(h).value))
  {
  }

  /**
   * The scan's state after k passes from descriptor d at pos, or None when a pass
   * runs out of file or a "data" descriptor has already stopped the loop.
   */
  function Walk(s: seq<Byte>, pos: nat, d: Chunk, k: nat): (r: Option<(nat, Chunk)>)
    requires pos <= |s|
    ensures r.Some? ==> pos <= r.value.0 <= |s|
    decreases k
  {
    if k == 0 then Some((pos, d))
    else if d.id == DATA_ID then None
    else
      match ScanPass(s, pos, d)
      case None => None
      case Some((p, c)) => Walk(s, p, c, k - 1)
  }

  /** After k passes the scan holds a non-"data" descriptor whose body and successor are not in the file. */
  predicate StuckAt(s: seq<Byte>, pos: nat, d: Chunk, k: nat)
    requires pos <= |s|
  {
    var w := Walk(s, pos, d, k);
    w.Some? && w.value.1.id != DATA_ID && ScanPass(s, w.value.0, w.value.1).None?
  }

  /** Whatever "data" descriptor the passes reach, the scan stops there, at that position. */
  lemma {:induction false} WalkToData(s: seq<Byte>, pos: nat, d: Chunk, k: nat, p: nat, c: Chunk)
    requires pos <= |s| && Walk(s, pos, d, k) == Some((p, c)) && c.id == DATA_ID
    ensures ScanFrom(s, pos, d) == Some((c, p))
    decreases k
  {
    if k > 0 {
      var pass := ScanPass(s, pos, d);
      WalkToData(s, pass.value.0, pass.value.1, k - 1, p, c);
    }
  }

  /** A pass that runs out of file ends the scan with no "data" descriptor. */
  lemma {:induction false} StuckMeansNotFound(s: seq<Byte>, pos: nat, d: Chunk, k: nat)
    requires pos <= |s| && StuckAt(s, pos, d, k)
    ensures ScanFrom(s, pos, d).None?
    decreases k
  {
    if k > 0 {
      var pass := ScanPass(s, pos, d);
      assert Walk(s, pos, d, k) == Walk(s, pass.value.0, pass.value.1, k - 1);
      StuckMeansNotFound(s, pass.value.0, pass.value.1, k - 1);
    }
  }

  /** The scan finds no "data" descriptor exactly when some pass along it runs out of file. */
  lemma {:induction false} ScanNotFound(s: seq<Byte>, pos: nat, d: Chunk)
    requires pos <= |s|
    ensures ScanFrom(s, pos, d).None? <==> exists k: nat :: StuckAt(s, pos, d, k)
    decreases |s| - pos
  {
    forall k: nat | StuckAt(s, pos, d, k)
      ensures ScanFrom(s, pos, d).None?
    {
      StuckMeansNotFound(s, pos, d, k);
    }
    if ScanFrom(s, pos, d).None? {
      var pass := ScanPass(s, pos, d);
      if pass.None? {
        assert StuckAt(s, pos, d, 0);
      } else {
        ScanNotFound(s, pass.value.0, pass.value.1);
        var k: nat :| StuckAt(s, pass.value.0, pass.value.1, k);
        assert Walk(s, pos, d, k + 1) == Walk(s, pass.value.0, pass.value.1, k);
        assert StuckAt(s, pos, d, k + 1);
      }
    }
  }

  // ---------------------------------------------------------------------------------
  // The scan loop as written: it ignores fread's results, so at end of file it copies
  // the unchanged first 8 bytes of its stack buffer back into the descriptor forever.

  /** fread storing the bytes it obtains over the start of a buffer. */
  function Overlay(buf: seq<Byte>, src: seq<Byte>): (r: seq<Byte>)
    ensures |r| == |buf|
    ensures |src| >= |buf| ==> r == src[..|buf|]
    ensures |src| == 0 ==> r == buf
    ensures forall i :: 0 <= i < |buf| ==> r[i] == if i < |src| then src[i] else buf[i]
  {
    if |src| >= |buf| then src[..|buf|] else src + buf[|src|..]
  }

  /** Position, current descriptor and the first 8 bytes of the 44-byte stack buffer. */
  datatype ScanState = ScanState(pos: nat, data: Chunk, lead: seq<Byte>)

  /** One pass of lines 222-227 as written, with short reads storing what they obtain. */
  function AsWrittenPass(s: seq<Byte>, st: ScanState): (r: ScanState)
    requires st.pos <= |s| && |st.lead| == CHUNK_DESCRIPTOR_SIZE
    ensures st.pos <= r.pos <= |s| && |r.lead| == CHUNK_DESCRIPTOR_SIZE
  {
    var p1 := st.pos + Min(st.data.size, |s| - st.pos);
    var lead1 := Overlay(st.lead, s[st.pos..p1]);
    var p2 := p1 + Min(CHUNK_DESCRIPTOR_SIZE, |s| - p1);
    var lead2 := Overlay(lead1, s[p1..p2]);
    ScanState(p2, DecodeChunk(lead2), lead2)
  }

  /** Where the file holds the whole body and descriptor, the pass as written is ScanPass. */
  lemma AsWrittenAgreesWithScanPass(s: seq<Byte>, st: ScanState)
    requires st.pos <= |s| && |st.lead| == CHUNK_DESCRIPTOR_SIZE
    requires st.pos + st.data.size + CHUNK_DESCRIPTOR_SIZE <= |s|
    ensures ScanPass(s, st.pos, st.data) == Some((AsWrittenPass(s, st).pos, AsWrittenPass(s, st).data))
  {
    var p1 := st.pos + st.data.size;
    var lead1 := Overlay(st.lead, s[st.pos..p1]);
    assert Overlay(lead1, s[p1..p1 + CHUNK_DESCRIPTOR_SIZE]) == s[p1..p1 + CHUNK_DESCRIPTOR_SIZE];
  }

  /** At end of file a pass as written changes nothing, so the loop never exits. */
  lemma AsWrittenPassSpinsAtEof(s: seq<Byte>, st: ScanState)
    requires st.pos == |s| && |st.lead| == CHUNK_DESCRIPTOR_SIZE
    requires st.data == DecodeChunk(st.lead)
    ensures AsWrittenPass(s, st) == st
  {
  }

  /**
   * A 44-byte file whose descriptor is not "data": after one pass the loop as written
   * holds a non-"data" descriptor (the copy of "RIFF" and Size from the start of its
   * buffer) and no later pass changes anything, so load_wav_header never returns.
   */
  lemma HeaderOnlyFileSpins(s: seq<Byte>)
    requires |s| == WAV_HEADER_SIZE
    requires s[..4] != DATA_ID && s[DESCRIPTOR_OFFSET..DESCRIPTOR_OFFSET + 4] != DATA_ID
    ensures var st := AsWrittenPass(s, ScanState(WAV_HEADER_SIZE, DecodeChunk(s[DESCRIPTOR_OFFSET..]), s[..8]));
      && st.pos == |s| && st.data.id != DATA_ID
      && AsWrittenPass(s, st) == st
  {
    var st := AsWrittenPass(s, ScanState(WAV_HEADER_SIZE, DecodeChunk(s[DESCRIPTOR_OFFSET..]), s[..8]));
    assert st.lead == s[..8];
    AsWrittenPassSpinsAtEof(s, st);
  }

  /** The same file with an end-of-file exit in the scan: loading stops with DataChunkNotFound. */
  lemma HeaderOnlyFileNotFound(s: seq<Byte>)
    requires |s| == WAV_HEADER_SIZE
    requires s[DESCRIPTOR_OFFSET..DESCRIPTOR_OFFSET + 4] != DATA_ID
    ensures ParseWav(s) == Err(DataChunkNotFound)
  {
    var d := DecodeHeader(s[..WAV_HEADER_SIZE]).data;
    assert d.id == s[DESCRIPTOR_OFFSET..DESCRIPTOR_OFFSET + 4] by {
      assert s[..WAV_HEADER_SIZE] == s;
    }
    ScanFromUnfold(s, WAV_HEADER_SIZE, d);
    ParseNotFound(s);
  }

  /**
   * A 44-byte header whose descriptor is not "data" and has size 0, followed by the
   * four bytes "data" and nothing else: the partial read of the next descriptor stores
   * "data" over the start of the stack buffer, so the loop as written exits with a
   * stale chunk_size (the RIFF Size field), while the scan with an end-of-file exit
   * reports DataChunkNotFound.
   */
  lemma PartialDescriptorExits(s: seq<Byte>)
    requires |s| == WAV_HEADER_SIZE + 4
    requires s[DESCRIPTOR_OFFSET..DESCRIPTOR_OFFSET + 4] != DATA_ID
    requires s[DESCRIPTOR_OFFSET + 4..WAV_HEADER_SIZE] == [0, 0, 0, 0]
    requires s[WAV_HEADER_SIZE..] == DATA_ID
    ensures var st := AsWrittenPass(s, ScanState(WAV_HEADER_SIZE, DecodeChunk(s[DESCRIPTOR_OFFSET..WAV_HEADER_SIZE]), s[..8]));
      && st.pos == |s| && st.data.id == DATA_ID
      && st.data.size == DecodeHeader(s[..WAV_HEADER_SIZE]).size
    ensures ParseWav(s) == Err(DataChunkNotFound)
  {
    var d := DecodeChunk(s[DESCRIPTOR_OFFSET..WAV_HEADER_SIZE]);
    SmallDescriptor(s, 0);
    assert ParseWav(s) == Err(DataChunkNotFound) by {
      ScanFromUnfold(s, WAV_HEADER_SIZE, d);
      ParseNotFound(s);
    }
    var st := AsWrittenPass(s, ScanState(WAV_HEADER_SIZE, d, s[..8]));
    assert st.lead == s[WAV_HEADER_SIZE..] + s[4..8];
    assert st.lead[4..8] == s[..WAV_HEADER_SIZE][4..8];
  }

  /** The header's descriptor is the one at bytes 36..44, here of a size n below 256. */
  lemma SmallDescriptor(s: seq<Byte>, n: Byte)
    requires WAV_HEADER_SIZE <= |s|
    requires s[DESCRIPTOR_OFFSET + 4..WAV_HEADER_SIZE] == [n, 0, 0, 0]
    ensures DecodeChunk(s[DESCRIPTOR_OFFSET..WAV_HEADER_SIZE]).size == n
    ensures DecodeHeader(s[..WAV_HEADER_SIZE]).data == DecodeChunk(s[DESCRIPTOR_OFFSET..WAV_HEADER_SIZE])
  {
    var z: seq<Byte> := [n, 0, 0, 0];
    assert s[DESCRIPTOR_OFFSET..WAV_HEADER_SIZE][4..8] == z;
    assert z[1..][1..][1..][1..] == [];
    assert DecodeLE(z[1..][1..][1..]) == 0;
    assert DecodeLE(z[1..][1..]) == 0;
    assert DecodeLE(z[1..]) == 0;
    assert DecodeLE(z) == n;
    assert s[..WAV_HEADER_SIZE][DESCRIPTOR_OFFSET..WAV_HEADER_SIZE] == s[DESCRIPTOR_OFFSET..WAV_HEADER_SIZE];
  }

  /**
   * A 44-byte header whose descriptor is not "data" and has size 4, followed by the
   * four bytes "data" and nothing else: the complete read of the skipped body stores
   * "data" over the start of the stack buffer and the descriptor read gets nothing, so
   * the loop as written exits with a stale chunk_size (the RIFF Size field), while the
   * scan with an end-of-file exit reports DataChunkNotFound.
   */
  lemma FullBodyReadExits(s: seq<Byte>)
    requires |s| == WAV_HEADER_SIZE + 4
    requires s[DESCRIPTOR_OFFSET..DESCRIPTOR_OFFSET + 4] != DATA_ID
    requires s[DESCRIPTOR_OFFSET + 4..WAV_HEADER_SIZE] == [4, 0, 0, 0]
    requires s[WAV_HEADER_SIZE..] == DATA_ID
    ensures var st := AsWrittenPass(s, ScanState(WAV_HEADER_SIZE, DecodeChunk(s[DESCRIPTOR_OFFSET..WAV_HEADER_SIZE]), s[..8]));
      && st.pos == |s| && st.data.id == DATA_ID
      && st.data.size == DecodeHeader(s[..WAV_HEADER_SIZE]).size
    ensures ParseWav(s) == Err(DataChunkNotFound)
  {
    var d := DecodeChunk(s[DESCRIPTOR_OFFSET..WAV_HEADER_SIZE]);
    SmallDescriptor(s, 4);
    assert ParseWav(s) == Err(DataChunkNotFound) by {
      ScanFromUnfold(s, WAV_HEADER_SIZE, d);
      ParseNotFound(s);
    }
    BodyReadLeavesData(s, d);
    var st := AsWrittenPass(s, ScanState(WAV_HEADER_SIZE, d, s[..8]));
    assert st.lead[4..8] == s[..WAV_HEADER_SIZE][4..8];
  }

  /**
   * A 44-byte header whose descriptor is not "data" and has size 10, followed by only
   * six bytes that begin with "data": the body read gets 6 of its 10 bytes and stores
   * them over the start of the stack buffer, so the loop as written exits with a
   * chunk_size made of the last two of them and the high half of the RIFF Size field,
   * while the scan with an end-of-file exit reports DataChunkNotFound.
   */
  lemma PartialBodyReadExits(s: seq<Byte>)
    requires |s| == WAV_HEADER_SIZE + 6
    requires s[DESCRIPTOR_OFFSET..DESCRIPTOR_OFFSET + 4] != DATA_ID
    requires s[DESCRIPTOR_OFFSET + 4..WAV_HEADER_SIZE] == [10, 0, 0, 0]
    requires s[WAV_HEADER_SIZE..WAV_HEADER_SIZE + 4] == DATA_ID
    ensures var st := AsWrittenPass(s, ScanState(WAV_HEADER_SIZE, DecodeChunk(s[DESCRIPTOR_OFFSET..WAV_HEADER_SIZE]), s[..8]));
      && st.pos == |s| && st.data.id == DATA_ID
      && st.data.size == DecodeLE(s[WAV_HEADER_SIZE + 4..] + s[6..8])
    ensures ParseWav(s) == Err(DataChunkNotFound)
  {
    var d := DecodeChunk(s[DESCRIPTOR_OFFSET..WAV_HEADER_SIZE]);
    SmallDescriptor(s, 10);
    assert ParseWav(s) == Err(DataChunkNotFound) by {
      ScanFromUnfold(s, WAV_HEADER_SIZE, d);
      ParseNotFound(s);
    }
    PartialBodyLeavesData(s, d);
    var st := AsWrittenPass(s, ScanState(WAV_HEADER_SIZE, d, s[..8]));
    assert st.lead[..4] == DATA_ID;
    assert st.lead[4..8] == s[WAV_HEADER_SIZE + 4..] + s[6..8];
  }

  /** The pass as written over a 10-byte body of which only 6 bytes are in the file. */
  lemma PartialBodyLeavesData(s: seq<Byte>, d: Chunk)
    requires |s| == WAV_HEADER_SIZE + 6 && d.size == 10
    ensures var st := AsWrittenPass(s, ScanState(WAV_HEADER_SIZE, d, s[..8]));
      st.pos == |s| && st.lead == s[WAV_HEADER_SIZE..] + s[6..8]
  {
  }

  /** The pass as written over a 4-byte body that ends the file: the body lands at the start of the buffer. */
  lemma BodyReadLeavesData(s: seq<Byte>, d: Chunk)
    requires |s| == WAV_HEADER_SIZE + 4 && d.size == 4
    ensures var st := AsWrittenPass(s, ScanState(WAV_HEADER_SIZE, d, s[..8]));
      st.pos == |s| && st.lead == s[WAV_HEADER_SIZE..] + s[4..8]
  {
  }
}
