/**
 * The 44-byte canonical RIFF/WAVE PCM header (`wav_header_t`, with its trailing
 * `wav_chunk_t` descriptor) and the fail-fast check `validate_wav_data`.
 * The ESP32 is little-endian and the struct has no padding, so copying the first
 * 44 bytes of the file over the struct decodes these offsets:
 *   0 RIFF id, 4 Size, 8 RiffFormat, 12 fmt id, 16 FormatSize, 20 FormatID,
 *   22 NumChannels, 24 SampleRate, 28 ByteRate, 32 BlockAlign, 34 BitsPerSample,
 *   36 data id, 40 data chunk_size.
 */
module WavFormat {
  import opened Results
  import opened Bytes

  type U16 = x: nat | x < 0x1_0000
  type U32 = x: nat | x < 0x1_0000_0000
  /** A four-character chunk identifier, `char[4]`. */
  type FourCC = s: seq<Byte> | |s| == 4 witness [0, 0, 0, 0]

  const RIFF_ID: FourCC := [0x52, 0x49, 0x46, 0x46]  // "RIFF"
  const WAVE_ID: FourCC := [0x57, 0x41, 0x56, 0x45]  // "WAVE"
  const FMT_PREFIX: seq<Byte> := [0x66, 0x6d, 0x74]  // "fmt", the only three bytes compared
  const DATA_ID: FourCC := [0x64, 0x61, 0x74, 0x61]  // "data"

  /** sizeof(wav_header_t) */
  const WAV_HEADER_SIZE: nat := 44
  /** sizeof(wav_chunk_t) */
  const CHUNK_DESCRIPTOR_SIZE: nat := 8
  /** Offset of the trailing chunk descriptor inside the header. */
  const DESCRIPTOR_OFFSET: nat := 36

  /** `wav_chunk_t`: a chunk identifier and the size of the body that follows it. */
  datatype Chunk = Chunk(id: FourCC, size: U32)

  /** `wav_header_t` */
  datatype Header = Header(
    riffSectionId: FourCC,
    size: U32,
    riffFormat: FourCC,
    formatSectionId: FourCC,
    formatSize: U32,
    formatId: U16,
    numChannels: U16,
    sampleRate: U32,
    byteRate: U32,
    blockAlign: U16,
    bitsPerSample: U16,
    data: Chunk)

  function U16At(b: seq<Byte>, off: nat): U16
    requires off + 2 <= |b|
  {
    DecodeLE(b[off..off + 2])
  }

  function U32At(b: seq<Byte>, off: nat): U32
    requires off + 4 <= |b|
  {
    assert Pow256(4) == 0x1_0000_0000;
    DecodeLE(b[off..off + 4])
  }

  /** memcpy of 8 bytes over a `wav_chunk_t`: every 8 bytes are the encoding of the descriptor they give. */
  function DecodeChunk(b: seq<Byte>): (r: Chunk)
    requires |b| == CHUNK_DESCRIPTOR_SIZE
    ensures EncodeChunk(r) == b
  {
    EncodeDecodeLE(b[4..8]);
    assert b == b[..4] + b[4..8];
    Chunk(b[..4], U32At(b, 4))
  }

  function EncodeChunk(c: Chunk): (r: seq<Byte>)
    ensures |r| == CHUNK_DESCRIPTOR_SIZE
    ensures r[..4] == c.id
  {
    c.id + EncodeLE(c.size, 4)
  }

  /** memcpy of 44 bytes over a `wav_header_t`: every 44 bytes are the encoding of the header they give. */
  function DecodeHeader(b: seq<Byte>): (r: Header)
    requires |b| == WAV_HEADER_SIZE
    ensures EncodeHeader(r) == b
  {
    EncodeDecodeLE(b[4..8]);
    EncodeDecodeLE(b[16..20]);
    EncodeDecodeLE(b[20..22]);
    EncodeDecodeLE(b[22..24]);
    EncodeDecodeLE(b[24..28]);
    EncodeDecodeLE(b[28..32]);
    EncodeDecodeLE(b[32..34]);
    EncodeDecodeLE(b[34..36]);
    assert b == b[0..4] + b[4..8] + b[8..12] + b[12..16] + b[16..20] + b[20..22] + b[22..24]
              + b[24..28] + b[28..32] + b[32..34] + b[34..36] + b[36..44];
    Header(b[0..4], U32At(b, 4), b[8..12], b[12..16], U32At(b, 16),
           U16At(b, 20), U16At(b, 22), U32At(b, 24), U32At(b, 28),
           U16At(b, 32), U16At(b, 34), DecodeChunk(b[36..44]))
  }

  /** The bytes of a header as laid out in memory and on disk. */
  function EncodeHeader(h: Header): (r: seq<Byte>)
    ensures |r| == WAV_HEADER_SIZE
    ensures r[DESCRIPTOR_OFFSET..] == EncodeChunk(h.data)
  {
    h.riffSectionId + EncodeLE(h.size, 4) + h.riffFormat + h.formatSectionId
    + EncodeLE(h.formatSize, 4) + EncodeLE(h.formatId, 2) + EncodeLE(h.numChannels, 2)
    + EncodeLE(h.sampleRate, 4) + EncodeLE(h.byteRate, 4) + EncodeLE(h.blockAlign, 2)
    + EncodeLE(h.bitsPerSample, 2) + EncodeChunk(h.data)
  }

  lemma ChunkRoundTrip(c: Chunk)
    ensures DecodeChunk(EncodeChunk(c)) == c
  {
    var b := EncodeChunk(c);
    assert b[4..8] == EncodeLE(c.size, 4);
    DecodeEncodeLE(c.size, 4);
  }

  /** Decoding the encoding of any header gives that header back. */
  lemma HeaderRoundTrip(h: Header)
    ensures DecodeHeader(EncodeHeader(h)) == h
  {
    var b := EncodeHeader(h);
    assert b[0..4] == h.riffSectionId;
    assert b[4..8] == EncodeLE(h.size, 4);
    assert b[8..12] == h.riffFormat;
    assert b[12..16] == h.formatSectionId;
    assert b[16..20] == EncodeLE(h.formatSize, 4);
    assert b[20..22] == EncodeLE(h.formatId, 2);
    assert b[22..24] == EncodeLE(h.numChannels, 2);
    assert b[24..28] == EncodeLE(h.sampleRate, 4);
    assert b[28..32] == EncodeLE(h.byteRate, 4);
    assert b[32..34] == EncodeLE(h.blockAlign, 2);
    assert b[34..36] == EncodeLE(h.bitsPerSample, 2);
    assert b[36..44] == EncodeChunk(h.data);
    DecodeEncodeLE(h.size, 4);
    DecodeEncodeLE(h.formatSize, 4);
    DecodeEncodeLE(h.formatId, 2);
    DecodeEncodeLE(h.numChannels, 2);
    DecodeEncodeLE(h.sampleRate, 4);
    DecodeEncodeLE(h.byteRate, 4);
    DecodeEncodeLE(h.blockAlign, 2);
    DecodeEncodeLE(h.bitsPerSample, 2);
    ChunkRoundTrip(h.data);
  }

  /** The checks of `validate_wav_data`, in the order the source tests them. */
  datatype Check =
    | RiffId          // "Not RIFF format"
    | WaveFormat      // "Not Wave file"
    | FormatSection   // "No format section found"
    | DataSection     // "data section not found"
    | PcmFormatId     // "format Id must be 1"
    | FormatSize16    // "format section size must be 16."
    | MonoOrStereo    // "only mono or stereo permitted."
    | SampleRateLimit // "Sample rate cannot be greater than 48000"
    | BitDepth        // "Only 8 or 16 bits per sample permitted."

  /** The position of a check in the source's sequence of tests. */
  function Rank(c: Check): nat
  {
    match c
    case RiffId => 0
    case WaveFormat => 1
    case FormatSection => 2
    case DataSection => 3
    case PcmFormatId => 4
    case FormatSize16 => 5
    case MonoOrStereo => 6
    case SampleRateLimit => 7
    case BitDepth => 8
  }

  const MAX_SAMPLE_RATE: nat := 48000

  /** Whether header h passes check c, each check stated on its own. */
  predicate Passes(h: Header, c: Check)
  {
    match c
    case RiffId => h.riffSectionId == RIFF_ID
    case WaveFormat => h.riffFormat == WAVE_ID
    case FormatSection => h.formatSectionId[..3] == FMT_PREFIX
    case DataSection => h.data.id == DATA_ID
    case PcmFormatId => h.formatId == 1
    case FormatSize16 => h.formatSize == 16
    case MonoOrStereo => h.numChannels == 1 || h.numChannels == 2
    case SampleRateLimit => h.sampleRate <= MAX_SAMPLE_RATE
    case BitDepth => h.bitsPerSample == 8 || h.bitsPerSample == 16
  }

  /**
   * The check on which `validate_wav_data` returns false (the one whose warning it logs),
   * or None when it returns true.
   */
  function FirstFailure(h: Header): (r: Option<Check>)
    ensures r.Some? ==> !Passes(h, r.value)
    ensures r.None? <==> forall c: Check :: Passes(h, c)
    ensures r.Some? ==> forall c: Check :: Rank(c) < Rank(r.value) ==> Passes(h, c)
  {
    if h.riffSectionId != RIFF_ID then Some(RiffId)
    else if h.riffFormat != WAVE_ID then Some(WaveFormat)
    else if h.formatSectionId[..3] != FMT_PREFIX then Some(FormatSection)
    else if h.data.id != DATA_ID then Some(DataSection)
    else if h.formatId != 1 then Some(PcmFormatId)
    else if h.formatSize != 16 then Some(FormatSize16)
    else if h.numChannels != 1 && h.numChannels != 2 then Some(MonoOrStereo)
    else if h.sampleRate > MAX_SAMPLE_RATE then Some(SampleRateLimit)
    else if h.bitsPerSample != 8 && h.bitsPerSample != 16 then Some(BitDepth)
    else None
  }

  /** `validate_wav_data`: true exactly when every one of the nine checks passes. */
  predicate ValidateWavData(h: Header)
    ensures ValidateWavData(h) <==>
      && h.riffSectionId == RIFF_ID
      && h.riffFormat == WAVE_ID
      && h.formatSectionId[..3] == FMT_PREFIX
      && h.data.id == DATA_ID
      && h.formatId == 1
      && h.formatSize == 16
      && (h.numChannels == 1 || h.numChannels == 2)
      && h.sampleRate <= MAX_SAMPLE_RATE
      && (h.bitsPerSample == 8 || h.bitsPerSample == 16)
  {
    FirstFailure(h).None?
  }
}
