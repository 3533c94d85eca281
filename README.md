# WAV playback core of an ESP32 sound player, in Dafny

This project models how the firmware in `main/src/main.cpp` plays an uncompressed WAV
file stored in SPIFFS through the I2S peripheral. It covers:

- **The 44-byte header** (`wav_header_t` with its trailing `wav_chunk_t` descriptor).
  The struct is decoded from the file's bytes as little-endian fields at fixed offsets.
  Encoding and decoding are proved inverse in both directions (`wav_format.dfy`).
- **`validate_wav_data`**, the fail-fast sequence of nine checks. It is modelled as the
  first check that fails, plus the boolean built from it (`wav_format.dfy`).
- **`load_wav_header`** (`loader.dfy`):
  - it reads the header;
  - it skips every chunk whose descriptor is not `data` by its declared size;
  - it validates the header;
  - it leaves the file positioned at the first payload byte.

  The open file is a class with a read cursor and a log of reads (`wav_file.dfy`).
- **The nine streaming functions `play_wav_file1` … `play_wav_file9`** (`player.dfy`).
  They are one algorithm with four knobs, collected in `Config`:
  - the buffer capacity (1024 or 8096);
  - whether each `i2s_write` sends the whole buffer or only the bytes read;
  - whether one read is made and thrown away before the loop;
  - which trailing silence is written from the zeroed `SILENCE` buffer.

  The I2S sink is a class that records its sample rate and every write in order. Each
  `PlayWavFileN` is proved to leave the sink exactly as the specification function
  `Output(Variant(N), payload)` says. Lemmas then state what those writes amount to:
  - the payload itself;
  - the payload zero-filled to whole buffers;
  - the silence after it;
  - the bytes lost to the discarded read.

Bytes are `Byte`, the integers 0 to 255. Header fields are `U16`/`U32` subset types, so
no C integer arithmetic can overflow inside the model. The one subtraction that could
wrap (`SILENCE_SIZE - nr_bytes_read`) is kept in range by `Config.Valid`.

## Model

| member | source | states |
|---|---|---|
| Bytes.DecodeEncodeLE | main/src/main.cpp:52-74 | Decoding the n-byte little-endian encoding of any value below 256^n gives the value back (how each uint16_t/uint32_t field is read from the file). |
| Bytes.EncodeDecodeLE | main/src/main.cpp:52-74 | Re-encoding the value decoded from any byte string gives back the same bytes. |
| WavFormat.EncodeChunk | main/src/main.cpp:52-56 | The 8-byte image of a `wav_chunk_t` starts with its 4-byte id. |
| WavFormat.EncodeHeader | main/src/main.cpp:58-74 | The image of a `wav_header_t` is 44 bytes (WAV_HEADER_SIZE), and its last 8 bytes are the data descriptor. |
| WavFormat.ChunkRoundTrip | main/src/main.cpp:52-56 | Decoding the encoding of any chunk descriptor gives the descriptor back. |
| WavFormat.DecodeChunk | main/src/main.cpp:225-226 | Every 8 bytes copied into `data` are the encoding of the descriptor they decode to, so the copy loses nothing. |
| WavFormat.HeaderRoundTrip | main/src/main.cpp:58-74 | Decoding the 44-byte encoding of any header gives that header back, field for field. |
| WavFormat.DecodeHeader | main/src/main.cpp:215-219 | Every 44 bytes memcpy'd over the struct are the encoding of the header they decode to, so no bytes are lost. |
| WavFormat.FirstFailure | main/src/main.cpp:128-167 | The check whose warning is logged fails, and every check the source tests before it passes. None is returned exactly when all nine checks pass. |
| WavFormat.ValidateWavData | main/src/main.cpp:128-167 | True iff the id is "RIFF", the format is "WAVE", the section id starts with "fmt", the descriptor is "data", FormatID is 1, FormatSize is 16, there are 1 or 2 channels, the rate is at most 48000, and the depth is 8 or 16 bits. |
| WavFile.File.Remaining | main/src/main.cpp:269 | The bytes still to be read are exactly the file from the cursor on. |
| WavFile.File.Open | main/src/main.cpp:208 | A freshly opened file is at position 0 and no reads have been made yet. |
| WavFile.File.Read | main/src/main.cpp:216 | fread returns the next min(n, remaining) bytes of the file, advances the cursor by that count and logs the read. |
| WavFile.File.ReadInto | main/src/main.cpp:269 | fread into a buffer returns min(n, remaining). The buffer's prefix of that length holds the next file bytes, and the rest of the buffer is unchanged. |
| Loader.ScanPass | main/src/main.cpp:222-227 | One skip pass: it fails exactly when the body plus the next 8-byte descriptor run past end of file. Otherwise the cursor moves by size + 8, and the new descriptor is the 8 bytes just before it. |
| Loader.ScanFrom | main/src/main.cpp:222-227 | The scan stops at a "data" descriptor, at or after its start, inside the file. A "data" descriptor stops it at once, so it never reports "not found" from one. Otherwise the body was skipped and the descriptor found is the 8 bytes before the cursor. |
| Loader.ParseWav | main/src/main.cpp:201-238 | Truncated exactly when the file is shorter than 44 bytes. On success the header validates, equals the first 44 bytes except for the located "data" descriptor, and that descriptor immediately precedes a payload start in [44, size]. A validation failure is never the "data" check. |
| Loader.LoadWavHeader | main/src/main.cpp:201-238 | The loop reads the header and skips chunks until a "data" descriptor or end of file. It returns the outcome of ParseWav, with the file left at the first payload byte on success. |
| Loader.SkipChunk | main/src/main.cpp:222-226 | One pass of the scan loop makes two freads: the body, then the next descriptor. The cursor ends at min(start + size + 8, end of file). It lands where ScanPass says, with that descriptor, and reports a short descriptor read exactly when ScanPass finds the file too short. |
| Loader.SkipUnknownChunks | main/src/main.cpp:215-237 | Take any file whose header descriptor starts a run of any number of non-"data" chunks, each with a body of any length, ending at a "data" descriptor. It loads to its header with that "data" descriptor, or fails on the first check that header fails. The payload then starts after the whole run, at 44 plus the sum of body + 8 over the skipped chunks. |
| Loader.ScanSkips | main/src/main.cpp:222-227 | From the descriptor in front of any run of non-"data" chunks, the scan skips each by its declared size and stops at the "data" descriptor after the last, at the position just after it. |
| Loader.Walk | main/src/main.cpp:222-227 | The scan's position after any number of passes stays between its start and end of file. |
| Loader.WalkToData | main/src/main.cpp:222-227 | Whatever "data" descriptor some number of passes reaches, the scan returns that descriptor and position. |
| Loader.StuckMeansNotFound | main/src/main.cpp:222-227 | If some pass along the scan runs out of file, the scan finds no "data" descriptor. |
| Loader.ScanNotFound | main/src/main.cpp:222-227 | The scan finds no "data" descriptor if and only if some pass along it runs out of file. |
| Loader.Overlay | main/src/main.cpp:224-225 | A partial fread overwrites the first bytes of the buffer; a full read replaces it; an empty read leaves it unchanged. |
| Loader.AsWrittenPass | main/src/main.cpp:222-227 | One pass of the loop as written: the cursor never moves backward or past end of file, and the stack buffer's first 8 bytes remain 8 bytes. |
| Loader.AsWrittenAgreesWithScanPass | main/src/main.cpp:222-227 | Where the file holds the whole skipped body and next descriptor, the pass as written and ScanPass reach the same cursor and descriptor. |
| Loader.AsWrittenPassSpinsAtEof | main/src/main.cpp:222-227 | At end of file a pass as written leaves cursor, descriptor and buffer unchanged. |
| Loader.HeaderOnlyFileSpins | main/src/main.cpp:222-227 | For a 44-byte file with no "data" id, the loop as written reaches a non-"data" fixed point after one pass, so it never exits. |
| Loader.HeaderOnlyFileNotFound | main/src/main.cpp:222-227 | For the same file, a scan with an end-of-file exit reports DataChunkNotFound. |
| Loader.PartialDescriptorExits | main/src/main.cpp:222-227 | A 44-byte header whose descriptor is not "data" and has size 0, followed only by the 4 bytes "data": the loop as written exits with id "data" and a stale chunk_size equal to the RIFF Size field. On the same file, the scan with an end-of-file exit reports DataChunkNotFound. |
| Loader.FullBodyReadExits | main/src/main.cpp:222-227 | A 44-byte header whose descriptor is not "data" and has size 4, followed only by the 4 bytes "data": the complete body read puts "data" at the start of the buffer, so the loop as written exits at end of file with a stale chunk_size equal to the RIFF Size field. On the same file, the scan with an end-of-file exit reports DataChunkNotFound. |
| Loader.PartialBodyReadExits | main/src/main.cpp:222-227 | A 44-byte header whose descriptor is not "data" and has size 10, followed by only 6 bytes that begin with "data": the body read gets 6 of its 10 bytes and puts "data" at the start of the buffer. The loop as written then exits at end of file, with a chunk_size made of the last two bytes read and the high half of the RIFF Size field. On the same file, the scan with an end-of-file exit reports DataChunkNotFound. |
| Player.Sink.constructor | main/src/main.cpp:107 | A new I2S sink has the given rate and no writes. |
| Player.Sink.SetSampleRate | main/src/main.cpp:257 | i2s_set_sample_rates changes the rate and nothing that was written. |
| Player.Sink.Write | main/src/main.cpp:273 | i2s_write appends the first n bytes of the buffer to the sink's writes and keeps the rate. |
| Player.Clear | main/src/main.cpp:268 | memset leaves the whole buffer zero. |
| Player.InitSilence | main/src/main.cpp:113-114 | SILENCE is a fresh buffer of 8096 zero bytes. |
| Player.Variant | main/src/main.cpp:260 | The knobs of the nine functions are all valid. Capacity is 1024 for 1–3 and 8096 from 4 on; 1–4 and 9 write the whole buffer; only 6–8 discard a first read. |
| Player.Streamed | main/src/main.cpp:510 | The bytes the loop sees (there and at lines 558 and 605) are a suffix of the payload. They are shorter by exactly min(capacity, payload) when a first read is discarded, and are the whole payload otherwise. |
| Player.LoopReads | main/src/main.cpp:267-278 | The loop makes at least one read, and the last read is below the capacity (that short read ends it). |
| Player.FinalRead | main/src/main.cpp:514-521 | The value of nr_bytes_read when the loop stops is below the capacity. |
| Player.DataWrites | main/src/main.cpp:267-278 | The loop writes nothing exactly when it is given no bytes. |
| Player.DataWritesBounded | main/src/main.cpp:269-273 | No loop write is empty and none is longer than the buffer. |
| Player.LoopReadsBounded | main/src/main.cpp:269 | No loop read returns more than the buffer holds. |
| Player.PaddingWrites | main/src/main.cpp:282-283 | At most two trailing writes (as at lines 384, 527, 575-576, 622-623 and 668-669), all zero bytes. Each is either a full SILENCE_SIZE block or tops the final read up to SILENCE_SIZE. |
| Player.Reads | main/src/main.cpp:269 | A play, counting the discarded read at line 510, makes at least one read, none longer than the buffer, and the last one is short. |
| Player.Output | main/src/main.cpp:267-283 | No write to the sink is empty. Each is at most one buffer or at most one SILENCE block. |
| Player.Block | main/src/main.cpp:267-273 | One loop write starts with the bytes read. It is a whole buffer when the whole buffer is written, and just the bytes read otherwise. |
| Player.TransferBlock | main/src/main.cpp:267-273 | One loop pass clears the buffer and reads min(capacity, remaining) bytes, advancing the file by that many. It writes one Block of them unless the read was empty, and keeps the sample rate. |
| Player.FillBytes | main/src/main.cpp:268-273 | The zeros memset leaves after the last short read are fewer than one buffer. |
| Player.WriteSilence | main/src/main.cpp:527-528 | The trailing i2s_write calls from SILENCE append exactly PaddingWrites(policy, nr_bytes_read). |
| Player.StreamLoop | main/src/main.cpp:512-523 | The while (true) loop reads the file to end of file. Its reads are LoopReads of the remaining bytes, its writes are DataWrites of them, and it returns their FinalRead. |
| Player.Stream | main/src/main.cpp:508-528 | Everything after the rate is set reads Reads(cfg, payload), appends Output(cfg, payload) to the sink, and leaves the file at its end. |
| Player.PlayWavFile | main/src/main.cpp:250-288 | A load failure leaves the sink untouched and returns the error. Otherwise the sink runs at the header's sample rate and receives Output of the bytes from the payload start to end of file. |
| Player.PlayWavFile1 | main/src/main.cpp:250-288 | Played with capacity 1024, whole-buffer writes and two full SILENCE writes. |
| Player.PlayWavFile2 | main/src/main.cpp:301-339 | Played with capacity 1024, whole-buffer writes and no trailing silence. |
| Player.PlayWavFile3 | main/src/main.cpp:351-389 | Played with capacity 1024, whole-buffer writes and one full SILENCE write. |
| Player.PlayWavFile4 | main/src/main.cpp:395-433 | Played with capacity 8096, whole-buffer writes and no trailing silence. |
| Player.PlayWavFile5 | main/src/main.cpp:444-482 | Played with capacity 8096, writes of the bytes read and no trailing silence. |
| Player.PlayWavFile6 | main/src/main.cpp:494-533 | Played with capacity 8096, a discarded first read, writes of the bytes read, and SILENCE_SIZE - nr_bytes_read of silence. |
| Player.PlayWavFile7 | main/src/main.cpp:542-581 | Like 6, followed by one more full SILENCE write. |
| Player.PlayWavFile8 | main/src/main.cpp:589-628 | Played with capacity 8096, a discarded first read, writes of the bytes read and two full SILENCE writes. |
| Player.PlayWavFile9 | main/src/main.cpp:636-674 | Played with capacity 8096, whole-buffer writes and two full SILENCE writes. |
| Player.LoopReadsShape | main/src/main.cpp:267-278 | Every read but the last fills the buffer. The last is the final short or empty read, and together the reads account for every payload byte. |
| Player.FinalReadIsRemainder | main/src/main.cpp:514-521 | nr_bytes_read after the loop is the payload length modulo the capacity. |
| Player.BytesReadWrites | main/src/main.cpp:461-472 | Writing the bytes read: the writes concatenate to exactly the payload. Each write is as long as its read, none is empty, all but the last are full, and only an empty final read goes unwritten. |
| Player.FullBufferWrites | main/src/main.cpp:267-278 | Writing the whole buffer: every write is one full buffer. Together they are the payload followed by the zeros the memset left after the last short read. |
| Player.FullBufferWriteCount | main/src/main.cpp:653-664 | Writing the whole buffer makes ceil(payload / capacity) writes. |
| Player.VariantTrailingSilence | main/src/main.cpp:282-283 | The trailing silence in bytes for each of the nine functions. It is 0 for 2, 4 and 5; one block for 3; two blocks for 1, 8 and 9; SILENCE_SIZE - nr_bytes_read for 6; and that plus one block for 7. |
| Player.PaddingIsSilence | main/src/main.cpp:84-85 | Every trailing write is zero bytes, PaddingBytes of them in all. |
| Player.OutputBytes | main/src/main.cpp:267-283 | What the sink receives after the header is the streamed bytes, zero-filled to a whole buffer when the whole buffer is written, followed by the trailing silence. |
| Player.ComplementFillsBlocks | main/src/main.cpp:527 | With a complement padding and an 8096-byte buffer, audio plus silence is a positive multiple of SILENCE_SIZE. |
| Player.EmptyPayload | main/src/main.cpp:269-272 | An empty payload gives one empty loop read (after the discarded one, where there is one), no audio writes, and only the trailing silence for a final read of 0. |
| Player.DiscardedFirstRead | main/src/main.cpp:510 | play_wav_file6 on an 8000-byte payload reads 8000 bytes then 0, and sends the sink nothing but one block of silence. |
| Player.DiscardLosesFirstBlock | main/src/main.cpp:558 | play_wav_file6 to 8 send the sink only the bytes after the first min(8096, payload) bytes, followed by their silence. |
| Player.CorrectedPlaysWholePayload | main/src/main.cpp:512-527 | Without the discarded read, every payload byte reaches the sink, topped up with zeros to the next SILENCE_SIZE boundary. An 8000-byte payload is one read, one 8000-byte write and 96 bytes of silence. |
| Player.Variant5WritesPayload | main/src/main.cpp:461-472 | play_wav_file5 sends the sink exactly the bytes from the payload start to end of file. |

## Left out

- **Setup and platform calls.** `init_sound` is modelled only where the player depends on it: SILENCE is allocated and zeroed (`InitSilence`). Left out are the SPIFFS registration, I2S driver installation, pin configuration and the `app_main` loop with its task delays. Logging (`log_wav_header`, `ESP_LOG*`), timers, heap queries and the listening notes in the comments are left out too; none of them affects the bytes played.
- **File access.** The file name and `fopen` are left out: the contents are a parameter, and a failed open is not modelled. Also left out are `fclose` and `free`.
- **Failed or partial I2S calls.** `i2s_write` and `i2s_set_sample_rates` are assumed to succeed and accept every byte. Blocking, DMA timing and the `nr_bytes_written` out-parameter are not modelled; the source uses that parameter only in a log line.
- **Aborts.** `ESP_ERROR_CHECK` on a failed `load_wav_header` aborts the firmware. The model returns the error instead, and the sink is untouched.
- **Short header read.** A file shorter than 44 bytes is reported as `Truncated`. The source copies indeterminate stack bytes into the header and goes on.
- **Out-of-bounds skip.** The skip at line 224 reads up to `chunk_size` bytes into the 44-byte stack buffer, which overflows it for any chunk larger than 44 bytes. The model only advances the cursor; the memory corruption is not modelled.
- **Chunk padding.** Chunks with an odd size are not followed by the RIFF pad byte. This matches the source, which does not skip one either.
- **`data` chunk size.** The payload runs from the read position to end of file, as in the source. The `data` chunk size is never used to bound it.
- **Read errors.** A read error is not told apart from end of file; `fread` here returns the number of bytes available.
- **Partial reads in the scan.** A partial `fread` of a skipped body or of a chunk descriptor is modelled, in `AsWrittenPass`, as storing the bytes it obtained over the start of the buffer. C leaves the contents of a partly read item indeterminate.
- Loader.LoadWavHeader: stops with `DataChunkNotFound` when the file ends before the skipped body and the next whole descriptor are in it. The source loop does not exit in that case unless the bytes its last reads leave at the start of the buffer begin with "data". That happens after a complete read of a short final body (`Loader.FullBodyReadExits`), a partial read of a final body that begins with "data" (`Loader.PartialBodyReadExits`), or a partial descriptor read (`Loader.PartialDescriptorExits`); the loop then returns a header with a stale chunk_size. Otherwise it spins (see Findings). The as-written behaviour is modelled by `Loader.AsWrittenPass`.
- Loader.ParseWav: has the same end-of-file exit as `Loader.LoadWavHeader`.
- **Error kinds.** The source reports all failures as `ESP_FAIL`. The model names the check that failed, as the logged warning does. The checks follow the code's order, and "fmt" is compared on three bytes only.

## Findings

| source | as written | input that shows it | evidently intended | confidence | as-written member | corrected member |
|---|---|---|---|---|---|---|
| main/src/main.cpp:222-227 | The loop exits only on a "data" id and ignores both fread results. At end of file the descriptor is copied again from the unchanged buffer, so when no read leaves "data" at the start of that buffer the loop spins forever. | A 44-byte file whose bytes 36-39 are "LIST" and whose bytes 0-3 are "RIFF" | Stop the scan at end of file and fail to load the header | high, not executed | Loader.HeaderOnlyFileSpins | Loader.HeaderOnlyFileNotFound |
| main/src/main.cpp:510 (also 558 and 605) | play_wav_file6, 7 and 8 make one fread before the loop and never write its bytes, so the first 8096 bytes of audio are dropped. | An 8000-byte payload played by play_wav_file6: the sink receives only 8096 zero bytes | Write every payload byte, then top up with silence to a block boundary | medium, not executed | Player.DiscardedFirstRead | Player.CorrectedPlaysWholePayload |
