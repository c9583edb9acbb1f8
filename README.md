# Call audio pipeline of the mobile video chat

This project models the audio core of the `MobileVideoChat` component
(`components/mobile-videochat.tsx`). That core is the audio path of a call
with a talking avatar.

- Assistant audio arrives from the realtime API at 24000 Hz. It is decimated
  to 16000 Hz and logged with a timestamp. It is also put on a playback
  queue, and a step function sends the queue's head to the avatar.
- Microphone chunks are logged too. They never go onto the queue.
- `sendAggregatedAudio` sorts the log by timestamp, merges it into one
  sample buffer, and encodes that as a 16-bit mono PCM WAV file.
  `calculateSpeakingTime` sums one speaker's samples in the log.
- `handleEndCall` is meant to upload that recording and report those
  speaking times. As written, it empties the log first, so both see an empty
  log; see the first row under "## Findings".

The project has five modules:

- `Pcm`: the byte and Int16 types, and the little-endian layout that
  `DataView` writes.
- `Resample`: `downsampleAudio`, as a function and as the array method that
  fills the new buffer.
- `Wav`: `encodeWAV`, as a method that writes the header fields and the
  samples into a fresh byte array. It comes with a reference reader
  (`ParseWav`) and the round trips between the two.
- `Recording`: the conversation log entries and the stable sort by
  timestamp. It also holds the merge loop and the per-speaker sample totals.
- `CallAudio`: the component's audio state as a class. It holds the queue,
  the busy flag and the log, plus a ghost history of what was sent to the
  avatar. Its methods are the event handlers, `handleStop`,
  `sendAggregatedAudio` and `handleEndCall`.

Some rounding details of the model:

- `Math.round(len / ratio)` is computed exactly on integers as
  `floor((2·len·to + from) / (2·from))`.
- `Math.floor(i * ratio)` is computed as `(i·from) / to`.
- For the 24000 → 16000 conversion the component uses, these integer forms
  give the same results as the floating-point code.
  - The length: `len / 1.5` is usually inexact in floating point (for
    `len` = 1 it is 0.666…6). But `2·len/3` is always at least 1/6 away
    from a half-integer, so the rounding error never changes what
    `Math.round` returns.
  - The index: `i * 1.5` is an integer or a half-integer. It is exact in
    floating point for every array index, so `Math.floor` gives `3i/2`.

## Model

| member | source | states |
|---|---|---|
| Pcm.LeValueOfLeBytes | components/mobile-videochat.tsx:154-165 | reading back k little-endian bytes written from x gives x whenever x fits in k bytes |
| Pcm.LeBytesOfLeValue | components/mobile-videochat.tsx:154-165 | every byte string is the little-endian encoding of the number it denotes |
| Pcm.Le32Value | components/mobile-videochat.tsx:154 | setUint32 stores its value modulo 2^32 (ToUint32) |
| Pcm.Le16Value | components/mobile-videochat.tsx:158 | setUint16 stores its value modulo 2^16 |
| Pcm.Int16RoundTrip | components/mobile-videochat.tsx:169 | the two bytes setInt16 writes for a sample read back as that same signed sample |
| Pcm.Int16BytesRoundTrip | components/mobile-videochat.tsx:169 | every two-byte string is the setInt16 encoding of the sample it reads as |
| Pcm.Uint32BytesRoundTrip | components/mobile-videochat.tsx:154 | every four-byte string is the setUint32 encoding of the value it reads as |
| Pcm.Uint16BytesRoundTrip | components/mobile-videochat.tsx:158 | every two-byte string is the setUint16 encoding of the value it reads as |
| Resample.RoundedLength | components/mobile-videochat.tsx:131 | the output length; with equal rates it is the input length |
| Resample.RoundedLengthIsNearest | components/mobile-videochat.tsx:131 | the output length r satisfies r <= len·to/from + 1/2 < r + 1, which is Math.round of len/ratio |
| Resample.SourceIndex | components/mobile-videochat.tsx:135 | the index read for output i is floor(i·from/to): q·to <= i·from < (q+1)·to |
| Resample.SourceIndexInBounds | components/mobile-videochat.tsx:134-137 | every index the loop reads, floor(i·from/to) for i below the output length, is below the input length |
| Resample.EqualRatesAgree | components/mobile-videochat.tsx:128 | with equal rates the general length and index formulas are the identity, so the early return agrees with the loop |
| Resample.Resampled | components/mobile-videochat.tsx:127-140 | the output has length round(len·to/from), and output sample i is input sample floor(i·from/to), an in-bounds index |
| Resample.Decimated | components/mobile-videochat.tsx:130-137 | the array the loop fills has the rounded length and holds input[floor(i·from/to)] at i |
| Resample.DownsampleAudio | components/mobile-videochat.tsx:127-140 | the returned array holds the resampled audio; with equal rates it is the very input array, otherwise a fresh one |
| Resample.AssistantConversion | components/mobile-videochat.tsx:201 | from 24000 Hz to 16000 Hz, the output has (2·len+1)/3 samples and sample i is input sample 3i/2 |
| Wav.WavHeader | components/mobile-videochat.tsx:153-165 | the header encodeWAV writes is 44 bytes long; its fields are given by HeaderLayout and HeaderFields |
| Wav.SampleBytes | components/mobile-videochat.tsx:168-170 | the sample body is two bytes per sample |
| Wav.WavBytes | components/mobile-videochat.tsx:143-170 | the buffer encodeWAV fills is 44 + 2n bytes long: the header, then the body |
| Wav.HeaderLayout | components/mobile-videochat.tsx:153-165 | the 44 header bytes are "RIFF", 36+2n, "WAVE", "fmt ", 16, 1, 1, rate, 2·rate, 2, 16, "data", 2n at offsets 0 to 40, little-endian |
| Wav.HeaderFields | components/mobile-videochat.tsx:153-165 | reading each header field back gives 36+2n, 16, 1, 1, the rate, 2·rate, 2, 16 and 2n, each modulo its field width |
| Wav.SampleBytesAt | components/mobile-videochat.tsx:168-170 | sample i of the body is the two-byte little-endian form of samples[i] at offset 2i |
| Wav.SampleAt | components/mobile-videochat.tsx:168-170 | bytes 44+2i and 45+2i of the file decode as a signed int16 to samples[i] |
| Wav.SampleSlice | components/mobile-videochat.tsx:169 | bytes 44+2i to 46+2i of the file are exactly the setInt16 encoding of samples[i] |
| Wav.DecodeSampleBytes | components/mobile-videochat.tsx:168-170 | decoding the encoded body gives back the samples |
| Wav.SampleBytesOfDecode | components/mobile-videochat.tsx:168-170 | re-encoding a decoded even-length body gives back its bytes |
| Wav.ParseOfHeader | components/mobile-videochat.tsx:153-165 | any 44+2n bytes starting with the header for n samples parse, with the rate modulo 2^32 |
| Wav.EncodeThenParse | components/mobile-videochat.tsx:142-173 | reading an encoded file gives back its sample rate (modulo 2^32) and exactly its samples, at any length, since the size fields are compared modulo 2^32 |
| Wav.ParseThenEncode | components/mobile-videochat.tsx:142-173 | any byte string the reader accepts is exactly what encodeWAV writes for the rate and samples read from it |
| Wav.WriteString | components/mobile-videochat.tsx:146-150 | writeString changes exactly bytes offset to offset+len, to the character codes modulo 256 |
| Wav.SetUint32 | components/mobile-videochat.tsx:154 | setUint32(_, v, true) changes exactly four bytes, to v modulo 2^32 little-endian |
| Wav.SetUint16 | components/mobile-videochat.tsx:158 | setUint16(_, v, true) changes exactly two bytes, to v modulo 2^16 little-endian |
| Wav.SetInt16 | components/mobile-videochat.tsx:169 | setInt16(_, v, true) changes exactly two bytes, to the two's-complement form of v |
| Wav.WriteRiffDescriptor | components/mobile-videochat.tsx:153-155 | bytes 0 to 11 become "RIFF", 36+2n and "WAVE", and nothing else changes |
| Wav.WriteFmtChunk | components/mobile-videochat.tsx:156-163 | bytes 12 to 35 become the fmt chunk for the rate, and nothing else changes |
| Wav.WriteDataHeader | components/mobile-videochat.tsx:164-165 | bytes 36 to 43 become "data" and 2n, and nothing else changes |
| Wav.WriteHeader | components/mobile-videochat.tsx:152-165 | the first 44 bytes become the header for n samples and the rate, and nothing else changes |
| Wav.EncodeWav | components/mobile-videochat.tsx:142-173 | a fresh buffer of 44 + 2n bytes holding exactly the header and the samples |
| Recording.TotalLength | components/mobile-videochat.tsx:291 | the summed chunk lengths; no chunk is longer than the total |
| Recording.SpeakerSamples | components/mobile-videochat.tsx:455-457 | one speaker's summed chunk lengths; at least every chunk of that speaker, and 0 when the speaker has no chunk |
| Recording.SpeakerTotalsSum | components/mobile-videochat.tsx:454-458 | the user and assistant sample totals add up to the total sample count of the log |
| Recording.SpeakerSamplesBounded | components/mobile-videochat.tsx:454-458 | one speaker's total never exceeds the total sample count |
| Recording.TotalLengthAppend | components/mobile-videochat.tsx:291 | the total length of two logs one after the other is the sum of their totals |
| Recording.SortByTimestamp | components/mobile-videochat.tsx:290 | the stable sort by timestamp keeps the log's length; its order is given by SortIsSorted, SortIsPermutation and SortIsStable |
| Recording.HeadIsOldest | components/mobile-videochat.tsx:290 | no chunk of a timestamp-sorted log is older than its head |
| Recording.InsertKeepsSorted | components/mobile-videochat.tsx:290 | inserting a chunk into a sorted log keeps it sorted |
| Recording.SortIsSorted | components/mobile-videochat.tsx:290 | the sorted log is in non-decreasing timestamp order |
| Recording.SortIsPermutation | components/mobile-videochat.tsx:290 | the sorted log holds the same chunks, with the same multiplicities, as the log |
| Recording.SortIsStable | components/mobile-videochat.tsx:290 | for every timestamp, the chunks carrying it appear in the sorted log in their log order |
| Recording.SortKeepsTotals | components/mobile-videochat.tsx:290-291 | sorting changes neither the total sample count nor either speaker's total |
| Recording.Concat | components/mobile-videochat.tsx:291-299 | the merged samples number the summed chunk lengths |
| Recording.ConcatAppend | components/mobile-videochat.tsx:294-299 | merging two logs one after the other gives the two merges one after the other |
| Recording.ConcatLayout | components/mobile-videochat.tsx:294-299 | sample j of chunk k sits at the summed lengths of the chunks before k, plus j |
| Recording.SetAt | components/mobile-videochat.tsx:297 | merged.set(src, offset) overwrites exactly the positions from offset to offset+len with src |
| Recording.MergeChunks | components/mobile-videochat.tsx:291-299 | a fresh buffer of the total length holding the chunks in order, each at its running offset; the final offset equals the total length |
| CallAudio.CallSession.constructor | components/mobile-videochat.tsx:105-113 | the queue and the log start empty, the busy flag clear, and nothing has been sent |
| CallAudio.CallSession.ProcessNextAudioChunk | components/mobile-videochat.tsx:176-192 | on a non-empty queue with the flag clear, exactly the head is removed and sent, the rest stay in order, the flag ends clear, and the timer is re-armed exactly when chunks remain; otherwise nothing changes |
| CallAudio.CallSession.HandleConversationUpdate | components/mobile-videochat.tsx:195-218 | an assistant delta with audio is resampled from 24000 to 16000 Hz, appended to the log, pushed onto the queue and sent to the avatar at once; the queue is empty again afterwards and no 50 ms timer is armed; any other event changes no audio state |
| CallAudio.CallSession.HandleUserAudio | components/mobile-videochat.tsx:258-262 | a microphone chunk is appended to the log as captured and never queued for the avatar |
| CallAudio.CallSession.HandleUserAudioFixed | components/mobile-videochat.tsx:258-262 | the corrected handler logs the chunk converted from 24000 to 16000 Hz, and still never queues it |
| CallAudio.CallSession.HandleStop | components/mobile-videochat.tsx:435-452 | from any state, the queue and the log are emptied and the busy flag cleared; what was sent before stays sent |
| CallAudio.CallSession.CalculateSpeakingTime | components/mobile-videochat.tsx:454-458 | one speaker's sample total never exceeds the total sample count of the log |
| CallAudio.CallSession.SendAggregatedAudio | components/mobile-videochat.tsx:288-301 | the log is reordered in place by the stable timestamp sort, and the result is the WAV file labelled 16000 Hz with the merged samples |
| CallAudio.CallSession.HandleEndCall | components/mobile-videochat.tsx:521-553 | as written, the upload is the WAV file of zero samples and the metrics are all zero, whatever the log held |
| CallAudio.CallSession.HandleEndCallFixed | components/mobile-videochat.tsx:521-553 | the corrected order uploads the sorted, merged log and reports its chunk count and per-speaker totals, then stops |
| CallAudio.EndCallUploadsNothing | components/mobile-videochat.tsx:529-531 | the as-written upload is 44 bytes and parses as 16000 Hz with no samples, so it differs from the recording of any log that holds audio |
| CallAudio.FixedEndCallKeepsEverySample | components/mobile-videochat.tsx:288-301 | the corrected upload parses to every logged sample in timestamp order, and the two speakers' totals account for all of them |
| CallAudio.SingleChunkRecording | components/mobile-videochat.tsx:301 | the recording of a one-chunk log parses as that chunk labelled 16000 Hz |
| CallAudio.UserAudioStretched | components/mobile-videochat.tsx:258-262 | as written, a user chunk is uploaded unchanged in a file labelled 16000 Hz; the file's samples over its rate, against the chunk's samples over 24000, are in ratio 3 : 2 |
| CallAudio.FixedUserAudioKeepsDuration | components/mobile-videochat.tsx:258-262 | with the fix, the uploaded file's samples over its rate differ from the captured samples over 24000 by less than half a sample period of the file's rate |

## Left out

- React state and rendering are not modelled. This covers loading, error and visibility flags, the draggable box, the video stream, camera checks and the user transcript shown for user messages (lines 215-216).
- The avatar and realtime SDKs are not modelled. `simliClient.sendAudioData` is modelled only as the ghost history `sentToAvatar`. `appendInputAudio`, `ClearBuffer`, `cancelResponse`, `close` and `disconnect` are left out: they are calls into code outside this file.
- `setTimeout` is not modelled as a scheduler. A step returns whether it armed the 50 ms timer (lines 188-190). In every reachable state the queue is empty between events, as `Valid()` states, so a step run by `HandleConversationUpdate` always empties the queue and never arms the timer. The pacing timer therefore never fires, assuming `sendAudioData` returns normally (next line).
- Microphone capture is left out. This covers the AudioContext, the ScriptProcessor, and the float-to-Int16 conversion at lines 249-255, which is floating point. The user handler takes the converted Int16 chunk.
- `Date.now()` is a parameter of the handlers. Call start and end times and the call duration are left out (lines 522-524).
- The Blob, FormData and both `fetch` calls are left out, along with the returned URL. `SendAggregatedAudio` returns the encoded bytes that form the Blob's content.
- `logError`, the connection listeners, and the `lib/db` and other component files are not part of this model.
- `Resample.DownsampleAudio`: rates must be positive. Non-integer rates, and the floating-point rounding of `ratio` for rate pairs other than equal rates or 24000/16000, are not modelled.
- `CallAudio.CallSession.CalculateSpeakingTime`: reports a sample count, not seconds. Line 457 divides each chunk's length by 16000 in floating point and sums the quotients, and that is left out. The metric seconds equal these counts divided by 16000 only up to the rounding of each per-chunk quotient and of the running sum (chunks of 1600 and 3200 samples give 0.30000000000000004, not 0.3).
- ArrayBuffer size limits are not modelled. Size fields of larger buffers wrap modulo 2^32 in `Le32`, exactly as `setUint32` does.
- Log entries and queued chunks are immutable sequences. The component shares one `Int16Array` between the log and the queue, but neither side ever writes to it, so the aliasing has no effect and is not modelled.
- `Array.prototype.sort` is modelled by a stable insertion sort on the log, which is assigned back to the log field. The engine's algorithm is not visible, but stability fixes its result uniquely. Timestamps are integers, so the comparator `a.timestamp - b.timestamp` is exact.
- The model assumes `simliClient.sendAudioData` (line 183) returns normally. The busy flag is then set and cleared inside one synchronous step (lines 179-186), and between events it is always clear, as `Valid()` states. If `sendAudioData` threw, line 186 would never run and the flag would stay set. From then on every `processNextAudioChunk` would return at line 178, and `handleConversationUpdate` would skip line 212. Every later assistant chunk would pile up unsent in the queue until `handleStop` cleared it (lines 444-445). That state is not modelled.
- `CallAudio.CallSession.HandleEndCall`: runs `handleStop`, `sendAggregatedAudio` and the metrics read (lines 529-548) as one uninterrupted step. The source awaits the upload (lines 307 and 314) between emptying the log and reading it at lines 546-548, so other tasks may run in that gap. No handler is modelled there: the microphone processor is disconnected at line 277 and the realtime client at line 441, so no new event is delivered, but an `onaudioprocess` or `conversation.updated` task already queued before the stop could still push onto the emptied log. Such a task is not captured, and the zero metrics stated for the as-written order assume none runs.
- The `console.log` and `console.error` calls (lines 177, 181, 197-198, 202, 256, 289, 293, 296, 304 and 317) are left out: they only write diagnostics.

## Findings

| source | as written | input that shows it | evidently intended | confidence | as-written member | corrected member |
|---|---|---|---|---|---|---|
| components/mobile-videochat.tsx:529-531 | `handleEndCall` calls `handleStop` before `sendAggregatedAudio` and the metrics, and `handleStop` empties the conversation log (line 451) | any call whose log holds one chunk of one sample: the upload is a 44-byte WAV of 0 samples, and `turnsCount` and both speaking times are 0 | merge, upload and count the log first, then stop | high; not executed | CallAudio.CallSession.HandleEndCall, CallAudio.EndCallUploadsNothing | CallAudio.CallSession.HandleEndCallFixed, CallAudio.FixedEndCallKeepsEverySample |
| components/mobile-videochat.tsx:258-262 | microphone chunks captured at 24000 Hz (line 232) are logged without conversion, but the merged file is labelled 16000 Hz (line 301) | one user chunk of 2048 samples lasts 2048/24000 s when captured, but plays for 2048/16000 s, 3/2 as long | convert user chunks from 24000 to 16000 Hz before logging them, as is done for assistant audio | medium; not executed | CallAudio.CallSession.HandleUserAudio, CallAudio.UserAudioStretched | CallAudio.CallSession.HandleUserAudioFixed, CallAudio.FixedUserAudioKeepsDuration |
