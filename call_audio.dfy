/** The audio state of one MobileVideoChat: the playback queue feeding the
    avatar, its busy flag, the conversation log, and the handlers that
    change them. */
module CallAudio {
  import opened Pcm
  import opened Resample
  import opened Wav
  import opened Recording

  /** The AudioContext rate at which the microphone is captured. */
  const CAPTURE_RATE: int := 24000
  /** The rate of the audio the realtime API returns. */
  const ASSISTANT_RATE: int := 24000
  /** The rate the avatar is fed with. */
  const AVATAR_RATE: int := 16000
  /** The rate written into the header of the uploaded recording. */
  const RECORDING_RATE: int := 16000

  /** The item of a conversation.updated event, by type and role. */
  datatype ItemKind = AssistantMessage | UserMessage | OtherItem

  /** The delta of a conversation.updated event: with or without audio. */
  datatype Delta = NoAudio | WithAudio(audio: array<Int16>)

  /** The conversationMetrics fields handleEndCall fills in: turnsCount and
      the two speaking times, the latter as sample counts. */
  datatype ConversationMetrics = ConversationMetrics(turnsCount: nat, userSamples: nat, assistantSamples: nat)

  class CallSession {
    /** The playback queue of chunks waiting for the avatar. */
    var audioChunkQueue: seq<seq<Int16>>
    /** Whether a queue step is in progress. */
    var isProcessingChunk: bool
    /** The conversation log, in push order until it is sorted. */
    var conversationAudio: seq<Chunk>

    /** Every chunk handed to simliClient.sendAudioData, in order. */
    ghost var sentToAvatar: seq<seq<Int16>>

    /** Between events the busy flag is clear and the queue is empty: every
        chunk pushed is taken off again by the step that runs right after the
        push, so the queue never holds a chunk when an event arrives. */
    ghost predicate Valid()
      reads this
    {
      && !isProcessingChunk
      && audioChunkQueue == []
    }

    constructor ()
      ensures Valid()
      ensures conversationAudio == [] && sentToAvatar == []
    {
      audioChunkQueue := [];
      isProcessingChunk := false;
      conversationAudio := [];
      sentToAvatar := [];
    }

    /** processNextAudioChunk. On a non-empty queue with the flag clear it
        takes the head, sends it, and clears the flag again; `rearm` says
        whether it set the 50 ms timer for another step. Otherwise it does
        nothing. */
    method ProcessNextAudioChunk() returns (rearm: bool)
      modifies this
      ensures old(Valid()) ==> Valid()
      ensures conversationAudio == old(conversationAudio)
      ensures old(|audioChunkQueue| > 0 && !isProcessingChunk) ==>
                && audioChunkQueue == old(audioChunkQueue[1..])
                && sentToAvatar == old(sentToAvatar) + [old(audioChunkQueue[0])]
                && !isProcessingChunk
                && rearm == (audioChunkQueue != [])
      ensures !old(|audioChunkQueue| > 0 && !isProcessingChunk) ==>
                && audioChunkQueue == old(audioChunkQueue)
                && sentToAvatar == old(sentToAvatar)
                && isProcessingChunk == old(isProcessingChunk)
                && !rearm
    {
      rearm := false;
      if |audioChunkQueue| > 0 && !isProcessingChunk {
        isProcessingChunk := true;
        var audioChunk := audioChunkQueue[0];
        audioChunkQueue := audioChunkQueue[1..];
        sentToAvatar := sentToAvatar + [audioChunk];
        isProcessingChunk := false;
        rearm := |audioChunkQueue| > 0;
      }
    }

    /** handleConversationUpdate. An assistant message with audio is
        downsampled from 24000 Hz to 16000 Hz, logged with its timestamp, and
        pushed onto the tail of the queue; the flag being clear, the step that
        runs at once sends it to the avatar, and with the queue now empty it
        arms no timer. Every other event leaves the audio state alone. */
    method HandleConversationUpdate(kind: ItemKind, delta: Delta, now: int) returns (rearm: bool)
      requires Valid()
      modifies this
      ensures Valid()
      ensures !rearm
      ensures kind == AssistantMessage && delta.WithAudio? ==>
                var chunk := Resampled(old(delta.audio[..]), ASSISTANT_RATE, AVATAR_RATE);
                && conversationAudio == old(conversationAudio) + [Chunk(chunk, now, Assistant)]
                && sentToAvatar == old(sentToAvatar) + [chunk]
      ensures !(kind == AssistantMessage && delta.WithAudio?) ==>
                && conversationAudio == old(conversationAudio)
                && sentToAvatar == old(sentToAvatar)
    {
      rearm := false;
      if kind == AssistantMessage {
        if delta.WithAudio? {
          var downsampledAudio := DownsampleAudio(delta.audio, ASSISTANT_RATE, AVATAR_RATE);
          var chunk := downsampledAudio[..];
          conversationAudio := conversationAudio + [Chunk(chunk, now, Assistant)];
          audioChunkQueue := audioChunkQueue + [chunk];
          if !isProcessingChunk {
            rearm := ProcessNextAudioChunk();
          }
        }
      }
    }

    /** onaudioprocess, after the float-to-Int16 conversion: the captured
        chunk is logged as it is, at the 24000 Hz capture rate, and never
        queued for the avatar. */
    method HandleUserAudio(audioData: array<Int16>, now: int)
      modifies this
      ensures conversationAudio == old(conversationAudio) + [Chunk(audioData[..], now, User)]
      ensures audioChunkQueue == old(audioChunkQueue) && isProcessingChunk == old(isProcessingChunk)
      ensures sentToAvatar == old(sentToAvatar)
    {
      conversationAudio := conversationAudio + [Chunk(audioData[..], now, User)];
    }

    /** HandleUserAudio as evidently intended: the chunk is converted to the
        16000 Hz the recording is labelled with before it is logged. */
    method HandleUserAudioFixed(audioData: array<Int16>, now: int)
      modifies this
      ensures conversationAudio == old(conversationAudio)
                + [Chunk(Resampled(old(audioData[..]), CAPTURE_RATE, RECORDING_RATE), now, User)]
      ensures audioChunkQueue == old(audioChunkQueue) && isProcessingChunk == old(isProcessingChunk)
      ensures sentToAvatar == old(sentToAvatar)
    {
      var resampled := DownsampleAudio(audioData, CAPTURE_RATE, RECORDING_RATE);
      conversationAudio := conversationAudio + [Chunk(resampled[..], now, User)];
    }

    /** handleStop: the queue is emptied, the flag cleared and the
        conversation log emptied. */
    method HandleStop()
      modifies this
      ensures Valid()
      ensures audioChunkQueue == [] && conversationAudio == []
      ensures sentToAvatar == old(sentToAvatar)
    {
      audioChunkQueue := [];
      isProcessingChunk := false;
      conversationAudio := [];
    }

    /** calculateSpeakingTime, as a sample count. */
    function CalculateSpeakingTime(speaker: Speaker): (samples: nat)
      reads this
      ensures samples <= TotalLength(conversationAudio)
    {
      SpeakerSamplesBounded(conversationAudio, speaker);
      SpeakerSamples(conversationAudio, speaker)
    }

    /** sendAggregatedAudio up to the upload: the log is sorted in place by
        timestamp, merged, and encoded as a WAV file labelled 16000 Hz. */
    method SendAggregatedAudio() returns (wav: array<Byte>)
      modifies this
      ensures fresh(wav)
      ensures conversationAudio == SortByTimestamp(old(conversationAudio))
      ensures wav[..] == WavBytes(Concat(SortByTimestamp(old(conversationAudio))), RECORDING_RATE)
      ensures audioChunkQueue == old(audioChunkQueue) && isProcessingChunk == old(isProcessingChunk)
      ensures sentToAvatar == old(sentToAvatar)
    {
      conversationAudio := SortByTimestamp(conversationAudio);
      var sortedAudio := conversationAudio;
      var merged, _ := MergeChunks(sortedAudio);
      wav := EncodeWav(merged, RECORDING_RATE);
    }

    /** handleEndCall as written: handleStop runs first and empties the log,
        so the merge, the upload and the metrics all see an empty log. */
    method HandleEndCall() returns (wav: array<Byte>, metrics: ConversationMetrics)
      modifies this
      ensures Valid()
      ensures audioChunkQueue == [] && conversationAudio == []
      ensures sentToAvatar == old(sentToAvatar)
      ensures wav[..] == WavBytes([], RECORDING_RATE)
      ensures metrics == ConversationMetrics(0, 0, 0)
    {
      HandleStop();
      wav := SendAggregatedAudio();
      metrics := ConversationMetrics(|conversationAudio|,
                                     CalculateSpeakingTime(User),
                                     CalculateSpeakingTime(Assistant));
    }

    /** handleEndCall as evidently intended: the log is merged and counted
        before handleStop empties it. */
    method HandleEndCallFixed() returns (wav: array<Byte>, metrics: ConversationMetrics)
      modifies this
      ensures Valid()
      ensures audioChunkQueue == [] && conversationAudio == []
      ensures sentToAvatar == old(sentToAvatar)
      ensures wav[..] == WavBytes(Concat(SortByTimestamp(old(conversationAudio))), RECORDING_RATE)
      ensures metrics == ConversationMetrics(|old(conversationAudio)|,
                                             SpeakerSamples(old(conversationAudio), User),
                                             SpeakerSamples(old(conversationAudio), Assistant))
    {
      ghost var log := conversationAudio;
      wav := SendAggregatedAudio();
      SortIsPermutation(log);
      SortKeepsTotals(log, User);
      SortKeepsTotals(log, Assistant);
      metrics := ConversationMetrics(|conversationAudio|,
                                     CalculateSpeakingTime(User),
                                     CalculateSpeakingTime(Assistant));
      HandleStop();
    }
  }

  // ------------------------------------------------------------ end of call

  /** The file handleEndCall would upload for a given log. */
  function RecordingFor(log: seq<Chunk>): seq<Byte>
  {
    WavBytes(Concat(SortByTimestamp(log)), RECORDING_RATE)
  }

  /** As written, the upload is a bare 44-byte header announcing no samples,
      and it differs from the recording of any log that holds audio. */
  lemma EndCallUploadsNothing(log: seq<Chunk>)
    ensures |WavBytes([], RECORDING_RATE)| == 44
    ensures ParseWav(WavBytes([], RECORDING_RATE)) == Parsed(WavFile(16000, []))
    ensures TotalLength(log) > 0 ==> WavBytes([], RECORDING_RATE) != RecordingFor(log)
  {
    EncodeThenParse([], RECORDING_RATE);
    SortKeepsTotals(log, User);
  }

  /** With the corrected order the upload holds every logged sample, in
      timestamp order, and the per-speaker totals account for all of them. */
  lemma FixedEndCallKeepsEverySample(log: seq<Chunk>)
    ensures ParseWav(RecordingFor(log)) == Parsed(WavFile(16000, Concat(SortByTimestamp(log))))
    ensures |Concat(SortByTimestamp(log))|
         == SpeakerSamples(log, User) + SpeakerSamples(log, Assistant)
  {
    SortKeepsTotals(log, User);
    SpeakerTotalsSum(log);
    EncodeThenParse(Concat(SortByTimestamp(log)), RECORDING_RATE);
  }

  // ------------------------------------------------------ user sample rate

  /** The recording of a log holding one chunk is that chunk at 16000 Hz. */
  lemma SingleChunkRecording(c: Chunk)
    ensures ParseWav(RecordingFor([c])) == Parsed(WavFile(16000, c.audio))
  {
    var log := [c];
    assert SortByTimestamp(log) == log;
    assert Concat(log) == c.audio by {
      assert Concat(log[1..]) == [];
    }
    EncodeThenParse(c.audio, RECORDING_RATE);
  }

  /** As written, a user chunk captured at 24000 Hz is uploaded unchanged
      in a file labelled 16000 Hz. Played at the labelled rate it lasts
      |samples| / sampleRate seconds against |s| / 24000 captured: three
      halves as long. */
  lemma UserAudioStretched(s: seq<Int16>, now: int)
    ensures ParseWav(RecordingFor([Chunk(s, now, User)])) == Parsed(WavFile(16000, s))
    ensures var f := ParseWav(RecordingFor([Chunk(s, now, User)])).file;
            2 * (|f.samples| * CAPTURE_RATE) == 3 * (|s| * f.sampleRate)
  {
    SingleChunkRecording(Chunk(s, now, User));
  }

  /** With the fix, the uploaded chunk played at the labelled rate lasts the
      captured duration to within half a sample period of that rate:
      |samples| / sampleRate differs from |audio| / 24000 by less than
      1 / (2 * sampleRate). */
  lemma FixedUserAudioKeepsDuration(audio: seq<Int16>, now: int)
    ensures var s := Resampled(audio, CAPTURE_RATE, RECORDING_RATE);
            ParseWav(RecordingFor([Chunk(s, now, User)])) == Parsed(WavFile(16000, s))
    ensures var f := ParseWav(RecordingFor([Chunk(Resampled(audio, CAPTURE_RATE, RECORDING_RATE), now, User)])).file;
            -CAPTURE_RATE <= 2 * (|f.samples| * CAPTURE_RATE) - 2 * (|audio| * f.sampleRate) < CAPTURE_RATE
  {
    var s := Resampled(audio, CAPTURE_RATE, RECORDING_RATE);
    RoundedLengthIsNearest(|audio|, CAPTURE_RATE, RECORDING_RATE);
    AssistantConversion(audio);
    SingleChunkRecording(Chunk(s, now, User));
  }
}
