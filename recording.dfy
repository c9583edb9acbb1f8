/** The conversation recording: the log of timestamped chunks, its stable
    sort by timestamp, the merge into one sample buffer, and the per-speaker
    sample totals. */
module Recording {
  import opened Pcm

  datatype Speaker = User | Assistant

  /** One entry of the conversation log: the audio, the Date.now() value at
      which it was logged, and who spoke it. */
  datatype Chunk = Chunk(audio: seq<Int16>, timestamp: int, speaker: Speaker)

  // ------------------------------------------------------------------ sums

  /** The summed sample counts of all chunks of the log: no chunk is longer
      than the total. */
  function TotalLength(log: seq<Chunk>): (n: nat)
    ensures forall i :: 0 <= i < |log| ==> |log[i].audio| <= n
  {
    if log == [] then 0 else |log[0].audio| + TotalLength(log[1..])
  }

  /** calculateSpeakingTime without the division by 16000: the summed sample
      counts of one speaker's chunks. */
  function SpeakerSamples(log: seq<Chunk>, speaker: Speaker): (r: nat)
    ensures forall i :: 0 <= i < |log| && log[i].speaker == speaker ==> |log[i].audio| <= r
    ensures (forall i :: 0 <= i < |log| ==> log[i].speaker != speaker) ==> r == 0
  {
    if log == [] then 0
    else (if log[0].speaker == speaker then |log[0].audio| else 0) + SpeakerSamples(log[1..], speaker)
  }

  /** The two speakers' totals add up to the total sample count. */
  lemma {:induction false} SpeakerTotalsSum(log: seq<Chunk>)
    ensures SpeakerSamples(log, User) + SpeakerSamples(log, Assistant) == TotalLength(log)
  {
    if log != [] {
      SpeakerTotalsSum(log[1..]);
    }
  }

  /** One speaker never accounts for more samples than the whole log. */
  lemma SpeakerSamplesBounded(log: seq<Chunk>, speaker: Speaker)
    ensures SpeakerSamples(log, speaker) <= TotalLength(log)
  {
    SpeakerTotalsSum(log);
  }

  lemma {:induction false} TotalLengthAppend(a: seq<Chunk>, b: seq<Chunk>)
    ensures TotalLength(a + b) == TotalLength(a) + TotalLength(b)
  {
    if a != [] {
      TotalLengthAppend(a[1..], b);
      assert (a + b)[1..] == a[1..] + b;
    } else {
      assert a + b == b;
    }
  }

  // ------------------------------------------------------------------ sort

  ghost predicate SortedByTimestamp(s: seq<Chunk>)
  {
    forall i, j :: 0 <= i < j < |s| ==> s[i].timestamp <= s[j].timestamp
  }

  /** The chunks logged at timestamp t, in log order. */
  function AtTimestamp(s: seq<Chunk>, t: int): seq<Chunk>
  {
    if s == [] then []
    else (if s[0].timestamp == t then [s[0]] else []) + AtTimestamp(s[1..], t)
  }

  /** c placed ahead of the first chunk that is not older than it. */
  function InsertByTimestamp(c: Chunk, s: seq<Chunk>): (r: seq<Chunk>)
    ensures |r| == |s| + 1
  {
    if s == [] || c.timestamp <= s[0].timestamp then [c] + s
    else [s[0]] + InsertByTimestamp(c, s[1..])
  }

  /** The log sorted by ascending timestamp with a comparator that
      subtracts timestamps. Array.prototype.sort is stable, so this is the
      only order it can produce: an insertion sort that puts each chunk ahead
      of the later chunks with the same timestamp. */
  function SortByTimestamp(s: seq<Chunk>): (r: seq<Chunk>)
    ensures |r| == |s|
  {
    if s == [] then [] else InsertByTimestamp(s[0], SortByTimestamp(s[1..]))
  }

  lemma {:induction false} InsertElements(c: Chunk, s: seq<Chunk>)
    ensures multiset(InsertByTimestamp(c, s)) == multiset(s) + multiset{c}
    ensures |InsertByTimestamp(c, s)| == |s| + 1
  {
    if s != [] && c.timestamp > s[0].timestamp {
      InsertElements(c, s[1..]);
      assert s == [s[0]] + s[1..];
    }
  }

  lemma {:induction false} InsertMembers(c: Chunk, s: seq<Chunk>)
    ensures forall x :: x in InsertByTimestamp(c, s) <==> x == c || x in s
  {
    if s != [] && c.timestamp > s[0].timestamp {
      InsertMembers(c, s[1..]);
      assert s == [s[0]] + s[1..];
    }
  }

  /** No chunk of a sorted log is older than its head. */
  lemma HeadIsOldest(s: seq<Chunk>, x: Chunk)
    requires SortedByTimestamp(s) && s != [] && x in s
    ensures s[0].timestamp <= x.timestamp
  {
    var k :| 0 <= k < |s| && s[k] == x;
    if k > 0 {
      assert s[0].timestamp <= s[k].timestamp;
    }
  }

  lemma {:induction false} InsertKeepsSorted(c: Chunk, s: seq<Chunk>)
    requires SortedByTimestamp(s)
    ensures SortedByTimestamp(InsertByTimestamp(c, s))
  {
    if s != [] && c.timestamp > s[0].timestamp {
      var tail := s[1..];
      assert SortedByTimestamp(tail) by {
        forall i, j | 0 <= i < j < |tail|
          ensures tail[i].timestamp <= tail[j].timestamp
        {
          assert tail[i] == s[i + 1] && tail[j] == s[j + 1];
        }
      }
      InsertKeepsSorted(c, tail);
      InsertMembers(c, tail);
      var r := InsertByTimestamp(c, tail);
      var t := [s[0]] + r;
      forall i, j | 0 <= i < j < |t|
        ensures t[i].timestamp <= t[j].timestamp
      {
        if i == 0 {
          var x := t[j];
          assert x in r;
          if x != c {
            assert x in s;
            HeadIsOldest(s, x);
          }
        } else {
          assert t[i] == r[i - 1] && t[j] == r[j - 1];
        }
      }
      assert InsertByTimestamp(c, s) == t;
    }
  }

  /** The sort returns the log in non-decreasing timestamp order. */
  lemma {:induction false} SortIsSorted(s: seq<Chunk>)
    ensures SortedByTimestamp(SortByTimestamp(s))
  {
    if s != [] {
      SortIsSorted(s[1..]);
      InsertKeepsSorted(s[0], SortByTimestamp(s[1..]));
    }
  }

  /** The sort only rearranges the log. */
  lemma {:induction false} SortIsPermutation(s: seq<Chunk>)
    ensures multiset(SortByTimestamp(s)) == multiset(s)
    ensures |SortByTimestamp(s)| == |s|
  {
    if s != [] {
      SortIsPermutation(s[1..]);
      SortIsSorted(s[1..]);
      InsertElements(s[0], SortByTimestamp(s[1..]));
      assert s == [s[0]] + s[1..];
    }
  }

  lemma {:induction false} InsertAtTimestamp(c: Chunk, s: seq<Chunk>, t: int)
    ensures AtTimestamp(InsertByTimestamp(c, s), t)
         == (if c.timestamp == t then [c] else []) + AtTimestamp(s, t)
  {
    var own := if c.timestamp == t then [c] else [];
    if s != [] && c.timestamp > s[0].timestamp {
      var r := InsertByTimestamp(c, s[1..]);
      var head := if s[0].timestamp == t then [s[0]] else [];
      InsertAtTimestamp(c, s[1..], t);
      assert ([s[0]] + r)[1..] == r;
      assert AtTimestamp([s[0]] + r, t) == head + AtTimestamp(r, t);
      assert AtTimestamp(s, t) == head + AtTimestamp(s[1..], t);
      // The head and c differ in timestamp, so at most one of them is kept.
      assert head == [] || own == [];
      assert head + (own + AtTimestamp(s[1..], t)) == own + (head + AtTimestamp(s[1..], t));
    } else {
      assert ([c] + s)[1..] == s;
    }
  }

  /** Stability: chunks with equal timestamps keep their log order. */
  lemma {:induction false} SortIsStable(s: seq<Chunk>, t: int)
    ensures AtTimestamp(SortByTimestamp(s), t) == AtTimestamp(s, t)
  {
    if s != [] {
      SortIsStable(s[1..], t);
      InsertAtTimestamp(s[0], SortByTimestamp(s[1..]), t);
    }
  }

  lemma {:induction false} InsertKeepsTotals(c: Chunk, s: seq<Chunk>, speaker: Speaker)
    ensures TotalLength(InsertByTimestamp(c, s)) == |c.audio| + TotalLength(s)
    ensures SpeakerSamples(InsertByTimestamp(c, s), speaker)
         == (if c.speaker == speaker then |c.audio| else 0) + SpeakerSamples(s, speaker)
  {
    if s != [] && c.timestamp > s[0].timestamp {
      InsertKeepsTotals(c, s[1..], speaker);
      var r := InsertByTimestamp(c, s[1..]);
      assert ([s[0]] + r)[1..] == r;
    } else {
      assert ([c] + s)[1..] == s;
    }
  }

  /** Sorting changes neither the total nor either speaker's total. */
  lemma {:induction false} SortKeepsTotals(s: seq<Chunk>, speaker: Speaker)
    ensures TotalLength(SortByTimestamp(s)) == TotalLength(s)
    ensures SpeakerSamples(SortByTimestamp(s), speaker) == SpeakerSamples(s, speaker)
  {
    if s != [] {
      SortKeepsTotals(s[1..], speaker);
      InsertKeepsTotals(s[0], SortByTimestamp(s[1..]), speaker);
    }
  }

  // ----------------------------------------------------------------- merge

  /** The samples of all chunks, one after another. */
  function Concat(cs: seq<Chunk>): (r: seq<Int16>)
    ensures |r| == TotalLength(cs)
  {
    if cs == [] then [] else cs[0].audio + Concat(cs[1..])
  }

  lemma {:induction false} ConcatAppend(a: seq<Chunk>, b: seq<Chunk>)
    ensures Concat(a + b) == Concat(a) + Concat(b)
  {
    if a != [] {
      ConcatAppend(a[1..], b);
      assert (a + b)[1..] == a[1..] + b;
    } else {
      assert a + b == b;
    }
  }

  /** Chunk k starts at the summed lengths of the chunks before it. */
  lemma ConcatLayout(cs: seq<Chunk>, k: nat, j: nat)
    requires k < |cs| && j < |cs[k].audio|
    ensures TotalLength(cs[..k]) + j < TotalLength(cs)
    ensures Concat(cs)[TotalLength(cs[..k]) + j] == cs[k].audio[j]
  {
    assert cs == cs[..k] + cs[k..];
    ConcatAppend(cs[..k], cs[k..]);
    assert Concat(cs[k..]) == cs[k].audio + Concat(cs[k + 1..]);
  }

  /** Copies src into dst starting at offset, as a typed array's set does;
      the rest of dst is untouched. */
  method SetAt(dst: array<Int16>, src: seq<Int16>, offset: nat)
    requires offset + |src| <= dst.Length
    modifies dst
    ensures dst[..offset] == old(dst[..offset])
    ensures dst[offset..offset + |src|] == src
    ensures dst[offset + |src|..] == old(dst[offset + |src|..])
  {
    for i := 0 to |src|
      invariant forall j :: 0 <= j < dst.Length ==>
                  dst[j] == if offset <= j < offset + i then src[j - offset] else old(dst[j])
    {
      dst[offset + i] := src[i];
    }
  }

  /** One more chunk extends the merged prefix by that chunk's samples. */
  lemma MergeStep(sorted: seq<Chunk>, k: nat)
    requires k < |sorted|
    ensures TotalLength(sorted[..k + 1]) == TotalLength(sorted[..k]) + |sorted[k].audio|
    ensures TotalLength(sorted[..k + 1]) <= TotalLength(sorted)
    ensures Concat(sorted[..k + 1]) == Concat(sorted[..k]) + sorted[k].audio
  {
    var chunk := sorted[k];
    assert sorted == sorted[..k + 1] + sorted[k + 1..];
    assert sorted[..k + 1] == sorted[..k] + [chunk];
    TotalLengthAppend(sorted[..k + 1], sorted[k + 1..]);
    TotalLengthAppend(sorted[..k], [chunk]);
    ConcatAppend(sorted[..k], [chunk]);
    assert Concat([chunk]) == chunk.audio by {
      assert [chunk][1..] == [];
    }
  }

  /** The merge loop of sendAggregatedAudio: a buffer of the total length, and
      each chunk copied at the running offset. The final offset is the total
      length. */
  method MergeChunks(sorted: seq<Chunk>) returns (merged: array<Int16>, offset: nat)
    ensures fresh(merged)
    ensures merged[..] == Concat(sorted)
    ensures offset == merged.Length == TotalLength(sorted)
  {
    var totalLength := TotalLength(sorted);
    merged := new Int16[totalLength];
    offset := 0;
    for k := 0 to |sorted|
      invariant offset == TotalLength(sorted[..k]) <= merged.Length
      invariant merged[..offset] == Concat(sorted[..k])
    {
      var chunk := sorted[k];
      MergeStep(sorted, k);
      SetAt(merged, chunk.audio, offset);
      assert merged[..offset + |chunk.audio|] == merged[..offset] + merged[offset..offset + |chunk.audio|];
      offset := offset + |chunk.audio|;
    }
    assert sorted[..|sorted|] == sorted;
  }
}
