/**
 Transcripts as the pipeline passes them between stages, and the default
 speaker labelling the orchestrator applies in place of diarization.

 Timestamps and scores are floats in the service; here they are integers
 (ticks), since nothing in this model computes with them.
 */
module Transcripts {
  import opened Errors

  /** The label every segment and word receives when diarization is skipped */
  const DEFAULT_SPEAKER: string := "SPEAKER_01"

  datatype Word = Word(
    word: string,
    start: Option<int>,
    end: Option<int>,
    score: Option<int>,
    speaker: Option<string>)

  /** A segment; `words` is `None` when the segment dict has no "words" key */
  datatype Segment = Segment(
    start: int,
    end: int,
    text: string,
    words: Option<seq<Word>>,
    speaker: Option<string>)

  /** An aligned transcript: its segments and the flat list of word entries */
  datatype Transcript = Transcript(segments: seq<Segment>, wordSegments: seq<Word>)

  /** The dict returned by the transcription stage; each of its two keys may
      be missing */
  datatype RawTranscript = RawTranscript(segments: Option<seq<Segment>>, language: Option<string>)

  predicate WordLabelled(w: Word) {
    w.speaker == Some(DEFAULT_SPEAKER)
  }

  /** The segment carries the default speaker, and so does each of its words */
  predicate SegmentLabelled(s: Segment) {
    && s.speaker == Some(DEFAULT_SPEAKER)
    && (s.words.Some? ==> forall w :: w in s.words.value ==> WordLabelled(w))
  }

  /** `w'` is `w` with at most its speaker changed */
  predicate WordRelabelled(w: Word, w': Word) {
    w' == w.(speaker := w'.speaker)
  }

  /** `s'` is `s` with at most the speakers of it and of its words changed:
      the same word count and order, and no word list gained or lost */
  predicate SegmentRelabelled(s: Segment, s': Segment) {
    && s' == s.(speaker := s'.speaker, words := s'.words)
    && s.words.Some? == s'.words.Some?
    && (s.words.Some? ==>
          && |s'.words.value| == |s.words.value|
          && forall j :: 0 <= j < |s.words.value| ==> WordRelabelled(s.words.value[j], s'.words.value[j]))
  }

  /** `r` is `ss` with every segment relabelled and labelled */
  predicate LabelledCopy(ss: seq<Segment>, r: seq<Segment>) {
    && |r| == |ss|
    && forall i :: 0 <= i < |ss| ==> SegmentLabelled(r[i]) && SegmentRelabelled(ss[i], r[i])
  }

  /** The inner loop: every word of a segment gets the default speaker */
  function LabelWords(ws: seq<Word>): (r: seq<Word>)
    ensures |r| == |ws|
    ensures forall j :: 0 <= j < |ws| ==> WordLabelled(r[j]) && WordRelabelled(ws[j], r[j])
  {
    if ws == [] then []
    else [ws[0].(speaker := Some(DEFAULT_SPEAKER))] + LabelWords(ws[1..])
  }

  /** One iteration of the outer loop: the segment gets the default speaker,
      and its words too when it has a "words" key */
  function LabelSegment(s: Segment): (r: Segment)
    ensures SegmentLabelled(r)
    ensures SegmentRelabelled(s, r)
  {
    var words := match s.words
      case None => None
      case Some(ws) => Some(LabelWords(ws));
    s.(speaker := Some(DEFAULT_SPEAKER), words := words)
  }

  /** The outer loop over `result["segments"]` */
  function LabelSegments(ss: seq<Segment>): (r: seq<Segment>)
    ensures LabelledCopy(ss, r)
  {
    if ss == [] then []
    else [LabelSegment(ss[0])] + LabelSegments(ss[1..])
  }

  /** Labelling touches the segments only */
  function LabelTranscript(t: Transcript): (r: Transcript)
    ensures LabelledCopy(t.segments, r.segments)
    ensures r.wordSegments == t.wordSegments
  {
    t.(segments := LabelSegments(t.segments))
  }

  /** A relabelled, labelled word is determined by the word it came from */
  lemma WordLabelUnique(w: Word, w': Word)
    requires WordLabelled(w') && WordRelabelled(w, w')
    ensures w' == w.(speaker := Some(DEFAULT_SPEAKER))
  {
  }

  /** The labelling property pins the result down: any labelled copy of the
      segments is the one the labelling loop produces */
  lemma LabelledCopyUnique(ss: seq<Segment>, r: seq<Segment>)
    requires LabelledCopy(ss, r)
    ensures r == LabelSegments(ss)
  {
    var l := LabelSegments(ss);
    forall i | 0 <= i < |ss|
      ensures r[i] == l[i]
    {
      SegmentLabelUnique(ss[i], r[i], l[i]);
    }
  }

  lemma SegmentLabelUnique(s: Segment, a: Segment, b: Segment)
    requires SegmentLabelled(a) && SegmentRelabelled(s, a)
    requires SegmentLabelled(b) && SegmentRelabelled(s, b)
    ensures a == b
  {
    if s.words.Some? {
      var wa, wb := a.words.value, b.words.value;
      forall j | 0 <= j < |wa|
        ensures wa[j] == wb[j]
      {
        assert wa[j] in wa && wb[j] in wb;
        WordLabelUnique(s.words.value[j], wa[j]);
        WordLabelUnique(s.words.value[j], wb[j]);
      }
      assert wa == wb;
    }
  }

  /** Running the labelling loop twice gives what running it once gives */
  lemma LabelSegmentsIdempotent(ss: seq<Segment>)
    ensures LabelSegments(LabelSegments(ss)) == LabelSegments(ss)
  {
    var once := LabelSegments(ss);
    var twice := LabelSegments(once);
    forall i | 0 <= i < |ss|
      ensures SegmentRelabelled(ss[i], twice[i])
    {
      var s, o, t := ss[i], once[i], twice[i];
      if s.words.Some? {
        forall j | 0 <= j < |s.words.value|
          ensures WordRelabelled(s.words.value[j], t.words.value[j])
        {
          assert WordRelabelled(s.words.value[j], o.words.value[j]);
          assert WordRelabelled(o.words.value[j], t.words.value[j]);
        }
      }
    }
    LabelledCopyUnique(ss, twice);
  }
}
