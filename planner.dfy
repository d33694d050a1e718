/**
  The computation inside `split_audio`: for each tracklist entry, numbered from 1, the output
  file name, the start in seconds and the duration handed to the cutter.
 */
module Planner {
  import opened Wrappers
  import opened Sequences
  import opened Text
  import opened Timestamp
  import opened AlbumConfig

  /** One planned cut: the 1-based track number, the title, the file name, where it starts and how long it runs. */
  datatype Segment = Segment(index: nat, title: string, fileName: string, start: nat, duration: real)

  /** `title.replace("/", "-")`: a title usable as one path component. */
  function SafeTitle(title: string): string {
    ReplaceChar(title, '/', '-')
  }

  /** The safe title has no `/`: every slash became a dash, and every other character is kept. */
  lemma SafeTitleSpec(title: string)
    ensures var r := SafeTitle(title);
      && |r| == |title| && '/' !in r
      && (forall k :: 0 <= k < |title| && title[k] != '/' ==> r[k] == title[k])
      && (forall k :: 0 <= k < |title| && title[k] == '/' ==> r[k] == '-')
  {
  }

  /** `f"{i:02d} - {safe_title}.mp3"`. */
  function FileName(i: nat, title: string): string {
    Pad2(i) + " - " + SafeTitle(title) + ".mp3"
  }

  /** The file name is the padded number, ` - `, the safe title and `.mp3`; the number can be read back from the front. */
  lemma FileNameParts(i: nat, title: string)
    ensures var name := FileName(i, title);
      && LeadingDigits(name) == |Pad2(i)|
      && ParseNat(name[..LeadingDigits(name)]) == Some(i)
      && name[|Pad2(i)|..] == " - " + SafeTitle(title) + ".mp3"
  {
    var name := FileName(i, title);
    var rest := " - " + SafeTitle(title) + ".mp3";
    ConcatAssoc(Pad2(i), " - ", SafeTitle(title));
    ConcatAssoc(Pad2(i), " - " + SafeTitle(title), ".mp3");
    assert name == Pad2(i) + rest;
    LeadingDigitsOf(Pad2(i), rest);
    assert name[..|Pad2(i)|] == Pad2(i);
    Pad2RoundTrip(i);
  }

  /** Different track numbers give different file names, whatever the titles: no track overwrites another. */
  lemma FileNamesDistinct(i: nat, a: string, j: nat, b: string)
    requires i != j
    ensures FileName(i, a) != FileName(j, b)
  {
    FileNameParts(i, a);
    FileNameParts(j, b);
  }

  /** Whether the entry at `k` has a timestamp `timestamp_to_seconds` accepts. */
  predicate Converts(tracklist: seq<Entry>, k: nat)
    requires k < |tracklist|
  {
    TimestampToSeconds(tracklist[k].timestamp).Ok?
  }

  predicate AllConvert(tracklist: seq<Entry>) {
    forall k :: 0 <= k < |tracklist| ==> Converts(tracklist, k)
  }

  /** Start of entry `k` in seconds. */
  function StartOf(tracklist: seq<Entry>, k: nat): nat
    requires k < |tracklist| && Converts(tracklist, k)
  {
    TimestampToSeconds(tracklist[k].timestamp).value
  }

  /** Whether everything the iteration for entry `k` converts is convertible: its own start and, unless last, the next one. */
  predicate StepConverts(tracklist: seq<Entry>, k: nat)
    requires k < |tracklist|
  {
    Converts(tracklist, k) && (k + 1 < |tracklist| ==> Converts(tracklist, k + 1))
  }

  /**
    The duration of entry `k`: the next entry's start minus this start, or for the last entry the
    total minus this start. Nothing requires it to be positive.
   */
  function DurationOf(tracklist: seq<Entry>, total: real, k: nat): real
    requires k < |tracklist| && StepConverts(tracklist, k)
  {
    if k + 1 < |tracklist| then (StartOf(tracklist, k + 1) as int - StartOf(tracklist, k) as int) as real
    else total - StartOf(tracklist, k) as real
  }

  /** The segment planned for entry `k` (track number `k + 1`). */
  function SegmentAt(tracklist: seq<Entry>, total: real, k: nat): Segment
    requires k < |tracklist| && StepConverts(tracklist, k)
  {
    var title := tracklist[k].title;
    Segment(k + 1, title, FileName(k + 1, title), StartOf(tracklist, k), DurationOf(tracklist, total, k))
  }

  /** The plan when every timestamp converts: one segment per entry, in tracklist order. */
  function Plan(tracklist: seq<Entry>, total: real): (plan: seq<Segment>)
    requires AllConvert(tracklist)
    ensures |plan| == |tracklist|
    ensures forall k :: 0 <= k < |plan| ==>
      plan[k].index == k + 1 && plan[k].title == tracklist[k].title &&
      plan[k].fileName == FileName(k + 1, tracklist[k].title) && plan[k].start == StartOf(tracklist, k)
  {
    seq(|tracklist|, k requires 0 <= k < |tracklist| => SegmentAt(tracklist, total, k))
  }

  /** The duration planned for entry `k`. */
  lemma PlanDuration(tracklist: seq<Entry>, total: real, k: nat)
    requires AllConvert(tracklist) && k < |tracklist|
    ensures Plan(tracklist, total)[k].duration == DurationOf(tracklist, total, k)
  {
    assert Plan(tracklist, total)[k] == SegmentAt(tracklist, total, k);
  }

  /** Index of the first entry from `from` on whose timestamp does not convert. */
  function FirstBad(tracklist: seq<Entry>, from: nat): (j: nat)
    requires from <= |tracklist| && exists k :: from <= k < |tracklist| && !Converts(tracklist, k)
    ensures from <= j < |tracklist| && !Converts(tracklist, j)
    ensures forall k :: from <= k < j ==> Converts(tracklist, k)
    decreases |tracklist| - from
  {
    if !Converts(tracklist, from) then from else FirstBad(tracklist, from + 1)
  }

  /** The `ValueError` of the first entry whose timestamp does not convert. */
  function FirstError(tracklist: seq<Entry>): TimestampError
    requires !AllConvert(tracklist)
  {
    TimestampToSeconds(tracklist[FirstBad(tracklist, 0)].timestamp).error
  }

  /** The error is the one of the first failing entry, whichever that is. */
  lemma FirstErrorAt(tracklist: seq<Entry>, j: nat)
    requires j < |tracklist| && !Converts(tracklist, j)
    requires forall k :: 0 <= k < j ==> Converts(tracklist, k)
    ensures !AllConvert(tracklist)
    ensures FirstError(tracklist) == TimestampToSeconds(tracklist[j].timestamp).error
  {
    var b := FirstBad(tracklist, 0);
    assert !(b < j) && !(j < b);
  }

  /** What `split_audio` yields: the plan, or the first timestamp error raised while going through the list. */
  function PlanSegments(tracklist: seq<Entry>, total: real): Result<seq<Segment>, TimestampError> {
    if AllConvert(tracklist) then Ok(Plan(tracklist, total)) else Err(FirstError(tracklist))
  }

  /**
    One iteration of the loop of `split_audio` for the 1-based track `i`, without the call to
    `ffmpeg`: the name, the start and the duration, looking ahead to entry `i` (0-based) for all
    but the last. A conversion error of this start or of the next is raised as it is.
   */
  method PlanTrack(tracklist: seq<Entry>, total: real, i: nat) returns (r: Result<Segment, TimestampError>)
    requires 1 <= i <= |tracklist|
    ensures r.Ok? <==> StepConverts(tracklist, i - 1)
    ensures r.Ok? ==> r.value == SegmentAt(tracklist, total, i - 1)
    ensures r.Err? && !Converts(tracklist, i - 1) ==> r.error == TimestampToSeconds(tracklist[i - 1].timestamp).error
    ensures r.Err? && Converts(tracklist, i - 1) ==> r.error == TimestampToSeconds(tracklist[i].timestamp).error
  {
    var entry := tracklist[i - 1];
    var trackNum := Pad2(i);
    var safeTitle := SafeTitle(entry.title);
    var outputFile := trackNum + " - " + safeTitle + ".mp3";
    var startSeconds :- TimestampToSeconds(entry.timestamp);
    var duration: real;
    if i < |tracklist| {
      var nextStart :- TimestampToSeconds(tracklist[i].timestamp);
      duration := (nextStart as int - startSeconds as int) as real;
    } else {
      duration := total - startSeconds as real;
    }
    return Ok(Segment(i, entry.title, outputFile, startSeconds, duration));
  }

  /** An error met in iteration `i`, after every earlier iteration went through, is the first error of the list. */
  lemma StepErrorIsFirst(tracklist: seq<Entry>, i: nat, e: TimestampError)
    requires 1 <= i <= |tracklist|
    requires forall k :: 0 <= k < i - 1 ==> StepConverts(tracklist, k)
    requires !StepConverts(tracklist, i - 1)
    requires !Converts(tracklist, i - 1) ==> e == TimestampToSeconds(tracklist[i - 1].timestamp).error
    requires Converts(tracklist, i - 1) ==> e == TimestampToSeconds(tracklist[i].timestamp).error
    ensures !AllConvert(tracklist) && FirstError(tracklist) == e
  {
    forall k | 0 <= k < i - 1 ensures Converts(tracklist, k) {
      assert StepConverts(tracklist, k);
    }
    if Converts(tracklist, i - 1) {
      FirstErrorAt(tracklist, i);
    } else {
      FirstErrorAt(tracklist, i - 1);
    }
  }

  /** The loop of `split_audio`: the segments in tracklist order, or the first conversion error. */
  method SplitAudio(tracklist: seq<Entry>, total: real) returns (r: Result<seq<Segment>, TimestampError>)
    ensures r == PlanSegments(tracklist, total)
  {
    var outputFiles: seq<Segment> := [];
    for i := 1 to |tracklist| + 1
      invariant forall k :: 0 <= k < i - 1 ==> StepConverts(tracklist, k)
      invariant outputFiles == Planned(tracklist, total, i - 1)
    {
      var segment := PlanTrack(tracklist, total, i);
      if segment.Err? {
        StepErrorIsFirst(tracklist, i, segment.error);
        return Err(segment.error);
      }
      PlannedStep(tracklist, total, i);
      outputFiles := outputFiles + [segment.value];
    }
    IsPlan(tracklist, total, outputFiles);
    return Ok(outputFiles);
  }

  /** The segments of the first `n` entries, as the loop has collected them after `n` iterations. */
  function Planned(tracklist: seq<Entry>, total: real, n: nat): (segs: seq<Segment>)
    requires n <= |tracklist| && forall k :: 0 <= k < n ==> StepConverts(tracklist, k)
    ensures |segs| == n
  {
    seq(n, k requires 0 <= k < n => SegmentAt(tracklist, total, k))
  }

  /** Iteration `i` appends the segment of entry `i - 1` to what the earlier iterations collected. */
  lemma PlannedStep(tracklist: seq<Entry>, total: real, i: nat)
    requires 1 <= i <= |tracklist| && forall k :: 0 <= k < i ==> StepConverts(tracklist, k)
    ensures Planned(tracklist, total, i) == Planned(tracklist, total, i - 1) + [SegmentAt(tracklist, total, i - 1)]
  {
    var a, b := Planned(tracklist, total, i - 1), Planned(tracklist, total, i);
    forall k | 0 <= k < i - 1 ensures b[k] == a[k] {
      assert b[k] == SegmentAt(tracklist, total, k);
    }
    SnocEq(a, SegmentAt(tracklist, total, i - 1), b);
  }

  /** Once every iteration went through, the collected list is the plan. */
  lemma IsPlan(tracklist: seq<Entry>, total: real, segs: seq<Segment>)
    requires forall k :: 0 <= k < |tracklist| ==> StepConverts(tracklist, k)
    requires segs == Planned(tracklist, total, |tracklist|)
    ensures AllConvert(tracklist) && segs == Plan(tracklist, total)
    ensures PlanSegments(tracklist, total) == Ok(segs)
  {
    assert AllConvert(tracklist) by {
      forall k | 0 <= k < |tracklist| ensures Converts(tracklist, k) {
        assert StepConverts(tracklist, k);
      }
    }
    var plan := Plan(tracklist, total);
    forall k | 0 <= k < |plan| ensures segs[k] == plan[k] {
      assert plan[k] == SegmentAt(tracklist, total, k);
    }
  }

  /** Each segment ends where the next one starts, and the last one ends at the total duration. */
  lemma Contiguous(tracklist: seq<Entry>, total: real)
    requires AllConvert(tracklist)
    ensures var plan := Plan(tracklist, total);
      && (forall k :: 0 <= k < |plan| - 1 ==> plan[k].start as real + plan[k].duration == plan[k + 1].start as real)
      && (|plan| > 0 ==> plan[|plan| - 1].start as real + plan[|plan| - 1].duration == total)
  {
  }

  /** Segments laid end to end up to `total`. */
  predicate Chained(segs: seq<Segment>, total: real) {
    && (forall k :: 0 <= k < |segs| - 1 ==> segs[k].start as real + segs[k].duration == segs[k + 1].start as real)
    && (|segs| > 0 ==> segs[|segs| - 1].start as real + segs[|segs| - 1].duration == total)
  }

  /** The sum of the durations. */
  function TotalDuration(segs: seq<Segment>): real {
    if segs == [] then 0.0 else segs[0].duration + TotalDuration(segs[1..])
  }

  lemma {:induction false} Telescope(segs: seq<Segment>, total: real)
    requires |segs| > 0 && Chained(segs, total)
    ensures TotalDuration(segs) == total - segs[0].start as real
  {
    if |segs| > 1 {
      var rest := segs[1..];
      forall k | 0 <= k < |rest| - 1
        ensures rest[k].start as real + rest[k].duration == rest[k + 1].start as real
      {
        assert rest[k] == segs[k + 1] && rest[k + 1] == segs[k + 2];
      }
      assert rest[|rest| - 1] == segs[|segs| - 1];
      Telescope(rest, total);
    }
  }

  /** The durations of a plan add up to the total minus the first start: the tracks cover the audio from the first timestamp on, without gap or overlap. */
  lemma DurationsTelescope(tracklist: seq<Entry>, total: real)
    requires AllConvert(tracklist) && |tracklist| > 0
    ensures TotalDuration(Plan(tracklist, total)) == total - StartOf(tracklist, 0) as real
  {
    Contiguous(tracklist, total);
    Telescope(Plan(tracklist, total), total);
  }

  /** Starts strictly increase along the list, for every pair and not only neighbours. */
  predicate StrictlyIncreasing(tracklist: seq<Entry>)
    requires AllConvert(tracklist)
  {
    forall j, k :: 0 <= j < k < |tracklist| ==> StartOf(tracklist, j) < StartOf(tracklist, k)
  }

  lemma {:induction false} NeighboursIncreasing(tracklist: seq<Entry>, j: nat, k: nat)
    requires AllConvert(tracklist) && j < k < |tracklist|
    requires forall m :: 0 <= m < |tracklist| - 1 ==> StartOf(tracklist, m) < StartOf(tracklist, m + 1)
    ensures StartOf(tracklist, j) < StartOf(tracklist, k)
    decreases k - j
  {
    if j + 1 < k {
      NeighboursIncreasing(tracklist, j + 1, k);
    }
  }

  lemma IncreasingFromPositive(tracklist: seq<Entry>, total: real)
    requires AllConvert(tracklist) && |tracklist| > 0
    requires forall k :: 0 <= k < |tracklist| ==> DurationOf(tracklist, total, k) > 0.0
    ensures StrictlyIncreasing(tracklist) && total > StartOf(tracklist, |tracklist| - 1) as real
  {
    var n := |tracklist|;
    forall m | 0 <= m < n - 1 ensures StartOf(tracklist, m) < StartOf(tracklist, m + 1) {
      assert DurationOf(tracklist, total, m) > 0.0;
    }
    forall j, k | 0 <= j < k < n ensures StartOf(tracklist, j) < StartOf(tracklist, k) {
      NeighboursIncreasing(tracklist, j, k);
    }
    assert DurationOf(tracklist, total, n - 1) > 0.0;
  }

  lemma PositiveFromIncreasing(tracklist: seq<Entry>, total: real)
    requires AllConvert(tracklist) && |tracklist| > 0
    requires StrictlyIncreasing(tracklist) && total > StartOf(tracklist, |tracklist| - 1) as real
    ensures forall k :: 0 <= k < |tracklist| ==> DurationOf(tracklist, total, k) > 0.0
  {
    forall k | 0 <= k < |tracklist| ensures DurationOf(tracklist, total, k) > 0.0 {
      if k + 1 < |tracklist| {
        assert StartOf(tracklist, k) < StartOf(tracklist, k + 1);
      }
    }
  }

  /**
    Every duration is positive exactly when the starts strictly increase and the total exceeds the
    last start. The loop checks neither, so otherwise zero or negative durations are planned.
   */
  lemma PositiveDurations(tracklist: seq<Entry>, total: real)
    requires AllConvert(tracklist) && |tracklist| > 0
    ensures (forall k :: 0 <= k < |tracklist| ==> Plan(tracklist, total)[k].duration > 0.0) <==>
            (StrictlyIncreasing(tracklist) && total > StartOf(tracklist, |tracklist| - 1) as real)
  {
    var plan := Plan(tracklist, total);
    forall k | 0 <= k < |tracklist| ensures plan[k].duration == DurationOf(tracklist, total, k) {
      PlanDuration(tracklist, total, k);
    }
    if forall k :: 0 <= k < |tracklist| ==> plan[k].duration > 0.0 {
      IncreasingFromPositive(tracklist, total);
    }
    if StrictlyIncreasing(tracklist) && total > StartOf(tracklist, |tracklist| - 1) as real {
      PositiveFromIncreasing(tracklist, total);
    }
  }

  /**
    Audio shorter than the last timestamp is not refused: the plan is still produced, and its last
    segment has a negative duration.
   */
  lemma ShortAudioNotRefused(tracklist: seq<Entry>, total: real)
    requires AllConvert(tracklist) && |tracklist| > 0
    requires total < StartOf(tracklist, |tracklist| - 1) as real
    ensures PlanSegments(tracklist, total).Ok?
    ensures PlanSegments(tracklist, total).value[|tracklist| - 1].duration < 0.0
  {
    PlanDuration(tracklist, total, |tracklist| - 1);
  }

  /** Two entries with the same start are not refused either: the first gets a zero duration. */
  lemma RepeatedStartNotRefused(tracklist: seq<Entry>, total: real, k: nat)
    requires AllConvert(tracklist) && k + 1 < |tracklist|
    requires StartOf(tracklist, k) == StartOf(tracklist, k + 1)
    ensures PlanSegments(tracklist, total).Ok?
    ensures PlanSegments(tracklist, total).value[k].duration == 0.0
  {
    PlanDuration(tracklist, total, k);
  }

  /** A slash in a title becomes a dash, and the number is padded to two digits. */
  lemma FileNameExample()
    ensures FileName(7, "A/B") == "07 - A-B.mp3"
  {
    assert SafeTitle("A/B") == "A-B";
    assert Pad2(7) == "07";
  }
}
