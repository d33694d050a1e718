/**
  The data flow of `main` with the downloads, the cutting, the tag saving and the console left
  aside: the album file's lines and the probed total duration go in; the folder name, the planned
  segments and the tag writes come out, or the reason the run stops.
 */
module Pipeline {
  import opened Wrappers
  import opened Text
  import opened Timestamp
  import opened AlbumConfig
  import opened Planner
  import opened Tagging

  /** Why a run stops before any file is cut: missing fields, or a timestamp that does not convert. */
  datatype Failure =
    | Incomplete(fields: seq<RequiredField>)
    | BadTimestamp(error: TimestampError)

  /** What one run produces. */
  datatype Output = Output(folder: string, segments: seq<Segment>, writes: seq<TagWrite>)

  /** `main`: parse, name the folder, plan the cuts, and tag the files `split_audio` returned. */
  function RunAlbum(lines: seq<string>, total: real): Result<Output, Failure> {
    match Validate(ParseLines(lines))
    case Err(missing) => Err(Incomplete(missing))
    case Ok(config) =>
      var info := AlbumInfoOf(config);
      match PlanSegments(config.tracklist, total)
      case Err(e) => Err(BadTimestamp(e))
      case Ok(segments) =>
        var files := seq(|segments|, k requires 0 <= k < |segments| => segments[k].fileName);
        Ok(Output(FolderName(info), segments, TagPlan(files, config.tracklist, info)))
  }

  /** `main` as a sequence of the modelled steps: `parse_config`, the folder name, `split_audio`, `add_metadata`. */
  method Run(lines: seq<string>, total: real) returns (r: Result<Output, Failure>)
    ensures r == RunAlbum(lines, total)
  {
    var parsed := ParseConfig(lines);
    if parsed.Err? {
      return Err(Incomplete(parsed.error));
    }
    var config := parsed.value;
    var info := AlbumInfo(config.artist.value, config.album.value, config.year);
    var albumFolder := if Present(info.year) then info.artist + " - " + info.album + " (" + info.year.value + ")"
      else info.artist + " - " + info.album;
    var split := SplitAudio(config.tracklist, total);
    if split.Err? {
      return Err(BadTimestamp(split.error));
    }
    var segments := split.value;
    var trackFiles := seq(|segments|, k requires 0 <= k < |segments| => segments[k].fileName);
    var writes := AddMetadata(trackFiles, config.tracklist, info);
    return Ok(Output(albumFolder, segments, writes));
  }

  /** Every timestamp the parser accepted converts: a parsed tracklist always has a plan. */
  lemma ParsedTracklistConverts(lines: seq<string>)
    ensures AllConvert(ParseLines(lines).tracklist)
  {
    var tracklist := ParseLines(lines).tracklist;
    ParsedEntriesValid(lines);
    forall k | 0 <= k < |tracklist| ensures Converts(tracklist, k) {
      assert EntryValid(tracklist[k]);
      ConvertsIffShape(tracklist[k].timestamp);
    }
  }

  /** A run fails exactly when a required field is missing, and then never because of a timestamp. */
  lemma RunFailsOnlyOnMissing(lines: seq<string>, total: real)
    ensures RunAlbum(lines, total).Err? <==> Validate(ParseLines(lines)).Err?
    ensures RunAlbum(lines, total).Err? ==> RunAlbum(lines, total).error == Incomplete(MissingFields(ParseLines(lines)))
  {
    ParsedTracklistConverts(lines);
  }

  /** A run tags every planned file, in order, with its position among all the tracks. */
  lemma RunTagsEveryFile(lines: seq<string>, total: real)
    requires RunAlbum(lines, total).Ok?
    ensures var album := RunAlbum(lines, total).value;
      var tracklist := ParseLines(lines).tracklist;
      && |album.segments| == |tracklist| == |album.writes|
      && forall k :: 0 <= k < |album.writes| ==>
           && album.writes[k].file == album.segments[k].fileName == FileName(k + 1, tracklist[k].title)
           && album.writes[k].tags.title == tracklist[k].title
           && album.writes[k].tags.track == TrackNumber(k + 1, |tracklist|)
  {
    ParsedTracklistConverts(lines);
  }
}
