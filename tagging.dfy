/**
  The tag values `add_metadata` writes to each split file, and the album folder name `main`
  builds. Writing the ID3 frames themselves belongs to the tagging library and is not modelled:
  a tag write is the file name paired with the values written to it.
 */
module Tagging {
  import opened Wrappers
  import opened Text
  import opened AlbumConfig

  /** `album_info`: artist and album as read from the file, and the year if any. */
  datatype AlbumInfo = AlbumInfo(artist: string, album: string, year: Option<string>)

  /** The frames set on one file: title, artist, album, track number and, when given, the year. */
  datatype Tags = Tags(title: string, artist: string, album: string, track: string, year: Option<string>)

  /** One tag write: the file and the values saved to it. */
  datatype TagWrite = TagWrite(file: string, tags: Tags)

  /** The dictionary `main` hands on: `artist`, `album` and `config.get("year")`. */
  function AlbumInfoOf(cfg: Config): AlbumInfo
    requires cfg.artist.Some? && cfg.album.Some?
  {
    AlbumInfo(cfg.artist.value, cfg.album.value, cfg.year)
  }

  /** `f"{i}/{n}"`: the track number out of the number of tracks. */
  function TrackNumber(i: nat, n: nat): string {
    NatToString(i) + "/" + NatToString(n)
  }

  /** The track-number tag reads back as the track number and the count: `split("/")` gives the two decimal strings. */
  lemma TrackNumberRoundTrip(i: nat, n: nat)
    ensures var parts := Split(TrackNumber(i, n), '/');
      |parts| == 2 && ParseNat(parts[0]) == Some(i) && ParseNat(parts[1]) == Some(n)
  {
    var a, b := NatToString(i), NatToString(n);
    assert Join([a, b], '/') == TrackNumber(i, n);
    assert '/' !in a by { DigitsHaveNoSlash(a); }
    assert '/' !in b by { DigitsHaveNoSlash(b); }
    SplitJoin([a, b], '/');
    NatToStringRoundTrip(i);
    NatToStringRoundTrip(n);
  }

  /** Track 7 of 12 is tagged `7/12`: no padding and no leading zero. */
  lemma TrackNumberExample()
    ensures TrackNumber(7, 12) == "7/12"
  {
    assert NatToString(12) == NatToString(1) + [DigitChar(2)];
  }

  lemma DigitsHaveNoSlash(s: string)
    requires IsDigits(s)
    ensures '/' !in s
  {
    assert forall j :: 0 <= j < |s| ==> s[j] != '/';
  }

  /** Different positions or counts give different track-number tags. */
  lemma TrackNumberInjective(i: nat, n: nat, j: nat, m: nat)
    requires TrackNumber(i, n) == TrackNumber(j, m)
    ensures i == j && n == m
  {
    TrackNumberRoundTrip(i, n);
    TrackNumberRoundTrip(j, m);
  }

  /** The tags of the `i`-th file (from 1) of `n` tracks; the year frame only when the year is set and non-empty. */
  function TagsFor(title: string, info: AlbumInfo, i: nat, n: nat): (t: Tags)
    ensures t.title == title && t.artist == info.artist && t.album == info.album
    ensures t.track == TrackNumber(i, n)
    ensures t.year.Some? <==> Present(info.year)
    ensures t.year.Some? ==> t.year == info.year
  {
    Tags(title, info.artist, info.album, TrackNumber(i, n), if Present(info.year) then info.year else None)
  }

  function Min(a: nat, b: nat): nat {
    if a <= b then a else b
  }

  /** The writes of `add_metadata`: `zip` stops at the shorter list, and the count is always the tracklist's length. */
  function TagPlan(files: seq<string>, tracklist: seq<Entry>, info: AlbumInfo): (writes: seq<TagWrite>)
    ensures |writes| == Min(|files|, |tracklist|)
    ensures forall k :: 0 <= k < |writes| ==>
      writes[k] == TagWrite(files[k], TagsFor(tracklist[k].title, info, k + 1, |tracklist|))
  {
    seq(Min(|files|, |tracklist|), k requires 0 <= k < Min(|files|, |tracklist|) =>
      TagWrite(files[k], TagsFor(tracklist[k].title, info, k + 1, |tracklist|)))
  }

  /** The loop of `add_metadata` over `enumerate(zip(files, tracklist), 1)`, recording each save. */
  method AddMetadata(files: seq<string>, tracklist: seq<Entry>, info: AlbumInfo) returns (writes: seq<TagWrite>)
    ensures writes == TagPlan(files, tracklist, info)
  {
    writes := [];
    var count := Min(|files|, |tracklist|);
    for i := 1 to count + 1
      invariant |writes| == i - 1
      invariant forall k :: 0 <= k < i - 1 ==>
        writes[k] == TagWrite(files[k], TagsFor(tracklist[k].title, info, k + 1, |tracklist|))
    {
      var filepath := files[i - 1];
      var title := tracklist[i - 1].title;
      var year := if Present(info.year) then info.year else None;
      var tags := Tags(title, info.artist, info.album, NatToString(i) + "/" + NatToString(|tracklist|), year);
      writes := writes + [TagWrite(filepath, tags)];
    }
  }

  /** Each file is tagged with its own position: two writes never carry the same track number. */
  lemma TrackNumbersDistinct(files: seq<string>, tracklist: seq<Entry>, info: AlbumInfo, j: nat, k: nat)
    requires j < k < |TagPlan(files, tracklist, info)|
    ensures TagPlan(files, tracklist, info)[j].tags.track != TagPlan(files, tracklist, info)[k].tags.track
  {
    var writes := TagPlan(files, tracklist, info);
    if writes[j].tags.track == writes[k].tags.track {
      TrackNumberInjective(j + 1, |tracklist|, k + 1, |tracklist|);
    }
  }

  /** The folder `main` creates: `"artist - album (year)"` when the year is set and non-empty, else `"artist - album"`. */
  function FolderName(info: AlbumInfo): string {
    if Present(info.year) then info.artist + " - " + info.album + " (" + info.year.value + ")"
    else info.artist + " - " + info.album
  }

  /** For one artist and album, the folder name tells whether a year was given, and which. */
  lemma FolderNameInjective(a: AlbumInfo, b: AlbumInfo)
    requires a.artist == b.artist && a.album == b.album
    requires FolderName(a) == FolderName(b)
    ensures Present(a.year) <==> Present(b.year)
    ensures Present(a.year) ==> a.year == b.year
  {
    var base := a.artist + " - " + a.album;
    if Present(a.year) && Present(b.year) {
      var x, y := a.year.value, b.year.value;
      var fa, fb := base + " (" + x + ")", base + " (" + y + ")";
      assert |x| == |y|;
      assert fa[|base| + 2..|fa| - 1] == x;
      assert fb[|base| + 2..|fb| - 1] == y;
    }
  }
}
