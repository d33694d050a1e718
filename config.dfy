/**
  `parse_config`: the album file, already split into lines, becomes the source URL, the artist,
  album and year fields and the tracklist, or the list of required fields that are missing.
 */
module AlbumConfig {
  import opened Wrappers
  import opened Sequences
  import opened Text
  import opened Timestamp

  /** One tracklist entry, `(title, timestamp)`, with the timestamp kept as text. */
  datatype Entry = Entry(title: string, timestamp: string)

  /** The four `key: value` directives. */
  datatype Key = Url | Artist | Album | Year

  /** The text a directive line starts with. */
  function Prefix(k: Key): string {
    match k
    case Url => "url:"
    case Artist => "artist:"
    case Album => "album:"
    case Year => "year:"
  }

  /** What one line of the file contributes. */
  datatype Line =
    | Ignored                            // blank, or a `#` comment
    | Directive(key: Key, value: string)
    | Track(entry: Entry)
    | Unmatched                          // anything else: silently dropped

  /** The configuration dictionary; `None` is a field never set. */
  datatype Config = Config(
    url: Option<string>,
    artist: Option<string>,
    album: Option<string>,
    year: Option<string>,
    tracklist: seq<Entry>)

  const Initial := Config(None, None, None, None, [])

  function Field(cfg: Config, k: Key): Option<string> {
    match k
    case Url => cfg.url
    case Artist => cfg.artist
    case Album => cfg.album
    case Year => cfg.year
  }

  /** Each directive prefix is a colon-free key followed by one colon. */
  lemma PrefixColon(k: Key)
    ensures |Prefix(k)| >= 2 && Prefix(k)[|Prefix(k)| - 1] == ':'
    ensures ':' !in Prefix(k)[..|Prefix(k)| - 1]
  {
  }

  /** The value of a directive: `line.split(":", 1)[1].strip()`, the stripped text after the key's colon. */
  function DirectiveValue(line: string, k: Key): (v: string)
    requires StartsWith(line, Prefix(k))
    ensures v == Trim(line[|Prefix(k)|..])
  {
    var prefix := Prefix(k);
    PrefixColon(k);
    var c := |prefix| - 1;
    assert line[c] == ':' by { assert line[c] == prefix[c]; }
    var r := AfterFirst(line, ':');
    var p := |line| - |r| - 1;
    assert p == c by {
      assert line[..c] == prefix[..c];
    }
    Trim(r)
  }

  /** Index of the first whitespace character of `s`, or `|s|`. */
  function FirstSpace(s: string): (k: nat)
    ensures k <= |s| && (k < |s| ==> IsSpace(s[k]))
    ensures forall j :: 0 <= j < k ==> !IsSpace(s[j])
  {
    if s == [] || IsSpace(s[0]) then 0 else 1 + FirstSpace(s[1..])
  }

  /**
    `re.match(r'^(\d+:\d+(?::\d+)?)\s+(.+)$', line)` on a stripped line, giving `(title.strip(), timestamp)`.
    Digits and colons are not whitespace, so the timestamp group ends exactly where the first
    whitespace begins; `\s+` then takes the whole run of whitespace and `.+` the rest, which must
    not contain a line feed.
   */
  function MatchEntry(line: string): Option<Entry> {
    var k := FirstSpace(line);
    var stamp := line[..k];
    if k < |line| && IsTimestampShape(stamp) then
      var title := TrimStart(line[k..]);
      if title != [] && '\n' !in title then Some(Entry(Trim(title), stamp)) else None
    else None
  }

  /** `line` is `stamp`, whitespace, `title` in the way the tracklist pattern reads it. */
  predicate PatternMatches(line: string, stamp: string, gap: string, title: string) {
    && line == stamp + gap + title
    && IsTimestampShape(stamp)
    && gap != [] && AllSpace(gap)
    && title != [] && '\n' !in title
  }

  /** How `parse_config` classifies a line once it is stripped. */
  function Classify(line: string): Line {
    if line == [] || line[0] == '#' then Ignored
    else if StartsWith(line, Prefix(Url)) then Directive(Url, DirectiveValue(line, Url))
    else if StartsWith(line, Prefix(Artist)) then Directive(Artist, DirectiveValue(line, Artist))
    else if StartsWith(line, Prefix(Album)) then Directive(Album, DirectiveValue(line, Album))
    else if StartsWith(line, Prefix(Year)) then Directive(Year, DirectiveValue(line, Year))
    else
      match MatchEntry(line)
      case Some(e) => Track(e)
      case None => Unmatched
  }

  /** How `parse_config` classifies one raw line of the file. */
  function ClassifyLine(raw: string): Line {
    Classify(Trim(raw))
  }

  /** At most one directive prefix fits a line. */
  lemma PrefixesExclusive(line: string, k: Key, j: Key)
    ensures StartsWith(line, Prefix(k)) && StartsWith(line, Prefix(j)) ==> k == j
  {
    if StartsWith(line, Prefix(k)) && StartsWith(line, Prefix(j)) {
      assert Prefix(k)[0] == line[0] == Prefix(j)[0];
      assert Prefix(k)[1] == line[1] == Prefix(j)[1];
    }
  }

  /** A stripped line that starts with `key:` sets that key to the stripped rest of the line. */
  lemma ClassifyDirective(line: string, k: Key)
    requires StartsWith(line, Prefix(k))
    ensures Classify(line) == Directive(k, Trim(line[|Prefix(k)|..]))
  {
    assert line != [] && line[0] == Prefix(k)[0];
    match k {
      case Url =>
      case Artist =>
        PrefixesExclusive(line, Artist, Url);
      case Album =>
        PrefixesExclusive(line, Album, Url);
        PrefixesExclusive(line, Album, Artist);
      case Year =>
        PrefixesExclusive(line, Year, Url);
        PrefixesExclusive(line, Year, Artist);
        PrefixesExclusive(line, Year, Album);
    }
  }

  /** A non-blank, non-comment line no directive claims is an entry exactly when the pattern matches it. */
  lemma ClassifyOther(line: string)
    requires line != [] && line[0] != '#'
    requires forall k: Key :: !StartsWith(line, Prefix(k))
    ensures Classify(line) == match MatchEntry(line) case Some(e) => Track(e) case None => Unmatched
  {
    assert !StartsWith(line, Prefix(Url)) && !StartsWith(line, Prefix(Artist));
    assert !StartsWith(line, Prefix(Album)) && !StartsWith(line, Prefix(Year));
  }

  /** The effect of one classified line on the dictionary: a directive overwrites, an entry appends. */
  function ApplyLine(cfg: Config, l: Line): Config {
    match l
    case Directive(k, v) => SetField(cfg, k, v)
    case Track(e) => cfg.(tracklist := cfg.tracklist + [e])
    case _ => cfg
  }

  function SetField(cfg: Config, k: Key, v: string): (r: Config)
    ensures Field(r, k) == Some(v) && r.tracklist == cfg.tracklist
    ensures forall j :: j != k ==> Field(r, j) == Field(cfg, j)
  {
    match k
    case Url => cfg.(url := Some(v))
    case Artist => cfg.(artist := Some(v))
    case Album => cfg.(album := Some(v))
    case Year => cfg.(year := Some(v))
  }

  /** The dictionary after reading `lines` in order. */
  function ParseLines(lines: seq<string>): Config {
    if lines == [] then Initial
    else ApplyLine(ParseLines(lines[..|lines| - 1]), ClassifyLine(lines[|lines| - 1]))
  }

  lemma ParseStep(lines: seq<string>, i: nat)
    requires i < |lines|
    ensures ParseLines(lines[..i + 1]) == ApplyLine(ParseLines(lines[..i]), ClassifyLine(lines[i]))
  {
    assert lines[..i + 1][..i] == lines[..i];
  }

  /** Python truthiness of an optional string: set and non-empty. */
  predicate Present(o: Option<string>) {
    o.Some? && o.value != ""
  }

  /** The fields `parse_config` insists on, in the order it reports them. */
  datatype RequiredField = UrlField | ArtistField | AlbumField | TracklistField {
    function Name(): string {
      match this
      case UrlField => "url"
      case ArtistField => "artist"
      case AlbumField => "album"
      case TracklistField => "tracklist"
    }

    function Rank(): nat {
      match this
      case UrlField => 0
      case ArtistField => 1
      case AlbumField => 2
      case TracklistField => 3
    }
  }

  /** Whether `cfg` lacks the required field `f`: unset or empty, and for the tracklist, no entry. */
  predicate Lacks(cfg: Config, f: RequiredField) {
    match f
    case UrlField => !Present(cfg.url)
    case ArtistField => !Present(cfg.artist)
    case AlbumField => !Present(cfg.album)
    case TracklistField => cfg.tracklist == []
  }

  /** The required fields `cfg` lacks, each once, in the order `parse_config` checks them. */
  function MissingFields(cfg: Config): (missing: seq<RequiredField>)
    ensures forall f :: f in missing <==> Lacks(cfg, f)
    ensures forall i, j :: 0 <= i < j < |missing| ==> missing[i].Rank() < missing[j].Rank()
  {
    var a := if Present(cfg.url) then [] else [UrlField];
    var b := a + if Present(cfg.artist) then [] else [ArtistField];
    var c := b + if Present(cfg.album) then [] else [AlbumField];
    c + if cfg.tracklist != [] then [] else [TracklistField]
  }

  /** The check at the end of `parse_config`: the missing fields, or the dictionary unchanged. */
  function Validate(cfg: Config): (r: Result<Config, seq<RequiredField>>)
    ensures r.Ok? <==> Present(cfg.url) && Present(cfg.artist) && Present(cfg.album) && cfg.tracklist != []
    ensures r.Ok? ==> r.value == cfg
    ensures r.Err? ==> r.error == MissingFields(cfg) && r.error != []
  {
    var missing := MissingFields(cfg);
    assert Lacks(cfg, UrlField) ==> UrlField in missing;
    assert Lacks(cfg, ArtistField) ==> ArtistField in missing;
    assert Lacks(cfg, AlbumField) ==> AlbumField in missing;
    assert Lacks(cfg, TracklistField) ==> TracklistField in missing;
    if missing == [] then Ok(cfg) else Err(missing)
  }

  /** The body of `parse_config`'s loop: strip one line and update the dictionary from it. */
  method ReadLine(config: Config, raw: string) returns (next: Config)
    ensures next == ApplyLine(config, ClassifyLine(raw))
  {
    next := config;
    var line := Trim(raw);
    if line == [] || line[0] == '#' {
      return;
    }
    if StartsWith(line, "url:") {
      ClassifyDirective(line, Url);
      next := next.(url := Some(DirectiveValue(line, Url)));
    } else if StartsWith(line, "artist:") {
      ClassifyDirective(line, Artist);
      next := next.(artist := Some(DirectiveValue(line, Artist)));
    } else if StartsWith(line, "album:") {
      ClassifyDirective(line, Album);
      next := next.(album := Some(DirectiveValue(line, Album)));
    } else if StartsWith(line, "year:") {
      ClassifyDirective(line, Year);
      next := next.(year := Some(DirectiveValue(line, Year)));
    } else {
      ClassifyOther(line);
      var m := MatchEntry(line);
      if m.Some? {
        next := next.(tracklist := next.tracklist + [m.value]);
      }
    }
  }

  /**
    `parse_config` over the lines of the file: the same loop and the same checks, with the
    `sys.exit` for missing fields returned as the list of those fields.
   */
  method ParseConfig(lines: seq<string>) returns (r: Result<Config, seq<RequiredField>>)
    ensures r == Validate(ParseLines(lines))
  {
    var config := Initial;
    for i := 0 to |lines|
      invariant config == ParseLines(lines[..i])
    {
      ParseStep(lines, i);
      config := ReadLine(config, lines[i]);
    }
    assert lines[..|lines|] == lines;
    var missing: seq<RequiredField> := [];
    if !Present(config.url) {
      missing := missing + [UrlField];
    }
    assert missing == if Present(config.url) then [] else [UrlField];
    ghost var a := missing;
    if !Present(config.artist) {
      missing := missing + [ArtistField];
    }
    assert missing == a + if Present(config.artist) then [] else [ArtistField];
    ghost var b := missing;
    if !Present(config.album) {
      missing := missing + [AlbumField];
    }
    assert missing == b + if Present(config.album) then [] else [AlbumField];
    ghost var c := missing;
    if config.tracklist == [] {
      missing := missing + [TracklistField];
    }
    assert missing == c + if config.tracklist != [] then [] else [TracklistField];
    assert missing == MissingFields(config);
    if missing != [] {
      return Err(missing);
    }
    r := Ok(config);
  }

  /** The first whitespace of `stamp + rest` is at `|stamp|` when `stamp` has none and `rest` starts with one. */
  lemma FirstSpaceAfter(stamp: string, rest: string)
    requires forall j :: 0 <= j < |stamp| ==> !IsSpace(stamp[j])
    requires rest != [] && IsSpace(rest[0])
    ensures FirstSpace(stamp + rest) == |stamp|
  {
    var line := stamp + rest;
    assert forall j :: 0 <= j < |stamp| ==> line[j] == stamp[j];
    assert line[|stamp|] == rest[0];
  }

  /**
    Soundness of the entry recogniser: an entry comes from a way of reading the line as the
    tracklist pattern does, with the title group as the greedy engine captures it, stripped.
   */
  lemma MatchEntrySound(line: string) returns (gap: string, title: string)
    requires MatchEntry(line).Some?
    ensures PatternMatches(line, MatchEntry(line).value.timestamp, gap, title)
    ensures !IsSpace(title[0])
    ensures MatchEntry(line).value.title == Trim(title)
  {
    var k := FirstSpace(line);
    var stamp, rest := line[..k], line[k..];
    title := TrimStart(rest);
    assert k < |line| && IsTimestampShape(stamp) && title != [] && '\n' !in title;
    assert MatchEntry(line) == Some(Entry(Trim(title), stamp));
    assert rest[0] == line[k];
    gap := LeadingSpace(rest);
    SliceJoin(line, k);
    ConcatAssoc(stamp, gap, title);
  }

  /** The whitespace run `lstrip` removes from a string that starts with whitespace. */
  lemma LeadingSpace(rest: string) returns (gap: string)
    requires rest != [] && IsSpace(rest[0])
    ensures rest == gap + TrimStart(rest) && gap != [] && AllSpace(gap)
  {
    var title := TrimStart(rest);
    gap := rest[..|rest| - |title|];
    assert rest == gap + title;
  }

  /**
    Completeness of the entry recogniser: whenever the tracklist pattern matches a stripped line,
    in whichever way it splits the whitespace between the groups, the entry is the same.
   */
  lemma MatchEntryComplete(line: string, stamp: string, gap: string, title: string)
    requires IsStripped(line) && PatternMatches(line, stamp, gap, title)
    ensures MatchEntry(line) == Some(Entry(Trim(title), stamp))
  {
    ShapeHasNoSpace(stamp);
    assert line == stamp + (gap + title);
    FirstSpaceAfter(stamp, gap + title);
    assert line[..|stamp|] == stamp && line[|stamp|..] == gap + title;
    TrimStartSpaces(gap, title);
    assert title[|title| - 1] == line[|line| - 1];
    TrimStartKeeps(title, '\n');
    TrimAfterTrimStart(title);
  }

  /** What an entry read from a line looks like: a well-formed timestamp and a stripped, non-empty title. */
  predicate EntryValid(e: Entry) {
    IsTimestampShape(e.timestamp) && e.title != [] && IsStripped(e.title)
  }

  lemma MatchEntryValid(line: string)
    requires MatchEntry(line).Some?
    ensures EntryValid(MatchEntry(line).value)
  {
    var gap, title := MatchEntrySound(line);
    assert TrimStart(title) == title;
    assert title[0] == title[0..][0];
  }

  /** A line the pattern matches starts with a digit, so no comment or directive test claims it. */
  lemma TrackLine(raw: string)
    ensures ClassifyLine(raw).Track? <==> MatchEntry(Trim(raw)).Some?
    ensures ClassifyLine(raw).Track? ==> ClassifyLine(raw).entry == MatchEntry(Trim(raw)).value
  {
    var line := Trim(raw);
    if MatchEntry(line).Some? {
      var k := FirstSpace(line);
      ShapeChars(line[..k]);
      assert line[0] == line[..k][0];
      DigitNoPrefix(line);
      ClassifyOther(line);
    } else {
      NotTrack(line);
    }
  }

  /** No directive prefix starts with a digit. */
  lemma DigitNoPrefix(line: string)
    requires line != [] && IsDigit(line[0])
    ensures forall k: Key :: !StartsWith(line, Prefix(k))
  {
    forall k: Key ensures !StartsWith(line, Prefix(k)) {
      assert !IsDigit(Prefix(k)[0]);
      assert |Prefix(k)| <= |line| ==> line[..|Prefix(k)|][0] == line[0];
    }
  }

  /** Without a pattern match a line is never an entry. */
  lemma NotTrack(line: string)
    requires MatchEntry(line).None?
    ensures !Classify(line).Track?
  {
  }

  /** The entries of the track lines among `lines`, in file order. */
  function Tracks(lines: seq<string>): seq<Entry> {
    if lines == [] then []
    else
      var l := ClassifyLine(lines[|lines| - 1]);
      Tracks(lines[..|lines| - 1]) + if l.Track? then [l.entry] else []
  }

  /** The tracklist is exactly the track lines' entries in order; directives and other lines do not touch it. */
  lemma {:induction false} ParsedTracklist(lines: seq<string>)
    ensures ParseLines(lines).tracklist == Tracks(lines)
  {
    if lines != [] {
      ParsedTracklist(lines[..|lines| - 1]);
    }
  }

  /** Reading one file after another appends their tracklists. */
  lemma {:induction false} TracksAppend(a: seq<string>, b: seq<string>)
    ensures Tracks(a + b) == Tracks(a) + Tracks(b)
  {
    if b == [] {
      assert a + b == a;
    } else {
      var c := b[..|b| - 1];
      assert (a + b)[..|a + b| - 1] == a + c;
      assert (a + b)[|a + b| - 1] == b[|b| - 1];
      TracksAppend(a, c);
    }
  }

  /** Whether a classified line is a directive for `k`. */
  predicate Sets(l: Line, k: Key) {
    l.Directive? && l.key == k
  }

  /** A line that does not set `k` leaves that field alone. */
  lemma ApplyOther(cfg: Config, l: Line, k: Key)
    requires !Sets(l, k)
    ensures Field(ApplyLine(cfg, l), k) == Field(cfg, k)
  {
  }

  /** A repeated directive overwrites: the field holds the value of the last line that sets it. */
  lemma {:induction false} LastDirectiveWins(lines: seq<string>, i: nat, k: Key, v: string)
    requires i < |lines| && ClassifyLine(lines[i]) == Directive(k, v)
    requires forall j :: i < j < |lines| ==> !Sets(ClassifyLine(lines[j]), k)
    ensures Field(ParseLines(lines), k) == Some(v)
    decreases |lines|
  {
    var init := lines[..|lines| - 1];
    var last := ClassifyLine(lines[|lines| - 1]);
    if i < |lines| - 1 {
      assert init[i] == lines[i];
      forall j | i < j < |init| ensures !Sets(ClassifyLine(init[j]), k) {
        assert init[j] == lines[j];
      }
      LastDirectiveWins(init, i, k, v);
      ApplyOther(ParseLines(init), last, k);
    }
  }

  /** A field no line sets stays unset. */
  lemma {:induction false} NoDirective(lines: seq<string>, k: Key)
    requires forall j :: 0 <= j < |lines| ==> !Sets(ClassifyLine(lines[j]), k)
    ensures Field(ParseLines(lines), k) == None
    decreases |lines|
  {
    if lines != [] {
      var init := lines[..|lines| - 1];
      forall j | 0 <= j < |init| ensures !Sets(ClassifyLine(init[j]), k) {
        assert init[j] == lines[j];
      }
      NoDirective(init, k);
      ApplyOther(ParseLines(init), ClassifyLine(lines[|lines| - 1]), k);
    }
  }

  /** Every entry of the tracklist has a well-formed timestamp and a stripped, non-empty title. */
  lemma ParsedEntriesValid(lines: seq<string>)
    ensures forall e :: e in ParseLines(lines).tracklist ==> EntryValid(e)
  {
    ParsedTracklist(lines);
    TracksValid(lines);
  }

  /** Every track line's entry is valid, so the entries collected from any run of lines are. */
  lemma {:induction false} TracksValid(lines: seq<string>)
    ensures forall e :: e in Tracks(lines) ==> EntryValid(e)
  {
    if lines != [] {
      var raw := lines[|lines| - 1];
      TracksValid(lines[..|lines| - 1]);
      if ClassifyLine(raw).Track? {
        TrackLine(raw);
        MatchEntryValid(Trim(raw));
      }
    }
  }

  /**
    A directive line is read as its key and the stripped rest, wherever further colons occur:
    `split(":", 1)` cuts at the first colon only, so a URL such as `https://...` is kept whole.
   */
  lemma DirectiveValueKept(k: Key, gap: string, value: string)
    requires AllSpace(gap) && IsStripped(value)
    ensures Classify(Prefix(k) + gap + value) == Directive(k, value)
  {
    var p := Prefix(k);
    var line := p + gap + value;
    ConcatAssoc(p, gap, value);
    assert line[..|p|] == p && line[|p|..] == gap + value;
    ClassifyDirective(line, k);
    TrimStartSpaces(gap, value);
    TrimAfterTrimStart(gap + value);
    TrimAfterTrimStart(value);
    TrimStripped(value);
  }
}
