/**
 * VideoMetadataExtractor (scraper/pcvideoscrapper/video_metadata_extractor.py):
 * the YouTube video id of a URL, and the keyword inference of the video
 * type, the skill level and the platform from the title and description.
 * Fetching the metadata (yt-dlp) is not part of this model.
 */
module VideoMetadataInference {
  import opened Wrappers
  import opened Text
  import opened Keywords
  import opened Schemas

  // ---------------------------------------------------------------------
  // extract_video_id
  // ---------------------------------------------------------------------

  const WatchPrefix := "youtube.com/watch?v="
  const ShortPrefix := "youtu.be/"
  const EmbedPrefix := "youtube.com/embed/"
  const WatchQuery := "youtube.com/watch?"

  /** `[^&\n?#]`: a character an id may contain. */
  predicate IsIdChar(c: char) {
    c != '&' && c != '\n' && c != '?' && c != '#'
  }

  /** `([^&\n?#]+)` at `q`: the maximal run of id characters, if non-empty. */
  function IdAt(s: string, q: nat): (r: Option<string>)
    ensures r.Some? ==> q < |s| && IsPrefixAt(r.value, s, q) && r.value != []
    ensures r.Some? ==> forall k :: 0 <= k < |r.value| ==> IsIdChar(r.value[k])
    ensures r.Some? ==> q + |r.value| == |s| || !IsIdChar(s[q + |r.value|])
    ensures r.None? ==> q >= |s| || !IsIdChar(s[q])
  {
    var e := RunEnd(s, q, IsIdChar);
    if q < e then Some(s[q..e]) else None
  }

  /** One alternative of the first pattern: its literal prefix at `i`, then the id. */
  function AltAt(p: string, s: string, i: nat): Option<string> {
    if IsPrefixAt(p, s, i) then IdAt(s, i + |p|) else None
  }

  /** `(?:youtube\.com/watch\?v=|youtu\.be/|youtube\.com/embed/)([^&\n?#]+)` at `i`: the alternatives in order. */
  function MatchDirectAt(s: string, i: nat): Option<string> {
    match AltAt(WatchPrefix, s, i)
    case Some(id) => Some(id)
    case None =>
      match AltAt(ShortPrefix, s, i)
      case Some(id) => Some(id)
      case None => AltAt(EmbedPrefix, s, i)
  }

  /** `.`: any character but a newline. */
  predicate InLine(c: char) {
    c != '\n'
  }

  /** A `v=` at `v` followed by a non-empty id. */
  predicate VAt(s: string, v: nat) {
    IsPrefixAt("v=", s, v) && IdAt(s, v + 2).Some?
  }

  /**
   * `.*v=` from `q`, with the greedy `.*` tried at its longest first: the
   * last position at `j` or below, at or after `q`, holding a `v=` that is
   * followed by an id.
   */
  function LastV(s: string, q: nat, j: nat): (r: Option<nat>)
    ensures r.Some? ==> q <= r.value <= j && VAt(s, r.value)
    ensures r.Some? ==> forall v :: r.value < v <= j ==> !VAt(s, v)
    ensures r.None? ==> forall v :: q <= v <= j ==> !VAt(s, v)
    decreases j
  {
    if j < q then None
    else if VAt(s, j) then Some(j)
    else if j == 0 then None
    else LastV(s, q, j - 1)
  }

  /** `youtube\.com/watch\?.*v=([^&\n?#]+)` at `i`; `.` does not cross a newline. */
  function MatchQueryAt(s: string, i: nat): Option<string> {
    if IsPrefixAt(WatchQuery, s, i) then
      var q := i + |WatchQuery|;
      match LastV(s, q, RunEnd(s, q, InLine))
      case Some(v) => IdAt(s, v + 2)
      case None => None
    else None
  }

  /** extract_video_id: the first pattern's leftmost match, else the second's, else ValueError. */
  function ExtractVideoId(url: string): (r: Result<string, string>)
    ensures r.Ok? ==> r.value != [] && Contains(url, r.value)
    ensures r.Ok? ==> forall k :: 0 <= k < |r.value| ==> IsIdChar(r.value[k])
    ensures r.Err? <==> (forall i :: 0 <= i <= |url| ==> MatchDirectAt(url, i).None? && MatchQueryAt(url, i).None?)
    ensures r.Err? ==> r.error == "Could not extract video ID from URL: " + url
    ensures forall i: nat :: FirstMatchAt(url, MatchDirectAt, i) ==> r == Ok(MatchDirectAt(url, i).value)
    ensures (forall i :: 0 <= i <= |url| ==> MatchDirectAt(url, i).None?) ==>
              forall i: nat :: FirstMatchAt(url, MatchQueryAt, i) ==> r == Ok(MatchQueryAt(url, i).value)
  {
    SearchFindsFirstMatch(url, MatchDirectAt);
    SearchFindsFirstMatch(url, MatchQueryAt);
    match Search(url, MatchDirectAt, 0)
    case Some(m) =>
      IdShape(url, m.0);
      Ok(m.1)
    case None =>
      match Search(url, MatchQueryAt, 0)
      case Some(m) =>
        QueryShape(url, m.0);
        Ok(m.1)
      case None => Err("Could not extract video ID from URL: " + url)
  }

  /** What every extracted id is: a non-empty run of id characters occurring in the text. */
  predicate IdShaped(s: string, id: string) {
    id != [] && Contains(s, id) && forall k :: 0 <= k < |id| ==> IsIdChar(id[k])
  }

  lemma IdAtShape(s: string, q: nat)
    requires IdAt(s, q).Some?
    ensures IdShaped(s, IdAt(s, q).value)
  {
    ContainsAt(s, IdAt(s, q).value, q);
  }

  lemma IdShape(s: string, i: nat)
    requires MatchDirectAt(s, i).Some?
    ensures IdShaped(s, MatchDirectAt(s, i).value)
  {
    if AltAt(WatchPrefix, s, i).Some? {
      IdAtShape(s, i + |WatchPrefix|);
    } else if AltAt(ShortPrefix, s, i).Some? {
      IdAtShape(s, i + |ShortPrefix|);
    } else {
      IdAtShape(s, i + |EmbedPrefix|);
    }
  }

  lemma QueryShape(s: string, i: nat)
    requires MatchQueryAt(s, i).Some?
    ensures IdShaped(s, MatchQueryAt(s, i).value)
  {
    var q := i + |WatchQuery|;
    var r := LastV(s, q, RunEnd(s, q, InLine));
    assert r.Some? && MatchQueryAt(s, i) == IdAt(s, r.value + 2);
    IdAtShape(s, r.value + 2);
  }

  /** A text starting with anything but `y` matches none of the literal prefixes. */
  lemma NoMatchWithoutY(s: string, i: nat)
    requires i < |s| && s[i] != 'y'
    ensures MatchDirectAt(s, i).None? && MatchQueryAt(s, i).None?
  {
    if IsPrefixAt(WatchPrefix, s, i) { assert false; }
    if IsPrefixAt(ShortPrefix, s, i) { assert false; }
    if IsPrefixAt(EmbedPrefix, s, i) { assert false; }
    if IsPrefixAt(WatchQuery, s, i) { assert false; }
  }

  /** The three literal prefixes of the first pattern cannot match at the same place. */
  lemma PrefixesDisjoint(s: string, i: nat)
    ensures !(IsPrefixAt(WatchPrefix, s, i) && IsPrefixAt(ShortPrefix, s, i))
    ensures !(IsPrefixAt(WatchPrefix, s, i) && IsPrefixAt(EmbedPrefix, s, i))
    ensures !(IsPrefixAt(ShortPrefix, s, i) && IsPrefixAt(EmbedPrefix, s, i))
  {
    PrefixAtChar(WatchPrefix, s, i, 5);
    PrefixAtChar(ShortPrefix, s, i, 5);
    PrefixAtChar(EmbedPrefix, s, i, 5);
    PrefixAtChar(WatchPrefix, s, i, 12);
    PrefixAtChar(EmbedPrefix, s, i, 12);
  }

  /**
   * A URL whose scheme and host part has no `y`, followed by one of the
   * three prefixes and an id that ends the URL or is ended by `&`, `?`, `#`
   * or a newline, yields exactly that id.
   */
  lemma DirectIdExtracted(a: string, p: string, id: string, b: string)
    requires p == WatchPrefix || p == ShortPrefix || p == EmbedPrefix
    requires 'y' !in a
    requires id != [] && forall k :: 0 <= k < |id| ==> IsIdChar(id[k])
    requires b == [] || !IsIdChar(b[0])
    ensures ExtractVideoId(a + p + id + b) == Ok(id)
  {
    var s := a + p + id + b;
    IdAfterPrefix(a, p, id, b);
    DirectAtPrefix(s, |a|, p);
    NoDirectMatchBefore(a, s);
    DirectMatchExtracted(s, |a|);
  }

  /** Where one of the three prefixes sits, the first pattern's match is the id after it. */
  lemma DirectAtPrefix(s: string, i: nat, p: string)
    requires p == WatchPrefix || p == ShortPrefix || p == EmbedPrefix
    requires IsPrefixAt(p, s, i)
    ensures MatchDirectAt(s, i) == IdAt(s, i + |p|)
  {
    PrefixesDisjoint(s, i);
  }

  /** The leftmost match of the first pattern is the extracted id. */
  lemma DirectMatchExtracted(s: string, i: nat)
    requires i <= |s| && MatchDirectAt(s, i).Some?
    requires forall j :: 0 <= j < i ==> MatchDirectAt(s, j).None?
    ensures ExtractVideoId(s) == Ok(MatchDirectAt(s, i).value)
  {
    var r := Search(s, MatchDirectAt, 0);
    assert r.Some? && r.value.0 == i;
  }

  /** When the first pattern matches nowhere, the leftmost match of the second is the extracted id. */
  lemma QueryMatchExtracted(s: string, k: nat)
    requires forall i :: 0 <= i <= |s| ==> MatchDirectAt(s, i).None?
    requires k <= |s| && MatchQueryAt(s, k).Some?
    requires forall j :: 0 <= j < k ==> MatchQueryAt(s, j).None?
    ensures ExtractVideoId(s) == Ok(MatchQueryAt(s, k).value)
  {
    var r := Search(s, MatchQueryAt, 0);
    assert r.Some? && r.value.0 == k;
  }

  /** In `a + p + id + b` the prefix `p` sits at `|a|` and the id run after it is exactly `id`. */
  lemma IdAfterPrefix(a: string, p: string, id: string, b: string)
    requires id != [] && forall k :: 0 <= k < |id| ==> IsIdChar(id[k])
    requires b == [] || !IsIdChar(b[0])
    ensures IsPrefix(a, a + p + id + b) && IsPrefixAt(p, a + p + id + b, |a|)
    ensures IdAt(a + p + id + b, |a| + |p|) == Some(id)
  {
    var s := a + p + id + b;
    var q := |a| + |p|;
    AppendAssoc(a, p, id);
    assert s[..|a|] == a;
    SliceMiddle(a, p, id + b);
    SliceMiddle(a + p, id, b);
    assert s[q..q + |id|] == id;
    forall k | q <= k < q + |id|
      ensures IsIdChar(s[k])
    {
      assert s[k] == id[k - q];
    }
    if b != [] {
      assert s[q + |id|] == b[0];
    }
    assert RunEnd(s, q, IsIdChar) == q + |id|;
  }

  /** Where the text is still inside a `y`-free `a`, no direct pattern starts. */
  lemma NoDirectMatchBefore(a: string, s: string)
    requires 'y' !in a && IsPrefix(a, s)
    ensures forall j :: 0 <= j < |a| ==> MatchDirectAt(s, j).None?
  {
    forall j | 0 <= j < |a|
      ensures MatchDirectAt(s, j).None?
    {
      assert s[j] == a[j];
      NoMatchWithoutY(s, j);
    }
  }

  /** A URL in which neither pattern matches anywhere raises the error. */
  lemma NoYoutubeNoId(url: string)
    requires 'y' !in url
    ensures ExtractVideoId(url).Err?
  {
    forall i | 0 <= i <= |url|
      ensures MatchDirectAt(url, i).None? && MatchQueryAt(url, i).None?
    {
      if i < |url| {
        NoMatchWithoutY(url, i);
      }
    }
  }

  // ---------------------------------------------------------------------
  // infer_video_type, infer_skill_level, infer_platform
  // ---------------------------------------------------------------------

  /** `f"{title.lower()} {description.lower() if description else ''}"`. */
  function Combined(title: string, description: Option<string>): string {
    Lower(title) + " " + match description
                         case Some(d) => if d != "" then Lower(d) else ""
                         case None => ""
  }

  const VideoTypeKeywords: seq<(VideoType, seq<string>)> := [
    (FullBuild, ["full build", "complete build", "pc build guide", "building a pc"]),
    (CpuInstall, ["cpu install", "installing cpu", "processor install"]),
    (CoolerInstall, ["cooler install", "installing cooler", "cpu cooler"]),
    (RamInstall, ["ram install", "installing ram", "memory install"]),
    (GpuInstall, ["gpu install", "graphics card", "installing gpu"]),
    (CableManagement, ["cable management", "cable routing", "cables"])
  ]

  const SkillKeywords: seq<(SkillLevel, seq<string>)> := [
    (Beginner, ["beginner", "first time", "guide for beginners", "easy"]),
    (Advanced, ["advanced", "expert", "professional", "custom loop"])
  ]

  const PlatformKeywords: seq<(Option<Platform>, seq<string>)> := [
    (Some(AM5), ["am5", "ryzen 7000", "ryzen 9000"]),
    (Some(AM4), ["am4", "ryzen 5000", "ryzen 3000"]),
    (Some(LGA1700), ["lga1700", "12th gen", "13th gen", "14th gen"]),
    (Some(LGA1200), ["lga1200", "10th gen", "11th gen"])
  ]

  /** The type of the first keyword group found; FullBuild when none is. */
  function InferVideoType(title: string, description: Option<string>): (t: VideoType)
    ensures forall i: nat :: FirstGroup(VideoTypeKeywords, Combined(title, description), i) ==> t == VideoTypeKeywords[i].0
    ensures NoGroup(VideoTypeKeywords, Combined(title, description)) ==> t == FullBuild
  {
    Classify(VideoTypeKeywords, FullBuild, Combined(title, description))
  }

  /** Beginner words first, then advanced words; Intermediate when neither occurs. */
  function InferSkillLevel(title: string, description: Option<string>): (l: SkillLevel)
    ensures AnyIn(SkillKeywords[0].1, Combined(title, description)) ==> l == Beginner
    ensures !AnyIn(SkillKeywords[0].1, Combined(title, description)) && AnyIn(SkillKeywords[1].1, Combined(title, description))
            ==> l == Advanced
    ensures !AnyIn(SkillKeywords[0].1, Combined(title, description)) && !AnyIn(SkillKeywords[1].1, Combined(title, description))
            ==> l == Intermediate
  {
    var text := Combined(title, description);
    TwoGroups(SkillKeywords, text);
    Classify(SkillKeywords, Intermediate, text)
  }

  /** In a table of two groups, the second group is first when the first has no word in the text. */
  lemma TwoGroups<T>(table: seq<(T, seq<string>)>, text: string)
    requires |table| == 2
    ensures AnyIn(table[0].1, text) ==> FirstGroup(table, text, 0)
    ensures !AnyIn(table[0].1, text) && AnyIn(table[1].1, text) ==> FirstGroup(table, text, 1)
  {
  }

  /** AM5, then AM4, then LGA1700, then LGA1200; None when no keyword occurs. */
  function InferPlatform(title: string, description: Option<string>): (p: Option<Platform>)
    ensures forall i: nat :: FirstGroup(PlatformKeywords, Combined(title, description), i) ==> p == PlatformKeywords[i].0
    ensures NoGroup(PlatformKeywords, Combined(title, description)) <==> p.None?
  {
    var text := Combined(title, description);
    SomeGroupIsFirst(PlatformKeywords, text);
    Classify(PlatformKeywords, None, text)
  }

  /** When some group has a word in the text, one group is the first. */
  lemma SomeGroupIsFirst<T>(table: seq<(T, seq<string>)>, text: string)
    ensures !NoGroup(table, text) ==> FirstGroup(table, text, FirstMatch(table, text, 0).value)
  {
  }

  /** A missing description reads as the empty one. */
  lemma MissingDescriptionIsEmpty(title: string)
    ensures InferVideoType(title, None) == InferVideoType(title, Some(""))
    ensures InferSkillLevel(title, None) == InferSkillLevel(title, Some(""))
    ensures InferPlatform(title, None) == InferPlatform(title, Some(""))
  {
  }

  /** Inference ignores the case of the title and the description. */
  lemma InferenceIgnoresCase(title: string, description: string)
    ensures Combined(Upper(title), Some(Upper(description))) == Combined(title, Some(description))
    ensures InferVideoType(Upper(title), Some(Upper(description))) == InferVideoType(title, Some(description))
    ensures InferSkillLevel(Upper(title), Some(Upper(description))) == InferSkillLevel(title, Some(description))
    ensures InferPlatform(Upper(title), Some(Upper(description))) == InferPlatform(title, Some(description))
  {
    LowerOfUpper(title);
    LowerOfUpper(description);
  }

  /** An AM5 keyword decides the platform even when keywords of the other platforms occur. */
  lemma Am5Wins(title: string, description: Option<string>, k: nat)
    requires k < |PlatformKeywords[0].1| && Contains(Combined(title, description), PlatformKeywords[0].1[k])
    ensures InferPlatform(title, description) == Some(AM5)
  {
    FirstGroupWins(PlatformKeywords, None, Combined(title, description), k);
  }

  /** A full-build keyword decides the type, whatever component keywords occur. */
  lemma FullBuildWins(title: string, description: Option<string>, k: nat)
    requires k < |VideoTypeKeywords[0].1| && Contains(Combined(title, description), VideoTypeKeywords[0].1[k])
    ensures InferVideoType(title, description) == FullBuild
  {
    FirstGroupWins(VideoTypeKeywords, FullBuild, Combined(title, description), k);
  }

  // ---------------------------------------------------------------------
  // validate_video_content
  // ---------------------------------------------------------------------

  const ExcludeKeywords: seq<string> := ["unboxing only", "reaction video", "roast", "fails compilation", "worst builds ever"]

  const PcRelated: seq<string> := [
    "pc", "computer", "gaming rig", "build",
    "cpu", "gpu", "motherboard", "ram", "graphics",
    "components", "parts", "install", "setup",
    "assembly", "tutorial", "guide", "how to"
  ]

  /** The lowercased title and description `(description or "")`. */
  function ContentText(metadata: VideoMetadata): string {
    Lower(metadata.title) + " " + Lower(metadata.description.GetOr(""))
  }

  /** Accept a video iff no exclude keyword occurs and some PC keyword does. */
  function ValidateVideoContent(metadata: VideoMetadata): (ok: bool)
    ensures ok <==> !AnyIn(ExcludeKeywords, ContentText(metadata)) && AnyIn(PcRelated, ContentText(metadata))
  {
    var combined := ContentText(metadata);
    if AnyIn(ExcludeKeywords, combined) then false
    else if AnyIn(PcRelated, combined) then true
    else false
  }

  /** An exclude keyword rejects the video even when PC keywords occur. */
  lemma ExcludeWins(metadata: VideoMetadata, k: nat)
    requires k < |ExcludeKeywords| && Contains(ContentText(metadata), ExcludeKeywords[k])
    ensures !ValidateVideoContent(metadata)
  {
  }

  /** The validator reads the description the same way as the inference functions. */
  lemma ContentTextIsCombined(metadata: VideoMetadata)
    ensures ContentText(metadata) == Combined(metadata.title, metadata.description)
  {
  }
}
