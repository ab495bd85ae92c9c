/**
 * The clip API (scraper/pcvideoscrapper/scraper/api.py): the table of known
 * components, the choice of a component's installation step, the clip's
 * file name, and what the two endpoints answer before any download starts.
 * Loading a processed-video file is a parameter `load` from file name to
 * its contents.
 */
module ClipApi {
  import opened Wrappers
  import opened Text
  import opened Sequences

  /** The "timestamp" entry of a step. */
  datatype StepTime = StepTime(start: real, end: real)

  /** The keys of a step dictionary the API reads; a missing key is None. */
  datatype ClipStep = ClipStep(component: Option<string>, action: Option<string>, timestamp: Option<StepTime>)

  datatype VideoRecord = VideoRecord(videoId: string, title: string, channelName: string, url: string)

  /** A processed-video file: its "metadata" and, when present, its "assembly_steps". */
  datatype ProcessedVideo = ProcessedVideo(metadata: VideoRecord, assemblySteps: Option<seq<ClipStep>>)

  datatype VideoEntry = VideoEntry(videoId: string, file: string)

  /** VIDEO_MAP: lowercased component to its video and processed file. */
  const VideoMap: map<string, VideoEntry> := map[
    "ram" := VideoEntry("v3J9VtWMEE8", "processed_v3J9VtWMEE8.json"),
    "cpu" := VideoEntry("UTKxMAnFHnw", "processed_UTKxMAnFHnw.json"),
    "gpu" := VideoEntry("d9BWuNHYdbU", "processed_d9BWuNHYdbU.json")]

  /** An HTTP 404 with its detail, or a KeyError on a step without "timestamp" (a server error). */
  datatype ApiError = NotFound(detail: string) | MissingKey(key: string)

  /** What get_video_clip hands to the download and to the file response. */
  datatype ClipRequest = ClipRequest(videoId: string, start: real, end: real, clipFilename: string, downloadName: string)

  /** The VideoInfo response model. */
  datatype VideoInfo = VideoInfo(
    videoId: string, title: string, channel: string, youtubeUrl: string,
    timestampStart: real, timestampEnd: real, component: string, clipUrl: string)

  // ---------------------------------------------------------------------
  // find_component_step
  // ---------------------------------------------------------------------

  function Steps(data: ProcessedVideo): seq<ClipStep> {
    data.assemblySteps.GetOr([])
  }

  /** `step.get("component", "").lower() == component.lower()`. */
  predicate ComponentMatches(s: ClipStep, component: string) {
    Lower(s.component.GetOr("")) == Lower(component)
  }

  /** The first loop's test: the component matches and the action is exactly "insert". */
  predicate InsertMatches(s: ClipStep, component: string) {
    ComponentMatches(s, component) && s.action == Some("insert")
  }

  /**
   * The first step whose component matches and whose action is "insert";
   * failing that the first step whose component matches; failing that None.
   */
  function FindComponentStep(data: ProcessedVideo, component: string): (r: Option<ClipStep>)
    ensures (exists i :: 0 <= i < |Steps(data)| && InsertMatches(Steps(data)[i], component)) ==>
              exists i :: 0 <= i < |Steps(data)| && r == Some(Steps(data)[i])
                          && InsertMatches(Steps(data)[i], component)
                          && forall k :: 0 <= k < i ==> !InsertMatches(Steps(data)[k], component)
    ensures (forall i :: 0 <= i < |Steps(data)| ==> !InsertMatches(Steps(data)[i], component)) && r.Some? ==>
              exists i :: 0 <= i < |Steps(data)| && r == Some(Steps(data)[i])
                          && ComponentMatches(Steps(data)[i], component)
                          && forall k :: 0 <= k < i ==> !ComponentMatches(Steps(data)[k], component)
    ensures r.None? <==> forall i :: 0 <= i < |Steps(data)| ==> !ComponentMatches(Steps(data)[i], component)
  {
    var steps := Steps(data);
    match FirstIndex(steps, s => InsertMatches(s, component))
    case Some(i) => Some(steps[i])
    case None =>
      match FirstIndex(steps, s => ComponentMatches(s, component))
      case Some(j) => Some(steps[j])
      case None => None
  }

  /** A step found for a component names a component, so the dictionary is never empty and `if not step` never fires. */
  lemma FoundStepHasComponent(data: ProcessedVideo, component: string)
    requires Lower(component) in VideoMap
    requires FindComponentStep(data, component).Some?
    ensures FindComponentStep(data, component).value.component.Some?
  {
    assert Lower("") == "";
  }

  /** The choice ignores the case of the requested component. */
  lemma FindComponentStepIgnoresCase(data: ProcessedVideo, component: string)
    ensures FindComponentStep(data, Upper(component)) == FindComponentStep(data, component)
  {
    LowerOfUpper(component);
    var steps := Steps(data);
    FirstIndexCongruent(steps, s => InsertMatches(s, Upper(component)), s => InsertMatches(s, component));
    FirstIndexCongruent(steps, s => ComponentMatches(s, Upper(component)), s => ComponentMatches(s, component));
  }

  // ---------------------------------------------------------------------
  // get_clip_filename
  // ---------------------------------------------------------------------

  function ClipStem(videoId: string, start: real, end: real): string {
    videoId + "_" + IntToString(Trunc(start)) + "_" + IntToString(Trunc(end))
  }

  /** `f"clip_{video_id}_{int(start)}_{int(end)}.mp4"`. */
  function ClipFilename(videoId: string, start: real, end: real): string {
    "clip_" + ClipStem(videoId, start, end) + ".mp4"
  }

  lemma IntToStringNoUnderscore(i: int)
    ensures '_' !in IntToString(i)
  {
  }

  /** The stem splits on "_" into the id's own parts followed by start and end. */
  lemma ClipStemSplit(videoId: string, start: real, end: real)
    ensures Split(ClipStem(videoId, start, end), '_')
            == Split(videoId, '_') + [IntToString(Trunc(start)), IntToString(Trunc(end))]
  {
    var a := IntToString(Trunc(start));
    var b := IntToString(Trunc(end));
    IntToStringNoUnderscore(Trunc(start));
    IntToStringNoUnderscore(Trunc(end));
    SplitConcat(videoId, a, '_');
    SplitNoSeparator(a, '_');
    SplitConcat(videoId + "_" + a, b, '_');
    SplitNoSeparator(b, '_');
  }

  /** Two clips share a file name only when they are of the same video and the same truncated times. */
  lemma ClipFilenameInjective(id1: string, s1: real, e1: real, id2: string, s2: real, e2: real)
    requires ClipFilename(id1, s1, e1) == ClipFilename(id2, s2, e2)
    ensures id1 == id2 && Trunc(s1) == Trunc(s2) && Trunc(e1) == Trunc(e2)
  {
    var m1 := ClipStem(id1, s1, e1);
    var m2 := ClipStem(id2, s2, e2);
    SliceMiddle("clip_", m1, ".mp4");
    SliceMiddle("clip_", m2, ".mp4");
    assert m1 == m2;
    ClipStemSplit(id1, s1, e1);
    ClipStemSplit(id2, s2, e2);
    var p1 := Split(id1, '_');
    var p2 := Split(id2, '_');
    var t1 := [IntToString(Trunc(s1)), IntToString(Trunc(e1))];
    var t2 := [IntToString(Trunc(s2)), IntToString(Trunc(e2))];
    assert p1 + t1 == p2 + t2;
    assert |p1| == |p2|;
    assert p1 == (p1 + t1)[..|p1|];
    assert p2 == (p2 + t2)[..|p2|];
    assert t1 == (p1 + t1)[|p1|..];
    assert t2 == (p2 + t2)[|p2|..];
    JoinSplit(id1, '_');
    JoinSplit(id2, '_');
    IntToStringInjective(Trunc(s1), Trunc(s2));
    IntToStringInjective(Trunc(e1), Trunc(e2));
  }

  /** Times within the same whole second give the same clip name. */
  lemma SameSecondSameClip(videoId: string, s1: real, s2: real, e1: real, e2: real, s: nat, e: nat)
    requires s as real <= s1 < s as real + 1.0 && s as real <= s2 < s as real + 1.0
    requires e as real <= e1 < e as real + 1.0 && e as real <= e2 < e as real + 1.0
    ensures ClipFilename(videoId, s1, e1) == ClipFilename(videoId, s2, e2)
  {
    assert Trunc(s1) == s && Trunc(s2) == s;
    assert Trunc(e1) == e && Trunc(e2) == e;
  }

  // ---------------------------------------------------------------------
  // get_video_clip and get_video_info
  // ---------------------------------------------------------------------

  /** The VIDEO_MAP test on the lowercased component, with the 404 it answers otherwise. */
  function LookupComponent(component: string): (r: Result<VideoEntry, ApiError>)
    ensures r.Ok? <==> Lower(component) in {"ram", "cpu", "gpu"}
    ensures r.Err? ==> r.error == NotFound("Unknown component: " + component)
  {
    if Lower(component) in VideoMap then Ok(VideoMap[Lower(component)])
    else Err(NotFound("Unknown component: " + component))
  }

  /** get_video_clip up to the download: the video, the times and the two file names. */
  function VideoClip(component: string, load: string -> ProcessedVideo): (r: Result<ClipRequest, ApiError>)
    ensures Lower(component) !in VideoMap ==> r == Err(NotFound("Unknown component: " + component))
    ensures Lower(component) in VideoMap ==>
              var data := load(VideoMap[Lower(component)].file);
              var step := FindComponentStep(data, component);
              && (step.None? ==> r == Err(NotFound("No installation step found for " + component)))
              && (step.Some? && step.value.timestamp.None? ==> r == Err(MissingKey("timestamp")))
              && (step.Some? && step.value.timestamp.Some? ==>
                    r.Ok? && r.value.videoId == data.metadata.videoId
                    && r.value.start == step.value.timestamp.value.start
                    && r.value.end == step.value.timestamp.value.end)
    ensures r.Ok? ==> r.value.downloadName == Lower(component) + "_installation.mp4"
    ensures r.Ok? ==> r.value.clipFilename == ClipFilename(r.value.videoId, r.value.start, r.value.end)
  {
    match LookupComponent(component)
    case Err(e) => Err(e)
    case Ok(entry) =>
      var data := load(entry.file);
      match FindComponentStep(data, component)
      case None => Err(NotFound("No installation step found for " + component))
      case Some(step) =>
        match step.timestamp
        case None => Err(MissingKey("timestamp"))
        case Some(t) =>
          var id := data.metadata.videoId;
          Ok(ClipRequest(id, t.start, t.end, ClipFilename(id, t.start, t.end),
                         Lower(component) + "_installation.mp4"))
  }

  /** get_video_info: like get_video_clip, but a missing step reports times 0 and 0 instead of a 404. */
  function GetVideoInfo(component: string, load: string -> ProcessedVideo): (r: Result<VideoInfo, ApiError>)
    ensures Lower(component) !in VideoMap ==> r == Err(NotFound("Unknown component: " + component))
    ensures Lower(component) in VideoMap ==>
              var data := load(VideoMap[Lower(component)].file);
              var step := FindComponentStep(data, component);
              && (step.Some? && step.value.timestamp.None? ==> r == Err(MissingKey("timestamp")))
              && (step.None? ==> r.Ok? && r.value.timestampStart == 0.0 && r.value.timestampEnd == 0.0)
              && (step.Some? && step.value.timestamp.Some? ==>
                    r.Ok? && r.value.timestampStart == step.value.timestamp.value.start
                    && r.value.timestampEnd == step.value.timestamp.value.end)
              && (r.Ok? ==> r.value.videoId == data.metadata.videoId && r.value.title == data.metadata.title
                            && r.value.channel == data.metadata.channelName && r.value.youtubeUrl == data.metadata.url)
    ensures r.Ok? ==> r.value.component == Upper(component)
    ensures r.Ok? ==> r.value.clipUrl == "/get" + Capitalize(component) + "Video"
  {
    match LookupComponent(component)
    case Err(e) => Err(e)
    case Ok(entry) =>
      var data := load(entry.file);
      var m := data.metadata;
      var times :=
        match FindComponentStep(data, component)
        case None => Ok(StepTime(0.0, 0.0))
        case Some(step) =>
          (match step.timestamp
           case None => Err(MissingKey("timestamp"))
           case Some(t) => Ok(t));
      match times
      case Err(e) => Err(e)
      case Ok(t) =>
        Ok(VideoInfo(m.videoId, m.title, m.channelName, m.url, t.start, t.end,
                     Upper(component), "/get" + Capitalize(component) + "Video"))
  }

  /** An unknown component is a 404 from both endpoints, whatever the files hold: nothing is loaded. */
  lemma UnknownComponentIs404(component: string, load1: string -> ProcessedVideo, load2: string -> ProcessedVideo)
    requires Lower(component) !in VideoMap
    ensures VideoClip(component, load1) == VideoClip(component, load2)
            == Err(NotFound("Unknown component: " + component))
    ensures GetVideoInfo(component, load1) == GetVideoInfo(component, load2)
            == Err(NotFound("Unknown component: " + component))
  {
  }

  /** A known component's answer depends only on the one file VIDEO_MAP names for it. */
  lemma OnlyMappedFileIsRead(component: string, load1: string -> ProcessedVideo, load2: string -> ProcessedVideo)
    requires Lower(component) in VideoMap
    requires load1(VideoMap[Lower(component)].file) == load2(VideoMap[Lower(component)].file)
    ensures VideoClip(component, load1) == VideoClip(component, load2)
    ensures GetVideoInfo(component, load1) == GetVideoInfo(component, load2)
  {
  }

  /** get_video_clip succeeds iff the component is known and a step with a timestamp is found for it. */
  lemma VideoClipSucceeds(component: string, load: string -> ProcessedVideo)
    ensures VideoClip(component, load).Ok? <==>
            Lower(component) in VideoMap
            && FindComponentStep(load(VideoMap[Lower(component)].file), component).Some?
            && FindComponentStep(load(VideoMap[Lower(component)].file), component).value.timestamp.Some?
  {
  }

  /** With no step for a known component, the info endpoint still answers, with times 0 and 0. */
  lemma InfoWithoutStepIsZero(component: string, load: string -> ProcessedVideo)
    requires Lower(component) in VideoMap
    requires FindComponentStep(load(VideoMap[Lower(component)].file), component).None?
    ensures VideoClip(component, load) == Err(NotFound("No installation step found for " + component))
    ensures GetVideoInfo(component, load).Ok?
    ensures GetVideoInfo(component, load).value.timestampStart == 0.0
    ensures GetVideoInfo(component, load).value.timestampEnd == 0.0
  {
  }

  /** When a clip is served, the info endpoint reports the same video and the same times. */
  lemma InfoAgreesWithClip(component: string, load: string -> ProcessedVideo)
    requires VideoClip(component, load).Ok?
    ensures GetVideoInfo(component, load).Ok?
    ensures GetVideoInfo(component, load).value.videoId == VideoClip(component, load).value.videoId
    ensures GetVideoInfo(component, load).value.timestampStart == VideoClip(component, load).value.start
    ensures GetVideoInfo(component, load).value.timestampEnd == VideoClip(component, load).value.end
  {
  }

  lemma CapitalizeOfLower(s: string)
    ensures Capitalize(Lower(s)) == Capitalize(s)
  {
    if s != [] {
      assert Lower(s)[1..] == Lower(s[1..]);
      LowerIdempotent(s[1..]);
    }
  }

  /** The info's clip URL is the path of the clip endpoint for the same component. */
  lemma ClipUrlIsEndpoint(component: string)
    requires Lower(component) in VideoMap
    ensures "/get" + Capitalize(component) + "Video" in {"/getRamVideo", "/getCpuVideo", "/getGpuVideo"}
  {
    CapitalizeOfLower(component);
    KeyEndpoint(Lower(component));
  }

  lemma KeyEndpoint(key: string)
    requires key in VideoMap
    ensures "/get" + Capitalize(key) + "Video" in {"/getRamVideo", "/getCpuVideo", "/getGpuVideo"}
  {
    assert key == "ram" || key == "cpu" || key == "gpu";
    if key == "ram" {
      EndpointOf("ram", "Ram");
      assert "/get" + "Ram" + "Video" == "/getRamVideo";
    } else if key == "cpu" {
      EndpointOf("cpu", "Cpu");
      assert "/get" + "Cpu" + "Video" == "/getCpuVideo";
    } else {
      EndpointOf("gpu", "Gpu");
      assert "/get" + "Gpu" + "Video" == "/getGpuVideo";
    }
  }

  lemma EndpointOf(key: string, name: string)
    requires |key| == 3 && |name| == 3
    requires name[0] == UpperChar(key[0]) && name[1..] == Lower(key[1..])
    ensures "/get" + Capitalize(key) + "Video" == "/get" + name + "Video"
  {
  }

  /** The three clip endpoints ask for known components, so they never answer "Unknown component". */
  lemma EndpointsAreKnown(c: string, load: string -> ProcessedVideo)
    requires c == "RAM" || c == "CPU" || c == "GPU"
    ensures Lower(c) in VideoMap
    ensures VideoClip(c, load) != Err(NotFound("Unknown component: " + c))
  {
    if c == "RAM" {
      assert Lower(c) == "ram";
    } else if c == "CPU" {
      assert Lower(c) == "cpu";
    } else {
      assert Lower(c) == "gpu";
    }
    KnownIsNeverUnknown(c, load);
  }

  /** A mapped component never gets the "Unknown component" answer. */
  lemma KnownIsNeverUnknown(c: string, load: string -> ProcessedVideo)
    requires Lower(c) in VideoMap
    ensures VideoClip(c, load) != Err(NotFound("Unknown component: " + c))
  {
    UnknownDetailDiffers(c);
  }

  /** The step-not-found detail is never the unknown-component detail. */
  lemma UnknownDetailDiffers(c: string)
    ensures NotFound("No installation step found for " + c) != NotFound("Unknown component: " + c)
  {
    assert ("No installation step found for " + c)[0] == 'N';
    assert ("Unknown component: " + c)[0] == 'U';
  }
}
