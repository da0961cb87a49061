// The part of normalizeAgentHandoff that does not depend on the files: version,
// operation id, the isolated directory of the operation, and the output limits.
module Layout {
  import opened Wrappers
  import opened Text

  const MAX_FILES := 12
  const MAX_FILE_BYTES := 4 * 1024 * 1024
  const MAX_TOTAL_BYTES := 6 * 1024 * 1024

  datatype Header = Header(
    version: string, operationId: string, runDirectory: string, contextDirectory: string, manifestPath: string,
    output: OutputHeader)

  datatype OutputHeader = OutputHeader(
    version: string, directory: string, filesDirectory: string, manifestPath: string, maxFiles: int,
    maxFileBytes: int, maxTotalBytes: int, requestedGlobs: seq<string>)

  datatype HeaderError = VersionMismatch | OperationIdInvalid | UnsafePath | PathMismatch | LimitMismatch

  // ---- relative paths ----

  function ForwardSlashes(s: string): string {
    seq(|s|, i requires 0 <= i < |s| => if s[i] == '\\' then '/' else s[i])
  }

  predicate IsLetter(c: char) {
    'a' <= c <= 'z' || 'A' <= c <= 'Z'
  }

  // A leading slash, or a drive letter.
  predicate IsAbsolute(s: string) {
    (s != "" && s[0] == '/') || (|s| >= 3 && IsLetter(s[0]) && s[1] == ':' && s[2] == '/')
  }

  function SlashAt(s: string): (i: nat)
    ensures i <= |s| && (i < |s| ==> s[i] == '/') && '/' !in s[..i]
  {
    if s == "" || s[0] == '/' then 0 else
      var i := SlashAt(s[1..]);
      assert s[..i + 1] == [s[0]] + s[1..][..i];
      i + 1
  }

  // split("/").filter(Boolean)
  function Segments(s: string): seq<string>
    decreases |s|
  {
    var i := SlashAt(s);
    var first := if i == 0 then [] else [s[..i]];
    first + if i == |s| then [] else Segments(s[i + 1..])
  }

  function JoinPath(segments: seq<string>): string {
    if segments == [] then ""
    else if |segments| == 1 then segments[0]
    else segments[0] + "/" + JoinPath(segments[1..])
  }

  function ValidateRelativePath(value: string): Option<string> {
    var normalized := ForwardSlashes(Trim(value));
    if normalized == "" || IsAbsolute(normalized) then None
    else
      var segments := Segments(normalized);
      if segments == [] || "." in segments || ".." in segments then None else Some(JoinPath(segments))
  }

  ghost predicate AreSegments(segments: seq<string>) {
    forall i :: 0 <= i < |segments| ==> segments[i] != "" && '/' !in segments[i]
  }

  lemma {:induction false} SegmentsAreSegments(s: string)
    ensures AreSegments(Segments(s))
    decreases |s|
  {
    var i := SlashAt(s);
    if i < |s| {
      SegmentsAreSegments(s[i + 1..]);
    }
  }

  lemma FirstSlash(segment: string, rest: string)
    requires '/' !in segment
    ensures SlashAt(segment) == |segment| && SlashAt(segment + "/" + rest) == |segment|
  {
    var all := segment + "/" + rest;
    assert all[|segment|] == '/' && forall i :: 0 <= i < |segment| ==> all[i] == segment[i];
  }

  // Splitting inverts joining.
  lemma {:induction false} SplitJoin(segments: seq<string>)
    requires AreSegments(segments)
    ensures Segments(JoinPath(segments)) == segments
    decreases |segments|
  {
    hide SlashAt;
    if segments == [] {
      assert Segments("") == [] by { assert SlashAt("") == 0; }
    } else if |segments| == 1 {
      FirstSlash(segments[0], "");
      assert segments[0][..|segments[0]|] == segments[0];
    } else {
      var rest := JoinPath(segments[1..]);
      var all := segments[0] + "/" + rest;
      FirstSlash(segments[0], rest);
      assert all[..|segments[0]|] == segments[0] && all[|segments[0]| + 1..] == rest;
      SplitJoin(segments[1..]);
    }
  }

  // A path is normalised to a joined one exactly when its segments are the joined ones.
  lemma PathsMatchBySegments(value: string, segments: seq<string>)
    requires AreSegments(segments) && segments != [] && "." !in segments && ".." !in segments
    ensures
      var normalized := ForwardSlashes(Trim(value));
      ValidateRelativePath(value) == Some(JoinPath(segments)) <==>
        !IsAbsolute(normalized) && Segments(normalized) == segments
  {
    var normalized := ForwardSlashes(Trim(value));
    hide Trim, ForwardSlashes, IsAbsolute, JoinPath, SlashAt;
    SegmentsAreSegments(normalized);
    SplitJoin(segments);
    SplitJoin(Segments(normalized));
    assert Segments("") == [] by { assert SlashAt("") == 0; }
  }

  // A path is accepted if it is not empty, not absolute, and has segments, none of which
  // leads up or stays; what comes out has those segments and is not absolute by a slash.
  lemma AcceptedPathsStayInside(value: string)
    ensures
      var normalized := ForwardSlashes(Trim(value));
      var segments := Segments(normalized);
      && (ValidateRelativePath(value).Some? <==>
            && normalized != "" && normalized[0] != '/'
            && !(|normalized| > 2 && normalized[1..3] == ":/" && IsLetter(normalized[0]))
            && segments != [] && forall s :: s in segments ==> s != "." && s != "..")
      && (ValidateRelativePath(value).Some? ==>
            var path := ValidateRelativePath(value).value;
            path != "" && path[0] != '/' && Segments(path) == segments)
  {
    hide Trim, ForwardSlashes, Segments;
    var normalized := ForwardSlashes(Trim(value));
    SegmentsAreSegments(normalized);
    if ValidateRelativePath(value).Some? {
      SplitJoin(Segments(normalized));
      var first := Segments(normalized)[0];
      assert first[0] in first;
    }
  }

  // ---- the header ----

  predicate IsIdChar(c: char) {
    IsLetter(c) || '0' <= c <= '9'
  }

  predicate ValidOperationId(id: string) {
    && 8 <= |id| <= 80 && IsIdChar(id[0])
    && forall i :: 1 <= i < |id| ==> IsIdChar(id[i]) || id[i] == '-'
  }

  function RunSegments(id: string): seq<string> {
    [".kimibuilt", "agent-runs", id]
  }

  // Each path of the handoff with the segments it must have.
  function ExactPaths(h: Header): seq<(string, seq<string>)> {
    var run := RunSegments(h.operationId);
    [(h.runDirectory, run), (h.contextDirectory, run + ["input"]),
      (h.manifestPath, run + ["input", "manifest.json"]), (h.output.directory, run + ["output"]),
      (h.output.filesDirectory, run + ["output", "files"]),
      (h.output.manifestPath, run + ["output", "manifest.json"])]
  }

  function CheckPaths(paths: seq<(string, seq<string>)>): Option<HeaderError> {
    if paths == [] then None
    else match ValidateRelativePath(paths[0].0)
      case None => Some(UnsafePath)
      case Some(path) => if path != JoinPath(paths[0].1) then Some(PathMismatch) else CheckPaths(paths[1..])
  }

  function CheckHeader(h: Header): Option<HeaderError> {
    if h.version != "RemoteAgentHandoff/v1" then Some(VersionMismatch)
    else if !ValidOperationId(h.operationId) then Some(OperationIdInvalid)
    else if CheckPaths(ExactPaths(h)).Some? then CheckPaths(ExactPaths(h))
    else if !LimitsMatch(h.output) then Some(LimitMismatch)
    else None
  }

  predicate LimitsMatch(output: OutputHeader) {
    && output.version == "RemoteAgentResultFiles/v1" && output.maxFiles == MAX_FILES
    && output.maxFileBytes == MAX_FILE_BYTES && output.maxTotalBytes == MAX_TOTAL_BYTES
  }

  predicate ValidGlobs(h: Header) {
    forall i :: 0 <= i < |h.output.requestedGlobs| ==> ValidateRelativePath(h.output.requestedGlobs[i]).Some?
  }

  // A relative path that names exactly this file or directory, however it is written.
  ghost predicate Names(value: string, segments: seq<string>) {
    var normalized := ForwardSlashes(Trim(value));
    !IsAbsolute(normalized) && Segments(normalized) == segments
  }

  lemma {:induction false} PathsAreExact(paths: seq<(string, seq<string>)>)
    requires forall i :: 0 <= i < |paths| ==>
      AreSegments(paths[i].1) && paths[i].1 != [] && "." !in paths[i].1 && ".." !in paths[i].1
    ensures CheckPaths(paths).None? <==> forall i :: 0 <= i < |paths| ==> Names(paths[i].0, paths[i].1)
    decreases |paths|
  {
    hide Names, ValidateRelativePath, JoinPath, AreSegments;
    if paths != [] {
      PathIsExact(paths[0].0, paths[0].1);
      PathsAreExact(paths[1..]);
      assert forall i :: 1 <= i < |paths| ==> paths[i] == paths[1..][i - 1];
      assert forall i :: 0 <= i < |paths[1..]| ==> paths[1..][i] == paths[i + 1];
    }
  }

  lemma PathIsExact(value: string, segments: seq<string>)
    requires AreSegments(segments) && segments != [] && "." !in segments && ".." !in segments
    ensures ValidateRelativePath(value) == Some(JoinPath(segments)) <==> Names(value, segments)
  {
    hide ValidateRelativePath;
    PathsMatchBySegments(value, segments);
  }

  lemma {:induction false} PathErrors(paths: seq<(string, seq<string>)>)
    ensures CheckPaths(paths) in {None, Some(UnsafePath), Some(PathMismatch)}
    decreases |paths|
  {
    if paths != [] {
      PathErrors(paths[1..]);
    }
  }

  lemma IdIsASegment(id: string)
    requires ValidOperationId(id)
    ensures '/' !in id && id !in {"", ".", ".."}
  {
  }

  // The header is accepted exactly when it is of the right version, has a well-formed
  // operation id, every path names the isolated place of that operation, and the limits
  // are those of the gateway.
  lemma HeaderIsExact(h: Header)
    ensures CheckHeader(h).None? <==>
      && h.version == "RemoteAgentHandoff/v1" && ValidOperationId(h.operationId) && LimitsMatch(h.output)
      && forall i :: 0 <= i < 6 ==> Names(ExactPaths(h)[i].0, ExactPaths(h)[i].1)
    ensures CheckHeader(h) == Some(VersionMismatch) <==> h.version != "RemoteAgentHandoff/v1"
    ensures CheckHeader(h) == Some(OperationIdInvalid) <==>
      h.version == "RemoteAgentHandoff/v1" && !ValidOperationId(h.operationId)
    ensures CheckHeader(h) == Some(LimitMismatch) <==>
      && h.version == "RemoteAgentHandoff/v1" && ValidOperationId(h.operationId) && !LimitsMatch(h.output)
      && forall i :: 0 <= i < 6 ==> Names(ExactPaths(h)[i].0, ExactPaths(h)[i].1)
  {
    PathErrors(ExactPaths(h));
    hide CheckPaths, Names, LimitsMatch;
    if ValidOperationId(h.operationId) {
      IdIsASegment(h.operationId);
      hide ValidOperationId;
      PathsAreExact(ExactPaths(h));
    }
  }

  // ---- the layout the gateway expects ----

  predicate IsPlain(c: char) {
    IsIdChar(c) || c == '-' || c == '.'
  }

  ghost predicate ArePlain(segments: seq<string>) {
    forall i :: 0 <= i < |segments| ==> segments[i] != "" && forall c :: c in segments[i] ==> IsPlain(c)
  }

  lemma {:induction false} JoinedPlain(segments: seq<string>)
    requires segments != [] && ArePlain(segments)
    ensures JoinPath(segments) != "" && JoinPath(segments)[0] == segments[0][0]
    ensures IsPlain(JoinPath(segments)[|JoinPath(segments)| - 1])
    ensures forall c :: c in JoinPath(segments) ==> IsPlain(c) || c == '/'
  {
    hide IsPlain;
    if |segments| > 1 {
      JoinedPlain(segments[1..]);
    }
  }

  // Such a path is not changed by the normalisation.
  lemma PlainIsNormalized(path: string)
    requires path != "" && IsPlain(path[0]) && IsPlain(path[|path| - 1])
    requires forall i :: 0 <= i < |path| ==> IsPlain(path[i]) || path[i] == '/'
    ensures Trim(path) == path && ForwardSlashes(path) == path && !IsAbsolute(path)
  {
    hide Trim;
    SolidText(path);
  }

  lemma PlainPathNames(segments: seq<string>)
    requires segments != [] && ArePlain(segments)
    ensures Names(JoinPath(segments), segments)
  {
    var path := JoinPath(segments);
    assert segments[0][0] in segments[0] && IsPlain(segments[0][0]);
    JoinedPlain(segments);
    PlainAreSegments(segments);
    hide JoinPath, Trim, ForwardSlashes, IsAbsolute, IsPlain, Segments;
    assert forall i :: 0 <= i < |path| ==> path[i] in path;
    PlainIsNormalized(path);
    SplitJoin(segments);
  }

  lemma PlainAreSegments(segments: seq<string>)
    requires ArePlain(segments)
    ensures AreSegments(segments)
  {
  }

  // The isolated directory of every well-formed operation id is accepted as it stands.
  lemma IsolatedLayoutIsAccepted(id: string, globs: seq<string>)
    requires ValidOperationId(id)
    ensures CheckHeader(IsolatedHeader(id, globs)).None?
  {
    var h := IsolatedHeader(id, globs);
    var run := RunSegments(id);
    HeaderIsExact(h);
    hide Names, CheckHeader, JoinPath;
    PlainPathNames(run);
    PlainPathNames(run + ["input"]);
    PlainPathNames(run + ["input", "manifest.json"]);
    PlainPathNames(run + ["output"]);
    PlainPathNames(run + ["output", "files"]);
    PlainPathNames(run + ["output", "manifest.json"]);
  }

  function IsolatedHeader(id: string, globs: seq<string>): Header {
    var run := RunSegments(id);
    Header(
      "RemoteAgentHandoff/v1", id, JoinPath(run), JoinPath(run + ["input"]),
      JoinPath(run + ["input", "manifest.json"]),
      OutputHeader(
        "RemoteAgentResultFiles/v1", JoinPath(run + ["output"]), JoinPath(run + ["output", "files"]),
        JoinPath(run + ["output", "manifest.json"]), MAX_FILES, MAX_FILE_BYTES, MAX_TOTAL_BYTES, globs))
  }
}
