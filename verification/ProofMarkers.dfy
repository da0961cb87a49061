// The completion markers of a remote CLI job: parseRemoteProof, readMarkerValues and
// buildProofOutput.
module ProofMarkers {
  import opened Text

  const REQUIRED := ["WHAT_CHANGED", "VERIFY_COMMANDS", "VERIFY_RESULTS", "PUBLIC_URL", "BLOCKER"]

  const OPTIONAL := [
    "REMOTE_AGENT_RESULT", "REMOTE_CLI_SESSION_ID", "WORKSPACE", "GIT_REPO", "GIT_BRANCH", "GIT_BASE_COMMIT",
    "GIT_COMMIT", "CHANGED_FILES", "DEPLOYMENT", "PUBLIC_HOST", "UI_CHECK_REPORT", "UI_SCREENSHOTS"]

  // Where ^ matches in a multiline pattern: after any of JavaScript's line terminators.
  predicate Terminates(c: char) {
    c == '\n' || c == '\r' || c == '\U{2028}' || c == '\U{2029}'
  }

  // [^\r\n]* takes everything up to here: the two Unicode terminators do not end it.
  function ValueEnd(s: string): (i: nat)
    ensures i <= |s| && (i < |s| ==> s[i] == '\n' || s[i] == '\r')
    ensures forall j :: 0 <= j < i ==> s[j] != '\n' && s[j] != '\r'
  {
    if s == "" || s[0] == '\n' || s[0] == '\r' then 0 else 1 + ValueEnd(s[1..])
  }

  predicate MarkerAt(s: string, marker: string) {
    marker + "=" <= s
  }

  predicate IsPlaceholder(value: string) {
    value != "" && value[0] == '<' && value[|value| - 1] == '>'
  }

  function Keep(raw: string): seq<string> {
    if Trim(raw) != "" && !IsPlaceholder(Trim(raw)) then [Trim(raw)] else []
  }

  // The values of a marker in the rest of a text; atStart: the character before it, if
  // any, is a line terminator.
  function Values(s: string, atStart: bool, marker: string): seq<string>
    decreases |s|
  {
    if s == "" then []
    else if atStart && MarkerAt(s, marker) then
      var rest := s[|marker| + 1..];
      Keep(rest[..ValueEnd(rest)]) + Values(rest[ValueEnd(rest)..], false, marker)
    else Values(s[1..], Terminates(s[0]), marker)
  }

  // readMarkerValues: the loop over pattern.exec with its lastIndex.
  method ReadMarkerValues(text: string, marker: string) returns (values: seq<string>)
    ensures values == Values(text, true, marker)
  {
    hide Values, Keep, ValueEnd;
    values := [];
    var lastIndex, atStart := 0, true;
    assert text[0..] == text;
    while lastIndex < |text|
      invariant lastIndex <= |text|
      invariant values + Values(text[lastIndex..], atStart, marker) == Values(text, true, marker)
      decreases |text| - lastIndex
    {
      var rest := text[lastIndex..];
      ReadOn(rest, atStart, marker);
      if atStart && MarkerAt(rest, marker) {
        var raw := rest[|marker| + 1..];
        assert raw[ValueEnd(raw)..] == text[lastIndex + |marker| + 1 + ValueEnd(raw)..];
        values := values + Keep(raw[..ValueEnd(raw)]);
        lastIndex, atStart := lastIndex + |marker| + 1 + ValueEnd(raw), false;
      } else {
        assert rest[1..] == text[lastIndex + 1..];
        atStart := Terminates(text[lastIndex]);
        lastIndex := lastIndex + 1;
      }
    }
    assert text[lastIndex..] == "";
    NothingLeft(atStart, marker);
  }

  lemma ReadOn(s: string, atStart: bool, marker: string)
    requires s != ""
    ensures Values(s, atStart, marker) ==
      if atStart && MarkerAt(s, marker) then
        var rest := s[|marker| + 1..];
        Keep(rest[..ValueEnd(rest)]) + Values(rest[ValueEnd(rest)..], false, marker)
      else Values(s[1..], Terminates(s[0]), marker)
  {
  }

  lemma NothingLeft(atStart: bool, marker: string)
    ensures Values("", atStart, marker) == []
  {
  }

  // ---- what a value looks like ----

  predicate SingleLine(s: string) {
    forall i :: 0 <= i < |s| ==> s[i] != '\n' && s[i] != '\r'
  }

  // Trimmed, not empty, on one line and not a placeholder.
  predicate IsValue(v: string) {
    v != "" && Trim(v) == v && SingleLine(v) && !IsPlaceholder(v)
  }

  // Only characters of the text, in particular only its line terminators.
  predicate Among(s: string, text: string) {
    forall i :: 0 <= i < |s| ==> s[i] in text
  }

  lemma {:induction false} ValuesAreClean(s: string, atStart: bool, marker: string)
    ensures forall v :: v in Values(s, atStart, marker) ==> IsValue(v) && Among(v, s)
    decreases |s|
  {
    hide Trim;
    if s == "" {
    } else if atStart && MarkerAt(s, marker) {
      var rest := s[|marker| + 1..];
      var raw := rest[..ValueEnd(rest)];
      TrimIsInside(raw);
      ValuesAreClean(rest[ValueEnd(rest)..], false, marker);
    } else {
      ValuesAreClean(s[1..], Terminates(s[0]), marker);
    }
  }

  lemma TrimIsInside(s: string)
    ensures Among(Trim(s), s) && Trim(Trim(s)) == Trim(s)
    ensures SingleLine(s) ==> SingleLine(Trim(s))
  {
    hide TrimStart, TrimEnd;
    TrimIdempotent(s);
    var t := TrimStart(s);
    var r := TrimEnd(t);
    assert forall i :: 0 <= i < |r| ==> r[i] == t[i];
    assert forall i :: 0 <= i < |t| ==> t[i] == s[|s| - |t| + i];
  }

  // ---- printing ----

  type Markers = map<string, seq<string>>

  function Get(markers: Markers, marker: string): seq<string> {
    if marker in markers then markers[marker] else []
  }

  function LinesOf(marker: string, values: seq<string>): seq<string> {
    if values == [] then [] else [marker + "=" + values[0]] + LinesOf(marker, values[1..])
  }

  function AllLines(order: seq<string>, markers: Markers): seq<string> {
    if order == [] then [] else LinesOf(order[0], Get(markers, order[0])) + AllLines(order[1..], markers)
  }

  function JoinLines(lines: seq<string>): string {
    if lines == [] then "" else if |lines| == 1 then lines[0] else lines[0] + "\n" + JoinLines(lines[1..])
  }

  // parseRemoteProof, without the final text
  datatype Proof = Proof(complete: bool, missing: seq<string>, markers: Markers)

  function Missing(required: seq<string>, markers: Markers): seq<string> {
    if required == [] then []
    else (if Get(markers, required[0]) == [] then [required[0]] else []) + Missing(required[1..], markers)
  }

  function ParsedMarkers(text: string): Markers {
    map marker | marker in REQUIRED + OPTIONAL && Values(text, true, marker) != [] :: Values(text, true, marker)
  }

  function ParseRemoteProof(text: string): Proof {
    var markers := ParsedMarkers(text);
    Proof(Missing(REQUIRED, markers) == [], Missing(REQUIRED, markers), markers)
  }

  // A marker is missing if and only if it is a required one without a value; without a
  // missing one the proof is complete; and every marker found has all its values.
  lemma ProofTells(text: string)
    ensures
      var proof := ParseRemoteProof(text);
      && (forall m :: m in proof.missing <==> m in REQUIRED && Values(text, true, m) == [])
      && (proof.complete <==> forall m :: m in REQUIRED ==> Values(text, true, m) != [])
      && (forall m :: m in proof.markers <==> (m in REQUIRED || m in OPTIONAL) && Values(text, true, m) != [])
      && (forall m :: m in proof.markers ==> proof.markers[m] == Values(text, true, m))
  {
    hide Values, Missing;
    var markers := ParsedMarkers(text);
    forall m | m in REQUIRED || m in OPTIONAL ensures Get(markers, m) == Values(text, true, m) {
      assert m in REQUIRED + OPTIONAL;
    }
    MissingIsExact(REQUIRED, markers);
    var missing := Missing(REQUIRED, markers);
    if missing != [] {
      assert missing[0] in missing;
    }
  }

  lemma {:induction false} MissingIsExact(required: seq<string>, markers: Markers)
    ensures forall m :: m in Missing(required, markers) <==> m in required && Get(markers, m) == []
  {
    if required != [] {
      MissingIsExact(required[1..], markers);
      assert required == [required[0]] + required[1..];
    }
  }

  // A line has a value if it begins with the marker and an equals sign, and what follows
  // is, trimmed, neither empty nor in angle brackets.
  lemma OneLineRead(line: string, marker: string)
    requires forall i :: 0 <= i < |line| ==> line[i] !in "\n\r\U{2028}\U{2029}"
    ensures Values(line, true, marker) ==
      if |line| <= |marker| || line[..|marker| + 1] != marker + "=" then []
      else
        var value := Trim(line[|marker| + 1..]);
        if value == "" || (value[0] == '<' && value[|value| - 1] == '>') then [] else [value]
  {
    hide Trim;
    if MarkerAt(line, marker) {
      var rest := line[|marker| + 1..];
      assert ValueEnd(rest) == |rest| && rest[..|rest|] == rest && rest[|rest|..] == "";
      assert Values("", false, marker) == [];
    } else if line != "" {
      assert line[1..] + "" == line[1..];
      NothingStartsInside(line[1..], "", marker);
      assert !Terminates(line[0]);
    }
  }

  function BuildProofOutput(proof: Proof): string {
    JoinLines(AllLines(OPTIONAL + REQUIRED, proof.markers))
  }

  // ---- parsing what was printed ----

  predicate IsName(marker: string) {
    marker != "" && forall i :: 0 <= i < |marker| ==> 'A' <= marker[i] <= 'Z' || marker[i] == '_'
  }

  lemma ValueEndBeforeBreak(a: string, b: string)
    ensures ValueEnd(a + "\n" + b) == ValueEnd(a)
  {
    var all := a + "\n" + b;
    assert all[|a|] == '\n' && forall i :: 0 <= i < |a| ==> all[i] == a[i];
  }

  lemma MarkerBeforeBreak(a: string, b: string, marker: string)
    requires IsName(marker)
    ensures MarkerAt(a + "\n" + b, marker) <==> MarkerAt(a, marker)
  {
    var all, prefix := a + "\n" + b, marker + "=";
    assert all[|a|] == '\n' && forall i :: 0 <= i < |prefix| ==> prefix[i] != '\n';
    if MarkerAt(all, marker) {
      assert forall i :: 0 <= i < |prefix| ==> prefix[i] == all[i];
      assert all[..|prefix|] == a[..|prefix|];
    }
    if MarkerAt(a, marker) {
      assert all[..|prefix|] == a[..|prefix|] == prefix;
    }
  }

  // Two texts with a newline between them are read one after the other.
  lemma {:induction false} ReadingSplitsAtBreaks(a: string, b: string, atStart: bool, marker: string)
    requires IsName(marker)
    ensures Values(a + "\n" + b, atStart, marker) == Values(a, atStart, marker) + Values(b, true, marker)
    decreases |a|
  {
    hide Keep;
    var all := a + "\n" + b;
    MarkerBeforeBreak(a, b, marker);
    if a == "" {
      assert all[1..] == b;
    } else if atStart && MarkerAt(a, marker) {
      var rest := a[|marker| + 1..];
      assert all[|marker| + 1..] == rest + "\n" + b;
      ValueEndBeforeBreak(rest, b);
      var k := ValueEnd(rest);
      assert (rest + "\n" + b)[..k] == rest[..k];
      assert (rest + "\n" + b)[k..] == rest[k..] + "\n" + b;
      ReadingSplitsAtBreaks(rest[k..], b, false, marker);
    } else {
      assert all[1..] == a[1..] + "\n" + b && all[0] == a[0];
      ReadingSplitsAtBreaks(a[1..], b, Terminates(a[0]), marker);
    }
  }

  lemma {:induction false} NothingStartsInside(w: string, v: string, marker: string)
    requires forall i :: 0 <= i < |w| ==> !Terminates(w[i])
    ensures Values(w + v, false, marker) == Values(v, false, marker)
  {
    if w == "" {
      assert w + v == v;
    } else {
      assert (w + v)[1..] == w[1..] + v;
      NothingStartsInside(w[1..], v, marker);
    }
  }

  // A printed line gives its own marker its value back, and another marker only what
  // the value hides behind a Unicode line terminator.
  lemma LineReads(k: string, v: string, marker: string)
    requires IsName(k) && IsName(marker) && IsValue(v)
    ensures Values(k + "=" + v, true, marker) == if k == marker then [v] else Values(v, false, marker)
  {
    hide Trim;
    var line := k + "=" + v;
    if k == marker {
      assert line[..|k| + 1] == marker + "=" && line[|k| + 1..] == v;
      assert ValueEnd(v) == |v| && v[..|v|] == v && v[|v|..] == "";
    } else {
      OtherMarker(k, v, marker);
      var w := (k + "=")[1..];
      assert line[1..] == w + v && line[0] == k[0];
      NothingStartsInside(w, v, marker);
    }
  }

  lemma OtherMarker(k: string, v: string, marker: string)
    requires IsName(k) && IsName(marker) && k != marker
    ensures !MarkerAt(k + "=" + v, marker)
  {
    var line, prefix := k + "=" + v, marker + "=";
    assert line[|k|] == '=' && line[..|k|] == k;
    assert prefix[|marker|] == '=' && prefix[..|marker|] == marker;
    assert forall i :: 0 <= i < |k| ==> line[i] == k[i];
    assert forall i :: 0 <= i < |marker| ==> prefix[i] == marker[i];
    assert |k| == |marker| ==> line[..|k|] == k && prefix[..|k|] == marker;
  }

  function ReadLines(lines: seq<string>, marker: string): seq<string> {
    if lines == [] then [] else Values(lines[0], true, marker) + ReadLines(lines[1..], marker)
  }

  lemma {:induction false} JoinedLinesRead(lines: seq<string>, marker: string)
    requires IsName(marker)
    ensures Values(JoinLines(lines), true, marker) == ReadLines(lines, marker)
  {
    if |lines| == 1 {
      assert ReadLines(lines[1..], marker) == [];
    } else if |lines| > 1 {
      ReadingSplitsAtBreaks(lines[0], JoinLines(lines[1..]), true, marker);
      JoinedLinesRead(lines[1..], marker);
    }
  }

  lemma {:induction false} ReadAppend(a: seq<string>, b: seq<string>, marker: string)
    ensures ReadLines(a + b, marker) == ReadLines(a, marker) + ReadLines(b, marker)
  {
    hide Values;
    if a == [] {
      assert a + b == b;
    } else {
      assert (a + b)[1..] == a[1..] + b;
      ReadAppend(a[1..], b, marker);
    }
  }

  // Some value contains a line of the marker after a Unicode line terminator.
  predicate Hides(values: seq<string>, marker: string) {
    exists i :: 0 <= i < |values| && Values(values[i], false, marker) != []
  }

  lemma {:induction false} OwnLines(marker: string, values: seq<string>)
    requires IsName(marker) && forall v :: v in values ==> IsValue(v)
    ensures ReadLines(LinesOf(marker, values), marker) == values
  {
    hide Values;
    if values != [] {
      LineReads(marker, values[0], marker);
      OwnLines(marker, values[1..]);
      assert LinesOf(marker, values)[1..] == LinesOf(marker, values[1..]);
    }
  }

  lemma {:induction false} ForeignLines(k: string, values: seq<string>, marker: string)
    requires IsName(k) && IsName(marker) && k != marker && forall v :: v in values ==> IsValue(v)
    ensures ReadLines(LinesOf(k, values), marker) == [] <==> !Hides(values, marker)
  {
    hide Values;
    if values != [] {
      LineReads(k, values[0], marker);
      ForeignLines(k, values[1..], marker);
      assert LinesOf(k, values)[1..] == LinesOf(k, values[1..]);
      assert Hides(values, marker) <==> Values(values[0], false, marker) != [] || Hides(values[1..], marker) by {
        assert forall i :: 1 <= i < |values| ==> values[i] == values[1..][i - 1];
      }
    }
  }

  // Some other marker of the list hides a line of this one.
  predicate HiddenIn(order: seq<string>, markers: Markers, marker: string) {
    && order != []
    && ((order[0] != marker && Hides(Get(markers, order[0]), marker)) || HiddenIn(order[1..], markers, marker))
  }

  ghost predicate CleanMarkers(markers: Markers) {
    forall m, v :: m in markers && v in markers[m] ==> IsValue(v)
  }

  ghost predicate Names(order: seq<string>) {
    && (forall i :: 0 <= i < |order| ==> IsName(order[i]))
    && (forall i, j :: 0 <= i < j < |order| ==> order[i] != order[j])
  }

  lemma {:induction false} PrintedLinesRead(order: seq<string>, markers: Markers, marker: string)
    requires Names(order) && IsName(marker) && CleanMarkers(markers)
    ensures
      var r, own := ReadLines(AllLines(order, markers), marker), if marker in order then Get(markers, marker) else [];
      |own| <= |r| && (r == own <==> !HiddenIn(order, markers, marker))
  {
    hide Values, ReadLines, LinesOf, IsValue, IsName, Hides, Names, CleanMarkers, Get;
    if order == [] {
      NoLines(marker);
    } else {
      var k, values := order[0], Get(markers, order[0]);
      TailOfNames(order);
      ValuesOf(markers, k);
      PrintedLinesRead(order[1..], markers, marker);
      ReadAppend(LinesOf(k, values), AllLines(order[1..], markers), marker);
      if k == marker {
        OwnLines(marker, values);
        assert marker !in order[1..];
      } else {
        ForeignLines(k, values, marker);
        assert marker in order <==> marker in order[1..];
      }
    }
  }

  lemma TailOfNames(order: seq<string>)
    requires Names(order) && order != []
    ensures Names(order[1..]) && IsName(order[0]) && order[0] !in order[1..]
  {
    hide IsName;
  }

  lemma ValuesOf(markers: Markers, k: string)
    requires CleanMarkers(markers)
    ensures forall v :: v in Get(markers, k) ==> IsValue(v)
  {
  }

  lemma NoLines(marker: string)
    ensures ReadLines([], marker) == []
  {
  }

  // ---- the marker names ----

  // Length and one character already tell the names apart.
  function Position(s: string): nat {
    if |s| == 7 then 16
    else if |s| == 8 then 3
    else if |s| == 9 then 2
    else if |s| == 10 then (if s[0] == 'D' then 8 else if s[0] == 'P' then 15 else if s[9] == 'H' then 4 else 6)
    else if |s| == 11 then 9
    else if |s| == 12 then 12
    else if |s| == 13 then 7
    else if |s| == 14 then (if s[0] == 'U' then 11 else 14)
    else if |s| == 15 then (if s[0] == 'G' then 5 else if s[0] == 'U' then 10 else 13)
    else if |s| == 19 then 0
    else if |s| == 21 then 1
    else 17
  }

  lemma RequiredNames(i: nat)
    requires i < 5
    ensures IsName(REQUIRED[i])
  {
  }

  lemma RequiredPositions(i: nat)
    requires i < 5
    ensures Position(REQUIRED[i]) == 12 + i
  {
  }

  lemma OptionalNames(i: nat)
    requires i < 12
    ensures IsName(OPTIONAL[i])
  {
  }

  lemma OptionalPositions(i: nat)
    requires i < 12
    ensures Position(OPTIONAL[i]) == i
  {
  }

  lemma PrintOrder()
    ensures Names(OPTIONAL + REQUIRED) && forall m :: m in OPTIONAL + REQUIRED <==> m in REQUIRED + OPTIONAL
  {
    hide IsName, Position;
    var order := OPTIONAL + REQUIRED;
    assert forall i :: 0 <= i < 17 ==> order[i] == if i < 12 then OPTIONAL[i] else REQUIRED[i - 12];
    forall i | 0 <= i < 17 ensures IsName(order[i]) && Position(order[i]) == i {
      if i < 12 {
        OptionalNames(i);
        OptionalPositions(i);
      } else {
        RequiredNames(i - 12);
        RequiredPositions(i - 12);
      }
    }
  }

  // ---- the round trip ----

  // A value of one marker hides a line of another one.
  predicate HidesALine(proof: Proof) {
    exists marker :: marker in REQUIRED + OPTIONAL && HiddenIn(OPTIONAL + REQUIRED, proof.markers, marker)
  }

  // Printing a parsed proof and parsing the result gives the proof back, markers and
  // completeness, exactly when no value hides a marker line behind a Unicode line
  // terminator.
  lemma RoundTrip(text: string)
    ensures
      var proof := ParseRemoteProof(text);
      ParseRemoteProof(BuildProofOutput(proof)) == proof <==> !HidesALine(proof)
  {
    hide Values, Names, IsName, HiddenIn, AllLines, ReadLines, JoinLines, Missing, CleanMarkers;
    var proof := ParseRemoteProof(text);
    var printed := BuildProofOutput(proof);
    ParsedIsClean(text);
    PrintOrder();
    forall marker | marker in REQUIRED + OPTIONAL
      ensures Values(printed, true, marker) == Get(proof.markers, marker) <==>
        !HiddenIn(OPTIONAL + REQUIRED, proof.markers, marker)
    {
      PrintedMarker(proof.markers, marker);
    }
    SameMarkers(text, printed);
  }

  lemma ParsedIsClean(text: string)
    ensures CleanMarkers(ParsedMarkers(text))
  {
    forall m | m in REQUIRED + OPTIONAL ensures forall v :: v in Values(text, true, m) ==> IsValue(v) {
      ValuesAreClean(text, true, m);
    }
  }

  lemma PrintedMarker(markers: Markers, marker: string)
    requires CleanMarkers(markers) && Names(OPTIONAL + REQUIRED) && marker in OPTIONAL + REQUIRED
    ensures
      Values(JoinLines(AllLines(OPTIONAL + REQUIRED, markers)), true, marker) == Get(markers, marker) <==>
        !HiddenIn(OPTIONAL + REQUIRED, markers, marker)
  {
    hide Values, IsName, HiddenIn, AllLines, ReadLines, JoinLines, CleanMarkers;
    JoinedLinesRead(AllLines(OPTIONAL + REQUIRED, markers), marker);
    PrintedLinesRead(OPTIONAL + REQUIRED, markers, marker);
  }

  lemma SameMarkers(text: string, printed: string)
    ensures
      ParsedMarkers(printed) == ParsedMarkers(text) <==>
        forall m :: m in REQUIRED + OPTIONAL ==> Values(printed, true, m) == Get(ParsedMarkers(text), m)
  {
    hide Values;
    forall m | m in REQUIRED + OPTIONAL
      ensures Get(ParsedMarkers(text), m) == Values(text, true, m)
      ensures Get(ParsedMarkers(printed), m) == Values(printed, true, m)
    {
    }
  }

  // In particular for every text whose only line terminators are CR and LF.
  lemma PlainTextsRoundTrip(text: string)
    requires '\U{2028}' !in text && '\U{2029}' !in text
    ensures ParseRemoteProof(BuildProofOutput(ParseRemoteProof(text))) == ParseRemoteProof(text)
  {
    hide Values, BuildProofOutput;
    RoundTrip(text);
    forall m, k, v | k in ParsedMarkers(text) && v in ParsedMarkers(text)[k] ensures Values(v, false, m) == [] {
      ValuesAreClean(text, true, k);
      NothingHidden(v, m);
    }
    forall m ensures !HiddenIn(OPTIONAL + REQUIRED, ParsedMarkers(text), m) {
      NothingHiddenIn(OPTIONAL + REQUIRED, ParsedMarkers(text), m);
    }
  }

  lemma NothingHidden(v: string, marker: string)
    requires SingleLine(v) && forall i :: 0 <= i < |v| ==> v[i] != '\U{2028}' && v[i] != '\U{2029}'
    ensures Values(v, false, marker) == []
  {
    assert v + "" == v;
    NothingStartsInside(v, "", marker);
  }

  lemma {:induction false} NothingHiddenIn(order: seq<string>, markers: Markers, marker: string)
    requires forall k, v :: k in markers && v in markers[k] ==> Values(v, false, marker) == []
    ensures !HiddenIn(order, markers, marker)
  {
    if order != [] {
      NothingHiddenIn(order[1..], markers, marker);
    }
  }

  // With a Unicode line terminator a value can hide a line: the second parse counts it
  // twice.
  lemma HiddenLineIsCountedTwice()
    ensures
      var text := "BLOCKER=a\U{2028}PUBLIC_URL=b";
      ParseRemoteProof(BuildProofOutput(ParseRemoteProof(text))) != ParseRemoteProof(text)
  {
    hide Values, BuildProofOutput, IsName, Trim, ParseRemoteProof, HiddenIn;
    var value, hidden := "a\U{2028}PUBLIC_URL=b", "PUBLIC_URL=b";
    var text := "BLOCKER=a\U{2028}PUBLIC_URL=b";
    assert text == "BLOCKER" + "=" + value && value == "a" + ("\U{2028}" + hidden);
    assert hidden == "PUBLIC_URL" + "=" + "b";
    RequiredNames(4);
    RequiredNames(3);
    SolidText(value);
    SolidText("b");
    LineReads("BLOCKER", value, "BLOCKER");
    NothingStartsInside("a", "\U{2028}" + hidden, "PUBLIC_URL");
    ReadOn("\U{2028}" + hidden, false, "PUBLIC_URL");
    LineReads("PUBLIC_URL", "b", "PUBLIC_URL");
    assert ("\U{2028}" + hidden)[1..] == hidden;
    BlockerHides(text, value);
    RoundTrip(text);
  }

  lemma BlockerHides(text: string, value: string)
    requires Values(text, true, "BLOCKER") == [value] && Values(value, false, "PUBLIC_URL") != []
    ensures HidesALine(ParseRemoteProof(text))
  {
    hide Values, ParsedMarkers, Hides, HiddenIn;
    var markers, order := ParsedMarkers(text), OPTIONAL + REQUIRED;
    assert REQUIRED[4] == "BLOCKER" && REQUIRED[3] == "PUBLIC_URL" && order[16] == "BLOCKER";
    RequiredPositions(4);
    RequiredPositions(3);
    ParsedAs(text, 4, value, "PUBLIC_URL");
    HiddenAt(order, markers, "PUBLIC_URL", 16);
    assert REQUIRED[3] in REQUIRED + OPTIONAL;
  }

  lemma ParsedAs(text: string, i: nat, value: string, marker: string)
    requires i < 5 && Values(text, true, REQUIRED[i]) == [value] && Values(value, false, marker) != []
    ensures Hides(Get(ParsedMarkers(text), REQUIRED[i]), marker)
  {
    hide Values;
    assert REQUIRED[i] in REQUIRED + OPTIONAL;
    var values := Get(ParsedMarkers(text), REQUIRED[i]);
    assert values[0] == value;
  }

  lemma {:induction false} HiddenAt(order: seq<string>, markers: Markers, marker: string, i: nat)
    requires i < |order| && order[i] != marker && Hides(Get(markers, order[i]), marker)
    ensures HiddenIn(order, markers, marker)
  {
    if i > 0 {
      HiddenAt(order[1..], markers, marker, i - 1);
    }
  }
}
