// Base64 as the handoff store reads and writes it (sections 3.5 and 4 of RFC 4648).
module Base64 {
  import opened Wrappers
  import opened Text

  type Sextet = s: int | 0 <= s < 64

  function ToChar(s: Sextet): char {
    if s < 26 then ('A' as int + s) as char
    else if s < 52 then ('a' as int + s - 26) as char
    else if s < 62 then ('0' as int + s - 52) as char
    else if s == 62 then '+' else '/'
  }

  function FromChar(c: char): Option<Sextet> {
    if 'A' <= c <= 'Z' then Some(c as int - 'A' as int)
    else if 'a' <= c <= 'z' then Some(c as int - 'a' as int + 26)
    else if '0' <= c <= '9' then Some(c as int - '0' as int + 52)
    else if c == '+' then Some(62) else if c == '/' then Some(63) else None
  }

  function Value(c: char): Sextet {
    FromChar(c).GetOr(0)
  }

  lemma CharRoundTrip(s: Sextet)
    ensures FromChar(ToChar(s)) == Some(s) && Value(ToChar(s)) == s && ToChar(s) != '=' && !IsSpace(ToChar(s))
  {
  }

  lemma ValueRoundTrip(c: char)
    ensures FromChar('=').None?
    ensures FromChar(c).Some? ==> ToChar(Value(c)) == c && c != '='
  {
  }

  // The alphabet of section 4 of RFC 4648: capital letters, small letters, digits, plus
  // and slash, each range in order.
  lemma AlphabetIsStandard()
    ensures ToChar(0) == 'A' && ToChar(25) == 'Z' && ToChar(26) == 'a' && ToChar(51) == 'z'
    ensures ToChar(52) == '0' && ToChar(61) == '9' && ToChar(62) == '+' && ToChar(63) == '/'
    ensures forall s: Sextet :: s < 61 && s != 25 && s != 51 ==> ToChar(s + 1) as int == ToChar(s) as int + 1
  {
  }

  // Three bytes and the four characters that stand for them are the same number.
  lemma GroupsAreNumbers(b0: Byte, b1: Byte, b2: Byte)
    ensures
      var g := EncodeGroup([b0, b1, b2]);
      && (b0 * 256 + b1) * 256 + b2 == ((Value(g[0]) * 64 + Value(g[1])) * 64 + Value(g[2])) * 64 + Value(g[3])
      && EncodeGroup([b0, b1]) == EncodeGroup([b0, b1, 0])[..3] + "="
      && EncodeGroup([b0]) == EncodeGroup([b0, 0, 0])[..2] + "=="
  {
    hide ToChar, FromChar, Value;
    CharRoundTrip(b0 / 4);
    CharRoundTrip(b0 % 4 * 16 + b1 / 16);
    CharRoundTrip(b1 % 16 * 4 + b2 / 64);
    CharRoundTrip(b2 % 64);
  }

  // Up to three bytes as four characters; what is missing counts as zero bits.
  function EncodeGroup(b: seq<Byte>): (g: string)
    requires 1 <= |b| <= 3
    ensures |g| == 4
  {
    var b1: Byte := if |b| > 1 then b[1] else 0;
    var b2: Byte := if |b| > 2 then b[2] else 0;
    [ToChar(b[0] / 4), ToChar(b[0] % 4 * 16 + b1 / 16),
     if |b| > 1 then ToChar(b1 % 16 * 4 + b2 / 64) else '=', if |b| > 2 then ToChar(b2 % 64) else '=']
  }

  function FirstGroup(b: seq<Byte>): nat {
    if |b| < 3 then |b| else 3
  }

  // buffer.toString("base64")
  function Encode(b: seq<Byte>): string {
    if b == [] then "" else EncodeGroup(b[..FirstGroup(b)]) + Encode(b[FirstGroup(b)..])
  }

  // Four characters of the alphabet, or the last group with its padding.
  predicate IsGroup(g: string, last: bool) {
    && |g| == 4 && FromChar(g[0]).Some? && FromChar(g[1]).Some?
    && (if g[2] == '=' then last && g[3] == '='
        else FromChar(g[2]).Some? && (FromChar(g[3]).Some? || (last && g[3] == '=')))
  }

  // The pattern of decodeBase64Strict, which allows any pad bits.
  predicate Matches(s: string) {
    s == "" || (|s| >= 4 && IsGroup(s[..4], |s| == 4) && Matches(s[4..]))
  }

  // A text matches if its length is a multiple of four and it consists of characters of
  // the alphabet, but for one or two equals signs at its end.
  lemma {:induction false} MatchesThePattern(s: string)
    ensures Matches(s) <==>
      && |s| % 4 == 0
      && (forall i :: 0 <= i < |s| - 2 ==> FromChar(s[i]).Some?)
      && (s != "" ==>
            && (FromChar(s[|s| - 1]).Some? || s[|s| - 1] == '=')
            && (FromChar(s[|s| - 2]).Some? || (s[|s| - 2] == '=' && s[|s| - 1] == '=')))
    decreases |s|
  {
    hide FromChar;
    NoEquals();
    if |s| >= 4 {
      MatchesThePattern(s[4..]);
      assert forall i :: 4 <= i < |s| ==> s[i] == s[4..][i - 4];
      assert forall i :: 0 <= i < |s| - 4 ==> s[4..][i] == s[i + 4];
    }
  }

  lemma NoEquals()
    ensures FromChar('=').None?
  {
  }

  function DecodeGroup(g: string): seq<Byte>
    requires |g| == 4
  {
    var v0, v1, v2, v3 := Value(g[0]), Value(g[1]), Value(g[2]), Value(g[3]);
    var bytes: seq<Byte> := [v0 * 4 + v1 / 16, v1 % 16 * 16 + v2 / 4, v2 % 4 * 64 + v3];
    if g[2] == '=' then bytes[..1] else if g[3] == '=' then bytes[..2] else bytes
  }

  // Buffer.from(compact, "base64") on text of that pattern: pad bits are dropped.
  function DecodeGroups(s: string): seq<Byte>
    requires Matches(s)
  {
    if s == "" then [] else DecodeGroup(s[..4]) + DecodeGroups(s[4..])
  }

  // value.replace(/\s+/g, "")
  function Compact(s: string): string {
    if s == "" then "" else (if IsSpace(s[0]) then "" else [s[0]]) + Compact(s[1..])
  }

  function DecodeStrict(value: string): Option<seq<Byte>> {
    var compact := Compact(value);
    if compact == "" || !Matches(compact) then None else Some(DecodeGroups(compact))
  }

  // ---- decoding inverts encoding ----

  lemma GroupRoundTrip(b: seq<Byte>)
    requires 1 <= |b| <= 3
    ensures IsGroup(EncodeGroup(b), true) && (|b| == 3 ==> IsGroup(EncodeGroup(b), false))
    ensures DecodeGroup(EncodeGroup(b)) == b
    ensures forall i :: 0 <= i < 4 ==> !IsSpace(EncodeGroup(b)[i])
  {
    hide ToChar, FromChar, Value;
    var b1: Byte := if |b| > 1 then b[1] else 0;
    var b2: Byte := if |b| > 2 then b[2] else 0;
    CharRoundTrip(b[0] / 4);
    CharRoundTrip(b[0] % 4 * 16 + b1 / 16);
    CharRoundTrip(b1 % 16 * 4 + b2 / 64);
    CharRoundTrip(b2 % 64);
    BytesFromSextets(b[0], b1, b2);
  }

  lemma BytesFromSextets(b0: Byte, b1: Byte, b2: Byte)
    ensures b0 / 4 * 4 + (b0 % 4 * 16 + b1 / 16) / 16 == b0
    ensures (b0 % 4 * 16 + b1 / 16) % 16 * 16 + (b1 % 16 * 4 + b2 / 64) / 4 == b1
    ensures (b1 % 16 * 4 + b2 / 64) % 4 * 64 + b2 % 64 == b2
  {
  }

  lemma {:induction false} EncodingIsDecoded(b: seq<Byte>)
    ensures Matches(Encode(b)) && DecodeGroups(Encode(b)) == b
    ensures Compact(Encode(b)) == Encode(b)
    ensures |Encode(b)| == (|b| + 2) / 3 * 4
  {
    hide EncodeGroup, DecodeGroup, IsGroup, IsSpace;
    if b != [] {
      var n := FirstGroup(b);
      var head, tail := EncodeGroup(b[..n]), Encode(b[n..]);
      GroupRoundTrip(b[..n]);
      EncodingIsDecoded(b[n..]);
      assert (head + tail)[..4] == head && (head + tail)[4..] == tail;
      assert b[..n] + b[n..] == b;
      CompactPrefix(head, tail);
    }
  }

  lemma {:induction false} CompactPrefix(s: string, t: string)
    requires forall i :: 0 <= i < |s| ==> !IsSpace(s[i])
    ensures Compact(s + t) == s + Compact(t)
  {
    if s == "" {
      assert s + t == t;
    } else {
      assert (s + t)[1..] == s[1..] + t;
      CompactPrefix(s[1..], t);
    }
  }

  // Every byte sequence but the empty one survives: the store refuses empty content.
  lemma StrictRoundTrip(b: seq<Byte>)
    ensures DecodeStrict(Encode(b)) == if b == [] then None else Some(b)
  {
    EncodingIsDecoded(b);
  }

  // ---- encoding canonicalises ----

  // The bits of the last character that no byte uses.
  predicate PadBitsAreZero(s: string)
    requires Matches(s)
  {
    s == "" || (if |s| > 4 then PadBitsAreZero(s[4..])
                else if s[2] == '=' then Value(s[1]) % 16 == 0
                else s[3] == '=' ==> Value(s[2]) % 4 == 0)
  }

  lemma GroupIsReencoded(g: string)
    requires IsGroup(g, true)
    ensures 1 <= |DecodeGroup(g)| <= 3
    ensures Matches(g) && (EncodeGroup(DecodeGroup(g)) == g <==> PadBitsAreZero(g))
    ensures IsGroup(g, false) ==> |DecodeGroup(g)| == 3 && EncodeGroup(DecodeGroup(g)) == g
  {
    hide ToChar, FromChar;
    var v0, v1, v2, v3 := Value(g[0]), Value(g[1]), Value(g[2]), Value(g[3]);
    ValueRoundTrip(g[0]);
    ValueRoundTrip(g[1]);
    ValueRoundTrip(g[2]);
    ValueRoundTrip(g[3]);
    SextetsFromBytes(v0, v1, v2, v3);
    assert g[..4] == g && g[4..] == "";
    var e := EncodeGroup(DecodeGroup(g));
    assert e[0] == g[0] && e[3] == g[3] && (g[2] == '=' ==> e[2] == g[2]);
    if g[2] == '=' {
      assert e[1] == ToChar(v1 / 16 * 16);
      DifferentChars(v1 / 16 * 16, v1);
    } else if g[3] == '=' {
      assert e[1] == g[1] && e[2] == ToChar(v2 / 4 * 4);
      DifferentChars(v2 / 4 * 4, v2);
    } else {
      assert e[1] == g[1] && e[2] == g[2];
    }
    assert e == g <==> e[1] == g[1] && e[2] == g[2];
  }

  lemma DifferentChars(s: Sextet, s': Sextet)
    ensures ToChar(s) == ToChar(s') <==> s == s'
  {
    CharRoundTrip(s);
    CharRoundTrip(s');
  }

  lemma SextetsFromBytes(v0: Sextet, v1: Sextet, v2: Sextet, v3: Sextet)
    ensures
      var b0, b1, b2 := v0 * 4 + v1 / 16, v1 % 16 * 16 + v2 / 4, v2 % 4 * 64 + v3;
      && b0 / 4 == v0 && b0 % 4 * 16 + b1 / 16 == v1 && b1 % 16 * 4 + b2 / 64 == v2 && b2 % 64 == v3
      && b0 % 4 * 16 == v1 / 16 * 16 && b1 % 16 * 4 == v2 / 4 * 4
  {
  }

  // Re-encoding what was decoded gives back the text exactly when its pad bits are zero.
  lemma {:induction false} ReencodingCanonicalises(s: string)
    requires Matches(s)
    ensures Encode(DecodeGroups(s)) == s <==> PadBitsAreZero(s)
    ensures |Encode(DecodeGroups(s))| == |s|
  {
    hide EncodeGroup, DecodeGroup, IsGroup;
    if s != "" {
      var g, rest := s[..4], s[4..];
      var bytes := DecodeGroups(s);
      assert g + rest == s;
      ReencodingCanonicalises(rest);
      LastGroup(g, |s| == 4);
      GroupIsReencoded(g);
      assert bytes[..|DecodeGroup(g)|] == DecodeGroup(g) && bytes[|DecodeGroup(g)|..] == DecodeGroups(rest);
      if |s| == 4 {
        assert g == s;
      }
    }
  }

  lemma LastGroup(g: string, last: bool)
    requires IsGroup(g, last)
    ensures IsGroup(g, true) && (!last ==> IsGroup(g, false))
  {
  }

  // A value that is accepted decodes to at least one byte; its canonical form is accepted
  // too, decodes to the same bytes, and is the value without white space exactly when the
  // pad bits were zero.
  lemma StrictDecodingCanonicalises(value: string)
    requires DecodeStrict(value).Some?
    ensures
      var bytes := DecodeStrict(value).value;
      && bytes != [] && DecodeStrict(Encode(bytes)) == Some(bytes)
      && (Encode(bytes) == Compact(value) <==> PadBitsAreZero(Compact(value)))
  {
    var compact := Compact(value);
    ReencodingCanonicalises(compact);
    StrictRoundTrip(DecodeGroups(compact));
    assert Encode([]) == "";
  }
}

// normalizeAgentHandoff and the verification envelope of readRemoteFile.
module Handoff {
  import opened Wrappers
  import opened Text
  import opened Base64
  import opened Layout

  datatype File = File(filename: string, sizeBytes: int, sha256: string, contentBase64: string)

  // The list of source artifacts is deduplicated.
  datatype Handoff = Handoff(header: Header, files: seq<File>, sourceArtifactIds: seq<string>)

  // Foreign functions: the digest and full Unicode lower-casing.
  datatype Rules = Rules(sha256: seq<Byte> -> string, lower: string -> string)

  // Digests are lower-case hexadecimal.
  ghost predicate Lawful(rules: Rules) {
    forall b :: rules.lower(rules.sha256(b)) == rules.sha256(b)
  }

  datatype Error =
    | Refused(header: HeaderError) | TooManyFiles | UnsafeFilename | DuplicateFilename | InvalidBase64
    | SizeMismatch | ChecksumMismatch | TooLarge

  // validateInputFilename(name) === name
  predicate SafeFilename(name: string) {
    && Trim(name) == name
    && name !in {"", "manifest.json", ".", ".."}
    && forall i :: 0 <= i < |name| ==> name[i] !in "/\\<>:\"|?*" && name[i] as int > 0x1F
  }

  function Content(file: File): seq<Byte> {
    DecodeStrict(file.contentBase64).GetOr([])
  }

  function CheckFile(rules: Rules, file: File): Option<Error> {
    if !SafeFilename(file.filename) then Some(UnsafeFilename)
    else if DecodeStrict(file.contentBase64).None? then Some(InvalidBase64)
    else if |Content(file)| != file.sizeBytes || |Content(file)| > MAX_FILE_BYTES then Some(SizeMismatch)
    else if rules.sha256(Content(file)) != rules.lower(file.sha256) then Some(ChecksumMismatch)
    else None
  }

  function Canonical(rules: Rules, file: File): File {
    file.(sha256 := rules.lower(file.sha256), contentBase64 := Encode(Content(file)))
  }

  function TotalBytes(files: seq<File>): nat {
    if files == [] then 0 else TotalBytes(files[..|files| - 1]) + |Content(files[|files| - 1])|
  }

  ghost predicate DistinctNames(rules: Rules, files: seq<File>) {
    forall i, j :: 0 <= i < j < |files| ==> rules.lower(files[i].filename) != rules.lower(files[j].filename)
  }

  // A name that is trimmed, is not reserved, and has neither separators nor control
  // characters nor characters that some file systems refuse.
  ghost predicate NameIsSafe(name: string) {
    && name != "" && !IsSpace(name[0]) && !IsSpace(name[|name| - 1])
    && name != "manifest.json" && name != "." && name != ".."
    && '/' !in name && '\\' !in name && '<' !in name && '>' !in name && ':' !in name
    && '"' !in name && '|' !in name && '?' !in name && '*' !in name
    && forall c :: c in name ==> c as int >= 0x20
  }

  // The content decodes to as many bytes as attested, not too many, with the digest attested.
  ghost predicate ContentIsSound(rules: Rules, file: File) {
    match DecodeStrict(file.contentBase64)
    case None => false
    case Some(bytes) => SizeIsSound(file, bytes) && rules.lower(file.sha256) == rules.sha256(bytes)
  }

  ghost predicate SizeIsSound(file: File, bytes: seq<Byte>) {
    |bytes| == file.sizeBytes && 0 < file.sizeBytes <= 4194304
  }

  lemma NameChecked(name: string)
    ensures SafeFilename(name) <==> NameIsSafe(name)
  {
    if SafeFilename(name) {
      TrimEdges(name);
      assert forall c :: c in name ==> c !in "/\\<>:\"|?*" && c as int > 0x1F;
    }
    if NameIsSafe(name) {
      SolidText(name);
      assert forall i :: 0 <= i < |name| ==> name[i] in name;
    }
  }

  lemma FileChecked(rules: Rules, file: File)
    ensures CheckFile(rules, file).None? <==> NameIsSafe(file.filename) && ContentIsSound(rules, file)
    ensures CheckFile(rules, file) == Some(UnsafeFilename) <==> !NameIsSafe(file.filename)
    ensures CheckFile(rules, file) == Some(InvalidBase64) <==>
      NameIsSafe(file.filename) && DecodeStrict(file.contentBase64).None?
    ensures CheckFile(rules, file) == Some(SizeMismatch) <==>
      && NameIsSafe(file.filename) && DecodeStrict(file.contentBase64).Some?
      && !SizeIsSound(file, DecodeStrict(file.contentBase64).value)
    ensures CheckFile(rules, file) == Some(ChecksumMismatch) <==>
      && NameIsSafe(file.filename) && DecodeStrict(file.contentBase64).Some?
      && SizeIsSound(file, DecodeStrict(file.contentBase64).value)
      && rules.lower(file.sha256) != rules.sha256(DecodeStrict(file.contentBase64).value)
    ensures CheckFile(rules, file).Some? ==>
      CheckFile(rules, file).value in {UnsafeFilename, InvalidBase64, SizeMismatch, ChecksumMismatch}
  {
    hide SafeFilename, NameIsSafe, DecodeStrict;
    NameChecked(file.filename);
    NotEmpty(file.contentBase64);
  }

  lemma NotEmpty(value: string)
    ensures DecodeStrict(value).Some? ==> DecodeStrict(value).value != []
  {
    if DecodeStrict(value).Some? {
      StrictDecodingCanonicalises(value);
    }
  }

  ghost predicate AcceptableFiles(rules: Rules, files: seq<File>) {
    && (forall i :: 0 <= i < |files| ==> NameIsSafe(files[i].filename) && ContentIsSound(rules, files[i]))
    && DistinctNames(rules, files)
    && TotalBytes(files) <= 6 * 1024 * 1024
  }

  function CanonicalFiles(rules: Rules, files: seq<File>): (r: seq<File>)
    ensures |r| == |files| && forall i :: 0 <= i < |files| ==> r[i] == Canonical(rules, files[i])
  {
    if files == [] then []
    else CanonicalFiles(rules, files[..|files| - 1]) + [Canonical(rules, files[|files| - 1])]
  }

  // [...new Set(ids)]
  function Unique(ids: seq<string>): seq<string> {
    if ids == [] then []
    else
      var before, last := Unique(ids[..|ids| - 1]), ids[|ids| - 1];
      if last in before then before else before + [last]
  }

  ghost predicate Acceptable(rules: Rules, handoff: Handoff) {
    && CheckHeader(handoff.header).None? && |handoff.files| <= 12
    && AcceptableFiles(rules, handoff.files) && ValidGlobs(handoff.header)
  }

  ghost function Normalized(rules: Rules, handoff: Handoff): Handoff {
    Handoff(handoff.header, CanonicalFiles(rules, handoff.files), Unique(handoff.sourceArtifactIds))
  }

  // File i is the first one that breaks the list, and this is the first check it fails:
  // its name, the name's repetition, its own content, the total size.
  ghost predicate FirstBroken(rules: Rules, files: seq<File>, i: int, error: Error) {
    && 0 <= i < |files|
    && AcceptableFiles(rules, files[..i]) && !AcceptableFiles(rules, files[..i + 1])
    && error == FirstError(rules, files[..i], files[i])
  }

  ghost function FirstError(rules: Rules, before: seq<File>, file: File): Error {
    if !NameIsSafe(file.filename) then UnsafeFilename
    else if HasName(rules, before, rules.lower(file.filename)) then DuplicateFilename
    else match DecodeStrict(file.contentBase64)
      case None => InvalidBase64
      case Some(bytes) =>
        if !SizeIsSound(file, bytes) then SizeMismatch
        else if rules.lower(file.sha256) != rules.sha256(bytes) then ChecksumMismatch
        else TooLarge
  }

  // The reasons for a refusal, in the order of the checks.
  ghost predicate Explains(rules: Rules, input: Handoff, error: Error) {
    if CheckHeader(input.header).Some? then error == Refused(CheckHeader(input.header).value)
    else if |input.files| > MAX_FILES then error == TooManyFiles
    else if !AcceptableFiles(rules, input.files) then exists i :: FirstBroken(rules, input.files, i, error)
    else !ValidGlobs(input.header) && error == Refused(UnsafePath)
  }

  // Accepted exactly when every check holds on the whole list; otherwise the first check
  // that fails, on the first file that fails one, decides the error.
  method NormalizeAgentHandoff(rules: Rules, input: Handoff)
    returns (r: Result<Handoff, Error>)
    ensures r.Success? <==> Acceptable(rules, input)
    ensures r.Success? ==> r.value == Normalized(rules, input)
    ensures r.Failure? ==> Explains(rules, input, r.error)
  {
    hide AcceptableFiles, TotalBytes, CanonicalFiles, CheckFile, SafeFilename, Unique, HasName, Content, Canonical;
    if CheckHeader(input.header).Some? { return Failure(Refused(CheckHeader(input.header).value)); }
    if |input.files| > MAX_FILES { return Failure(TooManyFiles); }
    var files := NormalizeFiles(rules, input.files);
    if files.Failure? { return Failure(files.error); }
    if !ValidGlobs(input.header) { return Failure(Refused(UnsafePath)); }
    r := Success(Handoff(input.header, files.value, Unique(input.sourceArtifactIds)));
  }

  method NormalizeFiles(rules: Rules, input: seq<File>) returns (r: Result<seq<File>, Error>)
    ensures r.Success? <==> AcceptableFiles(rules, input)
    ensures r.Success? ==> r.value == CanonicalFiles(rules, input)
    ensures r.Failure? ==> exists i :: FirstBroken(rules, input, i, r.error)
  {
    hide AcceptableFiles, TotalBytes, CanonicalFiles, CheckFile, SafeFilename, HasName, Content, Canonical;
    hide NameIsSafe, ContentIsSound, SizeIsSound, DecodeStrict;
    var totalBytes, seen, files := 0, {}, [];
    NoFiles(rules);
    assert input[..0] == [] && input[..|input|] == input;
    for i := 0 to |input|
      invariant AcceptableFiles(rules, input[..i])
      invariant totalBytes == TotalBytes(input[..i])
      invariant forall key :: key in seen <==> HasName(rules, input[..i], key)
      invariant files == CanonicalFiles(rules, input[..i])
    {
      var file := input[i];
      OneMoreFile(rules, input, i);
      var key := rules.lower(file.filename);
      var error := CheckFile(rules, file);
      FileChecked(rules, file);
      totalBytes := totalBytes + |Content(file)|;
      var refusal :=
        if error == Some(UnsafeFilename) then error
        else if key in seen then Some(DuplicateFilename)
        else if error.Some? then error
        else if totalBytes > MAX_TOTAL_BYTES then Some(TooLarge)
        else None;
      if refusal.Some? {
        assert FirstBroken(rules, input, i, refusal.value);
        return Failure(refusal.value);
      }
      seen := seen + {key};
      files := files + [Canonical(rules, file)];
    }
    r := Success(files);
  }

  ghost predicate HasName(rules: Rules, files: seq<File>, key: string) {
    exists j :: 0 <= j < |files| && rules.lower(files[j].filename) == key
  }

  lemma NoFiles(rules: Rules)
    ensures AcceptableFiles(rules, []) && TotalBytes([]) == 0 && CanonicalFiles(rules, []) == []
    ensures forall key :: !HasName(rules, [], key)
  {
  }

  lemma {:induction false} FewerFilesFit(files: seq<File>, i: nat)
    requires i <= |files|
    ensures TotalBytes(files[..i]) <= TotalBytes(files)
  {
    if i < |files| {
      FewerFilesFit(files[..|files| - 1], i);
      assert files[..|files| - 1][..i] == files[..i];
    } else {
      assert files[..i] == files;
    }
  }

  // One step of the pass over the files; a failed check fails the whole list.
  lemma OneMoreFile(rules: Rules, files: seq<File>, i: nat)
    requires i < |files|
    ensures TotalBytes(files[..i + 1]) == TotalBytes(files[..i]) + |Content(files[i])|
    ensures CanonicalFiles(rules, files[..i + 1]) == CanonicalFiles(rules, files[..i]) + [Canonical(rules, files[i])]
    ensures forall key :: HasName(rules, files[..i + 1], key) <==>
      HasName(rules, files[..i], key) || key == rules.lower(files[i].filename)
    ensures AcceptableFiles(rules, files[..i + 1]) <==>
      && AcceptableFiles(rules, files[..i]) && NameIsSafe(files[i].filename) && ContentIsSound(rules, files[i])
      && !HasName(rules, files[..i], rules.lower(files[i].filename)) && TotalBytes(files[..i + 1]) <= MAX_TOTAL_BYTES
    ensures AcceptableFiles(rules, files) ==> AcceptableFiles(rules, files[..i + 1])
  {
    hide *;
    OneMore(rules, files, i);
    NamesOneMore(rules, files, i);
    AcceptOneMore(rules, files, i);
    if AcceptableFiles(rules, files) {
      FewerAreAcceptable(rules, files, i + 1);
    }
  }

  lemma OneMore(rules: Rules, files: seq<File>, i: nat)
    requires i < |files|
    ensures TotalBytes(files[..i + 1]) == TotalBytes(files[..i]) + |Content(files[i])|
    ensures CanonicalFiles(rules, files[..i + 1]) == CanonicalFiles(rules, files[..i]) + [Canonical(rules, files[i])]
  {
    hide Content, Canonical;
    assert files[..i + 1][..i] == files[..i];
  }

  lemma AcceptOneMore(rules: Rules, files: seq<File>, i: nat)
    requires i < |files|
    ensures AcceptableFiles(rules, files[..i + 1]) <==>
      && AcceptableFiles(rules, files[..i]) && NameIsSafe(files[i].filename) && ContentIsSound(rules, files[i])
      && !HasName(rules, files[..i], rules.lower(files[i].filename)) && TotalBytes(files[..i + 1]) <= MAX_TOTAL_BYTES
  {
    hide NameIsSafe, ContentIsSound, Content, HasName, TotalBytes, DistinctNames;
    var now := files[..i + 1];
    assert now[..i] == files[..i];
    assert forall j :: 0 <= j < i ==> now[j] == files[..i][j];
    assert now[i] == files[i];
    FewerFilesFit(now, i);
    NamesOneMore(rules, files, i);
  }

  lemma FewerAreAcceptable(rules: Rules, files: seq<File>, i: nat)
    requires i <= |files| && AcceptableFiles(rules, files)
    ensures AcceptableFiles(rules, files[..i])
  {
    hide NameIsSafe, ContentIsSound, TotalBytes;
    FewerFilesFit(files, i);
  }

  lemma NamesOneMore(rules: Rules, files: seq<File>, i: nat)
    requires i < |files|
    ensures forall key :: HasName(rules, files[..i + 1], key) <==>
      HasName(rules, files[..i], key) || key == rules.lower(files[i].filename)
    ensures DistinctNames(rules, files[..i + 1]) <==>
      DistinctNames(rules, files[..i]) && !HasName(rules, files[..i], rules.lower(files[i].filename))
  {
    var before, now := files[..i], files[..i + 1];
    assert forall j :: 0 <= j < i ==> now[j] == before[j];
    assert now[i] == files[i];
    forall key ensures HasName(rules, now, key) <==>
      HasName(rules, before, key) || key == rules.lower(files[i].filename) {
      if HasName(rules, before, key) {
        var j :| 0 <= j < i && rules.lower(before[j].filename) == key;
        assert rules.lower(now[j].filename) == key;
      }
      assert rules.lower(now[i].filename) == key <==> key == rules.lower(files[i].filename);
    }
  }

  // Normalizing what was normalized changes nothing: the canonical files pass every check
  // again, with the same names, bytes and digests.
  lemma NormalizationIsIdempotent(rules: Rules, input: Handoff)
    requires Lawful(rules) && Acceptable(rules, input)
    ensures
      var normalized := Normalized(rules, input);
      && Acceptable(rules, normalized) && Normalized(rules, normalized) == normalized
      && normalized.header == input.header && |normalized.files| == |input.files|
      && (forall i :: 0 <= i < |input.files| ==>
            && Content(normalized.files[i]) == Content(input.files[i])
            && normalized.files[i].filename == input.files[i].filename
            && normalized.files[i].sizeBytes == input.files[i].sizeBytes
            && normalized.files[i].sha256 == rules.sha256(Content(input.files[i])))
  {
    hide NameIsSafe, ContentIsSound, Unique;
    hide DecodeStrict, Canonical, CheckHeader, ValidGlobs;
    CanonicalFilesPass(rules, input.files);
    CanonicalTwice(rules, input.files);
    UniqueTwice(input.sourceArtifactIds);
    forall i | 0 <= i < |input.files|
      ensures Normalized(rules, input).files[i].filename == input.files[i].filename
      ensures Normalized(rules, input).files[i].sizeBytes == input.files[i].sizeBytes
      ensures Normalized(rules, input).files[i].sha256 == rules.sha256(Content(input.files[i]))
    {
      CanonicalFields(rules, input.files[i]);
    }
  }

  lemma CanonicalFields(rules: Rules, file: File)
    requires ContentIsSound(rules, file)
    ensures
      var canonical := Canonical(rules, file);
      && canonical.filename == file.filename && canonical.sizeBytes == file.sizeBytes
      && canonical.sha256 == rules.sha256(Content(file))
  {
    hide DecodeStrict, Encode;
  }

  lemma CanonicalFilePasses(rules: Rules, file: File)
    requires Lawful(rules) && NameIsSafe(file.filename) && ContentIsSound(rules, file)
    ensures Content(Canonical(rules, file)) == Content(file)
    ensures NameIsSafe(Canonical(rules, file).filename) && ContentIsSound(rules, Canonical(rules, file))
    ensures Canonical(rules, Canonical(rules, file)) == Canonical(rules, file)
  {
    hide NameIsSafe, DecodeStrict, Encode, Compact, Matches, PadBitsAreZero;
    StrictDecodingCanonicalises(file.contentBase64);
  }

  lemma {:induction false} CanonicalFilesPass(rules: Rules, files: seq<File>)
    requires Lawful(rules) && AcceptableFiles(rules, files)
    ensures AcceptableFiles(rules, CanonicalFiles(rules, files))
    ensures forall i :: 0 <= i < |files| ==> Content(CanonicalFiles(rules, files)[i]) == Content(files[i])
  {
    hide NameIsSafe, ContentIsSound, Content, TotalBytes;
    forall i | 0 <= i < |files|
      ensures NameIsSafe(CanonicalFiles(rules, files)[i].filename)
      ensures ContentIsSound(rules, CanonicalFiles(rules, files)[i])
      ensures Content(CanonicalFiles(rules, files)[i]) == Content(files[i])
    {
      CanonicalFilePasses(rules, files[i]);
    }
    SameContents(files, CanonicalFiles(rules, files));
  }

  lemma {:induction false} SameContents(a: seq<File>, b: seq<File>)
    requires |a| == |b| && forall i :: 0 <= i < |a| ==> Content(a[i]) == Content(b[i])
    ensures TotalBytes(a) == TotalBytes(b)
  {
    if a != [] {
      SameContents(a[..|a| - 1], b[..|b| - 1]);
    }
  }

  lemma CanonicalTwice(rules: Rules, files: seq<File>)
    requires Lawful(rules) && AcceptableFiles(rules, files)
    ensures CanonicalFiles(rules, CanonicalFiles(rules, files)) == CanonicalFiles(rules, files)
  {
    hide NameIsSafe, ContentIsSound, Content;
    forall i | 0 <= i < |files| {
      CanonicalFilePasses(rules, files[i]);
    }
  }

  lemma {:induction false} UniqueIsUnique(ids: seq<string>)
    ensures forall id :: id in Unique(ids) <==> id in ids
    ensures forall i, j :: 0 <= i < j < |Unique(ids)| ==> Unique(ids)[i] != Unique(ids)[j]
  {
    if ids != [] {
      UniqueIsUnique(ids[..|ids| - 1]);
      assert ids == ids[..|ids| - 1] + [ids[|ids| - 1]];
    }
  }

  // Only the first occurrence of an id counts.
  lemma {:induction false} FirstOccurrencesStay(ids: seq<string>, i: nat)
    requires i <= |ids|
    ensures Unique(ids[..i]) <= Unique(ids)
  {
    if i == |ids| {
      assert ids[..i] == ids;
    } else {
      FirstOccurrencesStay(ids[..|ids| - 1], i);
      assert ids[..|ids| - 1][..i] == ids[..i];
    }
  }

  lemma {:induction false} AlreadyUnique(ids: seq<string>)
    requires forall i, j :: 0 <= i < j < |ids| ==> ids[i] != ids[j]
    ensures Unique(ids) == ids
  {
    if ids != [] {
      AlreadyUnique(ids[..|ids| - 1]);
    }
  }

  lemma UniqueTwice(ids: seq<string>)
    ensures Unique(Unique(ids)) == Unique(ids)
  {
    UniqueIsUnique(ids);
    AlreadyUnique(Unique(ids));
  }

  // ---- the verification envelope of a remote file ----

  function Decimal(n: nat): string {
    if n < 10 then [('0' as int + n) as char] else Decimal(n / 10) + [('0' as int + n % 10) as char]
  }

  predicate IsDigest(s: string) {
    |s| == 64 && forall i :: 0 <= i < |s| ==> '0' <= s[i] <= '9' || 'a' <= s[i] <= 'f'
  }

  // The foreign parts of reading: Number(), as far as it gives safe integers, the digest
  // and lower-casing.
  datatype Reader = Reader(number: string -> Option<int>, sha256: seq<Byte> -> string, lower: string -> string)

  ghost predicate LawfulReader(reader: Reader) {
    && (forall n: nat :: n <= MAX_FILE_BYTES ==> reader.number(Decimal(n)) == Some(n))
    && (forall b :: IsDigest(reader.sha256(b)) && reader.lower(reader.sha256(b)) == reader.sha256(b))
  }

  // What the remote commands print: size, digest and content, the content unterminated.
  function Envelope(reader: Reader, b: seq<Byte>): string {
    Decimal(|b|) + "\n" + reader.sha256(b) + "\n" + Encode(b)
  }

  function ReadEnvelope(reader: Reader, output: string, maxBytes: int): Option<seq<Byte>> {
    var first := NewlineAt(output);
    if first == |output| then None else
    var rest := output[first + 1..];
    var second := NewlineAt(rest);
    if second == |rest| then None else
    var size := reader.number(Trim(output[..first]));
    var digest := reader.lower(Trim(rest[..second]));
    var content := DecodeStrict(Trim(rest[second + 1..]));
    if content.None? || size != Some(|content.value|) || size.value > maxBytes then None
    else if !IsDigest(digest) || reader.sha256(content.value) != digest then None
    else content
  }

  // What is read is attested: the size line gives the number of bytes, within the limit,
  // and the digest line their digest.  Any three lines that agree like that are accepted.
  lemma EnvelopeIsAttested(
    reader: Reader, size: string, digest: string, content: string, maxBytes: int, b: seq<Byte>)
    requires '\n' !in size && '\n' !in digest
    ensures ReadEnvelope(reader, size + "\n" + digest + "\n" + content, maxBytes) == Some(b) <==>
      && DecodeStrict(Trim(content)) == Some(b)
      && reader.number(Trim(size)) == Some(|b|) && |b| <= maxBytes
      && reader.lower(Trim(digest)) == reader.sha256(b) && IsDigest(reader.sha256(b))
  {
    hide DecodeStrict, Trim, NewlineAt, IsDigest;
    var output := size + "\n" + (digest + "\n" + content);
    assert NewlineAt(size) == |size| && NewlineAt(digest) == |digest|;
    FirstBreak(size, digest + "\n" + content);
    FirstBreak(digest, content);
    assert size + "\n" + digest + "\n" + content == output;
  }

  function SshBudget(maxBytes: nat): nat {
    (14 * maxBytes + 9) / 10 + 8192
  }

  predicate Visible(s: string) {
    forall i :: 0 <= i < |s| ==> '!' <= s[i] <= '~'
  }

  lemma {:induction false} DecimalIsVisible(n: nat)
    ensures Visible(Decimal(n)) && 1 <= |Decimal(n)| <= 2 + n / 100
  {
    if n >= 10 {
      DecimalIsVisible(n / 10);
    }
  }

  lemma {:induction false} EncodingIsVisible(b: seq<Byte>)
    ensures Visible(Encode(b))
  {
    if b != [] {
      EncodingIsVisible(b[FirstGroup(b)..]);
      GroupIsVisible(b[..FirstGroup(b)]);
    }
  }

  lemma GroupIsVisible(b: seq<Byte>)
    requires 1 <= |b| <= 3
    ensures Visible(EncodeGroup(b))
  {
  }

  lemma VisibleIsTrimmed(s: string)
    requires Visible(s)
    ensures Trim(s) == s && NewlineAt(s) == |s|
  {
    hide Trim, NewlineAt;
    SolidText(s);
  }

  lemma {:induction false} VisibleBytes(s: string)
    requires forall i :: 0 <= i < |s| ==> s[i] <= '~'
    ensures ByteLength(s) == |s|
  {
    if s != "" {
      VisibleBytes(s[..|s| - 1]);
    }
  }

  // Every file that is not empty and not too large is read back, byte for byte.
  lemma EnvelopeRoundTrip(reader: Reader, b: seq<Byte>, maxBytes: int)
    requires LawfulReader(reader) && 0 < |b| <= maxBytes <= MAX_FILE_BYTES
    ensures ReadEnvelope(reader, Envelope(reader, b), maxBytes) == Some(b)
  {
    hide Decimal, Encode, DecodeStrict, Trim, NewlineAt;
    var size, digest, content := Decimal(|b|), reader.sha256(b), Encode(b);
    DecimalIsVisible(|b|);
    EncodingIsVisible(b);
    VisibleIsTrimmed(size);
    VisibleIsTrimmed(digest);
    VisibleIsTrimmed(content);
    FirstBreak(size, digest + "\n" + content);
    FirstBreak(digest, content);
    var output := size + "\n" + (digest + "\n" + content);
    assert Envelope(reader, b) == output;
    assert NewlineAt(output) == |size| < |output| && NewlineAt(digest + "\n" + content) < |digest + "\n" + content|;
    StrictRoundTrip(b);
  }

  // The output limit of the SSH command leaves room for the envelope of every file
  // within the byte limit, with more than 8000 bytes to spare.
  lemma EnvelopeFitsTheBudget(reader: Reader, b: seq<Byte>, maxBytes: nat)
    requires LawfulReader(reader) && |b| <= maxBytes
    ensures ByteLength(Envelope(reader, b)) + 8000 <= SshBudget(maxBytes)
  {
    hide Decimal, Encode;
    DecimalIsVisible(|b|);
    EncodingIsVisible(b);
    VisibleBytes(Envelope(reader, b));
    EncodingIsDecoded(b);
  }
}
