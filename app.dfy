/**
 * The application: checks the command-line options, derives the output path, and runs
 * read → validate → build → write over a file system modelled as a map from path to contents.
 */
module App {
  import opened Wrappers
  import opened Json
  import opened Schema
  import opened Validator
  import opened Generator
  import opened Paths

  const SOURCE_EXT: string := ".json"
  const TARGET_EXT: string := ".ics"
  /** The platform line ending, fixed to the POSIX one. */
  const OS_EOL: string := "\n"
  /** The extension check's message, before the path's last segment. */
  const EXTENSION_MESSAGE_PREFIX: string := "sourceFile does not have a '" + SOURCE_EXT + "' extension: "

  /** The options the command line hands over; a missing `sourceFile` or `debug` is `None`. */
  datatype CliOptions = CliOptions(sourceFile: Option<string>, debug: Option<bool>, appVersion: string)

  // ---------------------------------------------------------------------------
  // Option checks and the output path
  // ---------------------------------------------------------------------------

  /** The extension check: the last segment's extension, lower-cased, is `.json`. */
  predicate HasJsonExtension(path: string) {
    ToLower(ExtName(path)) == SOURCE_EXT
  }

  /**
   * The constructor's checks in order, each failing with its own message: options present,
   * `sourceFile` non-empty, `sourceFile` existing, extension `.json`. `None` when all pass.
   */
  function CliOptionsError(options: Option<CliOptions>, existing: set<string>): (r: Option<string>)
    ensures r.None? <==>
      options.Some? && options.value.sourceFile.Some? && options.value.sourceFile.value != ""
      && options.value.sourceFile.value in existing && HasJsonExtension(options.value.sourceFile.value)
    ensures options.None? ==> r == Some("cliOptions is required")
    ensures options.Some? ==>
      var sourceFile := options.value.sourceFile;
      && (sourceFile.None? || sourceFile.value == "" ==> r == Some("sourceFile is required"))
      && (sourceFile.Some? && sourceFile.value != "" && sourceFile.value !in existing ==>
            r == Some("sourceFile does not exist: " + sourceFile.value))
      && (sourceFile.Some? && sourceFile.value != "" && sourceFile.value in existing
          && !HasJsonExtension(sourceFile.value) ==>
            r == Some(EXTENSION_MESSAGE_PREFIX + Basename(sourceFile.value)))
  {
    if options.None? then Some("cliOptions is required")
    else if options.value.sourceFile.None? || options.value.sourceFile.value == "" then Some("sourceFile is required")
    else
      var sourceFile := options.value.sourceFile.value;
      if sourceFile !in existing then Some("sourceFile does not exist: " + sourceFile)
      else if !HasJsonExtension(sourceFile) then
        Some(EXTENSION_MESSAGE_PREFIX + Basename(sourceFile))
      else None
  }

  /** `.json` with each letter in either case. */
  predicate IsJsonSpelling(e: string) {
    |e| == 5 && e[0] == '.'
    && (e[1] == 'j' || e[1] == 'J') && (e[2] == 's' || e[2] == 'S')
    && (e[3] == 'o' || e[3] == 'O') && (e[4] == 'n' || e[4] == 'N')
  }

  /** Lower-casing gives `.json` exactly on its spellings in mixed case. */
  lemma LowerJsonIff(e: string)
    ensures ToLower(e) == SOURCE_EXT <==> IsJsonSpelling(e)
  {
    var l := ToLower(e);
    if ToLower(e) == SOURCE_EXT {
      assert l[0] == '.' && l[1] == 'j' && l[2] == 's' && l[3] == 'o' && l[4] == 'n';
    }
    if IsJsonSpelling(e) {
      assert l[0] == '.' && l[1] == 'j' && l[2] == 's' && l[3] == 'o' && l[4] == 'n';
      assert l == SOURCE_EXT;
    }
  }

  /** The output path as derived: the first `.json` anywhere in the path becomes `.ics`. */
  function OutputPathAsWritten(sourceFile: string): (r: string)
    ensures IndexOf(sourceFile, SOURCE_EXT).None? ==> r == sourceFile
    ensures IndexOf(sourceFile, SOURCE_EXT).Some? ==>
      var i := IndexOf(sourceFile, SOURCE_EXT).value;
      r == sourceFile[..i] + TARGET_EXT + sourceFile[i + |SOURCE_EXT|..]
  {
    ReplaceFirst(sourceFile, SOURCE_EXT, TARGET_EXT)
  }

  /**
   * The output path as intended: the source path with its `.json` extension, in whatever case,
   * replaced by `.ics`. It always differs from the source path.
   */
  function OutputPath(sourceFile: string): (r: string)
    requires HasJsonExtension(sourceFile)
    ensures |r| >= |TARGET_EXT| && r[|r| - |TARGET_EXT|..] == TARGET_EXT
    ensures r[..|r| - |TARGET_EXT|] + ExtName(sourceFile) == TrimTrailingSlashes(sourceFile)
    ensures r != sourceFile
  {
    var t := TrimTrailingSlashes(sourceFile);
    JsonExtensionAtEnd(sourceFile);
    JsonPathLastChar(sourceFile);
    var r := t[..|t| - 5] + TARGET_EXT;
    assert r[..|r| - 4] == t[..|t| - 5];
    assert r[|r| - 1] == 's';
    r
  }

  /** A path passing the extension check ends, after trailing slashes, in that extension. */
  lemma JsonExtensionAtEnd(s: string)
    requires HasJsonExtension(s)
    ensures var t := TrimTrailingSlashes(s);
      IsJsonSpelling(ExtName(s)) && |t| > 5 && t[|t| - 5..] == ExtName(s) && t[..|t| - 5] + ExtName(s) == t
  {
    var t := TrimTrailingSlashes(s);
    var ext := ExtName(s);
    LowerJsonIff(ext);
    assert |ext| == 5 && |ext| < |Basename(s)|;
    assert t[..|t| - 5] + t[|t| - 5..] == t;
  }

  /** A path passing the extension check never ends in `s`, the last letter of `.ics`. */
  lemma JsonPathLastChar(s: string)
    requires HasJsonExtension(s)
    ensures |s| > 0 && s[|s| - 1] != 's'
  {
    JsonExtensionAtEnd(s);
    var t := TrimTrailingSlashes(s);
    var ext := ExtName(s);
    if |t| == |s| {
      assert s[|s| - 1] == t[|t| - 1] == ext[4];
    } else {
      assert s[|s| - 1] == '/';
    }
  }

  /** The suffix condition the extension check amounts to (see `JsonExtensionIff`). */
  predicate EndsWithJsonSegment(s: string) {
    var t := TrimTrailingSlashes(s);
    |t| > 5 && IsJsonSpelling(t[|t| - 5..]) && t[|t| - 6] != '/'
  }

  /**
   * An independent reading of the extension check: after trailing slashes, the path ends in
   * `.json` with each letter in either case, and the segment has a character before that `.`.
   */
  lemma JsonExtensionIff(s: string)
    ensures HasJsonExtension(s) <==> EndsWithJsonSegment(s)
  {
    if HasJsonExtension(s) {
      ExtensionGivesSuffix(s);
    }
    if EndsWithJsonSegment(s) {
      SuffixGivesExtension(s);
    }
  }

  lemma ExtensionGivesSuffix(s: string)
    requires HasJsonExtension(s)
    ensures EndsWithJsonSegment(s)
  {
    var t := TrimTrailingSlashes(s);
    JsonExtensionAtEnd(s);
    var d := ExtStart(s).value;
    assert d == |t| - 5;
  }

  lemma SuffixGivesExtension(s: string)
    requires EndsWithJsonSegment(s)
    ensures HasJsonExtension(s) && ExtName(s) == TrimTrailingSlashes(s)[|TrimTrailingSlashes(s)| - 5..]
  {
    var t := TrimTrailingSlashes(s);
    ExtStartOfSegment(s);
    LowerJsonIff(t[|t| - 5..]);
  }

  /** In a path ending in a `.json` segment, the extension starts five characters from the end. */
  lemma ExtStartOfSegment(s: string)
    requires EndsWithJsonSegment(s)
    ensures var t := TrimTrailingSlashes(s); ExtStart(s) == Some(|t| - 5)
  {
    var t := TrimTrailingSlashes(s);
    var k := SegmentBeforeTail(t);
    assert t[k..] != "..";
    LastDotOfTail(t);
  }

  /** The last segment of a path ending in a `.json` segment holds its last six characters. */
  lemma SegmentBeforeTail(t: string) returns (k: nat)
    requires |t| > 5 && IsJsonSpelling(t[|t| - 5..]) && t[|t| - 6] != '/'
    ensures k == SegmentStart(t) && k <= |t| - 6
  {
    NoSlashNearEnd(t);
    k := SegmentStart(t);
    if k > 0 {
      assert t[k - 1] == '/';
    }
  }

  /** None of the last six characters of a path ending in a `.json` segment is `/`. */
  lemma NoSlashNearEnd(t: string)
    requires |t| > 5 && IsJsonSpelling(t[|t| - 5..]) && t[|t| - 6] != '/'
    ensures forall j :: |t| - 6 <= j < |t| ==> t[j] != '/'
  {
    var tail := t[|t| - 5..];
    forall j | |t| - 5 <= j < |t| ensures t[j] != '/' {
      assert t[j] == tail[j - (|t| - 5)];
    }
  }

  /** In a path ending in a `.json` spelling, that `.` is the last one. */
  lemma LastDotOfTail(t: string)
    requires |t| >= 5 && IsJsonSpelling(t[|t| - 5..])
    ensures LastIndexOf(t, '.') == Some(|t| - 5)
  {
    var tail := t[|t| - 5..];
    assert t[|t| - 5] == tail[0];
    assert forall j :: |t| - 5 < j < |t| ==> t[j] == tail[j - (|t| - 5)];
    LastIndexOfIs(t, '.', |t| - 5);
  }

  /**
   * The case the derivation gets right: a path ending in a lower-case `.json` that occurs nowhere
   * earlier, where both derivations give the stem with `.ics`.
   */
  lemma AsWrittenAgreesOnPlainPaths(stem: string)
    requires stem != [] && stem[|stem| - 1] != '/' && IndexOf(stem, SOURCE_EXT).None?
    ensures var s := stem + SOURCE_EXT;
      HasJsonExtension(s) && OutputPathAsWritten(s) == stem + TARGET_EXT && OutputPath(s) == stem + TARGET_EXT
  {
    var s := stem + SOURCE_EXT;
    PlainAsWritten(stem);
    assert s[|s| - 5..] == ".json";
    assert s[|s| - 6] == stem[|stem| - 1];
    SpellingPasses(s);
    OutputPathIs(s);
    assert s[..|s| - 5] == stem;
  }

  lemma PlainAsWritten(stem: string)
    requires IndexOf(stem, SOURCE_EXT).None?
    ensures OutputPathAsWritten(stem + SOURCE_EXT) == stem + TARGET_EXT
  {
    var s := stem + SOURCE_EXT;
    FirstOccurrenceAfter(stem, []);
    assert stem + SOURCE_EXT + [] == s;
    AsWrittenAt(s, |stem|);
    assert s[..|stem|] == stem && s[|stem| + 5..] == [];
  }

  /** No occurrence of `p` when its last character appears nowhere in `s`. */
  lemma NoOccurrence(s: string, p: string)
    requires |p| > 0 && forall j :: 0 <= j < |s| ==> s[j] != p[|p| - 1]
    ensures IndexOf(s, p).None?
  {
    forall k: nat | k + |p| <= |s| ensures !OccursAt(s, p, k) {
      assert s[k..k + |p|][|p| - 1] == s[k + |p| - 1];
    }
  }

  /** The first occurrence at `i` when `p` occurs there and nowhere before. */
  lemma FirstOccurrence(s: string, p: string, i: nat)
    requires OccursAt(s, p, i) && forall j: nat :: j < i ==> !OccursAt(s, p, j)
    ensures IndexOf(s, p) == Some(i)
  {
  }

  /** The output path as intended, spelled out. */
  lemma OutputPathIs(s: string)
    requires HasJsonExtension(s)
    ensures var t := TrimTrailingSlashes(s); |t| > 5 && OutputPath(s) == t[..|t| - 5] + TARGET_EXT
  {
    JsonExtensionAtEnd(s);
  }

  /** A path ending in a `.json` spelling after a character other than `/` passes the extension check. */
  lemma SpellingPasses(s: string)
    requires |s| > 5 && IsJsonSpelling(s[|s| - 5..]) && s[|s| - 6] != '/'
    ensures HasJsonExtension(s) && TrimTrailingSlashes(s) == s
  {
    assert s[|s| - 1] == s[|s| - 5..][4];
    assert TrimTrailingSlashes(s) == s;
    SuffixGivesExtension(s);
  }

  /** `.json` does not occur in `stem + tail` when it does not occur in `stem` and `tail` has no `n`. */
  lemma NoOccurrenceAcross(stem: string, tail: string)
    requires IndexOf(stem, SOURCE_EXT).None?
    requires forall j :: 0 <= j < |tail| ==> tail[j] != 'n'
    ensures IndexOf(stem + tail, SOURCE_EXT).None?
  {
    var s := stem + tail;
    forall k: nat | k + 5 <= |s| ensures !OccursAt(s, SOURCE_EXT, k) {
      if k + 5 <= |stem| {
        assert s[k..k + 5] == stem[k..k + 5];
        assert !OccursAt(stem, SOURCE_EXT, k);
      } else {
        assert s[k..k + 5][4] == s[k + 4] == tail[k + 4 - |stem|];
      }
    }
  }

  /**
   * The derivation as written on a path whose extension is `.JSON` and which holds no lower-case
   * `.json`: the path passes the extension check and the output path is the source path itself,
   * where the intended output path is the stem with `.ics`.
   */
  lemma UppercaseExtensionKeepsPath(stem: string)
    requires stem != [] && stem[|stem| - 1] != '/' && IndexOf(stem, SOURCE_EXT).None?
    ensures var s := stem + ".JSON";
      HasJsonExtension(s) && OutputPathAsWritten(s) == s && OutputPath(s) == stem + TARGET_EXT
  {
    var s := stem + ".JSON";
    assert s[|s| - 5..] == ".JSON";
    assert s[|s| - 6] == stem[|stem| - 1];
    SpellingPasses(s);
    NoOccurrenceAcross(stem, ".JSON");
    OutputPathIs(s);
    assert s[..|s| - 5] == stem;
  }

  /** `.json` first occurs right after `pre` in `pre + ".json" + post` when it does not occur in `pre`. */
  lemma FirstOccurrenceAfter(pre: string, post: string)
    requires IndexOf(pre, SOURCE_EXT).None?
    ensures IndexOf(pre + SOURCE_EXT + post, SOURCE_EXT) == Some(|pre|)
  {
    var s := pre + SOURCE_EXT + post;
    assert s[|pre|..|pre| + 5] == SOURCE_EXT;
    forall k: nat | k < |pre| ensures !OccursAt(s, SOURCE_EXT, k) {
      if k + 5 <= |pre| {
        assert s[k..k + 5] == pre[k..k + 5];
        assert !OccursAt(pre, SOURCE_EXT, k);
      } else {
        assert s[k..k + 5][|pre| - k] == s[|pre|] == '.';
      }
    }
    FirstOccurrence(s, SOURCE_EXT, |pre|);
  }

  /** The derivation as written replaces the first `.json` only. */
  lemma AsWrittenAt(s: string, i: nat)
    requires IndexOf(s, SOURCE_EXT) == Some(i)
    ensures i + 5 <= |s| && OutputPathAsWritten(s) == s[..i] + TARGET_EXT + s[i + 5..]
  {
  }

  /**
   * The derivation as written on a path with an earlier `.json`, such as `a.json.d/cal.json`: that
   * earlier `.json` becomes `.ics` and the file's own extension stays.
   */
  lemma FirstOccurrenceRenamesDirectory(pre: string, post: string)
    requires IndexOf(pre, SOURCE_EXT).None?
    requires |post| > 5 && post[|post| - 5..] == SOURCE_EXT && post[|post| - 6] != '/'
    ensures var s := pre + SOURCE_EXT + post;
      HasJsonExtension(s)
      && OutputPathAsWritten(s) == pre + TARGET_EXT + post
      && OutputPath(s) == pre + SOURCE_EXT + post[..|post| - 5] + TARGET_EXT
  {
    var s := pre + SOURCE_EXT + post;
    EndingKeepsExtension(pre + SOURCE_EXT, post);
    FirstOccurrenceAfter(pre, post);
    AsWrittenAt(s, |pre|);
    assert s[..|pre|] == pre && s[|pre| + 5..] == post;
  }

  /** A path whose last part ends in a `.json` segment passes the check, and keeps what precedes it. */
  lemma EndingKeepsExtension(front: string, post: string)
    requires |post| > 5 && post[|post| - 5..] == SOURCE_EXT && post[|post| - 6] != '/'
    ensures HasJsonExtension(front + post)
    ensures OutputPath(front + post) == front + post[..|post| - 5] + TARGET_EXT
  {
    var s := front + post;
    EndingPasses(front, post);
    OutputPathIs(s);
    assert s[..|s| - 5] == front + post[..|post| - 5];
  }

  lemma EndingPasses(front: string, post: string)
    requires |post| > 5 && post[|post| - 5..] == SOURCE_EXT && post[|post| - 6] != '/'
    ensures HasJsonExtension(front + post) && TrimTrailingSlashes(front + post) == front + post
  {
    var s := front + post;
    assert s[|s| - 5..] == post[|post| - 5..];
    assert s[|s| - 6] == post[|post| - 6];
    SpellingPasses(s);
  }

  /** The two paths above, `cal.JSON` and `a.json.d/cal.json`. */
  lemma OutputPathExamples()
    ensures OutputPathAsWritten("cal" + ".JSON") == "cal" + ".JSON"
    ensures OutputPathAsWritten("a" + SOURCE_EXT + ".d/cal.json") == "a" + TARGET_EXT + ".d/cal.json"
  {
    NoOccurrence("a", SOURCE_EXT);
    NoOccurrence("cal", SOURCE_EXT);
    UppercaseExtensionKeepsPath("cal");
    var post := ".d/cal.json";
    assert post[|post| - 5..] == SOURCE_EXT;
    FirstOccurrenceRenamesDirectory("a", post);
  }

  /** The messages the constructor's checks produce on the inputs its tests use. */
  lemma CliOptionsErrorExamples(existing: set<string>)
    ensures CliOptionsError(None, existing) == Some("cliOptions is required")
    ensures CliOptionsError(Some(CliOptions(None, Some(false), "v")), existing) == Some("sourceFile is required")
  {
  }

  lemma MissingFileExample(existing: set<string>)
    requires "~/missing.json" !in existing
    ensures CliOptionsError(Some(CliOptions(Some("~/missing.json"), Some(false), "v")), existing)
      == Some("sourceFile does not exist: ~/missing.json")
  {
    var o := Some(CliOptions(Some("~/missing.json"), Some(false), "v"));
    assert o.value.sourceFile.value != "";
    assert CliOptionsError(o, existing) == Some("sourceFile does not exist: " + "~/missing.json");
    assert "sourceFile does not exist: " + "~/missing.json" == "sourceFile does not exist: ~/missing.json";
  }

  /** `~/example.txt` has the segment `example.txt` and fails the extension check. */
  lemma TextFileSegment()
    ensures Basename("~/example.txt") == "example.txt" && !HasJsonExtension("~/example.txt")
  {
    var s := "~/example.txt";
    assert TrimTrailingSlashes(s) == s;
    assert s[1] == '/' && forall j :: 1 < j < |s| ==> s[j] != '/';
    assert LastIndexOf(s, '/') == Some(1);
    assert s[2..] == "example.txt";
    JsonExtensionIff(s);
    assert !IsJsonSpelling(s[|s| - 5..]) by { assert s[|s| - 5] != '.'; }
  }

  /** An existing path without the extension is refused with the extension message. */
  lemma ExtensionMessage(sourceFile: string, appVersion: string, existing: set<string>)
    requires sourceFile != "" && sourceFile in existing && !HasJsonExtension(sourceFile)
    ensures CliOptionsError(Some(CliOptions(Some(sourceFile), None, appVersion)), existing)
      == Some(EXTENSION_MESSAGE_PREFIX + Basename(sourceFile))
  {
  }

  /** An existing `~/example.txt` is refused with the extension message naming `example.txt`. */
  lemma TextFileExtension(existing: set<string>)
    requires "~/example.txt" in existing
    ensures CliOptionsError(Some(CliOptions(Some("~/example.txt"), None, "v")), existing)
      == Some("sourceFile does not have a '.json' extension: example.txt")
  {
    TextFileSegment();
    ExtensionMessage("~/example.txt", "v", existing);
    ExtensionMessageText();
  }

  lemma ExtensionMessageText()
    ensures EXTENSION_MESSAGE_PREFIX + "example.txt" == "sourceFile does not have a '.json' extension: example.txt"
  {
    assert EXTENSION_MESSAGE_PREFIX == "sourceFile does not have a '.json' extension: ";
  }

  // ---------------------------------------------------------------------------
  // The file system
  // ---------------------------------------------------------------------------

  function NoSuchFile(path: string): string {
    "ENOENT: no such file or directory, open '" + path + "'"
  }

  function PermissionDenied(path: string): string {
    "EACCES: permission denied, open '" + path + "'"
  }

  /** Files by path; writing to a path in `readOnly` fails and changes nothing. */
  class FileSystem {
    var files: map<string, string>
    const readOnly: set<string>

    constructor(files: map<string, string>, readOnly: set<string>)
      ensures this.files == files && this.readOnly == readOnly
    {
      this.files := files;
      this.readOnly := readOnly;
    }

    /** The contents of `path`, or the error naming it when there is no such file. */
    method ReadFileSync(path: string) returns (r: Result<string, string>)
      ensures path in files ==> r == Success(files[path])
      ensures path !in files ==> r == Failure(NoSuchFile(path))
    {
      if path in files {
        return Success(files[path]);
      }
      return Failure(NoSuchFile(path));
    }

    /** Creates or replaces `path` with `data`; on a read-only path, fails and writes nothing. */
    method WriteFileSync(path: string, data: string) returns (error: Option<string>)
      modifies this
      ensures path in readOnly ==> error == Some(PermissionDenied(path)) && files == old(files)
      ensures path !in readOnly ==> error.None? && files == old(files)[path := data]
    {
      if path in readOnly {
        return Some(PermissionDenied(path));
      }
      files := files[path := data];
      return None;
    }
  }

  // ---------------------------------------------------------------------------
  // Generating
  // ---------------------------------------------------------------------------

  /** An error escaping `generate`, prefixed with where it surfaced and the app version. */
  function ToError(message: string, appVersion: string): (r: string)
    ensures |r| > |message| && r[|r| - |message|..] == message
  {
    "Error in ICalGeneratorApp.generate()/" + appVersion + ": " + message
  }

  function InvalidDataMessage(dataFile: string): string {
    "Failed to generate the iCalendar file due to invalid JSON data in '" + dataFile + "'." + OS_EOL
    + "Please correct the JSON data and try again." + OS_EOL
  }

  function SuccessMessage(outputFile: string): string {
    "Successfully generated the iCalendar file at " + outputFile + OS_EOL
  }

  /** The validation step's answer: nothing for a valid document, else the message naming the data file. */
  function ValidationMessage(dataFile: string, json: Value): Option<string> {
    if ValidDocument(json) then None else Some(InvalidDataMessage(dataFile))
  }

  /** What one run of `generate` returns, and the files afterwards. */
  datatype Outcome = Outcome(result: Result<string, string>, files: map<string, string>)

  /** The calendar text for a valid document, or the error the calendar library raised building or rendering it. */
  function CalendarText(json: Value, serialize: Calendar -> Result<string, string>, stamp: string, uuid: nat -> string)
    : Result<string, string>
    requires ValidDocument(json)
  {
    serialize(ICalendarFor(ToBaseData(json), stamp, uuid))
  }

  /** Writing the calendar text: fails on a read-only output path, otherwise replaces its content. */
  function WriteStep(outputFile: string, appVersion: string, files: map<string, string>, readOnly: set<string>,
                     text: string): Outcome
  {
    if outputFile in readOnly then Outcome(Failure(ToError(PermissionDenied(outputFile), appVersion)), files)
    else Outcome(Success(SuccessMessage(outputFile)), files[outputFile := text])
  }

  /** What follows a successful parse: the message when the data is invalid, otherwise the write. */
  function ParsedStep(
    sourceFile: string, outputFile: string, appVersion: string,
    files: map<string, string>, readOnly: set<string>,
    json: Value, serialize: Calendar -> Result<string, string>, stamp: string, uuid: nat -> string): Outcome
  {
    match ValidationMessage(sourceFile, json)
    case Some(message) => Outcome(Success(message), files)
    case None =>
      match CalendarText(json, serialize, stamp, uuid)
      case Failure(e) => Outcome(Failure(ToError(e, appVersion)), files)
      case Success(text) => WriteStep(outputFile, appVersion, files, readOnly, text)
  }

  /**
   * One run of `generate`: read and parse the source, stop with the message when it is invalid,
   * otherwise build, serialize and write the calendar to the output path. Errors from reading,
   * parsing and writing surface as failures.
   */
  function GenerateOutcome(
    sourceFile: string, outputFile: string, appVersion: string,
    files: map<string, string>, readOnly: set<string>,
    parse: string -> Result<Value, string>, serialize: Calendar -> Result<string, string>,
    stamp: string, uuid: nat -> string): Outcome
  {
    if sourceFile !in files then Outcome(Failure(ToError(NoSuchFile(sourceFile), appVersion)), files)
    else match parse(files[sourceFile])
      case Failure(e) => Outcome(Failure(ToError(e, appVersion)), files)
      case Success(json) => ParsedStep(sourceFile, outputFile, appVersion, files, readOnly, json, serialize, stamp, uuid)
  }

  /**
   * The application: its options are checked once, its output path is derived once, and each
   * `Generate` runs the pipeline against a file system.
   */
  class ICalGeneratorApp {
    const debugEnabled: bool
    const sourceFile: string
    const outputFile: string
    const appVersion: string

    ghost predicate Valid() {
      sourceFile != "" && HasJsonExtension(sourceFile) && outputFile == OutputPath(sourceFile)
    }

    /** Builds the app from options that pass every check; `debug` defaults to false. */
    constructor(options: Option<CliOptions>, fs: FileSystem)
      requires CliOptionsError(options, fs.files.Keys).None?
      ensures Valid()
      ensures sourceFile == options.value.sourceFile.value && appVersion == options.value.appVersion
      ensures debugEnabled == options.value.debug.GetOr(false)
      ensures outputFile == OutputPath(sourceFile)
    {
      var sf := options.value.sourceFile.value;
      sourceFile := sf;
      outputFile := OutputPath(sf);
      debugEnabled := options.value.debug.GetOr(false);
      appVersion := options.value.appVersion;
    }

    /** The constructor with its checks made explicit: the first failing check's message, or the app. */
    static method Create(options: Option<CliOptions>, fs: FileSystem) returns (r: Result<ICalGeneratorApp, string>)
      ensures r.Failure? <==> CliOptionsError(options, fs.files.Keys).Some?
      ensures r.Failure? ==> r.error == CliOptionsError(options, fs.files.Keys).value
      ensures r.Success? ==>
        && fresh(r.value) && r.value.Valid()
        && r.value.sourceFile == options.value.sourceFile.value
        && r.value.debugEnabled == options.value.debug.GetOr(false)
    {
      var error := CliOptionsError(options, fs.files.Keys);
      if error.Some? {
        return Failure(error.value);
      }
      var app := new ICalGeneratorApp(options, fs);
      return Success(app);
    }

    /** Builds the calendar for a document that passed validation, read as the typed view. */
    static method BuildICalendar(json: Value, stamp: string, uuid: nat -> string) returns (calendar: Calendar)
      requires ValidDocument(json)
      ensures calendar == ICalendarFor(ToBaseData(json), stamp, uuid)
    {
      var built := GenerateICalendarObject(Some(ToBaseData(json)), stamp, uuid);
      calendar := built.value;
    }

    /**
     * The validation step: asks the validator, and answers with the message naming the data file
     * when it rejects the document.
     */
    static method ValidateOrReturnMessage(dataFile: string, json: Value) returns (r: Option<string>)
      ensures r == ValidationMessage(dataFile, json)
    {
      var validationResults := ValidateICalendarJson(json);
      if validationResults.isValid {
        return None;
      }
      return Some(InvalidDataMessage(dataFile));
    }

    /**
     * Reads and parses the source, validates it, builds and serializes the calendar, and writes it
     * to the output path. `parse` stands for `JSON.parse`, `serialize` for the calendar library's
     * building and text rendering (either may throw), `stamp` for the generation instant and `uuid(i)`
     * for the `i`-th fresh identifier.
     */
    method Generate(fs: FileSystem, parse: string -> Result<Value, string>, serialize: Calendar -> Result<string, string>,
                    stamp: string, uuid: nat -> string)
      returns (r: Result<string, string>)
      requires Valid()
      modifies fs
      ensures var o := GenerateOutcome(sourceFile, outputFile, appVersion, old(fs.files), fs.readOnly,
                                       parse, serialize, stamp, uuid);
        r == o.result && fs.files == o.files
    ensures sourceFile in old(fs.files) ==>
      sourceFile in fs.files && fs.files[sourceFile] == old(fs.files)[sourceFile]
    {
      ghost var files := fs.files;
      if sourceFile in files {
        SourceSurvives(sourceFile, appVersion, files, fs.readOnly, parse, serialize, stamp, uuid);
      }
      var content := fs.ReadFileSync(sourceFile);
      if content.Failure? {
        return Failure(ToError(content.error, appVersion));
      }
      var parsed := parse(content.value);
      if parsed.Failure? {
        return Failure(ToError(parsed.error, appVersion));
      }
      var json := parsed.value;
      ghost var o := ParsedStep(sourceFile, outputFile, appVersion, files, fs.readOnly, json, serialize, stamp, uuid);
      assert GenerateOutcome(sourceFile, outputFile, appVersion, files, fs.readOnly, parse, serialize, stamp, uuid) == o;
      var validationFailureMessage := ValidateOrReturnMessage(sourceFile, json);
      if validationFailureMessage.Some? {
        return Success(validationFailureMessage.value);
      }
      var calendar := BuildICalendar(json, stamp, uuid);
      var text := serialize(calendar);
      if text.Failure? {
        return Failure(ToError(text.error, appVersion));
      }
      assert o == WriteStep(outputFile, appVersion, files, fs.readOnly, text.value);
      var error := fs.WriteFileSync(outputFile, text.value);
      if error.Some? {
        return Failure(ToError(error.value, appVersion));
      }
      return Success(SuccessMessage(outputFile));
    }
  }

  // ---------------------------------------------------------------------------
  // What a run promises
  // ---------------------------------------------------------------------------

  /**
   * Nothing is written unless the run reports success: either the files are unchanged, or the run
   * returned the success message and exactly the output path now holds the calendar text.
   */
  lemma WritesOnlyOnSuccess(
    sourceFile: string, outputFile: string, appVersion: string,
    files: map<string, string>, readOnly: set<string>,
    parse: string -> Result<Value, string>, serialize: Calendar -> Result<string, string>, stamp: string, uuid: nat -> string)
    ensures var o := GenerateOutcome(sourceFile, outputFile, appVersion, files, readOnly, parse, serialize, stamp, uuid);
      o.files == files
      || (o.result == Success(SuccessMessage(outputFile))
          && sourceFile in files && parse(files[sourceFile]).Success?
          && ValidDocument(parse(files[sourceFile]).value)
          && CalendarText(parse(files[sourceFile]).value, serialize, stamp, uuid).Success?
          && o.files == files[outputFile := CalendarText(parse(files[sourceFile]).value, serialize, stamp, uuid).value])
  {
    if sourceFile in files && parse(files[sourceFile]).Success? {
      ParsedStepWritesOnlyOnSuccess(sourceFile, outputFile, appVersion, files, readOnly,
                                    parse(files[sourceFile]).value, serialize, stamp, uuid);
    }
  }

  lemma ParsedStepWritesOnlyOnSuccess(
    sourceFile: string, outputFile: string, appVersion: string,
    files: map<string, string>, readOnly: set<string>,
    json: Value, serialize: Calendar -> Result<string, string>, stamp: string, uuid: nat -> string)
    ensures var o := ParsedStep(sourceFile, outputFile, appVersion, files, readOnly, json, serialize, stamp, uuid);
      o.files == files
      || (o.result == Success(SuccessMessage(outputFile)) && ValidDocument(json)
          && CalendarText(json, serialize, stamp, uuid).Success?
          && o.files == files[outputFile := CalendarText(json, serialize, stamp, uuid).value])
  {
    if ValidDocument(json) && CalendarText(json, serialize, stamp, uuid).Success? {
      WriteStepWritesOnlyOnSuccess(outputFile, appVersion, files, readOnly, CalendarText(json, serialize, stamp, uuid).value);
    }
  }

  lemma WriteStepWritesOnlyOnSuccess(
    outputFile: string, appVersion: string, files: map<string, string>, readOnly: set<string>, text: string)
    ensures var o := WriteStep(outputFile, appVersion, files, readOnly, text);
      o.files == files || (o.result == Success(SuccessMessage(outputFile)) && o.files == files[outputFile := text])
  {
  }

  /** A source that parses but fails validation yields the message naming it, and nothing is written. */
  lemma InvalidDataWritesNothing(
    sourceFile: string, outputFile: string, appVersion: string,
    files: map<string, string>, readOnly: set<string>,
    parse: string -> Result<Value, string>, serialize: Calendar -> Result<string, string>, stamp: string, uuid: nat -> string)
    requires sourceFile in files && parse(files[sourceFile]).Success?
    requires !ValidDocument(parse(files[sourceFile]).value)
    ensures GenerateOutcome(sourceFile, outputFile, appVersion, files, readOnly, parse, serialize, stamp, uuid)
         == Outcome(Success(InvalidDataMessage(sourceFile)), files)
  {
  }

  /**
   * Failures to read, parse or write are returned as errors carrying the original message, never
   * as a message, and leave the files unchanged.
   */
  lemma ErrorsPropagate(
    sourceFile: string, outputFile: string, appVersion: string,
    files: map<string, string>, readOnly: set<string>,
    parse: string -> Result<Value, string>, serialize: Calendar -> Result<string, string>, stamp: string, uuid: nat -> string)
    ensures var o := GenerateOutcome(sourceFile, outputFile, appVersion, files, readOnly, parse, serialize, stamp, uuid);
      && (sourceFile !in files ==> o == Outcome(Failure(ToError(NoSuchFile(sourceFile), appVersion)), files))
      && (sourceFile in files && parse(files[sourceFile]).Failure? ==>
            o == Outcome(Failure(ToError(parse(files[sourceFile]).error, appVersion)), files))
      && (sourceFile in files && parse(files[sourceFile]).Success? && ValidDocument(parse(files[sourceFile]).value)
          && CalendarText(parse(files[sourceFile]).value, serialize, stamp, uuid).Failure? ==>
            o == Outcome(Failure(ToError(CalendarText(parse(files[sourceFile]).value, serialize, stamp, uuid).error,
                                         appVersion)), files))
      && (sourceFile in files && parse(files[sourceFile]).Success? && ValidDocument(parse(files[sourceFile]).value)
          && CalendarText(parse(files[sourceFile]).value, serialize, stamp, uuid).Success?
          && outputFile in readOnly ==>
            o == Outcome(Failure(ToError(PermissionDenied(outputFile), appVersion)), files))
  {
  }

  /**
   * The converse of `WritesOnlyOnSuccess`: a readable, parseable, valid document whose calendar renders
   * and whose output path is writable is written out, and the run reports success.
   */
  lemma ValidRunWrites(
    sourceFile: string, outputFile: string, appVersion: string,
    files: map<string, string>, readOnly: set<string>,
    parse: string -> Result<Value, string>, serialize: Calendar -> Result<string, string>, stamp: string, uuid: nat -> string)
    requires sourceFile in files && parse(files[sourceFile]).Success?
    requires ValidDocument(parse(files[sourceFile]).value)
    requires CalendarText(parse(files[sourceFile]).value, serialize, stamp, uuid).Success?
    requires outputFile !in readOnly
    ensures GenerateOutcome(sourceFile, outputFile, appVersion, files, readOnly, parse, serialize, stamp, uuid)
      == Outcome(Success(SuccessMessage(outputFile)),
                 files[outputFile := CalendarText(parse(files[sourceFile]).value, serialize, stamp, uuid).value])
  {
  }

  /**
   * With the output path derived from the extension, a successful run never touches the source:
   * the JSON file still holds what it held.
   */
  lemma SourceSurvives(
    sourceFile: string, appVersion: string,
    files: map<string, string>, readOnly: set<string>,
    parse: string -> Result<Value, string>, serialize: Calendar -> Result<string, string>, stamp: string, uuid: nat -> string)
    requires HasJsonExtension(sourceFile) && sourceFile in files
    ensures var o := GenerateOutcome(sourceFile, OutputPath(sourceFile), appVersion, files, readOnly,
                                     parse, serialize, stamp, uuid);
      sourceFile in o.files && o.files[sourceFile] == files[sourceFile]
  {
    WritesOnlyOnSuccess(sourceFile, OutputPath(sourceFile), appVersion, files, readOnly, parse, serialize, stamp, uuid);
  }

  /**
   * With the output path as written, a valid source whose extension is `.JSON` (and which holds no
   * lower-case `.json`) is overwritten by its own calendar text: the run reports success and the
   * JSON source is gone.
   */
  lemma AsWrittenOverwritesSource(
    stem: string, appVersion: string, files: map<string, string>, readOnly: set<string>,
    parse: string -> Result<Value, string>, serialize: Calendar -> Result<string, string>, stamp: string, uuid: nat -> string)
    requires stem != [] && stem[|stem| - 1] != '/' && IndexOf(stem, SOURCE_EXT).None?
    requires stem + ".JSON" in files && stem + ".JSON" !in readOnly
    requires parse(files[stem + ".JSON"]).Success? && ValidDocument(parse(files[stem + ".JSON"]).value)
    requires CalendarText(parse(files[stem + ".JSON"]).value, serialize, stamp, uuid).Success?
    ensures var s := stem + ".JSON";
      var o := GenerateOutcome(s, OutputPathAsWritten(s), appVersion, files, readOnly, parse, serialize, stamp, uuid);
      o.result == Success(SuccessMessage(s))
      && o.files[s] == CalendarText(parse(files[s]).value, serialize, stamp, uuid).value
  {
    UppercaseExtensionKeepsPath(stem);
  }
}
