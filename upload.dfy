/**
 * The upload script: which files of the working tree are skipped by the ignore patterns, how a
 * relative path becomes a GitHub contents path, the status codes that count as success for
 * creating the repository and for uploading a file, and the success, failure and skip counts of
 * a run. The HTTP requests, the interactive prompts, the file reads and the base64 encoding are
 * parameters: each request is represented by its status (or None when it raised).
 */
module Upload {
  import opened Wrappers
  import opened Json
  import opened PyText

  const RepoName: string := "UWB_HKSI"

  /** The configured user name and token are empty, so both are always asked for. */
  const ConfiguredUsername: string := ""
  const ConfiguredToken: string := ""

  /** IGNORE_PATTERNS, a Python set: the order in which it is searched does not matter. */
  const IgnorePatterns: set<string> := {
    "__pycache__", ".pyc", ".pyo", ".pyd", ".git",
    "venv", "env", ".venv", "ENV",
    ".vscode", ".idea", "*.swp", "*.swo",
    ".DS_Store", "Thumbs.db", "desktop.ini",
    "history", "*.jsonl", "run_output.txt",
    "*.log", "*.tmp", "*.bak"
  }

  // ---------------------------------------------------------------------------------------------
  // Ignore patterns

  /** A pattern written in shell-glob form: a leading `*`. */
  predicate IsGlob(pattern: string)
  {
    |pattern| > 0 && pattern[0] == '*'
  }

  /** should_ignore as written: some pattern occurs in the path text, glob patterns included. */
  predicate IgnoredAsWritten(path: string)
  {
    exists p :: p in IgnorePatterns && IsSubstring(p, path)
  }

  /**
   * A pattern as its form intends: `*X` matches a path ending in X (as fnmatch does on the
   * whole path), any other pattern matches a path containing it.
   */
  predicate Matches(pattern: string, path: string)
  {
    if IsGlob(pattern) then EndsWith(path, pattern[1..]) else IsSubstring(pattern, path)
  }

  /** should_ignore with glob patterns read as globs. */
  predicate Ignored(path: string)
  {
    exists p :: p in IgnorePatterns && Matches(p, path)
  }

  /** A plain (non-glob) pattern occurs in the path. */
  predicate PlainIgnored(path: string)
  {
    exists p :: p in IgnorePatterns && !IsGlob(p) && IsSubstring(p, path)
  }

  /** The path ends in the text after the `*` of some glob pattern. */
  predicate GlobSuffixed(path: string)
  {
    exists p :: p in IgnorePatterns && IsGlob(p) && EndsWith(path, p[1..])
  }

  /** Every character of an occurrence is in the text. */
  lemma OccurrenceChar(sub: string, s: string, k: int)
    requires IsSubstring(sub, s) && 0 <= k < |sub|
    ensures exists j :: 0 <= j < |s| && s[j] == sub[k]
  {
    var i: nat :| i <= |s| && OccursAt(s, sub, i);
    assert s[i..][..|sub|] == sub;
    assert s[i + k] == sub[k];
  }

  /** A text without a `*` contains no glob pattern. */
  lemma NoStarNoGlob(pattern: string, path: string)
    requires IsGlob(pattern)
    requires forall j :: 0 <= j < |path| ==> path[j] != '*'
    ensures !IsSubstring(pattern, path)
  {
    if IsSubstring(pattern, path) {
      OccurrenceChar(pattern, path, 0);
    }
  }

  /**
   * For any path without a `*` (every ordinary file name), the glob patterns as written ignore
   * nothing, and reading them as globs adds exactly the paths ending in their suffixes.
   */
  lemma GlobsInertAsWritten(path: string)
    requires forall j :: 0 <= j < |path| ==> path[j] != '*'
    ensures IgnoredAsWritten(path) <==> PlainIgnored(path)
    ensures Ignored(path) <==> IgnoredAsWritten(path) || GlobSuffixed(path)
  {
    if IgnoredAsWritten(path) {
      var p :| p in IgnorePatterns && IsSubstring(p, path);
      if IsGlob(p) {
        NoStarNoGlob(p, path);
      }
    }
    if Ignored(path) && !GlobSuffixed(path) {
      var p :| p in IgnorePatterns && Matches(p, path);
      assert !IsGlob(p);
    }
  }

  /** A text that lacks one character of `sub` does not contain it. */
  lemma MissingChar(sub: string, s: string, k: int)
    requires 0 <= k < |sub|
    requires forall j :: 0 <= j < |s| ==> s[j] != sub[k]
    ensures !IsSubstring(sub, s)
  {
    if IsSubstring(sub, s) {
      OccurrenceChar(sub, s, k);
    }
  }

  /** A log file is uploaded as written although `*.log` is meant to exclude it. */
  lemma GlobTakenLiterally()
    ensures !IgnoredAsWritten("a.log")
    ensures Ignored("a.log")
  {
    var path := "a.log";
    assert EndsWith(path, "*.log"[1..]);
    assert Matches("*.log", path);
    GlobsInertAsWritten(path);
    forall p | p in IgnorePatterns && !IsGlob(p)
      ensures !IsSubstring(p, path)
    {
      var k := PlainMissing(p);
      MissingChar(p, path, k);
    }
  }

  /** For each plain pattern, the index of one of its characters that "a.log" lacks. */
  function PlainMissing(p: string): (k: int)
    requires p in IgnorePatterns && !IsGlob(p)
    ensures 0 <= k < |p| && p[k] !in "a.log"
  {
    if p == ".git" || p == ".idea" || p == "desktop.ini" then 2
    else if p == ".pyc" || p == ".pyo" || p == ".pyd" || p == ".venv" || p == ".vscode" || p == ".DS_Store" then 1
    else 0
  }

  /** The substring reading reaches further than directory names: the history module itself is never uploaded. */
  lemma HistoryModuleIgnored()
    ensures IgnoredAsWritten("src/uwb_line_tracker/history.py")
    ensures Ignored("src/uwb_line_tracker/history.py")
  {
    var path := "src/uwb_line_tracker/history.py";
    assert path[21..][..7] == "history";
    assert OccursAt(path, "history", 21);
    assert Matches("history", path);
  }

  /** should_ignore, searching the pattern set in any order: a substring test for every pattern. */
  method ShouldIgnore(path: string) returns (r: bool)
    ensures r == IgnoredAsWritten(path)
  {
    var remaining := IgnorePatterns;
    while remaining != {}
      invariant remaining <= IgnorePatterns
      invariant forall p :: p in IgnorePatterns && p !in remaining ==> !IsSubstring(p, path)
      decreases |remaining|
    {
      var p :| p in remaining;
      if IsSubstring(p, path) {
        return true;
      }
      remaining := remaining - {p};
    }
    return false;
  }

  /** should_ignore as its patterns intend, with `*X` read as a glob; the script does not do this. */
  method ShouldIgnoreAsGlobs(path: string) returns (r: bool)
    ensures r == Ignored(path)
  {
    var remaining := IgnorePatterns;
    while remaining != {}
      invariant remaining <= IgnorePatterns
      invariant forall p :: p in IgnorePatterns && p !in remaining ==> !Matches(p, path)
      decreases |remaining|
    {
      var p :| p in remaining;
      if Matches(p, path) {
        return true;
      }
      remaining := remaining - {p};
    }
    return false;
  }

  // ---------------------------------------------------------------------------------------------
  // Collecting the files

  /** One item of root_dir.rglob("*"): its path relative to the root, and whether it is a file. */
  datatype Entry = Entry(path: string, isFile: bool)

  /** The files get_all_files keeps, in rglob order. */
  function Uploadable(entries: seq<Entry>): (r: seq<string>)
    ensures |r| <= |entries|
  {
    if entries == [] then []
    else
      var rest, e := Uploadable(entries[..|entries| - 1]), entries[|entries| - 1];
      if e.isFile && !IgnoredAsWritten(e.path) then rest + [e.path] else rest
  }

  /** A path is collected exactly when some entry with that path is a file that is not ignored. */
  lemma {:induction false} UploadableMembers(entries: seq<Entry>, path: string)
    ensures path in Uploadable(entries) <==>
      exists i :: 0 <= i < |entries| && entries[i].path == path && entries[i].isFile && !IgnoredAsWritten(path)
  {
    if entries != [] {
      var init, e := entries[..|entries| - 1], entries[|entries| - 1];
      UploadableMembers(init, path);
      assert forall i :: 0 <= i < |init| ==> init[i] == entries[i];
      assert entries[|init|] == e;
    }
  }

  /** A log file in the tree is collected for upload: the `*.log` pattern does not keep it out. */
  lemma LogFileCollected()
    ensures Uploadable([Entry("a.log", true)]) == ["a.log"]
  {
    GlobTakenLiterally();
    assert [Entry("a.log", true)][..0] == [];
  }

  /** get_all_files. */
  method GetAllFiles(entries: seq<Entry>) returns (files: seq<string>)
    ensures files == Uploadable(entries)
  {
    files := [];
    for i := 0 to |entries|
      invariant files == Uploadable(entries[..i])
    {
      assert entries[..i + 1][..i] == entries[..i];
      var ignored := ShouldIgnore(entries[i].path);
      if entries[i].isFile && !ignored {
        files := files + [entries[i].path];
      }
    }
    assert entries[..|entries|] == entries;
  }

  // ---------------------------------------------------------------------------------------------
  // Requests

  /** str(relative_path).replace("\\", "/"): the path with every backslash turned into a slash. */
  function GithubPath(path: string): (r: string)
    ensures |r| == |path|
    ensures forall i :: 0 <= i < |r| ==> r[i] != '\\'
    ensures forall i :: 0 <= i < |r| && path[i] != '\\' ==> r[i] == path[i]
  {
    ReplaceChar(path, '\\', '/')
  }

  /** A path without backslashes is uploaded under its own name, so converting twice changes nothing more. */
  lemma GithubPathIdentity(path: string)
    ensures (forall i :: 0 <= i < |path| ==> path[i] != '\\') ==> GithubPath(path) == path
    ensures GithubPath(GithubPath(path)) == GithubPath(path)
  {
  }

  /** create_repo: created (201) and already existing (422) both let the upload go on. */
  function CreateRepo(status: int): (ok: bool)
  {
    status == 201 || status == 422
  }

  /** The GET that looks for an existing file: its status and the decoded body (Err when it is not JSON). */
  datatype Lookup = Lookup(status: int, body: Result<JValue>)

  /** The JSON body of the PUT. */
  datatype PutBody = PutBody(message: string, content: string, encoding: string, sha: Option<JValue>)

  /**
   * The `sha` create_or_update_file finds: response.json().get("sha") after a 200, JNull standing
   * for None; a raised request, a body that is not JSON or not an object, and any other status give None.
   */
  function ExistingSha(lookup: Option<Lookup>): JValue
  {
    if lookup.None? || lookup.value.status != 200 || lookup.value.body.Err? then JNull
    else
      match Get(lookup.value.body.value, "sha", JNull)
      case Ok(sha) => sha
      case Err(_) => JNull
  }

  /**
   * create_or_update_file: the PUT body carries the message and content with base64 encoding, and
   * the existing sha when it is truthy; the result is whether the PUT answered 200 or 201 (None
   * when it raised).
   */
  function CreateOrUpdateFile(lookup: Option<Lookup>, putStatus: Option<int>, message: string, content: string): (r: (PutBody, bool))
    ensures r.0.message == message && r.0.content == content && r.0.encoding == "base64"
    ensures r.0.sha.Some? <==>
      && lookup.Some? && lookup.value.status == 200 && lookup.value.body.Ok?
      && lookup.value.body.value.JObj? && "sha" in lookup.value.body.value.fields
      && Truthy(lookup.value.body.value.fields["sha"])
    ensures r.0.sha.Some? ==> r.0.sha.value == lookup.value.body.value.fields["sha"]
    ensures r.1 <==> putStatus == Some(200) || putStatus == Some(201)
  {
    var sha := ExistingSha(lookup);
    var body := PutBody(message, content, "base64", if Truthy(sha) then Some(sha) else None);
    (body, putStatus.Some? && (putStatus.value == 200 || putStatus.value == 201))
  }

  // ---------------------------------------------------------------------------------------------
  // A whole run

  /**
   * The outside world of one run: the encoded content of each collected file (None when it cannot
   * be read or is not UTF-8), and the GET and PUT outcomes for each GitHub path.
   */
  datatype Services = Services(
    content: string -> Option<string>,
    lookup: string -> Option<Lookup>,
    put: string -> Option<int>)

  /** Whether one collected file is uploaded: None when it is skipped. */
  function Uploaded(s: Services, file: string): Option<bool>
  {
    match s.content(file)
    case None => None
    case Some(content) =>
      var path := GithubPath(file);
      Some(CreateOrUpdateFile(s.lookup(path), s.put(path), "Add " + path, content).1)
  }

  /** The (success, fail, skipped) counts after the given files. */
  function Tally(s: Services, files: seq<string>): (r: (nat, nat, nat))
    ensures r.0 + r.1 + r.2 == |files|
  {
    if files == [] then (0, 0, 0)
    else
      var (ok, failed, skipped) := Tally(s, files[..|files| - 1]);
      match Uploaded(s, files[|files| - 1])
      case None => (ok, failed, skipped + 1)
      case Some(true) => (ok + 1, failed, skipped)
      case Some(false) => (ok, failed + 1, skipped)
  }

  /** When every file can be read nothing is skipped; when moreover every PUT answers 201 nothing fails. */
  lemma {:induction false} TallyAllReadable(s: Services, files: seq<string>)
    requires forall i :: 0 <= i < |files| ==> s.content(files[i]).Some?
    ensures Tally(s, files).2 == 0
    ensures (forall i :: 0 <= i < |files| ==> s.put(GithubPath(files[i])) == Some(201)) ==>
      Tally(s, files) == (|files|, 0, 0)
  {
    if files != [] {
      TallyAllReadable(s, files[..|files| - 1]);
    }
  }

  datatype Outcome =
    | MissingUsername
    | MissingToken
    | RepoNotCreated(status: int)
      /** requests.post raised: create_repo does not catch it, so the run ends with that exception. */
    | RepoRequestRaised
    | Finished(success: nat, fail: nat, skipped: nat)

  /**
   * main: an empty user name or token (after strip) ends the run; a repository that is neither
   * created nor already there ends it; otherwise every collected file is skipped, uploaded or
   * counted as failed.
   */
  method RunUpload(typedUsername: string, typedToken: string, createStatus: Option<int>,
                   entries: seq<Entry>, s: Services) returns (outcome: Outcome)
    ensures Strip(typedUsername) == [] ==> outcome == MissingUsername
    ensures Strip(typedUsername) != [] && Strip(typedToken) == [] ==> outcome == MissingToken
    ensures Strip(typedUsername) != [] && Strip(typedToken) != [] ==>
      match createStatus
      case None => outcome == RepoRequestRaised
      case Some(status) =>
        if CreateRepo(status) then
          var (ok, failed, skipped) := Tally(s, Uploadable(entries));
          outcome == Finished(ok, failed, skipped)
        else outcome == RepoNotCreated(status)
    ensures outcome.Finished? ==> outcome.success + outcome.fail + outcome.skipped == |Uploadable(entries)|
  {
    var username, token := ConfiguredUsername, ConfiguredToken;
    if username == [] {
      username := Strip(typedUsername);
      if username == [] {
        return MissingUsername;
      }
    }
    if token == [] {
      token := Strip(typedToken);
      if token == [] {
        return MissingToken;
      }
    }
    if createStatus.None? {
      return RepoRequestRaised;
    }
    if !CreateRepo(createStatus.value) {
      return RepoNotCreated(createStatus.value);
    }
    var files := GetAllFiles(entries);
    var ok, failed, skipped := UploadAll(files, s);
    outcome := Finished(ok, failed, skipped);
  }

  /** The upload loop of main over the collected files. */
  method UploadAll(files: seq<string>, s: Services) returns (ok: nat, failed: nat, skipped: nat)
    ensures (ok, failed, skipped) == Tally(s, files)
  {
    ok, failed, skipped := 0, 0, 0;
    for i := 0 to |files|
      invariant (ok, failed, skipped) == Tally(s, files[..i])
    {
      assert files[..i + 1][..i] == files[..i];
      var content := s.content(files[i]);
      if content.None? {
        skipped := skipped + 1;
        continue;
      }
      var githubPath := GithubPath(files[i]);
      var (_, uploaded) := CreateOrUpdateFile(s.lookup(githubPath), s.put(githubPath), "Add " + githubPath, content.value);
      assert Uploaded(s, files[i]) == Some(uploaded);
      if uploaded {
        ok := ok + 1;
      } else {
        failed := failed + 1;
      }
    }
    assert files[..|files|] == files;
  }
}
