/** The newest commit that touched each child of a directory, from one walk of the log, and the batched pointer
    lookup. */
module PathHistory {
  import opened Text
  import opened Pointer
  import opened Readers

  const MAX_BYTES := 32 * 1024 * 1024

  /** A commit of the log and the paths it lists. */
  datatype LogEntry = LogEntry(commit: string, paths: seq<string>)

  predicate IsObjectId(s: string) { 40 <= |s| <= 64 && forall i :: 0 <= i < |s| ==> IsHex(s[i]) }

  function StripNewlines(s: string): string { if s != "" && s[0] == '\n' then StripNewlines(s[1..]) else s }

  /** The paths a record's fields list: leading newlines belong to the format, and empty fields are no paths. */
  function Paths(fields: seq<string>): seq<string>
  {
    if fields == [] then [] else (if StripNewlines(fields[0]) == "" then [] else [StripNewlines(fields[0])]) + Paths(fields[1..])
  }

  /** One record of the log's output; what is no commit record is passed over. */
  function EntryOf(record: string): Option<LogEntry>
  {
    var fields := Split(record, NUL);
    if |fields| < 2 || !IsObjectId(fields[0]) then None else Some(LogEntry(fields[0], Paths(fields[1..])))
  }

  function Entries(records: seq<string>): seq<LogEntry>
  {
    if records == [] then []
    else Entries(Front(records)) + match EntryOf(Last(records)) { case None => [] case Some(entry) => [entry] }
  }

  /** The log an output presents, newest commit first. */
  function Log(output: string): seq<LogEntry> { Entries(Split(output, RS)) }

  /** The child of the directory that a path lies in. */
  function ChildOf(directory: string, path: string): Option<string>
  {
    var prefix := if directory == "" then "" else directory + "/";
    if path == "" || !(prefix <= path) then None else Some(Split(path[|prefix|..], '/')[0])
  }

  ghost predicate Touches(entry: LogEntry, directory: string, child: string)
  {
    exists i :: 0 <= i < |entry.paths| && ChildOf(directory, entry.paths[i]) == Some(child)
  }

  ghost predicate Touched(log: seq<LogEntry>, directory: string, child: string)
  {
    exists i :: 0 <= i < |log| && Touches(log[i], directory, child)
  }

  /** `commit` is the newest of the log that touched the child. */
  ghost predicate IsNewest(log: seq<LogEntry>, directory: string, child: string, commit: string)
  {
    exists i :: 0 <= i < |log| && log[i].commit == commit && Touches(log[i], directory, child) && !Touched(log[..i], directory, child)
  }

  /** What the walk knows after part of the log: the newest commit of every child touched so far, and who is left. */
  ghost predicate Attributed(log: seq<LogEntry>, directory: string, names: set<string>, commits: map<string, string>,
                             remaining: set<string>)
  {
    && commits.Keys == names - remaining && remaining <= names
    && (forall c :: c in commits ==> IsNewest(log, directory, c, commits[c]))
    && (forall c :: c in remaining ==> !Touched(log, directory, c))
  }

  lemma NewestInPrefix(log: seq<LogEntry>, more: seq<LogEntry>, directory: string, child: string, commit: string)
    requires IsNewest(log, directory, child, commit)
    ensures IsNewest(log + more, directory, child, commit)
  {
    hide Touches;
    var i :| 0 <= i < |log| && log[i].commit == commit && Touches(log[i], directory, child) && !Touched(log[..i], directory, child);
    assert (log + more)[..i] == log[..i] && (log + more)[i] == log[i];
  }

  lemma TouchedByOneMore(log: seq<LogEntry>, entry: LogEntry, directory: string, child: string)
    ensures Touched(log + [entry], directory, child) <==>
              Touched(log, directory, child) || Touches(entry, directory, child)
  {
    hide Touches;
    if Touches(entry, directory, child) {
      assert (log + [entry])[|log|] == entry;
    }
    if Touched(log, directory, child) {
      var i :| 0 <= i < |log| && Touches(log[i], directory, child);
      assert (log + [entry])[i] == log[i];
    }
  }

  /** Touched by one of the first `n` paths. */
  ghost predicate TouchedWithin(entry: LogEntry, directory: string, child: string, n: nat)
  {
    exists i :: 0 <= i < n && i < |entry.paths| && ChildOf(directory, entry.paths[i]) == Some(child)
  }

  /** `consume` for a commit record. */
  method ConsumeEntry(entry: LogEntry, directory: string, remaining: set<string>, commits: map<string, string>)
    returns (left: set<string>, found: map<string, string>)
    ensures left <= remaining && forall c :: c in left <==> c in remaining && !Touches(entry, directory, c)
    ensures forall c :: c in remaining && c !in left ==> c in found && found[c] == entry.commit
    ensures forall c ::
              c !in remaining || c in left ==>
                (c in found <==> c in commits) && (c in commits ==> found[c] == commits[c])
  {
    left, found := remaining, commits;
    for n := 0 to |entry.paths|
      invariant left <= remaining && forall c :: c in left <==> c in remaining && !TouchedWithin(entry, directory, c, n)
      invariant forall c :: c in remaining && c !in left ==> c in found && found[c] == entry.commit
      invariant forall c ::
                  c !in remaining || c in left ==>
                    (c in found <==> c in commits) && (c in commits ==> found[c] == commits[c])
    {
      var child := ChildOf(directory, entry.paths[n]);
      forall c
        ensures TouchedWithin(entry, directory, c, n + 1) <==> TouchedWithin(entry, directory, c, n) || child == Some(c)
      {
        OneMorePath(entry, directory, c, n);
      }
      if child.Some? && child.value in left {
        found := found[child.value := entry.commit];
        left := left - {child.value};
      }
    }
    assert forall c :: TouchedWithin(entry, directory, c, |entry.paths|) <==> Touches(entry, directory, c);
  }

  lemma OneMorePath(entry: LogEntry, directory: string, c: string, n: nat)
    requires n < |entry.paths|
    ensures TouchedWithin(entry, directory, c, n + 1) <==>
              TouchedWithin(entry, directory, c, n) || ChildOf(directory, entry.paths[n]) == Some(c)
  {
    hide ChildOf;
    if i :| 0 <= i < n + 1 && i < |entry.paths| && ChildOf(directory, entry.paths[i]) == Some(c) {
      assert i < n || i == n;
    }
  }

  lemma ConsumedIsAttributed(log: seq<LogEntry>, entry: LogEntry, directory: string, names: set<string>,
        commits: map<string, string>, remaining: set<string>, found: map<string, string>, left: set<string>)
    requires Attributed(log, directory, names, commits, remaining)
    requires left <= remaining && forall c :: c in left <==> c in remaining && !Touches(entry, directory, c)
    requires forall c :: c in remaining && c !in left ==> c in found && found[c] == entry.commit
    requires forall c ::
               c !in remaining || c in left ==>
                 (c in found <==> c in commits) && (c in commits ==> found[c] == commits[c])
    ensures Attributed(log + [entry], directory, names, found, left)
  {
    hide Touches, Touched, IsNewest;
    assert found.Keys == names - left;
    forall c | c in found
      ensures IsNewest(log + [entry], directory, c, found[c])
    {
      if c in commits {
        NewestInPrefix(log, [entry], directory, c, commits[c]);
      } else {
        NewestIsLast(log, entry, directory, c);
      }
    }
    forall c | c in left
      ensures !Touched(log + [entry], directory, c)
    {
      TouchedByOneMore(log, entry, directory, c);
    }
  }

  lemma NewestIsLast(log: seq<LogEntry>, entry: LogEntry, directory: string, child: string)
    requires !Touched(log, directory, child) && Touches(entry, directory, child)
    ensures IsNewest(log + [entry], directory, child, entry.commit)
  {
    hide Touches, Touched;
    var longer := log + [entry];
    assert longer[|log|] == entry && longer[..|log|] == log;
  }

  lemma EntriesOneMore(records: seq<string>, record: string)
    ensures Entries(records + [record])
         == Entries(records) + match EntryOf(record) { case None => [] case Some(entry) => [entry] }
  {
    assert Front(records + [record]) == records && Last(records + [record]) == record;
  }

  lemma {:induction false} EntriesConcat(a: seq<string>, b: seq<string>)
    ensures Entries(a) <= Entries(a + b)
    decreases |b|
  {
    if b == [] {
      assert a + b == a;
    } else {
      EntriesConcat(a, Front(b));
      assert a + b == (a + Front(b)) + [Last(b)];
      EntriesOneMore(a + Front(b), Last(b));
    }
  }

  /** `consume` over several records. */
  method ConsumeAll(ghost before: seq<string>, records: seq<string>, directory: string, ghost names: set<string>,
        remaining: set<string>, commits: map<string, string>)
    returns (left: set<string>, found: map<string, string>)
    requires Attributed(Entries(before), directory, names, commits, remaining)
    ensures Attributed(Entries(before + records), directory, names, found, left)
  {
    hide Attributed, Entries, EntryOf, Touches;
    left, found := remaining, commits;
    assert before + records[..0] == before;
    for n := 0 to |records|
      invariant Attributed(Entries(before + records[..n]), directory, names, found, left)
    {
      assert before + records[..n + 1] == (before + records[..n]) + [records[n]];
      EntriesOneMore(before + records[..n], records[n]);
      var entry := EntryOf(records[n]);
      if entry.Some? {
        var nextLeft, nextFound := ConsumeEntry(entry.value, directory, left, found);
        ConsumedIsAttributed(Entries(before + records[..n]), entry.value, directory, names, found, left, nextFound, nextLeft);
        left, found := nextLeft, nextFound;
      } else {
        assert Entries(before + records[..n]) + [] == Entries(before + records[..n]);
      }
    }
    assert before + records[..|records|] == before + records;
  }

  /** The commits found are the newest of the whole log; without a cut, every touched child is found. */
  ghost predicate IsHistory(log: seq<LogEntry>, directory: string, names: set<string>, commits: map<string, string>,
                            cut: bool)
  {
    && commits.Keys <= names
    && (forall c :: c in commits ==> IsNewest(log, directory, c, commits[c]))
    && (!cut ==> forall c :: c in names && Touched(log, directory, c) ==> c in commits)
  }

  lemma AttributedIsHistory(records: seq<string>, more: seq<string>, directory: string, names: set<string>,
                            commits: map<string, string>, remaining: set<string>, cut: bool)
    requires Attributed(Entries(records), directory, names, commits, remaining)
    requires (cut || remaining == {} || more == [])
    ensures IsHistory(Entries(records + more), directory, names, commits, cut)
  {
    hide Touched, IsNewest, Entries;
    EntriesConcat(records, more);
    var log := Entries(records + more);
    var tail := log[|Entries(records)|..];
    assert log == Entries(records) + tail;
    forall c | c in commits
      ensures IsNewest(log, directory, c, commits[c])
    {
      NewestInPrefix(Entries(records), tail, directory, c, commits[c]);
    }
    if more == [] {
      assert records + more == records;
    }
  }

  /** Some child is untouched by the complete records of the output, so the walk needs its end. */
  ghost predicate NeedsEnd(content: string, directory: string, names: set<string>)
  {
    exists c :: c in names && !Touched(Entries(Front(Split(content, RS))), directory, c)
  }

  /** `_latest_path_commit_ids`: each answer is the newest commit of the whole log that touched the child, for any
      chunking; every touched child is answered unless the output exceeds the byte bound. A failed process is an error
      exactly when the walk read all of its output within the bound and still needed its end. */
  method LatestCommits(pipe: Pipe, directory: string, names: set<string>, failed: bool)
    returns (result: Result<map<string, string>, ()>)
    requires pipe.Valid() && pipe.position == 0
    modifies pipe
    ensures result.Ok? ==> IsHistory(Log(pipe.content), directory, names, result.value, |pipe.content| > MAX_BYTES)
    ensures result.Err? <==> failed && |pipe.content| <= MAX_BYTES && NeedsEnd(pipe.content, directory, names)
  {
    hide Attributed, IsHistory, Entries, Split, NeedsEnd;
    var remaining, commits: map<string, string> := names, map[];
    var buffer := "";
    ghost var consumed: seq<string> := [];
    var stopped := false;
    NothingAttributed(directory, names);
    SplitPlain("", RS);
    while remaining != {}
      invariant pipe.Valid() && !stopped && pipe.position <= MAX_BYTES
      invariant Split(pipe.content[..pipe.position], RS) == consumed + [buffer]
      invariant Attributed(Entries(consumed), directory, names, commits, remaining)
      decreases |pipe.content| - pipe.position
    {
      ghost var before := pipe.position;
      ghost var held := buffer;
      var chunk := pipe.Read(CHUNK);
      if chunk == "" {
        break;
      }
      if pipe.position > MAX_BYTES {
        CutIsHistory(pipe.content, before, consumed, held, directory, names, commits, remaining);
        return Ok(commits);
      }
      ReadOneMore(pipe.content, before, pipe.position, consumed, held);
      assert pipe.content[before..pipe.position] == chunk;
      var pieces := Split(buffer + chunk, RS);
      remaining, commits := ConsumeAll(consumed, Front(pieces), directory, names, remaining, commits);
      consumed, buffer := consumed + Front(pieces), Last(pieces);
      assert consumed + [buffer] == consumed[..|consumed| - |Front(pieces)|] + pieces;
      if remaining == {} {
        stopped := true;
        break;
      }
    }
    if stopped || remaining == {} {
      StoppedIsHistory(pipe.content, pipe.position, consumed, buffer, directory, names, commits, remaining);
      StoppedNeedsNoEnd(pipe.content, pipe.position, consumed, buffer, directory, names, commits, remaining);
      return Ok(commits);
    }
    assert pipe.content[..pipe.position] == pipe.content;
    OpenNeedsEnd(pipe.content, consumed, buffer, directory, names, commits, remaining);
    remaining, commits := ConsumeAll(consumed, [buffer], directory, names, remaining, commits);
    AttributedIsHistory(consumed + [buffer], [], directory, names, commits, remaining, false);
    assert consumed + [buffer] + [] == consumed + [buffer];
    if failed {
      return Err(());
    }
    WeakerHistory(Log(pipe.content), directory, names, commits, |pipe.content| > MAX_BYTES);
    return Ok(commits);
  }

  lemma TouchedInPrefix(log: seq<LogEntry>, longer: seq<LogEntry>, directory: string, child: string)
    requires log <= longer && Touched(log, directory, child)
    ensures Touched(longer, directory, child)
  {
    hide Touches;
    var i :| 0 <= i < |log| && Touches(log[i], directory, child);
    assert longer[i] == log[i];
  }

  lemma StoppedNeedsNoEnd(content: string, position: nat, consumed: seq<string>, buffer: string, directory: string, names: set<string>,
                          commits: map<string, string>, remaining: set<string>)
    requires position <= |content| && Split(content[..position], RS) == consumed + [buffer] && remaining == {}
    requires Attributed(Entries(consumed), directory, names, commits, remaining)
    ensures !NeedsEnd(content, directory, names)
  {
    hide Split, Entries, Touched;
    ReadOneMore(content, position, |content|, consumed, buffer);
    assert content[..|content|] == content;
    var rest := Split(buffer + content[position..|content|], RS);
    assert Front(consumed + rest) == consumed + Front(rest);
    EntriesConcat(consumed, Front(rest));
    forall c | c in names
      ensures Touched(Entries(Front(Split(content, RS))), directory, c)
    {
      NewestIsTouched(Entries(consumed), directory, c, commits[c]);
      TouchedInPrefix(Entries(consumed), Entries(consumed + Front(rest)), directory, c);
    }
  }

  lemma NewestIsTouched(log: seq<LogEntry>, directory: string, child: string, commit: string)
    requires IsNewest(log, directory, child, commit)
    ensures Touched(log, directory, child)
  {
    hide Touches;
  }

  lemma OpenNeedsEnd(content: string, consumed: seq<string>, buffer: string, directory: string, names: set<string>,
                     commits: map<string, string>, remaining: set<string>)
    requires Split(content, RS) == consumed + [buffer] && remaining != {}
    requires Attributed(Entries(consumed), directory, names, commits, remaining)
    ensures NeedsEnd(content, directory, names)
  {
    hide Split, Entries, Touched;
    assert Front(consumed + [buffer]) == consumed;
    var c :| c in remaining;
    assert c in names && !Touched(Entries(consumed), directory, c);
  }

  lemma WeakerHistory(log: seq<LogEntry>, directory: string, names: set<string>, commits: map<string, string>,
                      cut: bool)
    requires IsHistory(log, directory, names, commits, false)
    ensures IsHistory(log, directory, names, commits, cut)
  {
  }

  lemma NothingAttributed(directory: string, names: set<string>)
    ensures Attributed(Entries([]), directory, names, map[], names)
  {
  }

  lemma ReadOneMore(content: string, before: nat, after: nat, consumed: seq<string>, buffer: string)
    requires before <= after <= |content| && Split(content[..before], RS) == consumed + [buffer]
    ensures Split(content[..after], RS) == consumed + Split(buffer + content[before..after], RS)
  {
    assert content[..before] + content[before..after] == content[..after];
    SplitAppend(content[..before], content[before..after], RS);
    assert Front(consumed + [buffer]) == consumed && Last(consumed + [buffer]) == buffer;
  }

  lemma CutIsHistory(content: string, position: nat, consumed: seq<string>, buffer: string, directory: string,
                     names: set<string>, commits: map<string, string>, remaining: set<string>)
    requires position <= |content| && Split(content[..position], RS) == consumed + [buffer]
    requires Attributed(Entries(consumed), directory, names, commits, remaining)
    ensures IsHistory(Log(content), directory, names, commits, true)
  {
    hide Split, Entries, IsHistory, Attributed;
    ReadOneMore(content, position, |content|, consumed, buffer);
    assert content[..|content|] == content;
    AttributedIsHistory(consumed, Split(buffer + content[position..|content|], RS), directory, names, commits, remaining, true);
  }

  lemma StoppedIsHistory(content: string, position: nat, consumed: seq<string>, buffer: string, directory: string,
                         names: set<string>, commits: map<string, string>, remaining: set<string>)
    requires position <= |content| && Split(content[..position], RS) == consumed + [buffer] && remaining == {}
    requires Attributed(Entries(consumed), directory, names, commits, remaining)
    ensures IsHistory(Log(content), directory, names, commits, |content| > MAX_BYTES)
  {
    hide Split, Entries, IsHistory, Attributed;
    ReadOneMore(content, position, |content|, consumed, buffer);
    assert content[..|content|] == content;
    AttributedIsHistory(consumed, Split(buffer + content[position..|content|], RS), directory, names, commits, remaining, |content| > MAX_BYTES);
  }

  // ---- the output of a log -----------------------------------------------------------------------------

  /** What Git accepts as a path. */
  predicate IsGitPath(path: string) { path != "" && NUL !in path }

  /** A path without a record separator that does not begin with a newline. */
  predicate IsPath(path: string) { IsGitPath(path) && path[0] != '\n' && RS !in path }

  predicate IsEntry(entry: LogEntry)
  {
    IsObjectId(entry.commit) && forall i :: 0 <= i < |entry.paths| ==> IsPath(entry.paths[i])
  }

  function Listed(paths: seq<string>): string
  {
    if paths == [] then "" else paths[0] + [NUL] + Listed(paths[1..])
  }

  /** `git log --format=%x1e%H --name-only -z`. */
  function Printed(log: seq<LogEntry>): string
  {
    if log == [] then "" else Printed(Earlier(log)) + [RS] + PrintedEntry(log[|log| - 1])
  }

  function Earlier(log: seq<LogEntry>): seq<LogEntry>
    requires log != []
  {
    log[..|log| - 1]
  }

  function PrintedEntry(entry: LogEntry): string
  {
    entry.commit + [NUL] + (if entry.paths == [] then "" else "\n" + Listed(entry.paths))
  }

  lemma {:induction false} SplitListed(paths: seq<string>)
    requires forall i :: 0 <= i < |paths| ==> IsPath(paths[i])
    ensures Split(Listed(paths), NUL) == paths + [""]
  {
    if paths != [] {
      SplitListed(paths[1..]);
      SplitHead(paths[0], Listed(paths[1..]), NUL);
    }
  }

  lemma {:induction false} PathsOfListed(paths: seq<string>)
    requires forall i :: 0 <= i < |paths| ==> IsPath(paths[i])
    ensures Paths(paths + [""]) == paths
  {
    if paths == [] {
      assert [""][1..] == [];
    } else {
      PathsOfListed(paths[1..]);
      assert (paths + [""])[1..] == paths[1..] + [""];
    }
  }

  lemma IdIsPlain(id: string)
    requires IsObjectId(id)
    ensures NUL !in id && RS !in id
  {
    assert !IsHex(NUL) && !IsHex(RS);
  }

  lemma EntryOfPrinted(entry: LogEntry)
    requires IsEntry(entry)
    ensures EntryOf(PrintedEntry(entry)) == Some(entry)
  {
    hide Listed;
    IdIsPlain(entry.commit);
    var tail := if entry.paths == [] then "" else "\n" + Listed(entry.paths);
    SplitHead(entry.commit, tail, NUL);
    if entry.paths == [] {
      SplitPlain("", NUL);
      assert Paths([""]) == [] by { PathsOfListed([]); assert [] + [""] == [""]; }
    } else {
      FieldsOfPaths(entry.paths);
    }
  }

  lemma PathsUnfold(first: string, rest: seq<string>)
    ensures Paths([first] + rest) == (if StripNewlines(first) == "" then [] else [StripNewlines(first)]) + Paths(rest)
  {
    assert ([first] + rest)[1..] == rest;
  }

  lemma StripsOneNewline(path: string)
    requires IsPath(path)
    ensures StripNewlines("\n" + path) == path
  {
    assert ("\n" + path)[1..] == path;
  }

  lemma NewlineFirst(path: string, listed: string)
    ensures "\n" + (path + [NUL] + listed) == ("\n" + path) + [NUL] + listed
  {
  }

  lemma FieldsOfPaths(paths: seq<string>)
    requires paths != [] && forall i :: 0 <= i < |paths| ==> IsPath(paths[i])
    ensures Paths(Split("\n" + Listed(paths), NUL)) == paths
  {
    hide Split, Paths, StripNewlines;
    var path, rest := paths[0], paths[1..];
    assert IsPath(path);
    SplitListed(rest);
    PathsOfListed(rest);
    FieldsOfFirst(path, rest, Listed(rest));
    assert paths == [path] + rest;
  }

  lemma FieldsOfFirst(path: string, rest: seq<string>, listed: string)
    requires IsPath(path) && Split(listed, NUL) == rest + [""] && Paths(rest + [""]) == rest
    ensures Paths(Split("\n" + (path + [NUL] + listed), NUL)) == [path] + rest
  {
    hide Split, Paths, StripNewlines;
    NewlineFirst(path, listed);
    SplitHead("\n" + path, listed, NUL);
    StripsOneNewline(path);
    PathsUnfold("\n" + path, rest + [""]);
  }

  lemma {:induction false} ListedIsPlain(paths: seq<string>)
    requires forall i :: 0 <= i < |paths| ==> IsPath(paths[i])
    ensures RS !in Listed(paths)
  {
    if paths != [] {
      ListedIsPlain(paths[1..]);
    }
  }

  lemma PrintedEntryIsPlain(entry: LogEntry)
    requires IsEntry(entry)
    ensures RS !in PrintedEntry(entry)
  {
    hide Listed;
    IdIsPlain(entry.commit);
    ListedIsPlain(entry.paths);
  }

  /** Reading back the output of a log without such paths gives the log. */
  lemma {:induction false} LogOfPrinted(log: seq<LogEntry>)
    requires forall i :: 0 <= i < |log| ==> IsEntry(log[i])
    ensures Log(Printed(log)) == log
    decreases |log|
  {
    hide Split, EntryOf, PrintedEntry, IsEntry;
    if log == [] {
      SplitPlain("", RS);
      NoEntryInNothing();
    } else {
      var last := log[|log| - 1];
      LogOfPrinted(Earlier(log));
      PrintedEntryIsPlain(last);
      EntryOfPrinted(last);
      SplitConcat(Printed(Earlier(log)), PrintedEntry(last), RS);
      SplitPlain(PrintedEntry(last), RS);
      EntriesOneMore(Split(Printed(Earlier(log)), RS), PrintedEntry(last));
      assert log == Earlier(log) + [last];
    }
  }

  lemma {:induction false} PathsAreClean(fields: seq<string>)
    requires forall i :: 0 <= i < |fields| ==> NUL !in fields[i] && RS !in fields[i]
    ensures forall i :: 0 <= i < |Paths(fields)| ==> IsPath(Paths(fields)[i])
  {
    if fields == [] {
    } else {
      StrippedIsClean(fields[0]);
      PathsAreClean(fields[1..]);
    }
  }

  lemma {:induction false} StrippedIsClean(s: string)
    requires NUL !in s && RS !in s
    ensures StripNewlines(s) != "" ==> IsPath(StripNewlines(s))
  {
    if s != "" && s[0] == '\n' {
      StrippedIsClean(s[1..]);
    }
  }

  lemma {:induction false} PiecesLack(s: string, sep: char, c: char)
    requires c !in s
    ensures forall i :: 0 <= i < |Split(s, sep)| ==> c !in Split(s, sep)[i]
  {
    if s != "" {
      PiecesLack(s[1..], sep, c);
    }
  }

  lemma EntryIsClean(record: string)
    requires RS !in record
    ensures EntryOf(record).Some? ==> IsEntry(EntryOf(record).value)
  {
    hide Split;
    PiecesLack(record, NUL, RS);
    var fields := Split(record, NUL);
    if |fields| >= 2 {
      PathsAreClean(fields[1..]);
    }
  }

  lemma {:induction false} EntriesAreClean(records: seq<string>)
    requires forall i :: 0 <= i < |records| ==> RS !in records[i]
    ensures forall i :: 0 <= i < |Entries(records)| ==> IsEntry(Entries(records)[i])
    decreases |records|
  {
    hide EntryOf, IsEntry;
    if records == [] {
    } else {
      EntriesAreClean(Front(records));
      EntryIsClean(Last(records));
    }
  }

  /** The output of a log is read back as that log exactly when no path holds a record separator or begins with a
      newline;
      Git accepts both in paths. */
  lemma LogReadsBackExactlyWhen(log: seq<LogEntry>)
    requires forall i :: 0 <= i < |log| ==> IsObjectId(log[i].commit)
    requires forall i, j :: 0 <= i < |log| && 0 <= j < |log[i].paths| ==> IsGitPath(log[i].paths[j])
    ensures Log(Printed(log)) == log <==> forall i :: 0 <= i < |log| ==> IsEntry(log[i])
  {
    hide Split, Entries, Printed, IsEntry;
    EntriesAreClean(Split(Printed(log), RS));
    if forall i :: 0 <= i < |log| ==> IsEntry(log[i]) {
      LogOfPrinted(log);
    }
  }

  /** A path that holds a separator and an identifier is read as the end of its commit's record and the start of
      another:
      the paths listed behind it are attributed to that other identifier. */
  lemma SeparatorInPathSplitsRecord(id: string, other: string)
    requires IsObjectId(id) && IsObjectId(other)
    ensures IsGitPath("a" + [RS] + other)
    ensures Log(Printed([LogEntry(id, ["a" + [RS] + other, "b"])])) == [LogEntry(id, ["a"]), LogEntry(other, ["b"])]
  {
    IdIsPlain(id);
    IdIsPlain(other);
    hide Split, EntryOf, IsObjectId, Paths;
    var first, second := id + [NUL] + "\na", other + [NUL] + "b" + [NUL];
    PrintedSeparator(id, other);
    SplitConcat("", first + [RS] + second, RS);
    assert "" + [RS] + (first + [RS] + second) == [RS] + first + [RS] + second;
    SplitHead(first, second, RS);
    SplitPlain("", RS);
    SplitPlain(second, RS);
    assert [""] + ([first] + [second]) == ["", first] + [second];
    FirstHalf(id);
    SecondHalf(other);
    NoEntryInNothing();
    assert [""] + [first] == ["", first];
    EntriesOneMore([""], first);
    EntriesOneMore(["", first], second);
  }

  lemma PrintedSeparator(id: string, other: string)
    ensures Printed([LogEntry(id, ["a" + [RS] + other, "b"])])
         == [RS] + (id + [NUL] + "\na") + [RS] + (other + [NUL] + "b" + [NUL])
  {
    var path := "a" + [RS] + other;
    var log := [LogEntry(id, [path, "b"])];
    assert log[..0] == [] && [path, "b"][1..] == ["b"] && ["b"][1..] == [];
    assert Listed(["b"]) == "b" + [NUL] + "";
    assert Listed([path, "b"]) == path + [NUL] + Listed(["b"]);
    assert Printed(log) == "" + [RS] + PrintedEntry(log[0]);
    assert PrintedEntry(log[0]) == id + [NUL] + ("\n" + Listed([path, "b"]));
  }

  lemma FirstHalf(id: string)
    requires IsObjectId(id)
    ensures EntryOf(id + [NUL] + "\na") == Some(LogEntry(id, ["a"]))
  {
    IdIsPlain(id);
    SplitHead(id, "\na", NUL);
    SplitPlain("\na", NUL);
    assert "\n" + "a" == "\na";
    StripsOneNewline("a");
    PathsUnfold("\na", []);
    assert ["a"] + [] == ["a"];
    assert ["\na"] + [] == ["\na"];
  }

  lemma SecondHalf(id: string)
    requires IsObjectId(id)
    ensures EntryOf(id + [NUL] + "b" + [NUL]) == Some(LogEntry(id, ["b"]))
  {
    IdIsPlain(id);
    assert id + [NUL] + "b" + [NUL] == id + [NUL] + ("b" + [NUL] + "");
    SplitHead(id, "b" + [NUL] + "", NUL);
    SplitHead("b", "", NUL);
    SplitPlain("", NUL);
    PathsOfListed(["b"]);
    assert ["b"] + [""] == ["b", ""];
  }

  lemma NoEntryInNothing()
    ensures Entries([""]) == []
  {
    assert Front([""]) == [] && Last([""]) == "";
  }

  // ---- batched pointer lookup ---------------------------------------------------------------------------

  /** `str.split()` of an ASCII header. */
  function Words(s: string): seq<string>
  {
    if s == "" then []
    else if IsSpace(s[0]) then Words(s[1..])
    else
      var n := WordLength(s);
      [s[..n]] + Words(s[n..])
  }

  function WordLength(s: string): (n: nat)
    requires s != "" && !IsSpace(s[0])
    ensures 1 <= n <= |s|
  {
    if |s| == 1 || IsSpace(s[1]) then 1 else 1 + WordLength(s[1..])
  }

  datatype Candidate = Candidate(id: string, size: nat)

  predicate HeaderFor(header: string, candidate: Candidate)
  {
    var words := Words(header);
    |words| == 3 && words[0] == candidate.id && words[1] == "blob" && PyInt(words[2]) == Some(candidate.size)
  }

  /** Where a frame's content begins and ends: behind its header line, as many bytes as expected. */
  function FrameEnd(output: string, candidate: Candidate): nat { IndexOf(output, '\n') + 1 + candidate.size }

  /** Whether the first candidate's frame is broken: no header line for it, too few bytes or no newline behind them. */
  predicate Broken(output: string, candidate: Candidate)
  {
    var header, end := IndexOf(output, '\n'), FrameEnd(output, candidate);
    header == |output| || !HeaderFor(output[..header], candidate) || end >= |output| || output[end] != '\n'
  }

  function Prepended(contents: seq<string>, rest: Option<seq<string>>): Option<seq<string>>
  {
    match rest
    case None => None
    case Some(more) => Some(contents + more)
  }

  /** The contents a batch output holds for its candidates, frame by frame. */
  function Framed(output: string, candidates: seq<Candidate>): Option<seq<string>>
    decreases |candidates|
  {
    if candidates == [] then Some([])
    else if Broken(output, candidates[0]) then None
    else
      var end := FrameEnd(output, candidates[0]);
      Prepended([output[IndexOf(output, '\n') + 1..end]], Framed(output[end + 1..], candidates[1..]))
  }

  /** What the browser's parser makes of each content; `decode` is UTF-8 decoding with replacement. */
  function Pointers(contents: seq<string>, decode: string -> string): seq<Option<Pointer>>
  {
    seq(|contents|, i requires 0 <= i < |contents| => Browse(decode(contents[i])))
  }

  /** `_get_lfs_metadata_batch`. */
  method ReadBatch(output: string, candidates: seq<Candidate>, decode: string -> string)
    returns (pointers: Option<seq<Option<Pointer>>>)
    ensures pointers == match Framed(output, candidates) { case None => None case Some(contents) => Some(Pointers(contents, decode)) }
  {
    hide HeaderFor, Browse, Framed, Prepended, IndexOf;
    var offset := 0;
    var found: seq<Option<Pointer>> := [];
    ghost var contents: seq<string> := [];
    assert output[0..] == output && candidates[0..] == candidates;
    PrependedNothing(Framed(output, candidates));
    for n := 0 to |candidates|
      invariant 0 <= offset <= |output| && found == Pointers(contents, decode)
      invariant Framed(output, candidates) == Prepended(contents, Framed(output[offset..], candidates[n..]))
    {
      var rest := output[offset..];
      FramedStep(rest, candidates[n..]);
      PrependedNone(contents);
      var header := IndexOf(rest, '\n');
      if header == |rest| || !HeaderFor(rest[..header], candidates[n]) {
        return None;
      }
      var end := header + 1 + candidates[n].size;
      if end >= |rest| || rest[end] != '\n' {
        return None;
      }
      var content := rest[header + 1..end];
      assert candidates[n..][1..] == candidates[n + 1..] && output[offset + end + 1..] == rest[end + 1..];
      PrependedTwice(contents, content, Framed(rest[end + 1..], candidates[n + 1..]));
      found, contents := found + [Browse(decode(content))], contents + [content];
      offset := offset + end + 1;
    }
    FramedNothing(output[offset..]);
    assert candidates[|candidates|..] == [];
    PrependedAll(contents);
    return Some(found);
  }

  lemma PrependedNothing(rest: Option<seq<string>>)
    ensures Prepended([], rest) == rest
  {
    if rest.Some? {
      assert [] + rest.value == rest.value;
    }
  }

  lemma PrependedNone(contents: seq<string>)
    ensures Prepended(contents, None) == None
  {
  }

  lemma PrependedAll(contents: seq<string>)
    ensures Prepended(contents, Some([])) == Some(contents)
  {
    assert contents + [] == contents;
  }

  lemma FramedNothing(output: string)
    ensures Framed(output, []) == Some([])
  {
  }

  lemma FrameFits(output: string, candidate: Candidate)
    requires !Broken(output, candidate)
    ensures IndexOf(output, '\n') + 1 <= FrameEnd(output, candidate) < |output|
  {
    hide IndexOf, HeaderFor;
  }

  lemma FramedStep(output: string, candidates: seq<Candidate>)
    requires candidates != []
    ensures Broken(output, candidates[0]) ==> Framed(output, candidates) == None
    ensures !Broken(output, candidates[0]) ==>
              var header, end := IndexOf(output, '\n'), FrameEnd(output, candidates[0]);
              header < end < |output|
              && Framed(output, candidates) == Prepended([output[header + 1..end]], Framed(output[end + 1..], candidates[1..]))
  {
    hide IndexOf, HeaderFor, Prepended, Broken, FrameEnd;
    if !Broken(output, candidates[0]) {
      FrameFits(output, candidates[0]);
    }
  }

  lemma PrependedTwice(contents: seq<string>, content: string, rest: Option<seq<string>>)
    ensures Prepended(contents, Prepended([content], rest)) == Prepended(contents + [content], rest)
  {
    if rest.Some? {
      assert contents + ([content] + rest.value) == (contents + [content]) + rest.value;
    }
  }

  // ---- the output of a batch -----------------------------------------------------------------------------

  /** `git cat-file --batch` for these blobs. */
  function BatchOutput(ids: seq<string>, contents: seq<string>): string
    requires |ids| == |contents|
  {
    if ids == [] then ""
    else ids[0] + " blob " + PrintNat(|contents[0]|) + "\n" + contents[0] + "\n" + BatchOutput(ids[1..], contents[1..])
  }

  function Candidates(ids: seq<string>, contents: seq<string>): seq<Candidate>
    requires |ids| == |contents|
  {
    if ids == [] then [] else [Candidate(ids[0], |contents[0]|)] + Candidates(ids[1..], contents[1..])
  }

  predicate IsWord(s: string) { s != "" && forall i :: 0 <= i < |s| ==> !IsSpace(s[i]) }

  lemma {:induction false} WordEnds(word: string, rest: string)
    requires IsWord(word) && (rest == "" || IsSpace(rest[0]))
    ensures WordLength(word + rest) == |word|
    decreases |word|
  {
    var s := word + rest;
    assert s[0] == word[0];
    if |word| > 1 {
      assert s[1] == word[1] && s[1..] == word[1..] + rest;
      WordEnds(word[1..], rest);
    }
  }

  lemma WordsHead(word: string, rest: string)
    requires IsWord(word)
    ensures Words(word + (" " + rest)) == [word] + Words(rest) && Words(word) == [word]
  {
    WordEnds(word, " " + rest);
    WordEnds(word, "");
    var s := word + (" " + rest);
    assert s[..|word|] == word && s[|word|..] == " " + rest && (" " + rest)[1..] == rest;
    assert word + "" == word && word[..|word|] == word && word[|word|..] == "";
  }

  lemma NumeralIsWord(n: nat)
    ensures IsWord(PrintNat(n)) && '\n' !in PrintNat(n)
  {
    assert !IsDigit('\n');
  }

  lemma HeaderReads(id: string, size: nat)
    requires IsObjectId(id)
    ensures HeaderFor(id + " blob " + PrintNat(size), Candidate(id, size)) && '\n' !in id + " blob " + PrintNat(size)
  {
    hide Words, PyInt, PrintNat;
    assert !IsHex('\n') && forall c :: IsHex(c) ==> !IsSpace(c);
    NumeralIsWord(size);
    WordsHead(id, "blob " + PrintNat(size));
    WordsHead("blob", PrintNat(size));
    WordsHead(PrintNat(size), "");
    PyIntOfNumeral(size);
    assert id + " blob " + PrintNat(size) == id + (" " + ("blob " + PrintNat(size)));
    assert "blob " + PrintNat(size) == "blob" + (" " + PrintNat(size));
  }

  lemma FramePlaces(header: string, content: string, rest: string)
    requires '\n' !in header
    ensures var output := header + "\n" + content + "\n" + rest;
            var end := |header| + 1 + |content|;
            && IndexOf(output, '\n') == |header| && output[..|header|] == header && end < |output|
            && output[|header| + 1..end] == content && output[end] == '\n' && output[end + 1..] == rest
  {
    hide IndexOf;
    var output := header + "\n" + content + "\n" + rest;
    var tail := content + "\n" + rest;
    assert output == header + ['\n'] + tail;
    IndexOfFirst(header, '\n', tail);
  }

  lemma FrameReads(header: string, content: string, rest: string, candidates: seq<Candidate>)
    requires candidates != [] && '\n' !in header && HeaderFor(header, candidates[0]) && |content| == candidates[0].size
    ensures Framed(header + "\n" + content + "\n" + rest, candidates)
         == Prepended([content], Framed(rest, candidates[1..]))
  {
    hide HeaderFor, IndexOf, Framed, Prepended;
    var output := header + "\n" + content + "\n" + rest;
    FramePlaces(header, content, rest);
    FramedStep(output, candidates);
    assert [] + [content] == [content];
  }

  /** The batch reader gives every blob back whatever bytes it holds, newlines and further header lines included. */
  lemma {:induction false} BatchReadsBack(ids: seq<string>, contents: seq<string>)
    requires |ids| == |contents| && forall i :: 0 <= i < |ids| ==> IsObjectId(ids[i])
    ensures Framed(BatchOutput(ids, contents), Candidates(ids, contents)) == Some(contents)
    decreases |ids|
  {
    hide HeaderFor, PrintNat, IsObjectId, Framed;
    if ids == [] {
      FramedNothing("");
    } else {
      BatchReadsBack(ids[1..], contents[1..]);
      HeaderReads(ids[0], |contents[0]|);
      var header := ids[0] + " blob " + PrintNat(|contents[0]|);
      var candidates := Candidates(ids, contents);
      FrameReads(header, contents[0], BatchOutput(ids[1..], contents[1..]), candidates);
      assert candidates[1..] == Candidates(ids[1..], contents[1..]);
      assert [contents[0]] + contents[1..] == contents;
    }
  }
}
