/**
 * Applying patches to files on disk and undoing them. The disk may refuse any read and any write; the
 * answers it gives during one call are parameters, so every statement holds for all of them.
 */
module Bookkeeping {
  import opened Hunks
  import opened PatchParser

  /** Where a file name leads: joining it to the repository root and cleaning the path. */
  type Resolver = string -> string

  /** Whether the k-th read and the k-th write of a call go through. */
  datatype Env = Env(readOk: nat -> bool, writeOk: nat -> bool)

  /** The text of a diff between two contents of a named file, made by a library. */
  type Differ = (string, string, string) -> Result<string>

  type Files = map<string, string>

  datatype State = State(disk: Files, originals: Files, lastFiles: seq<string>, lastPatch: string)

  function ReadFile(disk: Files, path: string, ok: bool): Result<string>
  {
    if ok && path in disk then Ok(disk[path]) else Err(ReadFailed)
  }

  /** The first content ever read under a name is the one remembered. */
  function Record(originals: Files, file: string, content: string): Files
  {
    if file in originals then originals else originals[file := content]
  }

  // ----- reading and computing, before anything is written

  datatype Staging = Staging(originals: Files, lastFiles: seq<string>, contents: Result<Files>)

  function Stage(at: Resolver, disk: Files, patch: Patch, k: nat, so: Staging, env: Env): (r: Staging)
    requires k <= |patch.files| && so.contents.Ok?
    decreases |patch.files| - k
  {
    if k == |patch.files| then so
    else
      var file := patch.files[k];
      match ReadFile(disk, at(file), env.readOk(k))
      case Err(e) => so.(contents := Err(e))
      case Ok(content) =>
        var originals := Record(so.originals, file, content);
        match ApplyText(content, HunksFor(patch.hunks, file))
        case Err(e) => Staging(originals, so.lastFiles, Err(e))
        case Ok(target) =>
          Stage(at, disk, patch, k + 1,
                Staging(originals, so.lastFiles + [file], Ok(so.contents.value[file := target])), env)
  }

  /** What a file is to become, if it can be read and its hunks apply. */
  function TargetOf(at: Resolver, disk: Files, patch: Patch, file: string, ok: bool): Result<string>
  {
    match ReadFile(disk, at(file), ok)
    case Err(e) => Err(e)
    case Ok(content) => ApplyText(content, HunksFor(patch.hunks, file))
  }

  // ----- writing

  predicate Covers(contents: Files, files: seq<string>)
  {
    forall i :: 0 <= i < |files| ==> files[i] in contents
  }

  /** Writes the contents of the files one after another until a write fails. */
  function WriteAll(at: Resolver, disk: Files, files: seq<string>, contents: Files, ok: nat -> bool): (Files, bool)
    requires Covers(contents, files)
  {
    if files == [] then (disk, true)
    else
      var k := |files| - 1;
      var (before, done) := WriteAll(at, disk, files[..k], contents, ok);
      if done && ok(k) then (before[at(files[k]) := contents[files[k]]], true) else (before, false)
  }

  lemma {:induction false} NothingWritten(at: Resolver, disk: Files, files: seq<string>, contents: Files,
                                          ok: nat -> bool)
    ensures WriteAll(at, disk, files[..0], contents, ok) == (disk, true)
  {
  }

  lemma {:induction false} OneMoreWritten(at: Resolver, disk: Files, files: seq<string>, contents: Files,
                                          ok: nat -> bool, k: nat)
    requires Covers(contents, files) && k < |files|
    ensures var (before, done) := WriteAll(at, disk, files[..k], contents, ok);
            WriteAll(at, disk, files[..k + 1], contents, ok)
            == if done && ok(k) then (before[at(files[k]) := contents[files[k]]], true) else (before, false)
  {
    assert files[..k + 1][..k] == files[..k];
  }

  /** Once a write has failed, no later file is written. */
  lemma {:induction false} NothingAfterFailure(at: Resolver, disk: Files, files: seq<string>, contents: Files,
                                               ok: nat -> bool, k: nat)
    requires Covers(contents, files) && k <= |files|
    ensures var (before, done) := WriteAll(at, disk, files[..k], contents, ok);
            !done ==> WriteAll(at, disk, files, contents, ok) == (before, false)
    decreases |files|
  {
    if k < |files| {
      NothingAfterFailure(at, disk, files[..|files| - 1], contents, ok, k);
      assert files[..|files| - 1][..k] == files[..k];
    } else {
      assert files[..k] == files;
    }
  }

  lemma {:induction false} StageCovers(at: Resolver, disk: Files, patch: Patch, k: nat, so: Staging, env: Env)
    requires k <= |patch.files| && so.contents.Ok?
    requires forall i :: 0 <= i < k ==> patch.files[i] in so.contents.value
    ensures var r := Stage(at, disk, patch, k, so, env);
            r.contents.Ok? ==> Covers(r.contents.value, patch.files)
    decreases |patch.files| - k
  {
    hide ApplyText;
    if k < |patch.files| && TargetOf(at, disk, patch, patch.files[k], env.readOk(k)).Ok? {
      StageCovers(at, disk, patch, k + 1, StageNext(at, disk, patch, k, so), env);
    }
  }

  /** The staging after file k, when it can be read and patched. */
  function StageNext(at: Resolver, disk: Files, patch: Patch, k: nat, so: Staging): Staging
    requires k < |patch.files| && so.contents.Ok?
    requires TargetOf(at, disk, patch, patch.files[k], true).Ok?
  {
    var file := patch.files[k];
    Staging(Record(so.originals, file, disk[at(file)]), so.lastFiles + [file],
            Ok(so.contents.value[file := TargetOf(at, disk, patch, file, true).value]))
  }

  lemma {:induction false} StageStep(at: Resolver, disk: Files, patch: Patch, k: nat, so: Staging, env: Env)
    requires k < |patch.files| && so.contents.Ok?
    ensures var file := patch.files[k];
            var now, content := Stage(at, disk, patch, k, so, env), ReadFile(disk, at(file), env.readOk(k));
            if content.Err? then now == so.(contents := Err(content.error))
            else
              var originals := Record(so.originals, file, content.value);
              var target := ApplyText(content.value, HunksFor(patch.hunks, file));
              if target.Err? then now == Staging(originals, so.lastFiles, Err(target.error))
              else now == Stage(at, disk, patch, k + 1,
                                Staging(originals, so.lastFiles + [file],
                                        Ok(so.contents.value[file := target.value])), env)
  {
    hide ApplyText;
  }

  lemma {:induction false} StageEnd(at: Resolver, disk: Files, patch: Patch, so: Staging, env: Env)
    requires so.contents.Ok?
    ensures Stage(at, disk, patch, |patch.files|, so, env) == so
  {
  }

  // ----- one call of Apply, one call of Revert

  function ApplyTo(at: Resolver, s: State, diff: string, env: Env): (State, Result<seq<string>>)
  {
    match Parse(diff)
    case Err(e) => (s, Err(e))
    case Ok(patch) =>
      var start := Staging(s.originals, [], Ok(map[]));
      var staged := Stage(at, s.disk, patch, 0, start, env);
      StageCovers(at, s.disk, patch, 0, start, env);
      match staged.contents
      case Err(e) => (State(s.disk, staged.originals, staged.lastFiles, ""), Err(e))
      case Ok(contents) =>
        var (disk, done) := WriteAll(at, s.disk, patch.files, contents, env.writeOk);
        if done then (State(disk, staged.originals, staged.lastFiles, diff), Ok(staged.lastFiles))
        else (State(disk, staged.originals, staged.lastFiles, ""), Err(WriteFailed))
  }

  /** `order` lists every key once: one of the orders in which a map may be walked. */
  ghost predicate Enumerates(order: seq<string>, keys: set<string>)
  {
    (forall i, j :: 0 <= i < j < |order| ==> order[i] != order[j]) && forall f :: f in order <==> f in keys
  }

  /** Revert writes every remembered content back, in whatever order the map is walked. */
  function RevertTo(at: Resolver, s: State, order: seq<string>, ok: nat -> bool): (State, bool)
    requires Covers(s.originals, order)
  {
    var (disk, done) := WriteAll(at, s.disk, order, s.originals, ok);
    (s.(disk := disk), done)
  }

  /** The diffs of the files one after another, each from its remembered content to its content on disk. */
  function AllDiffs(at: Resolver, s: State, files: seq<string>, ok: nat -> bool, unified: Differ): Result<string>
    requires Covers(s.originals, files)
  {
    if files == [] then Ok("")
    else
      var k, file := |files| - 1, files[|files| - 1];
      match AllDiffs(at, s, files[..k], ok, unified)
      case Err(e) => Err(e)
      case Ok(before) =>
        match ReadFile(s.disk, at(file), ok(k))
        case Err(e) => Err(e)
        case Ok(content) =>
          match unified(file, s.originals[file], content)
          case Err(e) => Err(e)
          case Ok(text) => Ok(before + text)
  }

  lemma {:induction false} FirstDiffErrorStays(at: Resolver, s: State, files: seq<string>, ok: nat -> bool,
                                               unified: Differ, k: nat)
    requires Covers(s.originals, files) && k <= |files|
    ensures var before := AllDiffs(at, s, files[..k], ok, unified);
            before.Err? ==> AllDiffs(at, s, files, ok, unified) == before
    decreases |files|
  {
    if k < |files| {
      FirstDiffErrorStays(at, s, files[..|files| - 1], ok, unified, k);
      assert files[..|files| - 1][..k] == files[..k];
    } else {
      assert files[..k] == files;
    }
  }

  /** Texts one after another. */
  function Concat(parts: seq<string>): string
  {
    if parts == [] then "" else Concat(parts[..|parts| - 1]) + parts[|parts| - 1]
  }

  /** For each file in order the library's text from the remembered content to the content on disk. */
  ghost predicate DiffParts(at: Resolver, s: State, files: seq<string>, ok: nat -> bool, unified: Differ,
                            parts: seq<string>)
    requires Covers(s.originals, files)
  {
    && |parts| == |files|
    && forall k :: 0 <= k < |files| ==>
         ok(k) && at(files[k]) in s.disk
         && unified(files[k], s.originals[files[k]], s.disk[at(files[k])]) == Ok(parts[k])
  }

  lemma {:induction false} PartsGive(at: Resolver, s: State, files: seq<string>, ok: nat -> bool, unified: Differ,
                                     parts: seq<string>)
    requires Covers(s.originals, files) && DiffParts(at, s, files, ok, unified, parts)
    ensures AllDiffs(at, s, files, ok, unified) == Ok(Concat(parts))
    decreases |files|
  {
    if files != [] {
      var k := |files| - 1;
      PartsGive(at, s, files[..k], ok, unified, parts[..k]);
    }
  }

  lemma {:induction false} PartsOf(at: Resolver, s: State, files: seq<string>, ok: nat -> bool, unified: Differ)
      returns (parts: seq<string>)
    requires Covers(s.originals, files) && AllDiffs(at, s, files, ok, unified).Ok?
    ensures DiffParts(at, s, files, ok, unified, parts)
    decreases |files|
  {
    if files == [] {
      parts := [];
    } else {
      var k := |files| - 1;
      var before := PartsOf(at, s, files[..k], ok, unified);
      parts := before + [unified(files[k], s.originals[files[k]], s.disk[at(files[k])]).value];
    }
  }

  /** The diff is the texts of all files, from old to new, and there is one exactly when each file has its text. */
  lemma {:induction false} DiffShows(at: Resolver, s: State, files: seq<string>, ok: nat -> bool, unified: Differ,
                                     text: string)
    requires Covers(s.originals, files)
    ensures AllDiffs(at, s, files, ok, unified) == Ok(text) <==>
            exists parts: seq<string> :: DiffParts(at, s, files, ok, unified, parts) && Concat(parts) == text
  {
    hide AllDiffs, DiffParts, Concat;
    if AllDiffs(at, s, files, ok, unified) == Ok(text) {
      var parts := PartsOf(at, s, files, ok, unified);
      PartsGive(at, s, files, ok, unified, parts);
    }
    if parts: seq<string> :| DiffParts(at, s, files, ok, unified, parts) && Concat(parts) == text {
      PartsGive(at, s, files, ok, unified, parts);
    }
  }

  /** Otherwise the first file that cannot be read, or has no text, decides the error. */
  lemma {:induction false} FirstDiffErrorDecides(at: Resolver, s: State, files: seq<string>, ok: nat -> bool,
                                                 unified: Differ, k: nat, parts: seq<string>)
    requires Covers(s.originals, files) && k < |files| && DiffParts(at, s, files[..k], ok, unified, parts)
    ensures !ok(k) || at(files[k]) !in s.disk ==> AllDiffs(at, s, files, ok, unified) == Err(ReadFailed)
    ensures ok(k) && at(files[k]) in s.disk ==>
              var r := unified(files[k], s.originals[files[k]], s.disk[at(files[k])]);
              r.Err? ==> AllDiffs(at, s, files, ok, unified) == Err(r.error)
  {
    PartsGive(at, s, files[..k], ok, unified, parts);
    assert files[..k + 1][..k] == files[..k];
    FirstDiffErrorStays(at, s, files, ok, unified, k + 1);
  }

  // ----- the objects

  class Disk {
    var files: Files

    constructor (files: Files)
      ensures this.files == files
    {
      this.files := files;
    }

    method Read(path: string, ok: bool) returns (r: Result<string>)
      ensures r == ReadFile(files, path, ok)
    {
      if ok && path in files {
        r := Ok(files[path]);
      } else {
        r := Err(ReadFailed);
      }
    }

    method Write(path: string, content: string, ok: bool)
      modifies this
      ensures files == if ok then old(files)[path := content] else old(files)
    {
      if ok {
        files := files[path := content];
      }
    }
  }

  class Bookkeeper {
    const at: Resolver
    const disk: Disk
    var originals: Files
    var lastFiles: seq<string>
    var lastPatch: string

    function Abstract(): State
      reads this, disk
    {
      State(disk.files, originals, lastFiles, lastPatch)
    }

    /** Every file last patched has a remembered content. */
    predicate Valid()
      reads this
    {
      forall k :: 0 <= k < |lastFiles| ==> lastFiles[k] in originals
    }

    constructor (at: Resolver, disk: Disk)
      ensures Valid() && this.at == at && this.disk == disk
      ensures Abstract() == State(disk.files, map[], [], "")
    {
      this.at, this.disk := at, disk;
      originals, lastFiles, lastPatch := map[], [], "";
    }

    /** Reads every file of the patch and computes what it is to become. */
    method StageFiles(patch: Patch, env: Env) returns (contents: Result<Files>)
      requires Valid() && lastFiles == []
      modifies this`originals, this`lastFiles
      ensures Staging(originals, lastFiles, contents)
           == Stage(at, disk.files, patch, 0, Staging(old(originals), [], Ok(map[])), env)
      ensures Valid()
    {
      hide ApplyText, Stage, HunksFor;
      ghost var start := Staging(originals, lastFiles, Ok(map[]));
      var targets: Files := map[];
      for k := 0 to |patch.files|
        invariant Stage(at, disk.files, patch, 0, start, env)
               == Stage(at, disk.files, patch, k, Staging(originals, lastFiles, Ok(targets)), env)
        invariant Valid()
      {
        StageStep(at, disk.files, patch, k, Staging(originals, lastFiles, Ok(targets)), env);
        var file := patch.files[k];
        var content := disk.Read(at(file), env.readOk(k));
        if content.Err? {
          return Err(content.error);
        }
        if file !in originals {
          originals := originals[file := content.value];
        }
        var target := ApplyHunks(content.value, HunksFor(patch.hunks, file));
        if target.Err? {
          return Err(target.error);
        }
        targets := targets[file := target.value];
        lastFiles := lastFiles + [file];
      }
      StageEnd(at, disk.files, patch, Staging(originals, lastFiles, Ok(targets)), env);
      contents := Ok(targets);
    }

    /** Writes the files one after another, stopping at the first failed write. */
    method WriteFiles(files: seq<string>, contents: Files, ok: nat -> bool) returns (done: bool)
      requires Covers(contents, files)
      modifies disk
      ensures (disk.files, done) == old(WriteAll(at, disk.files, files, contents, ok))
    {
      hide WriteAll;
      NothingWritten(at, disk.files, files, contents, ok);
      for k := 0 to |files|
        invariant WriteAll(at, old(disk.files), files[..k], contents, ok) == (disk.files, true)
      {
        var file := files[k];
        OneMoreWritten(at, old(disk.files), files, contents, ok, k);
        disk.Write(at(file), contents[file], ok(k));
        if !ok(k) {
          NothingAfterFailure(at, old(disk.files), files, contents, ok, k + 1);
          return false;
        }
      }
      assert files[..|files|] == files;
      done := true;
    }

    /** Reads and patches every file first, and only then writes them. */
    method Apply(diff: string, env: Env) returns (r: Result<seq<string>>)
      requires Valid()
      modifies this, disk
      ensures (Abstract(), r) == old(ApplyTo(at, Abstract(), diff, env))
      ensures Valid()
    {
      hide Parse, ApplyText, Stage, WriteAll;
      var parsed := ParseUnifiedDiff(diff);
      if parsed.Err? {
        return Err(parsed.error);
      }
      var patch := parsed.value;
      lastFiles, lastPatch := [], "";
      StageCovers(at, disk.files, patch, 0, Staging(originals, [], Ok(map[])), env);
      var staged := StageFiles(patch, env);
      if staged.Err? {
        return Err(staged.error);
      }
      var done := WriteFiles(patch.files, staged.value, env.writeOk);
      if !done {
        return Err(WriteFailed);
      }
      lastPatch := diff;
      r := Ok(lastFiles);
    }

    /** Writes back every remembered content, walking the map in any order, until a write fails. */
    method Revert(ok: nat -> bool) returns (done: bool, ghost order: seq<string>)
      requires Valid()
      modifies disk
      ensures Covers(originals, order)
      ensures (Abstract(), done) == old(RevertTo(at, Abstract(), order, ok))
      ensures done ==> Enumerates(order, originals.Keys)
    {
      var todo := originals.Keys;
      var k := 0;
      order := [];
      while todo != {}
        invariant k == |order| && forall f :: f in todo <==> f in originals && f !in order
        invariant Covers(originals, order)
        invariant forall i, j :: 0 <= i < j < |order| ==> order[i] != order[j]
        invariant WriteAll(at, old(disk.files), order, originals, ok) == (disk.files, true)
        decreases |todo|
      {
        var file :| file in todo;
        assert (order + [file])[..k] == order;
        disk.Write(at(file), originals[file], ok(k));
        order := order + [file];
        if !ok(k) {
          return false, order;
        }
        todo := todo - {file};
        k := k + 1;
      }
      done := true;
    }

    /**
     * The diff of everything last patched. A file without a remembered content would be skipped; there
     * never is one, so the text covers every one of them.
     */
    method Diff(ok: nat -> bool, unified: Differ) returns (r: Result<string>)
      requires Valid()
      ensures r == AllDiffs(at, Abstract(), lastFiles, ok, unified)
      ensures forall text :: r == Ok(text) <==>
                exists parts: seq<string> ::
                  DiffParts(at, Abstract(), lastFiles, ok, unified, parts) && Concat(parts) == text
    {
      forall text: string
        ensures AllDiffs(at, Abstract(), lastFiles, ok, unified) == Ok(text) <==>
                exists parts: seq<string> ::
                  DiffParts(at, Abstract(), lastFiles, ok, unified, parts) && Concat(parts) == text
      {
        DiffShows(at, Abstract(), lastFiles, ok, unified, text);
      }
      hide DiffParts, Concat;
      var text := "";
      for k := 0 to |lastFiles|
        invariant AllDiffs(at, Abstract(), lastFiles[..k], ok, unified) == Ok(text)
      {
        var file := lastFiles[k];
        assert lastFiles[..k + 1][..k] == lastFiles[..k];
        FirstDiffErrorStays(at, Abstract(), lastFiles, ok, unified, k + 1);
        if file in originals {
          var content := disk.Read(at(file), ok(k));
          if content.Err? {
            return Err(content.error);
          }
          var part := unified(file, originals[file], content.value);
          if part.Err? {
            return Err(part.error);
          }
          text := text + part.value;
        }
      }
      assert lastFiles[..|lastFiles|] == lastFiles;
      r := Ok(text);
    }
  }
}
