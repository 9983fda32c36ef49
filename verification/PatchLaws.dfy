/** What one call of Apply does to the disk, for every outcome of its reads, its hunks and its writes. */
module PatchLaws {
  import opened Hunks
  import opened PatchParser
  import opened Bookkeeping

  // ----- the writes

  /** Some file of the list leads to `path`. */
  predicate Touched(at: Resolver, files: seq<string>, path: string)
  {
    exists i :: 0 <= i < |files| && at(files[i]) == path
  }

  /** No two different names of the list lead to the same path. */
  predicate NoAlias(at: Resolver, files: seq<string>)
  {
    forall i, j :: 0 <= i < |files| && 0 <= j < |files| && at(files[i]) == at(files[j]) ==> files[i] == files[j]
  }

  /** `path` holds what one of the files leading to it was to become. */
  predicate HoldsOneOf(at: Resolver, files: seq<string>, contents: Files, path: string, disk: Files)
    requires Covers(contents, files)
  {
    path in disk && exists i :: 0 <= i < |files| && at(files[i]) == path && disk[path] == contents[files[i]]
  }

  lemma {:induction false} TouchedLast(at: Resolver, files: seq<string>, path: string)
    requires files != []
    ensures Touched(at, files, path) <==> Touched(at, files[..|files| - 1], path) || at(files[|files| - 1]) == path
  {
    var front := files[..|files| - 1];
    if i :| 0 <= i < |files| && at(files[i]) == path {
      assert i < |front| ==> front[i] == files[i];
    }
    if i :| 0 <= i < |front| && at(front[i]) == path {
      assert files[i] == front[i];
    }
  }

  /** A run of writes leaves every other path alone, and every path it reached holds one of its contents. */
  lemma {:induction false} WritesReach(at: Resolver, disk: Files, files: seq<string>, contents: Files, ok: nat -> bool,
                                       path: string)
    requires Covers(contents, files)
    ensures var (after, done) := WriteAll(at, disk, files, contents, ok);
            && (!Touched(at, files, path) ==> (path in after <==> path in disk))
            && (!Touched(at, files, path) && path in disk ==> after[path] == disk[path])
            && (path in disk ==> path in after)
            && (done && Touched(at, files, path) ==> HoldsOneOf(at, files, contents, path, after))
            && (path in after ==> path in disk || Touched(at, files, path))
  {
    if files != [] {
      var k := |files| - 1;
      var front := files[..k];
      WritesReach(at, disk, front, contents, ok, path);
      TouchedLast(at, files, path);
      var (before, done) := WriteAll(at, disk, front, contents, ok);
      if done && ok(k) && at(files[k]) != path && Touched(at, front, path) {
        var i :| 0 <= i < |front| && at(front[i]) == path && before[path] == contents[front[i]];
        assert files[i] == front[i];
      }
    }
  }

  /** No later name of the list leads to the same path. */
  predicate LastFor(at: Resolver, files: seq<string>, i: nat)
    requires i < |files|
  {
    forall k :: i < k < |files| ==> at(files[k]) != at(files[i])
  }

  lemma {:induction false} SomeLast(at: Resolver, files: seq<string>, path: string) returns (i: nat)
    requires Touched(at, files, path)
    ensures i < |files| && at(files[i]) == path && LastFor(at, files, i)
  {
    i := |files| - 1;
    while at(files[i]) != path
      invariant i < |files| && (forall k :: i < k < |files| ==> at(files[k]) != path)
      invariant Touched(at, files, path)
      decreases i
    {
      var j :| 0 <= j < |files| && at(files[j]) == path;
      assert j < i;
      i := i - 1;
    }
  }

  /** When all writes go through, each path holds the content of the last name leading to it. */
  lemma {:induction false} LastWins(at: Resolver, disk: Files, files: seq<string>, contents: Files, ok: nat -> bool,
                                    i: nat)
    requires Covers(contents, files) && i < |files| && LastFor(at, files, i)
    requires WriteAll(at, disk, files, contents, ok).1
    ensures var after := WriteAll(at, disk, files, contents, ok).0;
            at(files[i]) in after && after[at(files[i])] == contents[files[i]]
  {
    var front := files[..|files| - 1];
    if i < |front| {
      LastWins(at, disk, front, contents, ok, i);
    }
  }

  /** The writes all go through exactly when the disk accepts each of them. */
  lemma {:induction false} WritesDone(at: Resolver, disk: Files, files: seq<string>, contents: Files, ok: nat -> bool)
    requires Covers(contents, files)
    ensures WriteAll(at, disk, files, contents, ok).1 <==> forall k :: 0 <= k < |files| ==> ok(k)
  {
    if files != [] {
      WritesDone(at, disk, files[..|files| - 1], contents, ok);
    }
  }

  // ----- the reads

  /** Every file can be read and its hunks apply to what is read. */
  predicate AllTargets(at: Resolver, disk: Files, patch: Patch, env: Env)
  {
    forall i :: 0 <= i < |patch.files| ==> TargetOf(at, disk, patch, patch.files[i], env.readOk(i)).Ok?
  }

  /** What a file becomes, leaving aside whether this particular read goes through. */
  function Outcome(at: Resolver, disk: Files, patch: Patch, file: string): Result<string>
  {
    TargetOf(at, disk, patch, file, true)
  }

  /** `path` holds what one of the files leading to it becomes. */
  predicate HoldsTarget(at: Resolver, disk: Files, patch: Patch, path: string, after: Files)
  {
    path in after && exists j :: 0 <= j < |patch.files| && at(patch.files[j]) == path
                       && Outcome(at, disk, patch, patch.files[j]) == Ok(after[path])
  }

  lemma {:induction false} StageUnfolds(at: Resolver, disk: Files, patch: Patch, k: nat, so: Staging, env: Env)
    requires k < |patch.files| && so.contents.Ok?
    ensures var t := TargetOf(at, disk, patch, patch.files[k], env.readOk(k));
            if t.Ok? then
              && t == Outcome(at, disk, patch, patch.files[k])
              && Stage(at, disk, patch, k, so, env)
              == Stage(at, disk, patch, k + 1, StageNext(at, disk, patch, k, so), env)
            else
              var r := Stage(at, disk, patch, k, so, env);
              && r.contents == Err(t.error) && r.lastFiles == so.lastFiles
              && (r.originals == so.originals ||
                  (at(patch.files[k]) in disk &&
                   r.originals == Record(so.originals, patch.files[k], disk[at(patch.files[k])])))
  {
    hide ApplyText, Stage;
    StageStep(at, disk, patch, k, so, env);
  }

  /** The staging succeeds exactly when every file can be read and patched, and then holds every target. */
  lemma {:induction false} StageMeaning(at: Resolver, disk: Files, patch: Patch, k: nat, so: Staging, env: Env)
    requires k <= |patch.files| && so.contents.Ok? && so.lastFiles == patch.files[..k]
    requires forall i :: 0 <= i < k ==> patch.files[i] in so.contents.value
    requires forall f :: f in so.contents.value ==> Outcome(at, disk, patch, f) == Ok(so.contents.value[f])
    ensures var r := Stage(at, disk, patch, k, so, env);
            && (r.contents.Ok? <==>
                forall i :: k <= i < |patch.files| ==>
                  TargetOf(at, disk, patch, patch.files[i], env.readOk(i)).Ok?)
            && (r.contents.Ok? ==>
                && r.lastFiles == patch.files
                && Covers(r.contents.value, patch.files)
                && forall f :: f in r.contents.value ==> Outcome(at, disk, patch, f) == Ok(r.contents.value[f]))
    decreases |patch.files| - k
  {
    hide ApplyText, Stage, TargetOf;
    if k == |patch.files| {
      StageEnd(at, disk, patch, so, env);
      assert patch.files[..k] == patch.files;
    } else {
      StageUnfolds(at, disk, patch, k, so, env);
      if TargetOf(at, disk, patch, patch.files[k], env.readOk(k)).Ok? {
        assert patch.files[..k + 1] == patch.files[..k] + [patch.files[k]];
        StageMeaning(at, disk, patch, k + 1, StageNext(at, disk, patch, k, so), env);
      }
    }
  }

  // ----- one Apply, end to end

  /**
   * Apply succeeds exactly when the diff parses, every file it names can be read and patched, and
   * every write goes through.
   */
  lemma {:induction false} ApplySucceedsExactly(at: Resolver, s: State, diff: string, env: Env)
    ensures ApplyTo(at, s, diff, env).1.Ok? <==>
            && Parse(diff).Ok?
            && AllTargets(at, s.disk, Parse(diff).value, env)
            && forall k :: 0 <= k < |Parse(diff).value.files| ==> env.writeOk(k)
  {
    hide Parse, Stage, TargetOf, WriteAll;
    if Parse(diff).Ok? {
      var patch := Parse(diff).value;
      var start := Staging(s.originals, [], Ok(map[]));
      StageMeaning(at, s.disk, patch, 0, start, env);
      StageCovers(at, s.disk, patch, 0, start, env);
      var staged := Stage(at, s.disk, patch, 0, start, env);
      if staged.contents.Ok? {
        WritesDone(at, s.disk, patch.files, staged.contents.value, env.writeOk);
      }
    }
  }

  /**
   * A successful Apply reports exactly the files of the diff and leaves each of them holding the result
   * of its hunks, even when a file is named twice; nothing else on the disk changes. When two names lead
   * to one path, that path holds what one of them was to become.
   */
  lemma {:induction false} ApplyWritesTargets(at: Resolver, s: State, diff: string, env: Env)
    requires ApplyTo(at, s, diff, env).1.Ok?
    ensures Parse(diff).Ok?
    ensures var ((after, files), patch) := (ApplyTo(at, s, diff, env), Parse(diff).value);
            files == Ok(patch.files) && after.lastFiles == patch.files && after.lastPatch == diff
    ensures var (after, patch) := (ApplyTo(at, s, diff, env).0, Parse(diff).value);
            && after.disk.Keys == s.disk.Keys
            && forall p :: p in s.disk && !Touched(at, patch.files, p) ==> after.disk[p] == s.disk[p]
    ensures var (after, patch) := (ApplyTo(at, s, diff, env).0, Parse(diff).value);
            forall i :: 0 <= i < |patch.files| ==>
              HoldsTarget(at, s.disk, patch, at(patch.files[i]), after.disk)
    ensures var (after, patch) := (ApplyTo(at, s, diff, env).0, Parse(diff).value);
            NoAlias(at, patch.files) ==>
              forall i :: 0 <= i < |patch.files| ==>
                Outcome(at, s.disk, patch, patch.files[i]) == Ok(after.disk[at(patch.files[i])])
  {
    hide Parse, Stage, WriteAll, ApplyText;
    ApplySucceedsExactly(at, s, diff, env);
    var (after, files) := ApplyTo(at, s, diff, env);
    var patch := Parse(diff).value;
    var start := Staging(s.originals, [], Ok(map[]));
    StageMeaning(at, s.disk, patch, 0, start, env);
    var contents := Stage(at, s.disk, patch, 0, start, env).contents.value;
    forall p
      ensures p in after.disk <==> p in s.disk
      ensures !Touched(at, patch.files, p) && p in s.disk ==> after.disk[p] == s.disk[p]
      ensures Touched(at, patch.files, p) ==> HoldsOneOf(at, patch.files, contents, p, after.disk)
    {
      WritesReach(at, s.disk, patch.files, contents, env.writeOk, p);
    }
    assert after.disk.Keys == s.disk.Keys;
    hide TargetOf;
    forall i | 0 <= i < |patch.files|
      ensures HoldsTarget(at, s.disk, patch, at(patch.files[i]), after.disk)
      ensures NoAlias(at, patch.files) ==>
                Outcome(at, s.disk, patch, patch.files[i]) == Ok(after.disk[at(patch.files[i])])
    {
      assert Touched(at, patch.files, at(patch.files[i]));
      var j :| 0 <= j < |patch.files| && at(patch.files[j]) == at(patch.files[i])
               && after.disk[at(patch.files[i])] == contents[patch.files[j]];
      assert Outcome(at, s.disk, patch, patch.files[j]) == Ok(after.disk[at(patch.files[i])]);
    }
  }

  /**
   * Apply is atomic up to the first write: if the diff does not parse, or some file cannot be read or
   * patched, the disk is exactly as before.
   */
  lemma {:induction false} FailureBeforeWritingIsClean(at: Resolver, s: State, diff: string, env: Env)
    requires Parse(diff).Ok? ==> !AllTargets(at, s.disk, Parse(diff).value, env)
    ensures var (after, r) := ApplyTo(at, s, diff, env);
            r.Err? && after.disk == s.disk
  {
    hide Parse, Stage, TargetOf;
    if Parse(diff).Ok? {
      StageMeaning(at, s.disk, Parse(diff).value, 0, Staging(s.originals, [], Ok(map[])), env);
    }
  }

  /** The hunks of a file leave its content as it is. */
  predicate LeftTheSame(at: Resolver, disk: Files, patch: Patch, file: string)
  {
    at(file) in disk && Outcome(at, disk, patch, file) == Ok(disk[at(file)])
  }

  /** Of the first j files, those no other of them overwrites are left the same. */
  predicate SameSoFar(at: Resolver, disk: Files, patch: Patch, j: nat)
    requires j <= |patch.files|
  {
    forall i :: 0 <= i < j && LastFor(at, patch.files[..j], i) ==> LeftTheSame(at, disk, patch, patch.files[i])
  }

  /**
   * Apply is not atomic across the writes. When write j is the first to fail, the files before it have
   * already been replaced; the disk is as before exactly when the last contents written to each path are
   * what was there.
   */
  lemma {:induction false} FailureWhileWriting(at: Resolver, s: State, diff: string, env: Env, j: nat)
    requires Parse(diff).Ok? && AllTargets(at, s.disk, Parse(diff).value, env)
    requires j < |Parse(diff).value.files| && !env.writeOk(j) && forall i :: 0 <= i < j ==> env.writeOk(i)
    ensures var (after, r) := ApplyTo(at, s, diff, env);
            r == Err(WriteFailed) && (after.disk == s.disk <==> SameSoFar(at, s.disk, Parse(diff).value, j))
  {
    hide Parse, Stage, ApplyText, WriteAll, TargetOf;
    var patch := Parse(diff).value;
    var start := Staging(s.originals, [], Ok(map[]));
    StageMeaning(at, s.disk, patch, 0, start, env);
    StageCovers(at, s.disk, patch, 0, start, env);
    var contents := Stage(at, s.disk, patch, 0, start, env).contents.value;
    WritesStopAt(at, s.disk, patch.files, contents, env.writeOk, j);
    WritesDone(at, s.disk, patch.files[..j], contents, env.writeOk);
    forall i | 0 <= i < |patch.files| ensures at(patch.files[i]) in s.disk {
      TargetReadable(at, s.disk, patch, patch.files[i], env.readOk(i));
    }
    SameAfterWrites(at, s.disk, patch, contents, env.writeOk, j);
  }

  lemma {:induction false} SameAfterWrites(at: Resolver, disk: Files, patch: Patch, contents: Files, ok: nat -> bool,
                                           j: nat)
    requires j <= |patch.files| && Covers(contents, patch.files[..j])
    requires forall f :: f in contents ==> Outcome(at, disk, patch, f) == Ok(contents[f])
    requires forall i :: 0 <= i < j ==> at(patch.files[i]) in disk
    requires WriteAll(at, disk, patch.files[..j], contents, ok).1
    ensures WriteAll(at, disk, patch.files[..j], contents, ok).0 == disk <==> SameSoFar(at, disk, patch, j)
  {
    hide ApplyText, WriteAll, TargetOf, LastFor, Outcome;
    var written := patch.files[..j];
    var after := WriteAll(at, disk, written, contents, ok).0;
    forall i | 0 <= i < j && LastFor(at, written, i)
      ensures at(written[i]) in after && after[at(written[i])] == contents[written[i]]
    {
      LastWins(at, disk, written, contents, ok, i);
    }
    forall p ensures p in after <==> p in disk {
      WritesReach(at, disk, written, contents, ok, p);
    }
    if SameSoFar(at, disk, patch, j) {
      forall p | p in disk ensures after[p] == disk[p] {
        if Touched(at, written, p) {
          var i := SomeLast(at, written, p);
          assert LeftTheSame(at, disk, patch, patch.files[i]);
        } else {
          WritesReach(at, disk, written, contents, ok, p);
        }
      }
      assert after == disk;
    }
  }

  /**
   * Apply is atomic for a diff and a disk, meaning that no failure ever leaves the disk changed, exactly
   * when every file of the diff but the last is left the same by its hunks, or the diff cannot get as far as
   * the writes at all.
   */
  lemma {:induction false} AtomicExactly(at: Resolver, s: State, diff: string, readOk: nat -> bool)
    ensures (forall writeOk: nat -> bool ::
               var (after, r) := ApplyTo(at, s, diff, Env(readOk, writeOk));
               r.Err? ==> after.disk == s.disk)
            <==>
            (Parse(diff).Ok? && AllTargets(at, s.disk, Parse(diff).value, Env(readOk, i => true)) ==>
               forall i :: 0 <= i < |Parse(diff).value.files| - 1 ==>
                 LeftTheSame(at, s.disk, Parse(diff).value, Parse(diff).value.files[i]))
  {
    hide Parse, ApplyTo, TargetOf, LeftTheSame;
    if Parse(diff).Ok? && AllTargets(at, s.disk, Parse(diff).value, Env(readOk, i => true)) {
      var patch := Parse(diff).value;
      if forall i :: 0 <= i < |patch.files| - 1 ==> LeftTheSame(at, s.disk, patch, patch.files[i]) {
        forall writeOk: nat -> bool | ApplyTo(at, s, diff, Env(readOk, writeOk)).1.Err?
          ensures ApplyTo(at, s, diff, Env(readOk, writeOk)).0.disk == s.disk
        {
          ApplySucceedsExactly(at, s, diff, Env(readOk, writeOk));
          var j := FirstFailure(writeOk, |patch.files|);
          FailureWhileWriting(at, s, diff, Env(readOk, writeOk), j);
        }
      } else {
        var i :| 0 <= i < |patch.files| - 1 && !LeftTheSame(at, s.disk, patch, patch.files[i]);
        var failing: nat -> bool := k => k != i + 1;
        FailureWhileWriting(at, s, diff, Env(readOk, failing), i + 1);
        assert LastFor(at, patch.files[..i + 1], i);
      }
    } else {
      forall writeOk: nat -> bool ensures ApplyTo(at, s, diff, Env(readOk, writeOk)).0.disk == s.disk {
        FailureBeforeWritingIsClean(at, s, diff, Env(readOk, writeOk));
      }
    }
  }

  /** The first of the first n writes that fails. */
  lemma {:induction false} FirstFailure(ok: nat -> bool, n: nat) returns (j: nat)
    requires exists k :: 0 <= k < n && !ok(k)
    ensures j < n && !ok(j) && forall i :: 0 <= i < j ==> ok(i)
  {
    j := 0;
    while ok(j)
      invariant j < n && forall i :: 0 <= i < j ==> ok(i)
      decreases n - j
    {
      var k :| 0 <= k < n && !ok(k);
      assert j < k;
      j := j + 1;
    }
  }

  lemma {:induction false} TargetReadable(at: Resolver, disk: Files, patch: Patch, file: string, ok: bool)
    requires TargetOf(at, disk, patch, file, ok).Ok?
    ensures at(file) in disk && TargetOf(at, disk, patch, file, ok) == Outcome(at, disk, patch, file)
  {
    hide ApplyText;
  }

  lemma {:induction false} WritesStopAt(at: Resolver, disk: Files, files: seq<string>, contents: Files,
                                        ok: nat -> bool, j: nat)
    requires Covers(contents, files) && j < |files| && !ok(j) && forall i :: 0 <= i < j ==> ok(i)
    ensures WriteAll(at, disk, files, contents, ok) == (WriteAll(at, disk, files[..j], contents, ok).0, false)
  {
    assert files[..j + 1][..j] == files[..j];
    NothingAfterFailure(at, disk, files, contents, ok, j + 1);
  }

  // ----- what a call leaves in the ledger

  /** File j is the first that cannot be read or patched, or j is past the last file. */
  predicate StopsAt(at: Resolver, disk: Files, patch: Patch, env: Env, j: nat)
  {
    && j <= |patch.files|
    && (forall i :: 0 <= i < j ==> TargetOf(at, disk, patch, patch.files[i], env.readOk(i)).Ok?)
    && (j < |patch.files| ==> TargetOf(at, disk, patch, patch.files[j], env.readOk(j)).Err?)
  }

  /** The file was among those read. */
  predicate WasRead(at: Resolver, disk: Files, files: seq<string>, env: Env, from: nat, j: nat, file: string)
    requires from <= j <= |files|
  {
    file in files[from..j] || (j < |files| && file == files[j] && env.readOk(j) && at(file) in disk)
  }

  lemma {:induction false} StageLeaves(at: Resolver, disk: Files, patch: Patch, k: nat, so: Staging, env: Env, j: nat,
                                       file: string)
    requires k <= j && StopsAt(at, disk, patch, env, j) && so.contents.Ok?
    ensures var r := Stage(at, disk, patch, k, so, env);
            && r.lastFiles == so.lastFiles + patch.files[k..j]
            && (file in so.originals ==> file in r.originals && r.originals[file] == so.originals[file])
            && (file !in so.originals ==> (file in r.originals <==> WasRead(at, disk, patch.files, env, k, j, file)))
            && (file !in so.originals && file in r.originals ==>
                  at(file) in disk && r.originals[file] == disk[at(file)])
            && (r.contents.Ok? <==> j == |patch.files|)
            && (j < |patch.files| ==>
                  r.contents.Err? &&
                  r.contents.error == TargetOf(at, disk, patch, patch.files[j], env.readOk(j)).error)
    decreases j - k
  {
    hide ApplyText, Stage, WasRead;
    if k == |patch.files| {
      StageEnd(at, disk, patch, so, env);
      ReadHere(at, disk, patch.files, env, k, file);
      assert so.lastFiles + patch.files[k..j] == so.lastFiles;
    } else if k < j {
      StageUnfolds(at, disk, patch, k, so, env);
      StageLeaves(at, disk, patch, k + 1, StageNext(at, disk, patch, k, so), env, j, file);
      ReadBefore(at, disk, patch.files, env, k, j, file);
      assert patch.files[k..j] == [patch.files[k]] + patch.files[k + 1..j];
    } else {
      StageStep(at, disk, patch, k, so, env);
      ReadHere(at, disk, patch.files, env, k, file);
      assert so.lastFiles + patch.files[k..j] == so.lastFiles;
    }
  }

  lemma {:induction false} ReadHere(at: Resolver, disk: Files, files: seq<string>, env: Env, k: nat, file: string)
    requires k <= |files|
    ensures WasRead(at, disk, files, env, k, k, file) <==>
            k < |files| && file == files[k] && env.readOk(k) && at(file) in disk
  {
  }

  lemma {:induction false} ReadBefore(at: Resolver, disk: Files, files: seq<string>, env: Env, k: nat, j: nat,
                                      file: string)
    requires k < j <= |files|
    ensures WasRead(at, disk, files, env, k, j, file) <==>
            file == files[k] || WasRead(at, disk, files, env, k + 1, j, file)
  {
    assert files[k..j] == [files[k]] + files[k + 1..j];
  }

  /**
   * What a call of Apply leaves behind, whatever becomes of it. If the diff does not parse nothing changes at
   * all. Else the files last patched are those before the first that could not be read or patched, the
   * diff itself is kept only if everything went through, and newly remembered are exactly the files read.
   */
  lemma {:induction false} ApplyLeaves(at: Resolver, s: State, diff: string, env: Env, j: nat)
    requires Parse(diff).Ok? ==> StopsAt(at, s.disk, Parse(diff).value, env, j)
    ensures var (after, r) := ApplyTo(at, s, diff, env);
            if Parse(diff).Err? then after == s && r == Err(Parse(diff).error)
            else
              var patch := Parse(diff).value;
              && after.lastFiles == patch.files[..j]
              && after.lastPatch == (if r.Ok? then diff else "")
              && (forall f :: f in s.originals ==> f in after.originals && after.originals[f] == s.originals[f])
              && (forall f :: f !in s.originals ==>
                    (f in after.originals <==> WasRead(at, s.disk, patch.files, env, 0, j, f)))
              && (forall f :: f !in s.originals && f in after.originals ==>
                    at(f) in s.disk && after.originals[f] == s.disk[at(f)])
              && (j < |patch.files| ==>
                    TargetOf(at, s.disk, patch, patch.files[j], env.readOk(j)).Err? &&
                    r == Err(TargetOf(at, s.disk, patch, patch.files[j], env.readOk(j)).error))
  {
    hide Parse, Stage, TargetOf, WriteAll;
    if Parse(diff).Ok? {
      var patch, start := Parse(diff).value, Staging(s.originals, [], Ok(map[]));
      StageLeaves(at, s.disk, patch, 0, start, env, j, "");
      forall f
        ensures var r := Stage(at, s.disk, patch, 0, start, env).originals;
                && (f in s.originals ==> f in r && r[f] == s.originals[f])
                && (f !in s.originals ==> (f in r <==> WasRead(at, s.disk, patch.files, env, 0, j, f)))
                && (f !in s.originals && f in r ==> at(f) in s.disk && r[f] == s.disk[at(f)])
      {
        StageLeaves(at, s.disk, patch, 0, start, env, j, f);
      }
      assert [] + patch.files[0..j] == patch.files[..j];
    }
  }
}
