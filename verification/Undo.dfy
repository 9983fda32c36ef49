/** Undo over whole runs: any sequence of Apply and Revert calls, each succeeding or failing anywhere. */
module Undo {
  import opened Hunks
  import opened PatchParser
  import opened Bookkeeping
  import opened PatchLaws

  datatype Call = ApplyCall(diff: string, env: Env) | RevertCall(order: seq<string>, writeOk: nat -> bool)

  /** A Revert walks some of the remembered names, all of them unless a write fails. */
  ghost predicate Legal(s: State, c: Call)
  {
    match c
    case ApplyCall(_, _) => true
    case RevertCall(order, writeOk) =>
      Covers(s.originals, order) &&
      ((forall k :: 0 <= k < |order| ==> writeOk(k)) ==> Enumerates(order, s.originals.Keys))
  }

  ghost function Step(at: Resolver, s: State, c: Call): State
    requires Legal(s, c)
  {
    match c
    case ApplyCall(diff, env) => ApplyTo(at, s, diff, env).0
    case RevertCall(order, writeOk) => RevertTo(at, s, order, writeOk).0
  }

  /** The states a run goes through, from `s` on. */
  ghost predicate IsRun(at: Resolver, s: State, calls: seq<Call>, states: seq<State>)
  {
    && |states| == |calls| + 1 && states[0] == s
    && forall k :: 0 <= k < |calls| ==> Legal(states[k], calls[k]) && states[k + 1] == Step(at, states[k], calls[k])
  }

  // ----- the ledger invariant

  ghost predicate Recorded(at: Resolver, originals: Files, path: string)
  {
    exists f :: f in originals && at(f) == path
  }

  /** Some name leading to `path` remembers its very first content. */
  ghost predicate Kept(at: Resolver, init: Files, originals: Files, path: string)
  {
    path in init && exists f :: f in originals && at(f) == path && originals[f] == init[path]
  }

  /** No file appeared or vanished; recorded paths have their first content kept, the others still hold it. */
  ghost predicate Tracks(at: Resolver, init: Files, disk: Files, originals: Files)
  {
    && disk.Keys == init.Keys
    && (forall f :: f in originals ==> Kept(at, init, originals, at(f)))
    && (forall p :: p in init && !Recorded(at, originals, p) ==> disk[p] == init[p])
  }

  /** Reading one more file, on a disk that the ledger tracks, keeps the ledger right. */
  lemma {:induction false} RecordTracks(at: Resolver, init: Files, disk: Files, originals: Files, file: string)
    requires Tracks(at, init, disk, originals) && at(file) in disk
    ensures Tracks(at, init, disk, Record(originals, file, disk[at(file)]))
  {
    var after := Record(originals, file, disk[at(file)]);
    forall f | f in after ensures Kept(at, init, after, at(f)) {
      if Recorded(at, originals, at(f)) {
        var g :| g in originals && at(g) == at(f);
        assert Kept(at, init, originals, at(g));
        var h :| h in originals && at(h) == at(f) && originals[h] == init[at(f)];
        assert h in after && after[h] == originals[h];
      } else {
        assert f == file;
        assert after[file] == init[at(file)];
      }
    }
    assert forall f :: f in originals ==> f in after;
  }

  lemma {:induction false} StageTracks(at: Resolver, init: Files, disk: Files, patch: Patch, k: nat, so: Staging,
                                       env: Env)
    requires k <= |patch.files| && so.contents.Ok?
    requires Tracks(at, init, disk, so.originals) && Covers(so.originals, so.lastFiles)
    requires so.lastFiles == patch.files[..k]
    ensures var r := Stage(at, disk, patch, k, so, env);
            && Tracks(at, init, disk, r.originals)
            && so.originals.Keys <= r.originals.Keys
            && (forall f :: f in so.originals ==> r.originals[f] == so.originals[f])
            && Covers(r.originals, r.lastFiles)
            && (r.contents.Ok? ==> r.lastFiles == patch.files)
    decreases |patch.files| - k
  {
    hide ApplyText, Stage, Tracks;
    if k == |patch.files| {
      StageEnd(at, disk, patch, so, env);
      assert patch.files[..k] == patch.files;
    } else {
      StageUnfolds(at, disk, patch, k, so, env);
      var file := patch.files[k];
      if at(file) in disk {
        RecordTracks(at, init, disk, so.originals, file);
      }
      if TargetOf(at, disk, patch, file, env.readOk(k)).Ok? {
        assert patch.files[..k + 1] == patch.files[..k] + [file];
        StageTracks(at, init, disk, patch, k + 1, StageNext(at, disk, patch, k, so), env);
      }
    }
  }

  /** Writing only recorded files keeps the ledger right, wherever the writing stops. */
  lemma {:induction false} WritesTrack(at: Resolver, init: Files, disk: Files, originals: Files,
                                       files: seq<string>, contents: Files, ok: nat -> bool)
    requires Tracks(at, init, disk, originals) && Covers(contents, files) && Covers(originals, files)
    ensures Tracks(at, init, WriteAll(at, disk, files, contents, ok).0, originals)
  {
    hide WriteAll;
    var after := WriteAll(at, disk, files, contents, ok).0;
    forall p
      ensures p in after <==> p in init
      ensures p in init && !Recorded(at, originals, p) ==> after[p] == init[p]
    {
      WritesReach(at, disk, files, contents, ok, p);
      if Touched(at, files, p) {
        var i :| 0 <= i < |files| && at(files[i]) == p;
        assert Kept(at, init, originals, at(files[i]));
      }
    }
    assert after.Keys == init.Keys;
  }

  /** One call, whatever becomes of it, keeps the ledger right and never forgets or replaces a remembered content. */
  lemma {:induction false} StepTracks(at: Resolver, init: Files, s: State, c: Call)
    requires Legal(s, c) && Tracks(at, init, s.disk, s.originals) && Covers(s.originals, s.lastFiles)
    ensures var after := Step(at, s, c);
            && Tracks(at, init, after.disk, after.originals)
            && Covers(after.originals, after.lastFiles)
            && (forall f :: f in s.originals ==> f in after.originals && after.originals[f] == s.originals[f])
  {
    hide Parse, Stage, Tracks, WriteAll, ApplyText;
    match c
    case ApplyCall(diff, env) =>
      if Parse(diff).Ok? {
        var patch := Parse(diff).value;
        var start := Staging(s.originals, [], Ok(map[]));
        StageTracks(at, init, s.disk, patch, 0, start, env);
        StageCovers(at, s.disk, patch, 0, start, env);
        var staged := Stage(at, s.disk, patch, 0, start, env);
        if staged.contents.Ok? {
          WritesTrack(at, init, s.disk, staged.originals, patch.files, staged.contents.value, env.writeOk);
        }
      }
    case RevertCall(order, writeOk) =>
      WritesTrack(at, init, s.disk, s.originals, order, s.originals, writeOk);
  }

  /**
   * In every state of every run of a new ledger: a path that no remembered name leads to is unchanged,
   * every other path has its first content remembered, and every file last patched is remembered.
   */
  lemma {:induction false} RunTracks(at: Resolver, init: Files, calls: seq<Call>, states: seq<State>, k: nat)
    requires IsRun(at, State(init, map[], [], ""), calls, states) && k <= |calls|
    ensures Tracks(at, init, states[k].disk, states[k].originals)
    ensures Covers(states[k].originals, states[k].lastFiles)
  {
    if k > 0 {
      RunTracks(at, init, calls, states, k - 1);
      hide Step, Tracks, Covers;
      StepTracks(at, init, states[k - 1], calls[k - 1]);
    }
  }

  /** With one name for each path, a remembered content is always the first one. */
  lemma {:induction false} RememberedIsFirst(at: Resolver, init: Files, disk: Files, originals: Files, file: string)
    requires Tracks(at, init, disk, originals) && file in originals
    requires forall f, g :: f in originals && g in originals && at(f) == at(g) ==> f == g
    ensures at(file) in init && originals[file] == init[at(file)]
  {
    assert Kept(at, init, originals, at(file));
  }

  // ----- the undo

  /** Names leading to one path remember one content. */
  ghost predicate Agree(at: Resolver, originals: Files)
  {
    forall f, g :: f in originals && g in originals && at(f) == at(g) ==> originals[f] == originals[g]
  }

  /** A Revert that goes through restores the initial disk when the remembered contents agree. */
  lemma {:induction false} RevertRestores(at: Resolver, init: Files, s: State, order: seq<string>, ok: nat -> bool)
    requires Tracks(at, init, s.disk, s.originals) && Agree(at, s.originals)
    requires Enumerates(order, s.originals.Keys) && Covers(s.originals, order)
    requires forall k :: 0 <= k < |order| ==> ok(k)
    ensures RevertTo(at, s, order, ok).0.disk == init
  {
    hide WriteAll;
    var after := WriteAll(at, s.disk, order, s.originals, ok).0;
    WritesDone(at, s.disk, order, s.originals, ok);
    WritesTrack(at, init, s.disk, s.originals, order, s.originals, ok);
    forall p | p in init ensures after[p] == init[p] {
      WritesReach(at, s.disk, order, s.originals, ok, p);
      if Recorded(at, s.originals, p) {
        var f :| f in s.originals && at(f) == p;
        assert f in order;
        assert Touched(at, order, p);
        assert Kept(at, init, s.originals, at(f));
        var i :| 0 <= i < |order| && at(order[i]) == p && after[p] == s.originals[order[i]];
      }
    }
  }

  /** An order that walks `last` last. */
  lemma {:induction false} OrderEndingIn(keys: set<string>, last: string) returns (order: seq<string>)
    requires last in keys
    ensures Enumerates(order, keys) && order[|order| - 1] == last
    decreases keys
  {
    if keys == {last} {
      order := [last];
    } else {
      var first :| first in keys && first != last;
      var rest := OrderEndingIn(keys - {first}, last);
      order := [first] + rest;
      forall f ensures f in order <==> f in keys {
      }
    }
  }

  /**
   * After any run of a new ledger, every Revert that goes through restores the initial disk exactly,
   * whatever the order in which the remembered files are written back, if and only if names leading
   * to one path remember one content.
   */
  lemma {:induction false} UndoExactly(at: Resolver, init: Files, calls: seq<Call>, states: seq<State>)
    requires IsRun(at, State(init, map[], [], ""), calls, states)
    ensures var s := states[|calls|];
            Agree(at, s.originals) <==>
            forall order: seq<string>, ok: nat -> bool ::
              Enumerates(order, s.originals.Keys) && Covers(s.originals, order)
              && (forall k :: 0 <= k < |order| ==> ok(k)) ==>
                RevertTo(at, s, order, ok).0.disk == init
  {
    hide WriteAll, Step, Tracks;
    var s := states[|calls|];
    RunTracks(at, init, calls, states, |calls|);
    if Agree(at, s.originals) {
      forall order: seq<string>, ok: nat -> bool
        | Enumerates(order, s.originals.Keys) && Covers(s.originals, order) && (forall k :: 0 <= k < |order| ==> ok(k))
        ensures RevertTo(at, s, order, ok).0.disk == init
      {
        RevertRestores(at, init, s, order, ok);
      }
    } else {
      var f, g :| f in s.originals && g in s.originals && at(f) == at(g) && s.originals[f] != s.originals[g];
      var wrong := if at(f) in init && s.originals[f] == init[at(f)] then g else f;
      var order := OrderEndingIn(s.originals.Keys, wrong);
      LastWriteStays(at, s, order);
    }
  }

  lemma {:induction false} LastWriteStays(at: Resolver, s: State, order: seq<string>)
    requires order != [] && Covers(s.originals, order)
    ensures var (after, last) := (RevertTo(at, s, order, (_: nat) => true).0.disk, order[|order| - 1]);
            at(last) in after && after[at(last)] == s.originals[last]
  {
    WritesDone(at, s.disk, order[..|order| - 1], s.originals, (_: nat) => true);
  }

  /** A Revert reports success exactly when every write went through, and never changes the ledger. */
  lemma {:induction false} RevertSucceedsExactly(at: Resolver, s: State, order: seq<string>, ok: nat -> bool)
    requires Covers(s.originals, order)
    ensures var (after, done) := RevertTo(at, s, order, ok);
            && (done <==> forall k :: 0 <= k < |order| ==> ok(k))
            && after.originals == s.originals && after.lastFiles == s.lastFiles && after.lastPatch == s.lastPatch
  {
    hide WriteAll;
    WritesDone(at, s.disk, order, s.originals, ok);
  }

  /** In particular when no two remembered names lead to one path, as for clean relative paths. */
  lemma {:induction false} UndoWithoutAliases(at: Resolver, init: Files, calls: seq<Call>, states: seq<State>,
                                              order: seq<string>, ok: nat -> bool)
    requires IsRun(at, State(init, map[], [], ""), calls, states)
    requires var originals := states[|calls|].originals;
             forall f, g :: f in originals && g in originals && at(f) == at(g) ==> f == g
    requires var s := states[|calls|];
             Enumerates(order, s.originals.Keys) && Covers(s.originals, order) && forall k :: 0 <= k < |order| ==> ok(k)
    ensures RevertTo(at, states[|calls|], order, ok).0.disk == init
  {
    RunTracks(at, init, calls, states, |calls|);
    RevertRestores(at, init, states[|calls|], order, ok);
  }

  // ----- two spellings of one path

  /** A successful Apply remembers what it read under every name not remembered before. */
  lemma {:induction false} ApplyRecords(at: Resolver, s: State, diff: string, env: Env, file: string)
    requires ApplyTo(at, s, diff, env).1.Ok?
    ensures var (after, patch) := (ApplyTo(at, s, diff, env).0, Parse(diff).value);
            && Parse(diff).Ok?
            && (file in patch.files && file !in s.originals ==>
                  at(file) in s.disk && file in after.originals && after.originals[file] == s.disk[at(file)])
            && (file !in patch.files ==> (file in after.originals <==> file in s.originals))
            && (file in s.originals ==> file in after.originals && after.originals[file] == s.originals[file])
  {
    hide Parse, Stage, ApplyText, WriteAll;
    ApplySucceedsExactly(at, s, diff, env);
    var patch := Parse(diff).value;
    var start := Staging(s.originals, [], Ok(map[]));
    StageCovers(at, s.disk, patch, 0, start, env);
    StageMeaning(at, s.disk, patch, 0, start, env);
    StageRecords(at, s.disk, patch, 0, start, env, file);
    assert patch.files[0..] == patch.files;
  }

  lemma {:induction false} StageRecords(at: Resolver, disk: Files, patch: Patch, k: nat, so: Staging, env: Env,
                                        file: string)
    requires k <= |patch.files| && so.contents.Ok? && Stage(at, disk, patch, k, so, env).contents.Ok?
    ensures var r := Stage(at, disk, patch, k, so, env).originals;
            && (file in so.originals ==> file in r && r[file] == so.originals[file])
            && (file !in so.originals && file in patch.files[k..] ==>
                  at(file) in disk && file in r && r[file] == disk[at(file)])
            && (file !in so.originals && file !in patch.files[k..] ==> file !in r)
    decreases |patch.files| - k
  {
    hide ApplyText, Stage;
    if k == |patch.files| {
      StageEnd(at, disk, patch, so, env);
    } else {
      StageUnfolds(at, disk, patch, k, so, env);
      assert patch.files[k..] == [patch.files[k]] + patch.files[k + 1..];
      StageRecords(at, disk, patch, k + 1, StageNext(at, disk, patch, k, so), env, file);
    }
  }

  /**
   * The condition of UndoExactly fails as soon as one path is patched under two spellings and the first
   * patch changed it: the second spelling remembers the patched content as if it were the first.
   */
  lemma {:induction false} SecondSpellingBreaksUndo(at: Resolver, init: Files, diff1: string, env1: Env,
                                                    diff2: string, env2: Env, f: string, g: string)
    requires var (s1, r1) := ApplyTo(at, State(init, map[], [], ""), diff1, env1);
             var (s2, r2) := ApplyTo(at, s1, diff2, env2);
             && r1.Ok? && r2.Ok?
             && at(f) == at(g) && f in r1.value && g !in r1.value && g in r2.value
             && at(f) in init && at(f) in s1.disk && s1.disk[at(f)] != init[at(f)]
    ensures var s1 := ApplyTo(at, State(init, map[], [], ""), diff1, env1).0;
            !Agree(at, ApplyTo(at, s1, diff2, env2).0.originals)
  {
    hide ApplyTo, Parse;
    var start := State(init, map[], [], "");
    var s1 := ApplyTo(at, start, diff1, env1).0;
    ApplyWritesTargets(at, start, diff1, env1);
    ApplyWritesTargets(at, s1, diff2, env2);
    ApplyRecords(at, start, diff1, env1, f);
    ApplyRecords(at, start, diff1, env1, g);
    ApplyRecords(at, s1, diff2, env2, f);
    ApplyRecords(at, s1, diff2, env2, g);
  }

  // ----- the diff shown

  /**
   * In every state of every run of a new ledger, as long as no two names share a path: the diff shown is, for
   * the files last patched and in their order, the change from what each path held at the very beginning to
   * what it holds now; there is one exactly when each of these can be read and has a text.
   */
  lemma {:induction false} DiffFromTheBeginning(at: Resolver, init: Files, calls: seq<Call>, states: seq<State>, k: nat,
                                                ok: nat -> bool, unified: Differ, text: string)
    requires IsRun(at, State(init, map[], [], ""), calls, states) && k <= |calls|
    requires var originals := states[k].originals;
             forall f, g :: f in originals && g in originals && at(f) == at(g) ==> f == g
    ensures Covers(states[k].originals, states[k].lastFiles)
    ensures forall i :: 0 <= i < |states[k].lastFiles| ==>
              at(states[k].lastFiles[i]) in init && at(states[k].lastFiles[i]) in states[k].disk
    ensures var (s, files) := (states[k], states[k].lastFiles);
            AllDiffs(at, s, files, ok, unified) == Ok(text) <==>
            exists parts: seq<string> ::
              && |parts| == |files| && Concat(parts) == text
              && forall i :: 0 <= i < |files| ==>
                   ok(i) && unified(files[i], init[at(files[i])], s.disk[at(files[i])]) == Ok(parts[i])
  {
    hide AllDiffs, Concat, Tracks, Step, Legal;
    RunTracks(at, init, calls, states, k);
    var s, files := states[k], states[k].lastFiles;
    forall i | 0 <= i < |files|
      ensures at(files[i]) in init && at(files[i]) in s.disk && s.originals[files[i]] == init[at(files[i])]
    {
      RememberedIsFirst(at, init, s.disk, s.originals, files[i]);
      TrackedPaths(at, init, s.disk, s.originals);
    }
    DiffShows(at, s, files, ok, unified, text);
    forall parts: seq<string>
      ensures DiffParts(at, s, files, ok, unified, parts) <==>
              && |parts| == |files|
              && forall i :: 0 <= i < |files| ==>
                   ok(i) && unified(files[i], init[at(files[i])], s.disk[at(files[i])]) == Ok(parts[i])
    {
    }
  }

  lemma {:induction false} TrackedPaths(at: Resolver, init: Files, disk: Files, originals: Files)
    requires Tracks(at, init, disk, originals)
    ensures disk.Keys == init.Keys
  {
  }
}
