/** Keystore passphrase rotation and its crash recovery (internal/keys/passphrase.go). */
module KeyRotation {
  import opened Base
  import opened Orders

  // ── what is on disk ──────────────────────────────────────────────────────────

  /** A secret file: `plain` encrypted under `pass`, beside clear fields the rotation preserves. */
  datatype Blob = Sealed(pass: string, plain: string, header: string)

  /** The secret files and the staged "<file>.new" copies by relative path, and the commit marker. */
  datatype Disk = Disk(files: map<string, Blob>, staged: map<string, Blob>, marker: Option<seq<string>>)

  const MANIFEST := "keystore.json"

  function WalletPath(id: string): string { "wallets/" + id + ".json" }

  /** `b` opens under `pass` to what `original` holds; the manifest's verifier is arbitrary. */
  ghost predicate Opens(path: string, b: Blob, original: Blob, pass: string) {
    b.pass == pass && b.header == original.header && (path != MANIFEST ==> b.plain == original.plain)
  }

  /** Every secret file opens under one passphrase, to its original content. */
  ghost predicate Uniform(files: map<string, Blob>, original: map<string, Blob>, pass: string) {
    && files.Keys == original.Keys
    && forall f :: f in files ==> Opens(f, files[f], original[f], pass)
  }

  /** No marker: all under one passphrase. A marker: every file is already new, or still old with
      its new copy staged and listed. */
  ghost predicate Recoverable(d: Disk, original: map<string, Blob>, was: string, next: string) {
    && d.files.Keys == original.Keys
    && d.staged.Keys <= d.files.Keys
    && match d.marker
       case None => Uniform(d.files, original, was) || Uniform(d.files, original, next)
       case Some(list) =>
         && (forall f :: f in list ==> f in d.files)
         && (forall f :: f in d.staged ==> f in list && Opens(f, d.staged[f], original[f], next))
         && (forall f :: f in d.files ==>
               Opens(f, d.files[f], original[f], next) || (f in d.staged && Opens(f, d.files[f], original[f], was)))
  }

  // ── file operations that can fail or be cut short ────────────────────────────

  /** What an operation meets: it works, it fails without effect, or the process dies first. */
  datatype Fault = Fine | Fails | Dies

  datatype Outcome = Done | IoError | Corrupt | Died

  /** The rename of one path: nothing when it has no staged copy. */
  function SwappedOne(d: Disk, path: string): Disk {
    if path in d.staged then d.(files := d.files[path := d.staged[path]], staged := d.staged - {path}) else d
  }

  /** The renames of a list of paths, in order. */
  function Swapped(d: Disk, list: seq<string>): Disk
    decreases |list|
  {
    if list == [] then d else Swapped(SwappedOne(d, list[0]), list[1..])
  }

  /** meta.json lists exactly the wallets that have a file. */
  ghost predicate Listed(files: map<string, Blob>, wallets: set<string>) {
    forall f :: f in files <==> f == MANIFEST || exists id :: id in wallets && f == WalletPath(id)
  }

  datatype Change = Rotated(count: nat) | Refused(why: Refusal) | Interrupted(how: Outcome)
  datatype Refusal = NotInitialized | BadPassphrase | OrphanBlob

  /** What the k-th coming operation meets. */
  function FaultAt(faults: seq<Fault>, k: nat): Fault { if k < |faults| then faults[k] else Fine }

  /** What an operation comes to. */
  function Met(f: Fault): Outcome { match f case Fine => Done case Fails => IoError case Dies => Died }

  lemma {:induction false} SwappedNext(d: Disk, list: seq<string>, i: nat)
    requires i < |list|
    ensures Swapped(d, list[..i + 1]) == SwappedOne(Swapped(d, list[..i]), list[i])
    decreases i
  {
    if i > 0 {
      SwappedNext(SwappedOne(d, list[0]), list[1..], i - 1);
      assert list[..i + 1][1..] == list[1..][..i] && list[..i][1..] == list[1..][..i - 1];
    } else {
      assert list[..1] == [list[0]];
    }
  }

  /** Renaming one listed copy keeps the disk recoverable, and an all-new disk all new. */
  lemma RenameKeepsRecoverable(d: Disk, path: string, original: map<string, Blob>, was: string, next: string)
    requires Recoverable(d, original, was, next) && d.marker.Some?
    ensures Recoverable(SwappedOne(d, path), original, was, next)
    ensures Uniform(d.files, original, next) ==> Uniform(SwappedOne(d, path).files, original, next)
  {
    if path in d.staged {
      assert d.files[path := d.staged[path]].Keys == d.files.Keys;
    }
  }

  /** After any number of the listed renames the disk is still recoverable. */
  lemma {:induction false} SwapPrefix(d: Disk, list: seq<string>, i: nat, original: map<string, Blob>, was: string, next: string)
    requires Recoverable(d, original, was, next) && d.marker == Some(list) && i <= |list|
    ensures Swapped(d, list[..i]).marker == Some(list)
    ensures Recoverable(Swapped(d, list[..i]), original, was, next)
    ensures Uniform(d.files, original, next) ==> Uniform(Swapped(d, list[..i]).files, original, next)
  {
    if i > 0 {
      SwapPrefix(d, list, i - 1, original, was, next);
      SwappedNext(d, list, i - 1);
      RenameKeepsRecoverable(Swapped(d, list[..i - 1]), list[i - 1], original, was, next);
    }
  }

  lemma {:induction false} SwappedEmpties(d: Disk, list: seq<string>)
    requires forall f :: f in d.staged ==> f in list
    ensures Swapped(d, list).staged.Keys == {}
    decreases |list|
  {
    if list != [] {
      assert list == [list[0]] + list[1..];
      SwappedEmpties(SwappedOne(d, list[0]), list[1..]);
    }
  }

  /** After all of them every file is new. */
  lemma SwapAll(d: Disk, list: seq<string>, original: map<string, Blob>, was: string, next: string)
    requires Recoverable(d, original, was, next) && d.marker == Some(list)
    ensures Swapped(d, list).staged == map[] && Uniform(Swapped(d, list).files, original, next)
  {
    SwapPrefix(d, list, |list|, original, was, next);
    assert list[..|list|] == list;
    SwappedEmpties(d, list);
    NothingStaged(Swapped(d, list), original, was, next);
  }

  lemma NothingStaged(d: Disk, original: map<string, Blob>, was: string, next: string)
    requires Recoverable(d, original, was, next) && d.marker.Some? && d.staged.Keys == {}
    ensures d.staged == map[] && Uniform(d.files, original, next)
  {
  }

  class KeyDir {
    var files: map<string, Blob>
    var staged: map<string, Blob>
    var marker: Option<seq<string>>
    var wallets: set<string>      // the wallet ids meta.json lists
    var faults: seq<Fault>        // what the coming operations will meet

    ghost function State(): Disk reads this { Disk(files, staged, marker) }

    constructor (files: map<string, Blob>, wallets: set<string>)
      ensures State() == Disk(files, map[], None) && this.wallets == wallets && faults == []
    {
      this.files, this.staged, this.marker, this.wallets, this.faults := files, map[], None, wallets, [];
    }

    /** The outcome of the next operation. */
    method Meet() returns (f: Fault)
      modifies this`faults
      ensures f == if old(faults) == [] then Fine else old(faults)[0]
      ensures faults == if old(faults) == [] then [] else old(faults)[1..]
    {
      if faults == [] {
        return Fine;
      }
      f := faults[0];
      faults := faults[1..];
    }

    method StageFile(path: string, b: Blob) returns (r: Outcome)
      modifies this`staged, this`faults
      ensures r == Met(FaultAt(old(faults), 0))
      ensures staged == if r == Done then old(staged)[path := b] else old(staged)
      ensures old(faults) == [] ==> r == Done && faults == []
    {
      var f := Meet();
      match f
      case Dies => return Died;
      case Fails => return IoError;
      case Fine => staged := staged[path := b]; return Done;
    }

    /** Removes staged copies one by one, ignoring failures. */
    method RemoveStaged(paths: seq<string>) returns (r: Outcome)
      modifies this`staged, this`faults
      ensures r == Done || (r == Died && Dies in old(faults))
      ensures staged.Keys <= old(staged).Keys && forall f :: f in staged ==> staged[f] == old(staged)[f]
      ensures r == Done && Fails !in old(faults) ==> staged == old(staged) - (set f | f in paths)
      ensures forall f :: f in faults ==> f in old(faults)
      ensures old(faults) == [] ==> r == Done && faults == []
    {
      for i := 0 to |paths|
        invariant staged.Keys <= old(staged).Keys && forall f :: f in staged ==> staged[f] == old(staged)[f]
        invariant Fails !in old(faults) ==> staged == old(staged) - (set f | f in paths[..i])
        invariant forall f :: f in faults ==> f in old(faults)
        invariant old(faults) == [] ==> faults == []
      {
        var f := Meet();
        if f == Dies {
          return Died;
        }
        if f == Fine {
          staged := staged - {paths[i]};
        }
        assert paths[..i + 1] == paths[..i] + [paths[i]];
      }
      assert paths[..|paths|] == paths;
      return Done;
    }

    /** Renames one staged copy onto its file; a missing copy of an existing file is a rename
        already done. */
    method SwapOne(path: string) returns (r: Outcome)
      modifies this`files, this`staged, this`faults
      ensures State() == if r == Done then SwappedOne(old(State()), path) else old(State())
      ensures r == if FaultAt(old(faults), 0) != Fine then Met(FaultAt(old(faults), 0))
                   else if path in old(staged) then Met(FaultAt(old(faults), 1))
                   else if path in files then Done else Corrupt
      ensures path in files ==> r != Corrupt
      ensures forall f :: f in faults ==> f in old(faults)
      ensures old(faults) == [] && path in files ==> r == Done && faults == []
    {
      var probe := Meet();
      if probe == Dies {
        return Died;
      }
      if probe == Fails {
        return IoError;
      }
      if path !in staged {
        if path in files {
          return Done;
        }
        return Corrupt;
      }
      var rename := Meet();
      if rename == Dies {
        return Died;
      }
      if rename == Fails {
        return IoError;
      }
      files, staged := files[path := staged[path]], staged - {path};
      return Done;
    }

    /** Renames every listed staged copy onto its file. */
    method SwapStaged(list: seq<string>, ghost original: map<string, Blob>, ghost was: string, ghost next: string) returns (r: Outcome)
      requires Recoverable(State(), original, was, next) && marker == Some(list)
      modifies this`files, this`staged, this`faults
      ensures Recoverable(State(), original, was, next)
      ensures r == Done ==> State() == Swapped(old(State()), list)
      ensures r == Done ==> Uniform(files, original, next) && staged == map[]
      ensures old(Uniform(files, original, next)) ==> Uniform(files, original, next)
      ensures r != Corrupt && (old(faults) == [] ==> r == Done && faults == [])
      ensures forall f :: f in faults ==> f in old(faults)
    {
      ghost var start := State();
      for i := 0 to |list|
        invariant State() == Swapped(start, list[..i])
        invariant (old(faults) == [] ==> faults == []) && forall f :: f in faults ==> f in old(faults)
      {
        SwapPrefix(start, list, i, original, was, next);
        r := SwapOne(list[i]);
        if r != Done {
          return;
        }
        SwappedNext(start, list, i);
      }
      assert list[..|list|] == list;
      SwapPrefix(start, list, |list|, original, was, next);
      SwapAll(start, list, original, was, next);
      return Done;
    }

    /** With a marker, finishes the renames and removes it; without one, removes what is staged. */
    method RecoverRotation(ghost original: map<string, Blob>, ghost was: string, ghost next: string) returns (r: Outcome)
      requires Recoverable(State(), original, was, next)
      modifies this`files, this`staged, this`marker, this`faults
      ensures Recoverable(State(), original, was, next)
      ensures r == Done ==> marker == None
      ensures FaultAt(old(faults), 0) != Fine ==> r == Met(FaultAt(old(faults), 0)) && State() == old(State())
      ensures r == Done ==> if old(marker).Some? then Uniform(files, original, next) else files == old(files)
      ensures r == Done && (old(marker).Some? || Fails !in old(faults)) ==> staged == map[]
      ensures old(Uniform(files, original, next)) ==> Uniform(files, original, next)
      ensures marker == None || marker == old(marker)
      ensures r != Corrupt && (old(faults) == [] ==> r == Done && faults == [])
    {
      var read := Meet();
      if read == Dies {
        return Died;
      }
      if read == Fails {
        return IoError;
      }
      if marker.Some? {
        r := SwapStaged(marker.value, original, was, next);
        if r != Done {
          return;
        }
        var f := Meet();
        match f
        case Dies => return Died;
        case Fails => return IoError;
        case Fine => marker := None; return Done;
      }
      ghost var had := staged;
      var names := Listing(staged.Keys);
      r := RemoveStaged(names);
      assert (set f | f in names) == had.Keys;
      assert had - had.Keys == map[];
    }

    /** Stages the re-encryption of every secret file; `done` is what was staged before a failure. */
    method StageAll(oldPass: string, newPass: string, verifier: string, secretFiles: seq<string>, ghost original: map<string, Blob>)
      returns (r: Outcome, done: seq<string>)
      requires Uniform(files, original, oldPass) && staged.Keys <= files.Keys && MANIFEST in files
      modifies this`staged, this`faults
      ensures staged.Keys <= files.Keys
      ensures forall f :: f in done ==> f in staged && Opens(f, staged[f], original[f], newPass)
      ensures MANIFEST in done ==> staged[MANIFEST].plain == verifier
      ensures r == Done ==> forall f :: f in done <==> f == MANIFEST || f in secretFiles
      ensures old(faults) == [] && (forall f :: f in secretFiles ==> f in files) ==> r == Done && faults == []
    {
      done := [];
      r := StageFile(MANIFEST, Sealed(newPass, verifier, files[MANIFEST].header));
      if r != Done {
        return;
      }
      done := [MANIFEST];
      for i := 0 to |secretFiles|
        invariant staged.Keys <= files.Keys && r == Done && (old(faults) == [] ==> faults == [])
        invariant forall f :: f in done ==> f in staged && Opens(f, staged[f], original[f], newPass)
        invariant forall f :: f in done <==> f == MANIFEST || f in secretFiles[..i]
        invariant staged[MANIFEST].plain == verifier
      {
        var path := secretFiles[i];
        assert secretFiles[..i + 1] == secretFiles[..i] + [path];
        if path == MANIFEST {
          continue;
        }
        if path !in files || files[path].pass != oldPass {
          return Corrupt, done;
        }
        assert Opens(path, files[path], original[path], oldPass);
        r := StageFile(path, Sealed(newPass, files[path].plain, files[path].header));
        if r != Done {
          return;
        }
        done := done + [path];
      }
      assert secretFiles[..|secretFiles|] == secretFiles;
    }

    /** Writes the commit marker, the point of no return, then swaps and removes the marker. */
    method CommitAndSwap(list: seq<string>, oldPass: string, newPass: string, ghost original: map<string, Blob>) returns (committed: bool, r: Outcome)
      requires Uniform(files, original, oldPass) && marker == None && staged.Keys <= files.Keys
      requires forall f :: f in list <==> f in files
      requires forall f :: f in list ==> f in staged && Opens(f, staged[f], original[f], newPass)
      modifies this`files, this`staged, this`marker, this`faults
      ensures Recoverable(State(), original, oldPass, newPass)
      ensures committed <==> FaultAt(old(faults), 0) == Fine
      ensures !committed ==> r == Met(FaultAt(old(faults), 0)) && marker == None && unchanged(this`files) && unchanged(this`staged)
      ensures r == Done ==> Uniform(files, original, newPass) && staged == map[] && files.Keys == old(files).Keys
      ensures r == Done ==> forall f :: f in files ==> files[f] == old(staged)[f]
      ensures r == Done && Fails !in old(faults) ==> marker == None
      ensures old(faults) == [] ==> committed && r == Done
    {
      var f := Meet();
      if f != Fine {
        return false, if f == Dies then Died else IoError;
      }
      marker := Some(list);
      committed := true;
      SwappedFiles(State(), list);
      r := SwapStaged(list, original, oldPass, newPass);
      if r != Done {
        return;
      }
      ghost var left := faults;
      var last := Meet();
      assert last != Fine ==> last in left;
      if last == Dies {
        r := Died;
      } else if last == Fine {
        marker := None;
      }
    }

    /** Re-encrypts every secret file under `newPass`, all or nothing. */
    method ChangePassphrase(oldPass: string, newPass: string, verifier: string,
                            ghost original: map<string, Blob>, ghost was: string, ghost next: string) returns (r: Change)
      requires Recoverable(State(), original, was, next)
      modifies this`files, this`staged, this`marker, this`faults
      ensures || (Recoverable(State(), original, was, next) && (marker == None || marker == old(marker)))
              || (Recoverable(State(), original, oldPass, newPass) && oldPass in {was, next})
      ensures r.Rotated? ==> Uniform(files, original, newPass) && staged == map[] && r.count == |wallets| + 1
      ensures r.Rotated? ==> MANIFEST in files && files[MANIFEST].plain == verifier
      ensures r.Refused? ==> marker == None && (Uniform(files, original, was) || Uniform(files, original, next))
      ensures r == Refused(BadPassphrase) ==> MANIFEST in original && !Uniform(files, original, oldPass)
      ensures old(faults) == [] && was == next && Listed(original, wallets) ==>
                if oldPass == was then r.Rotated? && marker == None else r == Refused(BadPassphrase)
    {
      var rec := RecoverRotation(original, was, next);
      if rec != Done {
        return Interrupted(rec);
      }
      if MANIFEST !in files {
        return Refused(NotInitialized);
      }
      if files[MANIFEST].pass != oldPass {
        return Refused(BadPassphrase);
      }
      var orphan := HasOrphanBlobs();
      if orphan {
        return Refused(OrphanBlob);
      }
      assert Uniform(files, original, oldPass);
      r := StageThenSwap(oldPass, newPass, verifier, original);
    }

    /** Stages every re-encryption, then commits and swaps, or gives the stage up. */
    method StageThenSwap(oldPass: string, newPass: string, verifier: string, ghost original: map<string, Blob>) returns (r: Change)
      requires Uniform(files, original, oldPass) && marker == None && staged.Keys <= files.Keys && MANIFEST in files
      requires forall f :: f in files && f != MANIFEST ==> exists id :: id in wallets && f == WalletPath(id)
      modifies this`files, this`staged, this`marker, this`faults
      ensures (marker == None && unchanged(this`files) && staged.Keys <= files.Keys) || Recoverable(State(), original, oldPass, newPass)
      ensures r.Rotated? ==> Uniform(files, original, newPass) && staged == map[] && r.count == |wallets| + 1
      ensures r.Rotated? ==> MANIFEST in files && files[MANIFEST].plain == verifier
      ensures !r.Refused?
      ensures old(faults) == [] && Listed(original, wallets) ==> r.Rotated? && marker == None
    {
      var secretFiles := RotationFileSet();
      var st, done := StageAll(oldPass, newPass, verifier, secretFiles, original);
      if st != Done {
        r := AbortStage(done, st);
        return;
      }
      var list := SortBy(done, LexLess);
      SortKeepsNames(done);
      assert forall f :: f in list <==> f in files;
      var committed, swap := CommitAndSwap(list, oldPass, newPass, original);
      if !committed {
        r := AbortStage(done, swap);
      } else if swap != Done {
        r := Interrupted(swap);
      } else {
        r := Rotated(|secretFiles|);
      }
    }

    /** Gives up a stage: removes what it had staged, unless the process is already dead. */
    method AbortStage(done: seq<string>, cause: Outcome) returns (r: Change)
      modifies this`staged, this`faults
      ensures r == Interrupted(cause) || r == Interrupted(Died)
      ensures cause == Died ==> staged == old(staged)
      ensures staged.Keys <= old(staged).Keys
      ensures r != Interrupted(Died) && Fails !in old(faults) ==> staged == old(staged) - (set f | f in done)
      ensures cause != Died && Dies !in old(faults) ==> r == Interrupted(cause)
    {
      if cause == Died {
        return Interrupted(Died);
      }
      var rm := RemoveStaged(done);
      return Interrupted(if rm == Died then Died else cause);
    }

    /** Whether some wallet blob on disk is missing from meta.json. */
    method HasOrphanBlobs() returns (found: bool)
      ensures found <==> exists f :: f in files && f != MANIFEST && forall id :: id in wallets ==> f != WalletPath(id)
    {
      var rest := files.Keys - {MANIFEST};
      while rest != {}
        invariant rest <= files.Keys - {MANIFEST}
        invariant forall f :: f in files && f != MANIFEST && f !in rest ==> exists id :: id in wallets && f == WalletPath(id)
      {
        var f :| f in rest;
        if forall id :: id in wallets ==> f != WalletPath(id) {
          return true;
        }
        rest := rest - {f};
      }
      return false;
    }

    /** The manifest and every listed wallet, sorted. */
    method RotationFileSet() returns (out: seq<string>)
      ensures forall f :: f in out <==> f == MANIFEST || exists id :: id in wallets && f == WalletPath(id)
      ensures |out| == |wallets| + 1 && forall i, j :: 0 <= i < j < |out| ==> !LexLess(out[j], out[i])
    {
      out := [MANIFEST];
      var rest := wallets;
      while rest != {}
        invariant rest <= wallets && |out| + |rest| == |wallets| + 1
        invariant forall f :: f in out <==> f == MANIFEST || exists id :: id in wallets - rest && f == WalletPath(id)
      {
        var id :| id in rest;
        out := out + [WalletPath(id)];
        rest := rest - {id};
      }
      SortKeepsNames(out);
      out := SortBy(out, LexLess);
    }
  }

  lemma SortKeepsNames(s: seq<string>)
    ensures |SortBy(s, LexLess)| == |s| && forall f :: f in SortBy(s, LexLess) <==> f in s
    ensures forall i, j :: 0 <= i < j < |s| ==> !LexLess(SortBy(s, LexLess)[j], SortBy(s, LexLess)[i])
  {
    LexIsWeakOrder();
    SortBySorts(s, LexLess);
    assert forall f :: f in s <==> f in multiset(s);
    assert forall f :: f in SortBy(s, LexLess) <==> f in multiset(SortBy(s, LexLess));
  }

  /** The names in a directory, in some order. */
  method Listing(names: set<string>) returns (out: seq<string>)
    ensures forall f :: f in out <==> f in names
  {
    out := [];
    var rest := names;
    while rest != {}
      invariant rest <= names && forall f :: f in out <==> f in names - rest
    {
      var f :| f in rest;
      out := out + [f];
      rest := rest - {f};
    }
  }

  // ── whole runs ───────────────────────────────────────────────────────────────

  /** A rotation that may be cut short anywhere, then any number of reopenings, each of whose
      recoveries may fail or be cut short as well. Once a recovery has finished, every secret file
      opens under one and the same passphrase, the old or the new, to its original content, and
      no marker is left; nor is a staged file, unless a removal failed silently. */
  method RotateThenReopen(d: KeyDir, oldPass: string, newPass: string, verifier: string,
                          faults: seq<Fault>, reopenings: seq<seq<Fault>>, ghost original: map<string, Blob>)
    returns (r: Change, recovered: bool)
    requires d.State() == Disk(original, map[], None) && Uniform(original, original, oldPass)
    modifies d
    ensures Recoverable(d.State(), original, oldPass, newPass)
    ensures r.Rotated? ==> Uniform(d.files, original, newPass)
    ensures faults == [] && Listed(original, d.wallets) ==> r.Rotated?
    ensures recovered ==>
              && d.marker == None
              && (Uniform(d.files, original, oldPass) || Uniform(d.files, original, newPass))
              && ((forall s :: s in reopenings ==> Fails !in s) ==> d.staged == map[])
    ensures recovered <== reopenings != [] && reopenings[|reopenings| - 1] == []
  {
    d.faults := faults;
    r := d.ChangePassphrase(oldPass, newPass, verifier, original, oldPass, oldPass);
    recovered := false;
    for i := 0 to |reopenings|
      invariant Recoverable(d.State(), original, oldPass, newPass)
      invariant r.Rotated? ==> Uniform(d.files, original, newPass)
      invariant recovered ==> d.marker == None && ((forall s :: s in reopenings ==> Fails !in s) ==> d.staged == map[])
      invariant d.wallets == old(d.wallets)
      invariant i > 0 && reopenings[i - 1] == [] ==> recovered
    {
      d.faults := reopenings[i];
      var out := d.RecoverRotation(original, oldPass, newPass);
      recovered := out == Done;
    }
  }

  // ── any sequence of rotations and reopenings ─────────────────────────────────

  datatype Command = Reopen | Rotate(oldPass: string, newPass: string, verifier: string)

  /** A command, and what its operations meet; one that dies ends the command, never the run. */
  datatype Order = Order(command: Command, faults: seq<Fault>)

  /** The passphrases the files can be under, when the last of the first `since` orders is the last
      rotation acknowledged: its new one, or that of a later rotation. */
  function Candidates(start: string, orders: seq<Order>, since: nat): set<string>
    requires since <= |orders| && (since == 0 || orders[since - 1].command.Rotate?)
  {
    {if since == 0 then start else orders[since - 1].command.newPass}
    + set k | since <= k < |orders| && orders[k].command.Rotate? :: orders[k].command.newPass
  }

  lemma CandidatesGrow(start: string, orders: seq<Order>, since: nat, i: nat)
    requires since <= i < |orders| && (since == 0 || orders[since - 1].command.Rotate?)
    ensures Candidates(start, orders[..i], since) <= Candidates(start, orders[..i + 1], since)
    ensures orders[i].command.Rotate? ==>
              && orders[i].command.newPass in Candidates(start, orders[..i + 1], since)
              && orders[i].command.newPass in Candidates(start, orders[..i + 1], i + 1)
  {
    var a, b := orders[..i], orders[..i + 1];
    forall k | since <= k < |a| && a[k].command.Rotate? ensures a[k].command.newPass in Candidates(start, b, since) {
      assert b[k] == a[k];
    }
    assert b[i] == orders[i] && (since > 0 ==> a[since - 1] == b[since - 1]);
  }

  /** An acknowledged rotation leaves a disk that recovers to the new passphrase only. */
  lemma RotatedIsSettled(d: Disk, original: map<string, Blob>, was: string, next: string, pass: string)
    requires Recoverable(d, original, was, next) && Uniform(d.files, original, pass) && d.staged == map[]
    ensures Recoverable(d, original, pass, pass)
  {
  }

  method ExecuteOrder(d: KeyDir, o: Order, ghost original: map<string, Blob>, ghost was: string, ghost next: string)
    returns (rotated: bool, ghost was': string, ghost next': string)
    requires Recoverable(d.State(), original, was, next)
    modifies d
    ensures Recoverable(d.State(), original, was', next')
    ensures d.wallets == old(d.wallets)
    ensures o.faults == [] && o.command.Rotate? && was == next == o.command.oldPass && Listed(original, d.wallets) ==> rotated
    ensures rotated ==> o.command.Rotate? && was' == next' == o.command.newPass && Uniform(d.files, original, o.command.newPass)
    ensures {was', next'} <= {was, next} + if o.command.Rotate? then {o.command.newPass} else {}
    ensures o == Order(Reopen, []) ==> d.marker == None && d.staged == map[]
  {
    d.faults := o.faults;
    was', next', rotated := was, next, false;
    match o.command {
      case Reopen =>
        var r := d.RecoverRotation(original, was, next);
      case Rotate(oldPass, newPass, verifier) =>
        var r := d.ChangePassphrase(oldPass, newPass, verifier, original, was, next);
        if !Recoverable(d.State(), original, was, next) {
          was', next' := oldPass, newPass;
        }
        rotated := r.Rotated?;
        if rotated {
          RotatedIsSettled(d.State(), original, was', next', newPass);
          was', next' := newPass, newPass;
        }
    }
  }

  /** Whatever sequence of rotations and reopenings is run, and wherever each is cut short: the
      directory stays recoverable, to the passphrase of the last rotation acknowledged or of one
      begun since; and an undisturbed reopening at the end leaves every file under one of these,
      its content unchanged, with no marker and nothing staged. */
  method RotateAcrossRuns(d: KeyDir, start: string, orders: seq<Order>, ghost original: map<string, Blob>)
    returns (acknowledged: seq<bool>, since: nat)
    requires d.State() == Disk(original, map[], None) && Uniform(original, original, start)
    modifies d
    ensures since <= |orders| && (since == 0 || orders[since - 1].command.Rotate?)
    ensures |acknowledged| == |orders| && (since > 0 ==> acknowledged[since - 1]) && forall k :: since <= k < |orders| ==> !acknowledged[k]
    ensures exists was, next :: {was, next} <= Candidates(start, orders, since) && Recoverable(d.State(), original, was, next)
    ensures orders != [] && orders[|orders| - 1] == Order(Reopen, []) ==>
              && d.marker == None && d.staged == map[]
              && exists pass :: pass in Candidates(start, orders, since) && Uniform(d.files, original, pass)
  {
    acknowledged, since := [], 0;
    ghost var was, next := start, start;
    for i := 0 to |orders|
      invariant since <= i && (since == 0 || orders[since - 1].command.Rotate?)
      invariant |acknowledged| == i && (since > 0 ==> acknowledged[since - 1]) && forall k :: since <= k < i ==> !acknowledged[k]
      invariant {was, next} <= Candidates(start, orders[..i], since)
      invariant Recoverable(d.State(), original, was, next)
      invariant i > 0 && orders[i - 1] == Order(Reopen, []) ==> d.marker == None && d.staged == map[]
    {
      var rotated;
      CandidatesGrow(start, orders, since, i);
      rotated, was, next := ExecuteOrder(d, orders[i], original, was, next);
      acknowledged := acknowledged + [rotated];
      if rotated {
        since := i + 1;
      }
    }
    assert orders[..|orders|] == orders;
    assert was in Candidates(start, orders, since) && next in Candidates(start, orders, since);
  }

  // ── why a failed marker write must not have landed ───────────────────────────

  lemma {:induction false} SwappedFiles(d: Disk, list: seq<string>)
    requires forall f :: f in d.staged ==> f in d.files
    ensures Swapped(d, list).files.Keys == d.files.Keys
    ensures forall f :: f in d.files ==>
              Swapped(d, list).files[f] == if f in d.staged && f in list then d.staged[f] else d.files[f]
    decreases |list|
  {
    if list != [] {
      assert list == [list[0]] + list[1..];
      SwappedFiles(SwappedOne(d, list[0]), list[1..]);
    }
  }

  /** Rolling forward from all-old files is safe exactly when all staged copies are there, or none:
      so a marker write that reports an error must not have put the marker there, because the
      clean-up that follows it may be cut short between two removals. */
  lemma ForwardNeedsAllOrNothing(d: Disk, list: seq<string>, original: map<string, Blob>, was: string, next: string)
    requires Uniform(d.files, original, was) && was != next && d.files.Keys != {}
    requires forall f :: f in list <==> f in d.files
    requires d.staged.Keys <= d.files.Keys && forall f :: f in d.staged ==> Opens(f, d.staged[f], original[f], next)
    ensures (exists p :: Uniform(Swapped(d, list).files, original, p))
       <==> d.staged.Keys == {} || d.staged.Keys == d.files.Keys
  {
    SwappedFiles(d, list);
    var after := Swapped(d, list).files;
    if d.staged.Keys == {} {
      assert Uniform(after, original, was);
    } else if d.staged.Keys == d.files.Keys {
      assert Uniform(after, original, next);
    } else {
      var f :| f in d.staged;
      var g :| g in d.files && g !in d.staged;
      assert after[f].pass == next && after[g].pass == was;
    }
  }
}
