/**
 The exact theorems about the workers.  For any slots, workers, keys and failures:
 every run serializes, failed uploads do no harm, or disk and metadata agree, if and only if
 the stated condition holds.  Keys may take detours, so several may reach one file.
 */
module FileServiceExact {
  import opened Prelude
  import opened DiskPaths
  import opened FileLocks
  import opened FileService
  import opened FileServiceResults
  import opened FileServiceLimits
  import opened FailingRuns
  import L = LockProtocol

  // ---------------------------------------------------------------- serializability

  /** Every run over `paths` is a serial run in lock order. */
  ghost predicate AlwaysSerial(slots: nat, workers: nat, paths: set<Path>, fl: Failures)
    requires slots > 0
  {
    forall disk, rows, acts :: RunOver(slots, workers, disk, rows, acts, paths, fl) ==>
      Serial(disk, Final(Init(slots, workers, disk, rows), acts).log)
  }

  lemma FetchOfNothing(f: Files, e: Event, p: Path)
    requires FileOf(p) !in Effect(f, e) || Effect(f, e)[FileOf(p)] != []
    ensures !Serial(f, [e, Event(Download(p), Fetched([]))])
  {
    var log := [e, Event(Download(p), Fetched([]))];
    assert log[..1] == [e] && [e][..0] == [];
    assert Replay(f, [e]) == Effect(f, e);
  }

  /** A single run that is not serial refutes the property. */
  lemma NotAlwaysSerial(slots: nat, workers: nat, paths: set<Path>, fl: Failures, acts: seq<Action>, s': Service)
    requires slots > 0 && Leads(Init(slots, workers, map[], map[]), acts, s', paths, fl) && !Serial(map[], s'.log)
    ensures !AlwaysSerial(slots, workers, paths, fl)
  {
    assert RunOver(slots, workers, map[], map[], acts, paths, fl);
  }

  lemma LossBreaksSerial(slots: nat, workers: nat, paths: set<Path>, fl: Failures, p: Path)
    requires slots > 0 && workers > 0 && p in paths && fl.close
    ensures !AlwaysSerial(slots, workers, paths, fl)
  {
    var acts, s' := LossIsNotSerial(Init(slots, workers, map[], map[]), p, paths, fl);
    FetchOfNothing(map[], Event(Upload(p, [7]), Stored), p);
    NotAlwaysSerial(slots, workers, paths, fl, acts, s');
  }

  lemma SpoilingBreaksSerial(slots: nat, workers: nat, paths: set<Path>, fl: Failures, p: Path)
    requires slots > 0 && workers > 0 && p in paths && fl.write && (workers > 1 || fl.sweep)
    ensures !AlwaysSerial(slots, workers, paths, fl)
  {
    var s := Init(slots, workers, map[], map[]);
    var acts: seq<Action>, s': Service;
    if workers > 1 {
      acts, s' := PartialFileIsServed(s, p, paths, fl);
    } else {
      acts, s' := UnsweptFileIsServed(s, p, paths, fl);
    }
    FetchOfNothing(map[], Event(Upload(p, [7]), Spoiled), p);
    NotAlwaysSerial(slots, workers, paths, fl, acts, s');
  }

  /** Two keys that share a home slot or a file. */
  predicate Mixed(slots: nat, paths: set<Path>, p: Path, q: Path)
    requires slots > 0
  {
    p in paths && q in paths && p != q && (Home(p, slots) == Home(q, slots) || FileOf(p) == FileOf(q))
  }

  lemma NotApartIsMixed(slots: nat, workers: nat, paths: set<Path>) returns (p: Path, q: Path)
    requires slots > 0 && workers > 0 && !Apart(slots, workers, paths)
    ensures slots > 1 && workers > 1 && Mixed(slots, paths, p, q)
  {
    if !L.DistinctHomes(paths, slots) {
      p, q :| p in paths && q in paths && p != q && Home(p, slots) == Home(q, slots);
    } else {
      p, q :| p in paths && q in paths && !NoAlias(p, q);
    }
  }

  /** A run on two such keys that is not serial, and in which no call fails. */
  lemma MixedRun(slots: nat, workers: nat, paths: set<Path>, fl: Failures, p: Path, q: Path)
    returns (acts: seq<Action>, s': Service)
    requires slots > 1 && workers > 1 && Mixed(slots, paths, p, q)
    ensures Leads(Init(slots, workers, map[], map[]), acts, s', paths, fl) && !Serial(map[], s'.log)
    ensures forall k :: 0 <= k < |s'.log| ==> !s'.log[k].res.Spoiled?
  {
    var s := Init(slots, workers, map[], map[]);
    if FileOf(p) == FileOf(q) {
      acts, s' := AliasIsNotSerial(s, p, q, paths, fl);
      assert s'.log == [Event(Download(p), Fetched([]))];
    } else {
      acts, s' := CollisionIsNotSerial(s, p, q, paths, fl);
      FetchOfNothing(map[], Event(Delete(p), NotFound), q);
    }
  }

  lemma MixingBreaksSerial(slots: nat, workers: nat, paths: set<Path>, fl: Failures, p: Path, q: Path)
    requires slots > 1 && workers > 1 && Mixed(slots, paths, p, q)
    ensures !AlwaysSerial(slots, workers, paths, fl)
  {
    var acts, s' := MixedRun(slots, workers, paths, fl, p, q);
    NotAlwaysSerial(slots, workers, paths, fl, acts, s');
  }

  /** Exactly when the workers serialize: no two keys share a home slot or a file (or there is
      only one slot or one worker), no data is lost at `fclose`, and either writes do not fail or a
      single worker always manages to remove the half-written file. */
  lemma AlwaysSerialIff(slots: nat, workers: nat, paths: set<Path>, fl: Failures)
    requires slots > 0 && workers > 0
    ensures AlwaysSerial(slots, workers, paths, fl) <==>
            Apart(slots, workers, paths) && Tame(workers, paths, fl)
  {
    if Apart(slots, workers, paths) && Tame(workers, paths, fl) {
      forall disk, rows, acts | RunOver(slots, workers, disk, rows, acts, paths, fl)
        ensures Serial(disk, Final(Init(slots, workers, disk, rows), acts).log)
      {
        InitIsSheltered(slots, workers, disk, rows, paths);
        TameRunsStaySerialized(Init(slots, workers, disk, rows), acts, paths, fl, disk);
      }
    } else if !Apart(slots, workers, paths) {
      var p, q := NotApartIsMixed(slots, workers, paths);
      MixingBreaksSerial(slots, workers, paths, fl, p, q);
    } else {
      var p :| p in paths;
      if fl.close {
        LossBreaksSerial(slots, workers, paths, fl, p);
      } else {
        SpoilingBreaksSerial(slots, workers, paths, fl, p);
      }
    }
  }

  // ---------------------------------------------------------------- failed uploads

  /** Serial histories in which a failed upload leaves the file as it was. */
  function IntactEffect(f: Files, e: Event): Files
  {
    if e.res.Spoiled? then f else Effect(f, e)
  }

  function IntactReplay(f: Files, log: seq<Event>): Files
  {
    if log == [] then f else IntactEffect(IntactReplay(f, log[..|log| - 1]), log[|log| - 1])
  }

  predicate IntactSerial(f: Files, log: seq<Event>)
  {
    log == [] ||
    (IntactSerial(f, log[..|log| - 1]) && Legal(IntactReplay(f, log[..|log| - 1]), log[|log| - 1]))
  }

  lemma {:induction false} IntactIsSerial(f: Files, log: seq<Event>)
    requires forall k :: 0 <= k < |log| ==> !log[k].res.Spoiled?
    ensures IntactReplay(f, log) == Replay(f, log)
    ensures IntactSerial(f, log) <==> Serial(f, log)
  {
    if log != [] {
      IntactIsSerial(f, log[..|log| - 1]);
    }
  }

  ghost predicate AlwaysIntact(slots: nat, workers: nat, paths: set<Path>, fl: Failures)
    requires slots > 0
  {
    forall disk, rows, acts :: RunOver(slots, workers, disk, rows, acts, paths, fl) ==>
      IntactSerial(disk, Final(Init(slots, workers, disk, rows), acts).log)
  }

  /** With one worker and nobody else around, a failed upload over an existing file destroys it. */
  lemma SpoilingDestroysFile(slots: nat, workers: nat, paths: set<Path>, fl: Failures, p: Path)
    requires slots > 0 && workers > 0 && p in paths && fl.write
    ensures !AlwaysIntact(slots, workers, paths, fl)
  {
    var disk, rows: map<Path, nat> := map[FileOf(p) := [1]], map[p := 1];
    var s := Init(slots, workers, disk, rows);
    var acts, s' := OldFileIsLost(s, p, paths, fl);
    assert RunOver(slots, workers, disk, rows, acts, paths, fl);
    assert s'.log == [Event(Upload(p, [7]), Spoiled), Event(Download(p), NotFound)];
    MissAfterSpoil(disk, p);
  }

  lemma MissAfterSpoil(disk: Files, p: Path)
    requires FileOf(p) in disk
    ensures !IntactSerial(disk, [Event(Upload(p, [7]), Spoiled), Event(Download(p), NotFound)])
  {
    var e := Event(Upload(p, [7]), Spoiled);
    var log := [e, Event(Download(p), NotFound)];
    assert log[..1] == [e] && [e][..0] == [];
    assert IntactReplay(disk, [e]) == disk;
  }

  lemma NotAlwaysIntact(slots: nat, workers: nat, paths: set<Path>, fl: Failures, acts: seq<Action>, s': Service)
    requires slots > 0 && Leads(Init(slots, workers, map[], map[]), acts, s', paths, fl) && !Serial(map[], s'.log)
    requires forall k :: 0 <= k < |s'.log| ==> !s'.log[k].res.Spoiled?
    ensures !AlwaysIntact(slots, workers, paths, fl)
  {
    IntactIsSerial(map[], s'.log);
    assert RunOver(slots, workers, map[], map[], acts, paths, fl);
  }

  /** Exactly when the workers serialize and failed uploads change nothing: homes apart, and no
      write and no `fclose` fails on any file. */
  lemma AlwaysIntactIff(slots: nat, workers: nat, paths: set<Path>, fl: Failures)
    requires slots > 0 && workers > 0
    ensures AlwaysIntact(slots, workers, paths, fl) <==>
            Apart(slots, workers, paths) && (paths == {} || (!fl.write && !fl.close))
  {
    var s := Init(slots, workers, map[], map[]);
    if !Apart(slots, workers, paths) {
      var p, q := NotApartIsMixed(slots, workers, paths);
      var acts, s' := MixedRun(slots, workers, paths, fl, p, q);
      NotAlwaysIntact(slots, workers, paths, fl, acts, s');
    } else if paths != {} && fl.write {
      var p :| p in paths;
      SpoilingDestroysFile(slots, workers, paths, fl, p);
    } else if paths != {} && fl.close {
      var p :| p in paths;
      var acts, s' := LossIsNotSerial(s, p, paths, fl);
      FetchOfNothing(map[], Event(Upload(p, [7]), Stored), p);
      NotAlwaysIntact(slots, workers, paths, fl, acts, s');
    } else {
      forall disk, rows, acts | RunOver(slots, workers, disk, rows, acts, paths, fl)
        ensures IntactSerial(disk, Final(Init(slots, workers, disk, rows), acts).log)
      {
        InitIsSheltered(slots, workers, disk, rows, paths);
        TameRunsStaySerialized(Init(slots, workers, disk, rows), acts, paths, fl, disk);
        IntactIsSerial(disk, Final(Init(slots, workers, disk, rows), acts).log);
      }
    }
  }

  // ---------------------------------------------------------------- disk and metadata

  /** Whenever nobody works on the file of a key, it exists iff the key has a row, with equal
      sizes. */
  ghost predicate AlwaysAgreed(slots: nat, workers: nat, paths: set<Path>, fl: Failures)
    requires slots > 0
  {
    forall disk, rows, acts ::
      RunOver(slots, workers, disk, rows, acts, paths, fl) && (forall p :: p in paths ==> AgreeAt(disk, rows, p)) ==>
        AgreeWhereFree(Final(Init(slots, workers, disk, rows), acts), paths)
  }

  lemma NotAlwaysAgreed(slots: nat, workers: nat, paths: set<Path>, fl: Failures, acts: seq<Action>, s': Service,
                        p: Path)
    requires slots > 0 && Leads(Init(slots, workers, map[], map[]), acts, s', paths, fl) && p in paths
    requires NobodyInside(s'.jobs, FileOf(p)) && !AgreeAt(s'.disk, s'.rows, p)
    ensures !AlwaysAgreed(slots, workers, paths, fl)
  {
    assert RunOver(slots, workers, map[], map[], acts, paths, fl);
    assert !AgreeWhereFree(s', paths);
  }

  /** One failing call on one file is enough. */
  lemma FailureBreaksAgreement(slots: nat, workers: nat, paths: set<Path>, fl: Failures, p: Path)
    requires slots > 0 && workers > 0 && p in paths && (fl.write || fl.close || fl.db)
    ensures !AlwaysAgreed(slots, workers, paths, fl)
  {
    var s := Init(slots, workers, map[], map[]);
    var acts: seq<Action>, s': Service;
    if fl.write {
      acts, s' := SpoiledUpload(s, 0, p, paths, fl);
    } else if fl.close {
      acts, s' := LossyUpload(s, 0, p, paths, fl);
    } else {
      acts, s' := EmptyUpload(s, 0, p, false, paths, fl);
    }
    NotAlwaysAgreed(slots, workers, paths, fl, acts, s', p);
  }

  /** One upload under one of two names is enough: the other name has a file and no row. */
  lemma AliasBreaksAgreement(slots: nat, workers: nat, paths: set<Path>, fl: Failures, p: Path, q: Path)
    requires slots > 0 && workers > 0 && p in paths && q in paths && p != q && FileOf(p) == FileOf(q)
    ensures !AlwaysAgreed(slots, workers, paths, fl)
  {
    var acts, s' := EmptyUpload(Init(slots, workers, map[], map[]), 0, p, true, paths, fl);
    assert FileOf(q) in s'.disk && q !in s'.rows;
    NotAlwaysAgreed(slots, workers, paths, fl, acts, s', q);
  }

  /** Exactly when disk and metadata agree: no two keys reach one file, homes are distinct (or
      there is only one slot or one worker), and neither writes nor metadata transactions fail on
      any file. */
  lemma AlwaysAgreedIff(slots: nat, workers: nat, paths: set<Path>, fl: Failures)
    requires slots > 0 && workers > 0
    ensures AlwaysAgreed(slots, workers, paths, fl) <==>
            OneNameEach(paths) && Apart(slots, workers, paths) && Harmless(paths, fl)
  {
    if !OneNameEach(paths) {
      var p, q :| p in paths && q in paths && !NoAlias(p, q);
      AliasBreaksAgreement(slots, workers, paths, fl, p, q);
    } else if !Apart(slots, workers, paths) {
      var p, q := NotApartIsMixed(slots, workers, paths);
      assert NoAlias(p, q);
      var acts, s' := CollisionLeavesRow(Init(slots, workers, map[], map[]), p, q, paths, fl);
      NotAlwaysAgreed(slots, workers, paths, fl, acts, s', q);
    } else if !Harmless(paths, fl) {
      var p :| p in paths;
      FailureBreaksAgreement(slots, workers, paths, fl, p);
    } else {
      forall disk, rows, acts |
        RunOver(slots, workers, disk, rows, acts, paths, fl) && (forall p :: p in paths ==> AgreeAt(disk, rows, p))
        ensures AgreeWhereFree(Final(Init(slots, workers, disk, rows), acts), paths)
      {
        InitIsSheltered(slots, workers, disk, rows, paths);
        HarmlessRunsStayAgreed(Init(slots, workers, disk, rows), acts, paths, fl, disk);
      }
    }
  }
}
