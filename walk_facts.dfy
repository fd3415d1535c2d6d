/**
  What parse_result_files yields, stated independently of its loops: the list
  of metadata files it visits, each paired with the listing its image is looked
  up in, and the fact that nothing below the second level is ever read.
*/
module WalkFacts {
  import opened Wrappers
  import opened ResultFiles

  /** One metadata file the walk visits, with the listing of the directory it sits in. */
  datatype Source = Source(siblings: seq<Entry>, file: Entry)

  /** The metadata files among the first `n` entries of a subdirectory listing. */
  function SubSources(dir: seq<Entry>, n: nat): seq<Source>
    requires n <= |dir|
  {
    if n == 0 then []
    else SubSources(dir, n - 1) + (if IsMetadata(dir[n - 1]) then [Source(dir, dir[n - 1])] else [])
  }

  /** The sources contributed by one top-level entry. */
  function EntrySources(root: seq<Entry>, e: Entry): seq<Source> {
    if IsMetadata(e) then [Source(root, e)]
    else if e.Dir? then SubSources(e.children, |e.children|)
    else []
  }

  /** The sources among the first `n` entries of the root listing, in enumeration order. */
  function TopSources(root: seq<Entry>, n: nat): seq<Source>
    requires n <= |root|
  {
    if n == 0 then [] else TopSources(root, n - 1) + EntrySources(root, root[n - 1])
  }

  function Sources(root: seq<Entry>): seq<Source> {
    TopSources(root, |root|)
  }

  /** Processing one source: its file against its own listing. */
  function Run1(s: Source, proc: Processor): Result<seq<Record>, WalkError> {
    proc(s.siblings, s.file)
  }

  /** Process the sources in order, concatenating their records; the first failure wins. */
  function RunAll(srcs: seq<Source>, proc: Processor): Result<seq<Record>, WalkError>
    decreases |srcs|
  {
    if srcs == [] then Ok([])
    else
      var prev := RunAll(srcs[..|srcs| - 1], proc);
      if prev.Err? then prev
      else match Run1(srcs[|srcs| - 1], proc)
        case Err(e) => Err(e)
        case Ok(rs) => Ok(prev.value + rs)
  }

  // ---------------------------------------------------------------------------
  // The walk processes exactly its sources
  // ---------------------------------------------------------------------------

  /** Running two lists of sources one after the other. */
  lemma {:induction false} RunAllAppend(a: seq<Source>, b: seq<Source>, proc: Processor)
    ensures RunAll(a + b, proc) ==
              if RunAll(a, proc).Err? then RunAll(a, proc)
              else if RunAll(b, proc).Err? then RunAll(b, proc)
              else Ok(RunAll(a, proc).value + RunAll(b, proc).value)
    decreases |b|
  {
    if b == [] {
      assert a + b == a;
      if RunAll(a, proc).Ok? {
        assert RunAll(a, proc).value + [] == RunAll(a, proc).value;
      }
    } else {
      var b' := b[..|b| - 1];
      assert (a + b)[..|a + b| - 1] == a + b';
      assert (a + b)[|a + b| - 1] == b[|b| - 1];
      RunAllAppend(a, b', proc);
      if RunAll(a, proc).Ok? && RunAll(b', proc).Ok? {
        var last := Run1(b[|b| - 1], proc);
        if last.Ok? {
          assert RunAll(a, proc).value + RunAll(b', proc).value + last.value
              == RunAll(a, proc).value + (RunAll(b', proc).value + last.value);
        }
      }
    }
  }

  /** Running a single source is processing it. */
  lemma RunAllSingle(s: Source, proc: Processor)
    ensures RunAll([s], proc) == Run1(s, proc)
  {
    assert [s][..0] == [];
    if Run1(s, proc).Ok? {
      assert [] + Run1(s, proc).value == Run1(s, proc).value;
    }
  }

  /** Running one more source after a list of them. */
  lemma RunAllSnoc(a: seq<Source>, s: Source, proc: Processor)
    ensures RunAll(a + [s], proc) ==
              if RunAll(a, proc).Err? then RunAll(a, proc)
              else if Run1(s, proc).Err? then Run1(s, proc)
              else Ok(RunAll(a, proc).value + Run1(s, proc).value)
  {
    assert (a + [s])[..|a + [s]| - 1] == a;
  }

  /** The inner loop processes exactly the subdirectory's sources. */
  lemma {:induction false} SubWalkIsRunAll(dir: seq<Entry>, n: nat, proc: Processor)
    requires n <= |dir|
    ensures SubWalk(dir, n, proc) == RunAll(SubSources(dir, n), proc)
    decreases n
  {
    if n > 0 {
      var prev := SubSources(dir, n - 1);
      SubWalkIsRunAll(dir, n - 1, proc);
      if IsMetadata(dir[n - 1]) {
        var s := Source(dir, dir[n - 1]);
        assert SubSources(dir, n) == prev + [s];
        RunAllSnoc(prev, s, proc);
      } else {
        assert SubSources(dir, n) == prev;
      }
    }
  }

  /** What one top-level entry yields is what running its sources yields. */
  lemma EntryIsRunAll(root: seq<Entry>, e: Entry, proc: Processor)
    ensures RunAll(EntrySources(root, e), proc) == TopYield(root, e, proc)
  {
    if IsMetadata(e) {
      RunAllSingle(Source(root, e), proc);
    } else if e.Dir? {
      SubWalkIsRunAll(e.children, |e.children|, proc);
    }
  }

  /** The outer loop processes exactly the sources of the entries it has passed. */
  lemma {:induction false} TopWalkIsRunAll(root: seq<Entry>, n: nat, proc: Processor)
    requires n <= |root|
    ensures TopWalk(root, n, proc) == RunAll(TopSources(root, n), proc)
    decreases n
  {
    if n > 0 {
      var e := root[n - 1];
      var a, b := TopSources(root, n - 1), EntrySources(root, e);
      assert TopSources(root, n) == a + b;
      TopWalkIsRunAll(root, n - 1, proc);
      RunAllAppend(a, b, proc);
      EntryIsRunAll(root, e, proc);
      var prev, here := TopWalk(root, n - 1, proc), TopYield(root, e, proc);
      assert TopWalk(root, n, proc) == if prev.Err? then prev else if here.Err? then here else Ok(prev.value + here.value);
    }
  }

  /** RunAll succeeds exactly when every source can be processed. */
  lemma {:induction false} RunAllOkIff(srcs: seq<Source>, proc: Processor)
    ensures RunAll(srcs, proc).Ok? <==> forall i :: 0 <= i < |srcs| ==> Run1(srcs[i], proc).Ok?
    decreases |srcs|
  {
    if srcs != [] {
      var init := srcs[..|srcs| - 1];
      RunAllOkIff(init, proc);
      assert forall i :: 0 <= i < |init| ==> init[i] == srcs[i];
    }
  }

  /** When every source yields one record, a successful RunAll holds those records, in order. */
  lemma {:induction false} RunAllValues(srcs: seq<Source>, proc: Processor)
    requires RunAll(srcs, proc).Ok?
    requires forall i :: 0 <= i < |srcs| && Run1(srcs[i], proc).Ok? ==> |Run1(srcs[i], proc).value| == 1
    ensures |RunAll(srcs, proc).value| == |srcs|
    ensures forall i :: 0 <= i < |srcs| ==>
              Run1(srcs[i], proc).Ok? && RunAll(srcs, proc).value[i] == Run1(srcs[i], proc).value[0]
    decreases |srcs|
  {
    if srcs != [] {
      var k := |srcs| - 1;
      var init := srcs[..k];
      assert forall i :: 0 <= i < k ==> init[i] == srcs[i];
      RunAllValues(init, proc);
      var last := Run1(srcs[k], proc);
      var prev := RunAll(init, proc).value;
      assert RunAll(srcs, proc).value == prev + last.value;
      forall i | 0 <= i < |srcs|
        ensures Run1(srcs[i], proc).Ok? && (prev + last.value)[i] == Run1(srcs[i], proc).value[0]
      {
        if i < k {
          assert (prev + last.value)[i] == prev[i];
        }
      }
    }
  }

  /** A failing RunAll fails exactly as its first failing source does. */
  lemma {:induction false} RunAllFirstFailure(srcs: seq<Source>, proc: Processor)
    requires RunAll(srcs, proc).Err?
    ensures exists i :: && 0 <= i < |srcs|
                        && RunAll(srcs, proc) == Run1(srcs[i], proc)
                        && forall j :: 0 <= j < i ==> Run1(srcs[j], proc).Ok?
    decreases |srcs|
  {
    var k := |srcs| - 1;
    var init := srcs[..k];
    assert forall j :: 0 <= j < k ==> init[j] == srcs[j];
    if RunAll(init, proc).Err? {
      RunAllFirstFailure(init, proc);
      var i :| && 0 <= i < |init|
               && RunAll(init, proc) == Run1(init[i], proc)
               && forall j :: 0 <= j < i ==> Run1(init[j], proc).Ok?;
      assert RunAll(srcs, proc) == Run1(srcs[i], proc);
    } else {
      RunAllOkIff(init, proc);
      assert RunAll(srcs, proc) == Run1(srcs[k], proc);
    }
  }

  /** Every success of `proc` is a single record, as process_file's is. */
  ghost predicate OneRecordEach(proc: Processor) {
    forall dir, file :: proc(dir, file).Ok? ==> |proc(dir, file).value| == 1
  }

  /** process_file returns a one-element list whenever it succeeds. */
  lemma ProcessFileOneRecord(load: Loader)
    ensures OneRecordEach(ProcessWith(load))
  {
    forall dir, file | ProcessWith(load)(dir, file).Ok? ensures |ProcessWith(load)(dir, file).value| == 1 {
      ProcessFileCases(dir, file, load);
    }
  }

  /**
    parse_result_files, end to end: it succeeds exactly when every source can be
    processed; it then yields one record per source, in enumeration order, each
    built from the source's own directory listing; otherwise it fails with the
    failure of the first source that cannot be processed.
  */
  lemma WalkRecords(root: seq<Entry>, proc: Processor)
    requires OneRecordEach(proc)
    ensures Walk(root, proc).Ok? <==> forall i :: 0 <= i < |Sources(root)| ==> Run1(Sources(root)[i], proc).Ok?
    ensures Walk(root, proc).Ok? ==>
              && |Walk(root, proc).value| == |Sources(root)|
              && forall i :: 0 <= i < |Sources(root)| ==>
                   Run1(Sources(root)[i], proc).Ok? && Walk(root, proc).value[i] == Run1(Sources(root)[i], proc).value[0]
    ensures Walk(root, proc).Err? ==>
              exists i :: && 0 <= i < |Sources(root)|
                          && Walk(root, proc) == Run1(Sources(root)[i], proc)
                          && forall j :: 0 <= j < i ==> Run1(Sources(root)[j], proc).Ok?
  {
    var srcs := Sources(root);
    TopWalkIsRunAll(root, |root|, proc);
    RunAllOkIff(srcs, proc);
    if Walk(root, proc).Ok? {
      RunAllValues(srcs, proc);
    } else {
      RunAllFirstFailure(srcs, proc);
    }
  }

  // ---------------------------------------------------------------------------
  // Which files are sources
  // ---------------------------------------------------------------------------

  /** A subdirectory's sources are its metadata files, each paired with that subdirectory's listing. */
  lemma {:induction false} SubSourcesShape(dir: seq<Entry>, n: nat)
    requires n <= |dir|
    ensures forall s :: s in SubSources(dir, n) ==> s.siblings == dir && s.file in dir[..n] && IsMetadata(s.file)
    ensures forall k :: 0 <= k < n && IsMetadata(dir[k]) ==> Source(dir, dir[k]) in SubSources(dir, n)
    decreases n
  {
    if n > 0 {
      SubSourcesShape(dir, n - 1);
      assert dir[..n] == dir[..n - 1] + [dir[n - 1]];
    }
  }

  /** A top-level directory whose children the walk enumerates. */
  ghost predicate WalkedSubdirectory(root: seq<Entry>, d: Entry) {
    d in root && d.Dir? && !IsMetadata(d)
  }

  /**
    The walk's sources are the metadata files of the root listing, paired with
    the root listing, and the metadata files of each walked subdirectory, paired
    with that subdirectory's own listing; there are no others.
  */
  lemma {:induction false} SourcesShape(root: seq<Entry>, n: nat)
    requires n <= |root|
    ensures forall s :: s in TopSources(root, n) ==>
              && IsMetadata(s.file)
              && ((s.siblings == root && s.file in root[..n])
                  || exists d :: WalkedSubdirectory(root, d) && s.siblings == d.children && s.file in d.children)
    ensures forall k :: 0 <= k < n && IsMetadata(root[k]) ==> Source(root, root[k]) in TopSources(root, n)
    ensures forall k, c :: 0 <= k < n && root[k].Dir? && !IsMetadata(root[k]) && c in root[k].children && IsMetadata(c)
              ==> Source(root[k].children, c) in TopSources(root, n)
    decreases n
  {
    if n > 0 {
      SourcesShape(root, n - 1);
      var e := root[n - 1];
      assert root[..n] == root[..n - 1] + [e];
      if !IsMetadata(e) && e.Dir? {
        SubSourcesShape(e.children, |e.children|);
        assert e.children[..|e.children|] == e.children;
        forall c | c in e.children && IsMetadata(c) ensures Source(e.children, c) in TopSources(root, n) {
          var k :| 0 <= k < |e.children| && e.children[k] == c;
        }
        assert WalkedSubdirectory(root, e);
      }
    }
  }

  /** Enumeration order inside a subdirectory: the sources of an earlier part of its listing come first. */
  lemma {:induction false} SubSourcesFollowEnumeration(dir: seq<Entry>, m: nat, n: nat)
    requires m <= n <= |dir|
    ensures SubSources(dir, m) <= SubSources(dir, n)
    decreases n
  {
    if m < n {
      SubSourcesFollowEnumeration(dir, m, n - 1);
    }
  }

  /** Enumeration order: the sources of an earlier part of the root listing come first. */
  lemma {:induction false} SourcesFollowEnumeration(root: seq<Entry>, m: nat, n: nat)
    requires m <= n <= |root|
    ensures TopSources(root, m) <= TopSources(root, n)
    decreases n
  {
    if m < n {
      SourcesFollowEnumeration(root, m, n - 1);
    }
  }

  // ---------------------------------------------------------------------------
  // Nothing below the second level is read
  // ---------------------------------------------------------------------------

  /** Two entries look alike from their directory: same name, same kind, same bytes if a file. */
  predicate SameSurface(e: Entry, e': Entry) {
    && e.name == e'.name
    && e.File? == e'.File?
    && (e.File? ==> e.contents == e'.contents)
  }

  /** Two listings look alike entry by entry; what is inside their subdirectories may differ. */
  ghost predicate SameListing(es: seq<Entry>, es': seq<Entry>) {
    |es| == |es'| && forall i :: 0 <= i < |es| ==> SameSurface(es[i], es'[i])
  }

  /** Two root listings agree on the first two levels. */
  ghost predicate SameTwoLevels(root: seq<Entry>, root': seq<Entry>) {
    && SameListing(root, root')
    && forall i :: 0 <= i < |root| && root[i].Dir? ==> SameListing(root[i].children, root'[i].children)
  }

  lemma {:induction false} CandidatesSameListing(batchId: string, es: seq<Entry>, es': seq<Entry>)
    requires SameListing(es, es')
    ensures SameListing(Candidates(batchId, es), Candidates(batchId, es'))
    decreases |es|
  {
    if es != [] {
      var rest, rest' := es[1..], es'[1..];
      assert SameListing(rest, rest') by {
        forall i | 0 <= i < |rest| ensures SameSurface(rest[i], rest'[i]) {
          assert rest[i] == es[i + 1] && rest'[i] == es'[i + 1];
        }
      }
      CandidatesSameListing(batchId, rest, rest');
      var tail, tail' := Candidates(batchId, rest), Candidates(batchId, rest');
      var e, e' := es[0], es'[0];
      assert SameSurface(e, e');
      assert IsImageFor(batchId, e) == IsImageFor(batchId, e');
      if IsImageFor(batchId, e) {
        assert Candidates(batchId, es) == [e] + tail;
        assert Candidates(batchId, es') == [e'] + tail';
        forall i | 0 <= i < |tail| + 1 ensures SameSurface(([e] + tail)[i], ([e'] + tail')[i]) {
          if i > 0 {
            assert ([e] + tail)[i] == tail[i - 1] && ([e'] + tail')[i] == tail'[i - 1];
          }
        }
      } else {
        assert Candidates(batchId, es) == tail;
        assert Candidates(batchId, es') == tail';
      }
    }
  }

  /** get_image never reads a subdirectory's contents: listings equal in names, kinds and file bytes give the same result. */
  lemma GetImageSameListing(batchId: string, es: seq<Entry>, es': seq<Entry>)
    requires SameListing(es, es')
    ensures GetImage(batchId, es) == GetImage(batchId, es')
  {
    CandidatesSameListing(batchId, es, es');
    var c, c' := Candidates(batchId, es), Candidates(batchId, es');
    if |c| == 1 {
      assert SameSurface(c[0], c'[0]);
    }
  }

  lemma ProcessFileSameListing(es: seq<Entry>, es': seq<Entry>, f: Entry, f': Entry, load: Loader)
    requires SameListing(es, es') && SameSurface(f, f')
    ensures ProcessFile(es, f, load) == ProcessFile(es', f', load)
  {
    GetImageSameListing(BatchId(f.name), es, es');
  }

  /** `proc` only looks at the surface of the file and of its listing, as process_file does. */
  ghost predicate SurfaceOnly(proc: Processor) {
    forall es, es', f, f' :: SameListing(es, es') && SameSurface(f, f') ==> proc(es, f) == proc(es', f')
  }

  lemma ProcessFileSurfaceOnly(load: Loader)
    ensures SurfaceOnly(ProcessWith(load))
  {
    forall es, es', f, f' | SameListing(es, es') && SameSurface(f, f')
      ensures ProcessWith(load)(es, f) == ProcessWith(load)(es', f')
    {
      ProcessFileSameListing(es, es', f, f', load);
    }
  }

  lemma {:induction false} SubWalkSameListing(dir: seq<Entry>, dir': seq<Entry>, n: nat, proc: Processor)
    requires SurfaceOnly(proc)
    requires SameListing(dir, dir') && n <= |dir|
    ensures SubWalk(dir, n, proc) == SubWalk(dir', n, proc)
    decreases n
  {
    if n > 0 {
      SubWalkSameListing(dir, dir', n - 1, proc);
      assert SameSurface(dir[n - 1], dir'[n - 1]);
    }
  }

  lemma {:induction false} TopWalkSameTwoLevels(root: seq<Entry>, root': seq<Entry>, n: nat, proc: Processor)
    requires SurfaceOnly(proc)
    requires SameTwoLevels(root, root') && n <= |root|
    ensures TopWalk(root, n, proc) == TopWalk(root', n, proc)
    decreases n
  {
    if n > 0 {
      TopWalkSameTwoLevels(root, root', n - 1, proc);
      var e, e' := root[n - 1], root'[n - 1];
      assert SameSurface(e, e');
      if !IsMetadata(e) && e.Dir? {
        SubWalkSameListing(e.children, e'.children, |e.children|, proc);
      }
    }
  }

  /** Entries nested deeper than one subdirectory are ignored: changing them changes nothing. */
  lemma WalkIgnoresDeeperLevels(root: seq<Entry>, root': seq<Entry>, load: Loader)
    requires SameTwoLevels(root, root')
    ensures Walk(root, ProcessWith(load)) == Walk(root', ProcessWith(load))
  {
    ProcessFileSurfaceOnly(load);
    TopWalkSameTwoLevels(root, root', |root|, ProcessWith(load));
  }
}
