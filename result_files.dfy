/**
  The reading half of parse_webui.py: matching a metadata file to its image
  (get_image), turning one metadata file into a result record (process_file)
  and walking a result directory two levels deep (parse_result_files).

  The file system is a value: a directory listing is a `seq<Entry>` in the
  order the listing enumerates it, and a file's bytes are part of its entry.
  yaml.safe_load is a parameter `load` from a file's bytes to what the parser
  makes of them.
*/
module ResultFiles {
  import opened Wrappers
  import opened Text

  type Byte = b: int | 0 <= b < 256

  /** A scalar of a parsed metadata file, or the raw image bytes the script adds to it. */
  datatype Value =
    | Null
    | Bool(b: bool)
    | Int(i: int)
    | Float(x: real)
    | Str(s: string)
    | Blob(bytes: seq<Byte>)

  /** A directory entry; `name` is the last component of its path. */
  datatype Entry =
    | File(name: string, contents: seq<Byte>)
    | Dir(name: string, children: seq<Entry>)

  /** What yaml.safe_load makes of a file: a mapping, some other document (None, a list, a scalar), or a syntax error. */
  datatype Loaded = Mapping(fields: map<string, Value>) | NotMapping | SyntaxError

  type Loader = seq<Byte> -> Loaded

  /** A normalised result: the parsed mapping plus the derived keys "filename" and "image". */
  type Record = map<string, Value>

  /** The exceptions that abort a walk. */
  datatype WalkError =
    | NoUniqueImage          // get_image found zero or several candidate images (one message for both)
    | IsADirectory(name: string)  // open() was given a directory
    | YamlError(name: string)     // yaml.safe_load rejected the metadata file
    | NotAMapping(name: string)   // `{**parsed, ...}` on a document that is not a mapping

  // ---------------------------------------------------------------------------
  // get_image
  // ---------------------------------------------------------------------------

  /** The filter of get_image: names the batch id, is a PNG, is not the upscaled variant. */
  predicate IsImageFor(batchId: string, e: Entry) {
    Contains(e.name, batchId) && Contains(e.name, ".png") && !Contains(e.name, "esrgan4x")
  }

  /** The list comprehension of get_image: the matching entries, in listing order. */
  function Candidates(batchId: string, entries: seq<Entry>): seq<Entry>
    decreases |entries|
  {
    if entries == [] then []
    else if IsImageFor(batchId, entries[0]) then [entries[0]] + Candidates(batchId, entries[1..])
    else Candidates(batchId, entries[1..])
  }

  /** The comprehension keeps exactly the entries that pass the filter, and is empty when none does. */
  lemma {:induction false} CandidatesFacts(batchId: string, entries: seq<Entry>)
    ensures |Candidates(batchId, entries)| <= |entries|
    ensures forall e :: e in Candidates(batchId, entries) <==> e in entries && IsImageFor(batchId, e)
    ensures (forall e :: e in entries ==> !IsImageFor(batchId, e)) ==> Candidates(batchId, entries) == []
    decreases |entries|
  {
    if entries != [] {
      CandidatesFacts(batchId, entries[1..]);
      assert forall e :: e in entries <==> e == entries[0] || e in entries[1..];
    }
  }

  /** Position `i` of the listing is the one and only entry that passes the filter. */
  ghost predicate UniqueImageAt(batchId: string, entries: seq<Entry>, i: int) {
    && 0 <= i < |entries|
    && IsImageFor(batchId, entries[i])
    && forall j :: 0 <= j < |entries| && j != i ==> !IsImageFor(batchId, entries[j])
  }

  /** A unique match is exactly what the comprehension returns, alone. */
  lemma {:induction false} UniqueMatchIsSingleCandidate(batchId: string, entries: seq<Entry>, i: int)
    requires UniqueImageAt(batchId, entries, i)
    ensures Candidates(batchId, entries) == [entries[i]]
    decreases |entries|
  {
    var rest := entries[1..];
    if i == 0 {
      forall e | e in rest ensures !IsImageFor(batchId, e) {
        var k :| 0 <= k < |rest| && rest[k] == e;
        assert entries[k + 1] == e;
      }
      CandidatesFacts(batchId, rest);
      assert Candidates(batchId, rest) == [];
    } else {
      assert UniqueImageAt(batchId, rest, i - 1) by {
        forall j | 0 <= j < |rest| && j != i - 1 ensures !IsImageFor(batchId, rest[j]) {
          assert rest[j] == entries[j + 1];
        }
      }
      UniqueMatchIsSingleCandidate(batchId, rest, i - 1);
    }
  }

  /** A comprehension with one element comes from a unique match. */
  lemma {:induction false} SingleCandidateIsUniqueMatch(batchId: string, entries: seq<Entry>)
    requires |Candidates(batchId, entries)| == 1
    ensures exists i :: UniqueImageAt(batchId, entries, i) && entries[i] == Candidates(batchId, entries)[0]
    decreases |entries|
  {
    var rest := entries[1..];
    CandidatesFacts(batchId, rest);
    if IsImageFor(batchId, entries[0]) {
      assert Candidates(batchId, rest) == [];
      forall j | 0 <= j < |entries| && j != 0 ensures !IsImageFor(batchId, entries[j]) {
        assert entries[j] in rest;
      }
      assert UniqueImageAt(batchId, entries, 0);
    } else {
      SingleCandidateIsUniqueMatch(batchId, rest);
      var i :| UniqueImageAt(batchId, rest, i) && rest[i] == Candidates(batchId, rest)[0];
      forall j | 0 <= j < |entries| && j != i + 1 ensures !IsImageFor(batchId, entries[j]) {
        if j > 0 {
          assert entries[j] == rest[j - 1];
        }
      }
      assert UniqueImageAt(batchId, entries, i + 1);
    }
  }

  /** The comprehension has exactly one element precisely when one position of the listing matches. */
  lemma CandidatesSingleIffUnique(batchId: string, entries: seq<Entry>)
    ensures |Candidates(batchId, entries)| == 1 ==>
              exists i :: UniqueImageAt(batchId, entries, i) && entries[i] == Candidates(batchId, entries)[0]
    ensures forall i :: UniqueImageAt(batchId, entries, i) ==> Candidates(batchId, entries) == [entries[i]]
  {
    if |Candidates(batchId, entries)| == 1 {
      SingleCandidateIsUniqueMatch(batchId, entries);
    }
    forall i | UniqueImageAt(batchId, entries, i) ensures Candidates(batchId, entries) == [entries[i]] {
      UniqueMatchIsSingleCandidate(batchId, entries, i);
    }
  }

  /**
    get_image: the contents of the one entry that passes the filter. Zero or
    several candidates raise the same exception; a single candidate that is a
    directory makes open() fail.
  */
  function GetImage(batchId: string, entries: seq<Entry>): Result<seq<Byte>, WalkError> {
    var c := Candidates(batchId, entries);
    if |c| > 1 || |c| == 0 then Err(NoUniqueImage)
    else
      match c[0]
      case File(_, contents) => Ok(contents)
      case Dir(name, _) => Err(IsADirectory(name))
  }

  /** get_image succeeds exactly on a unique match that is a file, and fails as open() or the count check would. */
  lemma GetImageCases(batchId: string, entries: seq<Entry>)
    ensures GetImage(batchId, entries).Ok? <==> exists i :: UniqueImageAt(batchId, entries, i) && entries[i].File?
    ensures forall i :: UniqueImageAt(batchId, entries, i) && entries[i].File? ==>
              GetImage(batchId, entries) == Ok(entries[i].contents)
    ensures forall i :: UniqueImageAt(batchId, entries, i) && entries[i].Dir? ==>
              GetImage(batchId, entries) == Err(IsADirectory(entries[i].name))
    ensures (forall i :: !UniqueImageAt(batchId, entries, i)) ==> GetImage(batchId, entries) == Err(NoUniqueImage)
  {
    CandidatesSingleIffUnique(batchId, entries);
  }

  // ---------------------------------------------------------------------------
  // process_file
  // ---------------------------------------------------------------------------

  /** The batch id of a metadata file: its name up to the first "-" (`name.split("-")[0]`). */
  function BatchId(name: string): (id: string)
    ensures |id| <= |name| && id == name[..|id|]
    ensures '-' !in id
    ensures |id| < |name| ==> name[|id|] == '-'
  {
    FirstField(name, '-')
  }

  /** `rec` is `{**parsed, "filename": filename, "image": image}`: the derived keys win. */
  ghost predicate IsMerge(rec: Record, parsed: map<string, Value>, filename: string, image: seq<Byte>) {
    && rec.Keys == parsed.Keys + {"filename", "image"}
    && rec["filename"] == Str(filename)
    && rec["image"] == Blob(image)
    && forall k :: k in parsed && k != "filename" && k != "image" ==> rec[k] == parsed[k]
  }

  /**
    process_file: open and parse the metadata file, find its image among
    `dirFiles` by the batch id, and return a one-element list holding the merge.
    The failures come in the order the code meets them: open, yaml.safe_load,
    get_image, and last the `**` unpacking of a document that is not a mapping.
  */
  function ProcessFile(dirFiles: seq<Entry>, file: Entry, load: Loader): Result<seq<Record>, WalkError> {
    match file
    case Dir(name, _) => Err(IsADirectory(name))
    case File(name, contents) =>
      var loaded := load(contents);
      if loaded.SyntaxError? then Err(YamlError(name))
      else
        var image := GetImage(BatchId(name), dirFiles);
        if image.Err? then Err(image.error)
        else if loaded.NotMapping? then Err(NotAMapping(name))
        else Ok([loaded.fields + map["filename" := Str(name), "image" := Blob(image.value)]])
  }

  /** The outcomes of process_file, error by error, and the record it returns on success. */
  lemma ProcessFileCases(dirFiles: seq<Entry>, file: Entry, load: Loader)
    ensures var r := ProcessFile(dirFiles, file, load);
            && (file.Dir? ==> r == Err(IsADirectory(file.name)))
            && (file.File? && load(file.contents).SyntaxError? ==> r == Err(YamlError(file.name)))
            && (file.File? && !load(file.contents).SyntaxError? && GetImage(BatchId(file.name), dirFiles).Err?
                ==> r == Err(GetImage(BatchId(file.name), dirFiles).error))
            && (file.File? && load(file.contents).NotMapping? && GetImage(BatchId(file.name), dirFiles).Ok?
                ==> r == Err(NotAMapping(file.name)))
            && (r.Ok? <==> file.File? && load(file.contents).Mapping? && GetImage(BatchId(file.name), dirFiles).Ok?)
            && (r.Ok? ==> |r.value| == 1
                          && IsMerge(r.value[0], load(file.contents).fields, file.name,
                                     GetImage(BatchId(file.name), dirFiles).value))
  {
  }

  // ---------------------------------------------------------------------------
  // parse_result_files
  // ---------------------------------------------------------------------------

  /** A metadata file is recognised by ".yaml" anywhere in its name. */
  predicate IsMetadata(e: Entry) {
    Contains(e.name, ".yaml")
  }

  /** What the walk does with one metadata file, given the listing its image is looked up in. */
  type Processor = (seq<Entry>, Entry) -> Result<seq<Record>, WalkError>

  /** process_file with the loader fixed: the processor parse_result_files uses. */
  function ProcessWith(load: Loader): Processor {
    (dirFiles: seq<Entry>, file: Entry) => ProcessFile(dirFiles, file, load)
  }

  /** What the inner loop has gathered after the first `n` entries of a subdirectory listing. */
  function SubWalk(dir: seq<Entry>, n: nat, proc: Processor): Result<seq<Record>, WalkError>
    requires n <= |dir|
  {
    if n == 0 then Ok([])
    else
      var prev := SubWalk(dir, n - 1, proc);
      if prev.Err? || !IsMetadata(dir[n - 1]) then prev
      else match proc(dir, dir[n - 1])
        case Err(e) => Err(e)
        case Ok(rs) => Ok(prev.value + rs)
  }

  /** What one top-level entry adds: a metadata file is processed (even a directory so named), another directory is walked. */
  function TopYield(root: seq<Entry>, e: Entry, proc: Processor): Result<seq<Record>, WalkError> {
    if IsMetadata(e) then proc(root, e)
    else if e.Dir? then SubWalk(e.children, |e.children|, proc)
    else Ok([])
  }

  /** What the outer loop has gathered after the first `n` entries of the root listing. */
  function TopWalk(root: seq<Entry>, n: nat, proc: Processor): Result<seq<Record>, WalkError>
    requires n <= |root|
  {
    if n == 0 then Ok([])
    else
      var prev := TopWalk(root, n - 1, proc);
      if prev.Err? then prev
      else match TopYield(root, root[n - 1], proc)
        case Err(e) => Err(e)
        case Ok(rs) => Ok(prev.value + rs)
  }

  /** parse_result_files over the root listing `root`, processing each metadata file with `proc`. */
  function Walk(root: seq<Entry>, proc: Processor): Result<seq<Record>, WalkError> {
    TopWalk(root, |root|, proc)
  }

  /** Once the inner loop has raised, the subdirectory's walk ends with that error. */
  lemma {:induction false} SubWalkErrorSticks(dir: seq<Entry>, i: nat, n: nat, proc: Processor)
    requires i <= n <= |dir|
    requires SubWalk(dir, i, proc).Err?
    ensures SubWalk(dir, n, proc) == SubWalk(dir, i, proc)
    decreases n
  {
    if i < n {
      SubWalkErrorSticks(dir, i, n - 1, proc);
    }
  }

  /** Once the outer loop has raised, the walk ends with that error. */
  lemma {:induction false} TopWalkErrorSticks(root: seq<Entry>, i: nat, n: nat, proc: Processor)
    requires i <= n <= |root|
    requires TopWalk(root, i, proc).Err?
    ensures TopWalk(root, n, proc) == TopWalk(root, i, proc)
    decreases n
  {
    if i < n {
      TopWalkErrorSticks(root, i, n - 1, proc);
    }
  }

  /** One more entry of a subdirectory listing, when the walk so far has not raised. */
  lemma SubWalkNext(dir: seq<Entry>, n: nat, proc: Processor, results: seq<Record>)
    requires n < |dir| && SubWalk(dir, n, proc) == Ok(results)
    ensures !IsMetadata(dir[n]) ==> SubWalk(dir, n + 1, proc) == Ok(results)
    ensures IsMetadata(dir[n]) && proc(dir, dir[n]).Ok? ==> SubWalk(dir, n + 1, proc) == Ok(results + proc(dir, dir[n]).value)
    ensures IsMetadata(dir[n]) && proc(dir, dir[n]).Err? ==> SubWalk(dir, |dir|, proc) == proc(dir, dir[n])
  {
    if IsMetadata(dir[n]) && proc(dir, dir[n]).Err? {
      SubWalkErrorSticks(dir, n + 1, |dir|, proc);
    }
  }

  /** One more entry of the root listing, when the walk so far has not raised. */
  lemma TopWalkNext(root: seq<Entry>, n: nat, proc: Processor, results: seq<Record>)
    requires n < |root| && TopWalk(root, n, proc) == Ok(results)
    ensures TopYield(root, root[n], proc).Ok? ==> TopWalk(root, n + 1, proc) == Ok(results + TopYield(root, root[n], proc).value)
    ensures TopYield(root, root[n], proc).Err? ==> TopWalk(root, |root|, proc) == TopYield(root, root[n], proc)
  {
    if TopYield(root, root[n], proc).Err? {
      TopWalkErrorSticks(root, n + 1, |root|, proc);
    }
  }

  /**
    The inner loop of parse_result_files over one subdirectory listing: every
    metadata file in it is processed against that same listing.
  */
  method WalkSubdirectory(subDirFiles: seq<Entry>, load: Loader) returns (r: Result<seq<Record>, WalkError>)
    ensures r == SubWalk(subDirFiles, |subDirFiles|, ProcessWith(load))
  {
    ghost var proc := ProcessWith(load);
    var results: seq<Record> := [];
    var j := 0;
    while j < |subDirFiles|
      invariant 0 <= j <= |subDirFiles|
      invariant SubWalk(subDirFiles, j, proc) == Ok(results)
    {
      var subFile := subDirFiles[j];
      if IsMetadata(subFile) {
        var processed := ProcessFile(subDirFiles, subFile, load);
        assert processed == proc(subDirFiles, subFile);
        SubWalkNext(subDirFiles, j, proc, results);
        if processed.Err? {
          return Err(processed.error);
        }
        results := results + processed.value;
      } else {
        SubWalkNext(subDirFiles, j, proc, results);
      }
      j := j + 1;
    }
    r := Ok(results);
  }

  /**
    parse_result_files: the loop over the root listing. A metadata file is
    processed against the root listing; any other directory has its own
    listing walked one level down; the first exception ends the walk.
  */
  method ParseResultFiles(root: seq<Entry>, load: Loader) returns (r: Result<seq<Record>, WalkError>)
    ensures r == Walk(root, ProcessWith(load))
  {
    ghost var proc := ProcessWith(load);
    var results: seq<Record> := [];
    var i := 0;
    while i < |root|
      invariant 0 <= i <= |root|
      invariant TopWalk(root, i, proc) == Ok(results)
    {
      var file := root[i];
      var produced: Result<seq<Record>, WalkError>;
      if IsMetadata(file) {
        produced := ProcessFile(root, file, load);
      } else if file.Dir? {
        produced := WalkSubdirectory(file.children, load);
      } else {
        produced := Ok([]);
      }
      assert produced == TopYield(root, file, proc);
      TopWalkNext(root, i, proc, results);
      if produced.Err? {
        return Err(produced.error);
      }
      results := results + produced.value;
      i := i + 1;
    }
    r := Ok(results);
  }
}
