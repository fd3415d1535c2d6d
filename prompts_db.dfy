/**
  The writing half of parse_webui.py: add_results_db, which walks the result
  records in order and inserts into the "prompts" table one row per new
  filename stem, committing each insert before it handles the next record.

  The table is a map from the filename column to the row. A store error is an
  abstract failure: `fault == Some(i)` says that the store raises while the
  record at position i is being handled, at the first store call for it.
*/
module PromptsDb {
  import opened Wrappers
  import opened Text
  import opened ResultFiles

  /** The tag every row this script inserts carries in its ai_app column. */
  const AiApp: string := "web-ui"

  /** A row of the prompts table; `kind` is the column named "type". */
  datatype Row = Row(
    filename: string,
    prompt: Value,
    aiApp: string,
    seed: Value,
    image: Value,
    kind: Value,
    cfgScale: Value,
    samplingSteps: Value,
    samplerName: Value)

  /** The prompts table, keyed by its filename column. */
  type Table = map<string, Row>

  /** Every row sits under its own filename. */
  ghost predicate KeyedByFilename(t: Table) {
    forall k :: k in t ==> t[k].filename == k
  }

  /** Why handling one record failed. */
  datatype Cause =
    | StoreFault              // the store raised (sqlite3.Error): the connection is closed and the error re-raised
    | MissingKey(key: string) // `result[key]` raised KeyError
    | FilenameNotText         // `.split` on a filename that is not a string

  /** The failure that ended add_results_db, and the position of the record it happened at. */
  datatype SinkError = SinkError(index: nat, cause: Cause)

  /** The row key of a file name: the name up to the first "." (`filename.split(".")[0]`). */
  function Stem(filename: string): (key: string)
    ensures |key| <= |filename| && key == filename[..|key|]
    ensures '.' !in key
    ensures |key| < |filename| ==> filename[|key|] == '.'
  {
    FirstField(filename, '.')
  }

  /** `result["filename"].split(".")[0]`, with the ways it can raise. */
  function RecordKey(r: Record): Result<string, Cause> {
    if "filename" !in r then Err(MissingKey("filename"))
    else if !r["filename"].Str? then Err(FilenameNotText)
    else Ok(Stem(r["filename"].s))
  }

  /** The keys the INSERT reads from a record, in the order it reads them. */
  const InsertedKeys: seq<string> := ["prompt", "seed", "image", "target", "cfg_scale", "ddim_steps", "sampler_name"]

  /** The first of `keys` that `r` lacks, if any. */
  function FirstMissing(r: Record, keys: seq<string>): (m: Option<string>)
    ensures m.None? <==> forall i :: 0 <= i < |keys| ==> keys[i] in r
    ensures m.Some? ==> exists i :: && 0 <= i < |keys| && keys[i] == m.value && m.value !in r
                                    && forall j :: 0 <= j < i ==> keys[j] in r
    decreases |keys|
  {
    if keys == [] then None
    else if keys[0] !in r then Some(keys[0])
    else
      var m := FirstMissing(r, keys[1..]);
      if m.Some? then
        assert forall j :: 0 <= j < |keys| - 1 ==> keys[1..][j] == keys[j + 1];
        m
      else m
  }

  /** The record holds every key the INSERT reads. */
  predicate HasInsertedKeys(r: Record) {
    && "prompt" in r && "seed" in r && "image" in r && "target" in r
    && "cfg_scale" in r && "ddim_steps" in r && "sampler_name" in r
  }

  /**
    The row add_results_db inserts for a record under `key`: the key, prompt,
    the constant "web-ui", seed, image, target as type, cfg_scale, ddim_steps as
    sampling_steps and sampler_name. The first key the record lacks raises.
  */
  function BuildRow(key: string, r: Record): (row: Result<Row, Cause>)
    ensures row.Ok? <==> HasInsertedKeys(r)
    ensures row.Err? ==> row.error.MissingKey? && row.error.key in InsertedKeys && row.error.key !in r
    ensures row.Err? ==> FirstMissing(r, InsertedKeys) == Some(row.error.key)
    ensures row.Ok? ==>
              && HasInsertedKeys(r)
              && row.value.filename == key
              && row.value.aiApp == AiApp
              && row.value.prompt == r["prompt"]
              && row.value.seed == r["seed"]
              && row.value.image == r["image"]
              && row.value.kind == r["target"]
              && row.value.cfgScale == r["cfg_scale"]
              && row.value.samplingSteps == r["ddim_steps"]
              && row.value.samplerName == r["sampler_name"]
  {
    match FirstMissing(r, InsertedKeys)
    case Some(k) => Err(MissingKey(k))
    case None =>
      assert InsertedKeys[0] in r && InsertedKeys[1] in r && InsertedKeys[2] in r && InsertedKeys[3] in r;
      assert InsertedKeys[4] in r && InsertedKeys[5] in r && InsertedKeys[6] in r;
      Ok(Row(key, r["prompt"], AiApp, r["seed"], r["image"], r["target"],
             r["cfg_scale"], r["ddim_steps"], r["sampler_name"]))
  }

  /**
    One iteration of add_results_db for the record at position `i`: a row is
    inserted only when no row has the record's key; a record whose key is
    already present is skipped without reading any other key.
  */
  function Handle(t: Table, r: Record, i: nat, fault: Option<nat>): Result<Table, SinkError>
  {
    if fault == Some(i) then Err(SinkError(i, StoreFault))
    else match RecordKey(r)
      case Err(c) => Err(SinkError(i, c))
      case Ok(key) =>
        if key in t then Ok(t)
        else match BuildRow(key, r)
          case Err(c) => Err(SinkError(i, c))
          case Ok(row) => Ok(t[key := row])
  }

  /**
    The outcomes of one iteration: a store fault comes first, a failure carries
    the record's position, a present key leaves the table as it is, and a new
    key gets the row built from the record or fails as building it does.
  */
  lemma HandleCases(t: Table, r: Record, i: nat, fault: Option<nat>)
    ensures var res := Handle(t, r, i, fault);
            && (fault == Some(i) ==> res == Err(SinkError(i, StoreFault)))
            && (res.Err? ==> res.error.index == i)
            && (res.Ok? ==> RecordKey(r).Ok?)
            && (res.Ok? && RecordKey(r).value in t ==> res.value == t)
            && (res.Ok? && RecordKey(r).value !in t ==>
                  BuildRow(RecordKey(r).value, r).Ok?
                  && res.value == t[RecordKey(r).value := BuildRow(RecordKey(r).value, r).value])
            && (fault != Some(i) && RecordKey(r).Ok? && RecordKey(r).value !in t && BuildRow(RecordKey(r).value, r).Err?
                ==> res == Err(SinkError(i, BuildRow(RecordKey(r).value, r).error)))
  {
  }

  /** The table after a run of add_results_db, and the failure that ended it, if any. */
  datatype Outcome = Outcome(table: Table, failure: Option<SinkError>)

  /** One iteration of the loop as a value: the table before it, the record and its position. */
  type Iteration = (Table, Record, nat) -> Result<Table, SinkError>

  /** The iteration add_results_db performs, with the store faulting as `fault` says. */
  function HandleAt(fault: Option<nat>): Iteration {
    (t: Table, r: Record, i: nat) => Handle(t, r, i, fault)
  }

  /** The loop after its first `n` iterations, each one done by `it`. */
  function Run(t: Table, rs: seq<Record>, it: Iteration, n: nat): Outcome
    requires n <= |rs|
  {
    if n == 0 then Outcome(t, None)
    else
      var prev := Run(t, rs, it, n - 1);
      if prev.failure.Some? then prev
      else match it(prev.table, rs[n - 1], n - 1)
        case Err(e) => Outcome(prev.table, Some(e))
        case Ok(t') => Outcome(t', None)
  }

  /** add_results_db over every record. */
  function Sink(t: Table, rs: seq<Record>, fault: Option<nat>): Outcome {
    Run(t, rs, HandleAt(fault), |rs|)
  }

  // ---------------------------------------------------------------------------
  // The table as state
  // ---------------------------------------------------------------------------

  /** The prompts table the script connects to. */
  class PromptsTable {
    var rows: Table

    ghost predicate Valid()
      reads this
    {
      KeyedByFilename(rows)
    }

    constructor (initial: Table)
      requires KeyedByFilename(initial)
      ensures Valid() && rows == initial
    {
      rows := initial;
    }

    /** `SELECT filename FROM prompts WHERE filename = ?` returned a row. */
    method HasRow(key: string) returns (found: bool)
      requires Valid()
      ensures found <==> exists k :: k in rows && rows[k].filename == key
    {
      found := key in rows;
    }

    /** The INSERT followed by its commit. */
    method Insert(row: Row)
      requires Valid()
      requires row.filename !in rows
      modifies this
      ensures Valid()
      ensures rows == old(rows)[row.filename := row]
    {
      rows := rows[row.filename := row];
    }
  }

  /** Once a run has failed, later records change nothing. */
  lemma {:induction false} RunFailureSticks(t: Table, rs: seq<Record>, it: Iteration, i: nat, n: nat)
    requires i <= n <= |rs|
    requires Run(t, rs, it, i).failure.Some?
    ensures Run(t, rs, it, n) == Run(t, rs, it, i)
    decreases n
  {
    if i < n {
      RunFailureSticks(t, rs, it, i, n - 1);
    }
  }

  /** A record that fails ends the run there, with the table as it was. */
  lemma RunStopsAt(t0: Table, rs: seq<Record>, it: Iteration, i: nat, t: Table, e: SinkError)
    requires i < |rs| && Run(t0, rs, it, i) == Outcome(t, None)
    requires it(t, rs[i], i) == Err(e)
    ensures Run(t0, rs, it, |rs|) == Outcome(t, Some(e))
  {
    RunFailureSticks(t0, rs, it, i + 1, |rs|);
  }

  /** A record that is handled moves the run on to the next one. */
  lemma RunMovesOn(t0: Table, rs: seq<Record>, it: Iteration, i: nat, t: Table, t': Table)
    requires i < |rs| && Run(t0, rs, it, i) == Outcome(t, None)
    requires it(t, rs[i], i) == Ok(t')
    ensures Run(t0, rs, it, i + 1) == Outcome(t', None)
  {
  }

  /**
    The body of add_results_db's loop for the record at position `i`: take its
    key, look it up, and insert and commit a row when none exists.
  */
  method AddOne(db: PromptsTable, result: Record, i: nat, fault: Option<nat>) returns (failure: Option<SinkError>)
    requires db.Valid()
    modifies db
    ensures db.Valid()
    ensures Handle(old(db.rows), result, i, fault) == if failure.None? then Ok(db.rows) else Err(failure.value)
    ensures failure.Some? ==> db.rows == old(db.rows)
  {
    if fault == Some(i) {
      return Some(SinkError(i, StoreFault));
    }
    var key := RecordKey(result);
    if key.Err? {
      return Some(SinkError(i, key.error));
    }
    var present := db.HasRow(key.value);
    assert present <==> key.value in db.rows;
    if !present {
      var row := BuildRow(key.value, result);
      if row.Err? {
        return Some(SinkError(i, row.error));
      }
      db.Insert(row.value);
    }
    failure := None;
  }

  /**
    add_results_db: handle each record in order; the first failure ends the
    loop, leaving the rows committed so far in place.
  */
  method AddResultsDb(db: PromptsTable, results: seq<Record>, fault: Option<nat>) returns (failure: Option<SinkError>)
    requires db.Valid()
    modifies db
    ensures db.Valid()
    ensures db.rows == Sink(old(db.rows), results, fault).table
    ensures failure == Sink(old(db.rows), results, fault).failure
  {
    ghost var t0, it := db.rows, HandleAt(fault);
    var i := 0;
    while i < |results|
      invariant 0 <= i <= |results|
      invariant db.Valid()
      invariant Run(t0, results, it, i) == Outcome(db.rows, None)
    {
      ghost var before := db.rows;
      var failed := AddOne(db, results[i], i, fault);
      assert it(before, results[i], i) == Handle(before, results[i], i, fault);
      if failed.Some? {
        RunStopsAt(t0, results, it, i, before, failed.value);
        return failed;
      }
      RunMovesOn(t0, results, it, i, before, db.rows);
      i := i + 1;
    }
    failure := None;
  }
}
