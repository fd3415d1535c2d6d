/**
  What add_results_db guarantees about the prompts table: rows are never
  changed once present, every record's key ends up present, a key's row comes
  from the first record with that key, a second run inserts nothing, and a
  failure leaves exactly the rows committed before it.
*/
module SinkFacts {
  import opened Wrappers
  import opened ResultFiles
  import opened PromptsDb

  // ---------------------------------------------------------------------------
  // Runs of any iteration, stated over the record key and the row it builds
  // ---------------------------------------------------------------------------

  /** How a record's key is found, and how its row is built: RecordKey and BuildRow. */
  type KeyOf = Record -> Result<string, Cause>
  type Builder = (string, Record) -> Result<Row, Cause>

  /** Some record among the first `n` has key `k`. */
  ghost predicate KeyAmong(rs: seq<Record>, n: nat, k: string, key: KeyOf)
    requires n <= |rs|
  {
    exists i :: 0 <= i < n && key(rs[i]) == Ok(k)
  }

  /** No record before position `i` has key `k`. */
  ghost predicate FirstWithKey(rs: seq<Record>, i: nat, k: string, key: KeyOf)
    requires i <= |rs|
  {
    forall j :: 0 <= j < i ==> key(rs[j]) != Ok(k)
  }

  /** A successful iteration never changes or removes a row that is already there. */
  ghost predicate KeepsRows(it: Iteration) {
    forall t, r, i, k :: it(t, r, i).Ok? && k in t ==> k in it(t, r, i).value && it(t, r, i).value[k] == t[k]
  }

  /** A successful iteration has the record's key in its table, and adds no other key. */
  ghost predicate AddsOwnKey(it: Iteration, key: KeyOf) {
    forall t, r, i :: it(t, r, i).Ok? ==>
      && key(r).Ok?
      && key(r).value in it(t, r, i).value
      && forall k :: k in it(t, r, i).value && k !in t ==> k == key(r).value
  }

  /** A successful iteration on a new key stores the row built from the record under it. */
  ghost predicate BuildsNewRows(it: Iteration, key: KeyOf, build: Builder) {
    forall t, r, i :: it(t, r, i).Ok? && key(r).Ok? && key(r).value !in t ==>
      key(r).value in it(t, r, i).value && build(key(r).value, r) == Ok(it(t, r, i).value[key(r).value])
  }

  /** A successful iteration keeps the table keyed by its filename column. */
  ghost predicate KeepsKeying(it: Iteration) {
    forall t, r, i :: KeyedByFilename(t) && it(t, r, i).Ok? ==> KeyedByFilename(it(t, r, i).value)
  }

  /** A failing iteration reports the position of its record. */
  ghost predicate ReportsPosition(it: Iteration) {
    forall t, r, i :: it(t, r, i).Err? ==> it(t, r, i).error.index == i
  }

  /** A record whose key is present is skipped. */
  ghost predicate SkipsPresentKeys(it: Iteration, key: KeyOf) {
    forall t, r, i :: key(r).Ok? && key(r).value in t ==> it(t, r, i) == Ok(t)
  }

  /** add_results_db's iteration has all of these properties, whatever the store does. */
  lemma HandleAtFacts(fault: Option<nat>)
    ensures KeepsRows(HandleAt(fault)) && AddsOwnKey(HandleAt(fault), RecordKey)
    ensures BuildsNewRows(HandleAt(fault), RecordKey, BuildRow) && KeepsKeying(HandleAt(fault))
    ensures ReportsPosition(HandleAt(fault))
  {
    var it := HandleAt(fault);
    forall t, r, i, k | it(t, r, i).Ok? && k in t ensures k in it(t, r, i).value && it(t, r, i).value[k] == t[k] {
      HandleCases(t, r, i, fault);
    }
    forall t, r, i | it(t, r, i).Ok?
      ensures && RecordKey(r).Ok?
              && RecordKey(r).value in it(t, r, i).value
              && forall k :: k in it(t, r, i).value && k !in t ==> k == RecordKey(r).value
    {
      HandleCases(t, r, i, fault);
    }
    forall t, r, i | it(t, r, i).Ok? && RecordKey(r).Ok? && RecordKey(r).value !in t
      ensures && RecordKey(r).value in it(t, r, i).value
              && BuildRow(RecordKey(r).value, r) == Ok(it(t, r, i).value[RecordKey(r).value])
    {
      HandleCases(t, r, i, fault);
    }
    forall t, r, i | KeyedByFilename(t) && it(t, r, i).Ok? ensures KeyedByFilename(it(t, r, i).value) {
      HandleCases(t, r, i, fault);
    }
    forall t, r, i | it(t, r, i).Err? ensures it(t, r, i).error.index == i {
      HandleCases(t, r, i, fault);
    }
  }

  /** When the store does not fail, add_results_db's iteration skips present keys. */
  lemma HandleAtSkipsPresentKeys()
    ensures SkipsPresentKeys(HandleAt(None), RecordKey)
  {
    forall t, r, i | RecordKey(r).Ok? && RecordKey(r).value in t ensures HandleAt(None)(t, r, i) == Ok(t) {
      HandleCases(t, r, i, None);
    }
  }

  /** Rows present after `m` records are still there, unchanged, after `n >= m` records. */
  lemma {:induction false} RunKeepsRows(t: Table, rs: seq<Record>, it: Iteration, m: nat, n: nat)
    requires KeepsRows(it)
    requires m <= n <= |rs|
    ensures forall k :: k in Run(t, rs, it, m).table ==>
              k in Run(t, rs, it, n).table && Run(t, rs, it, n).table[k] == Run(t, rs, it, m).table[k]
    decreases n
  {
    if m < n {
      RunKeepsRows(t, rs, it, m, n - 1);
    }
  }

  /** Every key the run added is the key of one of the records it handled. */
  lemma {:induction false} RunNewKeysFromRecords(t: Table, rs: seq<Record>, it: Iteration, key: KeyOf, n: nat)
    requires AddsOwnKey(it, key)
    requires n <= |rs|
    ensures forall k :: k in Run(t, rs, it, n).table && k !in t ==> KeyAmong(rs, n, k, key)
    decreases n
  {
    if n > 0 {
      RunNewKeysFromRecords(t, rs, it, key, n - 1);
      var prev := Run(t, rs, it, n - 1);
      forall k | k in Run(t, rs, it, n).table && k !in t ensures KeyAmong(rs, n, k, key) {
        if k in prev.table {
          var i :| 0 <= i < n - 1 && key(rs[i]) == Ok(k);
        } else {
          assert key(rs[n - 1]) == Ok(k);
        }
      }
    }
  }

  /** The run keeps the table keyed by its filename column. */
  lemma {:induction false} RunKeyedByFilename(t: Table, rs: seq<Record>, it: Iteration, n: nat)
    requires KeepsKeying(it)
    requires n <= |rs|
    requires KeyedByFilename(t)
    ensures KeyedByFilename(Run(t, rs, it, n).table)
    decreases n
  {
    if n > 0 {
      RunKeyedByFilename(t, rs, it, n - 1);
    }
  }

  /** A run that did not fail has a row for the key of every record it handled. */
  lemma {:induction false} RunCoversKeys(t: Table, rs: seq<Record>, it: Iteration, key: KeyOf, n: nat)
    requires KeepsRows(it) && AddsOwnKey(it, key)
    requires n <= |rs|
    requires Run(t, rs, it, n).failure.None?
    ensures forall i :: 0 <= i < n ==> key(rs[i]).Ok? && key(rs[i]).value in Run(t, rs, it, n).table
    decreases n
  {
    if n > 0 {
      var prev := Run(t, rs, it, n - 1);
      assert prev.failure.None?;
      RunCoversKeys(t, rs, it, key, n - 1);
    }
  }

  /**
    No key is inserted twice: the row under a key that was not in the table
    beforehand is the row built from the first record with that key, even when
    later records in the same batch share it.
  */
  lemma {:induction false} RunFirstRecordWins(t: Table, rs: seq<Record>, it: Iteration, key: KeyOf, build: Builder,
                                              n: nat, i: nat, k: string)
    requires KeepsRows(it) && AddsOwnKey(it, key) && BuildsNewRows(it, key, build)
    requires i < n <= |rs|
    requires key(rs[i]) == Ok(k) && k !in t && FirstWithKey(rs, i, k, key)
    requires k in Run(t, rs, it, n).table
    ensures build(k, rs[i]) == Ok(Run(t, rs, it, n).table[k])
    decreases n
  {
    var prev := Run(t, rs, it, n - 1);
    if i == n - 1 {
      RunNewKeysFromRecords(t, rs, it, key, n - 1);
      assert !KeyAmong(rs, n - 1, k, key);
      assert k !in prev.table;
    } else {
      if prev.failure.None? {
        RunCoversKeys(t, rs, it, key, n - 1);
        assert key(rs[i]).value in prev.table;
      }
      RunFirstRecordWins(t, rs, it, key, build, n - 1, i, k);
    }
  }

  /** A run over records whose keys are all present inserts nothing and cannot fail. */
  lemma {:induction false} RunNothingNew(t: Table, rs: seq<Record>, it: Iteration, key: KeyOf, n: nat)
    requires SkipsPresentKeys(it, key)
    requires n <= |rs|
    requires forall i :: 0 <= i < n ==> key(rs[i]).Ok? && key(rs[i]).value in t
    ensures Run(t, rs, it, n) == Outcome(t, None)
    decreases n
  {
    if n > 0 {
      RunNothingNew(t, rs, it, key, n - 1);
      assert it(t, rs[n - 1], n - 1) == Ok(t);
    }
  }

  /** One step of two runs that agree so far, over the same record, agrees too. */
  lemma RunSameStep(t: Table, rs: seq<Record>, rs': seq<Record>, it: Iteration, m: nat)
    requires 0 < m <= |rs| && m <= |rs'|
    requires Run(t, rs, it, m - 1) == Run(t, rs', it, m - 1)
    requires rs[m - 1] == rs'[m - 1]
    ensures Run(t, rs, it, m) == Run(t, rs', it, m)
  {
  }

  /** The first `m` steps of a run only look at the first `m` records. */
  lemma {:induction false} RunOnPrefix(t: Table, rs: seq<Record>, it: Iteration, m: nat, n: nat)
    requires m <= n <= |rs|
    ensures Run(t, rs, it, m) == Run(t, rs[..n], it, m)
    decreases m
  {
    if m > 0 {
      RunOnPrefix(t, rs, it, m - 1, n);
      RunSameStep(t, rs, rs[..n], it, m);
    }
  }

  /** Where a failing run stopped: the step that failed, and the table just before it. */
  lemma {:induction false} RunFailureAt(t: Table, rs: seq<Record>, it: Iteration, n: nat)
    requires ReportsPosition(it)
    requires n <= |rs|
    requires Run(t, rs, it, n).failure.Some?
    ensures Run(t, rs, it, n).failure.value.index < n
    ensures var i := Run(t, rs, it, n).failure.value.index;
            && Run(t, rs, it, i).failure.None?
            && Run(t, rs, it, n).table == Run(t, rs, it, i).table
            && it(Run(t, rs, it, i).table, rs[i], i) == Err(Run(t, rs, it, n).failure.value)
    decreases n
  {
    if Run(t, rs, it, n - 1).failure.Some? {
      RunFailureAt(t, rs, it, n - 1);
    }
  }

  // ---------------------------------------------------------------------------
  // add_results_db
  // ---------------------------------------------------------------------------

  /** add_results_db leaves every row it found unchanged, and adds rows only under keys of its records. */
  lemma SinkKeepsRows(t: Table, rs: seq<Record>, fault: Option<nat>)
    ensures forall k :: k in t ==> k in Sink(t, rs, fault).table && Sink(t, rs, fault).table[k] == t[k]
    ensures forall k :: k in Sink(t, rs, fault).table && k !in t ==> KeyAmong(rs, |rs|, k, RecordKey)
  {
    HandleAtFacts(fault);
    RunKeepsRows(t, rs, HandleAt(fault), 0, |rs|);
    RunNewKeysFromRecords(t, rs, HandleAt(fault), RecordKey, |rs|);
  }

  /** add_results_db keeps the table keyed by its filename column. */
  lemma SinkKeyedByFilename(t: Table, rs: seq<Record>, fault: Option<nat>)
    requires KeyedByFilename(t)
    ensures KeyedByFilename(Sink(t, rs, fault).table)
  {
    HandleAtFacts(fault);
    RunKeyedByFilename(t, rs, HandleAt(fault), |rs|);
  }

  /** After add_results_db completes, every record's key has a row. */
  lemma SinkCoversKeys(t: Table, rs: seq<Record>, fault: Option<nat>)
    requires Sink(t, rs, fault).failure.None?
    ensures forall i :: 0 <= i < |rs| ==> RecordKey(rs[i]).Ok? && RecordKey(rs[i]).value in Sink(t, rs, fault).table
  {
    HandleAtFacts(fault);
    RunCoversKeys(t, rs, HandleAt(fault), RecordKey, |rs|);
  }

  /** add_results_db inserts the row of the first record with each new key, and no other. */
  lemma SinkFirstRecordWins(t: Table, rs: seq<Record>, fault: Option<nat>)
    ensures forall i, k :: && 0 <= i < |rs| && RecordKey(rs[i]) == Ok(k) && k !in t && FirstWithKey(rs, i, k, RecordKey)
                           && k in Sink(t, rs, fault).table
                           ==> BuildRow(k, rs[i]) == Ok(Sink(t, rs, fault).table[k])
  {
    HandleAtFacts(fault);
    forall i, k | && 0 <= i < |rs| && RecordKey(rs[i]) == Ok(k) && k !in t && FirstWithKey(rs, i, k, RecordKey)
                  && k in Sink(t, rs, fault).table
      ensures BuildRow(k, rs[i]) == Ok(Sink(t, rs, fault).table[k])
    {
      RunFirstRecordWins(t, rs, HandleAt(fault), RecordKey, BuildRow, |rs|, i, k);
    }
  }

  /** Running add_results_db a second time on the same records inserts nothing and succeeds. */
  lemma SinkIdempotent(t: Table, rs: seq<Record>, fault: Option<nat>)
    requires Sink(t, rs, fault).failure.None?
    ensures Sink(Sink(t, rs, fault).table, rs, None) == Outcome(Sink(t, rs, fault).table, None)
  {
    HandleAtFacts(fault);
    HandleAtSkipsPresentKeys();
    RunCoversKeys(t, rs, HandleAt(fault), RecordKey, |rs|);
    RunNothingNew(Sink(t, rs, fault).table, rs, HandleAt(None), RecordKey, |rs|);
  }

  /**
    A failure mid-loop: the rows committed for the records before the failing
    one stay, exactly as a complete run over those records leaves them, and the
    records after it are not handled.
  */
  lemma SinkFailureKeepsEarlierRows(t: Table, rs: seq<Record>, fault: Option<nat>)
    requires Sink(t, rs, fault).failure.Some?
    ensures var i := Sink(t, rs, fault).failure.value.index;
            && i < |rs|
            && Sink(t, rs[..i], fault).failure.None?
            && Sink(t, rs, fault).table == Sink(t, rs[..i], fault).table
  {
    var i := Sink(t, rs, fault).failure.value.index;
    HandleAtFacts(fault);
    RunFailureAt(t, rs, HandleAt(fault), |rs|);
    RunOnPrefix(t, rs, HandleAt(fault), i, i);
  }

  /** A store fault at a record the run reaches ends the run there. */
  lemma SinkStoreFault(t: Table, rs: seq<Record>, i: nat)
    requires i < |rs|
    requires Run(t, rs, HandleAt(Some(i)), i).failure.None?
    ensures Sink(t, rs, Some(i)) == Outcome(Run(t, rs, HandleAt(Some(i)), i).table, Some(SinkError(i, StoreFault)))
  {
    var before := Run(t, rs, HandleAt(Some(i)), i).table;
    assert HandleAt(Some(i))(before, rs[i], i) == Err(SinkError(i, StoreFault));
    RunStopsAt(t, rs, HandleAt(Some(i)), i, before, SinkError(i, StoreFault));
  }

  /** The six metadata keys the INSERT reads from the parsed file (the image comes from the image file). */
  predicate HasMetadataKeys(fields: map<string, Value>) {
    && "prompt" in fields && "seed" in fields && "target" in fields
    && "cfg_scale" in fields && "ddim_steps" in fields && "sampler_name" in fields
  }

  /** The row built from a merged record: keyed by the file name's stem, holding the parsed values and the image. */
  lemma MergedRecordRow(rec: Record, fields: map<string, Value>, name: string, image: seq<Byte>)
    requires IsMerge(rec, fields, name, image)
    ensures RecordKey(rec) == Ok(Stem(name))
    ensures BuildRow(Stem(name), rec).Ok? <==> HasMetadataKeys(fields)
    ensures BuildRow(Stem(name), rec).Ok? ==>
              BuildRow(Stem(name), rec).value == Row(Stem(name), fields["prompt"], AiApp, fields["seed"], Blob(image),
                                                     fields["target"], fields["cfg_scale"], fields["ddim_steps"],
                                                     fields["sampler_name"])
  {
    assert "filename" in rec && "image" in rec;
    assert HasInsertedKeys(rec) <==> HasMetadataKeys(fields) by {
      assert "prompt" in rec <==> "prompt" in fields;
      assert "seed" in rec <==> "seed" in fields;
      assert "target" in rec <==> "target" in fields;
      assert "cfg_scale" in rec <==> "cfg_scale" in fields;
      assert "ddim_steps" in rec <==> "ddim_steps" in fields;
      assert "sampler_name" in rec <==> "sampler_name" in fields;
    }
    var row := BuildRow(Stem(name), rec);
    if row.Ok? {
      assert rec["prompt"] == fields["prompt"] && rec["seed"] == fields["seed"] && rec["target"] == fields["target"];
      assert rec["cfg_scale"] == fields["cfg_scale"] && rec["ddim_steps"] == fields["ddim_steps"];
      assert rec["sampler_name"] == fields["sampler_name"];
    }
  }

  /**
    From metadata file to row: the record process_file builds is keyed by the
    file name's stem, and its row can be built exactly when the parsed mapping
    has the six metadata keys the INSERT reads; the row then carries the parsed
    values and the matched image bytes. A missing key is therefore noticed only
    here, not when the file is parsed.
  */
  lemma ProcessedRecordRow(dirFiles: seq<Entry>, file: Entry, load: Loader)
    requires ProcessFile(dirFiles, file, load).Ok?
    ensures var rec := ProcessFile(dirFiles, file, load).value[0];
            RecordKey(rec) == Ok(Stem(file.name))
    ensures var rec := ProcessFile(dirFiles, file, load).value[0];
            var fields := load(file.contents).fields;
            BuildRow(Stem(file.name), rec).Ok? <==> HasMetadataKeys(fields)
    ensures var rec := ProcessFile(dirFiles, file, load).value[0];
            var fields := load(file.contents).fields;
            var row := BuildRow(Stem(file.name), rec);
            row.Ok? ==>
              && HasMetadataKeys(fields)
              && row.value.filename == Stem(file.name)
              && row.value.image == Blob(GetImage(BatchId(file.name), dirFiles).value)
              && row.value.prompt == fields["prompt"]
              && row.value.seed == fields["seed"]
              && row.value.kind == fields["target"]
              && row.value.cfgScale == fields["cfg_scale"]
              && row.value.samplingSteps == fields["ddim_steps"]
              && row.value.samplerName == fields["sampler_name"]
  {
    MergedRecordRow(ProcessFile(dirFiles, file, load).value[0], load(file.contents).fields, file.name,
                    GetImage(BatchId(file.name), dirFiles).value);
  }
}
