/** The quote handler's bookkeeping while the multipart body is parsed
    (functions/index.js lines 157 and 174-195) and the cleanup in its
    `finally` block (lines 286-290).

    The parser itself is not modelled: its effect is the sequence of events it
    delivers before it settles, a text field (`busboy.on('field')`) or a staged
    file whose write stream has finished (`writeStream.on('finish')`), in the
    order the callbacks ran. */
module Staging {
  import opened RequiredFields

  /** A file received and written to scratch storage (`{originalname, path}`). */
  datatype StagedFile = StagedFile(originalName: string, path: string)

  datatype ParseEvent =
    | Field(name: string, value: string)
    | FileFinished(originalName: string, path: string)

  predicate IsFieldNamed(e: ParseEvent, name: string) {
    e.Field? && e.name == name
  }

  /** The `fields` object after the events: each field event overwrites. */
  function FieldsOf(events: seq<ParseEvent>): (fields: FieldMap) {
    if events == [] then map[]
    else
      var rest := FieldsOf(events[..|events| - 1]);
      match events[|events| - 1]
      case Field(name, value) => rest[name := value]
      case FileFinished(_, _) => rest
  }

  /** The `files` array after the events: one entry per finished write. */
  function FilesOf(events: seq<ParseEvent>): (files: seq<StagedFile>) {
    if events == [] then []
    else
      var rest := FilesOf(events[..|events| - 1]);
      match events[|events| - 1]
      case Field(_, _) => rest
      case FileFinished(originalName, path) => rest + [StagedFile(originalName, path)]
  }

  /** The `uploadedFiles` array after the events: the paths to delete. */
  function UploadedOf(events: seq<ParseEvent>): (uploaded: seq<string>) {
    if events == [] then []
    else
      var rest := UploadedOf(events[..|events| - 1]);
      match events[|events| - 1]
      case Field(_, _) => rest
      case FileFinished(_, path) => rest + [path]
  }

  /** `files` and `uploadedFiles` have the same length and the same path at
      every position. */
  predicate Lockstep(files: seq<StagedFile>, uploaded: seq<string>) {
    && |files| == |uploaded|
    && forall k :: 0 <= k < |files| ==> files[k].path == uploaded[k]
  }

  /** One more event: the three arrays are updated by that event alone. */
  lemma EventsSnoc(events: seq<ParseEvent>, e: ParseEvent)
    ensures FieldsOf(events + [e]) == if e.Field? then FieldsOf(events)[e.name := e.value] else FieldsOf(events)
    ensures FilesOf(events + [e]) == if e.Field? then FilesOf(events) else FilesOf(events) + [StagedFile(e.originalName, e.path)]
    ensures UploadedOf(events + [e]) == if e.Field? then UploadedOf(events) else UploadedOf(events) + [e.path]
  {
    assert (events + [e])[..|events|] == events;
  }

  /** The last event that sets a field decides its value. */
  lemma {:induction false} LastWriteWins(events: seq<ParseEvent>, name: string, k: nat)
    requires k < |events| && IsFieldNamed(events[k], name)
    requires forall j :: k < j < |events| ==> !IsFieldNamed(events[j], name)
    ensures name in FieldsOf(events) && FieldsOf(events)[name] == events[k].value
  {
    var init := events[..|events| - 1];
    if k < |events| - 1 {
      assert forall j :: k < j < |init| ==> init[j] == events[j];
      LastWriteWins(init, name, k);
    }
  }

  /** A field is in the map exactly when some event sent it. */
  lemma {:induction false} FieldSentIff(events: seq<ParseEvent>, name: string)
    ensures name in FieldsOf(events) <==> exists j :: 0 <= j < |events| && IsFieldNamed(events[j], name)
  {
    if events != [] {
      var init := events[..|events| - 1];
      FieldSentIff(init, name);
      if exists j :: 0 <= j < |init| && IsFieldNamed(init[j], name) {
        var j :| 0 <= j < |init| && IsFieldNamed(init[j], name);
        assert events[j] == init[j];
      }
      if exists j :: 0 <= j < |events| && IsFieldNamed(events[j], name) {
        var j :| 0 <= j < |events| && IsFieldNamed(events[j], name);
        if j < |init| {
          assert init[j] == events[j];
        }
      }
    }
  }

  /** The two arrays are pushed together, so they stay in lockstep. */
  lemma {:induction false} FilesLockstep(events: seq<ParseEvent>)
    ensures Lockstep(FilesOf(events), UploadedOf(events))
  {
    if events != [] {
      FilesLockstep(events[..|events| - 1]);
    }
  }

  /** Files are listed in the order their writes finished: the events of a
      later stretch come after those of an earlier one. */
  lemma {:induction false} FilesOfAppend(a: seq<ParseEvent>, b: seq<ParseEvent>)
    ensures FilesOf(a + b) == FilesOf(a) + FilesOf(b)
    ensures UploadedOf(a + b) == UploadedOf(a) + UploadedOf(b)
  {
    if b != [] {
      var ab := a + b;
      assert ab[..|ab| - 1] == a + b[..|b| - 1];
      FilesOfAppend(a, b[..|b| - 1]);
    } else {
      assert a + b == a;
    }
  }

  /** Every staged file comes from a finished-write event. */
  lemma {:induction false} FilesFromEvents(events: seq<ParseEvent>, f: StagedFile)
    requires f in FilesOf(events)
    ensures exists j :: 0 <= j < |events| && events[j] == FileFinished(f.originalName, f.path)
  {
    var init := events[..|events| - 1];
    if f in FilesOf(init) {
      FilesFromEvents(init, f);
      var j :| 0 <= j < |init| && init[j] == FileFinished(f.originalName, f.path);
      assert events[j] == init[j];
    } else {
      assert events[|events| - 1] == FileFinished(f.originalName, f.path);
    }
  }

  /** The objects a quote request fills in while it is parsed: `fields`,
      `files` and `uploadedFiles`. */
  class StagingArea {
    var fields: FieldMap
    var files: seq<StagedFile>
    var uploadedFiles: seq<string>

    ghost predicate Valid()
      reads this
    {
      Lockstep(files, uploadedFiles)
    }

    constructor ()
      ensures Valid()
      ensures fields == map[] && files == [] && uploadedFiles == []
    {
      fields, files, uploadedFiles := map[], [], [];
    }

    /** `busboy.on('field')`: `fields[fieldname] = value`. */
    method OnField(name: string, value: string)
      requires Valid()
      modifies this
      ensures Valid()
      ensures fields == old(fields)[name := value]
      ensures files == old(files) && uploadedFiles == old(uploadedFiles)
    {
      fields := fields[name := value];
    }

    /** `writeStream.on('finish')`: push onto `files` and `uploadedFiles`. */
    method OnFileFinished(originalName: string, path: string)
      requires Valid()
      modifies this
      ensures Valid()
      ensures files == old(files) + [StagedFile(originalName, path)]
      ensures uploadedFiles == old(uploadedFiles) + [path]
      ensures fields == old(fields)
    {
      files := files + [StagedFile(originalName, path)];
      uploadedFiles := uploadedFiles + [path];
    }

    /** Delivers the parser's events, in order, to a fresh staging area. */
    method Consume(events: seq<ParseEvent>)
      requires Valid()
      requires fields == map[] && files == [] && uploadedFiles == []
      modifies this
      ensures Valid()
      ensures fields == FieldsOf(events)
      ensures files == FilesOf(events)
      ensures uploadedFiles == UploadedOf(events)
    {
      var i := 0;
      while i < |events|
        invariant 0 <= i <= |events|
        invariant Valid()
        invariant fields == FieldsOf(events[..i])
        invariant files == FilesOf(events[..i])
        invariant uploadedFiles == UploadedOf(events[..i])
      {
        assert events[..i + 1][..i] == events[..i];
        match events[i] {
          case Field(name, value) => OnField(name, value);
          case FileFinished(originalName, path) => OnFileFinished(originalName, path);
        }
        i := i + 1;
      }
      assert events[..i] == events;
    }
  }

  /** The set of paths listed in `paths`. */
  function PathSet(paths: seq<string>): (r: set<string>)
    ensures forall p :: p in r <==> p in paths
  {
    set p | p in paths
  }

  /** Scratch storage after the cleanup loop: every listed path is gone,
      except one whose deletion threw (the error is swallowed), and no other
      path changes. */
  function AfterCleanup(disk: set<string>, uploaded: seq<string>, undeletable: set<string>): (after: set<string>)
    ensures after <= disk
    ensures forall p :: p in uploaded && p !in undeletable ==> p !in after
    ensures forall p :: p !in uploaded || p in undeletable ==> (p in after <==> p in disk)
  {
    disk - (PathSet(uploaded) - undeletable)
  }

  /** The `finally` block: for each staged path, delete it if it exists;
      a deletion that throws is caught and the loop goes on. Nothing escapes. */
  method Cleanup(disk: set<string>, uploaded: seq<string>, undeletable: set<string>) returns (after: set<string>)
    ensures after == AfterCleanup(disk, uploaded, undeletable)
  {
    after := disk;
    var i := 0;
    while i < |uploaded|
      invariant 0 <= i <= |uploaded|
      invariant after == disk - (PathSet(uploaded[..i]) - undeletable)
    {
      var f := uploaded[i];
      assert PathSet(uploaded[..i + 1]) == PathSet(uploaded[..i]) + {f} by {
        assert uploaded[..i + 1] == uploaded[..i] + [f];
      }
      if f in after {
        if f !in undeletable {
          after := after - {f};
        }
      }
      i := i + 1;
    }
    assert uploaded[..i] == uploaded;
  }

  /** Running the cleanup a second time changes nothing. */
  lemma CleanupIdempotent(disk: set<string>, uploaded: seq<string>, undeletable: set<string>)
    ensures AfterCleanup(AfterCleanup(disk, uploaded, undeletable), uploaded, undeletable)
         == AfterCleanup(disk, uploaded, undeletable)
  {
  }

  /** Deleting a path that is already absent is a no-op. */
  lemma CleanupAbsentIsNoop(disk: set<string>, path: string, undeletable: set<string>)
    requires path !in disk
    ensures AfterCleanup(disk, [path], undeletable) == disk
  {
  }

  /** When every deletion succeeds, staging then cleaning up leaves no staged
      file behind and every other path as it was. */
  lemma NoResidue(disk: set<string>, uploaded: seq<string>, undeletable: set<string>)
    requires forall p :: p in uploaded ==> p !in undeletable
    ensures AfterCleanup(disk + PathSet(uploaded), uploaded, undeletable) == disk - PathSet(uploaded)
  {
  }
}
