/**
 The upload status tracker of the invoice drop zone. The tracker holds a list of upload entries
 and a busy flag; the list changes only by appending one entry when a file starts, by updates
 that rewrite the entries of one file, and by removing every entry of one file. Each
 `setUploadedFiles` / `setIsUploading` call is an `Event`; the timers between them are not
 modelled, only the order in which the updates happen.
 */
module Upload {
  import opened Wrappers
  import opened Invoices

  /** The identity of a browser `File` object: entries belong to the same file iff these are equal. */
  type FileRef = nat

  datatype Status = Pending | Uploading | Processing | Completed | Error

  /** One entry of the tracked list. `progress` is a percentage. */
  datatype UploadStatus = UploadStatus(
    file: FileRef,
    progress: int,
    status: Status,
    error: Option<string>,
    result: Option<OcrResult>)

  /** The message an entry carries after its processing threw. */
  const ErrorMessage: string := "處理檔案時發生錯誤"

  /** The entry appended when a file starts: progress 0, already uploading. */
  function NewUpload(f: FileRef): UploadStatus {
    UploadStatus(f, 0, Uploading, None, None)
  }

  /** The rewrite one `map` update applies to every entry of the processed file. */
  datatype Patch = SetProgress(progress: int) | MarkCompleted(result: OcrResult) | MarkFailed(message: string)

  function Patched(u: UploadStatus, p: Patch): UploadStatus {
    match p
    case SetProgress(n) => u.(progress := n, status := if n == 100 then Processing else Uploading)
    case MarkCompleted(r) => u.(status := Completed, result := Some(r))
    case MarkFailed(m) => u.(status := Error, error := Some(m))
  }

  predicate HasFile(s: seq<UploadStatus>, f: FileRef) {
    exists i :: 0 <= i < |s| && s[i].file == f
  }

  /** `prev.map(upload => upload.file === f ? patched : upload)`. */
  function Updated(s: seq<UploadStatus>, f: FileRef, p: Patch): (t: seq<UploadStatus>)
    ensures |t| == |s|
    ensures forall i :: 0 <= i < |s| ==> t[i].file == s[i].file
    ensures forall i :: 0 <= i < |s| && s[i].file != f ==> t[i] == s[i]
    ensures forall i :: 0 <= i < |s| && s[i].file == f ==> t[i] == Patched(s[i], p)
  {
    if |s| == 0 then []
    else [if s[0].file == f then Patched(s[0], p) else s[0]] + Updated(s[1..], f, p)
  }

  /** `prev.filter(upload => upload.file !== f)`. */
  function Removed(s: seq<UploadStatus>, f: FileRef): (t: seq<UploadStatus>)
    ensures |t| <= |s|
    ensures !HasFile(t, f)
    ensures forall u :: u in t <==> u in s && u.file != f
  {
    if |s| == 0 then []
    else if s[0].file == f then Removed(s[1..], f)
    else [s[0]] + Removed(s[1..], f)
  }

  /** Removal keeps the surviving entries in their order: it distributes over concatenation. */
  lemma {:induction false} RemovedAppend(a: seq<UploadStatus>, b: seq<UploadStatus>, f: FileRef)
    ensures Removed(a + b, f) == Removed(a, f) + Removed(b, f)
  {
    if |a| > 0 {
      var ab := a + b;
      assert ab[0] == a[0] && ab[1..] == a[1..] + b;
      RemovedAppend(a[1..], b, f);
      var rest := Removed(a[1..], f) + Removed(b, f);
      if a[0].file == f {
        assert Removed(ab, f) == rest;
        assert Removed(a, f) == Removed(a[1..], f);
      } else {
        assert Removed(ab, f) == [a[0]] + rest;
        assert Removed(a, f) == [a[0]] + Removed(a[1..], f);
        assert [a[0]] + rest == [a[0]] + Removed(a[1..], f) + Removed(b, f);
      }
    } else {
      assert a + b == b;
    }
  }

  /** Removing a file that has no entry leaves the list as it was. */
  lemma {:induction false} RemovedAbsent(s: seq<UploadStatus>, f: FileRef)
    requires !HasFile(s, f)
    ensures Removed(s, f) == s
  {
    if |s| > 0 {
      assert !HasFile(s[1..], f);
      RemovedAbsent(s[1..], f);
      assert [s[0]] + s[1..] == s;
    }
  }

  /** The drop zone's state: the entry list and the `isUploading` flag. */
  datatype Tracker = Tracker(uploads: seq<UploadStatus>, busy: bool)

  /** One state update, as the component issues it. */
  datatype Event =
    | Add(file: FileRef)
    | Change(file: FileRef, patch: Patch)
    | Delete(file: FileRef)
    | SetBusy(busy: bool)

  function Step(tr: Tracker, e: Event): Tracker {
    match e
    case Add(f) => tr.(uploads := tr.uploads + [NewUpload(f)])
    case Change(f, p) => tr.(uploads := Updated(tr.uploads, f, p))
    case Delete(f) => tr.(uploads := Removed(tr.uploads, f))
    case SetBusy(b) => tr.(busy := b)
  }

  /** The state after the events `es`, applied in order. */
  function Run(tr: Tracker, es: seq<Event>): Tracker
    decreases |es|
  {
    if |es| == 0 then tr else Step(Run(tr, es[..|es| - 1]), es[|es| - 1])
  }

  /** Running two event lists one after the other is running their concatenation. */
  lemma {:induction false} RunAppend(tr: Tracker, a: seq<Event>, b: seq<Event>)
    ensures Run(tr, a + b) == Run(Run(tr, a), b)
    decreases |b|
  {
    if |b| == 0 {
      assert a + b == a;
    } else {
      assert (a + b)[..|a + b| - 1] == a + b[..|b| - 1];
      RunAppend(tr, a, b[..|b| - 1]);
    }
  }

  /** Because every event after a removal only maps or filters, a removed file never reappears
      unless the file is added again. */
  lemma {:induction false} RemovedStaysRemoved(tr: Tracker, es: seq<Event>, f: FileRef)
    requires !HasFile(tr.uploads, f)
    requires forall i :: 0 <= i < |es| ==> es[i] != Add(f)
    ensures !HasFile(Run(tr, es).uploads, f)
    decreases |es|
  {
    if |es| > 0 {
      RemovedStaysRemoved(tr, es[..|es| - 1], f);
    }
  }

  /** Deleting a file and then applying events that never add it leaves the file absent. */
  lemma RemovalIsFinal(tr: Tracker, f: FileRef, rest: seq<Event>)
    requires forall i :: 0 <= i < |rest| ==> rest[i] != Add(f)
    ensures !HasFile(Run(Step(tr, Delete(f)), rest).uploads, f)
  {
    RemovedStaysRemoved(Step(tr, Delete(f)), rest, f);
  }

  // ---------------------------------------------------------------------------------------------
  // One file's processing

  /** The result the simulated OCR attaches; `fileId` is the random id drawn for the file and
      `today` the ISO date of the day. */
  function MockOcrResult(fileId: string, today: string): OcrResult {
    OcrResult(
      "INV-" + fileId,
      today,
      Party("範例公司有限公司", "12345678", "台北市信義區信義路五段7號"),
      None,
      [LineItem("商品A", 2.0, 1000.0, 2000.0), LineItem("商品B", 1.0, 500.0, 500.0)],
      2500.0,
      125.0,
      0.95)
  }

  /** The value of the i-th progress update: 0, 10, ..., 100. */
  function ProgressAt(i: nat): (p: int)
    ensures p % 10 == 0 && p >= 0
  {
    10 * i
  }

  /** The number of progress updates one file makes. */
  const ProgressUpdates: nat := 11

  /** The updates made while a file's processing runs without throwing: the append, eleven
      progress updates and the completion. */
  function NominalEvents(f: FileRef, r: OcrResult): (es: seq<Event>)
    ensures |es| == ProgressUpdates + 2
  {
    [Add(f)]
    + seq(ProgressUpdates, i requires 0 <= i < ProgressUpdates => Change(f, SetProgress(ProgressAt(i))))
    + [Change(f, MarkCompleted(r))]
  }

  /** How many of the thirteen nominal updates had been made when the processing threw. Nothing
      can throw after the completion update, so at most twelve. */
  type ThrowPoint = k: nat | k <= ProgressUpdates + 1

  datatype Outcome = Completes | Throws(after: ThrowPoint)

  /** One accepted file of a drop with what happens to it: its outcome, and the random id and
      date its mock result is built from. */
  datatype Dropped = Dropped(file: FileRef, outcome: Outcome, fileId: string, today: string)

  function ResultOf(d: Dropped): OcrResult {
    MockOcrResult(d.fileId, d.today)
  }

  /** The updates one file causes: `simulateOCRProcessing`, then on a throw the `catch` update. */
  function FileEvents(d: Dropped): seq<Event> {
    var nominal := NominalEvents(d.file, ResultOf(d));
    match d.outcome
    case Completes => nominal
    case Throws(k) => nominal[..k] + [Change(d.file, MarkFailed(ErrorMessage))]
  }

  /** Apart from the first one, a file's updates never add an entry. */
  lemma FileEventsAddOnlyFirst(d: Dropped)
    ensures forall i :: 1 <= i < |FileEvents(d)| ==> !FileEvents(d)[i].Add?
    ensures forall i :: 0 <= i < |FileEvents(d)| ==> FileEvents(d)[i].file == d.file
    ensures forall i :: 0 <= i < |FileEvents(d)| ==> !FileEvents(d)[i].SetBusy? && !FileEvents(d)[i].Delete?
  {
  }

  /** A well-formed entry: never pending, progress a multiple of ten in [0, 100], uploading
      strictly below 100 and processing or completed exactly at 100, a result iff completed,
      an error message iff failed. */
  predicate Valid(u: UploadStatus) {
    && u.status != Pending
    && 0 <= u.progress <= 100 && u.progress % 10 == 0
    && (u.status == Uploading ==> u.progress < 100)
    && (u.status == Processing ==> u.progress == 100)
    && (u.status == Completed ==> u.progress == 100)
    && (u.result.Some? <==> u.status == Completed)
    && (u.error.Some? <==> u.status == Error)
  }

  /** Where a status stands in the lifecycle uploading -> processing -> completed / error. */
  function Rank(s: Status): nat {
    match s
    case Pending => 0
    case Uploading => 1
    case Processing => 2
    case Completed => 3
    case Error => 3
  }

  /** The entry of a file after the first k nominal updates (1 <= k), in closed form. */
  function NominalEntry(f: FileRef, r: OcrResult, k: nat): UploadStatus
    requires 1 <= k <= ProgressUpdates + 2
  {
    if k == 1 then NewUpload(f)
    else if k <= ProgressUpdates + 1 then
      UploadStatus(f, ProgressAt(k - 2), if k == ProgressUpdates + 1 then Processing else Uploading, None, None)
    else UploadStatus(f, 100, Completed, None, Some(r))
  }

  /** What a failed entry looks like: its state when the exception hit, marked as an error. */
  function Failed(u: UploadStatus): UploadStatus {
    Patched(u, MarkFailed(ErrorMessage))
  }

  /** The entries a file leaves behind when it is processed on its own: the completed entry, the
      failed entry, or nothing when it threw before its entry was appended. */
  function FinalEntries(d: Dropped): seq<UploadStatus> {
    match d.outcome
    case Completes => [NominalEntry(d.file, ResultOf(d), ProgressUpdates + 2)]
    case Throws(k) => if k == 0 then [] else [Failed(NominalEntry(d.file, ResultOf(d), k))]
  }

  /** The file's processing starts by appending its entry, unless it threw before that. */
  predicate StartsEntry(d: Dropped) {
    !(d.outcome.Throws? && d.outcome.after == 0)
  }

  /** The entry of a file after the first k of its updates (1 <= k), while the file is processed. */
  function EntryAfter(d: Dropped, k: nat): UploadStatus
    requires StartsEntry(d)
    requires 1 <= k <= |FileEvents(d)|
  {
    match d.outcome
    case Completes => NominalEntry(d.file, ResultOf(d), k)
    case Throws(t) =>
      if k <= t then NominalEntry(d.file, ResultOf(d), k) else Failed(NominalEntry(d.file, ResultOf(d), t))
  }

  /** Every state an entry passes through is well formed, in particular never 'pending'. */
  lemma EntriesAreValid(d: Dropped, k: nat)
    requires StartsEntry(d)
    requires 1 <= k <= |FileEvents(d)|
    ensures Valid(EntryAfter(d, k))
  {
  }

  /** Along one file's updates the progress never decreases and the status only moves forward;
      a completed entry has progress exactly 100. */
  lemma LifecycleMonotone(d: Dropped, j: nat, k: nat)
    requires StartsEntry(d)
    requires 1 <= j <= k <= |FileEvents(d)|
    ensures EntryAfter(d, j).progress <= EntryAfter(d, k).progress
    ensures Rank(EntryAfter(d, j).status) <= Rank(EntryAfter(d, k).status)
  {
  }

  /** The progress updates carry 0, 10, ..., 100 in strictly increasing order; the entry is
      'uploading' while below 100 and becomes 'processing' exactly at 100. */
  lemma ProgressSchedule(i: nat, j: nat, u: UploadStatus)
    requires i < j < ProgressUpdates
    ensures ProgressAt(0) == 0 && ProgressAt(ProgressUpdates - 1) == 100
    ensures ProgressAt(i) < ProgressAt(j) <= 100
    ensures Patched(u, SetProgress(ProgressAt(i))).status == Uploading
    ensures Patched(u, SetProgress(ProgressAt(ProgressUpdates - 1))).status == Processing
  {
  }

  /** Completion marks the entry completed with its result and keeps its file and progress. */
  lemma CompletionKeepsFileAndProgress(u: UploadStatus, r: OcrResult)
    ensures Patched(u, MarkCompleted(r)).file == u.file
    ensures Patched(u, MarkCompleted(r)).progress == u.progress
    ensures Patched(u, MarkCompleted(r)).status == Completed
    ensures Patched(u, MarkCompleted(r)).result == Some(r)
  {
  }

  /** The patches carried by a list of `Change` events. */
  function PatchesOf(es: seq<Event>): (ps: seq<Patch>)
    requires forall i :: 0 <= i < |es| ==> es[i].Change?
    ensures |ps| == |es|
  {
    seq(|es|, i requires 0 <= i < |es| => es[i].patch)
  }

  /** The patches applied in order to one entry. */
  function ApplyAll(u: UploadStatus, ps: seq<Patch>): (v: UploadStatus)
    ensures v.file == u.file
    decreases |ps|
  {
    if |ps| == 0 then u else Patched(ApplyAll(u, ps[..|ps| - 1]), ps[|ps| - 1])
  }

  /** Updating a list whose only entry of `f` is the last one rewrites that entry alone. */
  lemma UpdatedLast(s: seq<UploadStatus>, u: UploadStatus, f: FileRef, p: Patch)
    requires !HasFile(s, f) && u.file == f
    ensures Updated(s + [u], f, p) == s + [Patched(u, p)]
  {
    var t := Updated(s + [u], f, p);
    forall i | 0 <= i < |s| ensures t[i] == s[i] {
      assert (s + [u])[i] == s[i];
    }
  }

  /** Updating a list without entries of `f` changes nothing. */
  lemma UpdatedAbsent(s: seq<UploadStatus>, f: FileRef, p: Patch)
    requires !HasFile(s, f)
    ensures Updated(s, f, p) == s
  {
  }

  /** Changes of a file whose only entry is the last one rewrite that entry and nothing else. */
  lemma {:induction false} RunChanges(s: seq<UploadStatus>, u: UploadStatus, b: bool, es: seq<Event>)
    requires !HasFile(s, u.file)
    requires forall i :: 0 <= i < |es| ==> es[i].Change? && es[i].file == u.file
    ensures Run(Tracker(s + [u], b), es) == Tracker(s + [ApplyAll(u, PatchesOf(es))], b)
    decreases |es|
  {
    if |es| > 0 {
      var init := es[..|es| - 1];
      RunChanges(s, u, b, init);
      assert PatchesOf(es)[..|es| - 1] == PatchesOf(init);
      var v := ApplyAll(u, PatchesOf(init));
      UpdatedLast(s, v, u.file, es[|es| - 1].patch);
    }
  }

  /** The closed form of the entry after the first k nominal updates. */
  lemma {:induction false} NominalPrefix(f: FileRef, r: OcrResult, k: nat)
    requires 1 <= k <= ProgressUpdates + 2
    ensures forall i :: 0 <= i < k - 1 ==> NominalEvents(f, r)[1..k][i].Change?
    ensures ApplyAll(NewUpload(f), PatchesOf(NominalEvents(f, r)[1..k])) == NominalEntry(f, r, k)
  {
    var es := NominalEvents(f, r);
    if k > 1 {
      NominalPrefix(f, r, k - 1);
      NominalEvent(f, r, k - 1);
      assert es[1..k] == es[1..k - 1] + [es[k - 1]];
      ChangesAppend(es[1..k - 1], es[k - 1], es[1..k]);
    } else {
      assert PatchesOf(es[1..k]) == [];
    }
  }

  /** The i-th nominal update (after the append): a progress update, or at the end the completion. */
  lemma NominalEvent(f: FileRef, r: OcrResult, i: nat)
    requires 1 <= i <= ProgressUpdates + 1
    ensures NominalEvents(f, r)[i] ==
      if i <= ProgressUpdates then Change(f, SetProgress(ProgressAt(i - 1))) else Change(f, MarkCompleted(r))
  {
  }

  /** Appending a change appends its patch. */
  lemma ChangesAppend(es: seq<Event>, e: Event, all: seq<Event>)
    requires forall i :: 0 <= i < |es| ==> es[i].Change?
    requires e.Change? && all == es + [e]
    ensures forall i :: 0 <= i < |all| ==> all[i].Change?
    ensures PatchesOf(all) == PatchesOf(es) + [e.patch]
  {
  }

  /** After its first update, a file's updates are changes of that file which take its new
      entry through the states `EntryAfter` describes. */
  lemma FileChanges(d: Dropped, k: nat)
    requires StartsEntry(d)
    requires 1 <= k <= |FileEvents(d)|
    ensures FileEvents(d)[0] == Add(d.file)
    ensures forall i :: 0 <= i < k - 1 ==> FileEvents(d)[1..k][i].Change? && FileEvents(d)[1..k][i].file == d.file
    ensures ApplyAll(NewUpload(d.file), PatchesOf(FileEvents(d)[1..k])) == EntryAfter(d, k)
  {
    FileEventsAddOnlyFirst(d);
    var nominal := NominalEvents(d.file, ResultOf(d));
    match d.outcome
    case Completes =>
      NominalPrefix(d.file, ResultOf(d), k);
    case Throws(t) =>
      if k <= t {
        assert FileEvents(d)[1..k] == nominal[1..k];
        NominalPrefix(d.file, ResultOf(d), k);
      } else {
        ThrownChanges(d, t);
      }
  }

  /** A file that threw after t updates: its updates end with the failure, which marks the entry
      it had reached. */
  lemma ThrownChanges(d: Dropped, t: ThrowPoint)
    requires d.outcome == Throws(t) && t >= 1
    ensures |FileEvents(d)| == t + 1
    ensures forall i :: 1 <= i < |FileEvents(d)| ==> FileEvents(d)[i].Change?
    ensures ApplyAll(NewUpload(d.file), PatchesOf(FileEvents(d)[1..t + 1]))
      == Failed(NominalEntry(d.file, ResultOf(d), t))
  {
    var es := FileEvents(d);
    var nominal := NominalEvents(d.file, ResultOf(d));
    NominalPrefix(d.file, ResultOf(d), t);
    var e := Change(d.file, MarkFailed(ErrorMessage));
    assert es[1..t + 1] == nominal[1..t] + [e];
    ChangesAppend(nominal[1..t], e, es[1..t + 1]);
  }

  /** The state after the first k updates of a file that had no entry before: the list gains the
      file's one entry, in its current state, at the end, and nothing else changes. */
  lemma RunFilePrefix(tr: Tracker, d: Dropped, k: nat)
    requires !HasFile(tr.uploads, d.file)
    requires StartsEntry(d)
    requires 1 <= k <= |FileEvents(d)|
    ensures Run(tr, FileEvents(d)[..k]) == Tracker(tr.uploads + [EntryAfter(d, k)], tr.busy)
  {
    var es := FileEvents(d);
    var f := d.file;
    FileChanges(d, k);
    var changes := es[1..k];
    assert es[..k] == [Add(f)] + changes;
    RunAppend(tr, [Add(f)], changes);
    assert Run(tr, [Add(f)]) == Tracker(tr.uploads + [NewUpload(f)], tr.busy) by {
      assert [Add(f)][..0] == [];
    }
    RunChanges(tr.uploads, NewUpload(f), tr.busy, changes);
  }

  /** Processing a file that had no entry appends exactly its final entries at the end and leaves
      every earlier entry and the busy flag unchanged. */
  lemma RunFile(tr: Tracker, d: Dropped)
    requires !HasFile(tr.uploads, d.file)
    ensures Run(tr, FileEvents(d)) == Tracker(tr.uploads + FinalEntries(d), tr.busy)
  {
    var es := FileEvents(d);
    if !StartsEntry(d) {
      assert es == [Change(d.file, MarkFailed(ErrorMessage))];
      assert es[..0] == [];
      UpdatedAbsent(tr.uploads, d.file, MarkFailed(ErrorMessage));
    } else {
      RunFilePrefix(tr, d, |es|);
      assert es[..|es|] == es;
    }
  }

  // ---------------------------------------------------------------------------------------------
  // A whole drop

  /** The updates caused by the files of one drop, processed one after another. */
  function FilesEvents(ds: seq<Dropped>): seq<Event>
    decreases |ds|
  {
    if |ds| == 0 then [] else FilesEvents(ds[..|ds| - 1]) + FileEvents(ds[|ds| - 1])
  }

  /** `onDrop`: the busy flag is raised, every file is processed in order, the flag is lowered. */
  function DropEvents(ds: seq<Dropped>): seq<Event> {
    [SetBusy(true)] + FilesEvents(ds) + [SetBusy(false)]
  }

  function FinalsOf(ds: seq<Dropped>): seq<UploadStatus>
    decreases |ds|
  {
    if |ds| == 0 then [] else FinalsOf(ds[..|ds| - 1]) + FinalEntries(ds[|ds| - 1])
  }

  /** The files of a drop are distinct from each other and from every file already listed. */
  predicate FreshDrop(s: seq<UploadStatus>, ds: seq<Dropped>) {
    && (forall i :: 0 <= i < |ds| ==> !HasFile(s, ds[i].file))
    && (forall i, j :: 0 <= i < j < |ds| ==> ds[i].file != ds[j].file)
  }

  /** Every final entry belongs to one of the drop's files. */
  lemma FinalsFiles(ds: seq<Dropped>, f: FileRef)
    requires forall i :: 0 <= i < |ds| ==> ds[i].file != f
    ensures !HasFile(FinalsOf(ds), f)
    decreases |ds|
  {
    if |ds| > 0 {
      FinalsFiles(ds[..|ds| - 1], f);
    }
  }

  /** Processing a drop of fresh, distinct files appends their final entries in drop order and
      changes nothing else. */
  lemma {:induction false} RunFiles(tr: Tracker, ds: seq<Dropped>)
    requires FreshDrop(tr.uploads, ds)
    ensures Run(tr, FilesEvents(ds)) == Tracker(tr.uploads + FinalsOf(ds), tr.busy)
    decreases |ds|
  {
    if |ds| > 0 {
      var init := ds[..|ds| - 1];
      var d := ds[|ds| - 1];
      FreshDropInit(tr.uploads, ds, init);
      RunFiles(tr, init);
      assert FilesEvents(ds) == FilesEvents(init) + FileEvents(d);
      RunAppend(tr, FilesEvents(init), FileEvents(d));
      var mid := Run(tr, FilesEvents(init));
      FinalsFiles(init, d.file);
      NoFileInEither(tr.uploads, FinalsOf(init), d.file);
      RunFile(mid, d);
      assert FinalsOf(ds) == FinalsOf(init) + FinalEntries(d);
      assert tr.uploads + FinalsOf(init) + FinalEntries(d) == tr.uploads + FinalsOf(ds);
    }
  }

  /** A fresh drop without its last file is fresh, and the last file is none of the others. */
  lemma FreshDropInit(s: seq<UploadStatus>, ds: seq<Dropped>, init: seq<Dropped>)
    requires |ds| > 0 && FreshDrop(s, ds) && init == ds[..|ds| - 1]
    ensures FreshDrop(s, init)
    ensures forall i :: 0 <= i < |init| ==> init[i].file != ds[|ds| - 1].file
    ensures !HasFile(s, ds[|ds| - 1].file)
  {
    assert forall i :: 0 <= i < |init| ==> init[i] == ds[i];
  }

  /** A file with no entry in either list has none in their concatenation. */
  lemma NoFileInEither(a: seq<UploadStatus>, b: seq<UploadStatus>, f: FileRef)
    requires !HasFile(a, f) && !HasFile(b, f)
    ensures !HasFile(a + b, f)
  {
    forall i | 0 <= i < |a + b| ensures (a + b)[i].file != f {
      if i >= |a| {
        assert (a + b)[i] == b[i - |a|];
      }
    }
  }

  /** Every entry a drop leaves behind is well formed. */
  lemma {:induction false} FinalsValid(ds: seq<Dropped>)
    ensures forall i :: 0 <= i < |FinalsOf(ds)| ==> Valid(FinalsOf(ds)[i])
    decreases |ds|
  {
    if |ds| > 0 {
      FinalsValid(ds[..|ds| - 1]);
    }
  }

  /** A drop of fresh files leaves the earlier entries untouched, appends the files' entries in
      drop order, all well formed, and ends with `isUploading` false. */
  lemma DropOutcome(tr: Tracker, ds: seq<Dropped>)
    requires FreshDrop(tr.uploads, ds)
    ensures Run(tr, DropEvents(ds)) == Tracker(tr.uploads + FinalsOf(ds), false)
    ensures forall i :: |tr.uploads| <= i < |Run(tr, DropEvents(ds)).uploads| ==>
      Valid(Run(tr, DropEvents(ds)).uploads[i])
  {
    DropFrame(tr, ds);
    RunFiles(Step(tr, SetBusy(true)), ds);
    FinalsValid(ds);
  }

  /** None of the per-file updates touches the busy flag. */
  lemma {:induction false} FilesEventsNoBusy(ds: seq<Dropped>)
    ensures forall i :: 0 <= i < |FilesEvents(ds)| ==> !FilesEvents(ds)[i].SetBusy?
    decreases |ds|
  {
    if |ds| > 0 {
      FilesEventsNoBusy(ds[..|ds| - 1]);
      FileEventsAddOnlyFirst(ds[|ds| - 1]);
    }
  }

  /** A drop adds entries only for its own files. */
  lemma {:induction false} FilesEventsNoAdd(ds: seq<Dropped>, f: FileRef)
    requires forall j :: 0 <= j < |ds| ==> ds[j].file != f
    ensures forall i :: 0 <= i < |FilesEvents(ds)| ==> FilesEvents(ds)[i] != Add(f)
    decreases |ds|
  {
    if |ds| > 0 {
      FilesEventsNoAdd(ds[..|ds| - 1], f);
      FileEventsAddOnlyFirst(ds[|ds| - 1]);
    }
  }

  /** Events that do not touch the busy flag leave it as it was. */
  lemma {:induction false} BusyUnchanged(tr: Tracker, es: seq<Event>)
    requires forall i :: 0 <= i < |es| ==> !es[i].SetBusy?
    ensures Run(tr, es).busy == tr.busy
    decreases |es|
  {
    if |es| > 0 {
      BusyUnchanged(tr, es[..|es| - 1]);
    }
  }

  /** `isUploading` is true in every state strictly inside a drop's processing and false after it. */
  lemma BusyDuringDrop(tr: Tracker, ds: seq<Dropped>, k: nat)
    requires 1 <= k < |DropEvents(ds)|
    ensures Run(tr, DropEvents(ds)[..k]).busy
    ensures !Run(tr, DropEvents(ds)).busy
  {
    var es := DropEvents(ds);
    var middle := es[1..k];
    assert es[..k] == [SetBusy(true)] + middle;
    RunAppend(tr, [SetBusy(true)], middle);
    assert Run(tr, [SetBusy(true)]).busy by {
      assert [SetBusy(true)][..0] == [];
    }
    MiddleNoBusy(ds, k);
    BusyUnchanged(Run(tr, [SetBusy(true)]), middle);
  }

  /** Strictly inside a drop, no update touches the busy flag. */
  lemma MiddleNoBusy(ds: seq<Dropped>, k: nat)
    requires 1 <= k < |DropEvents(ds)|
    ensures forall i :: 0 <= i < k - 1 ==> !DropEvents(ds)[1..k][i].SetBusy?
  {
    FilesEventsNoBusy(ds);
    var fs := FilesEvents(ds);
    assert DropEvents(ds) == [SetBusy(true)] + fs + [SetBusy(false)];
    assert DropEvents(ds)[1..k] == fs[..k - 1];
  }

  /** A file the user removes is never brought back by a later drop that does not contain it:
      the resurrection the timers might seem to allow cannot happen. */
  lemma DropNeverResurrects(tr: Tracker, f: FileRef, ds: seq<Dropped>)
    requires forall j :: 0 <= j < |ds| ==> ds[j].file != f
    ensures !HasFile(Run(Step(tr, Delete(f)), DropEvents(ds)).uploads, f)
  {
    DropAddsOnlyOwn(ds, f);
    RemovalIsFinal(tr, f, DropEvents(ds));
  }

  /** A drop adds no entry for a file it does not contain. */
  lemma DropAddsOnlyOwn(ds: seq<Dropped>, f: FileRef)
    requires forall j :: 0 <= j < |ds| ==> ds[j].file != f
    ensures forall i :: 0 <= i < |DropEvents(ds)| ==> DropEvents(ds)[i] != Add(f)
  {
    FilesEventsNoAdd(ds, f);
    var es := DropEvents(ds);
    forall i | 0 <= i < |es| ensures es[i] != Add(f) {
      if 1 <= i < |es| - 1 {
        assert es[i] == FilesEvents(ds)[i - 1];
      }
    }
  }

  /** Removing a file while its own processing is still running is final too: every update that
      follows its first one only maps over the list. */
  lemma RemovalDuringProcessing(tr: Tracker, d: Dropped, k: nat)
    requires 1 <= k <= |FileEvents(d)|
    ensures !HasFile(Run(Step(Run(tr, FileEvents(d)[..k]), Delete(d.file)), FileEvents(d)[k..]).uploads, d.file)
  {
    FileEventsAddOnlyFirst(d);
    var rest := FileEvents(d)[k..];
    assert forall i :: 0 <= i < |rest| ==> rest[i] == FileEvents(d)[k + i];
    RemovalIsFinal(Run(tr, FileEvents(d)[..k]), d.file, rest);
  }

  // ---------------------------------------------------------------------------------------------
  // The component's code paths, as methods

  /** `simulateOCRProcessing` when nothing throws: append the entry, step the progress from 0 to
      100 by 10, then attach the result. */
  method SimulateOcrProcessing(tr: Tracker, f: FileRef, fileId: string, today: string) returns (t: Tracker)
    ensures t == Run(tr, FileEvents(Dropped(f, Completes, fileId, today)))
    ensures !HasFile(tr.uploads, f) ==>
      t == Tracker(tr.uploads + [UploadStatus(f, 100, Completed, None, Some(MockOcrResult(fileId, today)))], tr.busy)
  {
    var d := Dropped(f, Completes, fileId, today);
    ghost var es := FileEvents(d);
    t := Step(tr, Add(f));
    assert t == Run(tr, es[..1]) by {
      assert es[..1][..0] == [];
    }
    var progress := 0;
    ghost var n := 0;
    while progress <= 100
      invariant 0 <= n <= ProgressUpdates && progress == ProgressAt(n)
      invariant t == Run(tr, es[..1 + n])
    {
      NominalEvent(f, MockOcrResult(fileId, today), 1 + n);
      RunPrefixStep(tr, es, 1 + n);
      t := Step(t, Change(f, SetProgress(progress)));
      progress := progress + 10;
      n := n + 1;
    }
    t := Step(t, Change(f, MarkCompleted(MockOcrResult(fileId, today))));
    assert es[..12] == es[..|es| - 1];
    assert es[..|es|] == es;
    if !HasFile(tr.uploads, f) {
      RunFile(tr, d);
    }
  }

  /** `onDrop`: raise the busy flag, process the accepted files strictly one after another (a file
      whose processing throws is marked as failed and the loop goes on), lower the flag. */
  method OnDrop(tr: Tracker, ds: seq<Dropped>) returns (t: Tracker)
    ensures t == Run(tr, DropEvents(ds))
    ensures !t.busy
    ensures FreshDrop(tr.uploads, ds) ==> t.uploads == tr.uploads + FinalsOf(ds)
  {
    var start := Step(tr, SetBusy(true));
    t := start;
    var i := 0;
    while i < |ds|
      invariant 0 <= i <= |ds|
      invariant t == Run(start, FilesEvents(ds[..i]))
    {
      NextFile(start, ds, i);
      t := ProcessFile(t, ds[i]);
      i := i + 1;
    }
    assert ds[..|ds|] == ds;
    t := Step(t, SetBusy(false));
    DropFrame(tr, ds);
    if FreshDrop(tr.uploads, ds) {
      DropOutcome(tr, ds);
    }
  }

  /** One iteration of the drop loop: the file's simulated processing, or, when it throws, the
      updates made before the throw followed by the `catch` block's failure mark. */
  method ProcessFile(tr: Tracker, d: Dropped) returns (t: Tracker)
    ensures t == Run(tr, FileEvents(d))
    ensures !HasFile(tr.uploads, d.file) ==> t == Tracker(tr.uploads + FinalEntries(d), tr.busy)
  {
    if d.outcome.Completes? {
      t := SimulateOcrProcessing(tr, d.file, d.fileId, d.today);
    } else {
      var nominal := NominalEvents(d.file, ResultOf(d));
      t := Run(tr, nominal[..d.outcome.after]);
      t := Step(t, Change(d.file, MarkFailed(ErrorMessage)));
      ThrownRun(tr, d);
    }
    if !HasFile(tr.uploads, d.file) {
      RunFile(tr, d);
    }
  }

  /** A file that throws: the updates made before the throw, then the `catch` block's failure mark. */
  lemma ThrownRun(tr: Tracker, d: Dropped)
    requires d.outcome.Throws?
    ensures Run(tr, FileEvents(d)) == Step(Run(tr, NominalEvents(d.file, ResultOf(d))[..d.outcome.after]),
                                           Change(d.file, MarkFailed(ErrorMessage)))
  {
    var before := NominalEvents(d.file, ResultOf(d))[..d.outcome.after];
    var fail := Change(d.file, MarkFailed(ErrorMessage));
    RunAppend(tr, before, [fail]);
    assert [fail][..0] == [];
  }

  /** Running one more update of a list is one more step. */
  lemma RunPrefixStep(tr: Tracker, es: seq<Event>, n: nat)
    requires n < |es|
    ensures Run(tr, es[..n + 1]) == Step(Run(tr, es[..n]), es[n])
  {
    assert es[..n + 1][..n] == es[..n];
  }

  /** Processing one more file of a drop runs that file's updates after the earlier files'. */
  lemma NextFile(start: Tracker, ds: seq<Dropped>, i: nat)
    requires i < |ds|
    ensures Run(start, FilesEvents(ds[..i + 1])) == Run(Run(start, FilesEvents(ds[..i])), FileEvents(ds[i]))
  {
    assert ds[..i + 1][..i] == ds[..i];
    RunAppend(start, FilesEvents(ds[..i]), FileEvents(ds[i]));
  }

  /** A drop is the busy flag raised, the files' updates, and the flag lowered. */
  lemma DropFrame(tr: Tracker, ds: seq<Dropped>)
    ensures Run(tr, DropEvents(ds)) == Step(Run(Step(tr, SetBusy(true)), FilesEvents(ds)), SetBusy(false))
  {
    assert Run(tr, [SetBusy(true)]) == Step(tr, SetBusy(true)) by {
      assert [SetBusy(true)][..0] == [];
    }
    RunAppend(tr, [SetBusy(true)], FilesEvents(ds));
    RunAppend(tr, [SetBusy(true)] + FilesEvents(ds), [SetBusy(false)]);
    assert Run(Run(tr, [SetBusy(true)] + FilesEvents(ds)), [SetBusy(false)])
        == Step(Run(tr, [SetBusy(true)] + FilesEvents(ds)), SetBusy(false)) by {
      assert [SetBusy(false)][..0] == [];
    }
  }

  /** `removeFile`: every entry of the file goes, the others stay in order. */
  function RemoveFile(tr: Tracker, f: FileRef): (t: Tracker)
    ensures !HasFile(t.uploads, f)
    ensures forall u :: u in t.uploads <==> u in tr.uploads && u.file != f
    ensures t.busy == tr.busy
    ensures !HasFile(tr.uploads, f) ==> t == tr
  {
    if !HasFile(tr.uploads, f) then
      RemovedAbsent(tr.uploads, f);
      Step(tr, Delete(f))
    else Step(tr, Delete(f))
  }

  /** The colour of an entry's status chip; anything but completed, failed or processing falls
      back on 'default'. */
  function StatusColor(s: Status): (c: string)
    ensures c == "default" <==> s == Pending || s == Uploading
    ensures c == "success" <==> s == Completed
    ensures c == "error" <==> s == Error
    ensures c == "info" <==> s == Processing
  {
    match s
    case Completed => "success"
    case Error => "error"
    case Processing => "info"
    case _ => "default"
  }

  /** The label of an entry's status chip. */
  function StatusLabel(s: Status): string {
    match s
    case Uploading => "上傳中"
    case Processing => "辨識中"
    case Completed => "完成"
    case Error => "錯誤"
    case Pending => "等待中"
  }

  /** Every status gets a label of its own, so the label always tells the status. */
  lemma StatusLabelInjective(a: Status, b: Status)
    requires StatusLabel(a) == StatusLabel(b)
    ensures a == b
  {
    assert StatusLabel(a)[0] == StatusLabel(b)[0];
  }

  /** The chip's colour follows the lifecycle: the statuses before the result share the default
      colour, and each later status (processing, completed, error) has a colour of its own; so
      two statuses share a colour iff both are pending or uploading, or they are the same. */
  lemma StatusColorSeparatesLaterStatuses(a: Status, b: Status)
    ensures StatusColor(a) == StatusColor(b) <==> a == b || (Rank(a) <= 1 && Rank(b) <= 1)
  {
  }
}
