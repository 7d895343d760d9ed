/** The upload queue of the content-upload hook as values: the entries, the
    MIME classification, the list updates the hook applies through its state
    setter, and the rules that decide what the executor does. The hook object
    that owns this state is in module UploadHook. */
module UploadModel {
  import opened Externals
  import Content

  datatype UploadStatus = Queued | Uploading | Processing | Complete | Error | Cancelled

  /** A value handed out by the uuid generator. Ids are drawn from a counter,
      so two draws never give the same id. */
  type Uuid = nat

  /** The parts of a browser `File` the hook reads. */
  datatype FileInfo = FileInfo(name: string, size: nat, mimeType: string)

  datatype UploadItem = UploadItem(
    id: Uuid,
    file: FileInfo,
    progress: int,
    status: UploadStatus,
    error: Option<string>,
    contentId: Option<Uuid>)

  // ---------------------------------------------------------------------------
  // MIME classification
  // ---------------------------------------------------------------------------

  const TEXT_PREFIX := "text/"
  const AUDIO_PREFIX := "audio/"
  const VIDEO_PREFIX := "video/"
  const PDF_TYPE := "application/pdf"

  /** `getContentType`: the content kind of a MIME type, or the message of the
      error it throws. `s <= t` on strings is `t.startsWith(s)`. */
  function GetContentType(mime: string): (r: Result<Content.ContentType, string>)
    ensures r.Err? ==> r.error == "Unsupported file type: " + mime
  {
    if TEXT_PREFIX <= mime || mime == "text/markdown" then Ok(Content.Text)
    else if AUDIO_PREFIX <= mime then Ok(Content.Audio)
    else if mime == PDF_TYPE then Ok(Content.Pdf)
    else if VIDEO_PREFIX <= mime then Ok(Content.Video)
    else Err("Unsupported file type: " + mime)
  }

  /** Mutually exclusive prefixes: a type that starts with one of the three
      families starts with no other, and `application/pdf` is in none. */
  lemma PrefixesDisjoint(mime: string)
    ensures !(TEXT_PREFIX <= mime && AUDIO_PREFIX <= mime)
    ensures !(TEXT_PREFIX <= mime && VIDEO_PREFIX <= mime)
    ensures !(AUDIO_PREFIX <= mime && VIDEO_PREFIX <= mime)
    ensures mime == PDF_TYPE ==> !(TEXT_PREFIX <= mime) && !(AUDIO_PREFIX <= mime) && !(VIDEO_PREFIX <= mime)
  {
    if TEXT_PREFIX <= mime {
      assert mime[0] == 't';
    }
    if AUDIO_PREFIX <= mime {
      assert mime[0] == 'a' && mime[1] == 'u';
    }
    if VIDEO_PREFIX <= mime {
      assert mime[0] == 'v';
    }
    if mime == PDF_TYPE {
      assert mime[0] == 'a' && mime[1] == 'p';
    }
  }

  /** The classification, each kind characterised on its own: the `text/markdown`
      alternative adds nothing to the `text/` prefix, and every other type fails. */
  lemma GetContentTypeCases(mime: string)
    ensures GetContentType(mime) == Ok(Content.Text) <==> TEXT_PREFIX <= mime
    ensures GetContentType(mime) == Ok(Content.Audio) <==> AUDIO_PREFIX <= mime
    ensures GetContentType(mime) == Ok(Content.Pdf) <==> mime == PDF_TYPE
    ensures GetContentType(mime) == Ok(Content.Video) <==> VIDEO_PREFIX <= mime
    ensures GetContentType(mime).Err? <==>
      !(TEXT_PREFIX <= mime) && !(AUDIO_PREFIX <= mime) && mime != PDF_TYPE && !(VIDEO_PREFIX <= mime)
  {
    PrefixesDisjoint(mime);
    if mime == "text/markdown" {
      assert mime[..|TEXT_PREFIX|] == TEXT_PREFIX;
    }
  }

  // ---------------------------------------------------------------------------
  // Filtering, in the sense of `Array.prototype.filter`
  // ---------------------------------------------------------------------------

  function Filter<T(!new)>(s: seq<T>, keep: T -> bool): (r: seq<T>)
    ensures |r| <= |s|
  {
    if s == [] then []
    else (if keep(s[0]) then [s[0]] else []) + Filter(s[1..], keep)
  }

  /** The survivors are exactly the elements that pass. */
  lemma {:induction false} FilterMembers<T(!new)>(s: seq<T>, keep: T -> bool)
    ensures forall x :: x in Filter(s, keep) <==> x in s && keep(x)
  {
    if s != [] {
      FilterMembers(s[1..], keep);
      assert s == [s[0]] + s[1..];
    }
  }

  /** Filtering works piece by piece, so it keeps the surviving elements in
      their original order. */
  lemma {:induction false} FilterAppend<T(!new)>(a: seq<T>, b: seq<T>, keep: T -> bool)
    ensures Filter(a + b, keep) == Filter(a, keep) + Filter(b, keep)
  {
    if a == [] {
      assert a + b == b;
    } else {
      var head := if keep(a[0]) then [a[0]] else [];
      assert (a + b)[0] == a[0];
      assert (a + b)[1..] == a[1..] + b;
      FilterAppend(a[1..], b, keep);
      calc {
        Filter(a + b, keep);
        head + Filter(a[1..] + b, keep);
        head + (Filter(a[1..], keep) + Filter(b, keep));
        (head + Filter(a[1..], keep)) + Filter(b, keep);
        Filter(a, keep) + Filter(b, keep);
      }
    }
  }

  /** A filter changes nothing exactly when every element passes. */
  lemma {:induction false} FilterUnchanged<T(!new)>(s: seq<T>, keep: T -> bool)
    ensures Filter(s, keep) == s <==> forall i :: 0 <= i < |s| ==> keep(s[i])
  {
    if s != [] {
      FilterUnchanged(s[1..], keep);
      if !keep(s[0]) {
        assert |Filter(s, keep)| < |s|;
      }
    }
  }

  /** Filtering twice with the same test is filtering once. */
  lemma FilterIdempotent<T(!new)>(s: seq<T>, keep: T -> bool)
    ensures Filter(Filter(s, keep), keep) == Filter(s, keep)
  {
    var r := Filter(s, keep);
    FilterMembers(s, keep);
    forall i | 0 <= i < |r| ensures keep(r[i]) {
      assert r[i] in r;
    }
    FilterUnchanged(r, keep);
  }

  // ---------------------------------------------------------------------------
  // Entries and ids
  // ---------------------------------------------------------------------------

  /** No two entries share an id. */
  predicate Distinct(s: seq<UploadItem>) {
    forall i, j :: 0 <= i < j < |s| ==> s[i].id != s[j].id
  }

  predicate Absent(s: seq<UploadItem>, id: Uuid) {
    forall i :: 0 <= i < |s| ==> s[i].id != id
  }

  /** Every entry carrying `id` has status `st` (vacuously true when none does). */
  predicate OnlyStatus(s: seq<UploadItem>, id: Uuid, st: UploadStatus) {
    forall i :: 0 <= i < |s| ==> s[i].id == id ==> s[i].status == st
  }

  /** The progress discipline: a multiple of 10 between 0 and 100, zero while
      queued, at most 90 while transferring, 100 once the transfer succeeded. */
  predicate ProgressOk(u: UploadItem) {
    && 0 <= u.progress <= 100
    && u.progress % 10 == 0
    && (u.status == Queued ==> u.progress == 0)
    && (u.status == Uploading ==> u.progress <= 90)
    && (u.status == Processing || u.status == Complete ==> u.progress == 100)
  }

  /** An entry in a list whose ids were all drawn below `next`. */
  predicate EntryOk(u: UploadItem, next: nat) {
    && u.id < next
    && (u.contentId.Some? ==> u.contentId.value < next)
    && (u.status == Queued ==> u.contentId.Some?)
    && ProgressOk(u)
  }

  /** The invariant of the hook's list. */
  predicate WellFormed(s: seq<UploadItem>, next: nat) {
    && Distinct(s)
    && forall i :: 0 <= i < |s| ==> EntryOk(s[i], next)
  }

  lemma WellFormedLater(s: seq<UploadItem>, next: nat, later: nat)
    requires WellFormed(s, next) && next <= later
    ensures WellFormed(s, later)
  {
    forall i | 0 <= i < |s| ensures EntryOk(s[i], later) {
      assert EntryOk(s[i], next);
    }
  }

  lemma WellFormedTail(s: seq<UploadItem>, next: nat)
    requires WellFormed(s, next) && s != []
    ensures WellFormed(s[1..], next) && EntryOk(s[0], next)
    ensures forall j :: 0 <= j < |s[1..]| ==> s[0].id != s[1..][j].id
  {
    forall i | 0 <= i < |s[1..]| ensures EntryOk(s[1..][i], next) && s[0].id != s[1..][i].id {
      assert s[1..][i] == s[i + 1];
    }
  }

  lemma WellFormedCons(u: UploadItem, rest: seq<UploadItem>, next: nat)
    requires WellFormed(rest, next) && EntryOk(u, next)
    requires forall j :: 0 <= j < |rest| ==> u.id != rest[j].id
    ensures WellFormed([u] + rest, next)
  {
    var r := [u] + rest;
    forall i, j | 0 <= i < j < |r| ensures r[i].id != r[j].id {
      if i == 0 {
        assert r[j] == rest[j - 1];
      } else {
        assert r[i] == rest[i - 1] && r[j] == rest[j - 1];
      }
    }
    forall i | 0 <= i < |r| ensures EntryOk(r[i], next) {
      if i > 0 {
        assert r[i] == rest[i - 1];
      }
    }
  }

  /** A filter of a well-formed list is well formed. */
  lemma {:induction false} FilterWellFormed(s: seq<UploadItem>, next: nat, keep: UploadItem -> bool)
    requires WellFormed(s, next)
    ensures WellFormed(Filter(s, keep), next)
  {
    if s != [] {
      var rest := Filter(s[1..], keep);
      WellFormedTail(s, next);
      FilterWellFormed(s[1..], next, keep);
      if keep(s[0]) {
        FilterMembers(s[1..], keep);
        forall j | 0 <= j < |rest| ensures s[0].id != rest[j].id {
          assert rest[j] in s[1..];
        }
        WellFormedCons(s[0], rest, next);
      }
    }
  }

  /** `uploads.find((u) => u.id === id)`, as the index of the first match or -1. */
  function FindIndex(s: seq<UploadItem>, id: Uuid): (r: int)
    ensures -1 <= r < |s|
    ensures r >= 0 ==> s[r].id == id && forall j :: 0 <= j < r ==> s[j].id != id
    ensures r == -1 <==> Absent(s, id)
  {
    if s == [] then -1
    else if s[0].id == id then 0
    else var k := FindIndex(s[1..], id); if k == -1 then -1 else k + 1
  }

  function Find(s: seq<UploadItem>, id: Uuid): Option<UploadItem> {
    var k := FindIndex(s, id);
    if k == -1 then None else Some(s[k])
  }

  /** In a list without repeated ids, the first match is the match. */
  lemma FindDistinct(s: seq<UploadItem>, i: int)
    requires Distinct(s) && 0 <= i < |s|
    ensures Find(s, s[i].id) == Some(s[i])
  {
    assert !Absent(s, s[i].id);
  }

  // ---------------------------------------------------------------------------
  // The list updates applied through the state setter
  // ---------------------------------------------------------------------------

  /** The entry-wise transformations of `prev.map(...)`. */
  datatype Change =
    | SetStatus(status: UploadStatus)   // { ...u, status }
    | SetFailed(message: string)        // { ...u, status: 'error', error: message }
    | SetProcessing                     // { ...u, progress: 100, status: 'processing' }
    | Advance                           // the progress interval's callback

  function ApplyChange(u: UploadItem, c: Change): (r: UploadItem)
    ensures r.id == u.id && r.file == u.file && r.contentId == u.contentId
  {
    match c
    case SetStatus(st) => u.(status := st)
    case SetFailed(msg) => u.(status := Error, error := Some(msg))
    case SetProcessing => u.(progress := 100, status := Processing)
    case Advance =>
      if u.status == Uploading && u.progress < 90 then u.(progress := u.progress + 10) else u
  }

  /** `prev.map((u) => (u.id === id ? change(u) : u))` */
  function UpdateEntries(s: seq<UploadItem>, id: Uuid, c: Change): (r: seq<UploadItem>)
    ensures |r| == |s|
    ensures forall i :: 0 <= i < |s| ==> r[i].id == s[i].id
    ensures forall i :: 0 <= i < |s| && s[i].id != id ==> r[i] == s[i]
  {
    seq(|s|, i requires 0 <= i < |s| => if s[i].id == id then ApplyChange(s[i], c) else s[i])
  }

  /** The changes the hook makes that keep the progress discipline, given the
      status the targeted entries have when the change is made. */
  predicate Allowed(s: seq<UploadItem>, id: Uuid, c: Change) {
    match c
    case SetStatus(st) =>
      || st == Cancelled
      || (st == Uploading && OnlyStatus(s, id, Queued))
      || (st == Complete && OnlyStatus(s, id, Processing))
    case SetFailed(_) => true
    case SetProcessing => true
    case Advance => true
  }

  lemma UpdatePreservesWellFormed(s: seq<UploadItem>, next: nat, id: Uuid, c: Change)
    requires WellFormed(s, next) && Allowed(s, id, c)
    ensures WellFormed(UpdateEntries(s, id, c), next)
  {
    var r := UpdateEntries(s, id, c);
    forall i | 0 <= i < |s| ensures EntryOk(r[i], next) {
      assert EntryOk(s[i], next);
    }
  }

  /** An update aimed at one id leaves the status of every other id as it was. */
  lemma UpdateKeepsOthers(s: seq<UploadItem>, id: Uuid, c: Change, other: Uuid, st: UploadStatus)
    requires other != id && OnlyStatus(s, other, st)
    ensures OnlyStatus(UpdateEntries(s, id, c), other, st)
  {
  }

  lemma UpdateKeepsAllOthers(s: seq<UploadItem>, id: Uuid, c: Change)
    ensures forall other: Uuid, st: UploadStatus :: other != id && OnlyStatus(s, other, st) ==>
      OnlyStatus(UpdateEntries(s, id, c), other, st)
  {
  }

  /** After a status change every entry carrying the id has the new status. */
  lemma UpdateSetsStatus(s: seq<UploadItem>, id: Uuid, c: Change)
    requires c.SetStatus? || c.SetFailed? || c.SetProcessing?
    ensures OnlyStatus(UpdateEntries(s, id, c), id,
              if c.SetStatus? then c.status else if c.SetFailed? then Error else Processing)
  {
  }

  /** `removeFromQueue`: every entry with the id goes, whatever its status. */
  function RemoveId(s: seq<UploadItem>, id: Uuid): seq<UploadItem> {
    Filter(s, OtherId(id))
  }

  /** The test `(u) => u.id !== id`. */
  function OtherId(id: Uuid): UploadItem -> bool {
    (u: UploadItem) => u.id != id
  }

  /** Removal drops exactly the entries with the id, keeps the rest in order,
      and is a no-op for an id that is not there. */
  lemma RemoveIdSpec(s: seq<UploadItem>, id: Uuid)
    ensures Absent(RemoveId(s, id), id)
    ensures forall u :: u in RemoveId(s, id) <==> u in s && u.id != id
    ensures forall a, b :: a + b == s ==> RemoveId(s, id) == RemoveId(a, id) + RemoveId(b, id)
    ensures RemoveId(s, id) == s <==> Absent(s, id)
  {
    var r := RemoveId(s, id);
    FilterMembers(s, OtherId(id));
    forall i | 0 <= i < |r| ensures r[i].id != id {
      assert r[i] in r;
    }
    forall a, b | a + b == s ensures RemoveId(s, id) == RemoveId(a, id) + RemoveId(b, id) {
      FilterAppend(a, b, OtherId(id));
    }
    FilterUnchanged(s, OtherId(id));
  }

  /** Filtering out the one failing element between two passing runs. */
  lemma FilterDropOne<T(!new)>(before: seq<T>, x: T, after: seq<T>, keep: T -> bool)
    requires forall j :: 0 <= j < |before| ==> keep(before[j])
    requires forall j :: 0 <= j < |after| ==> keep(after[j])
    requires !keep(x)
    ensures Filter(before + [x] + after, keep) == before + after
  {
    calc {
      Filter(before + [x] + after, keep);
    == { FilterAppend(before + [x], after, keep); }
      Filter(before + [x], keep) + Filter(after, keep);
    == { FilterAppend(before, [x], keep); }
      Filter(before, keep) + Filter([x], keep) + Filter(after, keep);
    == { FilterUnchanged(before, keep); FilterUnchanged(after, keep); assert [x][1..] == []; }
      before + [] + after;
    == { assert before + [] == before; }
      before + after;
    }
  }

  /** In a list without repeated ids, removing the id of entry `i` cuts out
      exactly that entry. */
  lemma RemoveUnique(s: seq<UploadItem>, i: int)
    requires Distinct(s) && 0 <= i < |s|
    ensures RemoveId(s, s[i].id) == s[..i] + s[i + 1..]
  {
    var keep := OtherId(s[i].id);
    var before, after := s[..i], s[i + 1..];
    assert forall j :: 0 <= j < |after| ==> keep(after[j]) by {
      forall j | 0 <= j < |after| ensures keep(after[j]) {
        assert after[j] == s[i + 1 + j];
      }
    }
    assert s == before + [s[i]] + after;
    FilterDropOne(before, s[i], after, keep);
  }

  /** An entry that `clearCompleted` removes: it has settled. */
  predicate Settled(st: UploadStatus) {
    st == Complete || st == Error || st == Cancelled
  }

  /** `clearCompleted` */
  function ClearCompletedList(s: seq<UploadItem>): seq<UploadItem> {
    Filter(s, Unsettled)
  }

  const Unsettled: UploadItem -> bool := (u: UploadItem) => !Settled(u.status)

  /** Clearing keeps exactly the queued, uploading and processing entries, in
      their order, and a second clear changes nothing. */
  lemma ClearCompletedSpec(s: seq<UploadItem>)
    ensures forall u :: u in ClearCompletedList(s) <==>
      u in s && (u.status == Queued || u.status == Uploading || u.status == Processing)
    ensures forall a, b :: a + b == s ==> ClearCompletedList(s) == ClearCompletedList(a) + ClearCompletedList(b)
    ensures ClearCompletedList(ClearCompletedList(s)) == ClearCompletedList(s)
  {
    var keep := Unsettled;
    FilterMembers(s, keep);
    forall a, b | a + b == s ensures ClearCompletedList(s) == ClearCompletedList(a) + ClearCompletedList(b) {
      FilterAppend(a, b, keep);
    }
    FilterIdempotent(s, keep);
  }

  /** `uploads.some(u => settled)`, which the drop zone calls `hasCompletedUploads`. */
  predicate HasSettled(s: seq<UploadItem>) {
    exists i :: 0 <= i < |s| && Settled(s[i].status)
  }

  /** There is something to clear exactly when clearing changes the list. */
  lemma HasSettledIffClearChanges(s: seq<UploadItem>)
    ensures HasSettled(s) <==> ClearCompletedList(s) != s
  {
    FilterUnchanged(s, Unsettled);
  }

  /** The entries `startUpload` sets out to transfer. */
  function QueuedOf(s: seq<UploadItem>): seq<UploadItem> {
    Filter(s, IsQueued)
  }

  const IsQueued: UploadItem -> bool := (u: UploadItem) => u.status == Queued

  /** `queuedCount` */
  function QueuedCount(s: seq<UploadItem>): nat {
    |QueuedOf(s)|
  }

  /** `hasQueuedFiles` */
  predicate HasQueuedFiles(s: seq<UploadItem>) {
    exists i :: 0 <= i < |s| && s[i].status == Queued
  }

  lemma HasQueuedFilesIffCount(s: seq<UploadItem>)
    ensures HasQueuedFiles(s) <==> QueuedCount(s) > 0
  {
    FilterMembers(s, IsQueued);
    if HasQueuedFiles(s) {
      var i :| 0 <= i < |s| && s[i].status == Queued;
      assert s[i] in QueuedOf(s);
    }
    if QueuedCount(s) > 0 {
      var u := QueuedOf(s)[0];
      assert u in QueuedOf(s);
      var i :| 0 <= i < |s| && s[i] == u;
    }
  }

  /** The entries `startUpload` snapshots are queued entries of the list, in
      list order, with distinct ids. */
  lemma QueuedOfSpec(s: seq<UploadItem>, next: nat)
    requires WellFormed(s, next)
    ensures WellFormed(QueuedOf(s), next)
    ensures forall i :: 0 <= i < |QueuedOf(s)| ==> QueuedOf(s)[i] in s && QueuedOf(s)[i].status == Queued
    ensures forall u :: u in QueuedOf(s) <==> u in s && u.status == Queued
    ensures forall p, q :: s == p + q ==> QueuedOf(s) == QueuedOf(p) + QueuedOf(q)
  {
    FilterWellFormed(s, next, IsQueued);
    FilterMembers(s, IsQueued);
    forall p, q | s == p + q ensures QueuedOf(s) == QueuedOf(p) + QueuedOf(q) {
      FilterAppend(p, q, IsQueued);
    }
    forall i | 0 <= i < |QueuedOf(s)| ensures QueuedOf(s)[i] in s && QueuedOf(s)[i].status == Queued {
      assert QueuedOf(s)[i] in QueuedOf(s);
    }
  }

  /** The update of the no-session branch of `startUpload`. */
  function MarkUnauthenticated(s: seq<UploadItem>): (r: seq<UploadItem>)
    ensures |r| == |s|
  {
    seq(|s|, i requires 0 <= i < |s| =>
      if s[i].status == Queued then s[i].(status := Error, error := Some("Not authenticated")) else s[i])
  }

  /** Without a session every queued entry fails with `Not authenticated`, the
      other entries are untouched, and nothing is left queued. */
  lemma MarkUnauthenticatedSpec(s: seq<UploadItem>, next: nat)
    requires WellFormed(s, next)
    ensures WellFormed(MarkUnauthenticated(s), next)
    ensures forall i :: 0 <= i < |s| && s[i].status != Queued ==> MarkUnauthenticated(s)[i] == s[i]
    ensures forall i :: 0 <= i < |s| && s[i].status == Queued ==>
      var u := MarkUnauthenticated(s)[i];
      u.status == Error && u.error == Some("Not authenticated")
      && u.id == s[i].id && u.file == s[i].file && u.progress == s[i].progress && u.contentId == s[i].contentId
    ensures !HasQueuedFiles(MarkUnauthenticated(s))
  {
    var r := MarkUnauthenticated(s);
    forall i | 0 <= i < |s| ensures EntryOk(r[i], next) {
      assert EntryOk(s[i], next);
    }
  }

  // ---------------------------------------------------------------------------
  // Enqueueing
  // ---------------------------------------------------------------------------

  /** The entry `queueFile` appends when the generator's next value is `next`. */
  function NewEntry(file: FileInfo, next: Uuid): (u: UploadItem)
    ensures u.id == next && u.file == file && u.progress == 0
    ensures GetContentType(file.mimeType).Ok? ==> u.status == Queued && u.error.None? && u.contentId == Some(next + 1)
    ensures GetContentType(file.mimeType).Err? ==>
      && u.status == Error && u.contentId.None?
      && u.error == Some("Unsupported file type: " + if file.mimeType == "" then "unknown" else file.mimeType)
  {
    if GetContentType(file.mimeType).Ok? then
      UploadItem(next, file, 0, Queued, None, Some(next + 1))
    else
      UploadItem(next, file, 0, Error,
        Some("Unsupported file type: " + if file.mimeType == "" then "unknown" else file.mimeType), None)
  }

  /** How many ids `queueFile` draws: the upload id, and a content id when
      the type classifies. */
  function IdsUsed(file: FileInfo): nat {
    if GetContentType(file.mimeType).Ok? then 2 else 1
  }

  /** Enqueueing keeps the list well formed: the new ids are fresh. */
  lemma EnqueuePreservesWellFormed(s: seq<UploadItem>, next: nat, file: FileInfo)
    requires WellFormed(s, next)
    ensures WellFormed(s + [NewEntry(file, next)], next + IdsUsed(file))
  {
    var r := s + [NewEntry(file, next)];
    forall i | 0 <= i < |r| ensures EntryOk(r[i], next + IdsUsed(file)) {
      if i < |s| {
        assert r[i] == s[i] && EntryOk(s[i], next);
      }
    }
    forall i, j | 0 <= i < j < |r| ensures r[i].id != r[j].id {
      assert EntryOk(s[i], next);
      if j < |s| {
        assert r[i] == s[i] && r[j] == s[j];
      }
    }
  }

  /** `files.forEach(queueFile)`: the entries for a sequence of files and the
      generator's value afterwards. */
  function NewEntries(files: seq<FileInfo>, next: Uuid): (r: (seq<UploadItem>, nat))
    ensures |r.0| == |files| && r.1 >= next
    decreases |files|
  {
    if files == [] then ([], next)
    else
      var rest := NewEntries(files[1..], next + IdsUsed(files[0]));
      ([NewEntry(files[0], next)] + rest.0, rest.1)
  }

  /** Entry `i` of a batch is the entry of file `i`, in drop order. */
  lemma {:induction false} NewEntriesInOrder(files: seq<FileInfo>, next: Uuid, i: int)
    requires 0 <= i < |files|
    ensures NewEntries(files, next).0[i].file == files[i]
    ensures NewEntries(files, next).0[i].progress == 0
    ensures NewEntries(files, next).0[i].id >= next
    decreases |files|
  {
    if i > 0 {
      NewEntriesInOrder(files[1..], next + IdsUsed(files[0]), i - 1);
      assert files[1..][i - 1] == files[i];
    }
  }

  /** Queueing one more file appends its entry after the batch's entries, with
      the id the generator has reached. */
  lemma {:induction false} NewEntriesSnoc(files: seq<FileInfo>, file: FileInfo, next: Uuid)
    ensures var before := NewEntries(files, next);
      NewEntries(files + [file], next) == (before.0 + [NewEntry(file, before.1)], before.1 + IdsUsed(file))
    decreases |files|
  {
    if files == [] {
      assert files + [file] == [file];
      assert [file][1..] == [];
      assert [NewEntry(file, next)] + [] == [] + [NewEntry(file, next)];
    } else {
      var head := NewEntry(files[0], next);
      var later := next + IdsUsed(files[0]);
      assert (files + [file])[0] == files[0];
      assert (files + [file])[1..] == files[1..] + [file];
      NewEntriesSnoc(files[1..], file, later);
      var rest := NewEntries(files[1..], later);
      assert [head] + (rest.0 + [NewEntry(file, rest.1)]) == ([head] + rest.0) + [NewEntry(file, rest.1)];
    }
  }

  lemma {:induction false} NewEntriesPreserveWellFormed(s: seq<UploadItem>, next: nat, files: seq<FileInfo>)
    requires WellFormed(s, next)
    ensures WellFormed(s + NewEntries(files, next).0, NewEntries(files, next).1)
    decreases |files|
  {
    if files != [] {
      var u := NewEntry(files[0], next);
      EnqueuePreservesWellFormed(s, next, files[0]);
      NewEntriesPreserveWellFormed(s + [u], next + IdsUsed(files[0]), files[1..]);
      assert s + NewEntries(files, next).0 == (s + [u]) + NewEntries(files[1..], next + IdsUsed(files[0])).0;
    }
  }

  // ---------------------------------------------------------------------------
  // Cancelling
  // ---------------------------------------------------------------------------

  /** The list after `cancelUpload(id)`: a queued entry is dropped, anything
      else stays. */
  function CancelList(s: seq<UploadItem>, id: Uuid): seq<UploadItem> {
    match Find(s, id)
    case None => s
    case Some(u) => if u.status == Queued then RemoveId(s, id) else s
  }

  /** The abort flags after `cancelUpload(id)`: the registered controller of an
      uploading entry is aborted. */
  function CancelControllers(s: seq<UploadItem>, controllers: map<Uuid, bool>, id: Uuid): map<Uuid, bool> {
    match Find(s, id)
    case None => controllers
    case Some(u) => if u.status == Uploading && id in controllers then controllers[id := true] else controllers
  }

  /** `cancelUpload`, case by case, for a list without repeated ids. */
  lemma CancelCases(s: seq<UploadItem>, controllers: map<Uuid, bool>, id: Uuid)
    requires Distinct(s)
    ensures Absent(s, id) ==> CancelList(s, id) == s && CancelControllers(s, controllers, id) == controllers
    ensures forall i :: 0 <= i < |s| && s[i].id == id && s[i].status == Queued ==>
      CancelList(s, id) == s[..i] + s[i + 1..] && CancelControllers(s, controllers, id) == controllers
    ensures forall i :: 0 <= i < |s| && s[i].id == id && s[i].status == Uploading ==>
      CancelList(s, id) == s
      && CancelControllers(s, controllers, id) == if id in controllers then controllers[id := true] else controllers
    ensures forall i :: 0 <= i < |s| && s[i].id == id && s[i].status != Queued && s[i].status != Uploading ==>
      CancelList(s, id) == s && CancelControllers(s, controllers, id) == controllers
  {
    forall i | 0 <= i < |s| && s[i].id == id
      ensures Find(s, id) == Some(s[i])
      ensures s[i].status == Queued ==> RemoveId(s, id) == s[..i] + s[i + 1..]
    {
      FindDistinct(s, i);
      if s[i].status == Queued {
        RemoveUnique(s, i);
      }
    }
  }

  /** Cancelling keeps the list well formed. */
  lemma CancelPreservesWellFormed(s: seq<UploadItem>, next: nat, id: Uuid)
    requires WellFormed(s, next)
    ensures WellFormed(CancelList(s, id), next)
  {
    FilterWellFormed(s, next, OtherId(id));
  }

  /** A filter never gives an id a status it did not have. */
  lemma FilterKeepsOnlyStatus(s: seq<UploadItem>, keep: UploadItem -> bool, id: Uuid, st: UploadStatus)
    requires OnlyStatus(s, id, st)
    ensures OnlyStatus(Filter(s, keep), id, st)
  {
    var r := Filter(s, keep);
    FilterMembers(s, keep);
    forall i | 0 <= i < |r| && r[i].id == id ensures r[i].status == st {
      assert r[i] in s;
    }
  }

  // ---------------------------------------------------------------------------
  // Progress
  // ---------------------------------------------------------------------------

  /** The entry after `n` interval callbacks. */
  function AdvanceN(u: UploadItem, n: nat): UploadItem {
    if n == 0 then u else ApplyChange(AdvanceN(u, n - 1), Advance)
  }

  function Min(a: int, b: int): int {
    if a <= b then a else b
  }

  /** From zero, `n` ticks of a transferring entry give `min(10 n, 90)`: the
      simulated progress climbs in steps of ten and stops at 90. */
  lemma {:induction false} TicksSaturate(u: UploadItem, n: nat)
    requires u.status == Uploading && u.progress == 0
    ensures AdvanceN(u, n) == u.(progress := Min(10 * n, 90))
  {
    if n > 0 {
      TicksSaturate(u, n - 1);
    }
  }

  // ---------------------------------------------------------------------------
  // The storage path and the calls made to the outside
  // ---------------------------------------------------------------------------

  function DigitChar(d: nat): char
    requires d < 10
  {
    "0123456789"[d]
  }

  /** The text of an id, in decimal. */
  function UuidText(n: nat): (r: string)
    ensures |r| > 0
    ensures forall i :: 0 <= i < |r| ==> '0' <= r[i] <= '9'
  {
    if n < 10 then [DigitChar(n)] else UuidText(n / 10) + [DigitChar(n % 10)]
  }

  /** A template literal renders a missing content id as `undefined`. */
  function OptionalIdText(c: Option<Uuid>): string {
    if c.Some? then UuidText(c.value) else "undefined"
  }

  /** The storage object path `${userId}/${contentId}/${file.name}`. */
  function FilePath(userId: string, contentId: Option<Uuid>, name: string): string {
    userId + "/" + OptionalIdText(contentId) + "/" + name
  }

  /** The text up to the first slash. */
  function FirstSegment(p: string): string {
    if p == [] || p[0] == '/' then [] else [p[0]] + FirstSegment(p[1..])
  }

  /** The text after the first slash (empty when there is none). */
  function AfterFirstSlash(p: string): string {
    if p == [] then [] else if p[0] == '/' then p[1..] else AfterFirstSlash(p[1..])
  }

  lemma {:induction false} SegmentOfPrefix(a: string, b: string)
    requires forall i :: 0 <= i < |a| ==> a[i] != '/'
    ensures FirstSegment(a + "/" + b) == a
    ensures AfterFirstSlash(a + "/" + b) == b
  {
    if a != [] {
      assert (a + "/" + b)[1..] == a[1..] + "/" + b;
      SegmentOfPrefix(a[1..], b);
    } else {
      assert a + "/" + b == "/" + b;
    }
  }

  /** The path reads back as its three parts: for a user id without a slash,
      the first segment is the user, the second the content id, the rest the
      file name (which may itself contain slashes). */
  lemma FilePathSegments(userId: string, contentId: Uuid, name: string)
    requires forall i :: 0 <= i < |userId| ==> userId[i] != '/'
    ensures var p := FilePath(userId, Some(contentId), name);
      && FirstSegment(p) == userId
      && FirstSegment(AfterFirstSlash(p)) == UuidText(contentId)
      && AfterFirstSlash(AfterFirstSlash(p)) == name
  {
    var idText := UuidText(contentId);
    var p := FilePath(userId, Some(contentId), name);
    assert p == userId + "/" + (idText + "/" + name);
    SegmentOfPrefix(userId, idText + "/" + name);
    SegmentOfPrefix(idText, name);
  }

  /** A call to storage or to the API, in the order the hook issues it. */
  datatype Call =
    | Store(path: string, file: FileInfo)               // storage upload, no overwrite
    | Remove(path: string)                              // storage remove of one path
    | CreateItem(body: Content.WireRecord, token: string)       // POST /content-items with a bearer token

  /** The create-request body sent for a file stored under `path`; it exists
      only when the type classifies. */
  function CreateBody(file: FileInfo, path: string): Option<Content.WireRecord> {
    match GetContentType(file.mimeType)
    case Err(_) => None
    case Ok(kind) => Some(Content.TransformContentRequest(Content.CreateContentRequest(kind, file.name, path, file.size, file.mimeType)))
  }

  /** The calls of one `uploadSingleFile`: the store, then either the clean-up
      remove of a cancelled transfer, or the create request, or nothing. */
  predicate TransferCalls(b: seq<Call>, path: string, file: FileInfo, token: string) {
    || b == [Store(path, file)]
    || b == [Store(path, file), Remove(path)]
    || (CreateBody(file, path).Some? && b == [Store(path, file), CreateItem(CreateBody(file, path).value, token)])
  }

  /** The three shapes a transfer's calls can take, told apart by what was
      decided after the store. */
  lemma TransferShapes(path: string, file: FileInfo, token: string, abortSeen: bool,
                       store: StoreOutcome, tail: seq<Call>)
    requires tail == if abortSeen then [Remove(path)]
      else if store == StoreResolved(None) && CreateBody(file, path).Some? then [CreateItem(CreateBody(file, path).value, token)]
      else []
    ensures TransferCalls([Store(path, file)] + tail, path, file, token)
    ensures abortSeen <==> [Store(path, file)] + tail == [Store(path, file), Remove(path)]
    ensures (!abortSeen && store == StoreResolved(None) && GetContentType(file.mimeType).Ok?) <==>
      CreateBody(file, path).Some?
      && [Store(path, file)] + tail == [Store(path, file), CreateItem(CreateBody(file, path).value, token)]
  {
    if !abortSeen {
      assert ([Store(path, file)] + tail)[1..] == tail;
    }
  }

  function Flatten(bs: seq<seq<Call>>): seq<Call> {
    if bs == [] then [] else bs[0] + Flatten(bs[1..])
  }

  lemma {:induction false} FlattenSnoc(bs: seq<seq<Call>>, b: seq<Call>)
    ensures Flatten(bs + [b]) == Flatten(bs) + b
  {
    if bs == [] {
      assert bs + [b] == [b];
    } else {
      assert (bs + [b])[1..] == bs[1..] + [b];
      FlattenSnoc(bs[1..], b);
    }
  }

  // ---------------------------------------------------------------------------
  // Settling an upload
  // ---------------------------------------------------------------------------

  /** The error thrown when the transfer notices it was aborted. */
  const UPLOAD_CANCELLED: Thrown := ErrorObject("Error", "Upload cancelled")

  /** The catch block's test for a cancellation. */
  predicate IsCancellation(e: Thrown) {
    e.IsError() && (e.Name() == "AbortError" || e.message == "Upload cancelled")
  }

  function FailureMessage(e: Thrown): string {
    if e.IsError() then e.message else "Upload failed"
  }

  /** How a transfer ends for its entry. */
  datatype Ending = Completed | WasCancelled | Failed(message: string)

  /** The catch block: what a thrown value, or its absence, makes of the entry. */
  function SettleOf(thrown: Option<Thrown>): (r: Ending)
    ensures r == Completed <==> thrown.None?
    ensures r == WasCancelled <==> thrown.Some? && IsCancellation(thrown.value)
    ensures r.Failed? ==> r.message == FailureMessage(thrown.value)
  {
    match thrown
    case None => Completed
    case Some(e) => if IsCancellation(e) then WasCancelled else Failed(FailureMessage(e))
  }

  function EndingChange(e: Ending): Change {
    match e
    case Completed => SetStatus(Complete)
    case WasCancelled => SetStatus(Cancelled)
    case Failed(msg) => SetFailed(msg)
  }

  /** What reaches the catch block of `uploadSingleFile`, from the outcomes of
      its steps in the order the code examines them: a rejected store goes
      straight to the catch; otherwise the abort flag after the store (and the
      outcome of the clean-up remove), the store's `error` member, the
      classification of the type, the create request. */
  function TransferThrown(abortSeen: bool, remove: Outcome, store: StoreOutcome,
                          mime: string, create: Outcome): Option<Thrown>
  {
    var kind := GetContentType(mime);
    if store.StoreRejected? then Some(store.reason)
    else if abortSeen then (if remove.Rejected? then Some(remove.error) else Some(UPLOAD_CANCELLED))
    else if store.error.Some? then store.error
    else if kind.Err? then Some(ErrorObject("Error", kind.error))
    else if create.Rejected? then Some(create.error)
    else None
  }

  /** The outcomes of a transfer, case by case: a rejected store is settled by
      the catch rule on its reason, abort or not; otherwise an abort seen after
      the store cancels the entry (unless the clean-up remove itself fails),
      whatever the store's `error` member; a store error, a failed create or an
      unclassifiable type fail it with the thrown message, or cancel it when
      the error is an `AbortError` or carries the cancellation message; only a
      clean run completes it. */
  lemma TransferOutcomes(abortSeen: bool, remove: Outcome, store: StoreOutcome,
                         mime: string, create: Outcome)
    ensures var kind := GetContentType(mime);
      var end := SettleOf(TransferThrown(abortSeen, remove, store, mime, create));
      && (store.StoreRejected? ==>
            end == if IsCancellation(store.reason) then WasCancelled else Failed(FailureMessage(store.reason)))
      && (store.StoreResolved? && abortSeen && remove.Resolved? ==> end == WasCancelled)
      && (end == Completed <==> store == StoreResolved(None) && !abortSeen && kind.Ok? && create.Resolved?)
      && (store.StoreResolved? && !abortSeen && store.error.Some? ==>
            end == if IsCancellation(store.error.value) then WasCancelled else Failed(FailureMessage(store.error.value)))
      && (store == StoreResolved(None) && !abortSeen && kind.Err? ==> end == Failed("Unsupported file type: " + mime))
      && (store == StoreResolved(None) && !abortSeen && kind.Ok? && create.Rejected? ==>
            end == if IsCancellation(create.error) then WasCancelled else Failed(FailureMessage(create.error)))
  {
    var message := "Unsupported file type: " + mime;
    assert message[1] == 'n' && "Upload cancelled"[1] == 'p';
  }

  // ---------------------------------------------------------------------------
  // The per-entry check of the start loop
  // ---------------------------------------------------------------------------

  /** `const current = list.find((u) => u.id === id); if (!current || current.status
      !== 'queued') continue;` -- true when the entry is transferred. */
  predicate StillQueued(list: seq<UploadItem>, id: Uuid) {
    var c := Find(list, id);
    c.Some? && c.value.status == Queued
  }

  /** As written the check reads the list captured when `startUpload` began, in
      which every snapshot entry is queued: the check never skips. */
  lemma SnapshotCheckNeverSkips(start: seq<UploadItem>, j: int)
    requires Distinct(start) && 0 <= j < |QueuedOf(start)|
    ensures StillQueued(start, QueuedOf(start)[j].id)
  {
    var u := QueuedOf(start)[j];
    FilterMembers(start, IsQueued);
    assert u in QueuedOf(start);
    var i :| 0 <= i < |start| && start[i] == u;
    FindDistinct(start, i);
  }

  /** A queued entry cancelled while an earlier transfer runs is gone from the
      live list, yet the check on the captured list still lets it through. */
  lemma CancelledEntryPassesStaleCheck(start: seq<UploadItem>, i: int)
    requires Distinct(start) && 0 <= i < |start| && start[i].status == Queued
    ensures var live := CancelList(start, start[i].id);
      Absent(live, start[i].id) && !StillQueued(live, start[i].id) && StillQueued(start, start[i].id)
  {
    FindDistinct(start, i);
    RemoveIdSpec(start, start[i].id);
  }

  /** What the start loop relies on about its snapshot: its ids are distinct,
      were drawn before the run, and are queued in the list it was taken from. */
  lemma SnapshotQueued(s: seq<UploadItem>, next: nat)
    requires WellFormed(s, next)
    ensures Distinct(QueuedOf(s))
    ensures forall j :: 0 <= j < |QueuedOf(s)| ==>
      QueuedOf(s)[j].id < next && OnlyStatus(s, QueuedOf(s)[j].id, Queued)
  {
    QueuedOfSpec(s, next);
    forall j | 0 <= j < |QueuedOf(s)|
      ensures QueuedOf(s)[j].id < next && OnlyStatus(s, QueuedOf(s)[j].id, Queued)
    {
      var u := QueuedOf(s)[j];
      assert EntryOk(u, next);
      var i :| 0 <= i < |s| && s[i] == u;
      assert forall k :: 0 <= k < |s| && s[k].id == u.id ==> k == i;
    }
  }
}
