/** The content-upload hook as an object: its list of entries, the
    `isUploading` flag, the registry of abort controllers, the running progress
    intervals, and a log of what it asks of storage, the API and the query
    cache. Each awaited call is a point where the user's other actions (and the
    interval) may run; a script supplies them, with the outcomes of the calls. */
module UploadHook {
  import opened Externals
  import Content
  import opened UploadModel
  import ContentItems

  /** Something that can run while the executor is suspended on an await. */
  datatype Event =
    | TickEvent(id: Uuid)          // the progress interval of upload `id` fires
    | CancelEvent(id: Uuid)        // cancelUpload(id)
    | RemoveEvent(id: Uuid)        // removeFromQueue(id)
    | ClearEvent                   // clearCompleted()
    | QueueEvent(file: FileInfo)   // queueFile(file)

  /** The world as one `uploadSingleFile` meets it: what happens during each
      of its awaits, and how each awaited call settles. */
  datatype Script = Script(
    whileStoring: seq<Event>,
    store: StoreOutcome,           // how the storage upload settles
    whileRemoving: seq<Event>,
    remove: Outcome,               // the clean-up remove of a cancelled transfer
    whileCreating: seq<Event>,
    create: Outcome)               // the create request

  /** Every entry with the id ended as `e` says. */
  predicate EndedAs(s: seq<UploadItem>, id: Uuid, e: Ending) {
    forall i :: 0 <= i < |s| && s[i].id == id ==>
      && s[i].status == (match e case Completed => Complete case WasCancelled => Cancelled case Failed(_) => Error)
      && (e.Failed? ==> s[i].error == Some(e.message))
  }

  /** The query key the hook invalidates after a run, as written. */
  const CONTENT_KEY: seq<string> := ["content"]

  /** `session?.user` is present. */
  predicate HasUser(session: Result<Option<Session>, Thrown>) {
    session.Ok? && session.value.Some? && session.value.value.user.Some?
  }

  function UserIdOf(session: Result<Option<Session>, Thrown>): string
    requires HasUser(session)
  {
    session.value.value.user.value.id
  }

  function TokenOf(session: Result<Option<Session>, Thrown>): string
    requires HasUser(session)
  {
    session.value.value.accessToken
  }

  /** The path under which the start loop stores a snapshot entry. */
  function PathOf(userId: string, u: UploadItem): string {
    FilePath(userId, u.contentId, u.file.name)
  }

  /** The calls `block` of the turn of entry `u` in the start loop, whose list
      was `turn` when the turn came: nothing exactly when the live check skips
      it, and otherwise the calls of one transfer. */
  predicate TurnOk(block: seq<Call>, turn: seq<UploadItem>, u: UploadItem, live: bool, userId: string, token: string) {
    && (block == [] <==> live && !StillQueued(turn, u.id))
    && (block != [] ==> TransferCalls(block, PathOf(userId, u), u.file, token))
  }

  /** A snapshot entry whose turn has not come: drawn before `next`, and
      queued if still listed. */
  predicate Waiting(s: seq<UploadItem>, u: UploadItem, next: nat) {
    u.id < next && OnlyStatus(s, u.id, Queued)
  }

  /** An entry with the id is listed, and every entry with it is uploading. */
  predicate Transferring(s: seq<UploadItem>, id: Uuid) {
    !Absent(s, id) && OnlyStatus(s, id, Uploading)
  }

  /** No `removeFromQueue(id)` among the first `n` events. */
  predicate NoRemoveBefore(es: seq<Event>, n: nat, id: Uuid)
    requires n <= |es|
  {
    forall j :: 0 <= j < n ==> es[j] != RemoveEvent(id)
  }

  /** Among the first `n` events, `cancelUpload(id)` comes with no earlier
      `removeFromQueue(id)`. */
  predicate CancelledBy(es: seq<Event>, n: nat, id: Uuid)
    requires n <= |es|
  {
    exists j :: 0 <= j < n && es[j] == CancelEvent(id) && NoRemoveBefore(es, j, id)
  }

  /** Only interval firings: nothing is added, removed or cancelled. */
  predicate Quiet(es: seq<Event>) {
    forall j :: 0 <= j < |es| ==> es[j].TickEvent?
  }

  predicate QuietScript(script: Script) {
    Quiet(script.whileStoring) && Quiet(script.whileRemoving) && Quiet(script.whileCreating)
  }

  /** The same ids at the same places. */
  predicate SameIds(a: seq<UploadItem>, b: seq<UploadItem>) {
    |a| == |b| && forall i :: 0 <= i < |a| ==> a[i].id == b[i].id
  }

  /** Every id drawn below `bound` that had ended keeps its ending; its
      entries may only disappear, and an id that was not listed stays so. */
  ghost predicate EndingsKept(before: seq<UploadItem>, after: seq<UploadItem>, bound: nat) {
    forall k: Uuid, e: Ending :: k < bound && EndedAs(before, k, e) ==> EndedAs(after, k, e)
  }

  lemma EndingsKeptTrans(a: seq<UploadItem>, b: seq<UploadItem>, c: seq<UploadItem>, n: nat, m: nat)
    requires EndingsKept(a, b, n) && EndingsKept(b, c, m) && n <= m
    ensures EndingsKept(a, c, n)
  {
  }

  /** How the turn of snapshot entry `u` ended, read from the calls it made
      (`Store` then `Remove` exactly when the abort was seen) and the script. */
  function TurnEnding(block: seq<Call>, u: UploadItem, userId: string, script: Script): Ending {
    var path := PathOf(userId, u);
    SettleOf(TransferThrown(block == [Store(path, u.file), Remove(path)],
                            script.remove, script.store, u.file.mimeType, script.create))
  }

  /** The clean-up shape (`Store` then `Remove`) only after a cancel of the
      entry during its store. */
  predicate AbortOnlyIfCancelled(block: seq<Call>, u: UploadItem, userId: string, script: Script) {
    CancelEvent(u.id) !in script.whileStoring ==> block != [Store(PathOf(userId, u), u.file), Remove(PathOf(userId, u))]
  }

  /** Each of the first `n` turns that ran ended as its calls and its script
      say, and took the clean-up shape only after a cancel. */
  predicate TurnsEnded(s: seq<UploadItem>, snapshot: seq<UploadItem>, blocks: seq<seq<Call>>,
                       userId: string, scripts: seq<Script>, n: nat)
    requires n <= |snapshot| && n <= |blocks| && n <= |scripts|
  {
    forall j :: 0 <= j < n && blocks[j] != [] ==>
      && EndedAs(s, snapshot[j].id, TurnEnding(blocks[j], snapshot[j], userId, scripts[j]))
      && AbortOnlyIfCancelled(blocks[j], snapshot[j], userId, scripts[j])
  }

  /** The endings of earlier turns survive a later one. */
  lemma TurnsEndedSnoc(before: seq<UploadItem>, after: seq<UploadItem>, bound: nat, snapshot: seq<UploadItem>,
                       blocks: seq<seq<Call>>, block: seq<Call>, userId: string, scripts: seq<Script>)
    requires |blocks| < |snapshot| == |scripts|
    requires forall j :: 0 <= j < |snapshot| ==> snapshot[j].id < bound
    requires TurnsEnded(before, snapshot, blocks, userId, scripts, |blocks|)
    requires EndingsKept(before, after, bound)
    requires block != [] ==>
      && EndedAs(after, snapshot[|blocks|].id, TurnEnding(block, snapshot[|blocks|], userId, scripts[|blocks|]))
      && AbortOnlyIfCancelled(block, snapshot[|blocks|], userId, scripts[|blocks|])
    ensures TurnsEnded(after, snapshot, blocks + [block], userId, scripts, |blocks| + 1)
  {
    var bs := blocks + [block];
    forall j | 0 <= j < |bs| && bs[j] != []
      ensures EndedAs(after, snapshot[j].id, TurnEnding(bs[j], snapshot[j], userId, scripts[j]))
      ensures AbortOnlyIfCancelled(bs[j], snapshot[j], userId, scripts[j])
    {
      if j < |blocks| {
        assert bs[j] == blocks[j];
        assert EndedAs(before, snapshot[j].id, TurnEnding(bs[j], snapshot[j], userId, scripts[j]));
      }
    }
  }

  /** The first `n` turns each issued the calls their check allowed. */
  predicate TurnsOk(blocks: seq<seq<Call>>, turns: seq<seq<UploadItem>>, snapshot: seq<UploadItem>,
                    live: bool, userId: string, token: string, n: nat)
    requires n <= |blocks| && n <= |turns| && n <= |snapshot|
  {
    forall j :: 0 <= j < n ==> TurnOk(blocks[j], turns[j], snapshot[j], live, userId, token)
  }

  lemma TurnsOkSnoc(blocks: seq<seq<Call>>, turns: seq<seq<UploadItem>>, snapshot: seq<UploadItem>,
                    live: bool, userId: string, token: string, block: seq<Call>, turn: seq<UploadItem>)
    requires |blocks| == |turns| < |snapshot|
    requires TurnsOk(blocks, turns, snapshot, live, userId, token, |blocks|)
    requires TurnOk(block, turn, snapshot[|blocks|], live, userId, token)
    ensures TurnsOk(blocks + [block], turns + [turn], snapshot, live, userId, token, |blocks| + 1)
  {
    var bs, ts := blocks + [block], turns + [turn];
    forall j | 0 <= j < |bs| ensures TurnOk(bs[j], ts[j], snapshot[j], live, userId, token) {
      if j < |blocks| {
        assert bs[j] == blocks[j] && ts[j] == turns[j];
      }
    }
  }

  /** The snapshot entries from `from` on have not had their turn. */
  predicate WaitingFrom(s: seq<UploadItem>, snapshot: seq<UploadItem>, from: nat, next: nat) {
    forall j :: from <= j < |snapshot| ==> Waiting(s, snapshot[j], next)
  }

  /** A turn that leaves the status of every other id alone keeps the later
      snapshot entries waiting. */
  lemma WaitingAfterTurn(turn: seq<UploadItem>, after: seq<UploadItem>, snapshot: seq<UploadItem>,
                         i: nat, next0: nat, next1: nat)
    requires Distinct(snapshot) && i < |snapshot| && next0 <= next1
    requires WaitingFrom(turn, snapshot, i, next0)
    requires forall id: Uuid, st: UploadStatus :: id < next0 && id != snapshot[i].id && OnlyStatus(turn, id, st) ==> OnlyStatus(after, id, st)
    ensures WaitingFrom(after, snapshot, i + 1, next1)
  {
    forall j | i + 1 <= j < |snapshot| ensures Waiting(after, snapshot[j], next1) {
      assert Waiting(turn, snapshot[j], next0);
      assert snapshot[j].id != snapshot[i].id;
    }
  }

  predicate QuietAll(scripts: seq<Script>) {
    forall j :: 0 <= j < |scripts| ==> QuietScript(scripts[j])
  }

  /** The no-session update fails only queued entries, so it keeps every ending. */
  lemma MarkUnauthenticatedKeepsEndings(s: seq<UploadItem>, next: nat, bound: nat)
    requires WellFormed(s, next)
    ensures EndingsKept(s, MarkUnauthenticated(s), bound)
  {
    var r := MarkUnauthenticated(s);
    MarkUnauthenticatedSpec(s, next);
    forall k: Uuid, e: Ending | k < bound && EndedAs(s, k, e) ensures EndedAs(r, k, e) {
      forall i | 0 <= i < |r| && r[i].id == k
        ensures r[i].status == (match e case Completed => Complete case WasCancelled => Cancelled case Failed(_) => Error)
        ensures e.Failed? ==> r[i].error == Some(e.message)
      {
        assert s[i].id == k;
      }
    }
  }

  /** Filtering only drops entries, so it keeps every ending. */
  lemma FilterKeepsEndings(s: seq<UploadItem>, keep: UploadItem -> bool, bound: nat)
    ensures EndingsKept(s, Filter(s, keep), bound)
  {
    var r := Filter(s, keep);
    FilterMembers(s, keep);
    forall k: Uuid, e: Ending | k < bound && EndedAs(s, k, e) ensures EndedAs(r, k, e) {
      forall i | 0 <= i < |r| && r[i].id == k
        ensures r[i].status == (match e case Completed => Complete case WasCancelled => Cancelled case Failed(_) => Error)
        ensures e.Failed? ==> r[i].error == Some(e.message)
      {
        assert r[i] in s;
      }
    }
  }

  /** A filter that keeps every entry with the id keeps the id transferring. */
  lemma FilterKeepsTransferring(s: seq<UploadItem>, keep: UploadItem -> bool, id: Uuid)
    requires Transferring(s, id)
    requires forall i :: 0 <= i < |s| && s[i].id == id ==> keep(s[i])
    ensures Transferring(Filter(s, keep), id)
  {
    var i :| 0 <= i < |s| && s[i].id == id;
    FilterMembers(s, keep);
    assert s[i] in Filter(s, keep);
    FilterKeepsOnlyStatus(s, keep, id, Uploading);
  }

  /** A tick, or an update aimed at an entry still in flight (status `st`),
      keeps every ending, and ids stay where they were. */
  lemma UpdateKeepsEndings(s: seq<UploadItem>, id: Uuid, c: Change, st: UploadStatus, bound: nat)
    requires c == Advance || (OnlyStatus(s, id, st) && !Settled(st))
    ensures EndingsKept(s, UpdateEntries(s, id, c), bound)
    ensures SameIds(s, UpdateEntries(s, id, c))
  {
    var r := UpdateEntries(s, id, c);
    forall k: Uuid, e: Ending | k < bound && EndedAs(s, k, e) ensures EndedAs(r, k, e) {
      forall i | 0 <= i < |r| && r[i].id == k
        ensures r[i].status == (match e case Completed => Complete case WasCancelled => Cancelled case Failed(_) => Error)
        ensures e.Failed? ==> r[i].error == Some(e.message)
      {
        assert s[i].id == k;
      }
    }
  }

  /** A tick, or an update aimed at another id, keeps an id transferring. */
  lemma UpdateKeepsTransferring(s: seq<UploadItem>, id: Uuid, c: Change, k: Uuid)
    requires Transferring(s, k) && (k != id || c == Advance)
    ensures Transferring(UpdateEntries(s, id, c), k)
  {
    var i :| 0 <= i < |s| && s[i].id == k;
    assert UpdateEntries(s, id, c)[i].id == k;
  }

  /** `cancelUpload(id)` keeps every ending and every transferring entry, and
      aborts the controller of a transferring `id`; a raised flag stays raised. */
  lemma CancelKeeps(s: seq<UploadItem>, controllers: map<Uuid, bool>, id: Uuid, bound: nat)
    requires Distinct(s)
    ensures EndingsKept(s, CancelList(s, id), bound)
    ensures forall k :: Transferring(s, k) ==> Transferring(CancelList(s, id), k)
    ensures id in controllers && Transferring(s, id) ==> CancelControllers(s, controllers, id)[id]
    ensures forall k :: k in controllers && controllers[k] ==> CancelControllers(s, controllers, id)[k]
  {
    FilterKeepsEndings(s, OtherId(id), bound);
    match Find(s, id)
    case None =>
    case Some(u) =>
      var x := FindIndex(s, id);
      assert s[x] == u && u.id == id;
      if u.status == Queued {
        forall k | Transferring(s, k) ensures Transferring(CancelList(s, id), k) {
          FilterKeepsTransferring(s, OtherId(id), k);
        }
      }
  }

  class ContentUpload {
    var uploads: seq<UploadItem>
    var isUploading: bool
    /** `abortControllersRef`: the registered controllers, by upload id, and
        whether each has been aborted. */
    var controllers: map<Uuid, bool>
    /** The uploads whose progress interval is running. */
    var ticking: set<Uuid>
    /** Storage and API calls, in the order they were issued. */
    var calls: seq<Call>
    /** The keys passed to `invalidateQueries`, in order. */
    var invalidations: seq<seq<string>>
    /** The uuid generator: the next value it hands out. */
    var nextId: nat

    ghost predicate Valid()
      reads this
    {
      WellFormed(uploads, nextId)
    }

    constructor()
      ensures Valid()
      ensures uploads == [] && !isUploading && controllers == map[] && ticking == {}
      ensures calls == [] && invalidations == [] && nextId == 0
    {
      uploads := [];
      isUploading := false;
      controllers := map[];
      ticking := {};
      calls := [];
      invalidations := [];
      nextId := 0;
    }

    /** `queueFile`: append one entry, queued when the type classifies and
        failed otherwise. */
    method QueueFile(file: FileInfo)
      requires Valid()
      modifies this
      ensures Valid()
      ensures uploads == old(uploads) + [NewEntry(file, old(nextId))]
      ensures nextId == old(nextId) + IdsUsed(file)
      ensures isUploading == old(isUploading) && controllers == old(controllers) && ticking == old(ticking)
      ensures calls == old(calls) && invalidations == old(invalidations)
    {
      EnqueuePreservesWellFormed(uploads, nextId, file);
      var uploadId := nextId;
      if GetContentType(file.mimeType).Err? {
        nextId := nextId + 1;
      } else {
        nextId := nextId + 2;
      }
      uploads := uploads + [NewEntry(file, uploadId)];
    }

    /** `removeFromQueue` */
    method RemoveFromQueue(id: Uuid)
      requires Valid()
      modifies this
      ensures Valid()
      ensures uploads == RemoveId(old(uploads), id)
      ensures nextId == old(nextId) && isUploading == old(isUploading) && controllers == old(controllers)
      ensures ticking == old(ticking) && calls == old(calls) && invalidations == old(invalidations)
    {
      FilterWellFormed(uploads, nextId, OtherId(id));
      uploads := RemoveId(uploads, id);
    }

    /** `cancelUpload`: drop a queued entry, or abort the controller of an
        uploading one; anything else is left alone. */
    method CancelUpload(id: Uuid)
      requires Valid()
      modifies this
      ensures Valid()
      ensures uploads == CancelList(old(uploads), id)
      ensures controllers == CancelControllers(old(uploads), old(controllers), id)
      ensures controllers.Keys == old(controllers).Keys
      ensures nextId == old(nextId) && isUploading == old(isUploading)
      ensures ticking == old(ticking) && calls == old(calls) && invalidations == old(invalidations)
    {
      var found := Find(uploads, id);
      if found.Some? {
        if found.value.status == Queued {
          CancelPreservesWellFormed(uploads, nextId, id);
          uploads := RemoveId(uploads, id);
        } else if found.value.status == Uploading && id in controllers {
          controllers := controllers[id := true];
        }
      }
    }

    /** `clearCompleted` */
    method ClearCompleted()
      requires Valid()
      modifies this
      ensures Valid()
      ensures uploads == ClearCompletedList(old(uploads))
      ensures nextId == old(nextId) && isUploading == old(isUploading) && controllers == old(controllers)
      ensures ticking == old(ticking) && calls == old(calls) && invalidations == old(invalidations)
    {
      FilterWellFormed(uploads, nextId, Unsettled);
      uploads := ClearCompletedList(uploads);
    }

    /** One firing of the progress interval of upload `id`; without a running
        interval there is nothing to fire. */
    method Tick(id: Uuid)
      requires Valid()
      modifies this
      ensures Valid()
      ensures uploads == if id in old(ticking) then UpdateEntries(old(uploads), id, Advance) else old(uploads)
      ensures nextId == old(nextId) && isUploading == old(isUploading) && controllers == old(controllers)
      ensures ticking == old(ticking) && calls == old(calls) && invalidations == old(invalidations)
    {
      if id in ticking {
        UpdatePreservesWellFormed(uploads, nextId, id, Advance);
        uploads := UpdateEntries(uploads, id, Advance);
      }
    }

    /** What the user's actions can do to the executor's view of an entry: an
        id that existed keeps whatever status it had, or disappears. */
    twostate predicate StatusesKept()
      reads this
    {
      forall id: Uuid, st: UploadStatus :: id < old(nextId) && OnlyStatus(old(uploads), id, st) ==> OnlyStatus(uploads, id, st)
    }

    /** One action of the user's (or one firing of an interval) during an
        await. Endings survive it; a raised abort flag stays raised; an entry
        being transferred stays listed and uploading unless it is the one
        removed; and cancelling it raises its flag. */
    method Dispatch(e: Event)
      requires Valid()
      modifies this
      ensures Valid()
      ensures StatusesKept()
      ensures nextId >= old(nextId) && isUploading == old(isUploading) && ticking == old(ticking)
      ensures calls == old(calls) && invalidations == old(invalidations)
      ensures controllers.Keys == old(controllers).Keys
      ensures forall k :: k in old(controllers) && e != CancelEvent(k) ==> controllers[k] == old(controllers)[k]
      ensures forall k :: k in old(controllers) && old(controllers)[k] ==> controllers[k]
      ensures e.CancelEvent? && e.id in old(controllers) && Transferring(old(uploads), e.id) ==> controllers[e.id]
      ensures forall k :: Transferring(old(uploads), k) && e != RemoveEvent(k) ==> Transferring(uploads, k)
      ensures EndingsKept(old(uploads), uploads, old(nextId))
      ensures e.TickEvent? ==> SameIds(old(uploads), uploads)
    {
      match e
      case TickEvent(id) =>
        Tick(id);
        forall other: Uuid, st: UploadStatus | other < old(nextId) && OnlyStatus(old(uploads), other, st)
          ensures OnlyStatus(uploads, other, st)
        {
        }
        if id in old(ticking) {
          UpdateKeepsEndings(old(uploads), id, Advance, Queued, old(nextId));
          forall k | Transferring(old(uploads), k) ensures Transferring(uploads, k) {
            UpdateKeepsTransferring(old(uploads), id, Advance, k);
          }
        }
      case CancelEvent(id) =>
        CancelUpload(id);
        forall other: Uuid, st: UploadStatus | other < old(nextId) && OnlyStatus(old(uploads), other, st)
          ensures OnlyStatus(uploads, other, st)
        {
          FilterKeepsOnlyStatus(old(uploads), OtherId(id), other, st);
        }
        CancelKeeps(old(uploads), old(controllers), id, old(nextId));
      case RemoveEvent(id) =>
        RemoveFromQueue(id);
        forall other: Uuid, st: UploadStatus | other < old(nextId) && OnlyStatus(old(uploads), other, st)
          ensures OnlyStatus(uploads, other, st)
        {
          FilterKeepsOnlyStatus(old(uploads), OtherId(id), other, st);
        }
        FilterKeepsEndings(old(uploads), OtherId(id), old(nextId));
        forall k | Transferring(old(uploads), k) && k != id ensures Transferring(uploads, k) {
          FilterKeepsTransferring(old(uploads), OtherId(id), k);
        }
      case ClearEvent =>
        ClearCompleted();
        forall other: Uuid, st: UploadStatus | other < old(nextId) && OnlyStatus(old(uploads), other, st)
          ensures OnlyStatus(uploads, other, st)
        {
          FilterKeepsOnlyStatus(old(uploads), Unsettled, other, st);
        }
        FilterKeepsEndings(old(uploads), Unsettled, old(nextId));
        forall k | Transferring(old(uploads), k) ensures Transferring(uploads, k) {
          FilterKeepsTransferring(old(uploads), Unsettled, k);
        }
      case QueueEvent(file) =>
        QueueFile(file);
        forall k | Transferring(old(uploads), k) ensures Transferring(uploads, k) {
          var i :| 0 <= i < |old(uploads)| && old(uploads)[i].id == k;
          assert uploads[i] == old(uploads)[i];
        }
    }

    /** The actions that run during one await, in order. A `cancelUpload` of
        an entry being transferred, with no `removeFromQueue` of it before,
        leaves its abort flag raised. */
    method DispatchAll(es: seq<Event>)
      requires Valid()
      modifies this
      ensures Valid()
      ensures StatusesKept()
      ensures nextId >= old(nextId) && isUploading == old(isUploading) && ticking == old(ticking)
      ensures calls == old(calls) && invalidations == old(invalidations)
      ensures controllers.Keys == old(controllers).Keys
      ensures forall k :: k in old(controllers) && CancelEvent(k) !in es ==> controllers[k] == old(controllers)[k]
      ensures forall k :: k in old(controllers) && old(controllers)[k] ==> controllers[k]
      ensures forall k :: k in old(controllers) && Transferring(old(uploads), k) && CancelledBy(es, |es|, k) ==> controllers[k]
      ensures EndingsKept(old(uploads), uploads, old(nextId))
      ensures Quiet(es) ==> SameIds(old(uploads), uploads)
    {
      var i := 0;
      while i < |es|
        invariant 0 <= i <= |es|
        invariant Valid()
        invariant forall id: Uuid, st: UploadStatus :: id < old(nextId) && OnlyStatus(old(uploads), id, st) ==> OnlyStatus(uploads, id, st)
        invariant nextId >= old(nextId) && isUploading == old(isUploading) && ticking == old(ticking)
        invariant calls == old(calls) && invalidations == old(invalidations)
        invariant controllers.Keys == old(controllers).Keys
        invariant forall k :: k in old(controllers) && CancelEvent(k) !in es[..i] ==> controllers[k] == old(controllers)[k]
        invariant forall k :: k in old(controllers) && old(controllers)[k] ==> controllers[k]
        invariant forall k :: Transferring(old(uploads), k) && NoRemoveBefore(es, i, k) ==> Transferring(uploads, k)
        invariant forall k :: k in old(controllers) && Transferring(old(uploads), k) && CancelledBy(es, i, k) ==> controllers[k]
        invariant EndingsKept(old(uploads), uploads, old(nextId))
        invariant Quiet(es) ==> SameIds(old(uploads), uploads)
      {
        ghost var uploads0, controllers0 := uploads, controllers;
        Dispatch(es[i]);
        forall k | k in old(controllers) && Transferring(old(uploads), k) && CancelledBy(es, i + 1, k)
          ensures controllers[k]
        {
          var j :| 0 <= j < i + 1 && es[j] == CancelEvent(k) && NoRemoveBefore(es, j, k);
          if j < i {
            assert CancelledBy(es, i, k);
          } else {
            assert Transferring(uploads0, k);
          }
        }
        forall k | Transferring(old(uploads), k) && NoRemoveBefore(es, i + 1, k) ensures Transferring(uploads, k) {
          assert NoRemoveBefore(es, i, k);
          assert es[i] != RemoveEvent(k);
        }
        assert es[..i + 1] == es[..i] + [es[i]];
        i := i + 1;
      }
      assert es[..i] == es;
    }

    /** The synchronous start of `uploadSingleFile`, up to the store call:
        register the controller, mark the entry uploading, start the interval.
        The abort check before the store (line 126 of the hook) is not a step
        here: the controller is created in this same synchronous run, so it
        cannot have been aborted yet. */
    method BeginTransfer(item: UploadItem, userId: string) returns (path: string)
      requires Valid()
      requires OnlyStatus(uploads, item.id, Queued)
      modifies this
      ensures Valid()
      ensures path == FilePath(userId, item.contentId, item.file.name)
      ensures controllers == old(controllers)[item.id := false]
      ensures uploads == UpdateEntries(old(uploads), item.id, SetStatus(Uploading))
      ensures ticking == old(ticking) + {item.id}
      ensures calls == old(calls) + [Store(path, item.file)]
      ensures nextId == old(nextId) && isUploading == old(isUploading) && invalidations == old(invalidations)
    {
      controllers := controllers[item.id := false];
      UpdatePreservesWellFormed(uploads, nextId, item.id, SetStatus(Uploading));
      uploads := UpdateEntries(uploads, item.id, SetStatus(Uploading));
      path := FilePath(userId, item.contentId, item.file.name);
      ticking := ticking + {item.id};
      calls := calls + [Store(path, item.file)];
    }

    /** The success path after the store: stop the interval, mark the entry
        processing at 100 %, classify the type again and send the create
        request. Returns what is thrown, if anything. */
    method CreateStep(item: UploadItem, path: string, token: string, whileCreating: seq<Event>, create: Outcome)
      returns (thrown: Option<Thrown>)
      requires Valid() && item.id < nextId
      requires OnlyStatus(uploads, item.id, Uploading)
      modifies this
      ensures Valid()
      ensures thrown == TransferThrown(false, Resolved, StoreResolved(None), item.file.mimeType, create)
      ensures calls == old(calls) + if CreateBody(item.file, path).Some? then [CreateItem(CreateBody(item.file, path).value, token)] else []
      ensures thrown.None? ==> OnlyStatus(uploads, item.id, Complete)
      ensures thrown.Some? ==> OnlyStatus(uploads, item.id, Processing)
      ensures ticking == old(ticking) - {item.id}
      ensures controllers.Keys == old(controllers).Keys
      ensures nextId >= old(nextId) && isUploading == old(isUploading) && invalidations == old(invalidations)
      ensures forall id: Uuid, st: UploadStatus :: id < old(nextId) && id != item.id && OnlyStatus(old(uploads), id, st) ==> OnlyStatus(uploads, id, st)
      ensures EndingsKept(old(uploads), uploads, old(nextId))
      ensures Quiet(whileCreating) ==> SameIds(old(uploads), uploads)
    {
      ghost var uploads0 := uploads;
      ticking := ticking - {item.id};
      UpdatePreservesWellFormed(uploads, nextId, item.id, SetProcessing);
      uploads := UpdateEntries(uploads, item.id, SetProcessing);
      UpdateSetsStatus(uploads0, item.id, SetProcessing);
      UpdateKeepsAllOthers(uploads0, item.id, SetProcessing);
      UpdateKeepsEndings(uploads0, item.id, SetProcessing, Uploading, nextId);
      ghost var uploads1 := uploads;
      match GetContentType(item.file.mimeType)
      case Err(msg) =>
        thrown := Some(ErrorObject("Error", msg));
      case Ok(kind) =>
        var body := Content.TransformContentRequest(
          Content.CreateContentRequest(kind, item.file.name, path, item.file.size, item.file.mimeType));
        calls := calls + [CreateItem(body, token)];
        DispatchAll(whileCreating);
        assert OnlyStatus(uploads, item.id, Processing);
        if create.Rejected? {
          thrown := Some(create.error);
        } else {
          thrown := None;
          UpdatePreservesWellFormed(uploads, nextId, item.id, SetStatus(Complete));
          ghost var uploads2 := uploads;
          uploads := UpdateEntries(uploads, item.id, SetStatus(Complete));
          UpdateSetsStatus(uploads2, item.id, SetStatus(Complete));
          UpdateKeepsAllOthers(uploads2, item.id, SetStatus(Complete));
          UpdateKeepsEndings(uploads2, item.id, SetStatus(Complete), Processing, nextId);
        }
    }

    /** The catch and finally blocks: stop the interval, record a failure or a
        cancellation, drop the controller. */
    method SettleTransfer(id: Uuid, thrown: Option<Thrown>) returns (ending: Ending)
      requires Valid()
      requires thrown.None? ==> OnlyStatus(uploads, id, Complete)
      requires thrown.Some? ==> OnlyStatus(uploads, id, Uploading) || OnlyStatus(uploads, id, Processing)
      modifies this
      ensures Valid()
      ensures ending == SettleOf(thrown)
      ensures uploads == if thrown.None? then old(uploads) else UpdateEntries(old(uploads), id, EndingChange(ending))
      ensures EndedAs(uploads, id, ending)
      ensures ticking == old(ticking) - {id}
      ensures controllers == old(controllers) - {id}
      ensures calls == old(calls) && nextId == old(nextId) && isUploading == old(isUploading)
      ensures invalidations == old(invalidations)
      ensures EndingsKept(old(uploads), uploads, old(nextId)) && SameIds(old(uploads), uploads)
    {
      ticking := ticking - {id};
      ending := SettleOf(thrown);
      if thrown.Some? {
        UpdatePreservesWellFormed(uploads, nextId, id, EndingChange(ending));
        if OnlyStatus(uploads, id, Uploading) {
          UpdateKeepsEndings(uploads, id, EndingChange(ending), Uploading, nextId);
        } else {
          UpdateKeepsEndings(uploads, id, EndingChange(ending), Processing, nextId);
        }
        uploads := UpdateEntries(uploads, id, EndingChange(ending));
      }
      controllers := controllers - {id};
    }

    /** The synchronous start and the awaited store call, with the user's
        actions running meanwhile: the entry is uploading, and its abort flag
        is raised exactly when a cancel of it got through. */
    method StoreStep(item: UploadItem, userId: string, whileStoring: seq<Event>) returns (path: string)
      requires Valid()
      requires item.id < nextId && OnlyStatus(uploads, item.id, Queued)
      modifies this
      ensures Valid()
      ensures path == FilePath(userId, item.contentId, item.file.name)
      ensures calls == old(calls) + [Store(path, item.file)]
      ensures item.id in controllers && controllers.Keys == old(controllers).Keys + {item.id}
      ensures CancelEvent(item.id) !in whileStoring ==> !controllers[item.id]
      ensures !Absent(old(uploads), item.id) && CancelledBy(whileStoring, |whileStoring|, item.id) ==> controllers[item.id]
      ensures OnlyStatus(uploads, item.id, Uploading)
      ensures ticking == old(ticking) + {item.id}
      ensures nextId >= old(nextId) && isUploading == old(isUploading) && invalidations == old(invalidations)
      ensures forall id: Uuid, st: UploadStatus :: id < old(nextId) && id != item.id && OnlyStatus(old(uploads), id, st) ==> OnlyStatus(uploads, id, st)
      ensures EndingsKept(old(uploads), uploads, old(nextId))
      ensures Quiet(whileStoring) ==> SameIds(old(uploads), uploads)
    {
      ghost var uploads0 := uploads;
      path := BeginTransfer(item, userId);
      UpdateSetsStatus(uploads0, item.id, SetStatus(Uploading));
      UpdateKeepsAllOthers(uploads0, item.id, SetStatus(Uploading));
      UpdateKeepsEndings(uploads0, item.id, SetStatus(Uploading), Queued, nextId);
      if !Absent(uploads0, item.id) {
        var i :| 0 <= i < |uploads0| && uploads0[i].id == item.id;
        assert uploads[i].id == item.id;
        assert Transferring(uploads, item.id);
      }
      DispatchAll(whileStoring);
    }

    /** From the settled store call to the value that reaches the catch block:
        the abort check comes before the store error is looked at, and a seen
        abort removes the stored object before throwing. */
    method AfterStore(item: UploadItem, path: string, token: string, script: Script)
      returns (abortSeen: bool, thrown: Option<Thrown>)
      requires Valid() && item.id < nextId && item.id in controllers
      requires OnlyStatus(uploads, item.id, Uploading)
      modifies this
      ensures Valid()
      ensures abortSeen == (script.store.StoreResolved? && old(controllers)[item.id])
      ensures thrown == TransferThrown(abortSeen, script.remove, script.store, item.file.mimeType, script.create)
      ensures calls == old(calls) + (
        if abortSeen then [Remove(path)]
        else if script.store == StoreResolved(None) && CreateBody(item.file, path).Some? then [CreateItem(CreateBody(item.file, path).value, token)]
        else [])
      ensures thrown.None? ==> OnlyStatus(uploads, item.id, Complete)
      ensures thrown.Some? ==> OnlyStatus(uploads, item.id, Uploading) || OnlyStatus(uploads, item.id, Processing)
      ensures EndingsKept(old(uploads), uploads, old(nextId))
      ensures QuietScript(script) ==> SameIds(old(uploads), uploads)
      ensures ticking <= old(ticking) && old(ticking) - {item.id} <= ticking
      ensures controllers.Keys == old(controllers).Keys
      ensures nextId >= old(nextId) && isUploading == old(isUploading) && invalidations == old(invalidations)
      ensures forall id: Uuid, st: UploadStatus :: id < old(nextId) && id != item.id && OnlyStatus(old(uploads), id, st) ==> OnlyStatus(uploads, id, st)
    {
      if script.store.StoreRejected? {
        // the awaited upload itself rejects: straight to the catch block
        abortSeen, thrown := false, Some(script.store.reason);
        return;
      }
      abortSeen := controllers[item.id];
      if abortSeen {
        calls := calls + [Remove(path)];
        DispatchAll(script.whileRemoving);
        thrown := if script.remove.Rejected? then Some(script.remove.error) else Some(UPLOAD_CANCELLED);
      } else if script.store.error.Some? {
        thrown := script.store.error;
      } else {
        thrown := CreateStep(item, path, token, script.whileCreating, script.create);
      }
    }

    /** `uploadSingleFile`: one transfer, from the store call to the settled
        entry, with the user's actions running at each await. */
    method UploadSingleFile(item: UploadItem, userId: string, token: string, script: Script)
      returns (path: string, abortSeen: bool, ending: Ending)
      requires Valid()
      requires item.id < nextId && OnlyStatus(uploads, item.id, Queued)
      modifies this
      ensures Valid()
      ensures path == FilePath(userId, item.contentId, item.file.name)
      ensures |calls| > |old(calls)| && calls[..|old(calls)|] == old(calls)
      ensures TransferCalls(calls[|old(calls)|..], path, item.file, token)
      ensures abortSeen <==> calls[|old(calls)|..] == [Store(path, item.file), Remove(path)]
      ensures (!abortSeen && script.store == StoreResolved(None) && GetContentType(item.file.mimeType).Ok?) <==>
                CreateBody(item.file, path).Some?
                && calls[|old(calls)|..] == [Store(path, item.file), CreateItem(CreateBody(item.file, path).value, token)]
      ensures CancelEvent(item.id) !in script.whileStoring ==> !abortSeen
      ensures (script.store.StoreResolved? && !Absent(old(uploads), item.id)
               && CancelledBy(script.whileStoring, |script.whileStoring|, item.id)) ==> abortSeen
      ensures script.store.StoreRejected? ==>
                !abortSeen && calls[|old(calls)|..] == [Store(path, item.file)] && ending == SettleOf(Some(script.store.reason))
      ensures ending == SettleOf(TransferThrown(abortSeen, script.remove, script.store, item.file.mimeType, script.create))
      ensures abortSeen && script.remove.Resolved? ==> ending == WasCancelled
      ensures EndedAs(uploads, item.id, ending)
      ensures EndingsKept(old(uploads), uploads, old(nextId))
      ensures QuietScript(script) ==> SameIds(old(uploads), uploads)
      ensures item.id !in controllers && controllers.Keys == old(controllers).Keys - {item.id}
      ensures ticking == old(ticking) - {item.id}
      ensures nextId >= old(nextId) && isUploading == old(isUploading) && invalidations == old(invalidations)
      ensures forall id: Uuid, st: UploadStatus :: id < old(nextId) && id != item.id && OnlyStatus(old(uploads), id, st) ==> OnlyStatus(uploads, id, st)
    {
      path := StoreStep(item, userId, script.whileStoring);
      ghost var calls1, uploads1, next1 := calls, uploads, nextId;
      var thrown: Option<Thrown>;
      abortSeen, thrown := AfterStore(item, path, token, script);
      ghost var uploads2, next2 := uploads, nextId;
      ending := SettleTransfer(item.id, thrown);
      EndingsKeptTrans(old(uploads), uploads1, uploads2, old(nextId), next1);
      EndingsKeptTrans(old(uploads), uploads2, uploads, old(nextId), next2);
      assert calls[|old(calls)|..] == [Store(path, item.file)] + calls[|calls1|..];
      TransferShapes(path, item.file, token, abortSeen, script.store, calls[|calls1|..]);
    }
  
    /** One turn of the start loop: the per-entry check against `list`, and the
        transfer when it passes. Returns the calls issued. */
    method RunTurn(item: UploadItem, list: seq<UploadItem>, userId: string, token: string, script: Script)
      returns (ghost block: seq<Call>)
      requires Valid()
      requires item.id < nextId && OnlyStatus(uploads, item.id, Queued)
      modifies this
      ensures Valid()
      ensures calls == old(calls) + block
      ensures block == [] <==> !StillQueued(list, item.id)
      ensures block != [] ==> TransferCalls(block, PathOf(userId, item), item.file, token)
      ensures block != [] ==> EndedAs(uploads, item.id, TurnEnding(block, item, userId, script))
      ensures block != [] ==> AbortOnlyIfCancelled(block, item, userId, script)
      ensures block != [] && script.store.StoreResolved? && !Absent(old(uploads), item.id)
              && CancelledBy(script.whileStoring, |script.whileStoring|, item.id) ==>
        block == [Store(PathOf(userId, item), item.file), Remove(PathOf(userId, item))]
      ensures block != [] && script.store.StoreRejected? ==> block == [Store(PathOf(userId, item), item.file)]
      ensures EndingsKept(old(uploads), uploads, old(nextId))
      ensures QuietScript(script) ==> SameIds(old(uploads), uploads)
      ensures nextId >= old(nextId) && isUploading == old(isUploading) && invalidations == old(invalidations)
      ensures forall id: Uuid, st: UploadStatus :: id < old(nextId) && id != item.id && OnlyStatus(old(uploads), id, st) ==> OnlyStatus(uploads, id, st)
    {
      block := [];
      if StillQueued(list, item.id) {
        ghost var before := calls;
        var path, abortSeen, ending := UploadSingleFile(item, userId, token, script);
        block := calls[|before|..];
        assert calls == before + block;
      }
    }

    /** The `for` loop of `startUpload`: each snapshot entry that passes the
        per-entry check is transferred, one after the other. The check reads
        `start` (the list captured when the run began) or, when `live`, the
        list as it is at the entry's turn. `blocks` holds each entry's calls
        and `turns` the list at each entry's turn. */
    method RunQueued(snapshot: seq<UploadItem>, start: seq<UploadItem>, live: bool,
                     userId: string, token: string, scripts: seq<Script>)
      returns (ghost blocks: seq<seq<Call>>, ghost turns: seq<seq<UploadItem>>)
      requires Valid()
      requires |scripts| == |snapshot| && Distinct(snapshot)
      requires forall j :: 0 <= j < |snapshot| ==> Waiting(uploads, snapshot[j], nextId)
      requires !live ==> forall j :: 0 <= j < |snapshot| ==> StillQueued(start, snapshot[j].id)
      modifies this
      ensures Valid()
      ensures |blocks| == |snapshot| && |turns| == |snapshot|
      ensures calls == old(calls) + Flatten(blocks)
      ensures forall j :: 0 <= j < |snapshot| ==> TurnOk(blocks[j], turns[j], snapshot[j], live, userId, token)
      ensures forall j :: 0 <= j < |snapshot| && blocks[j] != [] ==>
        EndedAs(uploads, snapshot[j].id, TurnEnding(blocks[j], snapshot[j], userId, scripts[j]))
      ensures forall j :: 0 <= j < |snapshot| && blocks[j] != [] ==> AbortOnlyIfCancelled(blocks[j], snapshot[j], userId, scripts[j])
      ensures EndingsKept(old(uploads), uploads, old(nextId))
      ensures QuietAll(scripts) ==> SameIds(old(uploads), uploads)
      ensures nextId >= old(nextId) && isUploading == old(isUploading) && invalidations == old(invalidations)
    {
      blocks := [];
      turns := [];
      var i := 0;
      while i < |snapshot|
        invariant 0 <= i <= |snapshot| && |blocks| == i && |turns| == i
        invariant Valid()
        invariant calls == old(calls) + Flatten(blocks)
        invariant TurnsOk(blocks, turns, snapshot, live, userId, token, i)
        invariant WaitingFrom(uploads, snapshot, i, nextId)
        invariant forall j :: 0 <= j < |snapshot| ==> snapshot[j].id < old(nextId)
        invariant TurnsEnded(uploads, snapshot, blocks, userId, scripts, i)
        invariant EndingsKept(old(uploads), uploads, old(nextId))
        invariant QuietAll(scripts) ==> SameIds(old(uploads), uploads)
        invariant nextId >= old(nextId) && isUploading == old(isUploading) && invalidations == old(invalidations)
      {
        var item := snapshot[i];
        var list := if live then uploads else start;
        ghost var turn := uploads;
        ghost var next0 := nextId;
        assert Waiting(uploads, item, nextId);
        ghost var block := RunTurn(item, list, userId, token, scripts[i]);
        TurnsOkSnoc(blocks, turns, snapshot, live, userId, token, block, turn);
        WaitingAfterTurn(turn, uploads, snapshot, i, next0, nextId);
        TurnsEndedSnoc(turn, uploads, old(nextId), snapshot, blocks, block, userId, scripts);
        EndingsKeptTrans(old(uploads), turn, uploads, old(nextId), next0);
        FlattenSnoc(blocks, block);
        blocks := blocks + [block];
        turns := turns + [turn];
        i := i + 1;
      }
    }

    /** `startUpload`, against the list `start` the check reads (`live`) and the
        key it invalidates (`key`). Nothing happens without queued entries;
        otherwise `isUploading` is set for the run (`flagDuringRun` is its value
        once the session is known) and cleared at its end. A
        rejected session lookup is passed on; without a user every entry then
        queued fails with `Not authenticated` and nothing is sent; with one the
        snapshot is run through and the key invalidated once. */
    method RunStart(session: Result<Option<Session>, Thrown>, whileGettingSession: seq<Event>,
                    scripts: seq<Script>, live: bool, key: seq<string>)
      returns (thrown: Option<Thrown>, ghost snapshot: seq<UploadItem>, ghost afterSession: seq<UploadItem>,
               ghost blocks: seq<seq<Call>>, ghost turns: seq<seq<UploadItem>>, ghost flagDuringRun: bool)
      requires Valid() && |scripts| == QueuedCount(uploads)
      modifies this
      ensures Valid()
      ensures snapshot == QueuedOf(old(uploads))
      ensures snapshot == [] ==> thrown.None? && unchanged(this)
      ensures snapshot != [] ==> flagDuringRun && !isUploading
      ensures thrown == if snapshot != [] && session.Err? then Some(session.error) else None
      ensures snapshot != [] && !HasUser(session) ==> calls == old(calls) && invalidations == old(invalidations)
      ensures snapshot != [] && session.Err? ==> uploads == afterSession
      ensures snapshot != [] && session.Ok? && !HasUser(session) ==>
        uploads == MarkUnauthenticated(afterSession) && !HasQueuedFiles(uploads)
      ensures snapshot != [] && HasUser(session) ==>
        && |blocks| == |snapshot| && |turns| == |snapshot|
        && calls == old(calls) + Flatten(blocks)
        && (forall j :: 0 <= j < |snapshot| ==> (blocks[j] == [] <==> live && !StillQueued(turns[j], snapshot[j].id)))
        && (forall j :: 0 <= j < |snapshot| && blocks[j] != [] ==>
              TransferCalls(blocks[j], PathOf(UserIdOf(session), snapshot[j]), snapshot[j].file, TokenOf(session)))
        && (forall j :: 0 <= j < |snapshot| && blocks[j] != [] ==>
              EndedAs(uploads, snapshot[j].id, TurnEnding(blocks[j], snapshot[j], UserIdOf(session), scripts[j])))
        && (forall j :: 0 <= j < |snapshot| && blocks[j] != [] ==>
              AbortOnlyIfCancelled(blocks[j], snapshot[j], UserIdOf(session), scripts[j]))
        && (Quiet(whileGettingSession) && QuietAll(scripts) ==> SameIds(old(uploads), uploads))
        && invalidations == old(invalidations) + [key]
      ensures EndingsKept(old(uploads), uploads, old(nextId))
    {
      var start := uploads;
      var queuedUploads := QueuedOf(uploads);
      snapshot := queuedUploads;
      afterSession := uploads;
      blocks := [];
      turns := [];
      thrown := None;
      flagDuringRun := false;
      if queuedUploads == [] {
        return;
      }
      SnapshotQueued(start, nextId);
      isUploading := true;
      DispatchAll(whileGettingSession);
      flagDuringRun := isUploading;
      afterSession := uploads;
      ghost var next1 := nextId;
      if session.Err? {
        thrown := Some(session.error);
      } else if !HasUser(session) {
        MarkUnauthenticatedSpec(uploads, nextId);
        MarkUnauthenticatedKeepsEndings(uploads, nextId, nextId);
        uploads := MarkUnauthenticated(uploads);
        EndingsKeptTrans(old(uploads), afterSession, uploads, old(nextId), next1);
      } else {
        if !live {
          forall j | 0 <= j < |queuedUploads| ensures StillQueued(start, queuedUploads[j].id) {
            SnapshotCheckNeverSkips(start, j);
          }
        }
        blocks, turns := RunQueued(queuedUploads, start, live, UserIdOf(session), TokenOf(session), scripts);
        EndingsKeptTrans(old(uploads), afterSession, uploads, old(nextId), next1);
        invalidations := invalidations + [key];
      }
      isUploading := false;
    }

    /** `startUpload` as written: the per-entry check reads the list captured
        when the run began, so every snapshot entry is transferred, even one
        cancelled or removed while an earlier one was running. */
    method StartUpload(session: Result<Option<Session>, Thrown>, whileGettingSession: seq<Event>, scripts: seq<Script>)
      returns (thrown: Option<Thrown>, ghost snapshot: seq<UploadItem>, ghost blocks: seq<seq<Call>>)
      requires Valid() && |scripts| == QueuedCount(uploads)
      modifies this
      ensures Valid()
      ensures snapshot == QueuedOf(old(uploads))
      ensures snapshot == [] ==> thrown.None? && unchanged(this)
      ensures snapshot != [] ==> !isUploading
      ensures thrown == if snapshot != [] && session.Err? then Some(session.error) else None
      ensures snapshot != [] && !HasUser(session) ==> calls == old(calls) && invalidations == old(invalidations)
      ensures snapshot != [] && session.Ok? && !HasUser(session) ==> !HasQueuedFiles(uploads)
      ensures snapshot != [] && HasUser(session) ==>
        && |blocks| == |snapshot|
        && calls == old(calls) + Flatten(blocks)
        && (forall j :: 0 <= j < |snapshot| ==>
              && blocks[j] != []
              && blocks[j][0] == Store(PathOf(UserIdOf(session), snapshot[j]), snapshot[j].file)
              && TransferCalls(blocks[j], PathOf(UserIdOf(session), snapshot[j]), snapshot[j].file, TokenOf(session)))
        && (forall j :: 0 <= j < |snapshot| ==>
              EndedAs(uploads, snapshot[j].id, TurnEnding(blocks[j], snapshot[j], UserIdOf(session), scripts[j])))
        && (forall j :: 0 <= j < |snapshot| ==> AbortOnlyIfCancelled(blocks[j], snapshot[j], UserIdOf(session), scripts[j]))
        && (Quiet(whileGettingSession) && QuietAll(scripts) ==> SameIds(old(uploads), uploads))
        && invalidations == old(invalidations) + [CONTENT_KEY]
      ensures EndingsKept(old(uploads), uploads, old(nextId))
    {
      ghost var afterSession, turns, flag;
      thrown, snapshot, afterSession, blocks, turns, flag := RunStart(session, whileGettingSession, scripts, false, CONTENT_KEY);
    }

    /** `startUpload` as evidently intended: the per-entry check reads the live
        list, so an entry cancelled or removed before its turn is not sent, and
        the key invalidated is the content list's own. */
    method StartUploadCorrected(session: Result<Option<Session>, Thrown>, whileGettingSession: seq<Event>,
                                scripts: seq<Script>)
      returns (thrown: Option<Thrown>, ghost snapshot: seq<UploadItem>, ghost blocks: seq<seq<Call>>,
               ghost turns: seq<seq<UploadItem>>)
      requires Valid() && |scripts| == QueuedCount(uploads)
      modifies this
      ensures Valid()
      ensures snapshot == QueuedOf(old(uploads))
      ensures snapshot == [] ==> thrown.None? && unchanged(this)
      ensures snapshot != [] ==> !isUploading
      ensures thrown == if snapshot != [] && session.Err? then Some(session.error) else None
      ensures snapshot != [] && !HasUser(session) ==> calls == old(calls) && invalidations == old(invalidations)
      ensures snapshot != [] && session.Ok? && !HasUser(session) ==> !HasQueuedFiles(uploads)
      ensures snapshot != [] && HasUser(session) ==>
        && |blocks| == |snapshot| && |turns| == |snapshot|
        && calls == old(calls) + Flatten(blocks)
        && (forall j :: 0 <= j < |snapshot| ==> (blocks[j] == [] <==> !StillQueued(turns[j], snapshot[j].id)))
        && (forall j :: 0 <= j < |snapshot| && Absent(turns[j], snapshot[j].id) ==> blocks[j] == [])
        && (forall j :: 0 <= j < |snapshot| && blocks[j] != [] ==>
              TransferCalls(blocks[j], PathOf(UserIdOf(session), snapshot[j]), snapshot[j].file, TokenOf(session)))
        && (forall j :: 0 <= j < |snapshot| && blocks[j] != [] ==>
              EndedAs(uploads, snapshot[j].id, TurnEnding(blocks[j], snapshot[j], UserIdOf(session), scripts[j])))
        && (forall j :: 0 <= j < |snapshot| && blocks[j] != [] ==>
              AbortOnlyIfCancelled(blocks[j], snapshot[j], UserIdOf(session), scripts[j]))
        && (Quiet(whileGettingSession) && QuietAll(scripts) ==> SameIds(old(uploads), uploads))
        && invalidations == old(invalidations) + [ContentItems.ITEMS_QUERY_KEY]
      ensures EndingsKept(old(uploads), uploads, old(nextId))
    {
      ghost var afterSession, flag;
      thrown, snapshot, afterSession, blocks, turns, flag := RunStart(session, whileGettingSession, scripts, true, ContentItems.ITEMS_QUERY_KEY);
    }
}

  /** A clean run: one text file queued, a signed-in user, nothing happening
      meanwhile and every call succeeding; the entry ends complete at 100 %. */
  method CleanRunCompletes() returns (h: ContentUpload, thrown: Option<Thrown>)
    ensures thrown.None?
    ensures |h.uploads| == 1 && h.uploads[0].status == Complete && h.uploads[0].progress == 100
    ensures !h.isUploading && h.invalidations == [CONTENT_KEY]
  {
    h := new ContentUpload();
    var file := FileInfo("a.txt", 12, "text/plain");
    assert TEXT_PREFIX <= file.mimeType by {
      assert file.mimeType[..|TEXT_PREFIX|] == TEXT_PREFIX;
    }
    h.QueueFile(file);
    var entry := NewEntry(file, 0);
    assert h.uploads == [entry] && entry.status == Queued;
    assert QueuedOf(h.uploads) == [entry] by {
      assert h.uploads[1..] == [];
    }
    var script := Script([], StoreResolved(None), [], Resolved, [], Resolved);
    ghost var snapshot, blocks;
    thrown, snapshot, blocks := h.StartUpload(Ok(Some(Session(Some(User("u1")), "tok"))), [], [script]);
    assert snapshot == [entry];
    assert h.uploads[0].id == entry.id;
    assert TurnEnding(blocks[0], entry, "u1", script) == Completed;
  }

  /** A cancel while the store is in flight: the transfer sees the abort,
      removes the stored object and ends cancelled. */
  method CancelDuringStoreCancels() returns (h: ContentUpload, ending: Ending)
    ensures ending == WasCancelled
    ensures h.calls == [Store(FilePath("u1", Some(1), "a.txt"), FileInfo("a.txt", 12, "text/plain")),
                        Remove(FilePath("u1", Some(1), "a.txt"))]
  {
    h := new ContentUpload();
    var file := FileInfo("a.txt", 12, "text/plain");
    assert TEXT_PREFIX <= file.mimeType by {
      assert file.mimeType[..|TEXT_PREFIX|] == TEXT_PREFIX;
    }
    h.QueueFile(file);
    var entry := NewEntry(file, 0);
    assert h.uploads == [entry] && entry.status == Queued && entry.contentId == Some(1);
    assert h.uploads[0].id == entry.id;
    var events := [CancelEvent(entry.id)];
    assert CancelledBy(events, 1, entry.id) by {
      assert events[0] == CancelEvent(entry.id) && NoRemoveBefore(events, 0, entry.id);
    }
    var path, abortSeen;
    path, abortSeen, ending := h.UploadSingleFile(entry, "u1", "tok", Script(events, StoreResolved(None), [], Resolved, [], Resolved));
    assert h.calls == h.calls[0..];
  }

  /** A cancel while the store is in flight, when the store itself rejects:
      the abort check is skipped, no clean-up remove is sent and the catch
      block fails the entry with the rejection's message. */
  method CancelDuringRejectedStoreFails() returns (h: ContentUpload, ending: Ending)
    ensures ending == Failed("network down")
    ensures h.calls == [Store(FilePath("u1", Some(1), "a.txt"), FileInfo("a.txt", 12, "text/plain"))]
  {
    h := new ContentUpload();
    var file := FileInfo("a.txt", 12, "text/plain");
    h.QueueFile(file);
    var entry := NewEntry(file, 0);
    assert h.uploads == [entry] && entry.status == Queued && entry.contentId == Some(1);
    var events := [CancelEvent(entry.id)];
    var store := StoreRejected(ErrorObject("TypeError", "network down"));
    var path, abortSeen;
    path, abortSeen, ending := h.UploadSingleFile(entry, "u1", "tok", Script(events, store, [], Resolved, [], Resolved));
    assert "network down" != "Upload cancelled" by { assert "network down"[0] != "Upload cancelled"[0]; }
    assert h.calls == h.calls[0..];
  }
}
