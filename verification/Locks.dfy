/**
 * The locking of any number of concurrent request handlers, one lock operation or critical section a step:
 * the mutexes of the manifest and the blob handler and the readers-writer lock of the cid store
 * (manifest.go, blobs.go, cids.go).
 */
module Locks {
  import opened Text
  import opened BlobSpec

  datatype Commit = Commit(repo: string, digest: string, data: Bytes)

  /** Where a handler stands. "Start" and the index states without "-ing" wait for a lock. */
  datatype Pc =
    // manifest GET and HEAD: any number of lookups and additions under the manifest mutex
    | ReadStart | ReadHeld | ReadLookup | ReadLookingUp | ReadAdd | ReadAdding
    // manifest PUT: index check, get, remove, AddImage, three additions
    | PutStart(repo: string) | PutHeld(repo: string)
    | PutGet(repo: string) | PutGetting(repo: string)
    | PutRemove(repo: string, got: seq<string>) | PutRemoving(repo: string, got: seq<string>)
    | PutSend(got: seq<string>, leaked: bool) | PutAdd(left: nat, leaked: bool) | PutAdding(left: nat, leaked: bool)
    // blob HEAD: a lookup under the blob mutex
    | HeadStart | HeadHeld | HeadLookup | HeadLookingUp
    // blob GET and dig: a lookup under no mutex
    | LookStart | LookingUp
    // blob POST, PATCH and PUT; a commit names the repository and the digest and has the bytes
    | WriteStart(commit: Option<Commit>) | WriteHeld(commit: Option<Commit>)
    // gone; `leaked` if it still holds the blob mutex, `failed` if its `get` failed
    | Done(leaked: bool, failed: bool)

  predicate Arriving(pc: Pc) {
    pc.ReadStart? || pc.PutStart? || pc.HeadStart? || pc.LookStart? || pc.WriteStart?
  }

  predicate HoldsManifests(pc: Pc) {
    pc.ReadHeld? || pc.ReadLookup? || pc.ReadLookingUp? || pc.ReadAdd? || pc.ReadAdding?
    || pc.PutHeld? || pc.PutGet? || pc.PutGetting? || pc.PutRemove? || pc.PutRemoving?
    || pc.PutSend? || pc.PutAdd? || pc.PutAdding?
  }

  predicate HoldsBlobs(pc: Pc) {
    pc.PutGetting? || pc.PutRemoving? || pc.HeadHeld? || pc.HeadLookup? || pc.HeadLookingUp? || pc.WriteHeld?
    || ((pc.PutSend? || pc.PutAdd? || pc.PutAdding? || pc.Done?) && pc.leaked)
  }

  predicate Reads(pc: Pc) {
    pc.ReadLookingUp? || pc.HeadLookingUp? || pc.LookingUp?
  }

  predicate Writes(pc: Pc) {
    pc.ReadAdding? || pc.PutAdding?
  }

  predicate WaitsToRead(pc: Pc) {
    pc.ReadLookup? || pc.HeadLookup? || pc.LookStart?
  }

  predicate WaitsToWrite(pc: Pc) {
    pc.ReadAdd? || pc.PutAdd?
  }

  /** The lock a handler waits for: 1 manifests, 2 blobs, 3 cids; 0 if none. */
  function WaitsFor(pc: Pc): nat {
    if pc.ReadStart? || pc.PutStart? then 1
    else if pc.PutGet? || pc.PutRemove? || pc.HeadStart? || pc.WriteStart? then 2
    else if WaitsToRead(pc) || WaitsToWrite(pc) then 3
    else 0
  }

  predicate Holds(pc: Pc, lock: nat) {
    match lock
    case 1 => HoldsManifests(pc)
    case 2 => HoldsBlobs(pc)
    case 3 => Reads(pc) || Writes(pc)
    case _ => false
  }

  /**
   * The owners of the locks, the handlers, and the data the blob mutex protects; its `locked` plays no part here,
   * where `blobs` says who holds the mutex. For the record, `ever` are the digests committed so far and
   * `sent` those handed to `AddImage`.
   */
  datatype State = State(
    manifests: Option<nat>, blobs: Option<nat>, writer: Option<nat>, readers: set<nat>,
    pcs: seq<Pc>, store: Blobs, ever: set<string>, sent: set<string>)

  datatype Choice = Leave | LookUp | Add | Go

  datatype Action = Arrive(pc: Pc) | Act(i: nat, choice: Choice)

  function At(s: State, i: nat, pc: Pc): State
    requires i < |s.pcs|
  {
    s.(pcs := s.pcs[i := pc])
  }

  function Commits(s: State, c: Commit): State {
    s.(store := Committed(s.store, c.repo, c.digest, c.data), ever := s.ever + {c.digest})
  }

  /** A manifest GET or HEAD. */
  function TakeRead(s: State, i: nat, c: Choice): Option<State>
    requires i < |s.pcs|
  {
    match s.pcs[i]
    case ReadStart => if s.manifests.None? then Some(At(s, i, ReadHeld).(manifests := Some(i))) else None
    case ReadHeld =>
      if c == LookUp then Some(At(s, i, ReadLookup))
      else if c == Add then Some(At(s, i, ReadAdd))
      else Some(At(s, i, Done(false, false)).(manifests := None))
    case ReadLookup => if s.writer.None? then Some(At(s, i, ReadLookingUp).(readers := s.readers + {i})) else None
    case ReadLookingUp => Some(At(s, i, ReadHeld).(readers := s.readers - {i}))
    case ReadAdd => if s.writer.None? && s.readers == {} then Some(At(s, i, ReadAdding).(writer := Some(i))) else None
    case ReadAdding => Some(At(s, i, ReadHeld).(writer := None))
    case _ => None
  }

  /** A manifest PUT up to the end of its `remove`. */
  function TakePut(s: State, i: nat, c: Choice): Option<State>
    requires i < |s.pcs|
  {
    match s.pcs[i]
    case PutStart(repo) => if s.manifests.None? then Some(At(s, i, PutHeld(repo)).(manifests := Some(i))) else None
    case PutHeld(repo) =>
      if c == Leave then Some(At(s, i, Done(false, false)).(manifests := None)) else Some(At(s, i, PutGet(repo)))
    case PutGet(repo) => if s.blobs.None? then Some(At(s, i, PutGetting(repo)).(blobs := Some(i))) else None
    case PutGetting(repo) =>
      if Complete(s.store, repo) then Some(At(s, i, PutRemove(repo, s.store.layers[repo])).(blobs := None))
      else Some(At(s, i, Done(true, true)).(manifests := None))
    case PutRemove(repo, got) =>
      if s.blobs.None? then Some(At(s, i, PutRemoving(repo, got)).(blobs := Some(i))) else None
    case PutRemoving(repo, got) =>
      if repo in s.store.layers then
        Some(At(s, i, PutSend(got, false)).(blobs := None, store := Removed(s.store, repo)))
      else Some(At(s, i, PutSend(got, true)))
    case _ => None
  }

  /** The rest of a manifest PUT. */
  function TakePublish(s: State, i: nat, c: Choice): Option<State>
    requires i < |s.pcs|
  {
    match s.pcs[i]
    case PutSend(got, leaked) =>
      var s' := s.(sent := s.sent + DigestSet(got));
      if c == Leave then Some(At(s', i, Done(leaked, false)).(manifests := None))
      else Some(At(s', i, PutAdd(3, leaked)))
    case PutAdd(n, leaked) =>
      if s.writer.None? && s.readers == {} then Some(At(s, i, PutAdding(n, leaked)).(writer := Some(i))) else None
    case PutAdding(n, leaked) =>
      if n <= 1 then Some(At(s, i, Done(leaked, false)).(writer := None, manifests := None))
      else Some(At(s, i, PutAdd(n - 1, leaked)).(writer := None))
    case _ => None
  }

  /** A blob HEAD or GET. */
  function TakeBlobRead(s: State, i: nat, c: Choice): Option<State>
    requires i < |s.pcs|
  {
    match s.pcs[i]
    case HeadStart => if s.blobs.None? then Some(At(s, i, HeadHeld).(blobs := Some(i))) else None
    case HeadHeld =>
      if c == LookUp then Some(At(s, i, HeadLookup)) else Some(At(s, i, Done(false, false)).(blobs := None))
    case HeadLookup => if s.writer.None? then Some(At(s, i, HeadLookingUp).(readers := s.readers + {i})) else None
    case HeadLookingUp => Some(At(s, i, HeadHeld).(readers := s.readers - {i}))
    case LookStart => if s.writer.None? then Some(At(s, i, LookingUp).(readers := s.readers + {i})) else None
    case LookingUp => Some(At(s, i, Done(false, false)).(readers := s.readers - {i}))
    case _ => None
  }

  /** A blob POST, PATCH or PUT. */
  function TakeBlobWrite(s: State, i: nat, c: Choice): Option<State>
    requires i < |s.pcs|
  {
    match s.pcs[i]
    case WriteStart(commit) => if s.blobs.None? then Some(At(s, i, WriteHeld(commit)).(blobs := Some(i))) else None
    case WriteHeld(commit) =>
      var s' := if commit.Some? && c != Leave then Commits(s, commit.value) else s;
      Some(At(s', i, Done(false, false)).(blobs := None))
    case _ => None
  }

  /** One step of handler `i`; nothing if it is done or the lock it waits for is taken. */
  function Take(s: State, i: nat, c: Choice): Option<State>
    requires i < |s.pcs|
  {
    if TakeRead(s, i, c).Some? then TakeRead(s, i, c)
    else if TakePut(s, i, c).Some? then TakePut(s, i, c)
    else if TakePublish(s, i, c).Some? then TakePublish(s, i, c)
    else if TakeBlobRead(s, i, c).Some? then TakeBlobRead(s, i, c)
    else TakeBlobWrite(s, i, c)
  }

  function Next(s: State, a: Action): Option<State> {
    match a
    case Arrive(pc) => if Arriving(pc) then Some(s.(pcs := s.pcs + [pc])) else None
    case Act(i, c) => if i < |s.pcs| then Take(s, i, c) else None
  }

  /** The state after a schedule, if it can be followed to its end. */
  function Exec(s: State, schedule: seq<Action>): Option<State> {
    if schedule == [] then Some(s)
    else
      match Exec(s, schedule[..|schedule| - 1])
      case None => None
      case Some(s') => Next(s', schedule[|schedule| - 1])
  }

  const Idle := State(None, None, None, {}, [], Blobs(map[], map[], map[], false), {}, {})

  // ---- the invariant ----

  ghost predicate ManifestsOwned(s: State) {
    forall i: nat :: s.manifests == Some(i) <==> i < |s.pcs| && HoldsManifests(s.pcs[i])
  }

  ghost predicate BlobsOwned(s: State) {
    forall i: nat :: s.blobs == Some(i) <==> i < |s.pcs| && HoldsBlobs(s.pcs[i])
  }

  ghost predicate CidsOwned(s: State) {
    && (forall i: nat :: s.writer == Some(i) <==> i < |s.pcs| && Writes(s.pcs[i]))
    && (forall i: nat :: i in s.readers <==> i < |s.pcs| && Reads(s.pcs[i]))
    && (s.writer.Some? ==> s.readers == {})
  }

  /** The owner of each lock is the handler whose position says so. */
  ghost predicate OwnersAgree(s: State) {
    ManifestsOwned(s) && BlobsOwned(s) && CidsOwned(s)
  }

  /** Between `get` and `remove` the layer list stays and only grows; the mutex leaks with a failed `get` only. */
  predicate Sound(s: State, pc: Pc) {
    match pc
    case PutRemove(repo, got) => repo in s.store.layers && got <= s.store.layers[repo]
    case PutRemoving(repo, got) => repo in s.store.layers && got <= s.store.layers[repo]
    case PutSend(_, leaked) => !leaked
    case PutAdd(_, leaked) => !leaked
    case PutAdding(_, leaked) => !leaked
    case Done(leaked, failed) => leaked == failed
    case _ => true
  }

  ghost predicate Inv(s: State) {
    OwnersAgree(s) && forall i :: 0 <= i < |s.pcs| ==> Sound(s, s.pcs[i])
  }

  /** What becomes of an owner when handler `i` moves from holding or not to holding or not. */
  function Owner(o: Option<nat>, before: bool, after: bool, i: nat): Option<nat> {
    if before == after then o else if after then Some(i) else None
  }

  /** Handler `i` alone moves, and takes a lock only if it is free. */
  ghost predicate Moved(s: State, s': State, i: nat) {
    && i < |s.pcs| && |s'.pcs| == |s.pcs| && s'.pcs == s.pcs[i := s'.pcs[i]]
    && var p, p' := s.pcs[i], s'.pcs[i];
    && s'.manifests == Owner(s.manifests, HoldsManifests(p), HoldsManifests(p'), i)
    && s'.blobs == Owner(s.blobs, HoldsBlobs(p), HoldsBlobs(p'), i)
    && s'.writer == Owner(s.writer, Writes(p), Writes(p'), i)
    && s'.readers == (if Reads(p) == Reads(p') then s.readers
                      else if Reads(p') then s.readers + {i} else s.readers - {i})
    && (HoldsManifests(p') && !HoldsManifests(p) ==> s.manifests.None?)
    && (HoldsBlobs(p') && !HoldsBlobs(p) ==> s.blobs.None?)
    && (Writes(p') && !Writes(p) ==> s.writer.None? && s.readers == {})
    && (Reads(p') && !Reads(p) ==> s.writer.None?)
  }

  /** What the step does to the data. */
  ghost predicate DataMoved(s: State, s': State, i: nat, c: Choice) {
    && i < |s.pcs| && |s'.pcs| == |s.pcs|
    && var p, p' := s.pcs[i], s'.pcs[i];
    && (if p.PutRemoving? then
          && p.repo in s.store.layers && p' == PutSend(p.got, false)
          && s'.store == Removed(s.store, p.repo)
          && s'.ever == s.ever && s'.sent == s.sent
        else if p.PutSend? then
          && s'.store == s.store && s'.ever == s.ever
          && s'.sent == s.sent + DigestSet(p.got) && Carried(p') == {}
        else if p.WriteHeld? && p.commit.Some? && c != Leave then
          && s'.store == Commits(s, p.commit.value).store && s'.ever == s.ever + {p.commit.value.digest}
          && s'.sent == s.sent && Carried(p') == {}
        else
          && s'.store == s.store && s'.ever == s.ever
          && s'.sent == s.sent && Carried(p) <= Carried(p'))
    && (if p'.PutRemove? then
          p.PutGetting? && p.repo == p'.repo && p.repo in s.store.layers && s.store.layers[p.repo] == p'.got
        else if p'.PutRemoving? then p == PutRemove(p'.repo, p'.got)
        else Sound(s, p'))
  }

  lemma ReadMoves(s: State, i: nat, c: Choice)
    requires i < |s.pcs| && TakeRead(s, i, c).Some?
    ensures Moved(s, TakeRead(s, i, c).value, i)
  {
  }

  lemma ReadData(s: State, i: nat, c: Choice)
    requires i < |s.pcs| && TakeRead(s, i, c).Some?
    ensures DataMoved(s, TakeRead(s, i, c).value, i, c)
  {
  }

  lemma PutMoves(s: State, i: nat, c: Choice)
    requires i < |s.pcs| && Sound(s, s.pcs[i]) && TakePut(s, i, c).Some?
    ensures Moved(s, TakePut(s, i, c).value, i)
  {
  }

  lemma PutData(s: State, i: nat, c: Choice)
    requires i < |s.pcs| && Sound(s, s.pcs[i]) && TakePut(s, i, c).Some?
    ensures DataMoved(s, TakePut(s, i, c).value, i, c)
  {
  }

  lemma PublishMoves(s: State, i: nat, c: Choice)
    requires i < |s.pcs| && Sound(s, s.pcs[i]) && TakePublish(s, i, c).Some?
    ensures Moved(s, TakePublish(s, i, c).value, i)
  {
  }

  lemma PublishData(s: State, i: nat, c: Choice)
    requires i < |s.pcs| && Sound(s, s.pcs[i]) && TakePublish(s, i, c).Some?
    ensures DataMoved(s, TakePublish(s, i, c).value, i, c)
  {
  }

  lemma BlobReadMoves(s: State, i: nat, c: Choice)
    requires i < |s.pcs| && TakeBlobRead(s, i, c).Some?
    ensures Moved(s, TakeBlobRead(s, i, c).value, i)
  {
  }

  lemma BlobReadData(s: State, i: nat, c: Choice)
    requires i < |s.pcs| && TakeBlobRead(s, i, c).Some?
    ensures DataMoved(s, TakeBlobRead(s, i, c).value, i, c)
  {
  }

  lemma BlobWriteMoves(s: State, i: nat, c: Choice)
    requires i < |s.pcs| && TakeBlobWrite(s, i, c).Some?
    ensures Moved(s, TakeBlobWrite(s, i, c).value, i)
  {
  }

  lemma BlobWriteData(s: State, i: nat, c: Choice)
    requires i < |s.pcs| && TakeBlobWrite(s, i, c).Some?
    ensures DataMoved(s, TakeBlobWrite(s, i, c).value, i, c)
  {
  }

  lemma TakeMoves(s: State, i: nat, c: Choice)
    requires i < |s.pcs| && Sound(s, s.pcs[i]) && Take(s, i, c).Some?
    ensures Moved(s, Take(s, i, c).value, i) && DataMoved(s, Take(s, i, c).value, i, c) && !s.pcs[i].Done?
  {
    if TakeRead(s, i, c).Some? {
      ReadMoves(s, i, c);
      ReadData(s, i, c);
    } else if TakePut(s, i, c).Some? {
      PutMoves(s, i, c);
      PutData(s, i, c);
    } else if TakePublish(s, i, c).Some? {
      PublishMoves(s, i, c);
      PublishData(s, i, c);
    } else if TakeBlobRead(s, i, c).Some? {
      BlobReadMoves(s, i, c);
      BlobReadData(s, i, c);
    } else {
      BlobWriteMoves(s, i, c);
      BlobWriteData(s, i, c);
    }
  }

  lemma MovedOwners(s: State, s': State, i: nat)
    requires OwnersAgree(s) && Moved(s, s', i)
    ensures OwnersAgree(s')
  {
  }

  lemma TakeKeepsSound(s: State, i: nat, c: Choice, j: nat)
    requires i < |s.pcs| && j < |s.pcs| && ManifestsOwned(s) && Take(s, i, c).Some?
    requires Sound(s, s.pcs[i]) && Sound(s, s.pcs[j])
    ensures Sound(Take(s, i, c).value, Take(s, i, c).value.pcs[j])
  {
    TakeMoves(s, i, c);
    assert HoldsManifests(s.pcs[i]) && HoldsManifests(s.pcs[j]) ==> Some(i) == Some(j);
  }

  lemma {:induction false} ReachableInv(schedule: seq<Action>)
    requires Exec(Idle, schedule).Some?
    ensures Inv(Exec(Idle, schedule).value)
  {
    if schedule != [] {
      var init, a := schedule[..|schedule| - 1], schedule[|schedule| - 1];
      ReachableInv(init);
      var s := Exec(Idle, init).value;
      NextKeepsInv(s, a);
    }
  }

  lemma NextKeepsInv(s: State, a: Action)
    requires Inv(s) && Next(s, a).Some?
    ensures Inv(Next(s, a).value)
  {
    var s' := Next(s, a).value;
    match a
    case Arrive(pc) =>
      forall i | 0 <= i < |s'.pcs|
        ensures Sound(s', s'.pcs[i])
      {
        if i < |s.pcs| { assert Sound(s, s.pcs[i]); }
      }
      ArrivalKeepsOwners(s, pc);
    case Act(i, c) =>
      assert Sound(s, s.pcs[i]);
      TakeMoves(s, i, c);
      MovedOwners(s, s', i);
      forall j | 0 <= j < |s'.pcs|
        ensures Sound(s', s'.pcs[j])
      {
        TakeKeepsSound(s, i, c, j);
      }
  }

  lemma ArrivalKeepsOwners(s: State, pc: Pc)
    requires OwnersAgree(s) && Arriving(pc)
    ensures OwnersAgree(s.(pcs := s.pcs + [pc]))
  {
  }

  // ---- main results ----

  /** Locks are only ever taken in the order manifests, blobs, cids. */
  lemma LockOrder(pc: Pc, lock: nat)
    requires Holds(pc, lock) && WaitsFor(pc) != 0
    ensures lock < WaitsFor(pc)
  {
  }

  /**
   * In every reachable state the owner of each lock is its one holder, a handler is gone with the blob mutex exactly if
   * its `get` failed and with no other lock in any case, and a handler about to remove a repository's layers finds
   * them: the early return of `remove` is never taken.
   */
  lemma LockDiscipline(schedule: seq<Action>)
    requires Exec(Idle, schedule).Some?
    ensures var s := Exec(Idle, schedule).value;
            && OwnersAgree(s)
            && (forall i, j, lock :: 0 <= i < j < |s.pcs| && (lock == 1 || lock == 2) ==>
                  !(Holds(s.pcs[i], lock) && Holds(s.pcs[j], lock)))
            && (forall i, j :: 0 <= i < |s.pcs| && 0 <= j < |s.pcs| && i != j && Writes(s.pcs[i]) ==>
                  !Writes(s.pcs[j]) && !Reads(s.pcs[j]))
            && (forall i :: 0 <= i < |s.pcs| && s.pcs[i].Done? ==>
                  (Holds(s.pcs[i], 2) <==> s.pcs[i].failed) && !Holds(s.pcs[i], 1) && !Holds(s.pcs[i], 3))
            && (forall i :: 0 <= i < |s.pcs| && s.pcs[i].PutRemoving? ==> s.pcs[i].repo in s.store.layers)
  {
    ReachableInv(schedule);
    var s := Exec(Idle, schedule).value;
    forall i, j, lock | 0 <= i < j < |s.pcs| && (lock == 1 || lock == 2)
      ensures !(Holds(s.pcs[i], lock) && Holds(s.pcs[j], lock))
    {
      assert s.manifests != Some(i) || s.manifests != Some(j);
      assert s.blobs != Some(i) || s.blobs != Some(j);
    }
    forall i, j | 0 <= i < |s.pcs| && 0 <= j < |s.pcs| && i != j && Writes(s.pcs[i])
      ensures !Writes(s.pcs[j]) && !Reads(s.pcs[j])
    {
      assert s.writer == Some(i) && s.writer != Some(j) && j !in s.readers;
    }
    forall i | 0 <= i < |s.pcs|
      ensures Sound(s, s.pcs[i])
    {
    }
  }

  predicate GetHasFailed(s: State) {
    exists i :: 0 <= i < |s.pcs| && s.pcs[i].Done? && s.pcs[i].failed
  }

  /** Handler `i` can move, even if new readers of the cid store give way to waiting writers. */
  ghost predicate CanMove(s: State, i: nat) {
    && i < |s.pcs| && Take(s, i, Leave).Some?
    && (WaitsToRead(s.pcs[i]) ==> forall j :: 0 <= j < |s.pcs| ==> !WaitsToWrite(s.pcs[j]))
  }

  /** A handler that waits for no lock can move. */
  lemma NotWaitingMoves(s: State, i: nat)
    requires i < |s.pcs| && WaitsFor(s.pcs[i]) == 0 && !s.pcs[i].Done?
    ensures CanMove(s, i)
  {
  }

  /** Somebody who holds or wants the cid store can move. */
  lemma CidsMove(s: State, i: nat) returns (k: nat)
    requires Inv(s) && i < |s.pcs| && (Holds(s.pcs[i], 3) || WaitsFor(s.pcs[i]) == 3)
    ensures CanMove(s, k)
  {
    if s.writer.Some? {
      k := s.writer.value;
      NotWaitingMoves(s, k);
    } else if s.readers != {} {
      k :| k in s.readers;
      NotWaitingMoves(s, k);
    } else if j :| 0 <= j < |s.pcs| && WaitsToWrite(s.pcs[j]) {
      k := j;
    } else {
      assert i !in s.readers && s.writer != Some(i);
      k := i;
    }
  }

  /** Somebody who holds the blob mutex, or waits for it while it is free, leads to a handler that can move. */
  lemma BlobsMove(s: State, i: nat) returns (k: nat)
    requires Inv(s) && !GetHasFailed(s)
    requires i < |s.pcs| && (Holds(s.pcs[i], 2) || WaitsFor(s.pcs[i]) == 2)
    ensures CanMove(s, k)
  {
    if s.blobs.Some? {
      var h := s.blobs.value;
      assert HoldsBlobs(s.pcs[h]) && Sound(s, s.pcs[h]);
      if WaitsFor(s.pcs[h]) == 3 { k := CidsMove(s, h); } else { k := h; NotWaitingMoves(s, h); }
    } else {
      assert s.blobs != Some(i);
      k := i;
    }
  }

  /** Unless a `get` has failed, no reachable state is deadlocked: while a handler is left, some handler can move. */
  lemma NoDeadlock(schedule: seq<Action>, i: nat)
    requires Exec(Idle, schedule).Some?
    requires var s := Exec(Idle, schedule).value;
             !GetHasFailed(s) && i < |s.pcs| && !s.pcs[i].Done?
    ensures exists k: nat :: CanMove(Exec(Idle, schedule).value, k)
  {
    ReachableInv(schedule);
    var s := Exec(Idle, schedule).value;
    var k: nat;
    var h := if WaitsFor(s.pcs[i]) == 1 && s.manifests.Some? then s.manifests.value else i;
    assert WaitsFor(s.pcs[h]) != 1 || s.manifests.None?;
    if WaitsFor(s.pcs[h]) == 3 {
      k := CidsMove(s, h);
    } else if WaitsFor(s.pcs[h]) == 2 {
      k := BlobsMove(s, h);
    } else {
      k := h;
    }
    assert CanMove(s, k);
  }

  /** After a failed `get` the blob mutex is held for ever, so that nobody who waits for it ever moves again. */
  lemma {:induction false} LeakIsForever(s: State, schedule: seq<Action>, i: nat, j: nat, c: Choice)
    requires Inv(s) && i < |s.pcs| && s.pcs[i] == Done(true, true)
    requires Exec(s, schedule).Some?
    ensures var s' := Exec(s, schedule).value;
            && Inv(s') && i < |s'.pcs| && s'.pcs[i] == Done(true, true) && s'.blobs == Some(i)
            && (j < |s'.pcs| && WaitsFor(s'.pcs[j]) == 2 ==> Take(s', j, c).None?)
  {
    if schedule != [] {
      var init, a := schedule[..|schedule| - 1], schedule[|schedule| - 1];
      LeakIsForever(s, init, i, j, c);
      NextKeepsInv(Exec(s, init).value, a);
      GoneStays(Exec(s, init).value, a, i);
    }
    var s' := Exec(s, schedule).value;
    assert HoldsBlobs(s'.pcs[i]);
  }

  lemma GoneStays(s: State, a: Action, i: nat)
    requires Inv(s) && i < |s.pcs| && s.pcs[i].Done? && Next(s, a).Some?
    ensures i < |Next(s, a).value.pcs| && Next(s, a).value.pcs[i] == s.pcs[i]
  {
    if a.Act? {
      assert Sound(s, s.pcs[a.i]);
      TakeMoves(s, a.i, a.choice);
    }
  }

  // ---- conservation, with `get` and `remove` as separate critical sections ----

  /** The digests a handler has taken from `get` and not yet handed to `AddImage`. */
  function Carried(pc: Pc): set<string> {
    if pc.PutRemove? || pc.PutRemoving? || pc.PutSend? then DigestSet(pc.got) else {}
  }

  ghost predicate Kept(s: State, d: string) {
    d in s.store.contents || d in s.sent || exists i :: 0 <= i < |s.pcs| && d in Carried(s.pcs[i])
  }

  /** Every digest ever committed is in the store, carried by a handler, or was sent. */
  ghost predicate Conserved(s: State) {
    forall d :: d in s.ever ==> Kept(s, d)
  }

  predicate Removing(pc: Pc, repo: string) {
    (pc.PutRemove? || pc.PutRemoving?) && pc.repo == repo
  }

  /** The action commits to a repository while a handler is between its `get` and its `remove` for it. */
  predicate LateCommit(s: State, a: Action) {
    && a.Act? && a.i < |s.pcs| && s.pcs[a.i].WriteHeld? && s.pcs[a.i].commit.Some? && a.choice != Leave
    && exists j :: 0 <= j < |s.pcs| && Removing(s.pcs[j], s.pcs[a.i].commit.value.repo)
  }

  /** Without late commits, what `get` returned is what `remove` deletes. */
  ghost predicate GotAll(s: State) {
    forall i :: 0 <= i < |s.pcs| && (s.pcs[i].PutRemove? || s.pcs[i].PutRemoving?) ==>
      s.pcs[i].repo in s.store.layers && s.store.layers[s.pcs[i].repo] == s.pcs[i].got
  }

  lemma NextKeepsGotAll(s: State, a: Action)
    requires Inv(s) && GotAll(s) && Next(s, a).Some? && !LateCommit(s, a)
    ensures GotAll(Next(s, a).value)
  {
    var s' := Next(s, a).value;
    if a.Act? {
      assert Sound(s, s.pcs[a.i]);
      TakeMoves(s, a.i, a.choice);
    }
    forall j | 0 <= j < |s'.pcs| && (s'.pcs[j].PutRemove? || s'.pcs[j].PutRemoving?)
      ensures s'.pcs[j].repo in s'.store.layers && s'.store.layers[s'.pcs[j].repo] == s'.pcs[j].got
    {
      if a.Act? && j != a.i {
        assert s'.pcs[j] == s.pcs[j] && Removing(s.pcs[j], s.pcs[j].repo);
        assert s.manifests == Some(j);
        assert !s.pcs[a.i].PutRemoving?;
      }
    }
  }

  lemma KeptLater(s: State, s': State, d: string, i: nat)
    requires Kept(s, d) && i < |s.pcs| <= |s'.pcs| && (forall j :: 0 <= j < |s.pcs| && j != i ==> s'.pcs[j] == s.pcs[j])
    requires d in s.store.contents ==> Kept(s', d)
    requires s.sent <= s'.sent
    requires d in Carried(s.pcs[i]) ==> d in Carried(s'.pcs[i]) || d in s'.sent
    ensures Kept(s', d)
  {
    if d !in s.store.contents && d !in s.sent {
      var j :| 0 <= j < |s.pcs| && d in Carried(s.pcs[j]);
      assert j == i || d in Carried(s'.pcs[j]);
    }
  }

  lemma TakeKeepsConserved(s: State, i: nat, c: Choice)
    requires i < |s.pcs| && Inv(s) && Conserved(s) && Take(s, i, c).Some?
    requires s.pcs[i].PutRemoving? ==> s.store.layers[s.pcs[i].repo] == s.pcs[i].got
    ensures Conserved(Take(s, i, c).value)
  {
    var s' := Take(s, i, c).value;
    assert Sound(s, s.pcs[i]);
    TakeMoves(s, i, c);
    forall d | d in s'.ever
      ensures Kept(s', d)
    {
      if d in s.ever {
        assert Kept(s, d);
        if d in s.store.contents && d !in s'.store.contents {
          assert d in Carried(s'.pcs[i]);
        }
        KeptLater(s, s', d, i);
      }
    }
  }

  /** In every schedule without late commits, no committed digest is ever lost. */
  lemma {:induction false} AlwaysConserved(schedule: seq<Action>)
    requires Exec(Idle, schedule).Some?
    requires forall n :: 0 <= n < |schedule| && Exec(Idle, schedule[..n]).Some? ==>
               !LateCommit(Exec(Idle, schedule[..n]).value, schedule[n])
    ensures Conserved(Exec(Idle, schedule).value) && GotAll(Exec(Idle, schedule).value)
  {
    if schedule != [] {
      var init, a := schedule[..|schedule| - 1], schedule[|schedule| - 1];
      forall n | 0 <= n < |init| && Exec(Idle, init[..n]).Some?
        ensures !LateCommit(Exec(Idle, init[..n]).value, init[n])
      {
        assert init[..n] == schedule[..n];
      }
      AlwaysConserved(init);
      ReachableInv(init);
      var s := Exec(Idle, init).value;
      NextKeepsGotAll(s, a);
      match a
      case Arrive(pc) =>
        forall d | d in s.ever
          ensures Kept(Next(s, a).value, d)
        {
          assert Kept(s, d);
          if i :| 0 <= i < |s.pcs| && d in Carried(s.pcs[i]) { assert d in Carried(Next(s, a).value.pcs[i]); }
        }
      case Act(i, c) => TakeKeepsConserved(s, i, c);
    }
  }

  /**
   * Why the condition: a removal conserves exactly if everything in the layer list that was ever committed is
   * among what `get` returned, was sent before, or is carried by another handler.
   */
  lemma RemovalConserves(s: State, i: nat, c: Choice)
    requires i < |s.pcs| && Inv(s) && Conserved(s) && s.pcs[i].PutRemoving?
    ensures Conserved(Take(s, i, c).value) <==>
              forall d :: d in s.store.layers[s.pcs[i].repo] && d in s.ever ==>
                d in s.pcs[i].got || d in s.sent || exists j :: 0 <= j < |s.pcs| && j != i && d in Carried(s.pcs[j])
  {
    assert Sound(s, s.pcs[i]);
    var s' := Take(s, i, c).value;
    forall d | d in s.ever
      ensures Kept(s', d) <==> d !in s.store.layers[s.pcs[i].repo] || d in s.pcs[i].got || d in s.sent
                               || exists j :: 0 <= j < |s.pcs| && j != i && d in Carried(s.pcs[j])
    {
      assert Kept(s, d);
      assert Carried(s'.pcs[i]) == Carried(s.pcs[i]);
      assert forall j :: 0 <= j < |s.pcs| ==> Carried(s'.pcs[j]) == Carried(s.pcs[j]);
    }
  }

  lemma Follows(schedule: seq<Action>, s: State, a: Action, s': State)
    requires Exec(Idle, schedule) == Some(s) && Next(s, a) == Some(s')
    ensures Exec(Idle, schedule + [a]) == Some(s')
  {
    assert (schedule + [a])[..|schedule|] == schedule;
  }

  function Committing(i: nat, x: Commit): seq<Action> {
    [Arrive(WriteStart(Some(x))), Act(i, Go), Act(i, Go)]
  }

  function Getting(i: nat, repo: string): seq<Action> {
    [Arrive(PutStart(repo)), Act(i, Go), Act(i, Go), Act(i, Go), Act(i, Go)]
  }

  function Taking(i: nat): seq<Action> {
    [Act(i, Go), Act(i, Go)]
  }

  lemma MoveTo(s: State, pc: Pc, pc': Pc)
    ensures At(s.(pcs := s.pcs + [pc]), |s.pcs|, pc') == s.(pcs := s.pcs + [pc'])
  {
  }

  /** While the blob mutex is free, a commit can run through. */
  lemma CommitRuns(h: seq<Action>, s: State, x: Commit)
    requires Exec(Idle, h) == Some(s) && s.blobs.None?
    ensures Exec(Idle, h + Committing(|s.pcs|, x)) == Some(Commits(s, x).(pcs := s.pcs + [Done(false, false)]))
  {
    var n, go := |s.pcs|, Act(|s.pcs|, Go);
    var s1 := s.(pcs := s.pcs + [WriteStart(Some(x))]);
    var s2 := s.(pcs := s.pcs + [WriteHeld(Some(x))], blobs := Some(n));
    MoveTo(s, WriteStart(Some(x)), WriteHeld(Some(x)));
    MoveTo(Commits(s, x), WriteHeld(Some(x)), Done(false, false));
    Follows(h, s, Arrive(WriteStart(Some(x))), s1);
    Follows(h + [Arrive(WriteStart(Some(x)))], s1, go, s2);
    Follows(h + [Arrive(WriteStart(Some(x)))] + [go], s2, go, Commits(s, x).(pcs := s.pcs + [Done(false, false)]));
    assert h + Committing(n, x) == h + [Arrive(WriteStart(Some(x)))] + [go] + [go];
  }

  /** While both mutexes are free, the PUT of a complete repository can run through its `get`. */
  lemma GetRuns(h: seq<Action>, s: State, repo: string)
    requires Exec(Idle, h) == Some(s) && s.manifests.None? && s.blobs.None? && Complete(s.store, repo)
    ensures Exec(Idle, h + Getting(|s.pcs|, repo))
            == Some(s.(pcs := s.pcs + [PutRemove(repo, s.store.layers[repo])], manifests := Some(|s.pcs|)))
  {
    var n, go := |s.pcs|, Act(|s.pcs|, Go);
    var t := s.(manifests := Some(n));
    var t3 := t.(pcs := s.pcs + [PutGetting(repo)], blobs := Some(n));
    MoveTo(s, PutStart(repo), PutHeld(repo));
    MoveTo(t, PutHeld(repo), PutGet(repo));
    MoveTo(t, PutGet(repo), PutGetting(repo));
    MoveTo(t, PutGetting(repo), PutRemove(repo, s.store.layers[repo]));
    var h1 := h + [Arrive(PutStart(repo))];
    Follows(h, s, Arrive(PutStart(repo)), s.(pcs := s.pcs + [PutStart(repo)]));
    Follows(h1, s.(pcs := s.pcs + [PutStart(repo)]), go, t.(pcs := s.pcs + [PutHeld(repo)]));
    Follows(h1 + [go], t.(pcs := s.pcs + [PutHeld(repo)]), go, t.(pcs := s.pcs + [PutGet(repo)]));
    Follows(h1 + [go] + [go], t.(pcs := s.pcs + [PutGet(repo)]), go, t3);
    Follows(h1 + [go] + [go] + [go], t3, go, t.(pcs := s.pcs + [PutRemove(repo, s.store.layers[repo])]));
    assert h + Getting(n, repo) == h1 + [go] + [go] + [go] + [go];
  }

  /** While the blob mutex is free, a PUT can run through its `remove`. */
  lemma RemoveRuns(h: seq<Action>, s: State, i: nat)
    requires Exec(Idle, h) == Some(s) && s.blobs.None?
    requires i < |s.pcs| && s.pcs[i].PutRemove? && s.pcs[i].repo in s.store.layers
    ensures Exec(Idle, h + Taking(i))
            == Some(At(s, i, PutSend(s.pcs[i].got, false)).(store := Removed(s.store, s.pcs[i].repo)))
  {
    var repo, got := s.pcs[i].repo, s.pcs[i].got;
    var s1 := At(s, i, PutRemoving(repo, got)).(blobs := Some(i));
    var s2 := At(s, i, PutSend(got, false)).(store := Removed(s.store, repo));
    assert At(s1, i, PutSend(got, false)).pcs == s2.pcs;
    Follows(h, s, Act(i, Go), s1);
    Follows(h + [Act(i, Go)], s1, Act(i, Go), s2);
    assert h + Taking(i) == h + [Act(i, Go)] + [Act(i, Go)];
  }

  /** The PUT of an incomplete repository runs to a failed `get`, and leaves with the blob mutex. */
  lemma FailedGetRuns(h: seq<Action>, s: State, repo: string)
    requires Exec(Idle, h) == Some(s) && s.manifests.None? && s.blobs.None? && !Complete(s.store, repo)
    ensures Exec(Idle, h + Getting(|s.pcs|, repo))
            == Some(s.(pcs := s.pcs + [Done(true, true)], blobs := Some(|s.pcs|)))
  {
    var n, go := |s.pcs|, Act(|s.pcs|, Go);
    var t := s.(manifests := Some(n));
    var t3 := t.(pcs := s.pcs + [PutGetting(repo)], blobs := Some(n));
    MoveTo(s, PutStart(repo), PutHeld(repo));
    MoveTo(t, PutHeld(repo), PutGet(repo));
    MoveTo(t, PutGet(repo), PutGetting(repo));
    MoveTo(t, PutGetting(repo), Done(true, true));
    var h1 := h + [Arrive(PutStart(repo))];
    Follows(h, s, Arrive(PutStart(repo)), s.(pcs := s.pcs + [PutStart(repo)]));
    Follows(h1, s.(pcs := s.pcs + [PutStart(repo)]), go, t.(pcs := s.pcs + [PutHeld(repo)]));
    Follows(h1 + [go], t.(pcs := s.pcs + [PutHeld(repo)]), go, t.(pcs := s.pcs + [PutGet(repo)]));
    Follows(h1 + [go] + [go], t.(pcs := s.pcs + [PutGet(repo)]), go, t3);
    Follows(h1 + [go] + [go] + [go], t3, go, s.(pcs := s.pcs + [Done(true, true)], blobs := Some(n)));
    assert h + Getting(n, repo) == h1 + [go] + [go] + [go] + [go];
  }

  /** One index addition of a PUT, while nobody uses the cid store. */
  lemma AdditionRuns(h: seq<Action>, s: State, i: nat, left: nat)
    requires Exec(Idle, h) == Some(s) && s.writer.None? && s.readers == {}
    requires i < |s.pcs| && s.pcs[i] == PutAdd(left, false)
    ensures Exec(Idle, h + Taking(i))
            == Some(if left <= 1 then At(s, i, Done(false, false)).(manifests := None)
                    else At(s, i, PutAdd(left - 1, false)))
  {
    var s1 := At(s, i, PutAdding(left, false)).(writer := Some(i));
    var s2 := if left <= 1 then At(s, i, Done(false, false)).(manifests := None)
              else At(s, i, PutAdd(left - 1, false));
    assert At(s1, i, s2.pcs[i]).pcs == s2.pcs;
    Follows(h, s, Act(i, Go), s1);
    Follows(h + [Act(i, Go)], s1, Act(i, Go), s2);
    assert h + Taking(i) == h + [Act(i, Go)] + [Act(i, Go)];
  }

  /** Sending and the three additions. */
  lemma PublishRuns(h: seq<Action>, s: State, i: nat)
    requires Exec(Idle, h) == Some(s) && s.writer.None? && s.readers == {}
    requires i < |s.pcs| && s.pcs[i].PutSend? && !s.pcs[i].leaked
    ensures Exec(Idle, h + [Act(i, Go)] + Taking(i) + Taking(i) + Taking(i))
            == Some(At(s, i, Done(false, false)).(manifests := None, sent := s.sent + DigestSet(s.pcs[i].got)))
  {
    var t := s.(sent := s.sent + DigestSet(s.pcs[i].got));
    var s3, s2, s1 := At(t, i, PutAdd(3, false)), At(t, i, PutAdd(2, false)), At(t, i, PutAdd(1, false));
    assert At(s3, i, PutAdd(2, false)).pcs == s2.pcs && At(s2, i, PutAdd(1, false)).pcs == s1.pcs;
    assert At(s1, i, Done(false, false)).pcs == At(s, i, Done(false, false)).pcs;
    Follows(h, s, Act(i, Go), s3);
    AdditionRuns(h + [Act(i, Go)], s3, i, 3);
    AdditionRuns(h + [Act(i, Go)] + Taking(i), s2, i, 2);
    AdditionRuns(h + [Act(i, Go)] + Taking(i) + Taking(i), s1, i, 1);
  }

  /**
   * While nobody holds a lock, the PUT of a complete repository can run to its end: it leaves with no lock, its layer
   * list and blobs are out of the store, and their digests were sent.
   */
  lemma PutRuns(h: seq<Action>, s: State, repo: string)
    requires Exec(Idle, h) == Some(s) && s.manifests.None? && s.blobs.None? && s.writer.None? && s.readers == {}
    requires Complete(s.store, repo)
    ensures var n := |s.pcs|;
            Exec(Idle, h + Getting(n, repo) + Taking(n) + [Act(n, Go)] + Taking(n) + Taking(n) + Taking(n))
            == Some(s.(pcs := s.pcs + [Done(false, false)], store := Removed(s.store, repo),
                       sent := s.sent + DigestSet(s.store.layers[repo])))
  {
    var n, got := |s.pcs|, s.store.layers[repo];
    var s1 := s.(pcs := s.pcs + [PutRemove(repo, got)], manifests := Some(n));
    var s2 := s.(pcs := s.pcs + [PutSend(got, false)], manifests := Some(n), store := Removed(s.store, repo));
    GetRuns(h, s, repo);
    RemoveRuns(h + Getting(n, repo), s1, n);
    assert At(s1, n, PutSend(got, false)).pcs == s2.pcs;
    PublishRuns(h + Getting(n, repo) + Taking(n), s2, n);
    assert At(s2, n, Done(false, false)).pcs == s.pcs + [Done(false, false)];
  }

  /** A PUT gets the blobs of a repository, handler `n + 1` commits to it, the PUT removes. */
  function LateCommitting(n: nat, x: Commit): seq<Action> {
    Getting(n, x.repo) + Committing(n + 1, x) + Taking(n)
  }

  /** The state in the middle, before the PUT removes. */
  function LateCommitted(s: State, x: Commit): State
    requires x.repo in s.store.layers
  {
    Commits(s, x).(pcs := s.pcs + [PutRemove(x.repo, s.store.layers[x.repo])] + [Done(false, false)],
                   manifests := Some(|s.pcs|))
  }

  function LateRemoved(s: State, x: Commit): State
    requires x.repo in s.store.layers
  {
    var t := LateCommitted(s, x);
    At(t, |s.pcs|, PutSend(s.store.layers[x.repo], false)).(store := Removed(t.store, x.repo))
  }

  lemma LateCommitRuns(h: seq<Action>, s: State, x: Commit)
    requires Exec(Idle, h) == Some(s) && s.manifests.None? && s.blobs.None? && Complete(s.store, x.repo)
    ensures Exec(Idle, h + Getting(|s.pcs|, x.repo) + Committing(|s.pcs| + 1, x)) == Some(LateCommitted(s, x))
  {
    var n, got := |s.pcs|, s.store.layers[x.repo];
    var s1 := s.(pcs := s.pcs + [PutRemove(x.repo, got)], manifests := Some(n));
    GetRuns(h, s, x.repo);
    CommitRuns(h + Getting(n, x.repo), s1, x);
  }

  lemma LateRemoveRuns(h: seq<Action>, s: State, x: Commit)
    requires Complete(s.store, x.repo) && s.blobs.None? && Exec(Idle, h) == Some(LateCommitted(s, x))
    ensures Exec(Idle, h + Taking(|s.pcs|)) == Some(LateRemoved(s, x))
  {
    RemoveRuns(h, LateCommitted(s, x), |s.pcs|);
  }

  lemma LateCommitDropped(s: State, x: Commit)
    requires Complete(s.store, x.repo) && !Kept(s, x.digest)
    ensures var t := LateRemoved(s, x);
            x.digest in t.ever && !Kept(t, x.digest) && !Conserved(t)
  {
    var n, t := |s.pcs|, LateRemoved(s, x);
    var layers := Layers(LateCommitted(s, x).store, x.repo);
    assert x.digest == layers[|layers| - 1];
    assert x.digest in DigestSet(layers);
    forall i | 0 <= i < |t.pcs|
      ensures x.digest !in Carried(t.pcs[i])
    {
      if i < n { assert t.pcs[i] == s.pcs[i]; }
    }
  }

  /**
   * Late commits do lose blobs: from every reachable state with both mutexes free, the schedule is possible for every
   * complete repository, and a digest that was not kept before is committed and lost.
   */
  lemma LateCommitLoses(h: seq<Action>, s: State, x: Commit)
    requires Exec(Idle, h) == Some(s) && s.manifests.None? && s.blobs.None?
    requires Complete(s.store, x.repo) && !Kept(s, x.digest)
    ensures Exec(Idle, h + LateCommitting(|s.pcs|, x)) == Some(LateRemoved(s, x))
    ensures var t := LateRemoved(s, x);
            x.digest in t.ever && !Kept(t, x.digest) && !Conserved(t)
  {
    var n := |s.pcs|;
    LateCommitRuns(h, s, x);
    LateRemoveRuns(h + Getting(n, x.repo) + Committing(n + 1, x), s, x);
    assert h + LateCommitting(n, x) == h + Getting(n, x.repo) + Committing(n + 1, x) + Taking(n);
    LateCommitDropped(s, x);
  }

  /** Such a state is reached by a single commit, so that the loss does happen in a run from `Idle`. */
  lemma LateCommitLost(x: Commit, y: Commit)
    requires x.repo == y.repo && x.digest != y.digest
    ensures var schedule := Committing(0, x) + LateCommitting(1, y);
            Exec(Idle, schedule).Some? && !Conserved(Exec(Idle, schedule).value)
  {
    var s := Commits(Idle, x).(pcs := Idle.pcs + [Done(false, false)]);
    CommitRuns([], Idle, x);
    assert [] + Committing(0, x) == Committing(0, x);
    assert s.store.layers[x.repo] == [x.digest];
    LateCommitLoses(Committing(0, x), s, y);
  }
}
