/** Restarts of the server: memory is lost, the files of the cid store and the published images stay. */
module Restarts {
  import opened Text
  import opened World
  import opened Routes
  import opened CidStore
  import opened BlobSpec
  import opened ManifestSpec
  import opened Runs
  import opened Coherence
  import opened PushPull
  import FileTree

  function Restarted(s: Server): Server {
    Start(s.index.disk, s.ipfs)
  }

  /** The server after these lives, each a run that ends in a restart. */
  function Lived(w: World, s: Server, lives: seq<Run>): Server {
    if lives == [] then s
    else Restarted(After(w, Lived(w, s, lives[..|lives| - 1]), lives[|lives| - 1]))
  }

  /** The completed PUTs of all lives, the last one winning. */
  function PushedInAll(w: World, s: Server, lives: seq<Run>): map<Reference, Bytes> {
    if lives == [] then map[]
    else
      var init := lives[..|lives| - 1];
      PushedInAll(w, s, init) + Pushed(w, Lived(w, s, init), lives[|lives| - 1])
  }

  function UploadedInAll(w: World, s: Server, lives: seq<Run>): map<string, Bytes> {
    if lives == [] then map[]
    else
      var init := lives[..|lives| - 1];
      UploadedInAll(w, s, init) + Uploaded(w, Lived(w, s, init), lives[|lives| - 1])
  }

  ghost predicate WellBehavedLives(w: World, u: Seen, s: Server, lives: seq<Run>) {
    forall n :: 0 <= n < |lives| ==> WellBehaved(w, u, Lived(w, s, lives[..n]), lives[n])
  }

  // ---- what the disk holds ----

  function PathOf(w: World, repo: string, reference: string): FileTree.Path {
    FilePath(w.location, Key(repo, reference))
  }

  /** Unless the path of the tag is blocked, its file has the cid it resolves to, and that image has these bytes. */
  ghost predicate TagHeld(w: World, x: Index, ipfs: map<string, Image>, repo: string, tag: string, b: Bytes) {
    FileTree.Blocked(x.disk, PathOf(w, repo, tag))
    || (var cid := FileTree.FileAt(x.disk, PathOf(w, repo, tag));
        && cid.Some? && Lookup(w.location, x, repo, tag) == cid
        && CatManifest(ipfs, cid.value, tag) == Some(b))
  }

  ghost predicate Durable(w: World, x: Index, ipfs: map<string, Image>, m: map<Reference, Bytes>) {
    && DiskClear(w, x.disk)
    && forall r: Reference :: r in m && !IsDigest(r.1) ==>
         CleanPair(r.0, r.1) && TagHeld(w, x, ipfs, r.0, r.1, m[r])
  }

  ghost predicate ImagesKept(ipfs: map<string, Image>, ipfs': map<string, Image>) {
    forall cid :: cid in ipfs ==> cid in ipfs' && ipfs'[cid] == ipfs[cid]
  }

  /** The files and the lookup of all tags are as before. */
  ghost predicate TagsKept(w: World, x: Index, x': Index) {
    && x'.disk == x.disk
    && forall r, k :: CleanPair(r, k) && !IsDigest(k) ==>
         Lookup(w.location, x', r, k) == Lookup(w.location, x, r, k)
  }

  lemma KeptIsDurable(w: World, x: Index, x': Index, ipfs: map<string, Image>, ipfs': map<string, Image>,
                      m: map<Reference, Bytes>)
    requires Durable(w, x, ipfs, m) && TagsKept(w, x, x') && ImagesKept(ipfs, ipfs')
    ensures Durable(w, x', ipfs', m)
  {
    forall r: Reference | r in m && !IsDigest(r.1)
      ensures CleanPair(r.0, r.1) && TagHeld(w, x', ipfs', r.0, r.1, m[r])
    {
      assert TagHeld(w, x, ipfs, r.0, r.1, m[r]);
    }
  }

  /** A restart leaves every tag as it is on disk. */
  lemma RestartIsDurable(w: World, x: Index, ipfs: map<string, Image>, m: map<Reference, Bytes>)
    requires Durable(w, x, ipfs, m)
    ensures Durable(w, Index(map[], x.disk), ipfs, m)
  {
    forall r: Reference | r in m && !IsDigest(r.1)
      ensures CleanPair(r.0, r.1) && TagHeld(w, Index(map[], x.disk), ipfs, r.0, r.1, m[r])
    {
      assert TagHeld(w, x, ipfs, r.0, r.1, m[r]);
    }
  }

  // ---- the steps ----

  lemma DigestKeepsTags(w: World, s: Server, repo: string, d: string, cid: string)
    requires FileTree.Valid(s.index.disk) && Free(repo, ':') && IsDigest(d)
    ensures TagsKept(w, s.index, AddCid(w, s, repo, d, cid).index)
  {
    forall r, k | CleanPair(r, k) && !IsDigest(k)
      ensures Lookup(w.location, AddCid(w, s, repo, d, cid).index, r, k) == Lookup(w.location, s.index, r, k)
    {
      LookupAfterAdd(w.location, s.index, repo, d, cid, r, k);
    }
  }

  lemma {:induction false} DigestsKeepTags(w: World, s: Server, repo: string, digests: seq<string>, cid: string)
    requires FileTree.Valid(s.index.disk) && Free(repo, ':') && forall d :: d in digests ==> IsDigest(d)
    ensures TagsKept(w, s.index, AddCids(w, s, repo, digests, cid).index)
  {
    if digests != [] {
      var init, d := digests[..|digests| - 1], digests[|digests| - 1];
      DigestsKeepTags(w, s, repo, init, cid);
      DigestKeepsTags(w, AddCids(w, s, repo, init, cid), repo, d, cid);
    }
  }

  lemma FetchKeepsTags(w: World, u: Seen, s: Server, repo: string, target: string)
    requires Coherent(w, u, s) && CleanPair(repo, target)
    ensures TagsKept(w, s.index, Fetch(w, s, repo, target).0.index)
  {
    var cid := ResolveCid(w, s.index, repo, target);
    if target !in Cache(s, repo) && cid.Some? && GetManifest(w, s.ipfs, cid.value, target).Some? {
      var mf := GetManifest(w, s.ipfs, cid.value, target).value;
      FetchedIsKnown(w, u, s, repo, target, cid.value, mf);
      DigestKeepsTags(w, Cached(Opened(s, repo), repo, target, mf.digest, mf), repo, mf.digest, cid.value);
    }
  }

  lemma GetKeepsTags(w: World, u: Seen, s: Server, repo: string, target: string)
    requires Coherent(w, u, s) && CleanPair(repo, target)
    ensures TagsKept(w, s.index, Get(w, s, repo, target).0.index)
  {
    FetchKeepsTags(w, u, s, repo, target);
    FetchKeepsCoherent(w, u, s, repo, target);
    GetInFull(w, s, repo, target);
    var (f, mf) := Fetch(w, s, repo, target);
    if mf.Some? && w.Digests(mf.value.blob).Some? {
      ResolvedHoldsBlobs(w, u, f, repo, target);
      var cid := ResolveCid(w, f.index, repo, target).value;
      BlobsHaveDigests(w, u, f, cid);
      DigestsKeepTags(w, f, repo, w.Digests(mf.value.blob).value, cid);
    }
  }

  lemma BlobsHaveDigests(w: World, u: Seen, s: Server, cid: string)
    requires Coherent(w, u, s) && cid in s.ipfs
    ensures forall d :: d in s.ipfs[cid].blobs ==> IsDigest(d)
  {
    assert WellFormed(w, u, s.ipfs[cid]);
    forall d | d in s.ipfs[cid].blobs
      ensures IsDigest(d)
    {
      DigestsAreClean(w, u, s.ipfs[cid].blobs[d]);
    }
  }

  lemma ReadKeepsTags(w: World, u: Seen, s: Server, e: Event)
    requires Coherent(w, u, s) && IsManifestRead(e) && CleanPair(RouteOf(e.q.elem).repo, RouteOf(e.q.elem).target)
    ensures TagsKept(w, s.index, Step(w, s, e).0.index) && Step(w, s, e).0.ipfs == s.ipfs
  {
    var r := RouteOf(e.q.elem);
    FetchKeeps(w, s, r.repo, r.target);
    if e.q.verb == GET {
      GetKeepsTags(w, u, s, r.repo, r.target);
      GetKeeps(w, s, r.repo, r.target);
    } else {
      FetchKeepsTags(w, u, s, r.repo, r.target);
      HeadInFull(w, s, r.repo, r.target);
    }
  }

  /** Of the three additions of a PUT, only the first is for the disk. */
  lemma PutOnDisk(w: World, x: Index, repo: string, target: string, d: string, cid: string, r: string, k: string)
    requires FileTree.Valid(x.disk) && CleanPair(repo, target) && CleanPair(r, k) && IsDigest(d) && cid != repo
    ensures var p, disk := PathOf(w, r, k), IndexAfterPut(w, x, repo, target, d, cid).disk;
            && (FileTree.Blocked(x.disk, p) ==> FileTree.Blocked(disk, p))
            && FileTree.FileAt(disk, p)
               == if r != repo || k != target || IsDigest(target) then FileTree.FileAt(x.disk, p)
                  else if FileTree.Blocked(x.disk, p) then None else Some(cid)
  {
    DiskStep(w.location, x, repo, target, cid, r, k);
  }

  /** A PUT makes its tag durable, if its path is not blocked, and leaves all others so. */
  lemma PutIsDurable(w: World, x: Index, ipfs: map<string, Image>, ipfs': map<string, Image>,
                     m: map<Reference, Bytes>, repo: string, target: string, d: string, cid: string, b: Bytes)
    requires Durable(w, x, ipfs, m) && ImagesKept(ipfs, ipfs') && FileTree.Valid(x.disk)
    requires CleanPair(repo, target) && CleanPair(repo, d) && IsDigest(d)
    requires !IsCid(w, repo) && IsCid(w, cid) && CleanRepo(cid)
    requires CatManifest(ipfs', cid, target) == Some(b)
    ensures Durable(w, IndexAfterPut(w, x, repo, target, d, cid), ipfs', m[(repo, target) := b][(repo, d) := b])
  {
    var x', m' := IndexAfterPut(w, x, repo, target, d, cid), m[(repo, target) := b][(repo, d) := b];
    forall r, k | IsCid(w, r) && CleanPair(r, k)
      ensures FileTree.FileAt(x'.disk, FilePath(w.location, Key(r, k))) == None
    {
      PutOnDisk(w, x, repo, target, d, cid, r, k);
    }
    forall r: Reference | r in m' && !IsDigest(r.1)
      ensures CleanPair(r.0, r.1) && TagHeld(w, x', ipfs', r.0, r.1, m'[r])
    {
      assert r != (repo, d);
      if r != (repo, target) { assert r in m && TagHeld(w, x, ipfs, r.0, r.1, m[r]); }
      TagAfterPut(w, x, ipfs, ipfs', repo, target, d, cid, r.0, r.1, m'[r]);
    }
  }

  lemma TagAfterPut(w: World, x: Index, ipfs: map<string, Image>, ipfs': map<string, Image>, repo: string,
                    target: string, d: string, cid: string, r: string, k: string, b: Bytes)
    requires FileTree.Valid(x.disk) && DiskClear(w, x.disk) && ImagesKept(ipfs, ipfs')
    requires CleanPair(repo, target) && CleanPair(repo, d) && IsDigest(d) && CleanPair(r, k) && !IsDigest(k)
    requires !IsCid(w, repo) && IsCid(w, cid) && CleanRepo(cid)
    requires if r == repo && k == target then CatManifest(ipfs', cid, k) == Some(b)
             else TagHeld(w, x, ipfs, r, k, b)
    ensures TagHeld(w, IndexAfterPut(w, x, repo, target, d, cid), ipfs', r, k, b)
  {
    PutOnDisk(w, x, repo, target, d, cid, r, k);
    LookupAfterPut(w, x, repo, target, d, cid, r, k);
  }

  /** Each step of a well-behaved run keeps the tags pushed so far and makes the one it pushes durable. */
  lemma StepIsDurable(w: World, u: Seen, s: Server, e: Event, m: map<Reference, Bytes>)
    requires Coherent(w, u, s) && Durable(w, s.index, s.ipfs, m) && GoodEvent(w, u, s, e)
    ensures var (s', resp) := Step(w, s, e);
            Durable(w, s'.index, s'.ipfs,
                    if IsManifestPut(e) && resp.Created? then
                      var r := RouteOf(e.q.elem);
                      m[(r.repo, r.target) := e.q.body][(r.repo, w.Digest(e.q.body)) := e.q.body]
                    else m)
  {
    var s' := Step(w, s, e).0;
    if IsManifestPut(e) {
      PutStepIsDurable(w, u, s, e, m);
    } else {
      if IsManifestRead(e) {
        ReadKeepsTags(w, u, s, e);
      } else if IsBlobWrite(e) {
        WriteStep(w, s, e);
      } else if e.Http? {
        IdleStep(w, s, e);
      }
      KeptIsDurable(w, s.index, s'.index, s.ipfs, s'.ipfs, m);
    }
  }

  /** What a PUT that publishes leaves of the index and of the images. */
  lemma PutIndex(w: World, s: Server, e: Event)
    requires IsManifestPut(e) && Publishes(w, s, e) && e.added.Published? && e.added.cid != ""
    ensures var (s', resp) := Step(w, s, e);
            var r := RouteOf(e.q.elem);
            && resp.Created?
            && s'.index == IndexAfterPut(w, s.index, r.repo, r.target, w.Digest(e.q.body), e.added.cid)
            && s'.ipfs == s.ipfs[e.added.cid := ImageOf(w, r.target, e.q.body, LayerBlobs(s.blobs, r.repo))]
  {
    var r := RouteOf(e.q.elem);
    PutInFull(w, s, r.repo, r.target, e.q.contentType, e.q.body, e.added.cid);
  }

  lemma PutStepIsDurable(w: World, u: Seen, s: Server, e: Event, m: map<Reference, Bytes>)
    requires Coherent(w, u, s) && Durable(w, s.index, s.ipfs, m) && GoodEvent(w, u, s, e) && IsManifestPut(e)
    ensures var (s', resp) := Step(w, s, e);
            var r := RouteOf(e.q.elem);
            Durable(w, s'.index, s'.ipfs,
                    if resp.Created? then m[(r.repo, r.target) := e.q.body][(r.repo, w.Digest(e.q.body)) := e.q.body]
                    else m)
  {
    var r := RouteOf(e.q.elem);
    assert GoodPut(w, u, s, e);
    if IndexPasses(w, Cache(s, r.repo), e.q.contentType, e.q.body) {
      PutIndex(w, s, e);
      ImageServes(w, r.target, e.q.body, LayerBlobs(s.blobs, r.repo));
      DigestsAreClean(w, u, e.q.body);
      var image := ImageOf(w, r.target, e.q.body, LayerBlobs(s.blobs, r.repo));
      PutIsDurable(w, s.index, s.ipfs, s.ipfs[e.added.cid := image], m, r.repo, r.target, w.Digest(e.q.body),
                   e.added.cid, e.q.body);
    } else {
      assert Step(w, s, e) == (Opened(s, r.repo), Refused(404, "MANIFEST_UNKNOWN"));
    }
  }

  lemma {:induction false} RunIsDurable(w: World, u: Seen, s: Server, run: Run, m: map<Reference, Bytes>)
    requires Coherent(w, u, s) && Durable(w, s.index, s.ipfs, m) && WellBehaved(w, u, s, run)
    ensures Durable(w, After(w, s, run).index, After(w, s, run).ipfs, m + Pushed(w, s, run))
  {
    if run == [] {
      assert m + Pushed(w, s, run) == m;
    } else {
      var init, e := run[..|run| - 1], run[|run| - 1];
      WellBehavedInit(w, u, s, run);
      RunIsDurable(w, u, s, init, m);
      AlwaysCoherent(w, u, s, init);
      StepIsDurable(w, u, After(w, s, init), e, m + Pushed(w, s, init));
      if IsManifestPut(e) {
        var r := RouteOf(e.q.elem);
        MergedUpdate(m, Pushed(w, s, init), (r.repo, r.target), (r.repo, w.Digest(e.q.body)), e.q.body);
      }
    }
  }

  lemma MergedUpdate(m: map<Reference, Bytes>, n: map<Reference, Bytes>, r: Reference, r': Reference, b: Bytes)
    ensures (m + n)[r := b][r' := b] == m + n[r := b][r' := b]
  {
  }

  // ---- all lives ----

  /** What holds at the start of each life. */
  ghost predicate Recovered(w: World, u: Seen, s: Server, m: map<Reference, Bytes>, up: map<string, Bytes>) {
    && Coherent(w, u, s) && s.blobs.contents == map[]
    && Durable(w, s.index, s.ipfs, m) && UploadsGood(w, u, up) && BlobsUploaded(w, m, up)
  }

  lemma UploadsMerge(w: World, u: Seen, m: map<Reference, Bytes>, up: map<string, Bytes>, m': map<Reference, Bytes>,
                     up': map<string, Bytes>)
    requires UploadsGood(w, u, up) && BlobsUploaded(w, m, up) && UploadsGood(w, u, up') && BlobsUploaded(w, m', up')
    ensures UploadsGood(w, u, up + up') && BlobsUploaded(w, m + m', up + up')
  {
  }

  lemma LifeRecovers(w: World, u: Seen, s: Server, run: Run, m: map<Reference, Bytes>, up: map<string, Bytes>)
    requires Recovered(w, u, s, m, up) && WellBehaved(w, u, s, run)
    ensures Recovered(w, u, Restarted(After(w, s, run)), m + Pushed(w, s, run), up + Uploaded(w, s, run))
  {
    var now := After(w, s, run);
    AlwaysCoherent(w, u, s, run);
    AlwaysRefines(w, u, s, run);
    RunIsDurable(w, u, s, run, m);
    RestartIsDurable(w, now.index, now.ipfs, m + Pushed(w, s, run));
    StartIsCoherent(w, u, now.index.disk, now.ipfs);
    UploadsMerge(w, u, m, up, Pushed(w, s, run), Uploaded(w, s, run));
  }

  /** After any number of well-behaved lives the server starts coherent, with all tags ever pushed durable. */
  lemma {:induction false} AlwaysRecovered(w: World, u: Seen, s: Server, lives: seq<Run>)
    requires Coherent(w, u, s) && s.blobs.contents == map[] && DiskClear(w, s.index.disk)
    requires WellBehavedLives(w, u, s, lives)
    ensures Recovered(w, u, Lived(w, s, lives), PushedInAll(w, s, lives), UploadedInAll(w, s, lives))
  {
    if lives != [] {
      var init := lives[..|lives| - 1];
      assert WellBehavedLives(w, u, s, init) by {
        forall n | 0 <= n < |init|
          ensures WellBehaved(w, u, Lived(w, s, init[..n]), init[n])
        {
          assert init[..n] == lives[..n];
        }
      }
      AlwaysRecovered(w, u, s, init);
      assert WellBehaved(w, u, Lived(w, s, lives[..|lives| - 1]), lives[|lives| - 1]);
      LifeRecovers(w, u, Lived(w, s, init), lives[|lives| - 1], PushedInAll(w, s, init), UploadedInAll(w, s, init));
    }
  }

  // ---- what is served ----

  /** A GET of a durable tag. */
  lemma DurableIsPulled(w: World, u: Seen, s: Server, e: Event, repo: string, tag: string, b: Bytes)
    requires Coherent(w, u, s) && CleanPair(repo, tag) && TagHeld(w, s.index, s.ipfs, repo, tag, b)
    requires !FileTree.Blocked(s.index.disk, PathOf(w, repo, tag)) && w.Digests(b).Some?
    requires AsksManifest(e, GET, repo, tag)
    ensures var (s', resp) := Step(w, s, e);
            && resp.Found? && resp.body == b
            && forall d :: d in w.Digests(b).value ==> Key(repo, d) in s'.index.cids
  {
    var cid := FileTree.FileAt(s.index.disk, PathOf(w, repo, tag)).value;
    ResolveFound(w, s.index, repo, tag, cid);
    ResolvedIsPulled(w, u, s, e, repo, tag, cid, b);
  }

  /**
   * Push, restart, pull. After any number of well-behaved lives and a run of the present one, a GET of a tag whose path
   * is not blocked answers with the bytes of its last completed PUT, in whichever life that was; and in
   * every later state of this life each of the manifest's blobs is served with the bytes uploaded under its digest.
   */
  lemma PushRestartPull(w: World, u: Seen, s: Server, lives: seq<Run>, run: Run, e: Event, later: Run,
                        repo: string, tag: string, d: string, g: Event)
    requires Coherent(w, u, s) && s.blobs.contents == map[] && DiskClear(w, s.index.disk)
    requires WellBehavedLives(w, u, s, lives) && WellBehaved(w, u, Lived(w, s, lives), run + [e] + later)
    requires AsksManifest(e, GET, repo, tag) && !IsDigest(tag)
    requires var m := PushedInAll(w, s, lives) + Pushed(w, Lived(w, s, lives), run);
             (repo, tag) in m && w.Digests(m[(repo, tag)]).Some?
    requires !FileTree.Blocked(After(w, Lived(w, s, lives), run).index.disk, PathOf(w, repo, tag))
    ensures var start := Lived(w, s, lives);
            var b := (PushedInAll(w, s, lives) + Pushed(w, start, run))[(repo, tag)];
            var up := UploadedInAll(w, s, lives) + Uploaded(w, start, run);
            var resp := Step(w, After(w, start, run), e).1;
            && resp.Found? && resp.body == b
            && (d in w.Digests(b).value && AsksBlob(g, GET, repo, d) ==>
                  d in up && Step(w, After(w, start, run + [e] + later), g).1 == Found(d, "", "", up[d]))
  {
    AlwaysRecovered(w, u, s, lives);
    RecoveredIsServed(w, u, Lived(w, s, lives), PushedInAll(w, s, lives), UploadedInAll(w, s, lives),
                      run, e, later, repo, tag, d, g);
  }

  lemma RecoveredIsServed(w: World, u: Seen, s: Server, m: map<Reference, Bytes>, up: map<string, Bytes>,
                          run: Run, e: Event, later: Run, repo: string, tag: string, d: string, g: Event)
    requires Recovered(w, u, s, m, up) && WellBehaved(w, u, s, run + [e] + later)
    requires AsksManifest(e, GET, repo, tag) && !IsDigest(tag)
    requires var m' := m + Pushed(w, s, run);
             (repo, tag) in m' && w.Digests(m'[(repo, tag)]).Some?
    requires !FileTree.Blocked(After(w, s, run).index.disk, PathOf(w, repo, tag))
    ensures var b, up' := (m + Pushed(w, s, run))[(repo, tag)], up + Uploaded(w, s, run);
            var resp := Step(w, After(w, s, run), e).1;
            && resp.Found? && resp.body == b
            && (d in w.Digests(b).value && AsksBlob(g, GET, repo, d) ==>
                  d in up' && Step(w, After(w, s, run + [e] + later), g).1 == Found(d, "", "", up'[d]))
  {
    var all := run + [e] + later;
    var now, m', up' := After(w, s, run), m + Pushed(w, s, run), up + Uploaded(w, s, run);
    var b := m'[(repo, tag)];
    assert Coherent(w, u, now) && Durable(w, now.index, now.ipfs, m')
           && UploadsGood(w, u, up') && BlobsUploaded(w, m', up') by {
      Prefix(w, u, s, all, |run|);
      assert all[..|run|] == run;
      AlwaysCoherent(w, u, s, run);
      AlwaysRefines(w, u, s, run);
      RunIsDurable(w, u, s, run, m);
      UploadsMerge(w, u, m, up, Pushed(w, s, run), Uploaded(w, s, run));
    }
    assert CleanPair(repo, tag) && TagHeld(w, now.index, now.ipfs, repo, tag, b) by {
      var r: Reference := (repo, tag);
      assert r in m' && !IsDigest(r.1);
    }
    DurableIsPulled(w, u, now, e, repo, tag, b);
    DigestsUploaded(w, u, m', up', (repo, tag));
    var pulled, final := Step(w, now, e).0, After(w, s, all);
    assert Coherent(w, u, final) by { AlwaysCoherent(w, u, s, all); }
    assert final == After(w, pulled, later) by { StepsAlong(w, s, run, e, later); }
    IndexGrowsAlong(w, pulled, later);
    ServedLater(w, u, final, up', w.Digests(b).value, repo);
    AskedOf(w, final, g, repo, d);
  }

  /** Why the path matters: after a restart a tag with a blocked path is not in the index any more. */
  lemma BlockedIsForgotten(w: World, s: Server, repo: string, tag: string)
    requires FileTree.Valid(s.index.disk) && FileTree.Blocked(s.index.disk, PathOf(w, repo, tag))
    ensures Lookup(w.location, Restarted(s).index, repo, tag) == None
  {
    FileTree.FileUnblocked(s.index.disk, PathOf(w, repo, tag));
  }
}
