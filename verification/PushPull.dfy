/** What is pushed can be pulled: the server is a plain map from references to manifests and from digests to blobs. */
module PushPull {
  import opened Text
  import opened World
  import opened Routes
  import opened CidStore
  import opened BlobSpec
  import opened ManifestSpec
  import opened Runs
  import opened Coherence

  // ---- the plain registry, built from requests and responses alone ----

  type Reference = (string, string)

  /** The manifests of the completed PUTs, the last one winning under each of its two references. */
  function Pushed(w: World, s: Server, run: Run): map<Reference, Bytes> {
    if run == [] then map[]
    else
      var init, e := run[..|run| - 1], run[|run| - 1];
      var m := Pushed(w, s, init);
      if IsManifestPut(e) && Step(w, After(w, s, init), e).1.Created? then
        var r := RouteOf(e.q.elem);
        m[(r.repo, r.target) := e.q.body][(r.repo, w.Digest(e.q.body)) := e.q.body]
      else m
  }

  /** The bytes of the blobs committed so far under their digests. */
  function Uploaded(w: World, s: Server, run: Run): map<string, Bytes> {
    if run == [] then map[]
    else
      var init, e := run[..|run| - 1], run[|run| - 1];
      var (s', resp) := Step(w, After(w, s, init), e);
      if IsBlobWrite(e) && resp.Created? && resp.digest in s'.blobs.contents then
        Uploaded(w, s, init)[resp.digest := s'.blobs.contents[resp.digest]]
      else Uploaded(w, s, init)
  }

  /** The digests committed to a repository since its last publication, in order. */
  function CommittedSince(w: World, s: Server, run: Run, repo: string): seq<string> {
    if run == [] then []
    else
      var init, e := run[..|run| - 1], run[|run| - 1];
      var prior := After(w, s, init);
      if IsBlobWrite(e) && RouteOf(e.q.elem).repo == repo && Step(w, prior, e).1.Created? then
        CommittedSince(w, s, init, repo) + [Step(w, prior, e).1.digest]
      else if Publishes(w, prior, e) && RouteOf(e.q.elem).repo == repo then []
      else CommittedSince(w, s, init, repo)
  }

  /** The layer list of a repository is exactly what was committed to it since it last published. */
  lemma {:induction false} LayersAreCommits(w: World, s: Server, run: Run, repo: string)
    requires s.blobs.layers == map[]
    ensures Layers(After(w, s, run).blobs, repo) == CommittedSince(w, s, run, repo)
  {
    if run != [] {
      var init, e := run[..|run| - 1], run[|run| - 1];
      var prior := After(w, s, init);
      LayersAreCommits(w, s, init, repo);
      BlobsStep(w, prior, e);
      if IsBlobWrite(e) {
        WriteStep(w, prior, e);
        WriteLayers(w, prior.blobs, RouteOf(e.q.elem), e.q, e.id, repo);
      }
    }
  }

  lemma WriteLayers(w: World, b: Blobs, r: Route, q: Request, id: string, repo: string)
    requires r.BlobRoute?
    ensures var (b', resp) := Write(w, b, r, q, id);
            Layers(b', repo) == Layers(b, repo) + if r.repo == repo && resp.Created? then [resp.digest] else []
  {
  }

  // ---- the refinement ----

  /** Every pushed reference is cached with the pushed bytes. */
  ghost predicate CacheHolds(s: Server, m: map<Reference, Bytes>) {
    forall r: Reference :: r in m ==> r.1 in Cache(s, r.0) && Cache(s, r.0)[r.1].blob == m[r]
  }

  /** The blob store holds nothing but uploaded blobs. */
  ghost predicate StoreWithin(b: Blobs, up: map<string, Bytes>) {
    forall d :: d in b.contents ==> d in up
  }

  ghost predicate UploadsGood(w: World, u: Seen, up: map<string, Bytes>) {
    forall d :: d in up ==> w.Digest(up[d]) == d && up[d] in u.blobs
  }

  /** All blobs of the pushed manifests were uploaded. */
  ghost predicate BlobsUploaded(w: World, m: map<Reference, Bytes>, up: map<string, Bytes>) {
    forall r: Reference :: r in m && w.Digests(m[r]).Some? ==> forall d :: d in w.Digests(m[r]).value ==> d in up
  }

  ghost predicate Refines(w: World, u: Seen, s: Server, m: map<Reference, Bytes>, up: map<string, Bytes>) {
    CacheHolds(s, m) && StoreWithin(s.blobs, up) && UploadsGood(w, u, up) && BlobsUploaded(w, m, up)
  }

  lemma WellBehavedInit(w: World, u: Seen, s: Server, run: Run)
    requires run != [] && WellBehaved(w, u, s, run)
    ensures WellBehaved(w, u, s, run[..|run| - 1])
    ensures GoodEvent(w, u, After(w, s, run[..|run| - 1]), run[|run| - 1])
  {
    var init := run[..|run| - 1];
    forall n | 0 <= n < |init|
      ensures GoodEvent(w, u, After(w, s, init[..n]), init[n])
    {
      assert init[..n] == run[..n];
    }
  }

  lemma {:induction false} AlwaysRefines(w: World, u: Seen, s: Server, run: Run)
    requires Coherent(w, u, s) && s.blobs.contents == map[] && WellBehaved(w, u, s, run)
    ensures Refines(w, u, After(w, s, run), Pushed(w, s, run), Uploaded(w, s, run))
  {
    if run != [] {
      var init, e := run[..|run| - 1], run[|run| - 1];
      WellBehavedInit(w, u, s, run);
      AlwaysRefines(w, u, s, init);
      AlwaysCoherent(w, u, s, init);
      var prior := After(w, s, init);
      if IsBlobWrite(e) {
        WriteRefines(w, u, prior, e, Pushed(w, s, init), Uploaded(w, s, init));
      } else if IsManifestPut(e) {
        PutRefines(w, u, prior, e, Pushed(w, s, init), Uploaded(w, s, init));
      } else {
        OtherRefines(w, u, prior, e, Pushed(w, s, init), Uploaded(w, s, init));
      }
    }
  }

  lemma WriteRefines(w: World, u: Seen, s: Server, e: Event, m: map<Reference, Bytes>, up: map<string, Bytes>)
    requires Coherent(w, u, s) && Refines(w, u, s, m, up) && IsBlobWrite(e) && GoodEvent(w, u, s, e)
    ensures var (s', resp) := Step(w, s, e);
            Refines(w, u, s', m, if resp.Created? && resp.digest in s'.blobs.contents
                                 then up[resp.digest := s'.blobs.contents[resp.digest]] else up)
  {
    var r := RouteOf(e.q.elem);
    WriteStep(w, s, e);
    WriteHolds(w, s.blobs, r, e.q, e.id);
    WriteKeepsGood(w, u, s.blobs, r, e.q, e.id);
    var (b, resp) := Write(w, s.blobs, r, e.q, e.id);
    HeldOnceWritten(s, b, m);
    UploadRefines(w, u, s.blobs, b, m, up, if resp.Created? then Some(resp.digest) else None);
  }

  lemma HeldOnceWritten(s: Server, b: Blobs, m: map<Reference, Bytes>)
    requires CacheHolds(s, m)
    ensures CacheHolds(s.(blobs := b), m)
  {
    StillHeld(s, s.(blobs := b), m);
  }

  lemma UploadRefines(w: World, u: Seen, b: Blobs, b': Blobs, m: map<Reference, Bytes>, up: map<string, Bytes>,
                      d: Option<string>)
    requires StoreWithin(b, up) && UploadsGood(w, u, up) && BlobsUploaded(w, m, up) && BlobsGood(w, u, b')
    requires b'.contents.Keys == b.contents.Keys + if d.Some? then {d.value} else {}
    ensures var up' := if d.Some? then up[d.value := b'.contents[d.value]] else up;
            StoreWithin(b', up') && UploadsGood(w, u, up') && BlobsUploaded(w, m, up')
  {
    assert forall k :: k in b'.contents ==> k in b'.contents.Keys;
  }

  lemma PutRefines(w: World, u: Seen, s: Server, e: Event, m: map<Reference, Bytes>, up: map<string, Bytes>)
    requires Coherent(w, u, s) && Refines(w, u, s, m, up) && IsManifestPut(e) && GoodEvent(w, u, s, e)
    ensures var (s', resp) := Step(w, s, e);
            var r := RouteOf(e.q.elem);
            Refines(w, u, s',
                    if resp.Created? then m[(r.repo, r.target) := e.q.body][(r.repo, w.Digest(e.q.body)) := e.q.body]
                    else m, up)
  {
    var r := RouteOf(e.q.elem);
    assert GoodPut(w, u, s, e);
    if IndexPasses(w, Cache(s, r.repo), e.q.contentType, e.q.body) {
      var mf := Manifest(e.q.contentType, e.q.body, "");
      PutShape(w, s, e);
      PushHeld(s, Step(w, s, e).0, m, r.repo, r.target, w.Digest(e.q.body), mf);
      PushUploaded(w, s.blobs, m, up, r.repo, r.target, e.q.body);
    } else {
      assert Step(w, s, e) == (Opened(s, r.repo), Refused(404, "MANIFEST_UNKNOWN"));
      HeldOnceOpened(s, m, r.repo);
    }
  }

  /** What a PUT that publishes leaves of the cache and of the blob store. */
  lemma PutShape(w: World, s: Server, e: Event)
    requires IsManifestPut(e) && Publishes(w, s, e) && e.added.Published? && e.added.cid != ""
    ensures var (s', resp) := Step(w, s, e);
            var r := RouteOf(e.q.elem);
            && resp.Created?
            && s'.manifests
               == Cached(s, r.repo, r.target, w.Digest(e.q.body), Manifest(e.q.contentType, e.q.body, "")).manifests
            && s'.blobs == Removed(s.blobs, r.repo)
  {
    var r := RouteOf(e.q.elem);
    PutInFull(w, s, r.repo, r.target, e.q.contentType, e.q.body, e.added.cid);
  }

  lemma QuietStep(w: World, s: Server, e: Event)
    requires !IsBlobWrite(e) && !IsManifestPut(e)
    ensures Step(w, s, e).0.blobs == s.blobs
    ensures !IsManifestRead(e) ==> Step(w, s, e).0.manifests == s.manifests
  {
    BlobsStep(w, s, e);
    if e.Http? && !IsManifestRead(e) { IdleStep(w, s, e); }
  }

  lemma HeldOnceOpened(s: Server, m: map<Reference, Bytes>, repo: string)
    requires CacheHolds(s, m)
    ensures CacheHolds(Opened(s, repo), m)
  {
    var s' := Opened(s, repo);
    forall r: Reference | r in m
      ensures r.1 in Cache(s', r.0) && Cache(s', r.0)[r.1].blob == m[r]
    {
      assert r.1 in Cache(s, r.0);
    }
  }

  lemma PushHeld(s: Server, s': Server, m: map<Reference, Bytes>, repo: string, target: string, d: string, mf: Manifest)
    requires CacheHolds(s, m) && s'.manifests == Cached(s, repo, target, d, mf).manifests
    ensures CacheHolds(s', m[(repo, target) := mf.blob][(repo, d) := mf.blob])
  {
    var m' := m[(repo, target) := mf.blob][(repo, d) := mf.blob];
    forall r: Reference | r in m'
      ensures r.1 in Cache(s', r.0) && Cache(s', r.0)[r.1].blob == m'[r]
    {
      if r != (repo, target) && r != (repo, d) {
        assert r.1 in Cache(s, r.0);
        assert r.0 != repo || (r.1 != target && r.1 != d);
      }
    }
  }

  lemma PushUploaded(w: World, b: Blobs, m: map<Reference, Bytes>, up: map<string, Bytes>,
                     repo: string, target: string, body: Bytes)
    requires StoreWithin(b, up) && BlobsUploaded(w, m, up) && Complete(b, repo)
    requires w.Digests(body).Some? ==> forall d :: d in w.Digests(body).value ==> d in b.layers[repo]
    ensures BlobsUploaded(w, m[(repo, target) := body][(repo, w.Digest(body)) := body], up)
    ensures StoreWithin(Removed(b, repo), up)
  {
  }

  lemma OtherRefines(w: World, u: Seen, s: Server, e: Event, m: map<Reference, Bytes>, up: map<string, Bytes>)
    requires Coherent(w, u, s) && Refines(w, u, s, m, up) && GoodEvent(w, u, s, e)
    requires !IsBlobWrite(e) && !IsManifestPut(e)
    ensures Refines(w, u, Step(w, s, e).0, m, up)
  {
    var s' := Step(w, s, e).0;
    QuietStep(w, s, e);
    if IsManifestRead(e) { ReadKeepsCoherent(w, u, s, e); }
    StillHeld(s, s', m);
  }

  lemma StillHeld(s: Server, s': Server, m: map<Reference, Bytes>)
    requires CacheHolds(s, m) && BytesKept(s, s')
    ensures CacheHolds(s', m)
  {
    forall r: Reference | r in m
      ensures r.1 in Cache(s', r.0) && Cache(s', r.0)[r.1].blob == m[r]
    {
      assert r.1 in Cache(s, r.0);
    }
  }

  /**
   * In every well-behaved run, GET and HEAD of a pushed reference answer with the bytes of the last
   * completed PUT for it.
   */
  lemma PushedIsServed(w: World, u: Seen, s: Server, run: Run, e: Event, repo: string, reference: string)
    requires Coherent(w, u, s) && s.blobs.contents == map[] && WellBehaved(w, u, s, run)
    requires AsksManifest(e, GET, repo, reference) || AsksManifest(e, HEAD, repo, reference)
    requires var m := Pushed(w, s, run); (repo, reference) in m && w.Digests(m[(repo, reference)]).Some?
    ensures var b := Pushed(w, s, run)[(repo, reference)];
            var resp := Step(w, After(w, s, run), e).1;
            && (e.q.verb == GET ==> resp.Found? && resp.body == b)
            && (e.q.verb == HEAD ==> resp.FoundHead? && resp.length == |b|)
  {
    AlwaysRefines(w, u, s, run);
    AlwaysCoherent(w, u, s, run);
    var now := After(w, s, run);
    HeldReference(w, u, now, Pushed(w, s, run), repo, reference);
    GetKeepsCoherent(w, u, now, repo, reference);
    AskedOf(w, now, e, repo, reference);
  }

  lemma AskedOf(w: World, s: Server, e: Event, repo: string, reference: string)
    ensures AsksManifest(e, GET, repo, reference) ==> Step(w, s, e) == Get(w, s, repo, reference)
    ensures AsksManifest(e, HEAD, repo, reference) ==> Step(w, s, e) == Head(w, s, repo, reference)
    ensures AsksBlob(e, GET, repo, reference) ==> Step(w, s, e) == (s, GetBlob(w, s, repo, reference))
    ensures AsksBlob(e, HEAD, repo, reference) ==> Step(w, s, e) == (s, HeadBlob(w, s, repo, reference))
  {
  }

  /** Once indexed, a blob digest is served with its bytes. */
  lemma IndexedIsServed(w: World, u: Seen, s: Server, repo: string, b: Bytes)
    requires Coherent(w, u, s) && CleanRepo(repo) && b in u.blobs
    requires Key(repo, w.Digest(b)) in s.index.cids
    ensures GetBlob(w, s, repo, w.Digest(b)) == Found(w.Digest(b), "", "", b)
  {
    var d := w.Digest(b);
    DigestsAreClean(w, u, b);
    assert DigestIndexed(s, repo, d);
    var cid := s.index.cids[Key(repo, d)];
    var image := s.ipfs[cid];
    assert WellFormed(w, u, image);
    if d in image.manifests {
      assert GoodManifest(w, u, image, d);
      SameBody(w, u, image.manifests[d], b);
      assert false;
    }
    SameBody(w, u, image.blobs[d], b);
    ResolveFound(w, s.index, repo, d, cid);
  }

  /** The index never forgets a key. */
  lemma IndexGrows(w: World, s: Server, e: Event)
    ensures s.index.cids.Keys <= Step(w, s, e).0.index.cids.Keys
  {
    if IsManifestRead(e) {
      var r := RouteOf(e.q.elem);
      FetchGrows(w, s, r.repo, r.target);
      if !s.stuck { GetGrows(w, s, r.repo, r.target); }
    } else if IsManifestPut(e) {
      var r := RouteOf(e.q.elem);
      PutGrows(w, s, r.repo, r.target, e.q.contentType, e.q.body, e.added);
    } else if IsBlobWrite(e) {
      WriteStep(w, s, e);
    }
  }

  lemma FetchGrows(w: World, s: Server, repo: string, target: string)
    ensures s.index.cids.Keys <= Fetch(w, s, repo, target).0.index.cids.Keys
  {
  }

  lemma GetGrows(w: World, s: Server, repo: string, target: string)
    requires !s.stuck
    ensures s.index.cids.Keys <= Get(w, s, repo, target).0.index.cids.Keys
  {
    FetchGrows(w, s, repo, target);
    GetInFull(w, s, repo, target);
    var (f, mf) := Fetch(w, s, repo, target);
    var cid := ResolveCid(w, f.index, repo, target);
    if mf.Some? && cid.Some? && w.Digests(mf.value.blob).Some? {
      AddCidsGrows(w, f, repo, w.Digests(mf.value.blob).value, cid.value);
    }
  }

  lemma PutGrows(w: World, s: Server, repo: string, target: string, contentType: string, body: Bytes, added: AddResult)
    ensures s.index.cids.Keys <= Put(w, s, repo, target, contentType, body, added).0.index.cids.Keys
  {
  }

  lemma {:induction false} AddCidsGrows(w: World, s: Server, repo: string, digests: seq<string>, cid: string)
    ensures s.index.cids.Keys <= AddCids(w, s, repo, digests, cid).index.cids.Keys
  {
    if digests != [] {
      AddCidsGrows(w, s, repo, digests[..|digests| - 1], cid);
    }
  }

  lemma {:induction false} IndexGrowsAlong(w: World, s: Server, run: Run)
    ensures s.index.cids.Keys <= After(w, s, run).index.cids.Keys
  {
    if run != [] {
      IndexGrowsAlong(w, s, run[..|run| - 1]);
      IndexGrows(w, After(w, s, run[..|run| - 1]), run[|run| - 1]);
    }
  }

  /**
   * Push then pull. In a well-behaved run, a GET of a pushed reference answers with the last pushed bytes, and in
   * every later state, whatever other pushes and pulls have intervened, each of the manifest's
   * blobs is served with exactly the bytes that were uploaded under its digest.
   */
  lemma PushThenPull(w: World, u: Seen, s: Server, run: Run, e: Event, later: Run, repo: string, reference: string,
                     d: string, g: Event)
    requires Coherent(w, u, s) && s.blobs.contents == map[]
    requires WellBehaved(w, u, s, run + [e] + later) && AsksManifest(e, GET, repo, reference)
    requires var m := Pushed(w, s, run); (repo, reference) in m && w.Digests(m[(repo, reference)]).Some?
    ensures var b := Pushed(w, s, run)[(repo, reference)];
            var resp := Step(w, After(w, s, run), e).1;
            && resp.Found? && resp.body == b
            && (d in w.Digests(b).value && AsksBlob(g, GET, repo, d) ==>
                  && d in Uploaded(w, s, run)
                  && Step(w, After(w, s, run + [e] + later), g).1 == Found(d, "", "", Uploaded(w, s, run)[d]))
  {
    var all := run + [e] + later;
    var b, now := Pushed(w, s, run)[(repo, reference)], After(w, s, run);
    assert Coherent(w, u, now) && Refines(w, u, now, Pushed(w, s, run), Uploaded(w, s, run)) by {
      Prefix(w, u, s, all, |run|);
      assert all[..|run|] == run;
      AlwaysRefines(w, u, s, run);
      AlwaysCoherent(w, u, s, run);
    }
    PullIndexes(w, u, now, e, Pushed(w, s, run), Uploaded(w, s, run), repo, reference);
    var pulled, final := Step(w, now, e).0, After(w, s, all);
    assert Coherent(w, u, final) by { AlwaysCoherent(w, u, s, all); }
    assert final == After(w, pulled, later) by { StepsAlong(w, s, run, e, later); }
    IndexGrowsAlong(w, pulled, later);
    ServedLater(w, u, final, Uploaded(w, s, run), w.Digests(b).value, repo);
    AskedOf(w, final, g, repo, d);
  }

  /** One GET of a pushed reference. */
  lemma PullIndexes(w: World, u: Seen, s: Server, e: Event, m: map<Reference, Bytes>, up: map<string, Bytes>,
                    repo: string, reference: string)
    requires Coherent(w, u, s) && Refines(w, u, s, m, up) && AsksManifest(e, GET, repo, reference)
    requires (repo, reference) in m && w.Digests(m[(repo, reference)]).Some?
    ensures var (s', resp) := Step(w, s, e);
            var b := m[(repo, reference)];
            && resp.Found? && resp.body == b && CleanRepo(repo)
            && (forall d :: d in w.Digests(b).value ==> Key(repo, d) in s'.index.cids)
            && (forall d :: d in w.Digests(b).value ==> d in up && w.Digest(up[d]) == d && up[d] in u.blobs)
  {
    assert CleanPair(repo, reference) && reference in Cache(s, repo)
           && Cache(s, repo)[reference].blob == m[(repo, reference)] by {
      HeldReference(w, u, s, m, repo, reference);
    }
    AskedOf(w, s, e, repo, reference);
    PullOfCached(w, u, s, repo, reference);
    DigestsUploaded(w, u, m, up, (repo, reference));
  }

  /** What a pair resolves to is fetched with its bytes, whether it is cached or not. */
  lemma ResolvedIsFetched(w: World, u: Seen, s: Server, repo: string, k: string, cid: string, b: Bytes)
    requires Coherent(w, u, s) && CleanPair(repo, k) && ResolveCid(w, s.index, repo, k) == Some(cid)
    requires CatManifest(s.ipfs, cid, k) == Some(b) && w.Digests(b).Some?
    ensures var f := Fetch(w, s, repo, k).0;
            k in Cache(f, repo) && Cache(f, repo)[k].blob == b
  {
    if k in Cache(s, repo) { assert EntryAgrees(w, s, repo, k); }
  }

  /** And a GET answers with them and indexes the digests. */
  lemma ResolvedIsPulled(w: World, u: Seen, s: Server, e: Event, repo: string, k: string, cid: string, b: Bytes)
    requires Coherent(w, u, s) && CleanPair(repo, k) && ResolveCid(w, s.index, repo, k) == Some(cid)
    requires CatManifest(s.ipfs, cid, k) == Some(b) && w.Digests(b).Some? && AsksManifest(e, GET, repo, k)
    ensures var (s', resp) := Step(w, s, e);
            && resp.Found? && resp.body == b
            && forall d :: d in w.Digests(b).value ==> Key(repo, d) in s'.index.cids
  {
    AskedOf(w, s, e, repo, k);
    ResolvedIsFetched(w, u, s, repo, k, cid, b);
    GetKeepsCoherent(w, u, s, repo, k);
    GetKeeps(w, s, repo, k);
  }

  lemma PullOfCached(w: World, u: Seen, s: Server, repo: string, reference: string)
    requires Coherent(w, u, s) && CleanPair(repo, reference) && reference in Cache(s, repo)
    requires w.Digests(Cache(s, repo)[reference].blob).Some?
    ensures var (s', resp) := Get(w, s, repo, reference);
            var b := Cache(s, repo)[reference].blob;
            && resp.Found? && resp.body == b
            && forall d :: d in w.Digests(b).value ==> Key(repo, d) in s'.index.cids
  {
    GetKeepsCoherent(w, u, s, repo, reference);
  }

  lemma DigestsUploaded(w: World, u: Seen, m: map<Reference, Bytes>, up: map<string, Bytes>, r: Reference)
    requires UploadsGood(w, u, up) && BlobsUploaded(w, m, up) && r in m && w.Digests(m[r]).Some?
    ensures forall d :: d in w.Digests(m[r]).value ==> d in up && w.Digest(up[d]) == d && up[d] in u.blobs
  {
  }

  lemma ServedLater(w: World, u: Seen, s: Server, up: map<string, Bytes>, ds: seq<string>, repo: string)
    requires Coherent(w, u, s) && CleanRepo(repo)
    requires forall d :: d in ds ==> d in up && w.Digest(up[d]) == d && up[d] in u.blobs
    requires forall d :: d in ds ==> Key(repo, d) in s.index.cids
    ensures forall d :: d in ds ==> GetBlob(w, s, repo, d) == Found(d, "", "", up[d])
  {
    forall d | d in ds
      ensures GetBlob(w, s, repo, d) == Found(d, "", "", up[d])
    {
      IndexedIsServed(w, u, s, repo, up[d]);
    }
  }

  lemma HeldReference(w: World, u: Seen, s: Server, m: map<Reference, Bytes>, repo: string, reference: string)
    requires Coherent(w, u, s) && CacheHolds(s, m) && (repo, reference) in m
    ensures CleanPair(repo, reference) && reference in Cache(s, repo)
    ensures Cache(s, repo)[reference].blob == m[(repo, reference)]
  {
    var r := (repo, reference);
    assert r.1 in Cache(s, r.0);
  }

  lemma StepsAlong(w: World, s: Server, run: Run, e: Event, later: Run)
    ensures After(w, s, run + [e] + later) == After(w, Step(w, After(w, s, run), e).0, later)
  {
    AfterConcat(w, s, run + [e], later);
    assert (run + [e])[..|run|] == run;
  }

  lemma Prefix(w: World, u: Seen, s: Server, run: Run, n: nat)
    requires WellBehaved(w, u, s, run) && n <= |run|
    ensures WellBehaved(w, u, s, run[..n])
  {
    forall i | 0 <= i < n
      ensures GoodEvent(w, u, After(w, s, run[..n][..i]), run[..n][i])
    {
      assert run[..n][..i] == run[..i];
    }
  }

  // ---- digests are immutable ----

  /** Once a digest-shaped key is bound in a repository, its bytes never change again. */
  lemma DigestImmutable(w: World, u: Seen, s: Server, run: Run, repo: string, d: string)
    requires Coherent(w, u, s) && WellBehaved(w, u, s, run)
    requires IsDigest(d) && d in Cache(s, repo)
    ensures d in Cache(After(w, s, run), repo)
    ensures Cache(After(w, s, run), repo)[d].blob == Cache(s, repo)[d].blob
    ensures w.Digest(Cache(s, repo)[d].blob) == d
  {
    AlwaysCoherent(w, u, s, run);
    CacheGrows(w, s, run);
    var now := After(w, s, run);
    CachedDigestIsManifest(w, u, s, repo, d);
    CachedDigestIsManifest(w, u, now, repo, d);
    SameBody(w, u, Cache(s, repo)[d].blob, Cache(now, repo)[d].blob);
  }
}
