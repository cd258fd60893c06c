/** Why the cache, the index and the published images agree in well-behaved runs. */
module Coherence {
  import opened Text
  import opened World
  import opened Routes
  import opened CidStore
  import opened BlobSpec
  import opened ManifestSpec
  import opened Runs
  import FileTree

  /** The manifest bodies and the blob bodies that a run gets to see. */
  datatype Seen = Seen(manifests: set<Bytes>, blobs: set<Bytes>)

  /**
   * The hash behaves on what is seen: no two bodies collide, no body is both a manifest and a blob,
   * and its hexadecimal form contains no slash.
   */
  ghost predicate CollisionFree(w: World, u: Seen) {
    && (forall x, y :: x in u.manifests + u.blobs && y in u.manifests + u.blobs && w.hex(x) == w.hex(y) ==> x == y)
    && u.manifests !! u.blobs
    && (forall x :: x in u.manifests + u.blobs ==> Free(w.hex(x), '/'))
  }

  lemma SameBody(w: World, u: Seen, x: Bytes, y: Bytes)
    requires CollisionFree(w, u) && x in u.manifests + u.blobs && y in u.manifests + u.blobs
    requires w.Digest(x) == w.Digest(y)
    ensures x == y
  {
    assert w.Digest(x)[7..] == w.hex(x) && w.Digest(y)[7..] == w.hex(y);
  }

  lemma DigestsAreClean(w: World, u: Seen, x: Bytes)
    requires CollisionFree(w, u) && x in u.manifests + u.blobs
    ensures IsDigest(w.Digest(x)) && CleanReference(w.Digest(x))
  {
    var d := w.Digest(x);
    assert d[..7] == "sha256:";
    assert d[0] == 's';
    forall i | 0 <= i < |d|
      ensures d[i] != '/'
    {
      if i >= 7 { assert d[i] == w.hex(x)[i - 7]; }
    }
  }

  /** A digest-shaped reference is the digest of what it refers to. */
  predicate Honest(w: World, reference: string, b: Bytes) {
    IsDigest(reference) ==> reference == w.Digest(b)
  }

  /** A manifest of an image: honest, also filed under its digest, and with all its blobs present. */
  ghost predicate GoodManifest(w: World, u: Seen, image: Image, k: string)
    requires k in image.manifests
  {
    var b := image.manifests[k];
    && b in u.manifests && Honest(w, k, b)
    && w.Digest(b) in image.manifests && image.manifests[w.Digest(b)] == b
    && (w.Digests(b).Some? ==> forall d :: d in w.Digests(b).value ==> d in image.blobs)
  }

  ghost predicate WellFormed(w: World, u: Seen, image: Image) {
    && (forall k :: k in image.manifests ==> GoodManifest(w, u, image, k))
    && (forall d :: d in image.blobs ==> w.Digest(image.blobs[d]) == d && image.blobs[d] in u.blobs)
  }

  /** A repository name that is itself a content id in canonical form. */
  predicate IsCid(w: World, repo: string) {
    repo != "" && w.toB32(repo) == repo
  }

  // ---- the invariant ----

  /** The cid that a cached pair resolves to names an image with the same bytes under the same key. */
  ghost predicate EntryAgrees(w: World, s: Server, repo: string, k: string)
    requires k in Cache(s, repo)
  {
    var cid := ResolveCid(w, s.index, repo, k);
    cid.Some? && CatManifest(s.ipfs, cid.value, k) == Some(Cache(s, repo)[k].blob)
  }

  ghost predicate CacheAgrees(w: World, s: Server) {
    forall repo, k :: k in Cache(s, repo) ==> CleanPair(repo, k) && EntryAgrees(w, s, repo, k)
  }

  /** A digest in the index names an image that contains it. */
  ghost predicate DigestIndexed(s: Server, repo: string, d: string)
    requires Key(repo, d) in s.index.cids
  {
    var cid := s.index.cids[Key(repo, d)];
    cid in s.ipfs && (d in s.ipfs[cid].manifests || d in s.ipfs[cid].blobs)
  }

  ghost predicate IndexAgrees(s: Server) {
    forall repo, d :: CleanPair(repo, d) && IsDigest(d) && Key(repo, d) in s.index.cids ==> DigestIndexed(s, repo, d)
  }

  /** A repository that is a cid is never indexed as anything else. */
  ghost predicate CidsAgree(w: World, x: Index) {
    forall repo, k :: IsCid(w, repo) && CleanPair(repo, k) ==>
      Lookup(w.location, x, repo, k) == None || Lookup(w.location, x, repo, k) == Some(repo)
  }

  ghost predicate ImagesWellFormed(w: World, u: Seen, ipfs: map<string, Image>) {
    forall cid :: cid in ipfs ==> WellFormed(w, u, ipfs[cid])
  }

  ghost predicate BlobsGood(w: World, u: Seen, b: Blobs) {
    !b.locked && forall d :: d in b.contents ==> w.Digest(b.contents[d]) == d && b.contents[d] in u.blobs
  }

  ghost predicate Coherent(w: World, u: Seen, s: Server) {
    && CollisionFree(w, u)
    && !s.stuck
    && FileTree.Valid(s.index.disk)
    && BlobsGood(w, u, s.blobs)
    && ImagesWellFormed(w, u, s.ipfs)
    && CacheAgrees(w, s)
    && IndexAgrees(s)
    && CidsAgree(w, s.index)
  }

  // ---- well-behaved events ----

  /** Published images are never replaced. */
  predicate AppendOnly(s: Server, cid: string, image: Image) {
    cid in s.ipfs ==> s.ipfs[cid] == image
  }

  /** A PUT that passes the index check completes, publishing a manifest whose blobs were all pushed before. */
  ghost predicate GoodPut(w: World, u: Seen, s: Server, e: Event)
    requires IsManifestPut(e)
  {
    var r := RouteOf(e.q.elem);
    var repo, target := r.repo, r.target;
    IndexPasses(w, Cache(s, repo), e.q.contentType, e.q.body) ==>
      && CleanPair(repo, target) && !IsCid(w, repo)
      && e.q.body in u.manifests && Honest(w, target, e.q.body)
      && Complete(s.blobs, repo)
      && (w.Digests(e.q.body).Some? ==> forall d :: d in w.Digests(e.q.body).value ==> d in s.blobs.layers[repo])
      && e.added.Published? && IsCid(w, e.added.cid) && CleanRepo(e.added.cid)
      && AppendOnly(s, e.added.cid, ImageOf(w, target, e.q.body, LayerBlobs(s.blobs, repo)))
  }

  ghost predicate GoodEvent(w: World, u: Seen, s: Server, e: Event) {
    && (e.Elsewhere? ==> WellFormed(w, u, e.image) && AppendOnly(s, e.cid, e.image))
    && (IsManifestRead(e) ==> CleanPair(RouteOf(e.q.elem).repo, RouteOf(e.q.elem).target))
    && (IsManifestPut(e) ==> GoodPut(w, u, s, e))
    && (IsBlobWrite(e) && Step(w, s, e).1.Created? ==>
          Step(w, s, e).1.digest in Step(w, s, e).0.blobs.contents
          && Step(w, s, e).0.blobs.contents[Step(w, s, e).1.digest] in u.blobs)
  }

  ghost predicate WellBehaved(w: World, u: Seen, s: Server, run: Run) {
    forall n :: 0 <= n < |run| ==> GoodEvent(w, u, After(w, s, run[..n]), run[n])
  }

  // ---- the steps ----

  /** Lookups, and so resolution, of one pair depend only on its own entries. */
  lemma ResolveUnchanged(w: World, x: Index, y: Index, repo: string, k: string)
    requires CleanReference(k) && Lookup(w.location, x, repo, k) == Lookup(w.location, y, repo, k)
    ensures ResolveCid(w, x, repo, k) == ResolveCid(w, y, repo, k)
  {
  }

  lemma ResolveFound(w: World, x: Index, repo: string, k: string, cid: string)
    requires CleanReference(k) && Lookup(w.location, x, repo, k) == Some(cid)
    ensures ResolveCid(w, x, repo, k) == Some(cid)
  {
  }

  /** A cid resolves to itself under every reference. */
  lemma ResolveOfCid(w: World, x: Index, repo: string, k: string)
    requires CidsAgree(w, x) && IsCid(w, repo) && CleanPair(repo, k)
    ensures ResolveCid(w, x, repo, k) == Some(repo)
  {
  }

  lemma EntryGrows(w: World, s: Server, cid: string, image: Image, repo: string, k: string)
    requires AppendOnly(s, cid, image) && k in Cache(s, repo) && EntryAgrees(w, s, repo, k)
    ensures EntryAgrees(w, s.(ipfs := s.ipfs[cid := image]), repo, k)
  {
  }

  /** Publishing more never disturbs what was coherent. */
  lemma GrowthKeepsCoherent(w: World, u: Seen, s: Server, cid: string, image: Image)
    requires Coherent(w, u, s) && WellFormed(w, u, image) && AppendOnly(s, cid, image)
    ensures Coherent(w, u, s.(ipfs := s.ipfs[cid := image]))
  {
    var s' := s.(ipfs := s.ipfs[cid := image]);
    forall repo, k | k in Cache(s', repo)
      ensures CleanPair(repo, k) && EntryAgrees(w, s', repo, k)
    {
      EntryGrows(w, s, cid, image, repo, k);
    }
    forall repo, d | CleanPair(repo, d) && IsDigest(d) && Key(repo, d) in s'.index.cids
      ensures DigestIndexed(s', repo, d)
    {
      assert DigestIndexed(s, repo, d);
    }
    assert ImagesWellFormed(w, u, s'.ipfs);
  }

  /** A cached digest is the digest of a manifest, never of a blob. */
  lemma CachedDigestIsManifest(w: World, u: Seen, s: Server, repo: string, k: string)
    requires Coherent(w, u, s) && k in Cache(s, repo)
    ensures Cache(s, repo)[k].blob in u.manifests && Honest(w, k, Cache(s, repo)[k].blob)
  {
    assert EntryAgrees(w, s, repo, k);
    var cid := ResolveCid(w, s.index, repo, k).value;
    assert WellFormed(w, u, s.ipfs[cid]);
    assert GoodManifest(w, u, s.ipfs[cid], k);
  }

  /** Indexing a digest under an image that holds it. */
  lemma IndexingKeepsCoherent(w: World, u: Seen, s: Server, repo: string, d: string, cid: string)
    requires Coherent(w, u, s) && CleanPair(repo, d) && IsDigest(d)
    requires cid in s.ipfs && (d in s.ipfs[cid].manifests || d in s.ipfs[cid].blobs)
    requires IsCid(w, repo) ==> cid == repo
    requires d in Cache(s, repo) ==> CatManifest(s.ipfs, cid, d) == Some(Cache(s, repo)[d].blob)
    ensures Coherent(w, u, AddCid(w, s, repo, d, cid))
    ensures forall k :: CleanReference(k) && k != d ==>
              ResolveCid(w, AddCid(w, s, repo, d, cid).index, repo, k) == ResolveCid(w, s.index, repo, k)
  {
    var s' := AddCid(w, s, repo, d, cid);
    forall r, k | CleanPair(r, k)
      ensures Lookup(w.location, s'.index, r, k)
              == if r == repo && k == d then Some(cid) else Lookup(w.location, s.index, r, k)
    {
      LookupAfterAdd(w.location, s.index, repo, d, cid, r, k);
    }
    forall k | CleanReference(k) && k != d
      ensures ResolveCid(w, s'.index, repo, k) == ResolveCid(w, s.index, repo, k)
    {
      ResolveUnchanged(w, s.index, s'.index, repo, k);
    }
    forall r, k | k in Cache(s', r)
      ensures CleanPair(r, k) && EntryAgrees(w, s', r, k)
    {
      assert EntryAgrees(w, s, r, k);
      if r == repo && k == d {
        ResolveFound(w, s'.index, r, k, cid);
      } else {
        ResolveUnchanged(w, s.index, s'.index, r, k);
      }
    }
    forall r, e | CleanPair(r, e) && IsDigest(e) && Key(r, e) in s'.index.cids
      ensures DigestIndexed(s', r, e)
    {
      KeyInjective(repo, d, r, e);
      if Key(r, e) in s.index.cids { assert DigestIndexed(s, r, e); }
    }
  }

  /** Caching what both keys already resolve to. */
  lemma CachingKeepsCoherent(w: World, u: Seen, s: Server, repo: string, target: string, digest: string, mf: Manifest)
    requires Coherent(w, u, s) && CleanPair(repo, target) && CleanPair(repo, digest)
    requires ResolveCid(w, s.index, repo, target).Some? && ResolveCid(w, s.index, repo, digest).Some?
    requires CatManifest(s.ipfs, ResolveCid(w, s.index, repo, target).value, target) == Some(mf.blob)
    requires CatManifest(s.ipfs, ResolveCid(w, s.index, repo, digest).value, digest) == Some(mf.blob)
    ensures Coherent(w, u, Cached(s, repo, target, digest, mf))
  {
    var s' := Cached(s, repo, target, digest, mf);
    forall r, k | k in Cache(s', r)
      ensures CleanPair(r, k) && EntryAgrees(w, s', r, k)
    {
      if r != repo || (k != target && k != digest) { assert EntryAgrees(w, s, r, k); }
    }
  }

  lemma OpeningKeepsCoherent(w: World, u: Seen, s: Server, repo: string)
    requires Coherent(w, u, s)
    ensures Coherent(w, u, Opened(s, repo))
  {
    var s' := Opened(s, repo);
    forall r, k | k in Cache(s', r)
      ensures CleanPair(r, k) && EntryAgrees(w, s', r, k)
    {
      assert EntryAgrees(w, s, r, k);
    }
  }

  /** What was cached stays cached, with the same bytes. */
  ghost predicate BytesKept(s: Server, s': Server) {
    forall r, k :: k in Cache(s, r) ==> k in Cache(s', r) && Cache(s', r)[k].blob == Cache(s, r)[k].blob
  }

  /** A fetch keeps the state coherent and returns what the pair now is in the cache. */
  lemma FetchKeepsCoherent(w: World, u: Seen, s: Server, repo: string, target: string)
    requires Coherent(w, u, s) && CleanPair(repo, target)
    ensures var (s', mf) := Fetch(w, s, repo, target);
            && Coherent(w, u, s') && BytesKept(s, s')
            && mf == if target in Cache(s', repo) then Some(Cache(s', repo)[target]) else None
  {
    if target !in Cache(s, repo) {
      OpeningKeepsCoherent(w, u, s, repo);
      FetchRemoteKeepsCoherent(w, u, Opened(s, repo), repo, target);
      assert Cache(Opened(s, repo), repo) == Cache(s, repo);
      assert BytesKept(s, Opened(s, repo));
    }
  }

  lemma FetchRemoteKeepsCoherent(w: World, u: Seen, s: Server, repo: string, target: string)
    requires Coherent(w, u, s) && CleanPair(repo, target) && target !in Cache(s, repo)
    ensures var (s', mf) := FetchRemote(w, s, repo, target);
            && Coherent(w, u, s') && BytesKept(s, s')
            && mf == if target in Cache(s', repo) then Some(Cache(s', repo)[target]) else None
  {
    var cid := ResolveCid(w, s.index, repo, target);
    if cid.Some? && GetManifest(w, s.ipfs, cid.value, target).Some? {
      FetchedKeepsCoherent(w, u, s, repo, target, cid.value, GetManifest(w, s.ipfs, cid.value, target).value);
    }
  }

  /** What a fetch finds: its digest is no blob's, and if it is cached already, then with the same bytes. */
  lemma FetchedIsKnown(w: World, u: Seen, s: Server, repo: string, target: string, cid: string, mf: Manifest)
    requires Coherent(w, u, s) && CleanPair(repo, target)
    requires ResolveCid(w, s.index, repo, target) == Some(cid)
    requires GetManifest(w, s.ipfs, cid, target) == Some(mf)
    ensures mf.digest == w.Digest(mf.blob) && IsDigest(mf.digest) && CleanReference(mf.digest)
    ensures CatManifest(s.ipfs, cid, target) == Some(mf.blob) && CatManifest(s.ipfs, cid, mf.digest) == Some(mf.blob)
    ensures IsCid(w, repo) ==> cid == repo
    ensures mf.digest in Cache(s, repo) ==> Cache(s, repo)[mf.digest].blob == mf.blob
  {
    assert WellFormed(w, u, s.ipfs[cid]);
    assert GoodManifest(w, u, s.ipfs[cid], target);
    var d := mf.digest;
    DigestsAreClean(w, u, mf.blob);
    if IsCid(w, repo) { ResolveOfCid(w, s.index, repo, target); }
    if d in Cache(s, repo) {
      CachedDigestIsManifest(w, u, s, repo, d);
      SameBody(w, u, Cache(s, repo)[d].blob, mf.blob);
    }
  }

  lemma FetchedKeepsCoherent(w: World, u: Seen, s: Server, repo: string, target: string, cid: string, mf: Manifest)
    requires Coherent(w, u, s) && CleanPair(repo, target)
    requires ResolveCid(w, s.index, repo, target) == Some(cid)
    requires GetManifest(w, s.ipfs, cid, target) == Some(mf)
    ensures var s' := AddCid(w, Cached(s, repo, target, mf.digest, mf), repo, mf.digest, cid);
            Coherent(w, u, s') && (target !in Cache(s, repo) ==> BytesKept(s, s'))
  {
    var d := mf.digest;
    FetchedIsKnown(w, u, s, repo, target, cid, mf);
    var s1 := AddCid(w, s, repo, d, cid);
    assert Coherent(w, u, s1) && ResolveCid(w, s1.index, repo, target) == Some(cid)
           && ResolveCid(w, s1.index, repo, d) == Some(cid) by {
      IndexingKeepsCoherent(w, u, s, repo, d, cid);
      LookupAfterAdd(w.location, s.index, repo, d, cid, repo, d);
      ResolveFound(w, s1.index, repo, d, cid);
    }
    assert Coherent(w, u, Cached(s1, repo, target, d, mf)) by {
      CachingKeepsCoherent(w, u, s1, repo, target, d, mf);
    }
    assert AddCid(w, Cached(s, repo, target, d, mf), repo, d, cid) == Cached(s1, repo, target, d, mf);
    if target !in Cache(s, repo) { CachingKeepsBytes(s, Cached(s1, repo, target, d, mf), repo, target, d, mf); }
  }

  lemma CachingKeepsBytes(s: Server, s': Server, repo: string, target: string, d: string, mf: Manifest)
    requires s'.manifests == Cached(s, repo, target, d, mf).manifests
    requires target !in Cache(s, repo) && (d in Cache(s, repo) ==> Cache(s, repo)[d].blob == mf.blob)
    ensures BytesKept(s, s')
  {
  }

  /** Indexing the digests of a manifest under the image it comes from. */
  lemma {:induction false} DigestsKeepCoherent(w: World, u: Seen, s: Server, repo: string, digests: seq<string>,
                                               cid: string)
    requires Coherent(w, u, s) && CleanRepo(repo) && cid in s.ipfs && (IsCid(w, repo) ==> cid == repo)
    requires forall d :: d in digests ==> d in s.ipfs[cid].blobs
    ensures var s' := AddCids(w, s, repo, digests, cid);
            && Coherent(w, u, s')
            && s' == s.(index := s'.index)
            && (forall k :: k in s.index.cids ==> k in s'.index.cids)
            && (forall d :: d in digests ==> Key(repo, d) in s'.index.cids)
  {
    if digests != [] {
      var init, d := digests[..|digests| - 1], digests[|digests| - 1];
      assert digests == init + [d];
      DigestsKeepCoherent(w, u, s, repo, init, cid);
      var s1 := AddCids(w, s, repo, init, cid);
      assert WellFormed(w, u, s.ipfs[cid]);
      var b := s.ipfs[cid].blobs[d];
      DigestsAreClean(w, u, b);
      BlobDigestNotCached(w, u, s1, repo, b);
      IndexingKeepsCoherent(w, u, s1, repo, d, cid);
    }
  }

  lemma BlobDigestNotCached(w: World, u: Seen, s: Server, repo: string, b: Bytes)
    requires Coherent(w, u, s) && b in u.blobs
    ensures w.Digest(b) !in Cache(s, repo)
  {
    var d := w.Digest(b);
    DigestsAreClean(w, u, b);
    if d in Cache(s, repo) {
      CachedDigestIsManifest(w, u, s, repo, d);
      SameBody(w, u, Cache(s, repo)[d].blob, b);
    }
  }

  /** The digests of a manifest are blobs of the image that its pair resolves to. */
  lemma ResolvedHoldsBlobs(w: World, u: Seen, s: Server, repo: string, target: string)
    requires Coherent(w, u, s) && target in Cache(s, repo)
    ensures var cid := ResolveCid(w, s.index, repo, target);
            var ds := w.Digests(Cache(s, repo)[target].blob);
            && cid.Some? && cid.value in s.ipfs && CleanPair(repo, target)
            && (IsCid(w, repo) ==> cid.value == repo)
            && (ds.Some? ==> forall d :: d in ds.value ==> d in s.ipfs[cid.value].blobs)
  {
    assert EntryAgrees(w, s, repo, target);
    var cid := ResolveCid(w, s.index, repo, target).value;
    assert WellFormed(w, u, s.ipfs[cid]);
    assert GoodManifest(w, u, s.ipfs[cid], target);
    if IsCid(w, repo) { ResolveOfCid(w, s.index, repo, target); }
  }

  /** What a GET answers once the pair is cached: its bytes, and the digests of the manifest are indexed. */
  ghost predicate Pulled(w: World, s: Server, resp: Response, repo: string, target: string)
    requires target in Cache(s, repo)
  {
    var b := Cache(s, repo)[target].blob;
    w.Digests(b).Some? ==>
      && resp.Found? && resp.body == b
      && forall d :: d in w.Digests(b).value ==> Key(repo, d) in s.index.cids
  }

  /** A GET in terms of its fetch. */
  lemma GetInFull(w: World, s: Server, repo: string, target: string)
    requires !s.stuck
    ensures var (f, mf) := Fetch(w, s, repo, target);
            var cid := ResolveCid(w, f.index, repo, target);
            Get(w, s, repo, target)
            == if mf.None? || cid.None? then (f, Refused(404, "MANIFEST_UNKNOWN"))
               else if w.Digests(mf.value.blob).None? then (f, Panicked)
               else (AddCids(w, f, repo, w.Digests(mf.value.blob).value, cid.value),
                     Found(mf.value.digest, cid.value, mf.value.contentType, mf.value.blob))
  {
  }

  lemma GetKeepsCoherent(w: World, u: Seen, s: Server, repo: string, target: string)
    requires Coherent(w, u, s) && CleanPair(repo, target)
    ensures var (s', resp) := Get(w, s, repo, target);
            && Coherent(w, u, s') && BytesKept(s, s')
            && (target in Cache(s', repo) ==> Pulled(w, s', resp, repo, target))
  {
    FetchKeepsCoherent(w, u, s, repo, target);
    GetInFull(w, s, repo, target);
    var (f, mf) := Fetch(w, s, repo, target);
    if mf.Some? && w.Digests(mf.value.blob).Some? {
      ResolvedHoldsBlobs(w, u, f, repo, target);
      var cid := ResolveCid(w, f.index, repo, target).value;
      DigestsKeepCoherent(w, u, f, repo, w.Digests(mf.value.blob).value, cid);
      var s' := AddCids(w, f, repo, w.Digests(mf.value.blob).value, cid);
      IndexedAnswer(w, s, f, s', Get(w, s, repo, target).1, repo, target);
    }
  }

  lemma IndexedAnswer(w: World, s: Server, f: Server, s': Server, resp: Response, repo: string, target: string)
    requires BytesKept(s, f) && s' == f.(index := s'.index)
    requires target in Cache(f, repo) && w.Digests(Cache(f, repo)[target].blob).Some?
    requires resp.Found? && resp.body == Cache(f, repo)[target].blob
    requires forall d :: d in w.Digests(Cache(f, repo)[target].blob).value ==> Key(repo, d) in s'.index.cids
    ensures BytesKept(s, s') && Pulled(w, s', resp, repo, target)
  {
  }

  // ---- PUT ----

  /** The index after the three additions of a PUT. */
  function IndexAfterPut(w: World, x: Index, repo: string, target: string, d: string, cid: string): Index {
    Added(w.location, Added(w.location, Added(w.location, x, repo, target, cid), repo, d, cid), cid, "latest", cid)
  }

  /** What they do to the lookup of any clean pair. */
  lemma LookupAfterPut(w: World, x: Index, repo: string, target: string, d: string, cid: string, r: string, k: string)
    requires FileTree.Valid(x.disk) && CleanPair(repo, target) && CleanPair(repo, d) && IsDigest(d)
    requires CleanRepo(cid) && cid != repo && CleanPair(r, k)
    ensures var y := IndexAfterPut(w, x, repo, target, d, cid);
            && FileTree.Valid(y.disk)
            && Lookup(w.location, y, r, k)
               == if (r == repo && (k == target || k == d)) || (r == cid && k == "latest") then Some(cid)
                  else Lookup(w.location, x, r, k)
  {
    var x1 := Added(w.location, x, repo, target, cid);
    var x2 := Added(w.location, x1, repo, d, cid);
    LookupAfterAdd(w.location, x, repo, target, cid, r, k);
    LookupAfterAdd(w.location, x1, repo, d, cid, r, k);
    LookupAfterAdd(w.location, x2, cid, "latest", cid, r, k);
  }

  lemma KeysAfterPut(w: World, x: Index, repo: string, target: string, d: string, cid: string, r: string, e: string)
    requires Free(repo, ':') && Free(cid, ':') && Free(r, ':') && cid != repo && IsDigest(e)
    ensures var y := IndexAfterPut(w, x, repo, target, d, cid);
            && (Key(r, e) in y.cids <==> Key(r, e) in x.cids || (r == repo && (e == target || e == d)))
            && (Key(r, e) in y.cids ==>
                  y.cids[Key(r, e)] == if r == repo && (e == target || e == d) then cid else x.cids[Key(r, e)])
  {
    KeyInjective(repo, target, r, e);
    KeyInjective(repo, d, r, e);
    KeyInjective(cid, "latest", r, e);
  }

  /** The image that a good PUT publishes is well formed. */
  lemma PutImageWellFormed(w: World, u: Seen, b: Blobs, repo: string, target: string, body: Bytes)
    requires CollisionFree(w, u) && BlobsGood(w, u, b) && Complete(b, repo)
    requires body in u.manifests && Honest(w, target, body)
    requires w.Digests(body).Some? ==> forall d :: d in w.Digests(body).value ==> d in b.layers[repo]
    ensures WellFormed(w, u, ImageOf(w, target, body, LayerBlobs(b, repo)))
  {
    var image := ImageOf(w, target, body, LayerBlobs(b, repo));
    forall k | k in image.manifests
      ensures GoodManifest(w, u, image, k)
    {
      assert image.manifests[k] == body;
      assert !IsDigest("latest");
    }
  }

  /** A PUT that publishes, in one expression. */
  lemma PutInFull(w: World, s: Server, repo: string, target: string, contentType: string, body: Bytes, cid: string)
    requires !s.stuck && !s.blobs.locked && Complete(s.blobs, repo) && cid != ""
    requires IndexPasses(w, Cache(s, repo), contentType, body)
    ensures var d := w.Digest(body);
            var image := ImageOf(w, target, body, LayerBlobs(s.blobs, repo));
            var s1 := s.(ipfs := s.ipfs[cid := image]).(blobs := Removed(s.blobs, repo));
            Put(w, s, repo, target, contentType, body, Published(cid))
            == (Indexed(w, Cached(s1, repo, target, d, Manifest(contentType, body, "")), repo, target, d, cid),
                Created(d, cid))
  {
  }

  function Indexed(w: World, s: Server, repo: string, target: string, d: string, cid: string): Server {
    AddCid(w, AddCid(w, AddCid(w, s, repo, target, cid), repo, d, cid), cid, "latest", cid)
  }

  lemma PutKeepsCoherent(w: World, u: Seen, s: Server, e: Event)
    requires Coherent(w, u, s) && IsManifestPut(e) && GoodPut(w, u, s, e)
    ensures Coherent(w, u, Step(w, s, e).0)
  {
    var r := RouteOf(e.q.elem);
    if IndexPasses(w, Cache(s, r.repo), e.q.contentType, e.q.body) {
      PutInFull(w, s, r.repo, r.target, e.q.contentType, e.q.body, e.added.cid);
      PassingPutKeepsCoherent(w, u, s, r.repo, r.target, Manifest(e.q.contentType, e.q.body, ""), e.added.cid);
    } else {
      OpeningKeepsCoherent(w, u, s, r.repo);
      assert Step(w, s, e).0 == Opened(s, r.repo);
    }
  }

  lemma PassingPutKeepsCoherent(w: World, u: Seen, s: Server, repo: string, target: string, mf: Manifest, cid: string)
    requires Coherent(w, u, s) && CleanPair(repo, target) && !IsCid(w, repo)
    requires mf.blob in u.manifests && Honest(w, target, mf.blob) && Complete(s.blobs, repo)
    requires w.Digests(mf.blob).Some? ==> forall d :: d in w.Digests(mf.blob).value ==> d in s.blobs.layers[repo]
    requires IsCid(w, cid) && CleanRepo(cid)
    requires AppendOnly(s, cid, ImageOf(w, target, mf.blob, LayerBlobs(s.blobs, repo)))
    ensures var d := w.Digest(mf.blob);
            var image := ImageOf(w, target, mf.blob, LayerBlobs(s.blobs, repo));
            var s1 := s.(ipfs := s.ipfs[cid := image]).(blobs := Removed(s.blobs, repo));
            Coherent(w, u, Indexed(w, Cached(s1, repo, target, d, mf), repo, target, d, cid))
  {
    var image := ImageOf(w, target, mf.blob, LayerBlobs(s.blobs, repo));
    assert WellFormed(w, u, image) by { PutImageWellFormed(w, u, s.blobs, repo, target, mf.blob); }
    var s1 := s.(ipfs := s.ipfs[cid := image]);
    assert Coherent(w, u, s1) by { GrowthKeepsCoherent(w, u, s, cid, image); }
    var s2 := s1.(blobs := Removed(s.blobs, repo));
    assert Coherent(w, u, s2) by { RemovalKeepsCoherent(w, u, s1, Removed(s.blobs, repo)); }
    ImageServes(w, target, mf.blob, LayerBlobs(s.blobs, repo));
    PublishedIsCoherent(w, u, s2, repo, target, mf, cid);
  }

  lemma ImageServes(w: World, target: string, body: Bytes, layers: map<string, Bytes>)
    ensures var m := ImageOf(w, target, body, layers).manifests;
            && target in m && m[target] == body
            && w.Digest(body) in m && m[w.Digest(body)] == body
  {
  }

  lemma RemovalKeepsCoherent(w: World, u: Seen, s: Server, b: Blobs)
    requires Coherent(w, u, s) && BlobsGood(w, u, b)
    ensures Coherent(w, u, s.(blobs := b))
  {
    var s' := s.(blobs := b);
    forall r, k | k in Cache(s', r)
      ensures CleanPair(r, k) && EntryAgrees(w, s', r, k)
    {
      assert EntryAgrees(w, s, r, k);
    }
    forall repo, d | CleanPair(repo, d) && IsDigest(d) && Key(repo, d) in s'.index.cids
      ensures DigestIndexed(s', repo, d)
    {
      assert DigestIndexed(s, repo, d);
    }
  }

  /** Caching a manifest under its two keys and indexing both under an image that holds it under both. */
  lemma PublishedIsCoherent(w: World, u: Seen, s: Server, repo: string, target: string, mf: Manifest, cid: string)
    requires Coherent(w, u, s) && CleanPair(repo, target) && !IsCid(w, repo)
    requires mf.blob in u.manifests
    requires IsCid(w, cid) && CleanRepo(cid) && cid in s.ipfs
    requires CatManifest(s.ipfs, cid, target) == Some(mf.blob)
    requires CatManifest(s.ipfs, cid, w.Digest(mf.blob)) == Some(mf.blob)
    ensures var d := w.Digest(mf.blob);
            Coherent(w, u, Indexed(w, Cached(s, repo, target, d, mf), repo, target, d, cid))
  {
    var d := w.Digest(mf.blob);
    DigestsAreClean(w, u, mf.blob);
    var s' := Indexed(w, Cached(s, repo, target, d, mf), repo, target, d, cid);
    forall r, k | CleanPair(r, k)
      ensures FileTree.Valid(s'.index.disk)
      ensures Lookup(w.location, s'.index, r, k)
              == if (r == repo && (k == target || k == d)) || (r == cid && k == "latest") then Some(cid)
                 else Lookup(w.location, s.index, r, k)
    {
      LookupAfterPut(w, s.index, repo, target, d, cid, r, k);
    }
    assert CleanPair(repo, target);
    PublishedCacheAgrees(w, u, s, s', repo, target, mf, cid);
    forall r, e | CleanPair(r, e) && IsDigest(e) && Key(r, e) in s'.index.cids
      ensures DigestIndexed(s', r, e)
    {
      KeysAfterPut(w, s.index, repo, target, d, cid, r, e);
      if !(r == repo && (e == target || e == d)) { assert DigestIndexed(s, r, e); }
    }
  }

  lemma PublishedCacheAgrees(w: World, u: Seen, s: Server, s': Server, repo: string, target: string, mf: Manifest,
                             cid: string)
    requires CacheAgrees(w, s) && CidsAgree(w, s.index) && CleanPair(repo, target) && CleanPair(repo, w.Digest(mf.blob))
    requires IsCid(w, cid) && CleanRepo(cid)
    requires CatManifest(s.ipfs, cid, target) == Some(mf.blob)
    requires CatManifest(s.ipfs, cid, w.Digest(mf.blob)) == Some(mf.blob)
    requires s'.ipfs == s.ipfs && s'.manifests == Cached(s, repo, target, w.Digest(mf.blob), mf).manifests
    requires forall r, k :: CleanPair(r, k) ==>
               Lookup(w.location, s'.index, r, k)
               == if (r == repo && (k == target || k == w.Digest(mf.blob))) || (r == cid && k == "latest")
                  then Some(cid) else Lookup(w.location, s.index, r, k)
    ensures CacheAgrees(w, s')
  {
    var d := w.Digest(mf.blob);
    forall r, k | k in Cache(s', r)
      ensures CleanPair(r, k) && EntryAgrees(w, s', r, k)
    {
      if r == repo && (k == target || k == d) {
        ResolveFound(w, s'.index, r, k, cid);
      } else {
        assert EntryAgrees(w, s, r, k);
        if r == cid && k == "latest" {
          ResolveOfCid(w, s.index, r, k);
          ResolveFound(w, s'.index, r, k, cid);
        } else {
          ResolveUnchanged(w, s.index, s'.index, r, k);
        }
      }
    }
  }

  // ---- all events ----

  /** A manifest GET or HEAD keeps the state coherent and every cached manifest. */
  lemma ReadKeepsCoherent(w: World, u: Seen, s: Server, e: Event)
    requires Coherent(w, u, s) && IsManifestRead(e) && CleanPair(RouteOf(e.q.elem).repo, RouteOf(e.q.elem).target)
    ensures Coherent(w, u, Step(w, s, e).0) && BytesKept(s, Step(w, s, e).0)
  {
    var r := RouteOf(e.q.elem);
    if e.q.verb == GET {
      GetKeepsCoherent(w, u, s, r.repo, r.target);
    } else {
      FetchKeepsCoherent(w, u, s, r.repo, r.target);
      HeadInFull(w, s, r.repo, r.target);
    }
  }

  lemma HeadInFull(w: World, s: Server, repo: string, target: string)
    requires !s.stuck
    ensures Head(w, s, repo, target).0 == Fetch(w, s, repo, target).0
  {
  }

  /** Every other request leaves the server as it is. */
  lemma IdleStep(w: World, s: Server, e: Event)
    requires e.Http? && !IsManifestRead(e) && !IsManifestPut(e) && !IsBlobWrite(e)
    ensures Step(w, s, e).0 == s
  {
  }

  lemma StepKeepsCoherent(w: World, u: Seen, s: Server, e: Event)
    requires Coherent(w, u, s) && GoodEvent(w, u, s, e)
    ensures Coherent(w, u, Step(w, s, e).0)
  {
    if e.Elsewhere? {
      GrowthKeepsCoherent(w, u, s, e.cid, e.image);
    } else if IsManifestRead(e) {
      ReadKeepsCoherent(w, u, s, e);
    } else if IsManifestPut(e) {
      PutKeepsCoherent(w, u, s, e);
    } else if IsBlobWrite(e) {
      WriteStep(w, s, e);
      WriteKeepsGood(w, u, s.blobs, RouteOf(e.q.elem), e.q, e.id);
      RemovalKeepsCoherent(w, u, s, Step(w, s, e).0.blobs);
    } else {
      IdleStep(w, s, e);
    }
  }

  lemma WriteKeepsGood(w: World, u: Seen, b: Blobs, r: Route, q: Request, id: string)
    requires r.BlobRoute? && BlobsGood(w, u, b)
    requires var (b', resp) := Write(w, b, r, q, id);
             resp.Created? ==> resp.digest in b'.contents && b'.contents[resp.digest] in u.blobs
    ensures BlobsGood(w, u, Write(w, b, r, q, id).0)
  {
  }

  /** Coherence holds throughout every well-behaved run. */
  lemma {:induction false} AlwaysCoherent(w: World, u: Seen, s: Server, run: Run)
    requires Coherent(w, u, s) && WellBehaved(w, u, s, run)
    ensures Coherent(w, u, After(w, s, run))
  {
    if run != [] {
      var init := run[..|run| - 1];
      assert WellBehaved(w, u, s, init) by {
        forall n | 0 <= n < |init|
          ensures GoodEvent(w, u, After(w, s, init[..n]), init[n])
        {
          assert init[..n] == run[..n];
        }
      }
      AlwaysCoherent(w, u, s, init);
      StepKeepsCoherent(w, u, After(w, s, init), run[|run| - 1]);
    }
  }

  /** No file is filed under a repository that is a cid. */
  ghost predicate DiskClear(w: World, disk: Disk) {
    forall repo, k :: IsCid(w, repo) && CleanPair(repo, k) ==>
      FileTree.FileAt(disk, FilePath(w.location, Key(repo, k))) == None
  }

  /** A new server over well-formed images is coherent, provided its disk files nothing under a cid. */
  lemma StartIsCoherent(w: World, u: Seen, disk: Disk, ipfs: map<string, Image>)
    requires CollisionFree(w, u) && FileTree.Valid(disk) && ImagesWellFormed(w, u, ipfs) && DiskClear(w, disk)
    ensures Coherent(w, u, Start(disk, ipfs))
  {
  }
}
