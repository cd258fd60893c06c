/** What the server answers to each request, and what it leaves behind, read off the responses and the stored maps. */
module Answers {
  import opened Text
  import opened World
  import opened Routes
  import opened CidStore
  import opened BlobSpec
  import opened ManifestSpec
  import opened Runs
  import opened Coherence
  import opened PushPull
  import opened ClientPush
  import opened IndexIntegrity
  import HashNames

  // ---- paths of no handler ----

  /** The version check is welcomed, with or without a slash; other paths outside the handlers are unknown. */
  lemma OtherPathsAnswered(w: World, s: Server, e: Event)
    requires e.Http? && !IsBlob(e.q.elem) && !IsManifest(e.q.elem)
    ensures Step(w, s, e)
            == (s, if e.q.elem == ["v2"] || e.q.elem == ["v2", ""] then Welcome else Refused(404, "METHOD_UNKNOWN"))
  {
  }

  /** A blob path without a repository is refused. */
  lemma NamelessAnswered(w: World, s: Server, e: Event)
    requires e.Http? && Trim(e.q.elem) == e.q.elem && |e.q.elem| == 3 && e.q.elem[1] == "blobs"
    ensures Step(w, s, e) == (s, Refused(400, "NAME_INVALID"))
  {
    NamelessPaths(e.q.elem);
  }

  // ---- resolution of a name ----

  function OrLatest(reference: string): string {
    if reference == "" then "latest" else reference
  }

  /** What the index knows comes first; of the rest, a repository that is a cid stands for itself. */
  lemma ResolvesByIndex(w: World, x: Index, repo: string, reference: string)
    ensures var hit := Lookup(w.location, x, repo, OrLatest(reference));
            && (hit.Some? ==> ResolveCid(w, x, repo, reference) == hit)
            && (hit.None? && w.toB32(repo) != "" ==> ResolveCid(w, x, repo, reference) == Some(w.toB32(repo)))
  {
  }

  /** A multihash can be pulled under its Docker name: the name resolves to the cid of the hash. */
  lemma ResolvesByHash(w: World, x: Index, h: string, reference: string)
    requires HashNames.Valid58(h) && |HashNames.Decode58(h)| == 34
    requires w.toB32(HashNames.DockerizeHash(h)) == "" && w.toB32(h) != ""
    requires Lookup(w.location, x, HashNames.DockerizeHash(h), OrLatest(reference)) == None
    ensures ResolveCid(w, x, HashNames.DockerizeHash(h), reference) == Some(w.toB32(h))
  {
    HashNames.MultihashSurvives(h);
  }

  /** Such a name is a repository name that the index can file. */
  lemma HashNameIsClean(h: string)
    requires HashNames.Valid58(h) && |HashNames.Decode58(h)| == 34
    ensures CleanRepo(HashNames.DockerizeHash(h))
  {
    var name := HashNames.DockerizeHash(h);
    HashNames.DockerNameIsPlain(h, 6);
    assert |name| == 55;
    assert Free(name, '/') && Free(name, ':');
    SplitOfJoin([name], '/');
    assert Join([name], '/') == name;
  }

  /** A name that is no cid in either spelling is left to the resolvers, and their first answer counts. */
  lemma ResolvesByResolver(w: World, x: Index, repo: string, reference: string)
    requires Lookup(w.location, x, repo, OrLatest(reference)) == None && w.toB32(repo) == ""
    requires HashNames.IpfsifyHash(repo) == "" || w.toB32(HashNames.IpfsifyHash(repo)) == ""
    ensures var list := w.resolver(repo, OrLatest(reference));
            ResolveCid(w, x, repo, reference) == if list == [] then None else Some(list[0])
  {
  }

  // ---- manifests: GET and HEAD ----

  /** The bytes of a manifest in a published image, if it is there and can be decoded. */
  function Remote(w: World, s: Server, repo: string, k: string): Option<(Bytes, Decoded)> {
    var cid := ResolveCid(w, s.index, repo, k);
    if cid.None? || cid.value !in s.ipfs || k !in s.ipfs[cid.value].manifests then None
    else
      var b := s.ipfs[cid.value].manifests[k];
      if w.decode(b).None? then None else Some((b, w.decode(b).value))
  }

  lemma FetchOfRemote(w: World, s: Server, repo: string, k: string)
    requires k !in Cache(s, repo)
    ensures var remote := Remote(w, s, repo, k);
            var (f, mf) := Fetch(w, s, repo, k);
            if remote.None? then mf == None && f == Opened(s, repo)
            else
              var b, cid := remote.value.0, ResolveCid(w, s.index, repo, k).value;
              var d := w.Digest(b);
              && mf == Some(Manifest(remote.value.1.mediaType, b, d))
              && f.manifests == s.manifests[repo := Cache(s, repo)[k := mf.value][d := mf.value]]
              && f.index == Added(w.location, s.index, repo, d, cid) && f.ipfs == s.ipfs
  {
  }

  /** Indexing a digest under what a reference of the repository resolves to does not change that. */
  lemma StillResolves(w: World, x: Index, repo: string, k: string, d: string, cid: string)
    requires ResolveCid(w, x, repo, k) == Some(cid) && IsDigest(d)
    ensures ResolveCid(w, Added(w.location, x, repo, d, cid), repo, k) == Some(cid)
  {
    var k' := OrLatest(k);
    assert Key(repo, k')[|repo| + 1..] == k' && Key(repo, d)[|repo| + 1..] == d;
  }

  /**
   * A manifest that is not cached is served from the image that its pair resolves to, with the media type found in
   * its own bytes and the digest of those bytes, or not at all.
   */
  lemma FetchedAnswers(w: World, s: Server, e: Event, repo: string, k: string)
    requires !s.stuck && k !in Cache(s, repo)
    ensures var remote := Remote(w, s, repo, k);
            var resp := Step(w, s, e).1;
            && (AsksManifest(e, HEAD, repo, k) ==>
                  resp == if remote.None? then Refused(404, "MANIFEST_UNKNOWN")
                          else var (b, decoded) := remote.value; FoundHead(w.Digest(b), decoded.mediaType, |b|))
            && (AsksManifest(e, GET, repo, k) ==>
                  resp == if remote.None? then Refused(404, "MANIFEST_UNKNOWN")
                          else
                            var (b, decoded) := remote.value;
                            if decoded.digests.None? then Panicked
                            else Found(w.Digest(b), ResolveCid(w, s.index, repo, k).value, decoded.mediaType, b))
  {
    AskedOf(w, s, e, repo, k);
    FetchOfRemote(w, s, repo, k);
    var remote := Remote(w, s, repo, k);
    if remote.Some? {
      StillResolves(w, s.index, repo, k, w.Digest(remote.value.0), ResolveCid(w, s.index, repo, k).value);
    }
  }

  /** Such an answer also leaves the manifest cached under its reference and its digest, and the digest indexed. */
  lemma FetchedIsKept(w: World, s: Server, e: Event, repo: string, k: string)
    requires !s.stuck && k !in Cache(s, repo) && Remote(w, s, repo, k).Some?
    requires AsksManifest(e, HEAD, repo, k) || AsksManifest(e, GET, repo, k)
    ensures var (b, decoded) := Remote(w, s, repo, k).value;
            var s', d := Step(w, s, e).0, w.Digest(b);
            && k in Cache(s', repo) && Cache(s', repo)[k] == Manifest(decoded.mediaType, b, d)
            && d in Cache(s', repo) && Cache(s', repo)[d] == Manifest(decoded.mediaType, b, d)
            && Key(repo, d) in s'.index.cids
  {
    AskedOf(w, s, e, repo, k);
    FetchOfRemote(w, s, repo, k);
    GetKeeps(w, s, repo, k);
    if e.q.verb == GET { GetKeepsKeys(w, s, repo, k); }
  }

  lemma GetKeepsKeys(w: World, s: Server, repo: string, k: string)
    requires !s.stuck
    ensures Fetch(w, s, repo, k).0.index.cids.Keys <= Get(w, s, repo, k).0.index.cids.Keys
  {
    GetInFull(w, s, repo, k);
    var (f, mf) := Fetch(w, s, repo, k);
    var cid := ResolveCid(w, f.index, repo, k);
    if mf.Some? && cid.Some? && w.Digests(mf.value.blob).Some? {
      AddCidsGrows(w, f, repo, w.Digests(mf.value.blob).value, cid.value);
    }
  }

  /** A cached manifest is served as it was cached; a GET also needs its reference to resolve. */
  lemma CachedAnswers(w: World, s: Server, e: Event, repo: string, k: string)
    requires !s.stuck && k in Cache(s, repo)
    ensures var mf, cid := Cache(s, repo)[k], ResolveCid(w, s.index, repo, k);
            var resp := Step(w, s, e).1;
            && (AsksManifest(e, HEAD, repo, k) ==> resp == FoundHead(mf.digest, mf.contentType, |mf.blob|))
            && (AsksManifest(e, GET, repo, k) ==>
                  resp == if cid.None? then Refused(404, "MANIFEST_UNKNOWN")
                          else if w.Digests(mf.blob).None? then Panicked
                          else Found(mf.digest, cid.value, mf.contentType, mf.blob))
  {
    AskedOf(w, s, e, repo, k);
  }

  // ---- manifests: PUT ----

  /**
   * A PUT of a manifest, exactly: an index is refused unless it parses and all its children are cached; then everything
   * hangs on the blob mutex; then the repository needs a layer list all of whose digests are held; and then
   * the answer is that of `AddImage`.
   */
  lemma PutAnswers(w: World, s: Server, e: Event)
    requires IsManifestPut(e) && !s.stuck
    ensures var repo, body := RouteOf(e.q.elem).repo, e.q.body;
            var known := if repo in s.manifests then s.manifests[repo].Keys else {};
            var index := e.q.contentType == "application/vnd.oci.image.index.v1+json"
                         || e.q.contentType == "application/vnd.docker.distribution.manifest.list.v2+json";
            var resp := Step(w, s, e).1;
            resp == if index && (w.children(body).None? || exists d :: d in w.children(body).value && d !in known) then
                      Refused(404, "MANIFEST_UNKNOWN")
                    else if s.blobs.locked then Hangs
                    else if repo !in s.blobs.layers
                            || exists d :: d in s.blobs.layers[repo] && d !in s.blobs.contents then
                      Refused(404, "MANIFEST_BLOB_UNKNOWN")
                    else
                      match e.added
                      case AddFailed => Refused(500, "")
                      case SendFailed => Created(w.Digest(body), "")
                      case Published(cid) => if cid == "" then Refused(500, "") else Created(w.Digest(body), cid)
  {
    var repo := RouteOf(e.q.elem).repo;
    PutPasses(w, s, repo, e.q.contentType, e.q.body);
  }

  lemma PutPasses(w: World, s: Server, repo: string, contentType: string, body: Bytes)
    ensures var known := if repo in s.manifests then s.manifests[repo].Keys else {};
            IndexPasses(w, Cache(s, repo), contentType, body) <==>
              !(IsIndexType(contentType)
                && (w.children(body).None? || exists d :: d in w.children(body).value && d !in known))
    ensures Complete(s.blobs, repo) <==>
              !(repo !in s.blobs.layers || exists d :: d in s.blobs.layers[repo] && d !in s.blobs.contents)
  {
  }

  /**
   * A PUT that publishes leaves an image under its cid with the body as manifest under the target, the digest and
   * "latest" and with exactly the blobs that the repository listed; all three references are indexed to that cid.
   */
  lemma PutPublishes(w: World, s: Server, e: Event)
    requires IsManifestPut(e) && e.added.Published? && Step(w, s, e).1.Created?
    ensures var repo, target := RouteOf(e.q.elem).repo, RouteOf(e.q.elem).target;
            var (s', resp) := Step(w, s, e);
            var d, c := resp.digest, e.added.cid;
            && d == w.Digest(e.q.body) && resp.cid == c && c in s'.ipfs
            && s'.ipfs[c].manifests.Keys == {target, d, "latest"}
            && (forall k :: k in {target, d, "latest"} ==> s'.ipfs[c].manifests[k] == e.q.body)
            && repo in s.blobs.layers
            && (forall x :: x in s'.ipfs[c].blobs <==> x in s.blobs.layers[repo])
            && (forall x :: x in s.blobs.layers[repo] ==>
                  x in s.blobs.contents && s'.ipfs[c].blobs[x] == s.blobs.contents[x])
            && (forall c' :: c' != c ==>
                  (c' in s'.ipfs <==> c' in s.ipfs) && (c' in s.ipfs ==> s'.ipfs[c'] == s.ipfs[c']))
            && Lookup(w.location, s'.index, repo, target) == Some(c)
            && Lookup(w.location, s'.index, repo, d) == Some(c)
            && Lookup(w.location, s'.index, c, "latest") == Some(c)
  {
    var repo, target := RouteOf(e.q.elem).repo, RouteOf(e.q.elem).target;
    var c, d := e.added.cid, w.Digest(e.q.body);
    assert IndexPasses(w, Cache(s, repo), e.q.contentType, e.q.body) && !s.stuck && !s.blobs.locked
           && Complete(s.blobs, repo) && c != "" by { PutCreated(w, s, e); }
    PutInFull(w, s, repo, target, e.q.contentType, e.q.body, c);
    ImageContents(w, target, e.q.body, LayerBlobs(s.blobs, repo));
    IndexedThrice(w, s.index, repo, target, d, c);
  }

  lemma PutCreated(w: World, s: Server, e: Event)
    requires IsManifestPut(e) && e.added.Published? && Step(w, s, e).1.Created?
    ensures var repo := RouteOf(e.q.elem).repo;
            && IndexPasses(w, Cache(s, repo), e.q.contentType, e.q.body) && !s.stuck && !s.blobs.locked
            && Complete(s.blobs, repo) && e.added.cid != ""
  {
  }

  lemma ImageContents(w: World, target: string, body: Bytes, layers: map<string, Bytes>)
    ensures var m := ImageOf(w, target, body, layers).manifests;
            && m.Keys == {target, w.Digest(body), "latest"}
            && (forall k :: k in {target, w.Digest(body), "latest"} ==> m[k] == body)
    ensures ImageOf(w, target, body, layers).blobs == layers
  {
  }

  lemma IndexedThrice(w: World, x: Index, repo: string, target: string, d: string, c: string)
    ensures var y := IndexAfterPut(w, x, repo, target, d, c);
            && Lookup(w.location, y, repo, target) == Some(c) && Lookup(w.location, y, repo, d) == Some(c)
            && Lookup(w.location, y, c, "latest") == Some(c)
  {
  }

  // ---- once the mutex of the manifests is never released ----

  lemma {:induction false} StuckStays(w: World, s: Server, run: Run)
    requires s.stuck
    ensures After(w, s, run).stuck
  {
    if run != [] {
      var init, e := run[..|run| - 1], run[|run| - 1];
      var prior := After(w, s, init);
      StuckStays(w, s, init);
      if IsManifestRead(e) {
        GetKeeps(w, prior, RouteOf(e.q.elem).repo, RouteOf(e.q.elem).target);
      } else if IsBlobWrite(e) {
        WriteStep(w, prior, e);
      }
    }
  }

  /**
   * A PUT that waits for the lost blob mutex keeps the mutex of the manifests: from then on every GET, HEAD and PUT
   * of a manifest of any repository hangs.
   */
  lemma HangingPutStopsAll(w: World, s: Server, put: Event, later: Run, e: Event)
    requires IsManifestPut(put) && Step(w, s, put).1 == Hangs
    requires IsManifestRead(e) || IsManifestPut(e)
    ensures var now := After(w, Step(w, s, put).0, later);
            Step(w, now, e) == (now, Hangs)
  {
    StuckStays(w, Step(w, s, put).0, later);
    StuckHangs(w, After(w, Step(w, s, put).0, later), e);
  }

  lemma StuckHangs(w: World, s: Server, e: Event)
    requires s.stuck && (IsManifestRead(e) || IsManifestPut(e))
    ensures Step(w, s, e) == (s, Hangs)
  {
  }

  // ---- blobs ----

  /** GET of a blob looks at published images only, and does not need the mutex. */
  lemma BlobGetAnswers(w: World, s: Server, e: Event, repo: string, d: string)
    requires AsksBlob(e, GET, repo, d)
    ensures var cid := ResolveCid(w, s.index, repo, d);
            Step(w, s, e)
            == (s, if cid.Some? && cid.value in s.ipfs && d in s.ipfs[cid.value].blobs then
                     Found(d, "", "", s.ipfs[cid.value].blobs[d])
                   else Refused(404, "BLOB_UNKNOWN"))
  {
    AskedOf(w, s, e, repo, d);
  }

  /** HEAD of a blob answers with the length of a stored blob; a published one is found, but with length 0. */
  lemma BlobHeadAnswers(w: World, s: Server, e: Event, get: Event, repo: string, d: string)
    requires AsksBlob(e, HEAD, repo, d) && AsksBlob(get, GET, repo, d)
    ensures Step(w, s, e)
            == (s, if s.blobs.locked then Hangs
                   else if d in s.blobs.contents then FoundHead(d, "", |s.blobs.contents[d]|)
                   else if Step(w, s, get).1.Found? then FoundHead(d, "", 0)
                   else Refused(404, "BLOB_UNKNOWN"))
  {
    AskedOf(w, s, e, repo, d);
    AskedOf(w, s, get, repo, d);
  }

  /** The event publishes a repository that lists the digest. */
  predicate TakesAway(w: World, s: Server, e: Event, d: string) {
    Publishes(w, s, e) && d in Layers(s.blobs, RouteOf(e.q.elem).repo)
  }

  lemma {:induction false} StaysStored(w: World, s: Server, run: Run, d: string)
    requires d in s.blobs.contents
    requires forall n :: 0 <= n < |run| ==> !TakesAway(w, After(w, s, run[..n]), run[n], d)
    ensures d in After(w, s, run).blobs.contents
  {
    if run != [] {
      var init, e := run[..|run| - 1], run[|run| - 1];
      forall n | 0 <= n < |init|
        ensures !TakesAway(w, After(w, s, init[..n]), init[n], d)
      {
        assert init[..n] == run[..n];
      }
      StaysStored(w, s, init, d);
      StepStores(w, After(w, s, init), e, d);
    }
  }

  lemma StepStores(w: World, s: Server, e: Event, d: string)
    requires d in s.blobs.contents && !TakesAway(w, s, e, d)
    ensures d in Step(w, s, e).0.blobs.contents
  {
    BlobsStep(w, s, e);
    if IsBlobWrite(e) {
      WriteHolds(w, s.blobs, RouteOf(e.q.elem), e.q, e.id);
    }
  }

  /** The response reports the length of `x`, or of other bytes with the same hash. */
  ghost predicate FoundAs(w: World, resp: Response, x: Bytes) {
    exists y :: (y == x || (y != x && w.hex(y) == w.hex(x))) && resp == FoundHead(w.Digest(x), "", |y|)
  }

  /**
   * After a commit, every HEAD of the digest, through any repository, answers with the length of the bytes that were
   * committed, or of a collision, until a PUT publishes a repository that lists it or the mutex is lost.
   */
  lemma CommittedIsFound(w: World, s: Server, commit: Event, t: Server, run: Run, e: Event, repo: string, x: Bytes)
    requires ContentAddressed(w, s.blobs) && IsBlobWrite(commit)
    requires Step(w, s, commit) == (t, Created(w.Digest(x), ""))
    requires forall n :: 0 <= n < |run| ==> !TakesAway(w, After(w, t, run[..n]), run[n], w.Digest(x))
    requires AsksBlob(e, HEAD, repo, w.Digest(x)) && !After(w, t, run).blobs.locked
    ensures FoundAs(w, Step(w, After(w, t, run), e).1, x)
  {
    assert ContentAddressed(w, t.blobs) && w.Digest(x) in t.blobs.contents by {
      WriteStep(w, s, commit);
      WriteHolds(w, s.blobs, RouteOf(commit.q.elem), commit.q, commit.id);
      WriteKeepsAddressing(w, s.blobs, RouteOf(commit.q.elem), commit.q, commit.id);
    }
    StaysStored(w, t, run, w.Digest(x));
    AlwaysContentAddressed(w, t, run);
    StoredIsFound(w, After(w, t, run), e, repo, x);
  }

  lemma StoredIsFound(w: World, s: Server, e: Event, repo: string, x: Bytes)
    requires ContentAddressed(w, s.blobs) && w.Digest(x) in s.blobs.contents && !s.blobs.locked
    requires AsksBlob(e, HEAD, repo, w.Digest(x))
    ensures FoundAs(w, Step(w, s, e).1, x)
  {
    var y := s.blobs.contents[w.Digest(x)];
    assert w.Digest(y)[7..] == w.hex(y) && w.Digest(x)[7..] == w.hex(x);
    AskedOf(w, s, e, repo, w.Digest(x));
  }

  // ---- tags, in every run ----

  /** The last PUT of a tag that got past the index check: its content type and its bytes. */
  function LastPut(w: World, s: Server, run: Run, repo: string, tag: string): (put: Option<Manifest>)
    ensures put.Some? ==> put.value.digest == ""
  {
    if run == [] then None
    else
      var init, e := run[..|run| - 1], run[|run| - 1];
      if Inserts(w, After(w, s, init), e, repo) && RouteOf(e.q.elem).target == tag then
        Some(Manifest(e.q.contentType, e.q.body, ""))
      else LastPut(w, s, init, repo, tag)
  }

  lemma TagStep(w: World, s: Server, e: Event, repo: string, tag: string)
    requires !IsDigest(tag) && tag in Cache(s, repo)
    ensures var cache := Cache(Step(w, s, e).0, repo);
            tag in cache
            && cache[tag] == if Inserts(w, s, e, repo) && RouteOf(e.q.elem).target == tag then
                               Manifest(e.q.contentType, e.q.body, "")
                             else Cache(s, repo)[tag]
  {
    if IsManifestPut(e) {
      var r := RouteOf(e.q.elem);
      PutCache(w, s, r.repo, r.target, e.q.contentType, e.q.body, e.added);
    } else if IsManifestRead(e) {
      var r := RouteOf(e.q.elem);
      ReadCache(w, s, e);
      FetchCache(w, s, r.repo, r.target);
    } else if IsBlobWrite(e) {
      WriteStep(w, s, e);
    } else if e.Http? {
      IdleStep(w, s, e);
    }
  }

  lemma TagInserted(w: World, s: Server, e: Event, repo: string)
    requires Inserts(w, s, e, repo) && !IsDigest(RouteOf(e.q.elem).target)
    ensures var cache, tag := Cache(Step(w, s, e).0, repo), RouteOf(e.q.elem).target;
            tag in cache && cache[tag] == Manifest(e.q.contentType, e.q.body, "")
  {
    var r := RouteOf(e.q.elem);
    PutCache(w, s, r.repo, r.target, e.q.contentType, e.q.body, e.added);
  }

  lemma {:induction false} TagCached(w: World, s: Server, run: Run, repo: string, tag: string)
    requires !IsDigest(tag)
    ensures var put, cache := LastPut(w, s, run, repo, tag), Cache(After(w, s, run), repo);
            put.Some? ==> tag in cache && cache[tag] == put.value
  {
    if run != [] {
      var init, e := run[..|run| - 1], run[|run| - 1];
      var prior := After(w, s, init);
      TagCached(w, s, init, repo, tag);
      if Inserts(w, prior, e, repo) && RouteOf(e.q.elem).target == tag {
        TagInserted(w, prior, e, repo);
      } else if LastPut(w, s, init, repo, tag).Some? {
        TagStep(w, prior, e, repo, tag);
      }
    }
  }

  /**
   * In every run, well-behaved or not, a tag is answered with the content type and the bytes of the last PUT of it
   * that got past the index check, unless a request is stuck with the mutex of the manifests.
   */
  lemma TagAnswers(w: World, s: Server, run: Run, e: Event, repo: string, tag: string)
    requires !IsDigest(tag) && LastPut(w, s, run, repo, tag).Some? && !After(w, s, run).stuck
    ensures var put, now := LastPut(w, s, run, repo, tag).value, After(w, s, run);
            var cid := ResolveCid(w, now.index, repo, tag);
            && (AsksManifest(e, HEAD, repo, tag) ==>
                  Step(w, now, e).1 == FoundHead("", put.contentType, |put.blob|))
            && (AsksManifest(e, GET, repo, tag) && cid.Some? && w.Digests(put.blob).Some? ==>
                  Step(w, now, e).1 == Found("", cid.value, put.contentType, put.blob))
  {
    TagCached(w, s, run, repo, tag);
    CachedTagAnswers(w, After(w, s, run), e, repo, tag, LastPut(w, s, run, repo, tag).value);
  }

  lemma CachedTagAnswers(w: World, s: Server, e: Event, repo: string, tag: string, put: Manifest)
    requires !s.stuck && tag in Cache(s, repo) && Cache(s, repo)[tag] == put && put.digest == ""
    ensures var cid := ResolveCid(w, s.index, repo, tag);
            && (AsksManifest(e, HEAD, repo, tag) ==> Step(w, s, e).1 == FoundHead("", put.contentType, |put.blob|))
            && (AsksManifest(e, GET, repo, tag) && cid.Some? && w.Digests(put.blob).Some? ==>
                  Step(w, s, e).1 == Found("", cid.value, put.contentType, put.blob))
  {
    CachedAnswers(w, s, e, repo, tag);
  }

  // ---- pulls of what others published ----

  lemma FirstIsGood(w: World, u: Seen, s: Server, e: Event, later: Run)
    requires WellBehaved(w, u, s, [e] + later)
    ensures GoodEvent(w, u, s, e)
    ensures After(w, s, [e] + later) == After(w, Step(w, s, e).0, later)
  {
    var run := [e] + later;
    assert run[..0] == [] && run[0] == e;
    StepsAlong(w, s, [], e, later);
    assert [] + [e] + later == run;
  }

  /**
   * Pull by resolution. In a coherent state, a GET of a pair that resolves to a published image answers with the
   * bytes the image has under that reference, and in every later state of a well-behaved run each of the manifest's
   * blobs is served with the bytes that the image has for it.
   */
  lemma ResolvedIsServed(w: World, u: Seen, s: Server, e: Event, later: Run, repo: string, k: string, cid: string,
                         d: string, g: Event)
    requires Coherent(w, u, s) && WellBehaved(w, u, s, [e] + later)
    requires AsksManifest(e, GET, repo, k) && ResolveCid(w, s.index, repo, k) == Some(cid)
    requires cid in s.ipfs && k in s.ipfs[cid].manifests && w.Digests(s.ipfs[cid].manifests[k]).Some?
    ensures var b := s.ipfs[cid].manifests[k];
            var resp := Step(w, s, e).1;
            && resp.Found? && resp.body == b
            && (d in w.Digests(b).value && AsksBlob(g, GET, repo, d) ==>
                  && d in s.ipfs[cid].blobs
                  && Step(w, After(w, s, [e] + later), g).1 == Found(d, "", "", s.ipfs[cid].blobs[d]))
  {
    var b, final := s.ipfs[cid].manifests[k], After(w, s, [e] + later);
    FirstIsGood(w, u, s, e, later);
    ResolvedIsPulled(w, u, s, e, repo, k, cid, b);
    assert WellFormed(w, u, s.ipfs[cid]) && GoodManifest(w, u, s.ipfs[cid], k);
    IndexGrowsAlong(w, Step(w, s, e).0, later);
    if d in w.Digests(b).value && AsksBlob(g, GET, repo, d) {
      AlwaysCoherent(w, u, s, [e] + later);
      assert Key(repo, d) in final.index.cids;
      IndexedIsServed(w, u, final, repo, s.ipfs[cid].blobs[d]);
      AskedOf(w, final, g, repo, d);
    }
  }

  /** So an image is pulled under the Docker name of its multihash. */
  lemma PullByHash(w: World, u: Seen, s: Server, e: Event, later: Run, h: string, k: string, d: string, g: Event)
    requires HashNames.Valid58(h) && |HashNames.Decode58(h)| == 34
    requires var repo, cid := HashNames.DockerizeHash(h), w.toB32(h);
             && Coherent(w, u, s) && WellBehaved(w, u, s, [e] + later)
             && w.toB32(repo) == "" && cid != "" && k != "" && Lookup(w.location, s.index, repo, k) == None
             && AsksManifest(e, GET, repo, k) && AsksBlob(g, GET, repo, d)
             && cid in s.ipfs && k in s.ipfs[cid].manifests && w.Digests(s.ipfs[cid].manifests[k]).Some?
             && d in w.Digests(s.ipfs[cid].manifests[k]).value
    ensures var image := s.ipfs[w.toB32(h)];
            && Step(w, s, e).1.Found? && Step(w, s, e).1.body == image.manifests[k]
            && d in image.blobs && Step(w, After(w, s, [e] + later), g).1 == Found(d, "", "", image.blobs[d])
  {
    ResolvesByHash(w, s.index, h, k);
    ResolvedIsServed(w, u, s, e, later, HashNames.DockerizeHash(h), k, w.toB32(h), d, g);
  }

  /**
   * And what a push publishes is pulled under its cid: after a good PUT that is answered with `c`, a GET of
   * `c:latest` answers with the body that was put, and in every later state of a well-behaved run each of its blobs
   * is served through `c` with the bytes that the blob store held at the PUT.
   */
  lemma PushedIsPulledByCid(w: World, u: Seen, s: Server, put: Event, e: Event, later: Run, d: string, g: Event)
    requires Coherent(w, u, s) && IsManifestPut(put) && GoodEvent(w, u, s, put) && put.added.Published?
    requires Step(w, s, put).1.Created? && w.Digests(put.q.body).Some?
    requires WellBehaved(w, u, Step(w, s, put).0, [e] + later)
    requires AsksManifest(e, GET, put.added.cid, "latest")
    requires d in w.Digests(put.q.body).value && AsksBlob(g, GET, put.added.cid, d)
    ensures var s1 := Step(w, s, put).0;
            && Step(w, s1, e).1.Found? && Step(w, s1, e).1.body == put.q.body
            && d in s.blobs.contents
            && Step(w, After(w, s1, [e] + later), g).1 == Found(d, "", "", s.blobs.contents[d])
  {
    var s1, c := Step(w, s, put).0, put.added.cid;
    PutPublishes(w, s, put);
    StepKeepsCoherent(w, u, s, put);
    ResolvesByIndex(w, s1.index, c, "latest");
    assert "latest" in {RouteOf(put.q.elem).target, w.Digest(put.q.body), "latest"};
    ResolvedIsServed(w, u, s1, e, later, c, "latest", c, d, g);
  }
}
