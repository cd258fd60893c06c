/** Runs of the server: requests one after the other, and images that others publish meanwhile. */
module Runs {
  import opened Text
  import opened World
  import opened Routes
  import opened BlobSpec
  import opened ManifestSpec
  import CidStore

  datatype Event =
    | Http(q: Request, id: string, added: AddResult)
    | Elsewhere(cid: string, image: Image)

  type Run = seq<Event>

  function Step(w: World, s: Server, e: Event): (Server, Response) {
    match e
    case Http(q, id, added) => Serve(w, s, q, id, added)
    case Elsewhere(cid, image) => (s.(ipfs := s.ipfs[cid := image]), Welcome)
  }

  function After(w: World, s: Server, run: Run): Server {
    if run == [] then s else Step(w, After(w, s, run[..|run| - 1]), run[|run| - 1]).0
  }

  /** What the n-th event of a run is answered. */
  function Answer(w: World, s: Server, run: Run, n: nat): Response
    requires n < |run|
  {
    Step(w, After(w, s, run[..n]), run[n]).1
  }

  /** A new server: nothing in memory, whatever disk and published images there are. */
  function Start(disk: CidStore.Disk, ipfs: map<string, Image>): Server {
    Server(Blobs(map[], map[], map[], false), CidStore.Index(map[], disk), map[], false, ipfs)
  }

  lemma {:induction false} AfterConcat(w: World, s: Server, run: Run, more: Run)
    ensures After(w, s, run + more) == After(w, After(w, s, run), more)
    decreases |more|
  {
    if more == [] {
      assert run + more == run;
    } else {
      assert (run + more)[..|run + more| - 1] == run + more[..|more| - 1];
      AfterConcat(w, s, run, more[..|more| - 1]);
    }
  }

  // ---- which events do what ----

  predicate IsManifestPut(e: Event) {
    e.Http? && e.q.verb == PUT && RouteOf(e.q.elem).ManifestRoute?
  }

  predicate IsManifestRead(e: Event) {
    e.Http? && (e.q.verb == GET || e.q.verb == HEAD) && RouteOf(e.q.elem).ManifestRoute?
  }

  /** A request for the manifest of a reference. */
  predicate AsksManifest(e: Event, verb: Verb, repo: string, reference: string) {
    e.Http? && e.q.verb == verb && RouteOf(e.q.elem) == ManifestRoute(repo, reference)
  }

  /** A request for a blob through a repository. */
  predicate AsksBlob(e: Event, verb: Verb, repo: string, digest: string) {
    && e.Http? && e.q.verb == verb
    && RouteOf(e.q.elem).BlobRoute? && RouteOf(e.q.elem).repo == repo && RouteOf(e.q.elem).target == digest
  }

  predicate IsBlobWrite(e: Event) {
    e.Http? && e.q.verb != GET && e.q.verb != HEAD && RouteOf(e.q.elem).BlobRoute?
  }

  predicate OnSession(e: Event, id: string) {
    IsBlobWrite(e) && RouteOf(e.q.elem).service == "uploads" && RouteOf(e.q.elem).target == id
  }

  /** The PUT gets as far as calling `AddImage`. */
  predicate Publishes(w: World, s: Server, e: Event) {
    && IsManifestPut(e) && !s.stuck && !s.blobs.locked
    && IndexPasses(w, Cache(s, RouteOf(e.q.elem).repo), e.q.contentType, e.q.body)
    && Complete(s.blobs, RouteOf(e.q.elem).repo)
  }

  /** The PUT reaches `get` and `get` fails. */
  predicate GetFails(w: World, s: Server, e: Event) {
    && IsManifestPut(e) && !s.stuck && !s.blobs.locked
    && IndexPasses(w, Cache(s, RouteOf(e.q.elem).repo), e.q.contentType, e.q.body)
    && !Complete(s.blobs, RouteOf(e.q.elem).repo)
  }

  /** What an event can do to the blob store. */
  lemma BlobsStep(w: World, s: Server, e: Event)
    ensures var b := Step(w, s, e).0.blobs;
            b == if IsBlobWrite(e) then Write(w, s.blobs, RouteOf(e.q.elem), e.q, e.id).0
                 else if Publishes(w, s, e) then Removed(s.blobs, RouteOf(e.q.elem).repo)
                 else if GetFails(w, s, e) then s.blobs.(locked := true)
                 else s.blobs
  {
    if IsManifestRead(e) {
      var r := RouteOf(e.q.elem);
      FetchKeeps(w, s, r.repo, r.target);
      GetKeeps(w, s, r.repo, r.target);
    } else if IsManifestPut(e) {
      var r := RouteOf(e.q.elem);
      PutBlobs(w, s, r.repo, r.target, e.q.contentType, e.q.body, e.added);
    }
  }

  lemma WriteStep(w: World, s: Server, e: Event)
    requires IsBlobWrite(e)
    ensures var (b, resp) := Write(w, s.blobs, RouteOf(e.q.elem), e.q, e.id);
            Step(w, s, e) == (s.(blobs := b), resp)
  {
  }

  lemma PutBlobs(w: World, s: Server, repo: string, target: string, contentType: string, body: Bytes, added: AddResult)
    ensures var (s', resp) := Put(w, s, repo, target, contentType, body, added);
            s'.blobs == if s.stuck || s.blobs.locked || !IndexPasses(w, Cache(s, repo), contentType, body) then s.blobs
                        else if Complete(s.blobs, repo) then Removed(s.blobs, repo)
                        else s.blobs.(locked := true)
  {
  }

  lemma FetchKeeps(w: World, s: Server, repo: string, target: string)
    ensures var s' := Fetch(w, s, repo, target).0;
            s'.blobs == s.blobs && s'.ipfs == s.ipfs && s'.stuck == s.stuck
  {
  }

  lemma {:induction false} AddCidsKeeps(w: World, s: Server, repo: string, digests: seq<string>, cid: string)
    ensures var s' := AddCids(w, s, repo, digests, cid);
            s' == s.(index := s'.index)
  {
    if digests != [] {
      AddCidsKeeps(w, s, repo, digests[..|digests| - 1], cid);
    }
  }

  /** A GET does to the server what the fetch does, except for the index. */
  lemma GetKeeps(w: World, s: Server, repo: string, target: string)
    ensures var s' := Get(w, s, repo, target).0;
            var f := if s.stuck then s else Fetch(w, s, repo, target).0;
            s' == f.(index := s'.index)
  {
    if !s.stuck {
      var (f, mf) := Fetch(w, s, repo, target);
      if mf.Some? && ResolveCid(w, f.index, repo, target).Some? && w.Digests(mf.value.blob).Some? {
        AddCidsKeeps(w, f, repo, w.Digests(mf.value.blob).value, ResolveCid(w, f.index, repo, target).value);
      }
    }
  }

  // ---- content addressing ----

  /** In every run, each key of `contents` is the digest of its bytes. */
  lemma {:induction false} AlwaysContentAddressed(w: World, s: Server, run: Run)
    requires ContentAddressed(w, s.blobs)
    ensures ContentAddressed(w, After(w, s, run).blobs)
  {
    if run != [] {
      var prior, e := After(w, s, run[..|run| - 1]), run[|run| - 1];
      AlwaysContentAddressed(w, s, run[..|run| - 1]);
      BlobsStep(w, prior, e);
      if IsBlobWrite(e) {
        WriteKeepsAddressing(w, prior.blobs, RouteOf(e.q.elem), e.q, e.id);
      }
    }
  }

  // ---- upload reassembly ----

  /** The PATCH bodies that the session has accepted since its last commit, read off the responses. */
  function Chunks(w: World, s: Server, run: Run, id: string): seq<Bytes> {
    if run == [] then []
    else
      var init, e := run[..|run| - 1], run[|run| - 1];
      var resp := Step(w, After(w, s, init), e).1;
      if OnSession(e, id) && resp.Received? then Chunks(w, s, init, id) + [e.q.body]
      else if Commits(w, s, run, id) then []
      else Chunks(w, s, init, id)
  }

  /** The last event of the run commits the session. */
  predicate Commits(w: World, s: Server, run: Run, id: string)
    requires run != []
  {
    var e := run[|run| - 1];
    OnSession(e, id) && e.q.verb == PUT && Step(w, After(w, s, run[..|run| - 1]), e).1.Created?
  }

  function Concat(chunks: seq<Bytes>): Bytes {
    if chunks == [] then [] else Concat(chunks[..|chunks| - 1]) + chunks[|chunks| - 1]
  }

  lemma SessionStep(w: World, b: Blobs, r: Route, q: Request, rand: string, id: string)
    requires r.BlobRoute? && q.verb != GET && q.verb != HEAD
    ensures var (b', resp) := Write(w, b, r, q, rand);
            var mine := r.service == "uploads" && r.target == id;
            && (mine && resp.Received? ==>
                  q.verb == PATCH && b'.uploads == b.uploads[id := Upload(b, id) + q.body]
                  && resp == Received(Location(r.session, id), |Upload(b, id) + q.body| - 1)
                  && (q.contentRange == "" ==> id !in b.uploads)
                  && (q.contentRange != "" ==>
                        w.parseRange(q.contentRange).Some? && w.parseRange(q.contentRange).value.0 == |Upload(b, id)|))
            && (mine && q.verb == PUT && resp.Created? ==>
                  id !in b'.uploads
                  && resp.digest in b'.contents && b'.contents[resp.digest] == Upload(b, id) + q.body
                  && resp.digest == w.Digest(Upload(b, id) + q.body))
            && (!(mine && (resp.Received? || (q.verb == PUT && resp.Created?))) ==>
                  Upload(b', id) == Upload(b, id) && (id in b'.uploads <==> id in b.uploads))
  {
  }

  /** An open session holds the accepted bodies in order, whatever requests on whatever sessions intervene. */
  lemma {:induction false} UploadReassembly(w: World, s: Server, run: Run, id: string)
    requires s.blobs.uploads == map[]
    ensures var b := After(w, s, run).blobs;
            && Upload(b, id) == Concat(Chunks(w, s, run, id))
            && (id in b.uploads <==> Chunks(w, s, run, id) != [])
  {
    if run != [] {
      var init, e := run[..|run| - 1], run[|run| - 1];
      var prior := After(w, s, init);
      UploadReassembly(w, s, init, id);
      BlobsStep(w, prior, e);
      if IsBlobWrite(e) {
        SessionStep(w, prior.blobs, RouteOf(e.q.elem), e.q, e.id, id);
      }
    }
  }

  /**
   * Every answer on a session is about that concatenation: an accepted chunk is counted at its end, a ranged one
   * starts where the previous ones end, and a commit stores the concatenation followed by the PUT's own body.
   */
  lemma SessionAnswers(w: World, s: Server, run: Run, e: Event, id: string)
    requires s.blobs.uploads == map[] && OnSession(e, id)
    ensures var have := Concat(Chunks(w, s, run, id));
            var (s', resp) := Step(w, After(w, s, run), e);
            && (resp.Received? ==> resp.rangeEnd == |have| + |e.q.body| - 1)
            && (resp.Received? && e.q.contentRange != "" ==>
                  w.parseRange(e.q.contentRange).Some? && w.parseRange(e.q.contentRange).value.0 == |have|)
            && (resp.Received? && e.q.contentRange == "" ==> Chunks(w, s, run, id) == [])
            && (e.q.verb == PUT && resp.Created? ==>
                  && resp.digest == w.Digest(have + e.q.body)
                  && resp.digest in s'.blobs.contents && s'.blobs.contents[resp.digest] == have + e.q.body)
  {
    var prior := After(w, s, run);
    UploadReassembly(w, s, run, id);
    WriteStep(w, prior, e);
    SessionStep(w, prior.blobs, RouteOf(e.q.elem), e.q, e.id, id);
  }

  /** Until a commit, a session only grows. */
  lemma {:induction false} SessionGrows(w: World, s: Server, run: Run, id: string)
    requires forall n :: 0 < n <= |run| ==> !Commits(w, s, run[..n], id)
    ensures |Upload(After(w, s, run).blobs, id)| >= |Upload(s.blobs, id)|
  {
    if run != [] {
      var init, e := run[..|run| - 1], run[|run| - 1];
      var prior := After(w, s, init);
      forall n | 0 < n <= |init|
        ensures !Commits(w, s, init[..n], id)
      {
        assert init[..n] == run[..n];
      }
      SessionGrows(w, s, init, id);
      assert run[..|run|] == run;
      BlobsStep(w, prior, e);
      if IsBlobWrite(e) {
        SessionStep(w, prior.blobs, RouteOf(e.q.elem), e.q, e.id, id);
      }
    }
  }

  /** Once a ranged chunk with a body is accepted, sending it again before a commit is never accepted. */
  lemma RetransmissionRejected(w: World, s: Server, e: Event, between: Run, again: Event, id: string)
    requires OnSession(e, id) && e.q.contentRange != "" && e.q.body != []
    requires Step(w, s, e).1.Received?
    requires again.Http? && again.q == e.q
    requires forall n :: 0 < n <= |between| ==> !Commits(w, Step(w, s, e).0, between[..n], id)
    ensures var later := After(w, Step(w, s, e).0, between);
            Step(w, later, again) == (later, if later.blobs.locked then Hangs else Refused(416, "BLOB_UPLOAD_UNKNOWN"))
  {
    var r := RouteOf(e.q.elem);
    WriteStep(w, s, e);
    SessionStep(w, s.blobs, r, e.q, e.id, id);
    SessionGrows(w, Step(w, s, e).0, between, id);
    var later := After(w, Step(w, s, e).0, between);
    WriteStep(w, later, again);
    RangePassed(w, later.blobs, r, e.q, again.id);
  }

  lemma RangePassed(w: World, b: Blobs, r: Route, q: Request, rand: string)
    requires r.BlobRoute? && r.service == "uploads" && q.verb == PATCH && q.contentRange != ""
    requires w.parseRange(q.contentRange).Some? && w.parseRange(q.contentRange).value.0 < |Upload(b, r.target)|
    ensures Write(w, b, r, q, rand) == (b, if b.locked then Hangs else Refused(416, "BLOB_UPLOAD_UNKNOWN"))
  {
  }

  /**
   * Opening an upload answers with a location that leads to the handler of that session of that repository, and every
   * chunk accepted there, by whatever server state, answers with the same location again.
   */
  lemma LocationsLeadBack(w: World, s: Server, post: Event, later: Server, patch: Event, name: seq<string>, slash: bool)
    requires CleanName(name) && post.Http? && Plain(post.id) && Free(post.id, '/')
    requires post.q.verb == POST && post.q.elem == Opening(name, slash) && post.q.digest == ""
    ensures Step(w, s, post).1.Started?
    ensures var location := Step(w, s, post).1.location;
            var r := RouteOf(Follow(location));
            && r.BlobRoute? && r.repo == Join(name, '/') && r.service == "uploads" && r.target == post.id
            && (patch.Http? && patch.q.verb == PATCH && patch.q.elem == Follow(location) ==>
                  OnSession(patch, post.id)
                  && (Step(w, later, patch).1.Received? ==> Step(w, later, patch).1.location == location))
  {
    LocationRoundTrip(name, post.id, slash);
    WriteStep(w, s, post);
    RouteOfOpening(name, slash);
    assert Step(w, s, post).1 == Started(Location(name, post.id));
    if patch.Http? && patch.q.verb == PATCH && patch.q.elem == Follow(Location(name, post.id)) {
      WriteStep(w, later, patch);
      SessionStep(w, later.blobs, RouteOf(patch.q.elem), patch.q, patch.id, post.id);
    }
  }

  // ---- conservation of committed blobs ----

  /** The digests committed in a run, read off the responses. */
  function CommittedDigests(w: World, s: Server, run: Run): set<string> {
    if run == [] then {}
    else
      var init, e := run[..|run| - 1], run[|run| - 1];
      var resp := Step(w, After(w, s, init), e).1;
      CommittedDigests(w, s, init) + if IsBlobWrite(e) && resp.Created? then {resp.digest} else {}
  }

  /** The digests that were in the `layers` argument of some call to `AddImage`. */
  function SentDigests(w: World, s: Server, run: Run): set<string> {
    if run == [] then {}
    else
      var init, e := run[..|run| - 1], run[|run| - 1];
      var prior := After(w, s, init);
      SentDigests(w, s, init)
      + if Publishes(w, prior, e) then LayerBlobs(prior.blobs, RouteOf(e.q.elem).repo).Keys else {}
  }

  /** No committed blob is lost: it is still held, or it was handed to `AddImage`. */
  lemma {:induction false} BlobsConserved(w: World, s: Server, run: Run)
    ensures CommittedDigests(w, s, run) <= After(w, s, run).blobs.contents.Keys + SentDigests(w, s, run)
  {
    if run != [] {
      var init, e := run[..|run| - 1], run[|run| - 1];
      var prior := After(w, s, init);
      BlobsConserved(w, s, init);
      BlobsStep(w, prior, e);
      if IsBlobWrite(e) {
        WriteStep(w, prior, e);
        WriteHolds(w, prior.blobs, RouteOf(e.q.elem), e.q, e.id);
      } else if Publishes(w, prior, e) {
        RemovalHolds(prior.blobs, RouteOf(e.q.elem).repo);
      }
    }
  }

  lemma WriteHolds(w: World, b: Blobs, r: Route, q: Request, rand: string)
    requires r.BlobRoute?
    ensures var (b', resp) := Write(w, b, r, q, rand);
            b'.contents.Keys == b.contents.Keys + if resp.Created? then {resp.digest} else {}
  {
  }

  lemma RemovalHolds(b: Blobs, repo: string)
    requires Complete(b, repo)
    ensures b.contents.Keys == Removed(b, repo).contents.Keys + LayerBlobs(b, repo).Keys
  {
  }

  // ---- closure ----

  /** In every run in which repositories never share a digest, every repository with layers holds all of them. */
  lemma {:induction false} AlwaysAllComplete(w: World, s: Server, run: Run)
    requires AllComplete(s.blobs)
    requires forall n :: 0 <= n < |run| ==> NoneShared(After(w, s, run[..n]).blobs)
    ensures AllComplete(After(w, s, run).blobs)
  {
    if run != [] {
      var init, e := run[..|run| - 1], run[|run| - 1];
      var prior := After(w, s, init);
      forall n | 0 <= n < |init|
        ensures NoneShared(After(w, s, init[..n]).blobs)
      {
        assert init[..n] == run[..n];
      }
      AlwaysAllComplete(w, s, init);
      BlobsStep(w, prior, e);
      if IsBlobWrite(e) {
        WriteKeepsAllComplete(w, prior.blobs, RouteOf(e.q.elem), e.q, e.id);
      } else if Publishes(w, prior, e) {
        RemovalKeepsAllComplete(prior.blobs, RouteOf(e.q.elem).repo);
      }
    }
  }

  // ---- what a failed `get` does ----

  /** The blob mutex is lost exactly by a PUT whose `get` fails, and never comes back. */
  lemma LockLost(w: World, s: Server, e: Event)
    ensures Step(w, s, e).0.blobs.locked <==> s.blobs.locked || GetFails(w, s, e)
  {
    BlobsStep(w, s, e);
  }

  predicate CommitsTo(w: World, s: Server, e: Event, repo: string) {
    IsBlobWrite(e) && RouteOf(e.q.elem).repo == repo && Step(w, s, e).1.Created?
  }

  lemma WriteKeepsUnlisted(w: World, b: Blobs, r: Route, q: Request, id: string, repo: string)
    requires r.BlobRoute? && repo !in b.layers
    requires r.repo == repo ==> !Write(w, b, r, q, id).1.Created?
    ensures repo !in Write(w, b, r, q, id).0.layers
  {
  }

  /** A request gets stuck only on the lost mutex. */
  lemma StuckStep(w: World, s: Server, e: Event)
    ensures Step(w, s, e).0.stuck ==> s.stuck || s.blobs.locked
  {
    if IsManifestRead(e) {
      FetchKeeps(w, s, RouteOf(e.q.elem).repo, RouteOf(e.q.elem).target);
      GetKeeps(w, s, RouteOf(e.q.elem).repo, RouteOf(e.q.elem).target);
    } else if IsManifestPut(e) {
      var r := RouteOf(e.q.elem);
      PutStuck(w, s, r.repo, r.target, e.q.contentType, e.q.body, e.added);
    } else if IsBlobWrite(e) {
      WriteStep(w, s, e);
    }
  }

  lemma PutStuck(w: World, s: Server, repo: string, target: string, contentType: string, body: Bytes, added: AddResult)
    ensures Put(w, s, repo, target, contentType, body, added).0.stuck ==> s.stuck || s.blobs.locked
  {
  }

  /** The repository has no layer list, and no request is stuck but on a lost mutex. */
  predicate Unlisted(s: Server, repo: string) {
    repo !in s.blobs.layers && (s.stuck ==> s.blobs.locked)
  }

  lemma UnlistedStep(w: World, s: Server, e: Event, repo: string)
    requires Unlisted(s, repo) && !CommitsTo(w, s, e, repo)
    ensures Unlisted(Step(w, s, e).0, repo)
  {
    BlobsStep(w, s, e);
    StuckStep(w, s, e);
    if IsBlobWrite(e) {
      WriteStep(w, s, e);
      WriteKeepsUnlisted(w, s.blobs, RouteOf(e.q.elem), e.q, e.id, repo);
    }
  }

  lemma PublishedIsUnlisted(w: World, s: Server, e: Event)
    requires Publishes(w, s, e)
    ensures Unlisted(Step(w, s, e).0, RouteOf(e.q.elem).repo)
  {
    BlobsStep(w, s, e);
    StuckStep(w, s, e);
  }

  lemma UnlistedPutLosesLock(w: World, s: Server, e: Event)
    requires IsManifestPut(e) && Unlisted(s, RouteOf(e.q.elem).repo)
    requires IndexPasses(w, Cache(s, RouteOf(e.q.elem).repo), e.q.contentType, e.q.body)
    ensures (s.blobs.locked || GetFails(w, s, e)) && Step(w, s, e).0.blobs.locked
  {
    LockLost(w, s, e);
  }

  /** Without a commit, a repository without a layer list gets none. */
  lemma {:induction false} StaysUnlisted(w: World, s: Server, run: Run, repo: string)
    requires Unlisted(s, repo)
    requires forall n :: 0 <= n < |run| ==> !CommitsTo(w, After(w, s, run[..n]), run[n], repo)
    ensures Unlisted(After(w, s, run), repo)
  {
    if run != [] {
      var init, e := run[..|run| - 1], run[|run| - 1];
      forall n | 0 <= n < |init|
        ensures !CommitsTo(w, After(w, s, init[..n]), init[n], repo)
      {
        assert init[..n] == run[..n];
      }
      StaysUnlisted(w, s, init, repo);
      UnlistedStep(w, After(w, s, init), e, repo);
    }
  }

  /**
   * Requests that lose the mutex do happen: after a PUT that publishes a repository, the next manifest PUT there that
   * passes the index check, with no commit to the repository in between, loses it unless it is lost already.
   * An index that is put right after its last child is such a PUT.
   */
  lemma RepublishingLosesLock(w: World, s: Server, e: Event, between: Run, next: Event, repo: string)
    requires Publishes(w, s, e) && RouteOf(e.q.elem).repo == repo
    requires IsManifestPut(next) && RouteOf(next.q.elem).repo == repo
    requires forall n :: 0 <= n < |between| ==>
               !CommitsTo(w, After(w, Step(w, s, e).0, between[..n]), between[n], repo)
    requires IndexPasses(w, Cache(After(w, Step(w, s, e).0, between), repo), next.q.contentType, next.q.body)
    ensures var later := After(w, Step(w, s, e).0, between);
            (later.blobs.locked || GetFails(w, later, next)) && Step(w, later, next).0.blobs.locked
  {
    PublishedIsUnlisted(w, s, e);
    UnlistedRunLosesLock(w, Step(w, s, e).0, between, next, repo);
  }

  lemma UnlistedRunLosesLock(w: World, s: Server, run: Run, next: Event, repo: string)
    requires Unlisted(s, repo) && IsManifestPut(next) && RouteOf(next.q.elem).repo == repo
    requires forall n :: 0 <= n < |run| ==> !CommitsTo(w, After(w, s, run[..n]), run[n], repo)
    requires IndexPasses(w, Cache(After(w, s, run), repo), next.q.contentType, next.q.body)
    ensures var later := After(w, s, run);
            (later.blobs.locked || GetFails(w, later, next)) && Step(w, later, next).0.blobs.locked
  {
    StaysUnlisted(w, s, run, repo);
    UnlistedPutLosesLock(w, After(w, s, run), next);
  }

  /** From then on the blob store is frozen, and every request that would change it hangs or is refused. */
  lemma {:induction false} FrozenOnceLocked(w: World, s: Server, run: Run)
    requires s.blobs.locked
    ensures After(w, s, run).blobs == s.blobs
    ensures run != [] && IsBlobWrite(run[|run| - 1]) ==>
              var resp := Step(w, After(w, s, run[..|run| - 1]), run[|run| - 1]).1;
              resp == Hangs || resp.Refused? || resp.Started?
  {
    if run != [] {
      FrozenOnceLocked(w, s, run[..|run| - 1]);
      BlobsStep(w, After(w, s, run[..|run| - 1]), run[|run| - 1]);
    }
  }

  /**
   * The manifest of such a PUT, though refused, is served: by HEAD always, and by GET exactly if its reference
   * happened to resolve before.
   */
  lemma RefusedButServed(w: World, s: Server, e: Event, read: Event)
    requires GetFails(w, s, e)
    ensures var (s', resp) := Step(w, s, e);
            var repo, target := RouteOf(e.q.elem).repo, RouteOf(e.q.elem).target;
            && resp == Refused(404, "MANIFEST_BLOB_UNKNOWN")
            && (AsksManifest(read, HEAD, repo, target) ==>
                  Step(w, s', read).1 == FoundHead("", e.q.contentType, |e.q.body|))
            && (AsksManifest(read, GET, repo, target) ==>
                  (Step(w, s', read).1.Found? <==>
                     ResolveCid(w, s.index, repo, target).Some? && w.Digests(e.q.body).Some?))
  {
    var repo, target := RouteOf(e.q.elem).repo, RouteOf(e.q.elem).target;
    var mf := Manifest(e.q.contentType, e.q.body, "");
    var s1 := Cached(s, repo, target, w.Digest(e.q.body), mf);
    assert Step(w, s, e).0 == s1.(blobs := s1.blobs.(locked := true));
    assert Cache(s1, repo)[target] == mf;
  }

  // ---- the cache only grows ----

  ghost predicate CacheWithin(s: Server, s': Server) {
    forall repo, k :: k in Cache(s, repo) ==> k in Cache(s', repo)
  }

  lemma ReadCaches(w: World, s: Server, e: Event)
    requires IsManifestRead(e)
    ensures CacheWithin(s, Step(w, s, e).0)
  {
    var r := RouteOf(e.q.elem);
    GetKeeps(w, s, r.repo, r.target);
    FetchCaches(w, s, r.repo, r.target);
  }

  lemma FetchCaches(w: World, s: Server, repo: string, target: string)
    ensures CacheWithin(s, Fetch(w, s, repo, target).0)
  {
  }

  lemma PutCaches(w: World, s: Server, e: Event)
    requires IsManifestPut(e)
    ensures CacheWithin(s, Step(w, s, e).0)
  {
    var r := RouteOf(e.q.elem);
    PutCache(w, s, r.repo, r.target, e.q.contentType, e.q.body, e.added);
  }

  lemma CacheStep(w: World, s: Server, e: Event)
    ensures CacheWithin(s, Step(w, s, e).0)
  {
    if IsManifestRead(e) {
      ReadCaches(w, s, e);
    } else if IsManifestPut(e) {
      PutCaches(w, s, e);
    } else if IsBlobWrite(e) {
      WriteStep(w, s, e);
    }
  }

  /** What a PUT leaves in the cache. */
  lemma PutCache(w: World, s: Server, repo: string, target: string, contentType: string, body: Bytes, added: AddResult)
    ensures var (s', resp) := Put(w, s, repo, target, contentType, body, added);
            s'.manifests == if s.stuck then s.manifests
                            else if !IndexPasses(w, Cache(s, repo), contentType, body) then Opened(s, repo).manifests
                            else Cached(s, repo, target, w.Digest(body), Manifest(contentType, body, "")).manifests
    ensures Put(w, s, repo, target, contentType, body, added).1.Created? ==>
              !s.stuck && IndexPasses(w, Cache(s, repo), contentType, body)
  {
  }

  lemma {:induction false} CacheGrows(w: World, s: Server, run: Run)
    ensures CacheWithin(s, After(w, s, run))
  {
    if run != [] {
      CacheGrows(w, s, run[..|run| - 1]);
      CacheStep(w, After(w, s, run[..|run| - 1]), run[|run| - 1]);
    }
  }

  /** The children of an index that a PUT has accepted are in the same repository in every later state. */
  lemma IndexChildrenStay(w: World, s: Server, e: Event, later: Run)
    requires IsManifestPut(e) && IsIndexType(e.q.contentType) && Step(w, s, e).1.Created?
    ensures var after := After(w, Step(w, s, e).0, later);
            && w.children(e.q.body).Some?
            && (forall d :: d in w.children(e.q.body).value ==> d in Cache(after, RouteOf(e.q.elem).repo))
            && RouteOf(e.q.elem).target in Cache(after, RouteOf(e.q.elem).repo)
            && w.Digest(e.q.body) in Cache(after, RouteOf(e.q.elem).repo)
  {
    var r := RouteOf(e.q.elem);
    CacheStep(w, s, e);
    CacheGrows(w, Step(w, s, e).0, later);
    PutCache(w, s, r.repo, r.target, e.q.contentType, e.q.body, e.added);
  }
}
