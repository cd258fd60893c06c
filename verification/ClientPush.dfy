/** What a client has to do for a push to succeed: commit the blobs, then put the manifest. */
module ClientPush {
  import opened Text
  import opened World
  import opened Routes
  import opened CidStore
  import opened BlobSpec
  import opened ManifestSpec
  import opened Runs
  import opened Coherence
  import opened PushPull

  /** A monolithic POST of one blob. */
  function Post(w: World, name: seq<string>, x: Bytes): Event {
    Http(Request(POST, Opening(name, false), w.Digest(x), "", "", x), "", SendFailed)
  }

  function Posts(w: World, name: seq<string>, xs: seq<Bytes>): Run {
    seq(|xs|, i requires 0 <= i < |xs| => Post(w, name, xs[i]))
  }

  /** The PUT of a manifest, which `AddImage` publishes as `cid`. */
  function PutEvent(name: seq<string>, target: string, contentType: string, body: Bytes, cid: string): Event {
    Http(Request(PUT, ManifestPath(name, target), "", "", contentType, body), "", Published(cid))
  }

  lemma CleanRepoOf(name: seq<string>)
    requires CleanName(name) && Free(Join(name, '/'), ':')
    ensures CleanRepo(Join(name, '/'))
  {
    SplitOfJoin(name, '/');
  }

  /** A POST that carries its digest commits. */
  lemma PostCommits(w: World, u: Seen, s: Server, name: seq<string>, x: Bytes)
    requires name != [] && !s.blobs.locked && x in u.blobs
    ensures var e, repo := Post(w, name, x), Join(name, '/');
            && Step(w, s, e) == (s.(blobs := Committed(s.blobs, repo, w.Digest(x), x)), Created(w.Digest(x), ""))
            && GoodEvent(w, u, s, e)
  {
    RouteOfOpening(name, false);
    var e := Post(w, name, x);
    assert IsBlobWrite(e);
    WriteStep(w, s, e);
    assert w.Digest(x) != "" by { assert |w.Digest(x)| >= 7; }
  }

  /** Before its first blob a repository has no layers; ever after, it holds all it lists. */
  predicate Ready(b: Blobs, repo: string) {
    repo in b.layers ==> Complete(b, repo)
  }

  ghost predicate AllListed(w: World, b: Blobs, repo: string, xs: seq<Bytes>) {
    forall i :: 0 <= i < |xs| ==> repo in b.layers && w.Digest(xs[i]) in b.layers[repo]
  }

  lemma CommitListed(w: World, b: Blobs, repo: string, xs: seq<Bytes>, x: Bytes)
    requires Ready(b, repo) && AllListed(w, b, repo, xs)
    ensures Ready(Committed(b, repo, w.Digest(x), x), repo)
    ensures AllListed(w, Committed(b, repo, w.Digest(x), x), repo, xs + [x])
  {
  }

  lemma WellBehavedSnoc(w: World, u: Seen, s: Server, run: Run, e: Event)
    requires WellBehaved(w, u, s, run) && GoodEvent(w, u, After(w, s, run), e)
    ensures WellBehaved(w, u, s, run + [e])
    ensures After(w, s, run + [e]) == Step(w, After(w, s, run), e).0
  {
    var all := run + [e];
    assert all[..|run|] == run;
    forall n | 0 <= n < |all|
      ensures GoodEvent(w, u, After(w, s, all[..n]), all[n])
    {
      if n < |run| { assert all[..n] == run[..n]; }
    }
  }

  /** The blob store has taken these blobs for the repository, and nothing else of the server has changed. */
  ghost predicate Taken(w: World, s: Server, s': Server, repo: string, xs: seq<Bytes>) {
    s' == s.(blobs := s'.blobs) && !s'.blobs.locked && Ready(s'.blobs, repo) && AllListed(w, s'.blobs, repo, xs)
  }

  lemma PostTakes(w: World, u: Seen, s: Server, s': Server, name: seq<string>, xs: seq<Bytes>, x: Bytes)
    requires name != [] && Taken(w, s, s', Join(name, '/'), xs) && x in u.blobs
    ensures GoodEvent(w, u, s', Post(w, name, x))
    ensures Taken(w, s, Step(w, s', Post(w, name, x)).0, Join(name, '/'), xs + [x])
  {
    PostCommits(w, u, s', name, x);
    CommitListed(w, s'.blobs, Join(name, '/'), xs, x);
  }

  lemma PostsSnoc(w: World, name: seq<string>, xs: seq<Bytes>, x: Bytes)
    ensures Posts(w, name, xs + [x]) == Posts(w, name, xs) + [Post(w, name, x)]
  {
  }

  lemma {:induction false} PostsCommit(w: World, u: Seen, s: Server, name: seq<string>, xs: seq<Bytes>)
    requires name != [] && !s.blobs.locked && Ready(s.blobs, Join(name, '/'))
    requires forall i :: 0 <= i < |xs| ==> xs[i] in u.blobs
    ensures WellBehaved(w, u, s, Posts(w, name, xs))
    ensures Taken(w, s, After(w, s, Posts(w, name, xs)), Join(name, '/'), xs)
    decreases |xs|
  {
    if xs == [] {
      assert Posts(w, name, xs) == [];
    } else {
      var init, x := xs[..|xs| - 1], xs[|xs| - 1];
      assert xs == init + [x];
      PostsCommit(w, u, s, name, init);
      PostTakes(w, u, s, After(w, s, Posts(w, name, init)), name, init, x);
      WellBehavedSnoc(w, u, s, Posts(w, name, init), Post(w, name, x));
      PostsSnoc(w, name, init, x);
    }
  }

  /** The PUT of a manifest whose blobs are all listed is a good one. */
  lemma ListedPutIsGood(w: World, u: Seen, s: Server, name: seq<string>, target: string, contentType: string,
                        body: Bytes, xs: seq<Bytes>, cid: string)
    requires CleanName(name) && Free(Join(name, '/'), ':') && CleanReference(target) && !IsCid(w, Join(name, '/'))
    requires xs != [] && Ready(s.blobs, Join(name, '/')) && AllListed(w, s.blobs, Join(name, '/'), xs)
    requires body in u.manifests && Honest(w, target, body) && !IsIndexType(contentType)
    requires w.Digests(body).Some? ==> forall d :: d in w.Digests(body).value ==> d in Digested(w, xs)
    requires IsCid(w, cid) && CleanRepo(cid) && cid !in s.ipfs
    ensures GoodEvent(w, u, s, PutEvent(name, target, contentType, body, cid))
    ensures Complete(s.blobs, Join(name, '/'))
  {
    RouteOfManifest(name, target);
    CleanRepoOf(name);
    assert w.Digest(xs[0]) in s.blobs.layers[Join(name, '/')];
    assert GoodPut(w, u, s, PutEvent(name, target, contentType, body, cid));
  }

  ghost function Digested(w: World, xs: seq<Bytes>): set<string> {
    set i | 0 <= i < |xs| :: w.Digest(xs[i])
  }

  /**
   * A push succeeds. From any coherent state in which the repository holds all the layers it lists, committing the
   * blobs of a manifest and then putting it is well behaved, is answered with 201, and leaves the manifest
   * pushed under its target.
   */
  lemma PushSucceeds(w: World, u: Seen, s: Server, name: seq<string>, target: string, contentType: string,
                     body: Bytes, xs: seq<Bytes>, cid: string)
    requires CleanName(name) && Free(Join(name, '/'), ':') && CleanReference(target) && !IsCid(w, Join(name, '/'))
    requires Coherent(w, u, s) && Ready(s.blobs, Join(name, '/')) && cid !in s.ipfs
    requires xs != [] && forall i :: 0 <= i < |xs| ==> xs[i] in u.blobs
    requires body in u.manifests && Honest(w, target, body) && !IsIndexType(contentType)
    requires w.Digests(body).Some? ==> forall d :: d in w.Digests(body).value ==> d in Digested(w, xs)
    requires IsCid(w, cid) && CleanRepo(cid)
    ensures var posts, put := Posts(w, name, xs), PutEvent(name, target, contentType, body, cid);
            && WellBehaved(w, u, s, posts + [put])
            && Step(w, After(w, s, posts), put).1 == Created(w.Digest(body), cid)
            && (Join(name, '/'), target) in Pushed(w, s, posts + [put])
            && Pushed(w, s, posts + [put])[(Join(name, '/'), target)] == body
  {
    var posts, put := Posts(w, name, xs), PutEvent(name, target, contentType, body, cid);
    PostsCommit(w, u, s, name, xs);
    var prior := After(w, s, posts);
    ListedPutIsGood(w, u, prior, name, target, contentType, body, xs, cid);
    WellBehavedSnoc(w, u, s, posts, put);
    PutCreates(w, prior, name, target, contentType, body, cid);
    PushedSnoc(w, s, posts, put);
  }

  lemma PutCreates(w: World, s: Server, name: seq<string>, target: string, contentType: string, body: Bytes,
                   cid: string)
    requires name != [] && target != "" && cid != "" && !IsIndexType(contentType)
    requires !s.stuck && !s.blobs.locked && Complete(s.blobs, Join(name, '/'))
    ensures var e := PutEvent(name, target, contentType, body, cid);
            && IsManifestPut(e) && RouteOf(e.q.elem) == ManifestRoute(Join(name, '/'), target)
            && Step(w, s, e).1 == Created(w.Digest(body), cid)
  {
    RouteOfManifest(name, target);
    PutInFull(w, s, Join(name, '/'), target, contentType, body, cid);
  }

  lemma PushedSnoc(w: World, s: Server, run: Run, e: Event)
    requires IsManifestPut(e) && Step(w, After(w, s, run), e).1.Created?
    ensures var r := RouteOf(e.q.elem);
            Pushed(w, s, run + [e])
            == Pushed(w, s, run)[(r.repo, r.target) := e.q.body][(r.repo, w.Digest(e.q.body)) := e.q.body]
  {
    assert (run + [e])[..|run|] == run;
  }
}
