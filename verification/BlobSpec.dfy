/** The blob handler of blobs.go as functions on its state: upload sessions, committed blobs, layer lists. */
module BlobSpec {
  import opened Text
  import opened World
  import opened Routes

  /**
   * `contents` holds the committed blobs under their digests, `uploads` the bytes of open sessions, and
   * `layers` the digests committed to each repository since its last publication. The mutex is free between
   * requests unless `locked`: then some `get` has failed and returned with it held.
   */
  datatype Blobs = Blobs(
    contents: map<string, Bytes>, uploads: map<string, Bytes>, layers: map<string, seq<string>>, locked: bool)

  function Upload(b: Blobs, id: string): Bytes {
    if id in b.uploads then b.uploads[id] else []
  }

  function Layers(b: Blobs, repo: string): seq<string> {
    if repo in b.layers then b.layers[repo] else []
  }

  function Committed(b: Blobs, repo: string, d: string, data: Bytes): Blobs {
    b.(contents := b.contents[d := data], layers := b.layers[repo := Layers(b, repo) + [d]])
  }

  /** POST, PATCH and PUT; `id` is the random number that a new session would get. */
  function Write(w: World, b: Blobs, r: Route, q: Request, id: string): (Blobs, Response)
    requires r.BlobRoute?
  {
    if q.verb == POST && r.target == "uploads" && q.digest != "" then
      if w.Digest(q.body) != q.digest then (b, Refused(400, "DIGEST_INVALID"))
      else if b.locked then (b, Hangs)
      else (Committed(b, r.repo, q.digest, q.body), Created(q.digest, ""))
    else if q.verb == POST && r.target == "uploads" then
      (b, Started(Location(r.opening, id)))
    else if q.verb == PATCH && r.service == "uploads" && q.contentRange != "" then
      match w.parseRange(q.contentRange)
      case None => (b, Refused(416, "BLOB_UPLOAD_UNKNOWN"))
      case Some((start, end)) =>
        if b.locked then (b, Hangs)
        else if start != |Upload(b, r.target)| then (b, Refused(416, "BLOB_UPLOAD_UNKNOWN"))
        else Grown(b, r, q.body)
    else if q.verb == PATCH && r.service == "uploads" then
      if b.locked then (b, Hangs)
      else if r.target in b.uploads then (b, Refused(400, "BLOB_UPLOAD_INVALID"))
      else Grown(b, r, q.body)
    else if q.verb == PUT && r.service == "uploads" && q.digest == "" then
      (b, Refused(400, "DIGEST_INVALID"))
    else if q.verb == PUT && r.service == "uploads" then
      if b.locked then (b, Hangs)
      else
        var data := Upload(b, r.target) + q.body;
        if w.Digest(data) != q.digest then (b, Refused(400, "DIGEST_INVALID"))
        else
          var c := Committed(b, r.repo, q.digest, data);
          (c.(uploads := c.uploads - {r.target}), Created(q.digest, ""))
    else (b, Refused(400, "METHOD_UNKNOWN"))
  }

  function Grown(b: Blobs, r: Route, body: Bytes): (Blobs, Response)
    requires r.BlobRoute?
  {
    var data := Upload(b, r.target) + body;
    (b.(uploads := b.uploads[r.target := data]), Received(Location(r.session, r.target), |data| - 1))
  }

  /** A repository is complete when it has a layer list and all its digests are held. */
  predicate Complete(b: Blobs, repo: string) {
    repo in b.layers && forall d :: d in b.layers[repo] ==> d in b.contents
  }

  /** `get` on a complete repository. */
  function LayerBlobs(b: Blobs, repo: string): map<string, Bytes>
    requires Complete(b, repo)
  {
    map d | d in b.layers[repo] :: b.contents[d]
  }

  function DigestSet(ds: seq<string>): set<string> {
    set d | d in ds
  }

  /** `remove` */
  function Removed(b: Blobs, repo: string): Blobs {
    b.(contents := b.contents - DigestSet(Layers(b, repo)), layers := b.layers - {repo})
  }

  /** Whatever is not answered with success leaves no trace, and success touches its own session and digest only. */
  lemma WriteTouchesItsOwn(w: World, b: Blobs, r: Route, q: Request, id: string)
    requires r.BlobRoute?
    ensures var (b', resp) := Write(w, b, r, q, id);
            && (!resp.Created? && !resp.Received? ==> b' == b)
            && (forall jd :: jd != r.target ==>
                  Upload(b', jd) == Upload(b, jd) && (jd in b'.uploads <==> jd in b.uploads))
            && (forall d :: !(resp.Created? && d == resp.digest) ==>
                  (d in b'.contents <==> d in b.contents) && (d in b.contents ==> b'.contents[d] == b.contents[d]))
            && (forall repo :: repo != r.repo ==> Layers(b', repo) == Layers(b, repo))
  {
  }

  // ---- closure under removal ----

  /**
   * Publishing A leaves another complete repository complete exactly when the two share no digest.
   */
  lemma RemovalKeepsComplete(b: Blobs, a: string, repo: string)
    requires a != repo && Complete(b, a) && Complete(b, repo)
    ensures Complete(Removed(b, a), repo) <==> DigestSet(b.layers[a]) !! DigestSet(b.layers[repo])
  {
    if Complete(Removed(b, a), repo) {
      forall d | d in b.layers[repo]
        ensures d !in b.layers[a]
      {
        assert d in Removed(b, a).contents;
      }
    } else {
      var d :| d in b.layers[repo] && d !in Removed(b, a).contents;
      assert d in DigestSet(b.layers[a]) && d in DigestSet(b.layers[repo]);
    }
  }

  ghost predicate AllComplete(b: Blobs) {
    forall repo :: repo in b.layers ==> Complete(b, repo)
  }

  ghost predicate NoneShared(b: Blobs) {
    forall a, c :: a in b.layers && c in b.layers && a != c ==> DigestSet(b.layers[a]) !! DigestSet(b.layers[c])
  }

  /** So completeness of all repositories survives a removal from a store in which repositories share nothing. */
  lemma RemovalKeepsAllComplete(b: Blobs, a: string)
    requires AllComplete(b) && NoneShared(b)
    ensures AllComplete(Removed(b, a))
  {
    if a in b.layers {
      forall repo | repo in Removed(b, a).layers
        ensures Complete(Removed(b, a), repo)
      {
        RemovalKeepsComplete(b, a, repo);
      }
    } else {
      assert DigestSet(Layers(b, a)) == {};
    }
  }

  /** Writes never make a repository incomplete. */
  lemma WriteKeepsAllComplete(w: World, b: Blobs, r: Route, q: Request, id: string)
    requires r.BlobRoute? && AllComplete(b)
    ensures AllComplete(Write(w, b, r, q, id).0)
  {
    var c := Write(w, b, r, q, id).0;
    assert forall d :: d in b.contents ==> d in c.contents;
    forall repo | repo in c.layers
      ensures Complete(c, repo)
    {
      if repo in b.layers { assert Complete(b, repo); }
    }
  }

  // ---- content addressing ----

  ghost predicate ContentAddressed(w: World, b: Blobs) {
    forall d :: d in b.contents ==> w.Digest(b.contents[d]) == d
  }

  lemma WriteKeepsAddressing(w: World, b: Blobs, r: Route, q: Request, id: string)
    requires r.BlobRoute? && ContentAddressed(w, b)
    ensures ContentAddressed(w, Write(w, b, r, q, id).0)
  {
  }
}
