/** What the blob handler answers to every request that writes, and whole uploads from end to end. */
module Uploads {
  import opened Text
  import opened World
  import opened Routes
  import opened BlobSpec
  import opened ManifestSpec
  import opened Runs

  // ---- every answer, while the mutex is not lost ----

  lemma PutOnSession(w: World, b: Blobs, r: Route, q: Request, rand: string)
    requires r.BlobRoute? && r.service == "uploads" && q.verb == PUT && !b.locked
    ensures Write(w, b, r, q, rand).1
            == if q.digest == w.Digest(Upload(b, r.target) + q.body) then Created(q.digest, "")
               else Refused(400, "DIGEST_INVALID")
  {
    assert |w.Digest(Upload(b, r.target) + q.body)| >= 7;
  }

  lemma PatchOnSession(w: World, b: Blobs, r: Route, q: Request, rand: string)
    requires r.BlobRoute? && r.service == "uploads" && q.verb == PATCH && !b.locked
    ensures var range := w.parseRange(q.contentRange);
            var received := Received(Location(r.session, r.target), |Upload(b, r.target)| + |q.body| - 1);
            Write(w, b, r, q, rand).1
            == if q.contentRange != "" then
                 if range.Some? && range.value.0 == |Upload(b, r.target)| then received
                 else Refused(416, "BLOB_UPLOAD_UNKNOWN")
               else if r.target in b.uploads then Refused(400, "BLOB_UPLOAD_INVALID")
               else received
  {
  }

  /**
   * In every run, as long as the mutex is not lost, a session answers exactly so: a PUT commits iff its digest is
   * that of the chunks accepted so far followed by its own body, a ranged PATCH is accepted iff its range parses and
   * starts at their end, and a PATCH without a range iff there are none.
   */
  lemma SessionAnswersExactly(w: World, s: Server, run: Run, e: Event, id: string)
    requires s.blobs.uploads == map[] && OnSession(e, id) && !After(w, s, run).blobs.locked
    ensures var have := Concat(Chunks(w, s, run, id));
            var resp := Step(w, After(w, s, run), e).1;
            && (e.q.verb == PUT ==>
                  resp == if e.q.digest == w.Digest(have + e.q.body) then Created(e.q.digest, "")
                          else Refused(400, "DIGEST_INVALID"))
            && (e.q.verb == PATCH && e.q.contentRange != "" ==>
                  var range := w.parseRange(e.q.contentRange);
                  if range.Some? && range.value.0 == |have| then
                    resp.Received? && resp.rangeEnd == |have| + |e.q.body| - 1
                  else resp == Refused(416, "BLOB_UPLOAD_UNKNOWN"))
            && (e.q.verb == PATCH && e.q.contentRange == "" ==>
                  if Chunks(w, s, run, id) == [] then resp.Received? && resp.rangeEnd == |e.q.body| - 1
                  else resp == Refused(400, "BLOB_UPLOAD_INVALID"))
  {
    var prior, r := After(w, s, run), RouteOf(e.q.elem);
    UploadReassembly(w, s, run, id);
    WriteStep(w, prior, e);
    if e.q.verb == PUT {
      PutOnSession(w, prior.blobs, r, e.q, e.id);
    } else if e.q.verb == PATCH {
      PatchOnSession(w, prior.blobs, r, e.q, e.id);
    }
  }

  /** A POST that carries a digest commits iff it is that of its body, and is refused before it waits for the mutex. */
  lemma PostAnswers(w: World, s: Server, e: Event, name: seq<string>, slash: bool)
    requires name != [] && e.Http? && e.q.verb == POST && e.q.elem == Opening(name, slash) && e.q.digest != ""
    ensures var (s', resp) := Step(w, s, e);
            var repo := Join(name, '/');
            if e.q.digest != w.Digest(e.q.body) then s' == s && resp == Refused(400, "DIGEST_INVALID")
            else if s.blobs.locked then s' == s && resp == Hangs
            else
              && resp == Created(e.q.digest, "")
              && s'.blobs.contents == s.blobs.contents[e.q.digest := e.q.body]
              && s'.blobs.layers
                 == s.blobs.layers[repo := (if repo in s.blobs.layers then s.blobs.layers[repo] else []) + [e.q.digest]]
              && s'.blobs.uploads == s.blobs.uploads
              && s' == s.(blobs := s'.blobs)
  {
    RouteOfOpening(name, slash);
    WriteStep(w, s, e);
  }

  /** What no handler understands is refused and changes nothing. */
  lemma OtherVerbsRefused(w: World, s: Server, e: Event)
    requires e.Http? && (RouteOf(e.q.elem).BlobRoute? || RouteOf(e.q.elem).ManifestRoute?)
    requires e.q.verb == OTHER || (RouteOf(e.q.elem).ManifestRoute? && (e.q.verb == POST || e.q.verb == PATCH))
             || (RouteOf(e.q.elem).BlobRoute? && e.q.verb == POST && RouteOf(e.q.elem).target != "uploads")
             || (RouteOf(e.q.elem).BlobRoute? && (e.q.verb == PATCH || e.q.verb == PUT)
                 && RouteOf(e.q.elem).service != "uploads")
    ensures Step(w, s, e) == (s, Refused(400, "METHOD_UNKNOWN"))
  {
    if IsBlobWrite(e) { WriteStep(w, s, e); }
  }

  // ---- a chunked upload from end to end ----

  /** A chunk and the Content-Range it is sent with. */
  datatype Chunk = Chunk(range: string, body: Bytes)

  function Bodies(chunks: seq<Chunk>): seq<Bytes> {
    seq(|chunks|, i requires 0 <= i < |chunks| => chunks[i].body)
  }

  /** The range starts where these chunks end; a first chunk may do without. */
  predicate NextRange(w: World, chunks: seq<Chunk>, range: string) {
    if range == "" then chunks == []
    else w.parseRange(range).Some? && w.parseRange(range).value.0 == |Concat(Bodies(chunks))|
  }

  ghost predicate WellRanged(w: World, chunks: seq<Chunk>) {
    forall i :: 0 <= i < |chunks| ==> NextRange(w, chunks[..i], chunks[i].range)
  }

  function Patch(path: seq<string>, c: Chunk): Event {
    Http(Request(PATCH, path, "", c.range, "", c.body), "", SendFailed)
  }

  function Patches(path: seq<string>, chunks: seq<Chunk>): Run {
    seq(|chunks|, i requires 0 <= i < |chunks| => Patch(path, chunks[i]))
  }

  function Finish(path: seq<string>, digest: string, body: Bytes): Event {
    Http(Request(PUT, path, digest, "", "", body), "", SendFailed)
  }

  lemma BodiesSnoc(chunks: seq<Chunk>, c: Chunk)
    ensures Concat(Bodies(chunks + [c])) == Concat(Bodies(chunks)) + c.body
  {
    assert Bodies(chunks + [c]) == Bodies(chunks) + [c.body];
    assert (Bodies(chunks) + [c.body])[..|chunks|] == Bodies(chunks);
  }

  lemma PatchesSnoc(path: seq<string>, chunks: seq<Chunk>, c: Chunk)
    ensures Patches(path, chunks + [c]) == Patches(path, chunks) + [Patch(path, c)]
  {
  }

  /** The path leads to the session `id` of the repository. */
  predicate LeadsTo(path: seq<string>, name: seq<string>, id: string) {
    var r := RouteOf(path);
    r.BlobRoute? && r.repo == Join(name, '/') && r.service == "uploads" && r.target == id && r.session == name
  }

  /** The session holds these chunks, and nothing else of the server has changed. */
  ghost predicate Holding(s: Server, s': Server, id: string, chunks: seq<Chunk>) {
    && s' == s.(blobs := s.blobs.(uploads := s'.blobs.uploads))
    && s'.blobs.uploads == if chunks == [] then s.blobs.uploads else s.blobs.uploads[id := Concat(Bodies(chunks))]
  }

  lemma PatchAccepted(w: World, s: Server, s': Server, path: seq<string>, name: seq<string>, id: string,
                      chunks: seq<Chunk>, c: Chunk)
    requires LeadsTo(path, name, id) && !s.blobs.locked && id !in s.blobs.uploads
    requires Holding(s, s', id, chunks)
    requires NextRange(w, chunks, c.range)
    ensures var (t, resp) := Step(w, s', Patch(path, c));
            && Holding(s, t, id, chunks + [c])
            && resp == Received(Location(name, id), |Concat(Bodies(chunks + [c]))| - 1)
  {
    var e := Patch(path, c);
    WriteStep(w, s', e);
    assert Upload(s'.blobs, id) == Concat(Bodies(chunks)) by { assert Concat(Bodies([])) == []; }
    GrowthOnSession(w, s'.blobs, RouteOf(e.q.elem), e.q, e.id);
    BodiesSnoc(chunks, c);
    var data := Concat(Bodies(chunks + [c]));
    assert s'.blobs.uploads[id := data] == s.blobs.uploads[id := data];
  }

  lemma GrowthOnSession(w: World, b: Blobs, r: Route, q: Request, rand: string)
    requires r.BlobRoute? && r.service == "uploads" && q.verb == PATCH && !b.locked
    requires if q.contentRange == "" then r.target !in b.uploads
             else w.parseRange(q.contentRange).Some? && w.parseRange(q.contentRange).value.0 == |Upload(b, r.target)|
    ensures var data := Upload(b, r.target) + q.body;
            Write(w, b, r, q, rand)
            == (b.(uploads := b.uploads[r.target := data]), Received(Location(r.session, r.target), |data| - 1))
  {
  }

  lemma WellRangedPrefix(w: World, chunks: seq<Chunk>, n: nat)
    requires WellRanged(w, chunks) && n <= |chunks|
    ensures WellRanged(w, chunks[..n])
  {
    assert forall i :: 0 <= i < n ==> chunks[..n][..i] == chunks[..i];
  }

  lemma {:induction false} PatchesHeld(w: World, s: Server, path: seq<string>, name: seq<string>, id: string,
                                       chunks: seq<Chunk>)
    requires LeadsTo(path, name, id) && !s.blobs.locked && id !in s.blobs.uploads
    requires WellRanged(w, chunks)
    ensures Holding(s, After(w, s, Patches(path, chunks)), id, chunks)
    decreases |chunks|
  {
    if chunks == [] {
      assert Patches(path, chunks) == [];
    } else {
      var init, c := chunks[..|chunks| - 1], chunks[|chunks| - 1];
      assert chunks == init + [c];
      WellRangedPrefix(w, chunks, |init|);
      PatchesHeld(w, s, path, name, id, init);
      PatchAccepted(w, s, After(w, s, Patches(path, init)), path, name, id, init, c);
      PatchesSnoc(path, init, c);
    }
  }

  lemma PatchesPrefix(path: seq<string>, chunks: seq<Chunk>, n: nat)
    requires n < |chunks|
    ensures Patches(path, chunks)[..n] == Patches(path, chunks[..n])
    ensures Patches(path, chunks)[n] == Patch(path, chunks[n])
  {
  }

  lemma NextIsRanged(w: World, chunks: seq<Chunk>, n: nat)
    requires WellRanged(w, chunks) && n < |chunks|
    ensures NextRange(w, chunks[..n], chunks[n].range)
    ensures chunks[..n + 1] == chunks[..n] + [chunks[n]]
  {
  }

  lemma PatchesAccepted(w: World, s: Server, path: seq<string>, name: seq<string>, id: string, chunks: seq<Chunk>,
                        n: nat)
    requires LeadsTo(path, name, id) && !s.blobs.locked && id !in s.blobs.uploads
    requires WellRanged(w, chunks) && n < |chunks|
    ensures Answer(w, s, Patches(path, chunks), n)
            == Received(Location(name, id), |Concat(Bodies(chunks[..n + 1]))| - 1)
  {
    WellRangedPrefix(w, chunks, n);
    NextIsRanged(w, chunks, n);
    PatchesHeld(w, s, path, name, id, chunks[..n]);
    var prior := After(w, s, Patches(path, chunks[..n]));
    assert Answer(w, s, Patches(path, chunks), n) == Step(w, prior, Patch(path, chunks[n])).1 by {
      PatchesPrefix(path, chunks, n);
    }
    PatchAccepted(w, s, prior, path, name, id, chunks[..n], chunks[n]);
  }

  /**
   * A chunked upload works. Whatever the split of some bytes into chunks and a final body, an opening POST, the
   * PATCHes and the PUT, each sent to the location that the POST was answered with, are all accepted; the bytes end up
   * under their digest and in the layer list of the repository, and nothing else of the server changes.
   */
  lemma ChunkedUploadCommits(w: World, s: Server, post: Event, name: seq<string>, slash: bool, chunks: seq<Chunk>,
                             last: Bytes)
    requires CleanName(name) && !s.blobs.locked && WellRanged(w, chunks)
    requires post.Http? && post.q.verb == POST && post.q.elem == Opening(name, slash) && post.q.digest == ""
    requires Plain(post.id) && Free(post.id, '/') && post.id !in s.blobs.uploads
    ensures Step(w, s, post).0 == s && Step(w, s, post).1.Started?
    ensures var path := Follow(Step(w, s, post).1.location);
            var patches := Patches(path, chunks);
            var data := Concat(Bodies(chunks)) + last;
            var d, repo := w.Digest(data), Join(name, '/');
            && (forall n :: 0 <= n < |chunks| ==> Answer(w, s, patches, n).Received?)
            && var (s', resp) := Step(w, After(w, s, patches), Finish(path, d, last));
               && resp == Created(d, "")
               && s'.blobs.contents == s.blobs.contents[d := data]
               && s'.blobs.layers
                  == s.blobs.layers[repo := (if repo in s.blobs.layers then s.blobs.layers[repo] else []) + [d]]
               && s'.blobs.uploads == s.blobs.uploads
               && s' == s.(blobs := s'.blobs)
  {
    LocationsLeadBack(w, s, post, s, post, name, slash);
    OpeningAnswer(w, s, post, name, slash);
    FollowLocation(name, post.id);
    RouteOfSession(name, post.id);
    var path := Session(name, post.id);
    PatchesHeld(w, s, path, name, post.id, chunks);
    forall n | 0 <= n < |chunks|
      ensures Answer(w, s, Patches(path, chunks), n).Received?
    {
      PatchesAccepted(w, s, path, name, post.id, chunks, n);
    }
    FinishCommits(w, s, After(w, s, Patches(path, chunks)), path, name, post.id, chunks, last);
  }

  lemma OpeningAnswer(w: World, s: Server, post: Event, name: seq<string>, slash: bool)
    requires name != [] && post.Http? && post.q.verb == POST && post.q.elem == Opening(name, slash)
    requires post.q.digest == ""
    ensures Step(w, s, post) == (s, Started(Location(name, post.id)))
  {
    RouteOfOpening(name, slash);
    WriteStep(w, s, post);
  }

  lemma FinishCommits(w: World, s: Server, s': Server, path: seq<string>, name: seq<string>, id: string,
                      chunks: seq<Chunk>, last: Bytes)
    requires LeadsTo(path, name, id) && !s.blobs.locked && id !in s.blobs.uploads
    requires Holding(s, s', id, chunks)
    ensures var data := Concat(Bodies(chunks)) + last;
            var d, repo := w.Digest(data), Join(name, '/');
            var (t, resp) := Step(w, s', Finish(path, d, last));
            && resp == Created(d, "")
            && t.blobs.contents == s.blobs.contents[d := data]
            && t.blobs.layers
               == s.blobs.layers[repo := (if repo in s.blobs.layers then s.blobs.layers[repo] else []) + [d]]
            && t.blobs.uploads == s.blobs.uploads
            && t == s.(blobs := t.blobs)
  {
    var data := Concat(Bodies(chunks)) + last;
    var e := Finish(path, w.Digest(data), last);
    WriteStep(w, s', e);
    assert Upload(s'.blobs, id) == Concat(Bodies(chunks)) by { assert Concat(Bodies([])) == []; }
    CommitOnSession(w, s'.blobs, RouteOf(e.q.elem), e.q, e.id);
    assert s'.blobs.uploads - {id} == s.blobs.uploads;
  }

  lemma CommitOnSession(w: World, b: Blobs, r: Route, q: Request, rand: string)
    requires r.BlobRoute? && r.service == "uploads" && q.verb == PUT && !b.locked
    requires q.digest == w.Digest(Upload(b, r.target) + q.body)
    ensures var layers := (if r.repo in b.layers then b.layers[r.repo] else []) + [q.digest];
            Write(w, b, r, q, rand)
            == (Blobs(b.contents[q.digest := Upload(b, r.target) + q.body], b.uploads - {r.target},
                      b.layers[r.repo := layers], b.locked),
                Created(q.digest, ""))
  {
    PutOnSession(w, b, r, q, rand);
  }
}
