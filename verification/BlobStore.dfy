/**
 * The blob handler of blobs.go over Go slices: byte buffers grow in place into the spare capacity of their
 * backing arrays, which entries of the two maps must therefore not share.
 */
module BlobStore {
  import opened Text
  import opened World
  import opened Routes
  import opened BlobSpec

  /** A slice that starts at the beginning of its backing array; the capacity is the array's length. */
  datatype Slice = Nil | Slice(data: array<byte>, len: nat)

  ghost predicate InBounds(s: Slice) {
    s.Slice? ==> s.len <= s.data.Length
  }

  function View(s: Slice): Bytes
    requires InBounds(s)
    reads if s.Slice? then {s.data} else {}
  {
    if s.Nil? then [] else s.data[..s.len]
  }

  predicate Apart(s: Slice, t: Slice) {
    s.Slice? && t.Slice? ==> s.data != t.data
  }

  /** The smallest spare capacity `bytes.Buffer.ReadFrom` reads into. */
  const MIN_READ := 512

  /**
   * `bytes.NewBuffer(s)` followed by `io.Copy` from a body that arrives in chunks of the sizes it likes:
   * the buffer is moved to a larger array only when its spare capacity runs low, and is otherwise written in place.
   */
  method ReadInto(s: Slice, body: Bytes) returns (r: Slice)
    requires InBounds(s)
    modifies if s.Slice? then {s.data} else {}
    ensures r.Slice? && InBounds(r)
    ensures fresh(r.data) || (s.Slice? && r.data == s.data)
    ensures View(r) == old(View(s)) + body
    ensures View(s) == old(View(s))
  {
    var buf, len := Backed(s);
    ghost var view := View(s);
    var rest := body;
    while true
      invariant 0 <= len <= buf.Length
      invariant fresh(buf) || (s.Slice? && buf == s.data && s.len <= len)
      invariant buf[..len] + rest == view + body
      invariant View(s) == view
      decreases |rest|
    {
      if buf.Length - len < MIN_READ {
        buf := Moved(buf, len);
      }
      if rest == [] {
        break;
      }
      var m :| 1 <= m <= |rest| && m <= buf.Length - len;
      AppendInPlace(buf, len, rest[..m]);
      len, rest := len + m, rest[m..];
    }
    r := Slice(buf, len);
  }

  /** The array to read into: the slice's own, or a new one for the nil slice. */
  method Backed(s: Slice) returns (buf: array<byte>, len: nat)
    requires InBounds(s)
    ensures len <= buf.Length && buf[..len] == View(s)
    ensures if s.Slice? then buf == s.data && len == s.len else fresh(buf)
  {
    if s.Slice? {
      buf, len := s.data, s.len;
    } else {
      buf, len := new byte[MIN_READ](_ => 0), 0;
    }
  }

  method AppendInPlace(buf: array<byte>, len: nat, chunk: Bytes)
    requires len + |chunk| <= buf.Length
    modifies buf
    ensures buf[..len + |chunk|] == old(buf[..len]) + chunk
    ensures forall n :: 0 <= n <= len ==> buf[..n] == old(buf[..n])
  {
    forall i | 0 <= i < |chunk| {
      buf[len + i] := chunk[i];
    }
  }

  method Moved(buf: array<byte>, len: nat) returns (larger: array<byte>)
    requires len <= buf.Length
    ensures fresh(larger) && larger.Length == 2 * buf.Length + MIN_READ
    ensures larger[..len] == buf[..len]
  {
    larger := new byte[2 * buf.Length + MIN_READ](_ => 0);
    forall i | 0 <= i < len {
      larger[i] := buf[i];
    }
  }

  // ---- maps of slices ----

  ghost function ArraysOf(m: map<string, Slice>): set<array<byte>> {
    set k | k in m && m[k].Slice? :: m[k].data
  }

  ghost predicate AllInBounds(m: map<string, Slice>) {
    forall k :: k in m ==> InBounds(m[k])
  }

  /** Different keys own different arrays. */
  ghost predicate AllApart(m: map<string, Slice>) {
    forall k, j :: k in m && j in m && k != j ==> Apart(m[k], m[j])
  }

  function Views(m: map<string, Slice>): map<string, Bytes>
    requires AllInBounds(m)
    reads ArraysOf(m)
  {
    map k | k in m :: View(m[k])
  }

  lemma OwnsArray(m: map<string, Slice>, k: string)
    requires k in m
    ensures Backing(m[k]) <= ArraysOf(m)
    ensures AllApart(m) ==> Backing(m[k]) !! ArraysOf(m - {k})
  {
  }

  lemma ViewsAfterUpdate(m: map<string, Slice>, id: string, l: Slice)
    requires AllInBounds(m) && InBounds(l) && AllApart(m)
    requires ArraysOf(m - {id}) !! Backing(l)
    ensures AllInBounds(m[id := l]) && AllApart(m[id := l])
    ensures Views(m[id := l]) == Views(m)[id := View(l)]
    ensures ArraysOf(m[id := l]) <= ArraysOf(m) + Backing(l)
  {
    forall k | k in m && k != id
      ensures Apart(m[k], l)
    {
      OwnsArray(m - {id}, k);
    }
  }

  lemma ViewsAfterDrop(m: map<string, Slice>, keys: set<string>)
    requires AllInBounds(m) && AllApart(m)
    ensures AllInBounds(m - keys) && AllApart(m - keys)
    ensures Views(m - keys) == Views(m) - keys
    ensures ArraysOf(m - keys) <= ArraysOf(m)
  {
  }

  class Store {
    var contents: map<string, Slice>
    var uploads: map<string, Slice>
    var layers: map<string, seq<string>>
    var locked: bool

    ghost function Arrays(): set<array<byte>>
      reads this
    {
      ArraysOf(contents) + ArraysOf(uploads)
    }

    /** Every slice is in bounds, and live entries own disjoint backing arrays. */
    ghost predicate Valid()
      reads this
    {
      && AllInBounds(contents) && AllInBounds(uploads)
      && AllApart(contents) && AllApart(uploads)
      && ArraysOf(contents) !! ArraysOf(uploads)
    }

    ghost function Value(): Blobs
      requires Valid()
      reads this, Arrays()
    {
      Blobs(Views(contents), Views(uploads), layers, locked)
    }

    constructor ()
      ensures Valid() && Arrays() == {}
      ensures Value() == Blobs(map[], map[], map[], false)
    {
      contents, uploads, layers, locked := map[], map[], map[], false;
    }

    /**
     * The bytes of a session followed by a body. The write may land in the spare capacity of the session's
     * own array, but nothing that is stored changes.
     */
    method Extended(id: string, body: Bytes) returns (l: Slice)
      requires Valid()
      modifies Arrays()
      ensures Valid() && Value() == old(Value())
      ensures l.Slice? && InBounds(l) && View(l) == Upload(Value(), id) + body
      ensures ArraysOf(contents) !! Backing(l) && ArraysOf(uploads - {id}) !! Backing(l)
      ensures l.data in Arrays() || fresh(l.data)
    {
      var s := if id in uploads then uploads[id] else Nil;
      if id in uploads { OwnsArray(uploads, id); }
      l := ReadInto(s, body);
      assert Views(contents) == old(Views(contents));
      assert Views(uploads) == old(Views(uploads));
    }

    /** The session continues with these bytes. */
    method Keep(id: string, l: Slice)
      requires Valid() && InBounds(l) && ArraysOf(contents) !! Backing(l) && ArraysOf(uploads - {id}) !! Backing(l)
      modifies this`uploads
      ensures Valid() && Arrays() <= old(Arrays()) + Backing(l)
      ensures Value() == old(Value()).(uploads := old(Value()).uploads[id := View(l)])
    {
      ViewsAfterUpdate(uploads, id, l);
      uploads := uploads[id := l];
    }

    /** The end of both ways to commit: the blob and its digest are recorded. */
    method Record(repo: string, d: string, l: Slice)
      requires Valid() && InBounds(l)
      requires ArraysOf(contents) !! Backing(l) && ArraysOf(uploads) !! Backing(l)
      modifies this`contents, this`layers
      ensures Valid() && Arrays() <= old(Arrays()) + Backing(l)
      ensures Value() == Committed(old(Value()), repo, d, View(l))
    {
      ViewsAfterDrop(contents, {d});
      ViewsAfterUpdate(contents, d, l);
      contents := contents[d := l];
      var digests := if repo in layers then layers[repo] else [];
      layers := layers[repo := digests + [d]];
    }

    /** A blob is committed from a session, which ends, or from the body of a monolithic POST alone. */
    method Commit(repo: string, d: string, l: Slice, session: Option<string>)
      requires Valid() && InBounds(l) && ArraysOf(contents) !! Backing(l)
      requires ArraysOf(if session.Some? then uploads - {session.value} else uploads) !! Backing(l)
      modifies this
      ensures Valid() && Arrays() <= old(Arrays()) + Backing(l)
      ensures var c := Committed(old(Value()), repo, d, View(l));
              Value() == if session.Some? then c.(uploads := c.uploads - {session.value}) else c
    {
      if session.Some? {
        ViewsAfterDrop(uploads, {session.value});
        uploads := uploads - {session.value};
      }
      Record(repo, d, l);
    }

    /** POST, PATCH and PUT of `blobs.handle`. */
    method Handle(w: World, r: Route, q: Request, id: string) returns (resp: Response)
      requires Valid() && r.BlobRoute?
      modifies this, Arrays()
      ensures Valid() && fresh(Arrays() - old(Arrays()))
      ensures (Value(), resp) == Write(w, old(Value()), r, q, id)
    {
      if q.verb == POST && r.target == "uploads" && q.digest != "" {
        resp := PostBlob(w, r, q);
      } else if q.verb == POST && r.target == "uploads" && q.digest == "" {
        resp := Started(Location(r.opening, id));
      } else if q.verb == PATCH && r.service == "uploads" && q.contentRange != "" {
        resp := PatchRange(w, r, q);
      } else if q.verb == PATCH && r.service == "uploads" && q.contentRange == "" {
        if locked {
          resp := Hangs;
        } else if r.target in uploads {
          resp := Refused(400, "BLOB_UPLOAD_INVALID");
        } else {
          resp := PatchUpload(r, q.body);
        }
      } else if q.verb == PUT && r.service == "uploads" && q.digest == "" {
        resp := Refused(400, "DIGEST_INVALID");
      } else if q.verb == PUT && r.service == "uploads" && q.digest != "" {
        resp := PutUpload(w, r, q);
      } else {
        resp := Refused(400, "METHOD_UNKNOWN");
      }
    }

    method PatchUpload(r: Route, body: Bytes) returns (resp: Response)
      requires Valid() && r.BlobRoute?
      modifies this, Arrays()
      ensures Valid() && fresh(Arrays() - old(Arrays()))
      ensures (Value(), resp) == Grown(old(Value()), r, body)
    {
      var l := Extended(r.target, body);
      assert Value() == old(Value());
      Keep(r.target, l);
      assert Value() == Grown(old(Value()), r, body).0;
      resp := Received(Location(r.session, r.target), l.len - 1);
    }

    method PatchRange(w: World, r: Route, q: Request) returns (resp: Response)
      requires Valid() && r.BlobRoute?
      requires q.verb == PATCH && r.service == "uploads" && q.contentRange != ""
      modifies this, Arrays()
      ensures Valid() && fresh(Arrays() - old(Arrays()))
      ensures (Value(), resp) == Write(w, old(Value()), r, q, "")
    {
      var range := w.parseRange(q.contentRange);
      if range.None? {
        return Refused(416, "BLOB_UPLOAD_UNKNOWN");
      }
      if locked {
        return Hangs;
      }
      var have := if r.target in uploads && uploads[r.target].Slice? then uploads[r.target].len else 0;
      if range.value.0 != have {
        return Refused(416, "BLOB_UPLOAD_UNKNOWN");
      }
      resp := PatchUpload(r, q.body);
    }

    method PostBlob(w: World, r: Route, q: Request) returns (resp: Response)
      requires Valid() && r.BlobRoute?
      requires q.verb == POST && r.target == "uploads" && q.digest != ""
      modifies this, Arrays()
      ensures Valid() && fresh(Arrays() - old(Arrays()))
      ensures (Value(), resp) == Write(w, old(Value()), r, q, "")
    {
      var l := ReadInto(Nil, q.body);
      assert [] + q.body == q.body;
      if w.Digest(l.data[..l.len]) != q.digest {
        return Refused(400, "DIGEST_INVALID");
      }
      if locked {
        return Hangs;
      }
      Commit(r.repo, q.digest, l, None);
      resp := Created(q.digest, "");
    }

    method PutUpload(w: World, r: Route, q: Request) returns (resp: Response)
      requires Valid() && r.BlobRoute?
      requires q.verb == PUT && r.service == "uploads" && q.digest != ""
      modifies this, Arrays()
      ensures Valid() && fresh(Arrays() - old(Arrays()))
      ensures (Value(), resp) == Write(w, old(Value()), r, q, "")
    {
      if locked {
        return Hangs;
      }
      var l := Extended(r.target, q.body);
      if w.Digest(l.data[..l.len]) != q.digest {
        return Refused(400, "DIGEST_INVALID");
      }
      Commit(r.repo, q.digest, l, Some(r.target));
      resp := Created(q.digest, "");
    }

    /** `get`: the slices of a repository's layers; it fails with the mutex still held. */
    method Get(repo: string) returns (found: map<string, Slice>, ok: bool)
      requires Valid() && !locked
      modifies this`locked
      ensures Valid() && ok == Complete(old(Value()), repo)
      ensures Value() == old(Value()).(locked := !ok)
      ensures ok ==> AllInBounds(found) && Views(found) == LayerBlobs(Value(), repo) && ArraysOf(found) <= Arrays()
    {
      locked := true;
      found := map[];
      if repo !in layers {
        return found, false;
      }
      var digests := layers[repo];
      for i := 0 to |digests|
        invariant forall d :: d in found <==> d in digests[..i]
        invariant forall d :: d in digests[..i] ==> d in contents && found[d] == contents[d]
      {
        var d := digests[i];
        if d !in contents {
          return found, false;
        }
        found := found[d := contents[d]];
      }
      assert digests[..|digests|] == digests;
      locked := false;
      ok := true;
    }

    /** `remove`: its early return, too, keeps the mutex. */
    method Remove(repo: string)
      requires Valid() && !locked
      modifies this`contents, this`layers, this`locked
      ensures Valid() && Arrays() <= old(Arrays())
      ensures Value() == Removed(old(Value()), repo).(locked := repo !in old(layers))
    {
      locked := true;
      if repo !in layers {
        assert Removed(Value(), repo) == Value();
        return;
      }
      var digests := layers[repo];
      ViewsAfterDrop(contents, DigestSet(digests));
      layers := layers - {repo};
      DeleteAll(digests);
      locked := false;
      assert Layers(old(Value()), repo) == digests;
    }

    method DeleteAll(digests: seq<string>)
      modifies this`contents
      ensures contents == old(contents) - DigestSet(digests)
    {
      for i := 0 to |digests|
        invariant contents == old(contents) - DigestSet(digests[..i])
      {
        contents := contents - {digests[i]};
        assert digests[..i + 1] == digests[..i] + [digests[i]];
      }
      assert digests[..|digests|] == digests;
    }
  }

  ghost function Backing(l: Slice): set<array<byte>> {
    if l.Slice? then {l.data} else {}
  }
}
