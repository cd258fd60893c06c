/** The manifest handler and the lookup of content ids (manifest.go, registry.go) as functions on the server's state. */
module ManifestSpec {
  import opened Text
  import opened World
  import opened Routes
  import opened CidStore
  import opened BlobSpec
  import HashNames

  datatype Manifest = Manifest(contentType: string, blob: Bytes, digest: string)

  /** What a cid stands for: a directory of manifests and a directory of blobs. */
  datatype Image = Image(manifests: map<string, Bytes>, blobs: map<string, Bytes>)

  /**
   * The state of the whole server and of the store behind it. `stuck` says that a request died
   * with the manifest mutex held, waiting for the blob mutex.
   */
  datatype Server = Server(
    blobs: Blobs,
    index: Index,
    manifests: map<string, map<string, Manifest>>,
    stuck: bool,
    ipfs: map<string, Image>)

  /** How a call to `AddImage` ends; a failure to send comes back as an empty cid without an error. */
  datatype AddResult = Published(cid: string) | SendFailed | AddFailed

  // ---- registry.go ----

  /** The cid that a repository name itself stands for, in either spelling; empty if it is none. */
  function NameCid(w: World, repo: string): string {
    if w.toB32(repo) != "" then w.toB32(repo)
    else
      var hash := HashNames.IpfsifyHash(repo);
      if hash != "" then w.toB32(hash) else ""
  }

  function Resolve(w: World, x: Index, repo: string, reference: string): seq<string> {
    match Lookup(w.location, x, repo, reference)
    case Some(cid) => [cid]
    case None => if NameCid(w, repo) != "" then [NameCid(w, repo)] else w.resolver(repo, reference)
  }

  function ResolveCid(w: World, x: Index, repo: string, reference: string): Option<string> {
    var list := Resolve(w, x, repo, if reference == "" then "latest" else reference);
    if |list| > 0 then Some(list[0]) else None
  }

  // ---- the gateway ----

  function CatManifest(ipfs: map<string, Image>, cid: string, target: string): Option<Bytes> {
    if cid in ipfs && target in ipfs[cid].manifests then Some(ipfs[cid].manifests[target]) else None
  }

  function CatBlob(ipfs: map<string, Image>, cid: string, target: string): Option<Bytes> {
    if cid in ipfs && target in ipfs[cid].blobs then Some(ipfs[cid].blobs[target]) else None
  }

  function GetManifest(w: World, ipfs: map<string, Image>, cid: string, target: string): Option<Manifest> {
    match CatManifest(ipfs, cid, target)
    case None => None
    case Some(b) =>
      match w.decode(b)
      case None => None
      case Some(decoded) => Some(Manifest(decoded.mediaType, b, w.Digest(b)))
  }

  // ---- manifest.go ----

  function Cache(s: Server, repo: string): map<string, Manifest> {
    if repo in s.manifests then s.manifests[repo] else map[]
  }

  function Cached(s: Server, repo: string, target: string, digest: string, mf: Manifest): Server {
    s.(manifests := s.manifests[repo := Cache(s, repo)[target := mf][digest := mf]])
  }

  function AddCid(w: World, s: Server, repo: string, reference: string, cid: string): Server {
    s.(index := Added(w.location, s.index, repo, reference, cid))
  }

  function AddCids(w: World, s: Server, repo: string, digests: seq<string>, cid: string): Server {
    if digests == [] then s
    else AddCid(w, AddCids(w, s, repo, digests[..|digests| - 1], cid), repo, digests[|digests| - 1], cid)
  }

  /** The repository's cache comes into being with the first request for it. */
  function Opened(s: Server, repo: string): Server {
    s.(manifests := s.manifests[repo := Cache(s, repo)])
  }

  /** Fetching what is not cached. */
  function FetchRemote(w: World, s: Server, repo: string, target: string): (Server, Option<Manifest>) {
    match ResolveCid(w, s.index, repo, target)
    case None => (s, None)
    case Some(cid) =>
      match GetManifest(w, s.ipfs, cid, target)
      case None => (s, None)
      case Some(mf) => (AddCid(w, Cached(s, repo, target, mf.digest, mf), repo, mf.digest, cid), Some(mf))
  }

  function Fetch(w: World, s: Server, repo: string, target: string): (Server, Option<Manifest>) {
    if target in Cache(s, repo) then (s, Some(Cache(s, repo)[target]))
    else FetchRemote(w, Opened(s, repo), repo, target)
  }

  function Get(w: World, s: Server, repo: string, target: string): (Server, Response) {
    if s.stuck then (s, Hangs)
    else
      var (s', mf) := Fetch(w, s, repo, target);
      if mf.None? then (s', Refused(404, "MANIFEST_UNKNOWN"))
      else
        match ResolveCid(w, s'.index, repo, target)
        case None => (s', Refused(404, "MANIFEST_UNKNOWN"))
        case Some(cid) =>
          match w.Digests(mf.value.blob)
          case None => (s', Panicked)
          case Some(ds) =>
            (AddCids(w, s', repo, ds, cid),
             Found(mf.value.digest, cid, mf.value.contentType, mf.value.blob))
  }

  function Head(w: World, s: Server, repo: string, target: string): (Server, Response) {
    if s.stuck then (s, Hangs)
    else
      var (s', mf) := Fetch(w, s, repo, target);
      if mf.None? then (s', Refused(404, "MANIFEST_UNKNOWN"))
      else (s', FoundHead(mf.value.digest, mf.value.contentType, |mf.value.blob|))
  }

  /** The check of an index: it parses and all its children are cached. */
  predicate IndexPasses(w: World, cache: map<string, Manifest>, contentType: string, body: Bytes) {
    IsIndexType(contentType) ==>
      w.children(body).Some? && forall d :: d in w.children(body).value ==> d in cache
  }

  /** The image that a PUT publishes. */
  function ImageOf(w: World, target: string, body: Bytes, layers: map<string, Bytes>): Image {
    Image(map[target := body][w.Digest(body) := body]["latest" := body], layers)
  }

  function Put(w: World, s: Server, repo: string, target: string, contentType: string, body: Bytes,
               added: AddResult): (Server, Response) {
    if s.stuck then (s, Hangs)
    else if !IndexPasses(w, Cache(s, repo), contentType, body) then
      (Opened(s, repo), Refused(404, "MANIFEST_UNKNOWN"))
    else
      PutLayers(w, Cached(s, repo, target, w.Digest(body), Manifest(contentType, body, "")), repo, target, body, added)
  }

  /** The middle of a PUT, after the cache insertion: the layers are taken out of the blob store. */
  function PutLayers(w: World, s: Server, repo: string, target: string, body: Bytes,
                     added: AddResult): (Server, Response) {
    if s.blobs.locked then (s.(stuck := true), Hangs)
    else if !Complete(s.blobs, repo) then
      (s.(blobs := s.blobs.(locked := true)), Refused(404, "MANIFEST_BLOB_UNKNOWN"))
    else
      Publish(w, s.(blobs := Removed(s.blobs, repo)), repo, target, w.Digest(body),
              ImageOf(w, target, body, LayerBlobs(s.blobs, repo)), added)
  }

  /** The end of a PUT: `AddImage`, then the index entries. */
  function Publish(w: World, s: Server, repo: string, target: string, digest: string, image: Image,
                   added: AddResult): (Server, Response) {
    if added.AddFailed? || added == Published("") then (s, Refused(500, ""))
    else
      var cid := if added.Published? then added.cid else "";
      var s1 := if added.Published? then s.(ipfs := s.ipfs[cid := image]) else s;
      (AddCid(w, AddCid(w, AddCid(w, s1, repo, target, cid), repo, digest, cid), cid, "latest", cid),
       Created(digest, cid))
  }

  // ---- blobs on the read side ----

  /** A blob found on IPFS is asked for with HEAD, so the body whose length is reported is empty. */
  function HeadBlob(w: World, s: Server, repo: string, target: string): Response {
    if s.blobs.locked then Hangs
    else if target in s.blobs.contents then FoundHead(target, "", |s.blobs.contents[target]|)
    else if GetBlob(w, s, repo, target).Found? then FoundHead(target, "", 0)
    else Refused(404, "BLOB_UNKNOWN")
  }

  function GetBlob(w: World, s: Server, repo: string, target: string): Response {
    match ResolveCid(w, s.index, repo, target)
    case None => Refused(404, "BLOB_UNKNOWN")
    case Some(cid) =>
      match CatBlob(s.ipfs, cid, target)
      case None => Refused(404, "BLOB_UNKNOWN")
      case Some(body) => Found(target, "", "", body)
  }

  // ---- one request ----

  /** `id` is the random session number a POST would issue, `added` the outcome of an `AddImage`. */
  function Serve(w: World, s: Server, q: Request, id: string, added: AddResult): (Server, Response) {
    var route := RouteOf(q.elem);
    match route
    case BlobRoute(repo, _, target, _, _) =>
      if q.verb == HEAD then (s, HeadBlob(w, s, repo, target))
      else if q.verb == GET then (s, GetBlob(w, s, repo, target))
      else
        var (blobs, resp) := Write(w, s.blobs, route, q, id);
        (s.(blobs := blobs), resp)
    case NameInvalid => (s, Refused(400, "NAME_INVALID"))
    case ManifestRoute(repo, target) =>
      if q.verb == GET then Get(w, s, repo, target)
      else if q.verb == HEAD then Head(w, s, repo, target)
      else if q.verb == PUT then Put(w, s, repo, target, q.contentType, q.body, added)
      else (s, Refused(400, "METHOD_UNKNOWN"))
    case BaseRoute => (s, Welcome)
    case Unknown => (s, Refused(404, "METHOD_UNKNOWN"))
  }
}
