/** The registry server as an object: both handlers, the index and the published images (registry.go, manifest.go). */
module Registry {
  import opened Text
  import opened World
  import opened Routes
  import opened ManifestSpec
  import HashNames
  import BlobSpec
  import BlobStore
  import CidStore

  class Registry {
    const world: World
    const blobs: BlobStore.Store
    const cids: CidStore.Store
    var manifests: map<string, map<string, Manifest>>
    var stuck: bool
    var ipfs: map<string, Image>

    ghost predicate Valid()
      reads this, blobs
    {
      blobs.Valid() && cids.location == world.location
    }

    ghost function Value(): Server
      requires Valid()
      reads this, blobs, blobs.Arrays(), cids
    {
      Server(blobs.Value(), cids.Value(), manifests, stuck, ipfs)
    }

    /** `New`, over a disk and published images that already exist. */
    constructor (world: World, disk: CidStore.Disk, ipfs: map<string, Image>)
      ensures Valid() && fresh(blobs) && fresh(cids) && blobs.Arrays() == {}
      ensures Value()
              == Server(BlobSpec.Blobs(map[], map[], map[], false), CidStore.Index(map[], disk), map[], false, ipfs)
    {
      this.world := world;
      this.blobs := new BlobStore.Store();
      this.cids := new CidStore.Store(world.location, disk);
      this.manifests := map[];
      this.stuck := false;
      this.ipfs := ipfs;
    }

    // ---- lookup ----

    method Resolve(repo: string, reference: string) returns (list: seq<string>)
      requires Valid()
      ensures list == ManifestSpec.Resolve(world, cids.Value(), repo, reference)
    {
      var cid, ok := cids.Get(repo, reference);
      if ok {
        return [cid];
      }
      var name := world.toB32(repo);
      if name != "" {
        return [name];
      }
      var hash := HashNames.IpfsifyHash(repo);
      if hash != "" {
        name := world.toB32(hash);
        if name != "" {
          return [name];
        }
      }
      list := world.resolver(repo, reference);
    }

    method ResolveCID(repo: string, reference: string) returns (cid: Option<string>)
      requires Valid()
      ensures cid == ResolveCid(world, cids.Value(), repo, reference)
    {
      var r := if reference == "" then "latest" else reference;
      var list := Resolve(repo, r);
      cid := if |list| > 0 then Some(list[0]) else None;
    }

    method Note(repo: string, reference: string, cid: string)
      requires Valid()
      modifies cids
      ensures Valid() && Value() == AddCid(world, old(Value()), repo, reference, cid)
    {
      cids.Add(repo, reference, cid);
    }

    // ---- manifests ----

    method OpenCache(repo: string)
      requires Valid()
      modifies this`manifests
      ensures Valid() && Value() == Opened(old(Value()), repo) && repo in manifests
      ensures repo in old(manifests) ==> manifests == old(manifests)
    {
      if repo !in manifests {
        manifests := manifests[repo := map[]];
      }
      assert manifests == old(manifests)[repo := Cache(old(Value()), repo)];
    }

    method Fetch(repo: string, target: string) returns (mf: Option<Manifest>)
      requires Valid()
      modifies this`manifests, cids
      ensures Valid() && (Value(), mf) == ManifestSpec.Fetch(world, old(Value()), repo, target)
    {
      OpenCache(repo);
      if target in manifests[repo] {
        return Some(manifests[repo][target]);
      }
      mf := FetchRemote(repo, target);
    }

    method FetchRemote(repo: string, target: string) returns (mf: Option<Manifest>)
      requires Valid() && repo in manifests
      modifies this`manifests, cids
      ensures Valid() && (Value(), mf) == ManifestSpec.FetchRemote(world, old(Value()), repo, target)
    {
      var cid := ResolveCID(repo, target);
      if cid.None? {
        return None;
      }
      mf := GetManifest(world, ipfs, cid.value, target);
      if mf.None? {
        return None;
      }
      Insert(repo, target, mf.value.digest, mf.value);
      Note(repo, mf.value.digest, cid.value);
    }

    method Insert(repo: string, target: string, digest: string, mf: Manifest)
      requires Valid() && repo in manifests
      modifies this`manifests
      ensures Valid() && Value() == Cached(old(Value()), repo, target, digest, mf)
    {
      manifests := manifests[repo := manifests[repo][target := mf]];
      manifests := manifests[repo := manifests[repo][digest := mf]];
      assert manifests == old(manifests)[repo := Cache(old(Value()), repo)[target := mf][digest := mf]];
    }

    method GetManifestOf(repo: string, target: string) returns (resp: Response)
      requires Valid()
      modifies this`manifests, cids
      ensures Valid() && (Value(), resp) == Get(world, old(Value()), repo, target)
    {
      if stuck {
        return Hangs;
      }
      var mf := Fetch(repo, target);
      if mf.None? {
        return Refused(404, "MANIFEST_UNKNOWN");
      }
      var cid := ResolveCID(repo, target);
      if cid.None? {
        return Refused(404, "MANIFEST_UNKNOWN");
      }
      var digests := world.Digests(mf.value.blob);
      if digests.None? {
        return Panicked;
      }
      AddDigests(repo, digests.value, cid.value);
      resp := Found(mf.value.digest, cid.value, mf.value.contentType, mf.value.blob);
    }

    /** The reverse lookup by digest for pulling blobs. */
    method AddDigests(repo: string, digests: seq<string>, cid: string)
      requires Valid()
      modifies cids
      ensures Valid() && Value() == AddCids(world, old(Value()), repo, digests, cid)
    {
      for i := 0 to |digests|
        invariant Valid() && Value() == AddCids(world, old(Value()), repo, digests[..i], cid)
      {
        Note(repo, digests[i], cid);
        assert digests[..i + 1][..i] == digests[..i];
      }
      assert digests[..|digests|] == digests;
    }

    method HeadManifest(repo: string, target: string) returns (resp: Response)
      requires Valid()
      modifies this`manifests, cids
      ensures Valid() && (Value(), resp) == Head(world, old(Value()), repo, target)
    {
      if stuck {
        return Hangs;
      }
      var mf := Fetch(repo, target);
      if mf.None? {
        return Refused(404, "MANIFEST_UNKNOWN");
      }
      resp := FoundHead(mf.value.digest, mf.value.contentType, |mf.value.blob|);
    }

    /** Whether the listed children are all cached; it stops at the first that is not. */
    method ChildrenCached(repo: string, children: seq<string>) returns (ok: bool)
      requires repo in manifests
      ensures ok <==> forall d :: d in children ==> d in manifests[repo]
    {
      for i := 0 to |children|
        invariant forall d :: d in children[..i] ==> d in manifests[repo]
      {
        if children[i] !in manifests[repo] {
          return false;
        }
      }
      assert children[..|children|] == children;
      ok := true;
    }

    method CheckIndex(repo: string, contentType: string, body: Bytes) returns (ok: bool)
      requires Valid() && repo in manifests
      ensures ok == IndexPasses(world, Cache(Value(), repo), contentType, body)
    {
      if !IsIndexType(contentType) {
        return true;
      }
      var children := world.children(body);
      if children.None? {
        return false;
      }
      ok := ChildrenCached(repo, children.value);
    }

    method PutManifest(repo: string, target: string, contentType: string, body: Bytes, added: AddResult)
      returns (resp: Response)
      requires Valid()
      modifies this, blobs, cids
      ensures Valid() && blobs.Arrays() <= old(blobs.Arrays())
      ensures (Value(), resp) == Put(world, old(Value()), repo, target, contentType, body, added)
    {
      if stuck {
        return Hangs;
      }
      OpenCache(repo);
      var digest := world.Digest(body);
      var ok := CheckIndex(repo, contentType, body);
      if !ok {
        return Refused(404, "MANIFEST_UNKNOWN");
      }
      Insert(repo, target, digest, Manifest(contentType, body, ""));
      InsertAfterOpening(old(Value()), repo, target, digest, Manifest(contentType, body, ""));
      resp := PutLayers(repo, target, digest, body, added);
    }

    lemma InsertAfterOpening(s: Server, repo: string, target: string, digest: string, mf: Manifest)
      ensures Cached(Opened(s, repo), repo, target, digest, mf) == Cached(s, repo, target, digest, mf)
    {
      assert Cache(Opened(s, repo), repo) == Cache(s, repo);
    }

    method PutLayers(repo: string, target: string, digest: string, body: Bytes, added: AddResult)
      returns (resp: Response)
      requires Valid() && digest == world.Digest(body)
      modifies this, blobs, cids
      ensures Valid() && blobs.Arrays() <= old(blobs.Arrays())
      ensures (Value(), resp) == ManifestSpec.PutLayers(world, old(Value()), repo, target, body, added)
    {
      if blobs.locked {
        stuck := true;
        return Hangs;
      }
      var layers, complete := TakeLayers(repo);
      if !complete {
        return Refused(404, "MANIFEST_BLOB_UNKNOWN");
      }
      var refs := map[target := body];
      refs := refs[digest := body];
      refs := refs["latest" := body];
      resp := AddImage(repo, target, digest, Image(refs, layers), added);
    }

    /** `get` and then `remove`; the bytes of the layers are what `AddImage` will read. */
    method TakeLayers(repo: string) returns (layers: map<string, Bytes>, ok: bool)
      requires Valid() && !blobs.locked
      modifies blobs
      ensures Valid() && blobs.Arrays() <= old(blobs.Arrays())
      ensures ok == BlobSpec.Complete(old(blobs.Value()), repo)
      ensures ok ==> layers == BlobSpec.LayerBlobs(old(blobs.Value()), repo)
      ensures blobs.Value()
              == if ok then BlobSpec.Removed(old(blobs.Value()), repo) else old(blobs.Value()).(locked := true)
    {
      var found;
      found, ok := blobs.Get(repo);
      layers := map[];
      if ok {
        blobs.Remove(repo);
        layers := BlobStore.Views(found);
      }
    }

    method AddImage(repo: string, target: string, digest: string, image: Image, added: AddResult)
      returns (resp: Response)
      requires Valid()
      modifies this`ipfs, cids
      ensures Valid() && (Value(), resp) == Publish(world, old(Value()), repo, target, digest, image, added)
    {
      if added.AddFailed? || added == Published("") {
        return Refused(500, "");
      }
      var cid := "";
      if added.Published? {
        cid := added.cid;
        ipfs := ipfs[cid := image];
      }
      Note(repo, target, cid);
      Note(repo, digest, cid);
      Note(cid, "latest", cid);
      resp := Created(digest, cid);
    }

    // ---- blobs ----

    method GetBlobOf(repo: string, target: string) returns (resp: Response)
      requires Valid()
      ensures resp == GetBlob(world, Value(), repo, target)
    {
      var cid := ResolveCID(repo, target);
      if cid.None? {
        return Refused(404, "BLOB_UNKNOWN");
      }
      var body := CatBlob(ipfs, cid.value, target);
      if body.None? {
        return Refused(404, "BLOB_UNKNOWN");
      }
      resp := Found(target, "", "", body.value);
    }

    method HeadBlobOf(repo: string, target: string) returns (resp: Response)
      requires Valid()
      ensures resp == HeadBlob(world, Value(), repo, target)
    {
      if blobs.locked {
        return Hangs;
      }
      if target in blobs.contents {
        var s := blobs.contents[target];
        return FoundHead(target, "", if s.Slice? then s.len else 0);
      }
      var found := GetBlobOf(repo, target);
      resp := if found.Found? then FoundHead(target, "", 0) else Refused(404, "BLOB_UNKNOWN");
    }

    /** `v2`: the blob handler first, then the manifest handler. */
    method Handle(q: Request, id: string, added: AddResult) returns (resp: Response)
      requires Valid()
      modifies this, blobs, blobs.Arrays(), cids
      ensures Valid() && fresh(blobs.Arrays() - old(blobs.Arrays()))
      ensures (Value(), resp) == Serve(world, old(Value()), q, id, added)
    {
      var route := RouteOf(q.elem);
      match route {
        case BlobRoute(repo, _, target, _, _) =>
          if q.verb == HEAD {
            resp := HeadBlobOf(repo, target);
          } else if q.verb == GET {
            resp := GetBlobOf(repo, target);
          } else {
            resp := blobs.Handle(world, route, q, id);
          }
        case NameInvalid => resp := Refused(400, "NAME_INVALID");
        case ManifestRoute(repo, target) =>
          if q.verb == GET {
            resp := GetManifestOf(repo, target);
          } else if q.verb == HEAD {
            resp := HeadManifest(repo, target);
          } else if q.verb == PUT {
            resp := PutManifest(repo, target, q.contentType, q.body, added);
          } else {
            resp := Refused(400, "METHOD_UNKNOWN");
          }
        case BaseRoute => resp := Welcome;
        case Unknown => resp := Refused(404, "METHOD_UNKNOWN");
      }
    }
  }
}
