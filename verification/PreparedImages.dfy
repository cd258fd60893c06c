/** Prepared images are what the server takes for well formed. */
module PreparedImages {
  import opened Text
  import opened World
  import opened ManifestSpec
  import opened Coherence
  import opened ImagePrep
  import FileTree
  import CidStore

  /** The digests that a manifest made by the preparation lists: the config's, then the layers'. */
  ghost function ListedDigests(k: Tools, a: Archive, config: Bytes, layers: seq<Option<string>>): seq<string>
    requires AllStrings(layers)
  {
    [BlobName(k.hex(config))]
    + seq(|layers|, i requires 0 <= i < |layers| => BlobName(k.hex(k.gzip(LayerData(a, layers[i].value)))))
  }

  /**
   * The image that an upload of a prepared directory makes is well formed in the sense of the coherence invariant, so
   * that it can be pulled through the server: given only that decoding reads back the digests that marshalling wrote.
   */
  lemma PreparedIsWellFormed(w: World, u: Seen, k: Tools, root: FileTree.Path, t: Files, a: Archive, imageID: string,
                             config: Bytes, layers: seq<Option<string>>, image: Image)
    requires k.hex == w.hex && CollisionFree(w, u)
    requires Fresh(t, root) && FileTree.IsDir(t, root) && NamedByHash(k, a, config, layers)
    requires ProperTag(Tag(imageID)) && AllStrings(layers)
    requires Bodies(k, a, config, layers) <= u.blobs
    requires var b := k.marshal(ImageManifest(k, a, config, layers));
             b in u.manifests && w.Digests(b) == Some(ListedDigests(k, a, config, layers))
    requires DirHolds(Prepared(k, root, t, a, imageID).0, ManifestDir(root), image.manifests)
    requires DirHolds(Prepared(k, root, t, a, imageID).0, BlobDir(root), image.blobs)
    ensures WellFormed(w, u, image)
  {
    var t', mf := Prepared(k, root, t, a, imageID).0, ImageManifest(k, a, config, layers);
    assert config in Bodies(k, a, config, layers);
    assert NoCollision(k, Bodies(k, a, config, layers));
    PreparedInDirectories(k, root, t, a, imageID, config, layers);
    SameFiles(t', ManifestDir(root), image.manifests, ManifestFiles(k, mf, Tag(imageID)));
    SameFiles(t', BlobDir(root), image.blobs, BlobFiles(k, a, config, layers));
    TagIsNoDigest(imageID);
    ClosedIsWellFormed(w, u, k, mf, Tag(imageID), a, config, layers, image);
  }

  lemma SameFiles(t: Files, dir: FileTree.Path, m: map<string, Bytes>, m': map<string, Bytes>)
    requires DirHolds(t, dir, m) && DirHolds(t, dir, m')
    ensures m == m'
  {
    forall n
      ensures n in m <==> n in m'
      ensures n in m ==> m[n] == m'[n]
    {
      assert FileTree.FileAt(t, dir + [n]) == if n in m then Some(m[n]) else None;
    }
  }

  lemma BodiesListed(k: Tools, a: Archive, config: Bytes, layers: seq<Option<string>>, blobs: map<string, Bytes>)
    requires AllStrings(layers)
    requires ExactlyNamed(k, blobs, Bodies(k, a, config, layers))
    ensures forall d :: d in ListedDigests(k, a, config, layers) ==> d in blobs
  {
    var ds := ListedDigests(k, a, config, layers);
    forall d | d in ds
      ensures d in blobs
    {
      var i :| 0 <= i < |ds| && ds[i] == d;
      var x := if i == 0 then config else k.gzip(LayerData(a, layers[i - 1].value));
      assert x in Bodies(k, a, config, layers);
    }
  }

  lemma ClosedIsWellFormed(w: World, u: Seen, k: Tools, mf: Json, tag: string, a: Archive,
                           config: Bytes, layers: seq<Option<string>>, image: Image)
    requires k.hex == w.hex && image.manifests == ManifestFiles(k, mf, tag)
    requires ExactlyNamed(k, image.blobs, Bodies(k, a, config, layers))
    requires !HasPrefix(tag, "sha256:")
    requires Bodies(k, a, config, layers) <= u.blobs && k.marshal(mf) in u.manifests
    requires AllStrings(layers)
    requires w.Digests(k.marshal(mf)) == Some(ListedDigests(k, a, config, layers))
    ensures WellFormed(w, u, image)
  {
    var b := k.marshal(mf);
    BodiesListed(k, a, config, layers, image.blobs);
    assert !CidStore.IsDigest("latest");
    forall n | n in image.manifests
      ensures GoodManifest(w, u, image, n)
    {
      assert image.manifests[n] == b;
    }
    forall n | n in image.blobs
      ensures w.Digest(image.blobs[n]) == n && image.blobs[n] in u.blobs
    {
      assert image.blobs[n] in Bodies(k, a, config, layers);
    }
  }
}
