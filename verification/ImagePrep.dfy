/** Turning the files of a `docker save` archive into the layout that the registry pulls from (registry/registry.go). */
module ImagePrep {
  import opened Text
  import opened FileTree

  datatype Json = Num(n: int) | Str(s: string) | Arr(items: seq<Json>) | Obj(fields: map<string, Json>)

  /** Hexadecimal SHA-256, gzip, and JSON marshalling. */
  datatype Tools = Tools(hex: Bytes -> string, gzip: Bytes -> Bytes, marshal: Json -> Bytes)

  /**
   * The unpacked archive: its files, and what `manifest.json` decodes to. A config or a layer may be
   * something other than a string, and so may the list of layers be no list.
   */
  datatype Entry = Entry(config: Option<string>, layers: Option<seq<Option<string>>>)
  datatype Archive = Archive(files: map<string, Bytes>, entries: Option<seq<Entry>>)

  type Files = Tree<Bytes>

  const MANIFEST_TYPE := "application/vnd.docker.distribution.manifest.v2+json"
  const CONFIG_TYPE := "application/vnd.docker.container.image.v1+json"
  const LAYER_TYPE := "application/vnd.docker.image.rootfs.diff.tar.gzip"
  const TEMP := "layer.tmp.tgz"

  /** `os.Rename` of a file. */
  function Renamed(t: Files, src: Path, dst: Path): (Files, bool) {
    if IsFile(t, src) && CanWrite(t, dst) then ((t - {src})[dst := t[src]], true) else (t, false)
  }

  function BlobName(digest: string): string {
    "sha256:" + digest
  }

  // ---- the steps as functions on the tree ----

  /** `compressLayer`: the tree afterwards, and the size and digest unless it failed. */
  function Compressed(k: Tools, t: Files, data: Bytes, blobDir: Path): (Files, Option<(nat, string)>) {
    var tmp := blobDir + [TEMP];
    var (t1, written) := WriteFile(t, tmp, k.gzip(data));
    if !written then (t1, None)
    else
      var digest := k.hex(k.gzip(data));
      var (t2, renamed) := Renamed(t1, tmp, blobDir + [BlobName(digest)]);
      if renamed then (t2, Some((|k.gzip(data)|, digest))) else (t2, None)
  }

  /** The bytes of a layer; a file that cannot be read counts as empty. */
  function LayerData(a: Archive, layer: string): Bytes {
    if layer in a.files then a.files[layer] else []
  }

  function Descriptor(mediaType: string, size: nat, digest: string): Json {
    Obj(map["mediaType" := Str(mediaType), "size" := Num(size), "digest" := Str(digest)])
  }

  /** The loop of `prepareV2Manifest`: the descriptors of the layers, in order. */
  function Layers(k: Tools, t: Files, a: Archive, layers: seq<Option<string>>, blobDir: Path)
    : (Files, Option<seq<Json>>)
  {
    if layers == [] then (t, Some([]))
    else
      var (t1, done) := Layers(k, t, a, layers[..|layers| - 1], blobDir);
      var layer := layers[|layers| - 1];
      if done.None? || layer.None? then (t1, None)
      else
        var (t2, r) := Compressed(k, t1, LayerData(a, layer.value), blobDir);
        if r.None? then (t2, None)
        else (t2, Some(done.value + [Descriptor(LAYER_TYPE, r.value.0, BlobName(r.value.1))]))
  }

  function V2Manifest(config: Json, layers: seq<Json>): Json {
    Obj(map["schemaVersion" := Num(2), "mediaType" := Str(MANIFEST_TYPE), "config" := config, "layers" := Arr(layers)])
  }

  predicate Contains(s: string, sub: string) {
    sub <= s || (s != "" && Contains(s[1..], sub))
  }

  /** The tag in an image id. */
  function Tag(imageID: string): string {
    if Contains(imageID, "sha256:") then "latest"
    else if |Cut(imageID, ':')| == 2 then Cut(imageID, ':')[1]
    else "latest"
  }

  class Preparer {
    const tools: Tools
    const root: Path
    var tree: Files

    constructor (tools: Tools, root: Path, tree: Files)
      ensures this.tools == tools && this.root == root && this.tree == tree
    {
      this.tools, this.root, this.tree := tools, root, tree;
    }

    method Write(p: Path, content: Bytes) returns (ok: bool)
      modifies this
      ensures (tree, ok) == WriteFile(old(tree), p, content)
    {
      var written := WriteFile(tree, p, content);
      tree, ok := written.0, written.1;
    }

    method CompressLayer(data: Bytes, blobDir: Path) returns (r: Option<(nat, string)>)
      modifies this
      ensures (tree, r) == Compressed(tools, old(tree), data, blobDir)
    {
      var tmp := blobDir + [TEMP];
      var ok := Write(tmp, tools.gzip(data));
      if !ok {
        return None;
      }
      var compressed := tree[tmp].content;
      var digest := tools.hex(compressed);
      var size := |compressed|;
      var renamed := Renamed(tree, tmp, blobDir + [BlobName(digest)]);
      tree := renamed.0;
      r := if renamed.1 then Some((size, digest)) else None;
    }

    method PrepareLayers(a: Archive, layers: seq<Option<string>>, blobDir: Path) returns (done: Option<seq<Json>>)
      modifies this
      ensures (tree, done) == Layers(tools, old(tree), a, layers, blobDir)
    {
      var objs := [];
      for i := 0 to |layers|
        invariant (tree, Some(objs)) == Layers(tools, old(tree), a, layers[..i], blobDir)
      {
        assert layers[..i + 1][..i] == layers[..i];
        if layers[i].None? {
          LayersStuck(tools, old(tree), a, layers, blobDir, i + 1);
          return None;
        }
        var r := CompressLayer(LayerData(a, layers[i].value), blobDir);
        if r.None? {
          LayersStuck(tools, old(tree), a, layers, blobDir, i + 1);
          return None;
        }
        objs := objs + [Descriptor(LAYER_TYPE, r.value.0, BlobName(r.value.1))];
      }
      assert layers[..|layers|] == layers;
      done := Some(objs);
    }

    /** `mergemap`: the entries of `b` win. */
    method MergeMap(a: map<string, Json>, b: map<string, Json>) returns (merged: map<string, Json>)
      ensures merged == a + b
    {
      merged := a;
      var left := b.Keys;
      while left != {}
        invariant left <= b.Keys
        invariant merged == a + (b - left)
        decreases left
      {
        var key :| key in left;
        merged := merged[key := b[key]];
        left := left - {key};
      }
    }

    /** `makeV2Manifest`, once the config is in place at `configDest`. */
    method MakeV2Manifest(a: Archive, layers: Option<seq<Option<string>>>, configDigest: string, configDest: Path,
                          blobDir: Path)
      returns (mf: Option<Json>)
      modifies this
      ensures (tree, mf) == Manifest(tools, old(tree), a, layers, configDigest, configDest, blobDir)
    {
      if layers.None? {
        return None;
      }
      var done := PrepareLayers(a, layers.value, blobDir);
      if done.None? || !IsFile(tree, configDest) {
        return None;
      }
      var config := map["digest" := Str(configDigest)];
      config := config["size" := Num(|tree[configDest].content|)];
      config := config["mediaType" := Str(CONFIG_TYPE)];
      var merged := MergeMap(map[], config);
      assert merged == Descriptor(CONFIG_TYPE, |tree[configDest].content|, configDigest).fields;
      mf := Some(V2Manifest(Obj(merged), done.value));
    }

    /** `ipfsPrep` */
    method IpfsPrep(a: Archive, imageID: string) returns (r: Outcome)
      modifies this
      ensures (tree, r) == Prepared(tools, root, old(tree), a, imageID)
    {
      var workdir := root + ["default"];
      tree := Mkdirs(tree, root);
      if a.entries.None? || a.entries.value == [] || a.entries.value[0].config.None? {
        return Failed;
      }
      var entry := a.entries.value[0];
      var configFile := entry.config.value;
      if |configFile| < 5 {
        return Panicked;
      }
      var configDigest := BlobName(configFile[..|configFile| - 5]);
      var configDest := Clean(workdir + ["blobs"], Split(configDigest, '/'));
      if configFile !in a.files {
        return Failed;
      }
      var ok := Write(configDest, a.files[configFile]);
      if !ok {
        return Failed;
      }
      var mf := MakeV2Manifest(a, entry.layers, configDigest, configDest, workdir + ["blobs"]);
      if mf.None? {
        return Failed;
      }
      r := WriteManifests(workdir + ["manifests"], Tag(imageID), mf.value);
    }

    method WriteManifests(dir: Path, tag: string, mf: Json) returns (r: Outcome)
      modifies this
      ensures (tree, r) == Manifests(tools, old(tree), dir, tag, mf)
    {
      var data := tools.marshal(mf);
      var ok := true;
      if tag != "latest" {
        ok := Write(dir + ["latest"], data);
        if !ok {
          return Failed;
        }
      }
      ok := Write(Clean(dir, Split(tag, '/')), data);
      if !ok {
        return Failed;
      }
      ok := Write(dir + [BlobName(tools.hex(data))], data);
      r := if ok then Done(mf) else Failed;
    }
  }

  lemma {:induction false} LayersStuck(k: Tools, t: Files, a: Archive, layers: seq<Option<string>>, blobDir: Path,
                                       n: nat)
    requires n <= |layers| && Layers(k, t, a, layers[..n], blobDir).1 == None
    ensures Layers(k, t, a, layers, blobDir) == Layers(k, t, a, layers[..n], blobDir)
    decreases |layers| - n
  {
    if n < |layers| {
      assert layers[..n + 1][..n] == layers[..n];
      LayersStuck(k, t, a, layers, blobDir, n + 1);
    } else {
      assert layers[..n] == layers;
    }
  }

  // ---- the whole as functions ----

  datatype Outcome = Done(mf: Json) | Failed | Panicked

  function Mkdir(t: Files, p: Path): Files {
    if p in t || p == [] || !IsDir(t, Parent(p)) then t else t[p := Dir]
  }

  function Mkdirs(t: Files, root: Path): Files {
    var workdir := root + ["default"];
    Mkdir(Mkdir(Mkdir(t, workdir), workdir + ["manifests"]), workdir + ["blobs"])
  }

  function Manifest(k: Tools, t: Files, a: Archive, layers: Option<seq<Option<string>>>, configDigest: string,
                    configDest: Path, blobDir: Path): (Files, Option<Json>) {
    if layers.None? then (t, None)
    else
      var (t1, done) := Layers(k, t, a, layers.value, blobDir);
      if done.None? || !IsFile(t1, configDest) then (t1, None)
      else (t1, Some(V2Manifest(Descriptor(CONFIG_TYPE, |t1[configDest].content|, configDigest), done.value)))
  }

  function Manifests(k: Tools, t: Files, dir: Path, tag: string, mf: Json): (Files, Outcome) {
    var data := k.marshal(mf);
    var (t1, ok1) := if tag != "latest" then WriteFile(t, dir + ["latest"], data) else (t, true);
    if !ok1 then (t1, Failed)
    else
      var (t2, ok2) := WriteFile(t1, Clean(dir, Split(tag, '/')), data);
      if !ok2 then (t2, Failed)
      else
        var (t3, ok3) := WriteFile(t2, dir + [BlobName(k.hex(data))], data);
        (t3, if ok3 then Done(mf) else Failed)
  }

  function Prepared(k: Tools, root: Path, t: Files, a: Archive, imageID: string): (Files, Outcome) {
    var workdir := root + ["default"];
    var blobDir := workdir + ["blobs"];
    var t1 := Mkdirs(t, root);
    if a.entries.None? || a.entries.value == [] || a.entries.value[0].config.None? then (t1, Failed)
    else
      var entry := a.entries.value[0];
      var configFile := entry.config.value;
      if |configFile| < 5 then (t1, Panicked)
      else
        var configDigest := BlobName(configFile[..|configFile| - 5]);
        var configDest := Clean(blobDir, Split(configDigest, '/'));
        if configFile !in a.files then (t1, Failed)
        else
          var (t2, copied) := WriteFile(t1, configDest, a.files[configFile]);
          if !copied then (t2, Failed)
          else
            var (t3, mf) := Manifest(k, t2, a, entry.layers, configDigest, configDest, blobDir);
            if mf.None? then (t3, Failed)
            else Manifests(k, t3, workdir + ["manifests"], Tag(imageID), mf.value)
  }

  // ---- the files of one directory ----

  /** The files of a directory are exactly those of the map. */
  ghost predicate DirHolds(t: Files, dir: Path, m: map<string, Bytes>) {
    forall n :: FileAt(t, dir + [n]) == if n in m then Some(m[n]) else None
  }

  lemma SamePath(dir: Path, n: string, other: Path, m: string)
    ensures dir + [n] == other + [m] <==> dir == other && n == m
    ensures Parent(dir + [n]) == dir
  {
    assert Parent(dir + [n]) == dir && (dir + [n])[|dir|] == n;
    assert Parent(other + [m]) == other && (other + [m])[|other|] == m;
  }

  ghost predicate SameDirs(t: Files, t': Files) {
    forall p: Path :: IsDir(t, p) <==> IsDir(t', p)
  }

  ghost predicate NoSubdirs(t: Files, dir: Path) {
    forall p: Path :: dir < p ==> !IsDir(t, p)
  }

  /** Writing a file changes the entry of its own directory only. */
  lemma WriteInDir(t: Files, dir: Path, n: string, content: Bytes, other: Path, m: map<string, Bytes>)
    requires WriteFile(t, dir + [n], content).1 && DirHolds(t, other, m)
    ensures var t' := WriteFile(t, dir + [n], content).0;
            DirHolds(t', other, if other == dir then m[n := content] else m) && SameDirs(t, t')
  {
    var t' := WriteFile(t, dir + [n], content).0;
    var m' := if other == dir then m[n := content] else m;
    forall j
      ensures FileAt(t', other + [j]) == if j in m' then Some(m'[j]) else None
    {
      SamePath(other, j, dir, n);
      assert FileAt(t, other + [j]) == if j in m then Some(m[j]) else None;
    }
  }

  // ---- closure of the prepared image ----

  lemma BlobNameIsPlain(hex: string)
    requires Free(hex, '/')
    ensures Plain(BlobName(hex)) && Free(BlobName(hex), '/')
  {
    var name := BlobName(hex);
    assert name[0] == 's';
    forall i | 0 <= i < |name|
      ensures name[i] != '/'
    {
      if i >= 7 { assert name[i] == hex[i - 7]; }
    }
  }

  lemma BlobNameIsNotTemp(hex: string)
    ensures BlobName(hex) != TEMP
  {
    assert BlobName(hex)[0] == 's' && TEMP[0] == 'l';
  }

  /** One compressed layer: exactly its blob is added, under its digest; the temporary file is gone. */
  lemma CompressedEffect(k: Tools, t: Files, data: Bytes, blobDir: Path, m: map<string, Bytes>)
    requires DirHolds(t, blobDir, m) && TEMP !in m && Compressed(k, t, data, blobDir).1.Some?
    ensures var (t', r) := Compressed(k, t, data, blobDir);
            var b := k.gzip(data);
            && r == Some((|b|, k.hex(b)))
            && DirHolds(t', blobDir, m[BlobName(k.hex(b)) := b])
  {
    var (t', b) := (Compressed(k, t, data, blobDir).0, k.gzip(data));
    var name := BlobName(k.hex(b));
    var m' := m[name := b];
    BlobNameIsNotTemp(k.hex(b));
    SamePath(blobDir, TEMP, blobDir, name);
    forall j
      ensures FileAt(t', blobDir + [j]) == if j in m' then Some(m'[j]) else None
    {
      SamePath(blobDir, j, blobDir, name);
      SamePath(blobDir, j, blobDir, TEMP);
      assert FileAt(t, blobDir + [j]) == if j in m then Some(m[j]) else None;
    }
  }

  /** Elsewhere, nothing happens. */
  lemma CompressedElsewhere(k: Tools, t: Files, data: Bytes, blobDir: Path, other: Path, m: map<string, Bytes>)
    requires other != blobDir && DirHolds(t, other, m)
    ensures DirHolds(Compressed(k, t, data, blobDir).0, other, m)
  {
    var t' := Compressed(k, t, data, blobDir).0;
    forall j
      ensures FileAt(t', other + [j]) == if j in m then Some(m[j]) else None
    {
      SamePath(other, j, blobDir, TEMP);
      SamePath(other, j, blobDir, BlobName(k.hex(k.gzip(data))));
      assert FileAt(t, other + [j]) == if j in m then Some(m[j]) else None;
    }
  }

  lemma CompressedSucceeds(k: Tools, t: Files, data: Bytes, blobDir: Path)
    requires IsDir(t, blobDir) && NoSubdirs(t, blobDir)
    ensures Compressed(k, t, data, blobDir).1.Some?
  {
    var name := BlobName(k.hex(k.gzip(data)));
    SamePath(blobDir, TEMP, blobDir, name);
    SamePath(blobDir, name, blobDir, TEMP);
    BlobNameIsNotTemp(k.hex(k.gzip(data)));
    assert blobDir < blobDir + [TEMP] && blobDir < blobDir + [name];
    assert !IsDir(t, blobDir + [TEMP]) && !IsDir(t, blobDir + [name]);
  }

  lemma CompressedSameDirs(k: Tools, t: Files, data: Bytes, blobDir: Path)
    ensures SameDirs(t, Compressed(k, t, data, blobDir).0)
  {
  }

  predicate AllStrings(layers: seq<Option<string>>) {
    forall i :: 0 <= i < |layers| ==> layers[i].Some?
  }

  /** In a directory without subdirectories the loop fails only at a layer that is no string. */
  lemma {:induction false} LayersSucceed(k: Tools, t: Files, a: Archive, layers: seq<Option<string>>, blobDir: Path)
    requires IsDir(t, blobDir) && NoSubdirs(t, blobDir)
    ensures SameDirs(t, Layers(k, t, a, layers, blobDir).0)
    ensures Layers(k, t, a, layers, blobDir).1.Some? <==> AllStrings(layers)
  {
    if layers != [] {
      var init, layer := layers[..|layers| - 1], layers[|layers| - 1];
      var t1 := Layers(k, t, a, init, blobDir).0;
      LayersSucceed(k, t, a, init, blobDir);
      assert AllStrings(layers) <==> AllStrings(init) && layer.Some?;
      if AllStrings(layers) {
        CompressedSameDirs(k, t1, LayerData(a, layer.value), blobDir);
        CompressedSucceeds(k, t1, LayerData(a, layer.value), blobDir);
      }
    }
  }

  /** The blobs that a list of layers adds to a directory. */
  function LayerBlobs(k: Tools, a: Archive, layers: seq<Option<string>>, blobs: map<string, Bytes>)
    : map<string, Bytes>
  {
    if layers == [] then blobs
    else
      var init, layer := LayerBlobs(k, a, layers[..|layers| - 1], blobs), layers[|layers| - 1];
      if layer.None? then init
      else
        var b := k.gzip(LayerData(a, layer.value));
        init[BlobName(k.hex(b)) := b]
  }

  /** The descriptors name the compressed layers by digest and size, in order. */
  ghost predicate Described(k: Tools, a: Archive, layers: seq<Option<string>>, descriptors: seq<Json>) {
    && |descriptors| == |layers|
    && forall i :: 0 <= i < |layers| ==>
         && layers[i].Some?
         && var b := k.gzip(LayerData(a, layers[i].value));
            descriptors[i] == Descriptor(LAYER_TYPE, |b|, BlobName(k.hex(b)))
  }

  lemma DescribedSnoc(k: Tools, a: Archive, layers: seq<Option<string>>, descriptors: seq<Json>)
    requires layers != [] && layers[|layers| - 1].Some? && Described(k, a, layers[..|layers| - 1], descriptors)
    ensures var b := k.gzip(LayerData(a, layers[|layers| - 1].value));
            Described(k, a, layers, descriptors + [Descriptor(LAYER_TYPE, |b|, BlobName(k.hex(b)))])
  {
    forall i | 0 <= i < |layers| - 1
      ensures layers[i].Some?
      ensures var b := k.gzip(LayerData(a, layers[i].value));
              descriptors[i] == Descriptor(LAYER_TYPE, |b|, BlobName(k.hex(b)))
    {
      assert layers[i] == layers[..|layers| - 1][i];
    }
  }

  /** The whole loop: the descriptors, the blobs it leaves, and another directory as it was. */
  lemma {:induction false} LayersEffect(k: Tools, t: Files, a: Archive, layers: seq<Option<string>>, blobDir: Path,
                                        m: map<string, Bytes>, other: Path, o: map<string, Bytes>)
    requires DirHolds(t, blobDir, m) && TEMP !in m && other != blobDir && DirHolds(t, other, o)
    requires Layers(k, t, a, layers, blobDir).1.Some?
    ensures var (t', done) := Layers(k, t, a, layers, blobDir);
            && DirHolds(t', blobDir, LayerBlobs(k, a, layers, m))
            && TEMP !in LayerBlobs(k, a, layers, m)
            && DirHolds(t', other, o) && SameDirs(t, t')
            && Described(k, a, layers, done.value)
  {
    if layers != [] {
      var init, layer := layers[..|layers| - 1], layers[|layers| - 1];
      var t1 := Layers(k, t, a, init, blobDir).0;
      assert Layers(k, t, a, init, blobDir).1.Some? && layer.Some?;
      LayersEffect(k, t, a, init, blobDir, m, other, o);
      var data := LayerData(a, layer.value);
      CompressedEffect(k, t1, data, blobDir, LayerBlobs(k, a, init, m));
      CompressedElsewhere(k, t1, data, blobDir, other, o);
      CompressedSameDirs(k, t1, data, blobDir);
      BlobNameIsNotTemp(k.hex(k.gzip(data)));
      DescribedSnoc(k, a, layers, Layers(k, t, a, init, blobDir).1.value);
    }
  }

  /** The contents that get a digest for a name: the config and the compressed layers. */
  ghost function Bodies(k: Tools, a: Archive, config: Bytes, layers: seq<Option<string>>): set<Bytes> {
    {config} + set i | 0 <= i < |layers| && layers[i].Some? :: k.gzip(LayerData(a, layers[i].value))
  }

  ghost predicate NoCollision(k: Tools, bodies: set<Bytes>) {
    forall x, y :: x in bodies && y in bodies && k.hex(x) == k.hex(y) ==> x == y
  }

  /** Every body sits under its own name, and there is nothing else. */
  ghost predicate ExactlyNamed(k: Tools, blobs: map<string, Bytes>, bodies: set<Bytes>) {
    && (forall x :: x in bodies ==> BlobName(k.hex(x)) in blobs && blobs[BlobName(k.hex(x))] == x)
    && (forall n :: n in blobs ==> blobs[n] in bodies && n == BlobName(k.hex(blobs[n])))
  }

  /** Without collisions, later layers never damage earlier blobs. */
  lemma {:induction false} BlobsIntact(k: Tools, a: Archive, config: Bytes, layers: seq<Option<string>>)
    requires NoCollision(k, Bodies(k, a, config, layers))
    requires AllStrings(layers)
    ensures ExactlyNamed(k, LayerBlobs(k, a, layers, map[BlobName(k.hex(config)) := config]),
                         Bodies(k, a, config, layers))
  {
    if layers != [] {
      var init, last := layers[..|layers| - 1], layers[|layers| - 1];
      var b := k.gzip(LayerData(a, last.value));
      assert Bodies(k, a, config, layers) == Bodies(k, a, config, init) + {b} by {
        assert layers[|layers| - 1] == last;
        assert forall i :: 0 <= i < |init| ==> init[i] == layers[i];
      }
      BlobsIntact(k, a, config, init);
      forall x | x in Bodies(k, a, config, layers) && BlobName(k.hex(x)) == BlobName(k.hex(b))
        ensures x == b
      {
        assert BlobName(k.hex(x))[7..] == k.hex(x) && BlobName(k.hex(b))[7..] == k.hex(b);
      }
    }
  }

  // ---- before and after the layers ----

  /** Nothing exists yet below the root. */
  ghost predicate Fresh(t: Files, root: Path) {
    forall p: Path :: root < p ==> p !in t
  }

  function WorkDir(root: Path): Path {
    root + ["default"]
  }

  function BlobDir(root: Path): Path {
    WorkDir(root) + ["blobs"]
  }

  function ManifestDir(root: Path): Path {
    WorkDir(root) + ["manifests"]
  }

  lemma MkdirsEffect(t: Files, root: Path)
    requires Fresh(t, root) && IsDir(t, root)
    ensures var t' := Mkdirs(t, root);
            && IsDir(t', WorkDir(root)) && IsDir(t', ManifestDir(root))
            && DirHolds(t', BlobDir(root), map[]) && DirHolds(t', ManifestDir(root), map[])
  {
    SamePath(root, "default", root, "default");
    SamePath(WorkDir(root), "blobs", WorkDir(root), "manifests");
    assert root < WorkDir(root) && root < ManifestDir(root) && root < BlobDir(root);
    assert forall n :: root < BlobDir(root) + [n] && root < ManifestDir(root) + [n];
  }

  lemma MkdirsFlat(t: Files, root: Path)
    requires Fresh(t, root) && IsDir(t, root)
    ensures var t' := Mkdirs(t, root);
            IsDir(t', BlobDir(root)) && NoSubdirs(t', BlobDir(root)) && NoSubdirs(t', ManifestDir(root))
  {
    var t' := Mkdirs(t, root);
    SamePath(root, "default", root, "default");
    SamePath(WorkDir(root), "blobs", WorkDir(root), "manifests");
    assert root < WorkDir(root) && root < ManifestDir(root) && root < BlobDir(root);
    forall p: Path | BlobDir(root) < p || ManifestDir(root) < p
      ensures !IsDir(t', p)
    {
      assert root < p && |p| > |BlobDir(root)| == |ManifestDir(root)| > |WorkDir(root)|;
    }
  }

  lemma CleanSingle(dir: Path, name: string)
    requires Free(name, '/') && Plain(name)
    ensures Clean(dir, Split(name, '/')) == dir + [name]
  {
    SplitOfJoin([name], '/');
    assert Join([name], '/') == name;
    CleanPlain(dir, [name]);
  }

  /** A tag that is no proper file name cannot be written: "", "." and ".." all lead to directories. */
  lemma ImproperTagFails(t: Files, dir: Path, tag: string, content: Bytes)
    requires dir != [] && IsDir(t, dir) && IsDir(t, Parent(dir)) && !Plain(tag)
    ensures !WriteFile(t, Clean(dir, Split(tag, '/')), content).1
  {
    assert Free(tag, '/');
    SplitOfJoin([tag], '/');
    assert Join([tag], '/') == tag;
    assert Clean(dir, [tag]) == if tag == ".." then Parent(dir) else dir;
  }

  /** A tag whose slashes separate proper file names leads through a directory that is not there. */
  lemma NestedTagFails(t: Files, dir: Path, tag: string, content: Bytes)
    requires dir != [] && NoSubdirs(t, dir) && !Free(tag, '/') && AllPlain(Split(tag, '/'))
    ensures !WriteFile(t, Clean(dir, Split(tag, '/')), content).1
  {
    var parts := Split(tag, '/');
    CleanPlain(dir, parts);
    assert Join(parts, '/') == tag;
    assert |parts| > 1;
    assert Parent(dir + parts) == dir + parts[..|parts| - 1];
    assert dir < Parent(dir + parts);
  }

  /** A tag that names a file of the directory. */
  predicate ProperTag(tag: string) {
    Free(tag, '/') && Plain(tag)
  }

  /** Without a slash, or with slashes between proper file names only. */
  predicate OrdinaryTag(tag: string) {
    Free(tag, '/') || AllPlain(Split(tag, '/'))
  }

  /** In a directory without subdirectories, the manifest files can be written iff the tag is a proper file name. */
  lemma ManifestsSucceed(k: Tools, t: Files, dir: Path, tag: string, mf: Json)
    requires dir != [] && IsDir(t, dir) && IsDir(t, Parent(dir)) && NoSubdirs(t, dir) && OrdinaryTag(tag)
    ensures Manifests(k, t, dir, tag, mf).1 == if ProperTag(tag) then Done(mf) else Failed
  {
    var b := k.marshal(mf);
    var t1 := WriteFile(t, dir + ["latest"], b).0;
    WriteInFlat(t, dir, "latest", b);
    if !Free(tag, '/') {
      NestedTagFails(t1, dir, tag, b);
    } else if !Plain(tag) {
      ImproperTagFails(t1, dir, tag, b);
    } else {
      CleanSingle(dir, tag);
      WriteInFlat(t, dir, tag, b);
      WriteInFlat(t1, dir, tag, b);
      WriteInFlat(WriteFile(if tag != "latest" then t1 else t, dir + [tag], b).0, dir, BlobName(k.hex(b)), b);
    }
  }

  lemma WriteInFlat(t: Files, dir: Path, n: string, content: Bytes)
    requires IsDir(t, dir) && NoSubdirs(t, dir)
    ensures WriteFile(t, dir + [n], content).1 && SameDirs(t, WriteFile(t, dir + [n], content).0)
    ensures dir != [] && IsDir(t, Parent(dir)) ==> IsDir(WriteFile(t, dir + [n], content).0, Parent(dir))
  {
    SamePath(dir, n, dir, n);
    assert dir < dir + [n];
    assert !IsDir(t, dir + [n]);
  }

  /** The manifest files, if all can be written; `t1` is the tree once "latest" is there. */
  lemma ManifestsInFull(k: Tools, t: Files, t1: Files, dir: Path, tag: string, mf: Json)
    requires dir != [] && IsDir(t1, dir) && IsDir(t1, Parent(dir)) && Free(tag, '/')
    requires t1 == if tag != "latest" then WriteFile(t, dir + ["latest"], k.marshal(mf)).0 else t
    requires Manifests(k, t, dir, tag, mf).1 == Done(mf)
    ensures var b := k.marshal(mf);
            var t2 := WriteFile(t1, dir + [tag], b).0;
            && (tag != "latest" ==> WriteFile(t, dir + ["latest"], b).1)
            && WriteFile(t1, dir + [tag], b).1
            && WriteFile(t2, dir + [BlobName(k.hex(b))], b).1
            && Manifests(k, t, dir, tag, mf).0 == WriteFile(t2, dir + [BlobName(k.hex(b))], b).0
  {
    if Plain(tag) { CleanSingle(dir, tag); } else { ImproperTagFails(t1, dir, tag, k.marshal(mf)); }
  }

  /** The manifest files: the same bytes under "latest", under the tag and under their digest. */
  lemma ManifestsEffect(k: Tools, t: Files, dir: Path, tag: string, mf: Json, other: Path, o: map<string, Bytes>)
    requires dir != [] && IsDir(t, dir) && IsDir(t, Parent(dir)) && Free(tag, '/')
    requires Manifests(k, t, dir, tag, mf).1 == Done(mf)
    requires DirHolds(t, dir, map[]) && other != dir && DirHolds(t, other, o)
    ensures var t', b := Manifests(k, t, dir, tag, mf).0, k.marshal(mf);
            DirHolds(t', dir, map["latest" := b][tag := b][BlobName(k.hex(b)) := b]) && DirHolds(t', other, o)
  {
    var b := k.marshal(mf);
    var name := BlobName(k.hex(b));
    var t1 := if tag != "latest" then WriteFile(t, dir + ["latest"], b).0 else t;
    assert IsDir(t1, dir) && IsDir(t1, Parent(dir));
    ManifestsInFull(k, t, t1, dir, tag, mf);
    if tag != "latest" {
      WriteInDir(t, dir, "latest", b, dir, map[]);
      WriteInDir(t, dir, "latest", b, other, o);
    }
    var m1 := if tag != "latest" then map["latest" := b] else map[];
    var t2 := WriteFile(t1, dir + [tag], b).0;
    WriteInDir(t1, dir, tag, b, dir, m1);
    WriteInDir(t1, dir, tag, b, other, o);
    WriteInDir(t2, dir, name, b, dir, m1[tag := b]);
    WriteInDir(t2, dir, name, b, other, o);
    assert m1[tag := b] == map["latest" := b][tag := b];
  }

  // ---- the main theorem ----

  /** The archive's first entry names its config by the hash of the config, as Docker does, and lists these layers. */
  ghost predicate NamedByHash(k: Tools, a: Archive, config: Bytes, layers: seq<Option<string>>) {
    && a.entries.Some? && a.entries.value != []
    && var entry := a.entries.value[0];
    && entry.config == Some(k.hex(config) + ".json") && entry.layers == Some(layers)
    && entry.config.value in a.files && a.files[entry.config.value] == config
  }

  /** The preparation of such an archive, without the failures before the copy. */
  lemma PreparedInFull(k: Tools, root: Path, t: Files, a: Archive, imageID: string, config: Bytes,
                       layers: seq<Option<string>>)
    requires NamedByHash(k, a, config, layers) && Free(k.hex(config), '/')
    ensures var name := BlobName(k.hex(config));
            var (t2, copied) := WriteFile(Mkdirs(t, root), BlobDir(root) + [name], config);
            var (t3, mf) := Manifest(k, t2, a, Some(layers), name, BlobDir(root) + [name], BlobDir(root));
            Prepared(k, root, t, a, imageID)
            == if !copied then (t2, Failed)
               else if mf.None? then (t3, Failed)
               else Manifests(k, t3, ManifestDir(root), Tag(imageID), mf.value)
  {
    var configFile := k.hex(config) + ".json";
    assert configFile[..|configFile| - 5] == k.hex(config);
    BlobNameIsPlain(k.hex(config));
    CleanSingle(BlobDir(root), BlobName(k.hex(config)));
  }

  /** The manifest over the directory that holds the config. */
  lemma ManifestMade(k: Tools, t: Files, a: Archive, config: Bytes, layers: seq<Option<string>>, blobDir: Path,
                     other: Path)
    requires var name := BlobName(k.hex(config));
             && DirHolds(t, blobDir, map[name := config]) && other != blobDir && DirHolds(t, other, map[])
             && Manifest(k, t, a, Some(layers), name, blobDir + [name], blobDir).1.Some?
    requires NoCollision(k, Bodies(k, a, config, layers))
    ensures var name := BlobName(k.hex(config));
            var (t', mf) := Manifest(k, t, a, Some(layers), name, blobDir + [name], blobDir);
            var descriptors := Layers(k, t, a, layers, blobDir).1.value;
            var blobs := LayerBlobs(k, a, layers, map[name := config]);
            && DirHolds(t', blobDir, blobs) && ExactlyNamed(k, blobs, Bodies(k, a, config, layers))
            && DirHolds(t', other, map[]) && SameDirs(t, t')
            && Described(k, a, layers, descriptors)
            && mf.value == V2Manifest(Descriptor(CONFIG_TYPE, |config|, name), descriptors)
  {
    var name := BlobName(k.hex(config));
    BlobNameIsNotTemp(k.hex(config));
    var (t', done) := Layers(k, t, a, layers, blobDir);
    LayersEffect(k, t, a, layers, blobDir, map[name := config], other, map[]);
    BlobsIntact(k, a, config, layers);
    ConfigSize(k, t', blobDir, LayerBlobs(k, a, layers, map[name := config]), Bodies(k, a, config, layers), config);
  }

  lemma ConfigSize(k: Tools, t: Files, blobDir: Path, blobs: map<string, Bytes>, bodies: set<Bytes>, config: Bytes)
    requires DirHolds(t, blobDir, blobs) && ExactlyNamed(k, blobs, bodies) && config in bodies
    ensures FileAt(t, blobDir + [BlobName(k.hex(config))]) == Some(config)
  {
  }

  function LayerDescriptors(k: Tools, a: Archive, layers: seq<Option<string>>): seq<Json>
    requires AllStrings(layers)
  {
    seq(|layers|, i requires 0 <= i < |layers| =>
      var b := k.gzip(LayerData(a, layers[i].value));
      Descriptor(LAYER_TYPE, |b|, BlobName(k.hex(b))))
  }

  /** The manifest of an image: config and layers by the digests and sizes of their blobs, in order. */
  function ImageManifest(k: Tools, a: Archive, config: Bytes, layers: seq<Option<string>>): Json
    requires AllStrings(layers)
  {
    V2Manifest(Descriptor(CONFIG_TYPE, |config|, BlobName(k.hex(config))), LayerDescriptors(k, a, layers))
  }

  lemma DescribedIsManifest(k: Tools, a: Archive, config: Bytes, layers: seq<Option<string>>, descriptors: seq<Json>)
    requires AllStrings(layers) && Described(k, a, layers, descriptors)
    ensures V2Manifest(Descriptor(CONFIG_TYPE, |config|, BlobName(k.hex(config))), descriptors)
            == ImageManifest(k, a, config, layers)
  {
    assert descriptors == LayerDescriptors(k, a, layers);
  }

  /** "latest", the tag and the digest of the manifest, all holding the manifest. */
  function ManifestFiles(k: Tools, mf: Json, tag: string): map<string, Bytes> {
    var b := k.marshal(mf);
    map["latest" := b][tag := b][BlobName(k.hex(b)) := b]
  }

  /** What the blobs directory is left with. */
  function BlobFiles(k: Tools, a: Archive, config: Bytes, layers: seq<Option<string>>): map<string, Bytes> {
    LayerBlobs(k, a, layers, map[BlobName(k.hex(config)) := config])
  }

  /** After the copy, the config is the only file. */
  lemma ConfigPlaced(k: Tools, root: Path, t: Files, config: Bytes)
    requires Fresh(t, root) && IsDir(t, root)
    ensures var name := BlobName(k.hex(config));
            var (t2, copied) := WriteFile(Mkdirs(t, root), BlobDir(root) + [name], config);
            && copied
            && SameDirs(Mkdirs(t, root), t2)
            && BlobDir(root) != ManifestDir(root)
            && DirHolds(t2, BlobDir(root), map[name := config]) && DirHolds(t2, ManifestDir(root), map[])
            && IsDir(t2, WorkDir(root)) && IsDir(t2, ManifestDir(root))
  {
    var name, t1 := BlobName(k.hex(config)), Mkdirs(t, root);
    MkdirsEffect(t, root);
    SamePath(WorkDir(root), "blobs", WorkDir(root), "manifests");
    MkdirsFlat(t, root);
    WriteInFlat(t1, BlobDir(root), name, config);
    WriteInDir(t1, BlobDir(root), name, config, BlobDir(root), map[]);
    WriteInDir(t1, BlobDir(root), name, config, ManifestDir(root), map[]);
  }

  /**
   * The preparation of an archive whose config is named by its hash succeeds exactly if its layers are named by
   * strings and the tag is a proper file name. Then it returns the manifest of the image.
   */
  lemma PreparationSucceeds(k: Tools, root: Path, t: Files, a: Archive, imageID: string, config: Bytes,
                            layers: seq<Option<string>>)
    requires Fresh(t, root) && IsDir(t, root) && NamedByHash(k, a, config, layers)
    requires Free(k.hex(config), '/') && OrdinaryTag(Tag(imageID))
    ensures Prepared(k, root, t, a, imageID).1.Done? <==> AllStrings(layers) && ProperTag(Tag(imageID))
  {
    var name := BlobName(k.hex(config));
    var t2 := WriteFile(Mkdirs(t, root), BlobDir(root) + [name], config).0;
    PreparedInFull(k, root, t, a, imageID, config, layers);
    ConfigPlaced(k, root, t, config);
    MkdirsFlat(t, root);
    LayersSucceed(k, t2, a, layers, BlobDir(root));
    if AllStrings(layers) {
      ManifestSucceeds(k, t2, a, config, layers, BlobDir(root), ManifestDir(root));
      var (t3, mf) := Manifest(k, t2, a, Some(layers), name, BlobDir(root) + [name], BlobDir(root));
      assert Parent(ManifestDir(root)) == WorkDir(root);
      ManifestsSucceed(k, t3, ManifestDir(root), Tag(imageID), mf.value);
    }
  }

  lemma ManifestSucceeds(k: Tools, t: Files, a: Archive, config: Bytes, layers: seq<Option<string>>, blobDir: Path,
                         other: Path)
    requires IsDir(t, blobDir) && NoSubdirs(t, blobDir) && AllStrings(layers)
    requires DirHolds(t, blobDir, map[BlobName(k.hex(config)) := config])
    requires other != blobDir && DirHolds(t, other, map[])
    ensures var name := BlobName(k.hex(config));
            var (t', mf) := Manifest(k, t, a, Some(layers), name, blobDir + [name], blobDir);
            mf.Some? && SameDirs(t, t')
  {
    var name := BlobName(k.hex(config));
    BlobNameIsNotTemp(k.hex(config));
    LayersSucceed(k, t, a, layers, blobDir);
    LayersEffect(k, t, a, layers, blobDir, map[name := config], other, map[]);
    NamesStay(k, a, layers, map[name := config], name);
    var (t', done) := Layers(k, t, a, layers, blobDir);
    assert done.Some?;
    assert FileAt(t', blobDir + [name]).Some?;
  }

  lemma {:induction false} NamesStay(k: Tools, a: Archive, layers: seq<Option<string>>, blobs: map<string, Bytes>,
                                     name: string)
    requires name in blobs
    ensures name in LayerBlobs(k, a, layers, blobs)
  {
    if layers != [] {
      NamesStay(k, a, layers[..|layers| - 1], blobs, name);
    }
  }

  /** The two directories after a preparation, and its result. */
  lemma PreparedInDirectories(k: Tools, root: Path, t: Files, a: Archive, imageID: string, config: Bytes,
                              layers: seq<Option<string>>)
    requires Fresh(t, root) && IsDir(t, root) && NamedByHash(k, a, config, layers)
    requires Free(k.hex(config), '/') && ProperTag(Tag(imageID)) && AllStrings(layers)
    requires NoCollision(k, Bodies(k, a, config, layers))
    ensures var (t', r) := Prepared(k, root, t, a, imageID);
            var mf := ImageManifest(k, a, config, layers);
            && r == Done(mf)
            && DirHolds(t', ManifestDir(root), ManifestFiles(k, mf, Tag(imageID)))
            && DirHolds(t', BlobDir(root), BlobFiles(k, a, config, layers))
            && ExactlyNamed(k, BlobFiles(k, a, config, layers), Bodies(k, a, config, layers))
  {
    var name := BlobName(k.hex(config));
    var t2 := WriteFile(Mkdirs(t, root), BlobDir(root) + [name], config).0;
    PreparationSucceeds(k, root, t, a, imageID, config, layers);
    PreparedInFull(k, root, t, a, imageID, config, layers);
    ConfigPlaced(k, root, t, config);
    var (t3, mf) := Manifest(k, t2, a, Some(layers), name, BlobDir(root) + [name], BlobDir(root));
    ManifestMade(k, t2, a, config, layers, BlobDir(root), ManifestDir(root));
    DescribedIsManifest(k, a, config, layers, Layers(k, t2, a, layers, BlobDir(root)).1.value);
    assert Parent(ManifestDir(root)) == WorkDir(root);
    ManifestsEffect(k, t3, ManifestDir(root), Tag(imageID), mf.value, BlobDir(root), BlobFiles(k, a, config, layers));
  }

  /**
   * A descriptor, and the file that it describes: the named file of the directory holds this content, and the
   * descriptor has its size and the media type.
   */
  ghost predicate Describes(k: Tools, t: Files, dir: Path, item: Json, mediaType: string, content: Bytes) {
    && item.Obj? && item.fields.Keys == {"mediaType", "size", "digest"}
    && item.fields["mediaType"] == Str(mediaType) && item.fields["size"] == Num(|content|)
    && item.fields["digest"] == Str("sha256:" + k.hex(content))
    && FileAt(t, dir + ["sha256:" + k.hex(content)]) == Some(content)
  }

  /** The manifest as the registry reads it: its config, and its layers in the order of the archive. */
  ghost predicate ManifestMatches(k: Tools, t: Files, blobDir: Path, mf: Json, a: Archive, config: Bytes,
                                  layers: seq<Option<string>>)
    requires AllStrings(layers)
  {
    && mf.Obj? && mf.fields.Keys == {"schemaVersion", "mediaType", "config", "layers"}
    && mf.fields["schemaVersion"] == Num(2)
    && mf.fields["mediaType"] == Str("application/vnd.docker.distribution.manifest.v2+json")
    && Describes(k, t, blobDir, mf.fields["config"], "application/vnd.docker.container.image.v1+json", config)
    && mf.fields["layers"].Arr? && |mf.fields["layers"].items| == |layers|
    && forall i :: 0 <= i < |layers| ==>
         var unpacked := if layers[i].value in a.files then a.files[layers[i].value] else [];
         Describes(k, t, blobDir, mf.fields["layers"].items[i], "application/vnd.docker.image.rootfs.diff.tar.gzip",
                   k.gzip(unpacked))
  }

  /**
   * Prepared images are closed. For every archive with any number of layers and any repetitions among them,
   * the preparation returns a manifest that describes config and layers, in order, by the digests and sizes of the blob
   * files of those names; there are no other blob files; and "latest", the tag and the digest, and nothing
   * else in the manifests directory, hold that same manifest.
   */
  lemma PreparedIsClosed(k: Tools, root: Path, t: Files, a: Archive, imageID: string, config: Bytes,
                         layers: seq<Option<string>>)
    requires Fresh(t, root) && IsDir(t, root) && NamedByHash(k, a, config, layers)
    requires Free(k.hex(config), '/') && ProperTag(Tag(imageID)) && AllStrings(layers)
    requires NoCollision(k, Bodies(k, a, config, layers))
    ensures var (t', r) := Prepared(k, root, t, a, imageID);
            var blobs, manifests := root + ["default"] + ["blobs"], root + ["default"] + ["manifests"];
            && r.Done? && ManifestMatches(k, t', blobs, r.mf, a, config, layers)
            && (forall n :: FileAt(t', blobs + [n]).Some? ==>
                  var x := FileAt(t', blobs + [n]).value;
                  n == "sha256:" + k.hex(x)
                  && (x == config || exists i :: 0 <= i < |layers| && x == k.gzip(LayerData(a, layers[i].value))))
            && var b := k.marshal(r.mf);
               forall n :: FileAt(t', manifests + [n])
                           == if n == "latest" || n == Tag(imageID) || n == "sha256:" + k.hex(b) then Some(b) else None
  {
    var t', mf := Prepared(k, root, t, a, imageID).0, ImageManifest(k, a, config, layers);
    PreparedInDirectories(k, root, t, a, imageID, config, layers);
    BlobsMatch(k, t', BlobDir(root), BlobFiles(k, a, config, layers), a, config, layers);
    ManifestsMatch(k, t', ManifestDir(root), mf, Tag(imageID));
  }

  lemma BlobsMatch(k: Tools, t: Files, blobDir: Path, blobs: map<string, Bytes>, a: Archive, config: Bytes,
                   layers: seq<Option<string>>)
    requires AllStrings(layers) && DirHolds(t, blobDir, blobs)
    requires ExactlyNamed(k, blobs, Bodies(k, a, config, layers))
    ensures ManifestMatches(k, t, blobDir, ImageManifest(k, a, config, layers), a, config, layers)
    ensures forall n :: FileAt(t, blobDir + [n]).Some? ==>
              var x := FileAt(t, blobDir + [n]).value;
              n == "sha256:" + k.hex(x)
              && (x == config || exists i :: 0 <= i < |layers| && x == k.gzip(LayerData(a, layers[i].value)))
  {
    var mf := ImageManifest(k, a, config, layers);
    assert config in Bodies(k, a, config, layers);
    HeldByName(k, t, blobDir, blobs, Bodies(k, a, config, layers), config);
    forall i | 0 <= i < |layers|
      ensures Describes(k, t, blobDir, mf.fields["layers"].items[i], LAYER_TYPE, k.gzip(LayerData(a, layers[i].value)))
    {
      var x := k.gzip(LayerData(a, layers[i].value));
      assert x in Bodies(k, a, config, layers);
      HeldByName(k, t, blobDir, blobs, Bodies(k, a, config, layers), x);
    }
    forall n | FileAt(t, blobDir + [n]).Some?
      ensures var x := FileAt(t, blobDir + [n]).value;
              n == "sha256:" + k.hex(x)
              && (x == config || exists i :: 0 <= i < |layers| && x == k.gzip(LayerData(a, layers[i].value)))
    {
      assert n in blobs && blobs[n] in Bodies(k, a, config, layers);
    }
  }

  lemma HeldByName(k: Tools, t: Files, blobDir: Path, blobs: map<string, Bytes>, bodies: set<Bytes>, x: Bytes)
    requires DirHolds(t, blobDir, blobs) && ExactlyNamed(k, blobs, bodies) && x in bodies
    ensures FileAt(t, blobDir + ["sha256:" + k.hex(x)]) == Some(x)
  {
    assert BlobName(k.hex(x)) in blobs;
  }

  lemma ManifestsMatch(k: Tools, t: Files, dir: Path, mf: Json, tag: string)
    requires DirHolds(t, dir, ManifestFiles(k, mf, tag))
    ensures var b := k.marshal(mf);
            forall n :: FileAt(t, dir + [n])
                        == if n == "latest" || n == tag || n == "sha256:" + k.hex(b) then Some(b) else None
  {
  }

  /** Why a preparation can fail before it copies anything, or panic: by the first entry of the archive alone. */
  lemma PreparationStarts(k: Tools, root: Path, t: Files, a: Archive, imageID: string)
    ensures var r := Prepared(k, root, t, a, imageID).1;
            var named := a.entries.Some? && a.entries.value != [] && a.entries.value[0].config.Some?;
            && (r == Panicked <==> named && |a.entries.value[0].config.value| < 5)
            && (r.Done? ==> named && a.entries.value[0].config.value in a.files && a.entries.value[0].layers.Some?)
  {
    if a.entries.Some? && a.entries.value != [] && a.entries.value[0].config.Some? {
      var entry, t1 := a.entries.value[0], Mkdirs(t, root);
      var configFile := entry.config.value;
      if |configFile| >= 5 && configFile in a.files {
        var digest := BlobName(configFile[..|configFile| - 5]);
        var dest := Clean(BlobDir(root), Split(digest, '/'));
        var (t3, mf) := Manifest(k, WriteFile(t1, dest, a.files[configFile]).0, a, entry.layers, digest, dest,
                                 BlobDir(root));
        if mf.Some? { NeverPanics(k, t3, ManifestDir(root), Tag(imageID), mf.value); }
      }
    }
  }

  lemma NeverPanics(k: Tools, t: Files, dir: Path, tag: string, mf: Json)
    ensures Manifests(k, t, dir, tag, mf).1 != Panicked
  {
  }

  lemma {:induction false} SuffixContained(s: string, i: nat, sub: string)
    requires i <= |s| && sub <= s[i..]
    ensures Contains(s, sub)
  {
    if i > 0 {
      assert s[1..][i - 1..] == s[i..];
      SuffixContained(s[1..], i - 1, sub);
    } else {
      assert s[0..] == s;
    }
  }

  lemma {:induction false} ContainedSomewhere(s: string, sub: string)
    requires Contains(s, sub)
    ensures exists i :: 0 <= i <= |s| && sub <= s[i..]
  {
    if sub <= s {
      assert s[0..] == s;
    } else {
      ContainedSomewhere(s[1..], sub);
      var i :| 0 <= i <= |s[1..]| && sub <= s[1..][i..];
      assert s[i + 1..] == s[1..][i..];
    }
  }

  /** The tag of `name:tag`, and of a name alone; an id with "sha256:" in it counts as untagged. */
  lemma TagOfId(name: string, tag: string)
    requires Free(name, ':')
    ensures (forall i :: 0 <= i <= |name + ":" + tag| ==> !("sha256:" <= (name + ":" + tag)[i..])) ==>
              Tag(name + ":" + tag) == tag
    ensures (exists i :: 0 <= i <= |name + ":" + tag| && "sha256:" <= (name + ":" + tag)[i..]) ==>
              Tag(name + ":" + tag) == "latest"
    ensures Tag(name) == "latest"
  {
    var id := name + ":" + tag;
    CutAt(name, tag, ':');
    assert id == name + [':'] + tag;
    if Contains(id, "sha256:") {
      ContainedSomewhere(id, "sha256:");
    } else if i :| 0 <= i <= |id| && "sha256:" <= id[i..] {
      SuffixContained(id, i, "sha256:");
    }
    if Contains(name, "sha256:") { ContainedSomewhere(name, "sha256:"); }
  }

  /** A tag is never shaped like a digest. */
  lemma TagIsNoDigest(imageID: string)
    ensures !HasPrefix(Tag(imageID), "sha256:")
  {
    var parts := Cut(imageID, ':');
    if !Contains(imageID, "sha256:") && |parts| == 2 && HasPrefix(parts[1], "sha256:") {
      assert imageID == Join(parts, ':') == parts[0] + [':'] + parts[1];
      assert imageID[|parts[0]| + 1..] == parts[1];
      SuffixContained(imageID, |parts[0]| + 1, "sha256:");
    }
  }
}
