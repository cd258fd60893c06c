/** How URL paths select a handler, and the upload locations the blob handler hands out (blobs.go, manifest.go). */
module Routes {
  import opened Text

  /**
   * A blob route keeps the name segments as the two kinds of request see them: `opening` leaves out the last
   * two elements, as for ".../blobs/uploads", and `session` the last three, as for ".../blobs/uploads/<id>".
   */
  datatype Route =
    | BlobRoute(repo: string, service: string, target: string, opening: seq<string>, session: seq<string>)
    | NameInvalid
    | ManifestRoute(repo: string, target: string)
    | BaseRoute
    | Unknown

  /** Without the empty element that a trailing slash leaves. */
  function Trim(elem: seq<string>): seq<string> {
    if elem != [] && elem[|elem| - 1] == "" then elem[..|elem| - 1] else elem
  }

  predicate IsBlob(elem: seq<string>) {
    var e := Trim(elem);
    var n := |e|;
    n >= 3 && (e[n - 2] == "blobs" || (e[n - 3] == "blobs" && e[n - 2] == "uploads"))
  }

  predicate IsManifest(elem: seq<string>) {
    |elem| >= 4 && elem[|elem| - 2] == "manifests"
  }

  function RouteOf(elem: seq<string>): Route {
    if IsBlob(elem) then
      var e := Trim(elem);
      var n := |e|;
      if n < 4 then NameInvalid
      else
        var opening, session := e[1..n - 2], e[1..n - 3];
        BlobRoute(Join(if e[n - 2] == "uploads" then session else opening, '/'), e[n - 2], e[n - 1], opening, session)
    else if IsManifest(elem) then
      ManifestRoute(Join(elem[1..|elem| - 2], '/'), elem[|elem| - 1])
    else if elem == ["v2", ""] || elem == ["v2"] then BaseRoute
    else Unknown
  }

  /** The location of an upload session of the repository with these name segments. */
  function Location(name: seq<string>, id: string): string {
    "/" + Join(Clean([], ["v2"] + name + ["blobs", "uploads", id]), '/')
  }

  /** The elements of the path that a location is followed to. */
  function Follow(location: string): seq<string> {
    Split(location, '/')[1..]
  }

  ghost predicate CleanName(name: seq<string>) {
    name != [] && AllPlain(name) && AllFree(name, '/')
  }

  function Opening(name: seq<string>, slash: bool): seq<string> {
    ["v2"] + name + ["blobs", "uploads"] + if slash then [""] else []
  }

  function Session(name: seq<string>, id: string): seq<string> {
    ["v2"] + name + ["blobs", "uploads", id]
  }

  lemma SessionIsClean(name: seq<string>, id: string)
    requires CleanName(name) && Plain(id) && Free(id, '/')
    ensures AllPlain(Session(name, id)) && AllFree(Session(name, id), '/')
  {
    var e := Session(name, id);
    forall i | 0 <= i < |e|
      ensures Plain(e[i]) && Free(e[i], '/')
    {
      if 1 <= i < |name| + 1 { assert e[i] == name[i - 1]; }
    }
  }

  lemma FollowLocation(name: seq<string>, id: string)
    requires CleanName(name) && Plain(id) && Free(id, '/')
    ensures Follow(Location(name, id)) == Session(name, id)
  {
    var e := Session(name, id);
    SessionIsClean(name, id);
    CleanPlain([], e);
    assert [] + e == e;
    assert Location(name, id) == "/" + Join(e, '/');
    FollowRooted(e);
  }

  lemma FollowRooted(e: seq<string>)
    requires e != [] && AllFree(e, '/')
    ensures Follow("/" + Join(e, '/')) == e
  {
    JoinRooted(e, '/');
    SplitOfJoin([""] + e, '/');
    assert ([""] + e)[1..] == e;
  }

  lemma RouteOfTrimmed(elem: seq<string>, e: seq<string>)
    requires Trim(elem) == e && |e| >= 4
    requires e[|e| - 2] == "blobs" || (e[|e| - 3] == "blobs" && e[|e| - 2] == "uploads")
    ensures var opening, session := e[1..|e| - 2], e[1..|e| - 3];
            var repo := Join(if e[|e| - 2] == "uploads" then session else opening, '/');
            RouteOf(elem) == BlobRoute(repo, e[|e| - 2], e[|e| - 1], opening, session)
  {
  }

  lemma RouteOfOpening(name: seq<string>, slash: bool)
    requires name != []
    ensures var r := RouteOf(Opening(name, slash));
            r.BlobRoute? && r.repo == Join(name, '/') && r.target == "uploads" && r.opening == name
  {
    var e := Opening(name, false);
    assert Trim(Opening(name, slash)) == e;
    assert e[1..|e| - 2] == name;
    RouteOfTrimmed(Opening(name, slash), e);
  }

  lemma RouteOfSession(name: seq<string>, id: string)
    requires name != [] && Plain(id)
    ensures var r := RouteOf(Session(name, id));
            r.BlobRoute? && r.repo == Join(name, '/') && r.service == "uploads" && r.target == id && r.session == name
  {
    var e := Session(name, id);
    assert Trim(e) == e;
    assert e[1..|e| - 3] == name;
    RouteOfTrimmed(e, e);
  }

  function BlobPath(name: seq<string>, digest: string): seq<string> {
    ["v2"] + name + ["blobs", digest]
  }

  function ManifestPath(name: seq<string>, reference: string): seq<string> {
    ["v2"] + name + ["manifests", reference]
  }

  lemma RouteOfBlob(name: seq<string>, digest: string)
    requires name != [] && digest != ""
    ensures var r := RouteOf(BlobPath(name, digest));
            r.BlobRoute? && r.repo == Join(name, '/') && r.service == "blobs" && r.target == digest
  {
    var e := BlobPath(name, digest);
    assert Trim(e) == e;
    assert e[1..|e| - 2] == name;
    RouteOfTrimmed(e, e);
  }

  lemma RouteOfManifest(name: seq<string>, reference: string)
    requires name != [] && reference != ""
    ensures RouteOf(ManifestPath(name, reference)) == ManifestRoute(Join(name, '/'), reference)
  {
    var e := ManifestPath(name, reference);
    assert Trim(e) == e;
    assert e[|e| - 2] == "manifests";
    assert e[1..|e| - 2] == name;
  }

  /** The paths that no repository name is left in. */
  lemma NamelessPaths(elem: seq<string>)
    ensures RouteOf(elem) == NameInvalid <==>
              var e := Trim(elem);
              |e| == 3 && (e[1] == "blobs" || (e[0] == "blobs" && e[1] == "uploads"))
    ensures RouteOf(["v2"]) == RouteOf(["v2", ""]) == BaseRoute
  {
  }

  /**
   * The location returned by opening an upload leads to the handler of that upload, with the same repository
   * and the issued id, and every PATCH sent there returns the same location again. A trailing slash on
   * the opening request makes no difference.
   */
  lemma LocationRoundTrip(name: seq<string>, id: string, slash: bool)
    requires CleanName(name) && Plain(id) && Free(id, '/')
    ensures var r := RouteOf(Opening(name, slash));
            && r.BlobRoute? && r.repo == Join(name, '/') && r.target == "uploads"
            && var r' := RouteOf(Follow(Location(r.opening, id)));
               && r'.BlobRoute? && r'.repo == Join(name, '/') && r'.service == "uploads" && r'.target == id
               && Location(r'.session, id) == Location(r.opening, id)
  {
    RouteOfOpening(name, slash);
    FollowLocation(name, id);
    RouteOfSession(name, id);
  }

  /** Exactly the paths that both handlers would claim: they end in a slash, and the blob handler gets them. */
  lemma HandlersOverlap(elem: seq<string>)
    ensures IsBlob(elem) && IsManifest(elem) <==>
              && |elem| >= 4 && elem[|elem| - 1] == "" && elem[|elem| - 2] == "manifests"
              && (elem[|elem| - 3] == "blobs" || (elem[|elem| - 4] == "blobs" && elem[|elem| - 3] == "uploads"))
    ensures elem != [] && elem[|elem| - 1] != "" ==> !(IsBlob(elem) && IsManifest(elem))
  {
  }
}
