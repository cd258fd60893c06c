/** What the registry sees of the world: HTTP requests and responses, and the functions it calls but does not define. */
module World {
  import opened Text
  import opened FileTree

  /** The parts of a decoded image manifest in use; `digests` is absent when listing them would panic. */
  datatype Decoded = Decoded(mediaType: string, digests: Option<seq<string>>)

  /**
   * The foreign functions: the hexadecimal SHA-256 of some bytes, JSON decoding of image manifests and of
   * indexes (to the digests of their children), `Sscanf` of a Content-Range, conversion of a cid to
   * its canonical version 1 base32 form (empty if it is none), the configured resolvers, and the root of the cid store.
   */
  datatype World = World(
    hex: Bytes -> string,
    decode: Bytes -> Option<Decoded>,
    children: Bytes -> Option<seq<string>>,
    parseRange: string -> Option<(int, int)>,
    toB32: string -> string,
    resolver: (string, string) -> seq<string>,
    location: Path)
  {
    /** `computeDigest` */
    function Digest(b: Bytes): string {
      "sha256:" + hex(b)
    }

    /** The config and layer digests of an image manifest. */
    function Digests(b: Bytes): Option<seq<string>> {
      match decode(b)
      case None => None
      case Some(d) => d.digests
    }
  }

  datatype Verb = GET | HEAD | POST | PATCH | PUT | OTHER

  /** `elem` is the URL path split at its slashes, without the empty part before the first one. */
  datatype Request = Request(
    verb: Verb, elem: seq<string>, digest: string, contentRange: string, contentType: string, body: Bytes)

  datatype Response =
    | Refused(status: nat, code: string)
    | Found(digest: string, cid: string, contentType: string, body: Bytes)
    | FoundHead(digest: string, contentType: string, length: nat)
    | Started(location: string)
    | Received(location: string, rangeEnd: int)
    | Created(digest: string, cid: string)
    | Welcome
    | Panicked
    | Hangs

  const OCI_INDEX := "application/vnd.oci.image.index.v1+json"
  const DOCKER_LIST := "application/vnd.docker.distribution.manifest.list.v2+json"

  predicate IsIndexType(contentType: string) {
    contentType == OCI_INDEX || contentType == DOCKER_LIST
  }
}
