# A verified model of IPDR

IPDR is a Docker registry that keeps its images on IPFS. This project models three parts of it in Dafny and proves
what they promise:

- **The registry server** (`server/registry/`): HTTP pushes and pulls as steps on one state made of upload sessions,
  content-addressed blobs, per-repository layer lists, a manifest cache, an index from `repo:reference` to
  content ids with files behind it, and the published images.
- **The hash names** (`regutil/`): base58 content hashes spelled in the lower-case base32 that Docker accepts, and back.
- **The client's image preparation** (`registry/`): a `docker save` archive turned into the directory that is uploaded.

## How it is organised

| file | contents |
|---|---|
| `Text.dfy` | splitting, joining and cleaning of paths |
| `FileTree.dfy` | a directory tree whose writes fail on file/directory conflicts only |
| `World.dfy`, `Routes.dfy` | requests, responses and foreign functions; which path reaches which handler |
| `CidStore.dfy` | the cid index as a class over a map and a tree, and its lookups across restarts |
| `BlobSpec.dfy`, `BlobStore.dfy` | the blob handler as functions, and as a class over Go slices with shared backing arrays |
| `ManifestSpec.dfy`, `Registry.dfy` | the whole server as functions, and as a class composed of the two stores |
| `Runs.dfy`, `Uploads.dfy` | runs of requests: upload reassembly and whole uploads, conservation, closure, the lost mutex |
| `Coherence.dfy`, `PushPull.dfy`, `ClientPush.dfy` | the invariant of well-behaved runs, and push-then-pull on top of it |
| `Answers.dfy` | the answer to every kind of request, what it leaves behind, and pulls by cid, hash and tag |
| `Restarts.dfy` | what survives restarts of the server: coherence, and pushed tags with their blobs |
| `IndexIntegrity.dfy` | immutable digests, and the rank of the reference graph of indexes |
| `Locks.dfy` | any number of concurrent handlers, one lock operation a step |
| `Resolvers.dfy` | the chain of resolvers |
| `Numerals.dfy`, `HashNames.dfy` | numerals in bases 32, 58 and 256, base58, base32 (section 6 of RFC 4648), the conversion |
| `ImagePrep.dfy`, `PreparedImages.dfy` | the preparation of an image, and why the server can serve the result |

Each class method is proved equal to a function on values; the theorems are about those functions, over single steps,
over whole runs, or over whole schedules.

The SHA-256 hash, gzip, JSON, `ParseIndexManifest`, `Sscanf` of a range, the conversion of cids and the resolvers
are function-valued parameters. Collision-freeness is a hypothesis about the finitely many bodies a run sees
(`Coherence.CollisionFree`, `ImagePrep.NoCollision`), never an axiom.

## What a well-behaved run is

`Coherence.GoodEvent` says it event by event. A manifest PUT that passes the index check goes to a repository that is not
itself a cid, its digest-shaped target is honest, the repository is complete, the digests of the manifest are in the
layer list (by `PushPull.LayersAreCommits`: were committed to it since its last publication), and `AddImage` publishes
under a fresh cid or the same image again. Repositories and references are clean path segments, repositories
without a colon. Pulls, including pulls of a repository that is a cid, are otherwise free, and so are uploads.
Images published elsewhere are well formed; `PreparedImages.PreparedIsWellFormed` shows that prepared ones are.
`ClientPush.PushSucceeds` shows what a client does to stay within these conditions.

## What the code does that its readers may not expect

- A PUT whose layers are missing is refused but has been cached: HEAD serves it (`Runs.RefusedButServed`), and the blob mutex
  is never released again (`Runs.LockLost`, `Runs.FrozenOnceLocked`, `Locks.LeakIsForever`).
- `AddImage` reports a failure to send as an empty cid without an error, so the PUT is answered 201 and the
  empty cid is indexed; the model keeps this (`SendFailed`), and well-behaved runs exclude it.
- The `end` of a Content-Range is parsed and ignored.
- HEAD of a blob that is only on IPFS reports length 0, because the body it measures is that of a HEAD response.
- GET of a manifest without a config panics after its fetch has been cached; the handler's deferred unlock still runs.
- An index entry whose cid is the repository itself is kept in memory only, so that after a restart an older entry of that
  tag comes back (`CidStore.SelfAddForgotten`, `CidStore.StaleExactly`).
- A second manifest PUT to a repository without a blob committed in between, such as that of an index right after its last
  child, loses the blob mutex (`Runs.RepublishingLosesLock`).
- A blob committed while a PUT is between `get` and `remove` is deleted without being published (`Locks.LateCommitLoses`).
- The tag of an image id is what follows its first colon, so an id with a registry port has a tag with a slash,
  whose manifest file cannot be written (`ImagePrep.PreparationSucceeds`).
- A repository name such as `busybox`, of seven letters, is tried as a hash before the resolvers are asked
  (`HashNames.NamesOfHashes`).
- The hash conversion loses the last byte of hashes whose length is a positive multiple of five
  (`HashNames.HashRoundTrip`); multihashes have 34 bytes.

## Model

| member | source | states |
|---|---|---|
| HashNames.Encode58Decode58 | regutil/regutil.go:23 | decoding loses nothing: every valid base58 string is recovered, leading ones included |
| HashNames.Decode58Encode58 | regutil/regutil.go:42 | every byte string is recovered from its base58 form, leading zeros included |
| HashNames.Decode32Encode32 | regutil/regutil.go:24-37 | the RFC 4648 base32 round trip, through the padded quantum |
| HashNames.Decode32Chopped | regutil/regutil.go:26-37 | an unpadded encoding with its last symbol replaced by '=' decodes to all bytes but the last |
| HashNames.HashRoundTrip | regutil/regutil.go:19-43 | for every valid base58 hash the conversion there and back is the identity iff the hash is empty or its length no multiple of five; otherwise exactly the last byte is lost |
| HashNames.PrefixIgnored | regutil/regutil.go:20-22 | a leading "/ipfs/" makes no difference |
| HashNames.LaterLinesIgnored | regutil/regutil.go:20-22 | nor do further lines after the hash |
| HashNames.MultihashSurvives | regutil/regutil.go:19-43 | all 34-byte multihashes survive the round trip |
| HashNames.MultihashNamesDistinct | regutil/regutil.go:19-33 | no two multihashes share a Docker name |
| HashNames.InvalidHasNoName | regutil/regutil.go:23-32 | a string outside the base58 alphabet gets the empty name |
| HashNames.Characters58 | regutil/regutil.go:23 | the base58 characters are those of the Bitcoin alphabet, in its order |
| HashNames.Characters32 | regutil/regutil.go:24-33 | the base32 characters are those of RFC 4648 in their order, and lower-cased |
| HashNames.Encode58Spells | regutil/regutil.go:42 | base58 is a 1 for each leading zero byte and then the number that the bytes are in base 256 |
| HashNames.Encode32Spells | regutil/regutil.go:24 | base32 symbol by symbol: the five bits of its group that it stands for, then padding |
| HashNames.DockerName | regutil/regutil.go:19-33 | the Docker name of a multihash symbol by symbol: its base32 form in lower case without padding |
| HashNames.DockerNameIsPlain | regutil/regutil.go:19-33 | such a name has the expected length and only small letters and figures |
| HashNames.NamesOfHashes | regutil/regutil.go:35-43 | a name is taken for a hash iff it has only letters and the figures 2 to 7 and its length is one less than a multiple of eight |
| CidStore.Store.constructor | server/registry/cids.go:76-82 | a new store has an empty memory over whatever is on disk |
| CidStore.Store.Add | server/registry/cids.go:24-37 | memory always, disk only for a tag whose cid is not the repository |
| CidStore.Store.Get | server/registry/cids.go:39-54 | memory first, then the file of the pair |
| CidStore.Store.ReadCID | server/registry/cids.go:56-64 | the content of the file at the key's path, if it is a file |
| CidStore.Store.WriteCID | server/registry/cids.go:66-74 | directories are made, then the file is written; a conflict leaves the tree as far as it got |
| CidStore.KeyRecoversPair | server/registry/cids.go:20-22 | splitting a key at its first colon gives back the pair for every colon-free repository, digest references included |
| CidStore.KeyInjective | server/registry/cids.go:20-22 | keys are equal iff the pairs are |
| CidStore.FilePathInjective | server/registry/cids.go:56-74 | clean pairs share a file iff they are equal |
| CidStore.LookupAfterAdd | server/registry/cids.go:24-54 | an addition is visible at once and changes the lookup of no other pair, on disk either |
| CidStore.DiskAfter | server/registry/cids.go:31-34 | after any history the file of a pair holds its latest addition whose cid is not the repository itself, or nothing exactly if its path is blocked; a digest is never written |
| CidStore.LookupAfterHistory | server/registry/cids.go:24-74 | across restarts a lookup is the last addition since the restart, else what the file holds in that sense |
| CidStore.StaleExactly | server/registry/cids.go:31-34 | a lookup is neither the last addition nor a miss exactly if that addition named its own repository as cid, a restart followed, and an earlier one is in the file |
| CidStore.StaleAfterSelfAdd | server/registry/cids.go:31-34 | after any history, adding a cid, then the repository itself, then a restart brings the cid back |
| CidStore.SelfAddForgotten | server/registry/cids.go:31-34 | an addition whose cid is its own repository leaves nothing behind a restart |
| FileTree.WriteUnderEffect | server/registry/cids.go:66-74 | making directories and writing a file succeeds iff the path is not blocked, and touches no other file |
| Resolvers.Uniq | server/registry/resolv.go:197-207 | every string once, none added or lost |
| Resolvers.Sort | server/registry/resolv.go:193 | an increasing list of the same strings |
| Resolvers.BelowByIndex | server/registry/resolv.go:193 | the order of the list is that of the first character that differs, a proper prefix first |
| Resolvers.Resolve | server/registry/resolv.go:181-195 | with a reference the answer of the resolver before which all answer nil, or nothing; without one the increasing list of the union of all answers |
| Resolvers.ListingCanonical | server/registry/resolv.go:180-195 | a listing is the same for every order of the resolvers |
| Routes.LocationRoundTrip | server/registry/blobs.go:64-84 | the Location of a new upload leads back to the same repository and id, and each PATCH there returns the same Location |
| Routes.HandlersOverlap | server/registry/manifest.go:46-53 | exactly the slash-terminated paths that both handlers would claim; without a trailing slash they exclude each other |
| Routes.RouteOfBlob | server/registry/blobs.go:64-84 | the path of a blob leads to its repository and digest |
| Routes.RouteOfManifest | server/registry/manifest.go:57-61 | the path of a manifest leads to its repository and reference |
| Routes.NamelessPaths | server/registry/blobs.go:64-76 | exactly the blob paths that name no repository are invalid |
| BlobStore.ReadInto | server/registry/blobs.go:238-239 | reading a body into a buffer over a slice appends it, in place or in a new array, and leaves the slice's own bytes alone |
| BlobStore.Store.Extended | server/registry/blobs.go:279-280 | extending a session's buffer changes no stored bytes, even when it writes into shared spare capacity |
| BlobStore.Store.Handle | server/registry/blobs.go:189-305 | POST, PATCH and PUT act on the byte sequences as specified, keeping all backing arrays disjoint |
| BlobStore.Store.PostBlob | server/registry/blobs.go:189-210 | a monolithic upload is committed iff its digest is right |
| BlobStore.Store.PatchRange | server/registry/blobs.go:220-245 | a ranged chunk is accepted iff it starts where the session ends |
| BlobStore.Store.PatchUpload | server/registry/blobs.go:258-265 | an accepted chunk is appended to the session and counted in the answer |
| BlobStore.Store.PutUpload | server/registry/blobs.go:276-298 | the session plus the final body is committed iff its digest is right, and the session ends |
| BlobStore.Store.Get | server/registry/blobs.go:307-326 | exactly the listed blobs of a complete repository; on failure the mutex stays held |
| BlobStore.Store.Remove | server/registry/blobs.go:328-342 | the layer list and its blobs are gone; the early return keeps the mutex |
| BlobSpec.WriteTouchesItsOwn | server/registry/blobs.go:189-305 | an unsuccessful request leaves no trace; a successful one touches its own session, digest and repository only |
| BlobSpec.RemovalKeepsComplete | server/registry/blobs.go:328-342 | publishing one repository leaves another complete iff they share no digest |
| BlobSpec.RemovalKeepsAllComplete | server/registry/blobs.go:328-342 | completeness of all repositories survives a removal when nothing is shared |
| BlobSpec.WriteKeepsAddressing | server/registry/blobs.go:202-206 | every key stays the digest of its bytes |
| Registry.Registry.Resolve | server/registry/registry.go:178-197 | index, then the name as a cid in either spelling, then the resolvers |
| Registry.Registry.ResolveCID | server/registry/registry.go:167-176 | the first hit, an empty reference meaning "latest" |
| Registry.Registry.Fetch | server/registry/manifest.go:209-236 | cached, or fetched, cached under target and digest, and its digest indexed |
| Registry.Registry.GetManifestOf | server/registry/manifest.go:63-98 | the manifest is served and its digests are indexed under its image; a panic or a refusal in the cases where the code does |
| Registry.Registry.HeadManifest | server/registry/manifest.go:100-118 | the same lookup without the digests |
| Registry.Registry.CheckIndex | server/registry/manifest.go:140-160 | an index passes iff it parses and all its children are cached |
| Registry.Registry.PutManifest | server/registry/manifest.go:120-201 | the whole PUT, cache insertion before the layers are looked at |
| Registry.Registry.TakeLayers | server/registry/manifest.go:167-177 | `get` and `remove`: exactly the blobs of the layer list leave the store |
| Registry.Registry.AddImage | server/registry/manifest.go:179-195 | the image is published under target, digest and "latest", and indexed three times |
| Registry.Registry.HeadBlobOf | server/registry/blobs.go:86-141 | local blobs first, then IPFS |
| Registry.Registry.GetBlobOf | server/registry/blobs.go:143-187 | the blob of that digest in the image the pair resolves to |
| Registry.Registry.Handle | server/registry/registry.go:66-83 | every request acts on the whole server as the specification says |
| Runs.AlwaysContentAddressed | server/registry/blobs.go:189-298 | in every run each key of the blob store is the digest of its bytes |
| Runs.UploadReassembly | server/registry/blobs.go:220-298 | in every run a session is the in-order concatenation of the bodies accepted since its last commit, whatever intervenes |
| Runs.SessionAnswers | server/registry/blobs.go:220-298 | accepted ranged chunks start where the previous ones end, and a commit stores the concatenation followed by the PUT body under its digest |
| Runs.LocationsLeadBack | server/registry/blobs.go:212-265 | the answer to an opening POST leads to its session, and every accepted chunk there answers with the same location |
| Uploads.SessionAnswersExactly | server/registry/blobs.go:220-298 | in every run with the mutex free, a session PUT commits iff its digest is that of the accepted chunks and its body; a ranged PATCH is accepted iff it starts at their end, an unranged one iff there are none |
| Uploads.PostAnswers | server/registry/blobs.go:189-210 | a POST with a digest commits iff the digest is right, and is refused before it waits |
| Uploads.ChunkedUploadCommits | server/registry/blobs.go:212-298 | whatever the split into chunks, an opening POST, the PATCHes and the PUT are all accepted, and exactly their bytes are committed |
| Uploads.OtherVerbsRefused | server/registry/blobs.go:300-304 | what no handler understands is refused without effect |
| Runs.RetransmissionRejected | server/registry/blobs.go:229-237 | an accepted ranged chunk with a body is never accepted again before a commit |
| Runs.BlobsConserved | server/registry/manifest.go:167-184 | in every run each committed digest is still held or was handed to `AddImage` |
| Runs.AlwaysAllComplete | server/registry/blobs.go:307-342 | in every run in which repositories share no digests, each holds all the layers it lists |
| Runs.LockLost | server/registry/blobs.go:308-320 | the blob mutex is lost by exactly those PUTs whose `get` fails, and for good |
| Runs.RepublishingLosesLock | server/registry/blobs.go:308-342 | after a publication the next PUT to the repository that passes the index check loses the mutex unless a blob is committed to it in between |
| Runs.FrozenOnceLocked | server/registry/blobs.go:86-298 | from then on the blob store never changes and every write hangs or is refused |
| Runs.RefusedButServed | server/registry/manifest.go:162-174 | the refused manifest is served by HEAD, and by GET iff its reference resolved before and its digests can be listed |
| Runs.CacheGrows | server/registry/manifest.go:162-165 | no cached reference ever disappears |
| Runs.IndexChildrenStay | server/registry/manifest.go:140-165 | the children of an accepted index are in the same repository in every later state |
| Coherence.FetchKeepsCoherent | server/registry/manifest.go:209-236 | a fetch keeps cache, index and images in agreement |
| Coherence.GetKeepsCoherent | server/registry/manifest.go:76-96 | so does a GET, and it answers with the cached bytes and indexes every digest |
| Coherence.PutKeepsCoherent | server/registry/manifest.go:162-195 | so does a PUT that completes |
| Coherence.AlwaysCoherent | server/registry/manifest.go:57-236 | in every well-behaved run, each cached pair resolves to an image with the same bytes under that key, and each indexed digest to an image that holds it |
| Coherence.StartIsCoherent | server/registry/registry.go:201-230 | a new server over well-formed images is coherent |
| Answers.OtherPathsAnswered | server/registry/registry.go:66-83 | the version check is welcomed, other paths of no handler are unknown |
| Answers.ResolvesByIndex | server/registry/registry.go:178-188 | an index entry comes first, then a repository that is a cid stands for itself; an empty reference is "latest" |
| Answers.ResolvesByHash | server/registry/registry.go:189-193 | the Docker name of a multihash resolves to the cid of the hash |
| Answers.HashNameIsClean | regutil/regutil.go:19-33 | the Docker name of a multihash is a repository name that the index can file |
| Answers.ResolvesByResolver | server/registry/registry.go:195-196 | any other name gets the first answer of the resolvers |
| Answers.FetchedAnswers | server/registry/manifest.go:209-257 | GET and HEAD of what is not cached answer from the image that the pair resolves to, with the media type and digest of its bytes, or not at all |
| Answers.FetchedIsKept | server/registry/manifest.go:227-233 | a fetched manifest is cached under reference and digest, and the digest is indexed |
| Answers.CachedAnswers | server/registry/manifest.go:63-118 | GET and HEAD of what is cached answer with it; a GET also needs the reference to resolve |
| Answers.PutAnswers | server/registry/manifest.go:120-201 | the answer of every PUT: an index passes iff it parses and its children are cached, then the mutex, the layers and `AddImage` decide |
| Answers.PutPublishes | server/registry/manifest.go:167-195 | an accepted PUT publishes the body under target, digest and "latest" with exactly the blobs listed, and indexes all three |
| Answers.TagAnswers | server/registry/manifest.go:63-118 | in every run a tag is answered with content type and bytes of the last PUT of it that passed the index check |
| Answers.HangingPutStopsAll | server/registry/manifest.go:121-167 | a PUT that waits for the lost blob mutex makes every later manifest request hang |
| Answers.BlobGetAnswers | server/registry/blobs.go:143-187 | GET of a blob answers from the image that the pair resolves to, with or without the mutex |
| Answers.BlobHeadAnswers | server/registry/blobs.go:86-141 | HEAD of a blob answers with the length of a stored one, and 0 for one that only GET finds |
| Answers.CommittedIsFound | server/registry/blobs.go:90-96 | after a commit every HEAD of the digest finds it until a repository that lists it is published |
| Answers.ResolvedIsServed | server/registry/manifest.go:63-98 | what resolves to an image is served with its bytes, and later all its blobs |
| Answers.PullByHash | server/registry/registry.go:178-197 | so an image is pulled under the Docker name of its multihash |
| Answers.PushedIsPulledByCid | server/registry/manifest.go:182-195 | and what a PUT publishes is pulled as "latest" of its cid, with all its blobs |
| PushPull.LayersAreCommits | server/registry/blobs.go:202-206 | a layer list is the sequence of digests committed to the repository since it last published |
| PushPull.PushedIsServed | server/registry/manifest.go:57-207 | GET and HEAD of a pushed reference answer with the bytes of its last completed PUT |
| PushPull.PushThenPull | server/registry/manifest.go:57-207 | and after that GET, in every later state, each of the manifest's blobs is served with exactly the bytes uploaded under its digest |
| PushPull.DigestImmutable | server/registry/manifest.go:162-165 | in well-behaved runs a digest once bound keeps its bytes |
| ClientPush.PushSucceeds | server/registry/manifest.go:120-201 | committing the blobs and putting the manifest is answered 201 and leaves it pushed |
| Restarts.RunIsDurable | server/registry/cids.go:24-54 | in every well-behaved run each pushed tag whose path is not blocked has its cid on disk, resolves to it, and that image has the bytes pushed last |
| Restarts.AlwaysRecovered | server/registry/cids.go:39-82 | after any number of well-behaved lives the restarted server is coherent and all such tags are still held |
| Restarts.PushRestartPull | server/registry/manifest.go:57-207 | after any number of restarts a GET of such a tag answers with the bytes of its last completed PUT in any life, and later all its blobs are served as uploaded |
| Restarts.BlockedIsForgotten | server/registry/cids.go:66-74 | a tag with a blocked path is not in the index after a restart |
| IndexIntegrity.DigestBindingStays | server/registry/manifest.go:162-165 | with honest references alone a digest stays bound to bytes with that digest: the same bytes or a collision |
| IndexIntegrity.AlwaysRanked | server/registry/manifest.go:140-165 | in push-only runs the cache is listed in order of first insertion and digests list only earlier children |
| IndexIntegrity.ChildrenRankLower | server/registry/manifest.go:140-165 | so the reference graph has a decreasing rank |
| IndexIntegrity.Expansion | server/registry/manifest.go:140-165 | the recursive expansion of a digest terminates, never leaves the repository and is closed under children |
| IndexIntegrity.ExpansionIsLeast | server/registry/manifest.go:140-165 | it is the least closed set with that digest |
| Locks.LockOrder | server/registry/manifest.go:121-195 | whoever waits for a lock holds only lower ones: manifests, blobs, cids |
| Locks.LockDiscipline | server/registry/blobs.go:307-342 | in every interleaving each lock's owner is its one holder, a handler leaves with the blob mutex iff its `get` failed and with no other lock, and the early return of `remove` is never taken |
| Locks.NoDeadlock | server/registry/manifest.go:121-195 | unless a `get` has failed some handler can move, waiting writers before new readers |
| Locks.LeakIsForever | server/registry/blobs.go:308-320 | after a failed `get` nobody who waits for the blob mutex ever moves |
| Locks.FailedGetRuns | server/registry/blobs.go:308-320 | a PUT of an incomplete repository can run from every reachable state with free mutexes, and leaves with the blob mutex |
| Locks.PutRuns | server/registry/manifest.go:120-195 | a PUT of a complete repository can run to its end from every reachable state with free locks, and leaves with none |
| Locks.AlwaysConserved | server/registry/blobs.go:307-342 | with `get` and `remove` as separate critical sections no committed digest is lost unless a commit falls between them |
| Locks.RemovalConserves | server/registry/blobs.go:328-342 | a removal conserves iff every listed digest was returned by `get`, was sent, or is carried by another handler |
| Locks.LateCommitLoses | server/registry/blobs.go:307-342 | from every reachable state with free mutexes, a fresh digest committed to a complete repository between `get` and `remove` is lost |
| Locks.LateCommitLost | server/registry/blobs.go:307-342 | such a loss is reachable: a commit, a PUT up to its `get`, another commit, and the `remove` |
| ImagePrep.Preparer.CompressLayer | registry/registry.go:480-505 | a layer is compressed to a temporary file and renamed to its digest |
| ImagePrep.Preparer.PrepareLayers | registry/registry.go:460-474 | the loop over the layers, stopping at the first failure |
| ImagePrep.Preparer.MergeMap | registry/registry.go:440-445 | the entries of the second map win |
| ImagePrep.Preparer.MakeV2Manifest | registry/registry.go:419-477 | layer descriptors, then the config descriptor with the size of the file in place |
| ImagePrep.Preparer.WriteManifests | registry/registry.go:288-304 | "latest", the tag and the digest, in this order |
| ImagePrep.Preparer.IpfsPrep | registry/registry.go:244-309 | the whole preparation with its failures |
| ImagePrep.LayersEffect | registry/registry.go:447-477 | the descriptors match the layers in order, and the directory gains exactly their blobs |
| ImagePrep.BlobsIntact | registry/registry.go:500 | later renames never damage earlier blobs |
| ImagePrep.LayersSucceed | registry/registry.go:460-474 | the loop over the layers fails only at a layer that is no string |
| ImagePrep.ManifestsSucceed | registry/registry.go:276-304 | the manifest files can be written iff the tag is a proper file name |
| ImagePrep.PreparationSucceeds | registry/registry.go:244-309 | the preparation of an archive with a config named by its hash succeeds iff all layers are strings and the tag is a proper file name |
| ImagePrep.PreparationStarts | registry/registry.go:249-263 | only a config name of fewer than five characters panics; success needs a named config that is in the archive |
| ImagePrep.PreparedIsClosed | registry/registry.go:263-309 | the preparation of every such archive returns a version 2 manifest whose config and layers, in order, have the digest and size of blob files with that content; there are no other blob files, and the manifests directory holds that manifest under "latest", tag and digest only |
| ImagePrep.TagIsNoDigest | registry/registry.go:276-287 | the tag of an image id is never shaped like a digest |
| ImagePrep.TagOfId | registry/registry.go:276-287 | the tag of `name:tag` is `tag`, of a name alone or of an id with a digest "latest" |
| PreparedImages.PreparedIsWellFormed | registry/registry.go:263-309 | a prepared image is well formed for the server, so it can be pulled |

## Left out

- HTTP transport, error bodies, logging, and headers other than Location, Range, digest and content id.
- `dig` beyond the locks it takes, the CLI, `server/server.go`, timeouts and the IPFS daemon.
- Failures of the gateway: what is published is always found. Failures of the disk other than file/directory conflicts.
- URL paths as they arrive before Go's request multiplexer has cleaned them, and percent-encoding in Locations.
- SHA-256, gzip, tar and JSON themselves, and `go-cid`; a conversion to base32 is any function of strings.
- Upper- and lower-casing outside ASCII in `IpfsifyHash`.
- The `repositories` branch of `ipfsPrep`, which looks for a path that is never there, and the upload of the prepared directory.
- The manifest's `digest` header for pushed manifests, which is empty, and the serving of indexes by GET, which panics.
- A relative location of the cid store.
- The layer objects `Layers: null` of a manifest and other ways to make `Digests` panic are one case, an absent digest list.
- ImagePrep.PreparationSucceeds: of tags with a slash it covers those between proper file names, which fail; what empty, "." and ".." segments beside a slash do depends on how the system walks the path.
- Restarts: unfinished upload sessions, and blobs and layer lists not yet published, are lost with the memory; nothing is claimed of them. References that are digests are not persisted, so only tags are pulled first after a restart.
- Locks.AlwaysConserved: speaks of digests, not of bytes; `Runs.AlwaysContentAddressed` ties the two.
