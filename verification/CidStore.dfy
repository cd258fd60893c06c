/** The index from `repo:reference` to content ids, written through to a directory tree (cids.go). */
module CidStore {
  import opened Text
  import opened FileTree

  type Disk = Tree<string>

  /** The index in memory and the files behind it. */
  datatype Index = Index(cids: map<string, string>, disk: Disk)

  function Key(repo: string, reference: string): string {
    repo + ":" + reference
  }

  predicate IsDigest(reference: string) {
    HasPrefix(reference, "sha256:")
  }

  /** The file of a key: its first colon becomes a path separator, and the path is cleaned. */
  function FilePath(location: Path, key: string): Path {
    Clean(location, Split(Join(Cut(key, ':'), '/'), '/'))
  }

  function Written(location: Path, disk: Disk, key: string, cid: string): Disk {
    var p := FilePath(location, key);
    var (disk', ok) := MkdirAll(disk, if p == [] then p else Parent(p));
    if ok then WriteFile(disk', p, cid).0 else disk'
  }

  function Added(location: Path, x: Index, repo: string, reference: string, cid: string): Index {
    var k := Key(repo, reference);
    Index(x.cids[k := cid],
          if repo != cid && !IsDigest(reference) then Written(location, x.disk, k, cid) else x.disk)
  }

  function Lookup(location: Path, x: Index, repo: string, reference: string): Option<string> {
    var k := Key(repo, reference);
    if k in x.cids then Some(x.cids[k]) else FileAt(x.disk, FilePath(location, k))
  }

  class Store {
    const location: Path
    var cids: map<string, string>
    var disk: Disk

    ghost function Value(): Index
      reads this
    {
      Index(cids, disk)
    }

    /** A new store knows nothing in memory; the disk is whatever earlier runs left. */
    constructor (location: Path, disk: Disk)
      ensures this.location == location && Value() == Index(map[], disk)
    {
      this.location := location;
      this.cids := map[];
      this.disk := disk;
    }

    method Add(repo: string, reference: string, cid: string)
      modifies this
      ensures Value() == Added(location, old(Value()), repo, reference, cid)
    {
      var k := Key(repo, reference);
      cids := cids[k := cid];
      if repo != cid && !HasPrefix(reference, "sha256:") {
        WriteCID(k, cid);
      }
    }

    method Get(repo: string, reference: string) returns (cid: string, ok: bool)
      ensures ok == Lookup(location, Value(), repo, reference).Some?
      ensures ok ==> cid == Lookup(location, Value(), repo, reference).value
    {
      var k := Key(repo, reference);
      ok := k in cids;
      if ok {
        cid := cids[k];
      } else {
        cid, ok := ReadCID(k);
      }
    }

    method ReadCID(key: string) returns (content: string, ok: bool)
      ensures ok == FileAt(disk, FilePath(location, key)).Some?
      ensures ok ==> content == FileAt(disk, FilePath(location, key)).value
    {
      var pc := Cut(key, ':');
      var p := Clean(location, Split(Join(pc, '/'), '/'));
      ok := IsFile(disk, p);
      content := if ok then disk[p].content else "";
    }

    method WriteCID(key: string, val: string)
      modifies this`disk
      ensures disk == Written(location, old(disk), key, val)
    {
      var pc := Cut(key, ':');
      var p := Clean(location, Split(Join(pc, '/'), '/'));
      var made := MkdirAll(disk, if p == [] then p else Parent(p));
      disk := made.0;
      if made.1 {
        disk := WriteFile(disk, p, val).0;
      }
    }
  }

  // ---- keys and paths ----

  predicate CleanRepo(repo: string) {
    Free(repo, ':') && AllPlain(Split(repo, '/'))
  }

  predicate CleanReference(reference: string) {
    Free(reference, '/') && Plain(reference)
  }

  predicate CleanPair(repo: string, reference: string) {
    CleanRepo(repo) && CleanReference(reference)
  }

  /** A key recovers its pair at the first colon, even when the reference is a digest with its own colon. */
  lemma KeyRecoversPair(repo: string, reference: string)
    requires Free(repo, ':')
    ensures Cut(Key(repo, reference), ':') == [repo, reference]
  {
    CutAt(repo, reference, ':');
  }

  lemma KeyInjective(repo: string, reference: string, repo': string, reference': string)
    requires Free(repo, ':') && Free(repo', ':')
    ensures Key(repo, reference) == Key(repo', reference') <==> repo == repo' && reference == reference'
  {
    KeyRecoversPair(repo, reference);
    KeyRecoversPair(repo', reference');
  }

  lemma FilePathOfPair(location: Path, repo: string, reference: string)
    requires CleanPair(repo, reference)
    ensures FilePath(location, Key(repo, reference)) == location + (Split(repo, '/') + [reference])
  {
    KeyRecoversPair(repo, reference);
    assert Join([repo, reference], '/') == repo + ['/'] + reference;
    SplitSnoc(repo, reference, '/');
    CleanPlain(location, Split(repo, '/') + [reference]);
  }

  /** Distinct pairs never share a file. */
  lemma FilePathInjective(location: Path, repo: string, reference: string, repo': string, reference': string)
    requires CleanPair(repo, reference) && CleanPair(repo', reference')
    ensures FilePath(location, Key(repo, reference)) == FilePath(location, Key(repo', reference'))
            <==> repo == repo' && reference == reference'
  {
    FilePathOfPair(location, repo, reference);
    FilePathOfPair(location, repo', reference');
    var s, s' := Split(repo, '/') + [reference], Split(repo', '/') + [reference'];
    if location + s == location + s' {
      assert s == (location + s)[|location|..] == (location + s')[|location|..] == s';
      assert s[..|s| - 1] == Split(repo, '/') && s'[..|s'| - 1] == Split(repo', '/');
      assert Join(Split(repo, '/'), '/') == repo && Join(Split(repo', '/'), '/') == repo';
      assert s[|s| - 1] == reference && s'[|s'| - 1] == reference';
    }
  }

  // ---- one call ----

  /** What a write does to the disk: the pair's own file alone changes, and only if its path is free. */
  lemma WrittenEffect(location: Path, disk: Disk, repo: string, reference: string, cid: string)
    requires Valid(disk) && CleanPair(repo, reference)
    ensures var p := FilePath(location, Key(repo, reference));
            var disk' := Written(location, disk, Key(repo, reference), cid);
            && GrowsAt(disk, disk', p)
            && FileAt(disk', p) == (if Blocked(disk, p) then None else Some(cid))
            && (Blocked(disk, p) ==> Blocked(disk', p))
  {
    FilePathOfPair(location, repo, reference);
    WriteUnderEffect(disk, FilePath(location, Key(repo, reference)), cid);
  }

  /** Adding one pair is visible at once and changes the lookup of no other pair. */
  lemma LookupAfterAdd(location: Path, x: Index, repo: string, reference: string, cid: string,
                       repo': string, reference': string)
    requires Valid(x.disk) && Free(repo, ':') && CleanPair(repo', reference')
    requires repo == cid || IsDigest(reference) || CleanPair(repo, reference)
    ensures Valid(Added(location, x, repo, reference, cid).disk)
    ensures Lookup(location, Added(location, x, repo, reference, cid), repo', reference')
            == if repo == repo' && reference == reference' then Some(cid) else Lookup(location, x, repo', reference')
  {
    KeyInjective(repo, reference, repo', reference');
    if repo != cid && !IsDigest(reference) {
      WrittenEffect(location, x.disk, repo, reference, cid);
      FilePathInjective(location, repo, reference, repo', reference');
    }
  }

  // ---- histories with restarts ----

  datatype Op = Add(repo: string, reference: string, cid: string) | Restart

  function Replay(location: Path, x: Index, h: seq<Op>): Index {
    if h == [] then x
    else
      var y := Replay(location, x, h[..|h| - 1]);
      match h[|h| - 1]
      case Add(repo, reference, cid) => Added(location, y, repo, reference, cid)
      case Restart => Index(map[], y.disk)
  }

  /** The cid of the last addition of a pair, in the whole history or since the last restart only. */
  function LastAdd(h: seq<Op>, repo: string, reference: string, sinceRestart: bool): Option<string> {
    if h == [] then None
    else
      var op := h[|h| - 1];
      if op.Add? && op.repo == repo && op.reference == reference then Some(op.cid)
      else if op.Restart? && sinceRestart then None
      else LastAdd(h[..|h| - 1], repo, reference, sinceRestart)
  }

  /** The cid of the last addition that was meant for the disk: one that does not name its own repository as the cid. */
  function LastStored(h: seq<Op>, repo: string, reference: string): Option<string> {
    if h == [] then None
    else
      var op := h[|h| - 1];
      if op.Add? && op.repo == repo && op.reference == reference && op.cid != repo then Some(op.cid)
      else LastStored(h[..|h| - 1], repo, reference)
  }

  ghost predicate CleanHistory(h: seq<Op>) {
    forall i :: 0 <= i < |h| && h[i].Add? ==> CleanPair(h[i].repo, h[i].reference)
  }

  /** What the disk must hold for a pair. */
  ghost function Persisted(location: Path, x: Index, h: seq<Op>, repo: string, reference: string): Option<string> {
    var p := FilePath(location, Key(repo, reference));
    var last := LastStored(h, repo, reference);
    if IsDigest(reference) || last == None then FileAt(x.disk, p)
    else if Blocked(Replay(location, x, h).disk, p) then None
    else last
  }

  /** One addition, seen from any pair's file. */
  lemma DiskStep(location: Path, y: Index, r: string, ref: string, cid: string, repo: string, reference: string)
    requires Valid(y.disk) && CleanPair(r, ref) && CleanPair(repo, reference)
    ensures var p := FilePath(location, Key(repo, reference));
            var disk := Added(location, y, r, ref, cid).disk;
            && Valid(disk)
            && (Blocked(y.disk, p) ==> Blocked(disk, p))
            && (IsFile(disk, p) ==> !Blocked(disk, p))
            && FileAt(disk, p) == if r != repo || ref != reference || r == cid || IsDigest(ref) then FileAt(y.disk, p)
                                  else if Blocked(y.disk, p) then None else Some(cid)
  {
    var p := FilePath(location, Key(repo, reference));
    if r != cid && !IsDigest(ref) {
      WrittenEffect(location, y.disk, r, ref, cid);
      FilePathInjective(location, repo, reference, r, ref);
      GrowthKeepsBlocking(y.disk, Added(location, y, r, ref, cid).disk, FilePath(location, Key(r, ref)), p);
    }
    FileUnblocked(Added(location, y, r, ref, cid).disk, p);
  }

  lemma {:induction false} DiskAfter(location: Path, x: Index, h: seq<Op>, repo: string, reference: string)
    requires Valid(x.disk) && CleanHistory(h) && CleanPair(repo, reference)
    ensures Valid(Replay(location, x, h).disk)
    ensures FileAt(Replay(location, x, h).disk, FilePath(location, Key(repo, reference)))
            == Persisted(location, x, h, repo, reference)
  {
    if h != [] {
      var init, op := h[..|h| - 1], h[|h| - 1];
      DiskAfter(location, x, init, repo, reference);
      var y := Replay(location, x, init);
      if op.Add? {
        assert CleanPair(op.repo, op.reference);
        DiskStep(location, y, op.repo, op.reference, op.cid, repo, reference);
        FileUnblocked(y.disk, FilePath(location, Key(repo, reference)));
      }
    }
  }

  /**
   * The store across restarts, exactly: a lookup returns the last addition since the restart; failing that
   * the file, which holds the latest addition ever made whose cid is not the repository itself or, if the path of the
   * pair is blocked by a file/directory conflict, nothing; and a digest is never written.
   */
  lemma {:induction false} LookupAfterHistory(location: Path, disk: Disk, h: seq<Op>, repo: string, reference: string)
    requires Valid(disk) && CleanHistory(h) && CleanPair(repo, reference)
    ensures var x := Index(map[], disk);
            Lookup(location, Replay(location, x, h), repo, reference)
            == match LastAdd(h, repo, reference, true)
               case Some(cid) => Some(cid)
               case None => Persisted(location, x, h, repo, reference)
  {
    var x := Index(map[], disk);
    DiskAfter(location, x, h, repo, reference);
    MemoryAfter(location, x, h, repo, reference);
  }

  lemma {:induction false} MemoryAfter(location: Path, x: Index, h: seq<Op>, repo: string, reference: string)
    requires x.cids == map[] && CleanHistory(h) && Free(repo, ':')
    ensures var k := Key(repo, reference);
            var y := Replay(location, x, h);
            LastAdd(h, repo, reference, true) == if k in y.cids then Some(y.cids[k]) else None
  {
    if h != [] {
      MemoryAfter(location, x, h[..|h| - 1], repo, reference);
      var op := h[|h| - 1];
      if op.Add? {
        assert CleanPair(op.repo, op.reference);
        KeyInjective(repo, reference, op.repo, op.reference);
      }
    }
  }

  /** An addition whose cid is the repository itself does not survive a restart. */
  lemma SelfAddForgotten(location: Path, x: Index, h: seq<Op>, repo: string, reference: string)
    ensures Replay(location, x, h + [Add(repo, reference, repo)] + [Restart]) == Replay(location, x, h + [Restart])
  {
    var h' := h + [Add(repo, reference, repo)];
    assert (h' + [Restart])[..|h'|] == h';
    assert h'[..|h|] == h;
    assert (h + [Restart])[..|h|] == h;
  }

  /** Without an addition there is none for the disk; if the last one was for the disk, it is the last stored one. */
  lemma {:induction false} LastOfBoth(h: seq<Op>, repo: string, reference: string)
    ensures LastAdd(h, repo, reference, false) == None ==> LastStored(h, repo, reference) == None
    ensures LastAdd(h, repo, reference, false) != None && LastAdd(h, repo, reference, false) != Some(repo) ==>
              LastStored(h, repo, reference) == LastAdd(h, repo, reference, false)
    ensures LastAdd(h, repo, reference, true) != None ==>
              LastAdd(h, repo, reference, true) == LastAdd(h, repo, reference, false)
    ensures LastStored(h, repo, reference) != Some(repo)
  {
    if h != [] {
      LastOfBoth(h[..|h| - 1], repo, reference);
    }
  }

  /**
   * When a lookup is stale, that is, neither the last addition nor a miss: exactly when the last addition of the tag
   * named its own repository as the cid, a restart has followed it, and an earlier addition is in the file.
   */
  lemma StaleExactly(location: Path, disk: Disk, h: seq<Op>, repo: string, reference: string)
    requires Valid(disk) && CleanHistory(h) && CleanPair(repo, reference) && !IsDigest(reference)
    requires FileAt(disk, FilePath(location, Key(repo, reference))) == None
    ensures var y := Replay(location, Index(map[], disk), h);
            var found := Lookup(location, y, repo, reference);
            found != None && found != LastAdd(h, repo, reference, false)
            <==> && LastAdd(h, repo, reference, false) == Some(repo) && LastAdd(h, repo, reference, true) == None
                 && LastStored(h, repo, reference) != None && !Blocked(y.disk, FilePath(location, Key(repo, reference)))
  {
    LookupAfterHistory(location, disk, h, repo, reference);
    LastOfBoth(h, repo, reference);
  }

  lemma HistorySnoc(h: seq<Op>, op: Op, repo: string, reference: string)
    ensures LastStored(h + [op], repo, reference)
            == if op.Add? && op.repo == repo && op.reference == reference && op.cid != repo then Some(op.cid)
               else LastStored(h, repo, reference)
    ensures LastAdd(h + [op], repo, reference, false)
            == if op.Add? && op.repo == repo && op.reference == reference then Some(op.cid)
               else LastAdd(h, repo, reference, false)
    ensures op.Restart? ==> LastAdd(h + [op], repo, reference, true) == None
  {
    assert (h + [op])[..|h|] == h;
  }

  /**
   * After any history, an addition of `cid`, then one of the repository itself, then a restart: unless its path is
   * blocked, the pair is `cid` again. On an empty disk no path is.
   */
  lemma StaleAfterSelfAdd(location: Path, disk: Disk, h: seq<Op>, repo: string, reference: string, cid: string)
    requires Valid(disk) && CleanHistory(h) && CleanPair(repo, reference) && !IsDigest(reference) && cid != repo
    ensures var x, p := Index(map[], disk), FilePath(location, Key(repo, reference));
            var all := h + [Add(repo, reference, cid)] + [Add(repo, reference, repo)] + [Restart];
            && LastAdd(all, repo, reference, false) == Some(repo)
            && Lookup(location, Replay(location, x, all), repo, reference)
               == if Blocked(Replay(location, x, h).disk, p) then None else Some(cid)
    ensures disk == map[[] := Dir] ==> !Blocked(disk, FilePath(location, Key(repo, reference)))
  {
    var x := Index(map[], disk);
    var h1 := h + [Add(repo, reference, cid)];
    var h2 := h1 + [Add(repo, reference, repo)];
    HistorySnoc(h1, Add(repo, reference, repo), repo, reference);
    HistorySnoc(h2, Restart, repo, reference);
    DiskAfter(location, x, h, repo, reference);
    FileUnblocked(Replay(location, x, h).disk, FilePath(location, Key(repo, reference)));
    DiskStep(location, Replay(location, x, h), repo, reference, cid, repo, reference);
    assert Replay(location, x, h1) == Added(location, Replay(location, x, h), repo, reference, cid) by {
      assert h1[..|h|] == h;
    }
    SelfAddForgotten(location, x, h1, repo, reference);
    assert Replay(location, x, h1 + [Restart]) == Index(map[], Replay(location, x, h1).disk) by {
      assert (h1 + [Restart])[..|h1|] == h1;
    }
    FilePathOfPair(location, repo, reference);
  }
}
