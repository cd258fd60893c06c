/** Digests that stay honest, and indexes whose references always lead to earlier insertions. */
module IndexIntegrity {
  import opened Text
  import opened World
  import opened Routes
  import opened CidStore
  import opened ManifestSpec
  import opened Runs
  import opened Coherence

  // ---- honest references alone make digests immutable ----

  /** Whatever a request files under a digest-shaped reference of its own choosing hashes to it. */
  predicate HonestEvent(w: World, s: Server, e: Event) {
    && (IsManifestPut(e) ==> Honest(w, RouteOf(e.q.elem).target, e.q.body))
    && (IsManifestRead(e) ==>
          var mf := Fetch(w, s, RouteOf(e.q.elem).repo, RouteOf(e.q.elem).target).1;
          mf.Some? ==> Honest(w, RouteOf(e.q.elem).target, mf.value.blob))
  }

  ghost predicate HonestRun(w: World, s: Server, run: Run) {
    forall n :: 0 <= n < |run| ==> HonestEvent(w, Runs.After(w, s, run[..n]), run[n])
  }

  type Caches = map<string, map<string, Manifest>>

  ghost predicate HonestCaches(w: World, m: Caches) {
    forall repo, k :: repo in m && k in m[repo] ==> Honest(w, k, m[repo][k].blob)
  }

  lemma OpenedStaysHonest(w: World, s: Server, repo: string)
    requires HonestCaches(w, s.manifests)
    ensures HonestCaches(w, Opened(s, repo).manifests)
  {
  }

  lemma CachedStaysHonest(w: World, s: Server, repo: string, target: string, mf: Manifest)
    requires HonestCaches(w, s.manifests) && Honest(w, target, mf.blob)
    ensures HonestCaches(w, Cached(s, repo, target, w.Digest(mf.blob), mf).manifests)
  {
  }

  /** A fetch caches nothing or what it returns. */
  lemma FetchCache(w: World, s: Server, repo: string, target: string)
    ensures var (f, mf) := Fetch(w, s, repo, target);
            f.manifests
            == if target in Cache(s, repo) then s.manifests
               else if mf.None? then Opened(s, repo).manifests
               else Cached(Opened(s, repo), repo, target, w.Digest(mf.value.blob), mf.value).manifests
  {
  }

  /** A manifest read does to the cache what its fetch does. */
  lemma ReadCache(w: World, s: Server, e: Event)
    requires IsManifestRead(e)
    ensures var r := RouteOf(e.q.elem);
            Step(w, s, e).0.manifests == if s.stuck then s.manifests else Fetch(w, s, r.repo, r.target).0.manifests
  {
    var r := RouteOf(e.q.elem);
    GetKeeps(w, s, r.repo, r.target);
  }

  lemma ReadStaysHonest(w: World, s: Server, e: Event)
    requires HonestCaches(w, s.manifests) && HonestEvent(w, s, e) && IsManifestRead(e)
    ensures HonestCaches(w, Step(w, s, e).0.manifests)
  {
    var r := RouteOf(e.q.elem);
    ReadCache(w, s, e);
    FetchCache(w, s, r.repo, r.target);
    OpenedStaysHonest(w, s, r.repo);
    var mf := Fetch(w, s, r.repo, r.target).1;
    if mf.Some? { CachedStaysHonest(w, Opened(s, r.repo), r.repo, r.target, mf.value); }
  }

  lemma StepStaysHonest(w: World, s: Server, e: Event)
    requires HonestCaches(w, s.manifests) && HonestEvent(w, s, e)
    ensures HonestCaches(w, Step(w, s, e).0.manifests)
  {
    if IsManifestPut(e) {
      var r := RouteOf(e.q.elem);
      PutCache(w, s, r.repo, r.target, e.q.contentType, e.q.body, e.added);
      OpenedStaysHonest(w, s, r.repo);
      CachedStaysHonest(w, s, r.repo, r.target, Manifest(e.q.contentType, e.q.body, ""));
    } else if IsManifestRead(e) {
      ReadStaysHonest(w, s, e);
    } else if IsBlobWrite(e) {
      WriteStep(w, s, e);
    } else if e.Http? {
      IdleStep(w, s, e);
    }
  }

  lemma {:induction false} AlwaysHonest(w: World, s: Server, run: Run)
    requires HonestCaches(w, s.manifests) && HonestRun(w, s, run)
    ensures HonestCaches(w, Runs.After(w, s, run).manifests)
  {
    if run != [] {
      var init := run[..|run| - 1];
      assert HonestRun(w, s, init) by {
        forall n | 0 <= n < |init|
          ensures HonestEvent(w, Runs.After(w, s, init[..n]), init[n])
        {
          assert init[..n] == run[..n];
        }
      }
      AlwaysHonest(w, s, init);
      StepStaysHonest(w, Runs.After(w, s, init), run[|run| - 1]);
    }
  }

  /**
   * A digest once bound stays bound, to bytes with that very digest: the same bytes, or a collision
   * has been found.
   */
  lemma DigestBindingStays(w: World, s: Server, run: Run, repo: string, d: string)
    requires HonestCaches(w, s.manifests) && HonestRun(w, s, run) && IsDigest(d) && d in Cache(s, repo)
    ensures d in Cache(Runs.After(w, s, run), repo)
    ensures var b, b' := Cache(s, repo)[d].blob, Cache(Runs.After(w, s, run), repo)[d].blob;
            b == b' || (b != b' && w.hex(b) == w.hex(b') && w.Digest(b) == d)
  {
    AlwaysHonest(w, s, run);
    CacheGrows(w, s, run);
    var b, b' := Cache(s, repo)[d].blob, Cache(Runs.After(w, s, run), repo)[d].blob;
    assert w.Digest(b) == d && w.Digest(b') == d;
    assert w.Digest(b)[7..] == w.hex(b) && w.Digest(b')[7..] == w.hex(b');
  }

  // ---- the rank of a manifest ----

  function AppendNew(order: seq<string>, k: string): seq<string> {
    if k in order then order else order + [k]
  }

  /** The PUT gets past the index check and into the cache. */
  predicate Inserts(w: World, s: Server, e: Event, repo: string) {
    && IsManifestPut(e) && RouteOf(e.q.elem).repo == repo && !s.stuck
    && IndexPasses(w, Cache(s, repo), e.q.contentType, e.q.body)
  }

  /** The references of a repository in the order in which pushes first inserted them. */
  function Order(w: World, s: Server, run: Run, repo: string): seq<string> {
    if run == [] then []
    else
      var init, e := run[..|run| - 1], run[|run| - 1];
      var order := Order(w, s, init, repo);
      if Inserts(w, Runs.After(w, s, init), e, repo) then
        AppendNew(AppendNew(order, RouteOf(e.q.elem).target), w.Digest(e.q.body))
      else order
  }

  /** Only pushes insert, and none re-pushes a digest with other bytes or as another kind of manifest. */
  ghost predicate PushOnly(w: World, s: Server, e: Event) {
    && HonestEvent(w, s, e)
    && (IsManifestRead(e) ==>
          var r := RouteOf(e.q.elem);
          r.target in Cache(s, r.repo) || Fetch(w, s, r.repo, r.target).1 == None)
    && (IsManifestPut(e) ==>
          var cache, d := Cache(s, RouteOf(e.q.elem).repo), w.Digest(e.q.body);
          d in cache ==>
            cache[d].blob == e.q.body && (IsIndexType(cache[d].contentType) <==> IsIndexType(e.q.contentType)))
  }

  ghost predicate PushOnlyRun(w: World, s: Server, run: Run) {
    forall n :: 0 <= n < |run| ==> PushOnly(w, Runs.After(w, s, run[..n]), run[n])
  }

  /** A cached index and the children it lists; other manifests have none. */
  function Children(w: World, mf: Manifest): Option<seq<string>> {
    if IsIndexType(mf.contentType) then w.children(mf.blob) else Some([])
  }

  ghost predicate ChildrenBefore(w: World, mf: Manifest, earlier: seq<string>) {
    Children(w, mf).Some? && forall d :: d in Children(w, mf).value ==> d in earlier
  }

  /** The order lists the cache, and digests list only children that come earlier. */
  ghost predicate Ranked(w: World, cache: map<string, Manifest>, order: seq<string>) {
    && (forall k :: k in cache <==> k in order)
    && (forall i, j :: 0 <= i < j < |order| ==> order[i] != order[j])
    && (forall i :: 0 <= i < |order| && IsDigest(order[i]) ==> ChildrenBefore(w, cache[order[i]], order[..i]))
  }

  lemma PushKeepsRanked(w: World, cache: map<string, Manifest>, order: seq<string>, target: string, mf: Manifest)
    requires Ranked(w, cache, order) && Honest(w, target, mf.blob)
    requires IndexPasses(w, cache, mf.contentType, mf.blob)
    requires var d := w.Digest(mf.blob);
             d in cache ==>
               cache[d].blob == mf.blob && (IsIndexType(cache[d].contentType) <==> IsIndexType(mf.contentType))
    ensures var d := w.Digest(mf.blob);
            Ranked(w, cache[target := mf][d := mf], AppendNew(AppendNew(order, target), d))
  {
    var d := w.Digest(mf.blob);
    var cache', order' := cache[target := mf][d := mf], AppendNew(AppendNew(order, target), d);
    assert order <= order';
    forall i | 0 <= i < |order'| && IsDigest(order'[i])
      ensures ChildrenBefore(w, cache'[order'[i]], order'[..i])
    {
      var k := order'[i];
      if i < |order| {
        assert order'[i] == order[i] && order'[..i] == order[..i];
        assert ChildrenBefore(w, cache[k], order[..i]);
      } else {
        assert k == d;
        assert ChildrenBefore(w, mf, order);
        assert order'[..|order|] == order;
        assert forall c :: c in order ==> c in order'[..i];
      }
    }
  }

  lemma {:induction false} AlwaysRanked(w: World, s: Server, run: Run, repo: string)
    requires Cache(s, repo) == map[] && PushOnlyRun(w, s, run)
    ensures Ranked(w, Cache(Runs.After(w, s, run), repo), Order(w, s, run, repo))
  {
    if run != [] {
      var init, e := run[..|run| - 1], run[|run| - 1];
      assert PushOnlyRun(w, s, init) by {
        forall n | 0 <= n < |init|
          ensures PushOnly(w, Runs.After(w, s, init[..n]), init[n])
        {
          assert init[..n] == run[..n];
        }
      }
      AlwaysRanked(w, s, init, repo);
      var prior := Runs.After(w, s, init);
      assert PushOnly(w, prior, e);
      PushOnlyCache(w, prior, e, repo);
      if Inserts(w, prior, e, repo) {
        PushKeepsRanked(w, Cache(prior, repo), Order(w, s, init, repo), RouteOf(e.q.elem).target,
                        Manifest(e.q.contentType, e.q.body, ""));
      }
    }
  }

  /** The effect of such an event on the cache of one repository. */
  lemma PushOnlyCache(w: World, s: Server, e: Event, repo: string)
    requires PushOnly(w, s, e)
    ensures Cache(Step(w, s, e).0, repo)
            == if Inserts(w, s, e, repo) then
                 var mf := Manifest(e.q.contentType, e.q.body, "");
                 Cache(s, repo)[RouteOf(e.q.elem).target := mf][w.Digest(e.q.body) := mf]
               else Cache(s, repo)
  {
    if IsManifestPut(e) {
      var r := RouteOf(e.q.elem);
      PutCache(w, s, r.repo, r.target, e.q.contentType, e.q.body, e.added);
    } else if IsManifestRead(e) {
      var r := RouteOf(e.q.elem);
      ReadCache(w, s, e);
      FetchCache(w, s, r.repo, r.target);
    } else if IsBlobWrite(e) {
      WriteStep(w, s, e);
    } else if e.Http? {
      IdleStep(w, s, e);
    }
  }

  function Rank(order: seq<string>, k: string): (i: nat)
    requires k in order
    ensures i < |order| && order[i] == k
  {
    if order[0] == k then 0 else 1 + Rank(order[1..], k)
  }

  /**
   * In every run in which only pushes insert, a digest's children were inserted before it: the reference graph
   * has the position of first insertion as a decreasing rank.
   */
  lemma ChildrenRankLower(w: World, s: Server, run: Run, repo: string, k: string, c: string)
    requires Cache(s, repo) == map[] && PushOnlyRun(w, s, run) && IsDigest(k)
    requires k in Cache(Runs.After(w, s, run), repo)
    requires var cs := Children(w, Cache(Runs.After(w, s, run), repo)[k]); cs.Some? && c in cs.value
    ensures var order := Order(w, s, run, repo);
            c in order && k in order && Rank(order, c) < Rank(order, k)
  {
    AlwaysRanked(w, s, run, repo);
    var cache, order := Cache(Runs.After(w, s, run), repo), Order(w, s, run, repo);
    var i := Rank(order, k);
    assert ChildrenBefore(w, cache[k], order[..i]);
    var j :| 0 <= j < i && order[..i][j] == c;
    assert order[j] == c == order[Rank(order, c)];
  }

  /** Every digest of the set is cached and has all its children in the set. */
  ghost predicate ClosedUnderChildren(w: World, cache: map<string, Manifest>, all: set<string>) {
    forall k :: k in all && IsDigest(k) ==>
      && k in cache && Children(w, cache[k]).Some?
      && forall c :: c in Children(w, cache[k]).value ==> c in all
  }

  /**
   * So the expansion of a digest to everything it refers to, through digests, terminates on its rank, never
   * leaves the repository, and misses nothing.
   */
  ghost function Expansion(w: World, cache: map<string, Manifest>, order: seq<string>, i: nat): (all: set<string>)
    requires Ranked(w, cache, order) && i < |order|
    ensures order[i] in all && all <= cache.Keys
    ensures ClosedUnderChildren(w, cache, all)
    decreases i
  {
    if !IsDigest(order[i]) then {order[i]}
    else
      assert ChildrenBefore(w, cache[order[i]], order[..i]);
      var below := set j, k | 0 <= j < i && order[j] in Children(w, cache[order[i]]).value
                              && k in Expansion(w, cache, order, j) :: k;
      assert forall c :: c in Children(w, cache[order[i]]).value ==>
               exists j :: 0 <= j < i && order[j] == c && c in Expansion(w, cache, order, j);
      {order[i]} + below
  }

  /** Nor does it contain more than it has to: it is the least closed set with that digest. */
  lemma {:induction false} ExpansionIsLeast(w: World, cache: map<string, Manifest>, order: seq<string>, i: nat,
                                            closed: set<string>)
    requires Ranked(w, cache, order) && i < |order|
    requires order[i] in closed && ClosedUnderChildren(w, cache, closed)
    ensures Expansion(w, cache, order, i) <= closed
    decreases i
  {
    if IsDigest(order[i]) {
      assert ChildrenBefore(w, cache[order[i]], order[..i]);
      forall j, k | 0 <= j < i && order[j] in Children(w, cache[order[i]]).value
                    && k in Expansion(w, cache, order, j)
        ensures k in closed
      {
        ExpansionIsLeast(w, cache, order, j, closed);
      }
    }
  }
}
