/**
 * A directory tree whose operations fail only on conflicts between files and directories.
 * Both the cid store and the image preparation write to one.
 */
module FileTree {
  import opened Text

  type Path = seq<string>
  datatype Node<+T> = Dir | File(content: T)
  type Tree<T> = map<Path, Node<T>>

  function Parent(p: Path): Path
    requires p != []
  {
    p[..|p| - 1]
  }

  predicate IsDir<T>(t: Tree<T>, p: Path) {
    p in t && t[p].Dir?
  }

  predicate IsFile<T>(t: Tree<T>, p: Path) {
    p in t && t[p].File?
  }

  /** Every node hangs off a directory, up to the root. */
  ghost predicate Valid<T>(t: Tree<T>) {
    && IsDir(t, [])
    && forall p: Path :: p in t && p != [] ==> IsDir(t, Parent(p))
  }

  function FileAt<T>(t: Tree<T>, p: Path): Option<T> {
    if IsFile(t, p) then Some(t[p].content) else None
  }

  /** `os.MkdirAll`: the tree afterwards and whether it succeeded. */
  function MkdirAll<T>(t: Tree<T>, p: Path): (Tree<T>, bool)
    decreases |p|
  {
    if p in t then (t, t[p].Dir?)
    else if p == [] then (t, false)
    else
      var (t', ok) := MkdirAll(t, Parent(p));
      if ok then (t'[p := Dir], true) else (t', false)
  }

  predicate CanWrite<T>(t: Tree<T>, p: Path) {
    p != [] && IsDir(t, Parent(p)) && !IsDir(t, p)
  }

  /** `ioutil.WriteFile`: the tree afterwards and whether it succeeded. */
  function WriteFile<T>(t: Tree<T>, p: Path, content: T): (Tree<T>, bool) {
    if CanWrite(t, p) then (t[p := File(content)], true) else (t, false)
  }

  /** A path is blocked when a file sits on the way to it or a directory sits on it. */
  ghost predicate Blocked<T>(t: Tree<T>, p: Path) {
    IsDir(t, p) || exists i :: 0 <= i < |p| && IsFile(t, p[..i])
  }

  /** `t'` has every file and every directory of `t`; files other than `p` keep their contents and none is new. */
  ghost predicate GrowsAt<T(!new)>(t: Tree<T>, t': Tree<T>, p: Path) {
    && Valid(t')
    && (forall q: Path :: IsDir(t, q) ==> IsDir(t', q))
    && (forall q: Path :: IsFile(t, q) ==> IsFile(t', q))
    && (forall q: Path :: q != p ==> FileAt(t', q) == FileAt(t, q))
  }

  /** In a valid tree, everything above an existing node is a directory. */
  lemma {:induction false} AncestorsAreDirs<T>(t: Tree<T>, p: Path, i: nat)
    requires Valid(t) && p in t && i < |p|
    ensures IsDir(t, p[..i])
    decreases |p|
  {
    assert Parent(p) in t;
    if i < |p| - 1 {
      AncestorsAreDirs(t, Parent(p), i);
      assert Parent(p)[..i] == p[..i];
    }
  }

  /** `MkdirAll` adds directories only, all of them on the way to `p`. */
  lemma {:induction false} MkdirAllEffect<T(!new)>(t: Tree<T>, p: Path)
    requires Valid(t)
    ensures var (t', ok) := MkdirAll(t, p);
            && Valid(t')
            && (forall q: Path :: q in t ==> q in t' && t'[q] == t[q])
            && (forall q: Path :: q in t' && q !in t ==> t'[q] == Dir && q <= p)
            && (if ok then IsDir(t', p) else t' == t)
    decreases |p|
  {
    if p !in t {
      MkdirAllEffect(t, Parent(p));
      var (t', ok) := MkdirAll(t, Parent(p));
      if ok {
        forall q: Path | q in t'[p := Dir] && q != []
          ensures IsDir(t'[p := Dir], Parent(q))
        {
          assert q != p ==> IsDir(t', Parent(q));
        }
      }
    }
  }

  /** It fails exactly when a file is in the way. */
  lemma {:induction false} MkdirAllFails<T>(t: Tree<T>, p: Path)
    requires Valid(t)
    ensures MkdirAll(t, p).1 <==> forall i :: 0 <= i <= |p| ==> !IsFile(t, p[..i])
    decreases |p|
  {
    assert p[..|p|] == p;
    if p in t {
      forall i | 0 <= i < |p|
        ensures !IsFile(t, p[..i])
      {
        AncestorsAreDirs(t, p, i);
      }
    } else {
      MkdirAllFails(t, Parent(p));
      assert forall i :: 0 <= i < |p| ==> Parent(p)[..i] == p[..i];
    }
  }

  /** Creating the directories of `p` and writing it succeeds exactly when `p` is not blocked. */
  lemma WriteUnderEffect<T(!new)>(t: Tree<T>, p: Path, content: T)
    requires Valid(t) && p != []
    ensures var (t1, ok) := MkdirAll(t, Parent(p));
            var t2 := if ok then WriteFile(t1, p, content).0 else t1;
            && GrowsAt(t, t2, p)
            && FileAt(t2, p) == (if Blocked(t, p) then None else Some(content))
            && (Blocked(t, p) ==> Blocked(t2, p))
  {
    var (t1, ok) := MkdirAll(t, Parent(p));
    MkdirAllEffect(t, Parent(p));
    MkdirAllFails(t, Parent(p));
    forall i | 0 <= i <= |Parent(p)|
      ensures Parent(p)[..i] == p[..i]
    {}
    assert ok <==> !exists i :: 0 <= i < |p| && IsFile(t, p[..i]);
    assert !(p <= Parent(p));
    if ok && CanWrite(t1, p) {
      var t2 := t1[p := File(content)];
      forall q: Path | q in t2 && q != []
        ensures IsDir(t2, Parent(q))
      {
        assert IsDir(t1, Parent(q));
        assert Parent(q) != p;
      }
    } else if ok {
      assert IsDir(t, p);
    } else {
      var i: nat :| i < |p| && IsFile(t, p[..i]);
      if p in t {
        AncestorsAreDirs(t, p, i);
        assert false;
      }
    }
  }

  /** A file that exists is reachable. */
  lemma FileUnblocked<T>(t: Tree<T>, p: Path)
    requires Valid(t)
    ensures IsFile(t, p) ==> !Blocked(t, p)
  {
    if IsFile(t, p) {
      forall i | 0 <= i < |p|
        ensures !IsFile(t, p[..i])
      {
        AncestorsAreDirs(t, p, i);
      }
    }
  }

  /** Growing elsewhere never unblocks a path. */
  lemma GrowthKeepsBlocking<T(!new)>(t: Tree<T>, t': Tree<T>, p: Path, q: Path)
    requires GrowsAt(t, t', p)
    ensures Blocked(t, q) ==> Blocked(t', q)
  {
    if i :| 0 <= i < |q| && IsFile(t, q[..i]) {
      assert IsFile(t', q[..i]);
    }
  }
}
