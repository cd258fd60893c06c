/** The chain of configured resolvers: the first hit for a lookup, a sorted union for a listing (resolv.go). */
module Resolvers {
  import opened Text

  /** One resolver: its answer for a repository and a reference; `None` is the nil slice. */
  type Resolver = (string, string) -> Option<seq<string>>

  // ---- the order of `sort.Strings` ----

  predicate Below(s: string, t: string) {
    if s == "" then t != ""
    else t != "" && (s[0] < t[0] || (s[0] == t[0] && Below(s[1..], t[1..])))
  }

  /** At position `i` the strings differ for the first time, and `s` ends there or has the smaller character. */
  predicate SmallerAt(s: string, t: string, i: nat) {
    i <= |s| && i < |t| && s[..i] == t[..i] && (i == |s| || s[i] < t[i])
  }

  lemma {:induction false} SmallerIsBelow(s: string, t: string, i: nat)
    requires SmallerAt(s, t, i)
    ensures Below(s, t)
  {
    if i > 0 {
      assert s[..i][0] == t[..i][0];
      assert s[1..][..i - 1] == s[..i][1..] && t[1..][..i - 1] == t[..i][1..];
      SmallerIsBelow(s[1..], t[1..], i - 1);
    }
  }

  lemma {:induction false} BelowIsSmaller(s: string, t: string) returns (i: nat)
    requires Below(s, t)
    ensures SmallerAt(s, t, i)
  {
    i := 0;
    if s != "" && s[0] == t[0] {
      var k := BelowIsSmaller(s[1..], t[1..]);
      i := k + 1;
      assert s[..i] == [s[0]] + s[1..][..k] && t[..i] == [t[0]] + t[1..][..k];
    }
  }

  /** The order is decided by the first character that differs; a proper prefix comes first. */
  lemma BelowByIndex(s: string, t: string)
    ensures Below(s, t) <==> exists i: nat :: SmallerAt(s, t, i)
  {
    if Below(s, t) {
      var i := BelowIsSmaller(s, t);
    } else if i: nat :| SmallerAt(s, t, i) {
      SmallerIsBelow(s, t, i);
    }
  }

  lemma {:induction false} BelowTotal(s: string, t: string)
    ensures Below(s, t) || s == t || Below(t, s)
    ensures Below(s, t) ==> !Below(t, s) && s != t
  {
    if s != "" && t != "" {
      BelowTotal(s[1..], t[1..]);
      if s[0] == t[0] && s[1..] == t[1..] {
        assert s == [s[0]] + s[1..] && t == [t[0]] + t[1..];
      }
    }
  }

  lemma {:induction false} BelowTransitive(s: string, t: string, r: string)
    requires Below(s, t) && Below(t, r)
    ensures Below(s, r)
  {
    if s != "" && s[0] == t[0] && t[0] == r[0] {
      BelowTransitive(s[1..], t[1..], r[1..]);
    }
  }

  ghost predicate Increasing(list: seq<string>) {
    forall i, j :: 0 <= i < j < |list| ==> Below(list[i], list[j])
  }

  ghost function Elements(list: seq<string>): set<string> {
    set s | s in list
  }

  lemma NoElements(list: seq<string>)
    ensures Elements(list) == {} <==> list == []
  {
    assert list != [] ==> list[0] in Elements(list);
  }

  /** Two increasing lists of the same elements are the same list. */
  lemma {:induction false} IncreasingUnique(a: seq<string>, b: seq<string>)
    requires Increasing(a) && Increasing(b) && Elements(a) == Elements(b)
    ensures a == b
  {
    if a == [] || b == [] {
      NoElements(a);
      NoElements(b);
    } else {
      assert a[0] in Elements(b) && b[0] in Elements(a);
      BelowTotal(a[0], b[0]);
      assert a[0] == b[0];
      TailElements(a);
      TailElements(b);
      IncreasingUnique(a[1..], b[1..]);
      assert a == [a[0]] + a[1..] && b == [b[0]] + b[1..];
    }
  }

  lemma TailElements(a: seq<string>)
    requires a != [] && Increasing(a)
    ensures Increasing(a[1..]) && Elements(a[1..]) == Elements(a) - {a[0]}
  {
    forall s | s in a[1..]
      ensures s != a[0]
    {
      var i :| 0 <= i < |a[1..]| && a[1..][i] == s;
      BelowTotal(a[0], a[i + 1]);
    }
    forall s | s in Elements(a) - {a[0]}
      ensures s in a[1..]
    {
      var i :| 0 <= i < |a| && a[i] == s;
      assert a[1..][i - 1] == s;
    }
  }

  // ---- uniq and sort ----

  ghost predicate Distinct(list: seq<string>) {
    forall i, j :: 0 <= i < j < |list| ==> list[i] != list[j]
  }

  /** `uniq`: the first occurrence of every string. */
  method Uniq(sa: seq<string>) returns (list: seq<string>)
    ensures Distinct(list) && Elements(list) == Elements(sa)
  {
    var keys: map<string, bool> := map[];
    list := [];
    for i := 0 to |sa|
      invariant Distinct(list) && Elements(list) == Elements(sa[..i])
      invariant forall s :: s in keys <==> s in list
    {
      var s := sa[i];
      assert Elements(sa[..i + 1]) == Elements(sa[..i]) + {s} by { assert sa[..i + 1] == sa[..i] + [s]; }
      if s !in keys {
        keys := keys[s := true];
        assert Elements(list + [s]) == Elements(list) + {s};
        list := list + [s];
      }
    }
    assert sa[..|sa|] == sa;
  }

  /** A string put in its place in an increasing list that lacks it. */
  function Insert(s: string, list: seq<string>): seq<string> {
    if list == [] then [s]
    else if Below(s, list[0]) then [s] + list
    else [list[0]] + Insert(s, list[1..])
  }

  lemma {:induction false} InsertIncreasing(s: string, list: seq<string>)
    requires Increasing(list) && s !in list
    ensures Increasing(Insert(s, list)) && Elements(Insert(s, list)) == Elements(list) + {s}
  {
    if list != [] {
      BelowTotal(s, list[0]);
      if Below(s, list[0]) {
        forall j | 0 < j < |list|
          ensures Below(s, list[j])
        {
          BelowTransitive(s, list[0], list[j]);
        }
      } else {
        TailElements(list);
        assert list == [list[0]] + list[1..];
        InsertIncreasing(s, list[1..]);
        ConsIncreasing(list[0], Insert(s, list[1..]), list[1..], s);
      }
    }
  }

  lemma ConsIncreasing(h: string, rest: seq<string>, tail: seq<string>, s: string)
    requires Increasing(rest) && Elements(rest) == Elements(tail) + {s} && Below(h, s)
    requires forall i :: 0 <= i < |tail| ==> Below(h, tail[i])
    ensures Increasing([h] + rest) && Elements([h] + rest) == Elements([h] + tail) + {s}
  {
    forall j | 0 <= j < |rest|
      ensures Below(h, rest[j])
    {
      assert rest[j] in Elements(rest);
      assert rest[j] == s || rest[j] in tail;
    }
    assert Elements([h] + rest) == {h} + Elements(rest);
    assert Elements([h] + tail) == {h} + Elements(tail);
  }

  /** `sort.Strings` on distinct strings. */
  method Sort(list: seq<string>) returns (sorted: seq<string>)
    requires Distinct(list)
    ensures Increasing(sorted) && Elements(sorted) == Elements(list)
  {
    sorted := [];
    for i := 0 to |list|
      invariant Increasing(sorted) && Elements(sorted) == Elements(list[..i])
    {
      assert list[i] !in list[..i];
      assert list[i] !in Elements(sorted);
      InsertIncreasing(list[i], sorted);
      assert list[..i + 1] == list[..i] + [list[i]];
      sorted := Insert(list[i], sorted);
    }
    assert list[..|list|] == list;
  }

  // ---- Resolve ----

  /** The first `n` resolvers all answer nil. */
  ghost predicate AllNil(resolvers: seq<Resolver>, n: nat, repo: string, reference: string)
    requires n <= |resolvers|
  {
    forall j :: 0 <= j < n ==> resolvers[j](repo, reference) == None
  }

  ghost function Union(resolvers: seq<Resolver>, repo: string): set<string> {
    set i, s | 0 <= i < |resolvers| && resolvers[i](repo, "").Some? && s in resolvers[i](repo, "").value :: s
  }

  /**
   * `resolver.Resolve`: with a reference the first non-nil answer in order, or nothing; without one the
   * increasing list of everything any resolver answers.
   */
  method Resolve(resolvers: seq<Resolver>, repo: string, reference: string) returns (list: seq<string>)
    ensures reference != "" ==>
              || (AllNil(resolvers, |resolvers|, repo, reference) && list == [])
              || exists i :: 0 <= i < |resolvers| && AllNil(resolvers, i, repo, reference)
                             && resolvers[i](repo, reference) == Some(list)
    ensures reference == "" ==> Increasing(list) && Elements(list) == Union(resolvers, repo)
  {
    list := [];
    for i := 0 to |resolvers|
      invariant reference != "" ==> list == [] && AllNil(resolvers, i, repo, reference)
      invariant reference == "" ==> Elements(list) == Union(resolvers[..i], repo)
    {
      var result := resolvers[i](repo, reference);
      UnionSnoc(resolvers, i, repo);
      if result.Some? {
        if reference != "" {
          return result.value;
        }
        assert Elements(list + result.value) == Elements(list) + Elements(result.value);
        list := list + result.value;
      }
    }
    assert resolvers[..|resolvers|] == resolvers;
    NoElements(list);
    list := Uniq(list);
    list := Sort(list);
    NoElements(list);
  }

  lemma UnionSnoc(resolvers: seq<Resolver>, i: nat, repo: string)
    requires i < |resolvers|
    ensures var answer := resolvers[i](repo, "");
            Union(resolvers[..i + 1], repo)
            == Union(resolvers[..i], repo) + if answer.Some? then Elements(answer.value) else {}
  {
    var answer := resolvers[i](repo, "");
    var sum := Union(resolvers[..i], repo) + if answer.Some? then Elements(answer.value) else {};
    forall s | s in sum
      ensures s in Union(resolvers[..i + 1], repo)
    {
      if s in Union(resolvers[..i], repo) {
        var j :| 0 <= j < i && resolvers[..i][j](repo, "").Some? && s in resolvers[..i][j](repo, "").value;
        assert resolvers[..i + 1][j] == resolvers[..i][j];
      } else {
        assert resolvers[..i + 1][i] == resolvers[i];
      }
    }
  }

  /**
   * A listing is canonical: whatever increasing list of the same elements is computed, from the resolvers in whatever
   * order, it is the same list.
   */
  lemma ListingCanonical(resolvers: seq<Resolver>, order: seq<nat>, repo: string, a: seq<string>, b: seq<string>)
    requires |order| == |resolvers|
    requires forall i :: 0 <= i < |order| ==> order[i] < |resolvers|
    requires forall j :: 0 <= j < |resolvers| ==> j in order
    requires Increasing(a) && Elements(a) == Union(resolvers, repo)
    requires Increasing(b) && Elements(b) == Union(Permuted(resolvers, order), repo)
    ensures a == b
  {
    var permuted := Permuted(resolvers, order);
    forall s
      ensures s in Union(resolvers, repo) <==> s in Union(permuted, repo)
    {
      if s in Union(resolvers, repo) {
        var j :| 0 <= j < |resolvers| && resolvers[j](repo, "").Some? && s in resolvers[j](repo, "").value;
        assert j in order;
        var i :| 0 <= i < |order| && order[i] == j;
        assert permuted[i] == resolvers[j];
      }
    }
    IncreasingUnique(a, b);
  }

  ghost function Permuted(resolvers: seq<Resolver>, order: seq<nat>): seq<Resolver>
    requires forall i :: 0 <= i < |order| ==> order[i] < |resolvers|
  {
    seq(|order|, i requires 0 <= i < |order| => resolvers[order[i]])
  }
}
