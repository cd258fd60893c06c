/** Options, bytes and the few string operations of the Go standard library that the registry relies on. */
module Text {

  datatype Option<+T> = None | Some(value: T)

  type byte = x: int | 0 <= x < 256
  type Bytes = seq<byte>

  predicate HasPrefix(s: string, prefix: string) {
    prefix <= s
  }

  /** `strings.Join` with a one-character separator. */
  function Join(parts: seq<string>, sep: char): string {
    if |parts| == 0 then ""
    else if |parts| == 1 then parts[0]
    else parts[0] + [sep] + Join(parts[1..], sep)
  }

  predicate Free(s: string, c: char) {
    c !in s
  }

  predicate AllFree(parts: seq<string>, c: char) {
    forall i :: 0 <= i < |parts| ==> Free(parts[i], c)
  }

  /** `strings.Split` with a one-character separator; it never returns an empty list. */
  function Split(s: string, sep: char): (parts: seq<string>)
    ensures |parts| > 0
    ensures AllFree(parts, sep)
    ensures Join(parts, sep) == s
  {
    if s == "" then [""]
    else
      var rest := Split(s[1..], sep);
      if s[0] == sep then
        assert ([""] + rest)[1..] == rest;
        [""] + rest
      else
        var parts := [[s[0]] + rest[0]] + rest[1..];
        assert parts[1..] == rest[1..];
        parts
  }

  /** Splitting undoes joining for separator-free parts. */
  lemma {:induction false} SplitOfJoin(parts: seq<string>, sep: char)
    requires |parts| > 0 && AllFree(parts, sep)
    ensures Split(Join(parts, sep), sep) == parts
    decreases |parts|, |parts[0]|
  {
    var s := Join(parts, sep);
    if parts[0] == "" {
      if |parts| > 1 {
        assert s[0] == sep && s[1..] == Join(parts[1..], sep);
        SplitOfJoin(parts[1..], sep);
      }
    } else {
      var shorter := [parts[0][1..]] + parts[1..];
      assert s[0] == parts[0][0] && s[0] != sep;
      assert shorter[1..] == parts[1..];
      assert s[1..] == Join(shorter, sep);
      SplitOfJoin(shorter, sep);
      assert [s[0]] + shorter[0] == parts[0];
    }
  }

  lemma {:induction false} JoinSnoc(parts: seq<string>, last: string, sep: char)
    requires |parts| > 0
    ensures Join(parts + [last], sep) == Join(parts, sep) + [sep] + last
  {
    if |parts| > 1 {
      assert (parts + [last])[1..] == parts[1..] + [last];
      JoinSnoc(parts[1..], last, sep);
    }
  }

  lemma JoinRooted(parts: seq<string>, sep: char)
    requires |parts| > 0
    ensures Join([""] + parts, sep) == [sep] + Join(parts, sep)
  {
    assert ([""] + parts)[1..] == parts;
  }

  /** Appending one more separator-free part splits off as the last element. */
  lemma SplitSnoc(s: string, last: string, sep: char)
    requires Free(last, sep)
    ensures Split(s + [sep] + last, sep) == Split(s, sep) + [last]
  {
    JoinSnoc(Split(s, sep), last, sep);
    SplitOfJoin(Split(s, sep) + [last], sep);
  }

  /** `strings.SplitN(s, sep, 2)`: cut at the first separator, if there is one. */
  function Cut(s: string, sep: char): (parts: seq<string>)
    ensures 1 <= |parts| <= 2
    ensures Join(parts, sep) == s
    ensures |parts| == 2 <==> sep in s
    ensures |parts| == 2 ==> Free(parts[0], sep)
  {
    if s == "" then [""]
    else if s[0] == sep then ["", s[1..]]
    else
      var rest := Cut(s[1..], sep);
      [[s[0]] + rest[0]] + rest[1..]
  }

  /** The first separator of `a + sep + b` is the one after a separator-free `a`. */
  lemma {:induction false} CutAt(a: string, b: string, sep: char)
    requires Free(a, sep)
    ensures Cut(a + [sep] + b, sep) == [a, b]
  {
    var s := a + [sep] + b;
    if a == "" {
      assert s[1..] == b;
    } else {
      assert s[1..] == a[1..] + [sep] + b;
      CutAt(a[1..], b, sep);
      assert [s[0]] + a[1..] == a;
    }
  }

  /**
   * Lexical cleaning of a rooted path, as `path.Clean` does it: empty and "." segments are dropped,
   * ".." drops the segment before it and stays at the root when there is none.
   */
  function Clean(base: seq<string>, segments: seq<string>): seq<string>
    decreases |segments|
  {
    if |segments| == 0 then base
    else
      var s := segments[0];
      Clean(if s == "" || s == "." then base
            else if s == ".." then (if |base| == 0 then base else base[..|base| - 1])
            else base + [s], segments[1..])
  }

  predicate Plain(segment: string) {
    segment != "" && segment != "." && segment != ".."
  }

  predicate AllPlain(segments: seq<string>) {
    forall i :: 0 <= i < |segments| ==> Plain(segments[i])
  }

  lemma {:induction false} CleanPlain(base: seq<string>, segments: seq<string>)
    requires AllPlain(segments)
    ensures Clean(base, segments) == base + segments
    decreases |segments|
  {
    if |segments| > 0 {
      CleanPlain(base + [segments[0]], segments[1..]);
      assert base + [segments[0]] + segments[1..] == base + segments;
    }
  }
}
