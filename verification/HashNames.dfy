/**
 * The two spellings of a content hash in regutil.go: the base58 one IPFS prints and the
 * lower-case base32 one that Docker accepts as a repository name.
 */
module HashNames {
  import opened Text
  import opened Numerals

  // ---- base58: the Bitcoin alphabet, a leading '1' for every leading zero byte ----

  /** Position of a character in the alphabet, or -1. */
  function Index58(c: char): int {
    if '1' <= c <= '9' then c as int - '1' as int
    else if 'A' <= c <= 'H' then c as int - 'A' as int + 9
    else if 'J' <= c <= 'N' then c as int - 'J' as int + 17
    else if 'P' <= c <= 'Z' then c as int - 'P' as int + 22
    else if 'a' <= c <= 'k' then c as int - 'a' as int + 33
    else if 'm' <= c <= 'z' then c as int - 'm' as int + 44
    else -1
  }

  function Char58(d: nat): (c: char)
    requires d < 58
    ensures Index58(c) == d
  {
    if d < 9 then ('1' as int + d) as char
    else if d < 17 then ('A' as int + d - 9) as char
    else if d < 22 then ('J' as int + d - 17) as char
    else if d < 33 then ('P' as int + d - 22) as char
    else if d < 44 then ('a' as int + d - 33) as char
    else ('m' as int + d - 44) as char
  }

  predicate Valid58(s: string) {
    forall i :: 0 <= i < |s| ==> Index58(s[i]) >= 0
  }

  function Indices58(s: string): (ds: seq<nat>)
    requires Valid58(s)
    ensures |ds| == |s| && IsNumeral(ds, 58)
  {
    seq(|s|, i requires 0 <= i < |s| => Index58(s[i]))
  }

  function Chars58(ds: seq<nat>): (s: string)
    requires IsNumeral(ds, 58)
    ensures |s| == |ds| && Valid58(s) && Indices58(s) == ds
  {
    seq(|ds|, i requires 0 <= i < |ds| => Char58(ds[i]))
  }

  /** How many copies of `x` a sequence starts with. */
  function Leading<T(==)>(s: seq<T>, x: T): (k: nat)
    ensures k <= |s|
  {
    if s != [] && s[0] == x then 1 + Leading(s[1..], x) else 0
  }

  lemma {:induction false} LeadingSplits<T>(s: seq<T>, x: T)
    ensures var k := Leading(s, x);
            s == Repeat(x, k) + s[k..] && (k < |s| ==> s[k] != x)
  {
    if s != [] && s[0] == x {
      LeadingSplits(s[1..], x);
      var k := Leading(s[1..], x);
      assert Repeat(x, k + 1) == [x] + Repeat(x, k);
      assert s[1..][k..] == s[k + 1..];
    }
  }

  function AsBytes(ds: seq<nat>): (b: Bytes)
    requires IsNumeral(ds, 256)
    ensures |b| == |ds| && forall i :: 0 <= i < |b| ==> b[i] == ds[i]
  {
    seq(|ds|, i requires 0 <= i < |ds| => ds[i])
  }

  function AsDigits(b: Bytes): (ds: seq<nat>)
    ensures IsNumeral(ds, 256) && |b| == |ds| && forall i :: 0 <= i < |b| ==> b[i] == ds[i]
  {
    seq(|b|, i requires 0 <= i < |b| => b[i])
  }

  /** `base58.Decode`: any invalid character makes the whole result empty. */
  function Decode58(s: string): Bytes {
    if Valid58(s) then Repeat(0, Leading(s, '1')) + AsBytes(Digits(Value(Indices58(s), 58), 256)) else []
  }

  /** `base58.Encode`. */
  function Encode58(b: Bytes): string {
    Repeat('1', Leading(b, 0)) + Chars58(Digits(Value(AsDigits(b), 256), 58))
  }

  /** A run of `k` and then something else leads with exactly `k`. */
  lemma {:induction false} LeadingOf<T>(x: T, k: nat, rest: seq<T>)
    requires rest != [] ==> rest[0] != x
    ensures Leading(Repeat(x, k) + rest, x) == k
  {
    if k == 0 {
      assert Repeat(x, k) + rest == rest;
    } else {
      assert (Repeat(x, k) + rest)[1..] == Repeat(x, k - 1) + rest;
      LeadingOf(x, k - 1, rest);
    }
  }

  lemma CharOfIndex(c: char)
    requires Index58(c) >= 0
    ensures Char58(Index58(c)) == c
    ensures Index58(c) == 0 <==> c == '1'
  {
  }

  lemma CharsOfIndices(s: string)
    requires Valid58(s)
    ensures Chars58(Indices58(s)) == s
  {
    forall i | 0 <= i < |s|
      ensures Chars58(Indices58(s))[i] == s[i]
    {
      CharOfIndex(s[i]);
    }
  }

  lemma IndicesOfOnes(k: nat, rest: string)
    requires Valid58(rest)
    ensures Valid58(Repeat('1', k) + rest)
    ensures Indices58(Repeat('1', k) + rest) == Repeat(0, k) + Indices58(rest)
  {
    var h := Repeat('1', k) + rest;
    forall i | 0 <= i < |h|
      ensures Index58(h[i]) == if i < k then 0 else Index58(rest[i - k])
    {
    }
  }

  /** Decoding, with the leading ones split off: what remains is a number without leading zero digit. */
  lemma DecodeShape(k: nat, rest: string)
    requires Valid58(rest) && (rest != "" ==> rest[0] != '1')
    ensures Decode58(Repeat('1', k) + rest) == Repeat(0, k) + AsBytes(Digits(Value(Indices58(rest), 58), 256))
    ensures Indices58(rest) != [] ==> Indices58(rest)[0] != 0
  {
    var h := Repeat('1', k) + rest;
    LeadingOf('1', k, rest);
    IndicesOfOnes(k, rest);
    LeadingZeros(k, Indices58(rest), 58);
    if rest != "" { CharOfIndex(rest[0]); }
  }

  /** Encoding, with the leading zero bytes split off. */
  lemma EncodeShape(k: nat, rest: Bytes)
    requires rest != [] ==> rest[0] != 0
    ensures Encode58(Repeat(0, k) + rest) == Repeat('1', k) + Chars58(Digits(Value(AsDigits(rest), 256), 58))
  {
    var b: Bytes := Repeat(0, k) + rest;
    LeadingOf<byte>(0, k, rest);
    assert AsDigits(b) == Repeat(0, k) + AsDigits(rest);
    LeadingZeros(k, AsDigits(rest), 256);
  }

  /** Encoding undoes decoding on every string over the alphabet. */
  lemma Encode58Decode58(h: string)
    requires Valid58(h)
    ensures Encode58(Decode58(h)) == h
  {
    var k := Leading(h, '1');
    var rest := h[k..];
    LeadingSplits(h, '1');
    DecodeShape(k, rest);
    DigitsOfValue(Indices58(rest), 58);
    CharsOfIndices(rest);
    EncodeTail(k, Digits(Value(Indices58(rest), 58), 256));
  }

  lemma EncodeTail(k: nat, tail: seq<nat>)
    requires IsNumeral(tail, 256) && (tail != [] ==> tail[0] != 0)
    ensures Encode58(Repeat(0, k) + AsBytes(tail)) == Repeat('1', k) + Chars58(Digits(Value(tail, 256), 58))
  {
    EncodeShape(k, AsBytes(tail));
    assert AsDigits(AsBytes(tail)) == tail;
  }

  /** Decoding undoes encoding on every byte string. */
  lemma Decode58Encode58(b: Bytes)
    ensures Valid58(Encode58(b)) && Decode58(Encode58(b)) == b
  {
    var k := Leading<byte>(b, 0);
    var rest := b[k..];
    LeadingSplits<byte>(b, 0);
    EncodeShape(k, rest);
    var tail := Digits(Value(AsDigits(rest), 256), 58);
    if tail != [] { CharOfIndex(Chars58(tail)[0]); }
    DecodeShape(k, Chars58(tail));
    DigitsOfValue(AsDigits(rest), 256);
    assert AsBytes(AsDigits(rest)) == rest;
  }

  // ---- base32: section 6 of RFC 4648, groups of 5 bytes written as 8 symbols ----

  function Index32(c: char): int {
    if 'A' <= c <= 'Z' then c as int - 'A' as int
    else if '2' <= c <= '7' then c as int - '2' as int + 26
    else -1
  }

  function Char32(d: nat): (c: char)
    requires d < 32
    ensures Index32(c) == d
  {
    if d < 26 then ('A' as int + d) as char else ('2' as int + d - 26) as char
  }

  /** Symbols that a group of `r` bytes needs. */
  function Symbols(r: nat): nat {
    match r case 1 => 2 case 2 => 4 case 3 => 5 case 4 => 7 case 5 => 8 case _ => 0
  }

  /** Bytes that a group of `j` symbols carries; 1, 3 and 6 symbols are no group. */
  function GroupBytes(j: nat): nat {
    match j case 2 => 1 case 4 => 2 case 5 => 3 case 7 => 4 case 8 => 5 case _ => 0
  }

  /** The zero bits appended so that `r` bytes fill their symbols: 2, 4, 1, 3 or none. */
  function Widen(v: nat, r: nat): nat {
    match r case 1 => v * 4 case 2 => v * 16 case 3 => v * 2 case 4 => v * 8 case _ => v
  }

  /** Dropping them again. */
  function Narrow(v: nat, r: nat): nat {
    match r case 1 => v / 4 case 2 => v / 16 case 3 => v / 2 case 4 => v / 8 case _ => v
  }

  function GroupSymbols(b: Bytes): (s: string)
    requires 1 <= |b| <= 5
    ensures |s| == Symbols(|b|) && forall i :: 0 <= i < |s| ==> Index32(s[i]) >= 0
  {
    var ds := Fixed(Widen(Value(AsDigits(b), 256), |b|), 32, Symbols(|b|));
    seq(|ds|, i requires 0 <= i < |ds| => Char32(ds[i]))
  }

  function EncodeGroup(b: Bytes): (s: string)
    requires 1 <= |b| <= 5
    ensures |s| == 8
    ensures |b| == 5 ==> s == GroupSymbols(b)
    ensures |b| < 5 ==> s[7] == '='
  {
    GroupSymbols(b) + Repeat('=', 8 - Symbols(|b|))
  }

  /** `base32.StdEncoding.EncodeToString`. */
  function Encode32(b: Bytes): (s: string)
    ensures b == [] <==> s == ""
  {
    if b == [] then ""
    else if |b| < 5 then EncodeGroup(b)
    else EncodeGroup(b[..5]) + Encode32(b[5..])
  }

  /** How many alphabet symbols a string starts with, counting at most `limit`. */
  function Run(s: string, limit: nat): (j: nat)
    ensures j <= |s| && j <= limit
    ensures forall i :: 0 <= i < j ==> Index32(s[i]) >= 0
    ensures j < limit && j < |s| ==> Index32(s[j]) < 0
  {
    if limit > 0 && s != "" && Index32(s[0]) >= 0 then 1 + Run(s[1..], limit - 1) else 0
  }

  function DecodeGroup(s: string): (b: Bytes)
    requires forall i :: 0 <= i < |s| ==> Index32(s[i]) >= 0
    ensures |b| == GroupBytes(|s|)
  {
    var r := GroupBytes(|s|);
    AsBytes(Fixed(Narrow(Value(Indices32(s), 32), r), 256, r))
  }

  function Indices32(s: string): (ds: seq<nat>)
    requires forall i :: 0 <= i < |s| ==> Index32(s[i]) >= 0
    ensures |ds| == |s| && IsNumeral(ds, 32)
  {
    seq(|s|, i requires 0 <= i < |s| => Index32(s[i]))
  }

  /** The last quantum: `j` symbols and then padding; whatever follows the padding is ignored. */
  function DecodeLast(s: string, j: nat): Option<Bytes>
    requires j < |s| && forall i :: 0 <= i < j ==> Index32(s[i]) >= 0
  {
    var after := s[j + 1..];
    if s[j] != '=' || j < 2 || |after| >= 8 then None
    else if |after| + j < 7 || (exists k :: 0 <= k < 7 - j && after[k] != '=') then None
    else if j == 3 || j == 6 then None
    else Some(DecodeGroup(s[..j]))
  }

  /** `base32.StdEncoding.Decode` on a string without line ends. */
  function Decode32(s: string): Option<Bytes> {
    if s == "" then Some([])
    else
      var j := Run(s, 8);
      if j == 8 then Prepend(DecodeGroup(s[..8]), Decode32(s[8..]))
      else if j == |s| then None
      else DecodeLast(s, j)
  }

  function Prepend(b: Bytes, rest: Option<Bytes>): Option<Bytes> {
    if rest.None? then None else Some(b + rest.value)
  }

  lemma {:induction false} RunOf(symbols: string, rest: string, limit: nat)
    requires forall i :: 0 <= i < |symbols| ==> Index32(symbols[i]) >= 0
    requires |symbols| <= limit
    requires |symbols| < limit ==> rest != "" && Index32(rest[0]) < 0
    ensures Run(symbols + rest, limit) == |symbols|
  {
    if symbols == "" {
      assert symbols + rest == rest;
    } else {
      assert (symbols + rest)[1..] == symbols[1..] + rest;
      RunOf(symbols[1..], rest, limit - 1);
    }
  }

  lemma Powers(r: nat)
    requires 1 <= r <= 5
    ensures Widen(Power(256, r), r) == Power(32, Symbols(r))
  {
    assert Power(256, 1) == 256;
    assert Power(256, 2) == 65536;
    assert Power(256, 3) == 16777216;
    assert Power(256, 4) == 4294967296;
    assert Power(256, 5) == 1099511627776;
    assert Power(32, 2) == 1024;
    assert Power(32, 4) == 1048576;
    assert Power(32, 5) == 33554432;
    assert Power(32, 7) == 34359738368;
    assert Power(32, 8) == 1099511627776;
  }

  /** The symbols of a group spell its bytes, shifted by the slack. */
  lemma GroupValue(b: Bytes)
    requires 1 <= |b| <= 5
    ensures Value(Indices32(GroupSymbols(b)), 32) == Widen(Value(AsDigits(b), 256), |b|)
  {
    var v := Widen(Value(AsDigits(b), 256), |b|);
    ValueBound(AsDigits(b), 256);
    Powers(|b|);
    ValueOfFixed(v, 32, Symbols(|b|));
    assert Indices32(GroupSymbols(b)) == Fixed(v, 32, Symbols(|b|));
  }

  lemma NarrowWiden(v: nat, r: nat)
    ensures Narrow(Widen(v, r), r) == v
    ensures 1 <= r <= 5 ==> GroupBytes(Symbols(r)) == r
  {
  }

  lemma DecodeGroupSymbols(b: Bytes)
    requires 1 <= |b| <= 5
    ensures DecodeGroup(GroupSymbols(b)) == b
  {
    var v := Value(AsDigits(b), 256);
    GroupValue(b);
    NarrowWiden(v, |b|);
    FixedOfValue(AsDigits(b), 256);
    calc {
      DecodeGroup(GroupSymbols(b));
      AsBytes(Fixed(Narrow(Widen(v, |b|), |b|), 256, |b|));
      AsBytes(AsDigits(b));
      b;
    }
  }

  /** A full quantum decodes on its own. */
  lemma DecodeFull(b: Bytes, rest: string)
    requires |b| == 5
    ensures Decode32(GroupSymbols(b) + rest) == Prepend(b, Decode32(rest))
  {
    var g := GroupSymbols(b);
    RunOf(g, rest, 8);
    assert (g + rest)[..8] == g && (g + rest)[8..] == rest;
    DecodeGroupSymbols(b);
  }

  /** A padded quantum ends the decoding. */
  lemma DecodePadded(g: string)
    requires |g| in {2, 4, 5, 7} && forall i :: 0 <= i < |g| ==> Index32(g[i]) >= 0
    ensures Decode32(g + Repeat('=', 8 - |g|)) == Some(DecodeGroup(g))
  {
    var pad := Repeat('=', 8 - |g|);
    RunOf(g, pad, 8);
    DecodeLastPadded(g);
  }

  lemma DecodeLastPadded(g: string)
    requires |g| in {2, 4, 5, 7} && forall i :: 0 <= i < |g| ==> Index32(g[i]) >= 0
    ensures DecodeLast(g + Repeat('=', 8 - |g|), |g|) == Some(DecodeGroup(g))
  {
    var s := g + Repeat('=', 8 - |g|);
    assert s[..|g|] == g;
    var after := s[|g| + 1..];
    assert |after| == 7 - |g|;
    assert forall k :: 0 <= k < |after| ==> after[k] == '=';
  }

  /** RFC 4648 base32 round trip. */
  lemma {:induction false} Decode32Encode32(b: Bytes)
    ensures Decode32(Encode32(b)) == Some(b)
    decreases |b|
  {
    if |b| >= 5 {
      DecodeFull(b[..5], Encode32(b[5..]));
      Decode32Encode32(b[5..]);
      assert EncodeGroup(b[..5]) == GroupSymbols(b[..5]);
      assert b[..5] + b[5..] == b;
    } else if b != [] {
      DecodePadded(GroupSymbols(b));
      DecodeGroupSymbols(b);
    }
  }

  /** Seven of the eight symbols of a full group still carry its first four bytes. */
  lemma DecodeSevenSymbols(b: Bytes)
    requires |b| == 5
    ensures DecodeGroup(GroupSymbols(b)[..7]) == b[..4]
  {
    var g := GroupSymbols(b);
    GroupValue(b);
    var ds := Indices32(g);
    assert Indices32(g[..7]) == ds[..7];
    assert AsDigits(b)[..4] == AsDigits(b[..4]);
    var w, v := Value(ds[..7], 32), Value(AsDigits(b[..4]), 256);
    assert w * 32 + ds[7] == v * 256 + b[4];
    assert w / 8 == v;
    FixedOfValue(AsDigits(b[..4]), 256);
  }

  function Chop(s: string): string {
    if s == "" then "" else s[..|s| - 1]
  }

  lemma EncodeFirst(b: Bytes)
    requires |b| >= 5
    ensures Encode32(b) == GroupSymbols(b[..5]) + Encode32(b[5..])
  {
  }

  lemma ChoppedGroup(g: string)
    requires |g| == 8 && forall i :: 0 <= i < |g| ==> Index32(g[i]) >= 0
    ensures Decode32(Chop(g) + "=") == Some(DecodeGroup(g[..7]))
  {
    DecodePadded(g[..7]);
    assert Repeat('=', 1) == "=";
  }

  /** Replacing the last symbol of an unpadded encoding by '=' loses exactly the last byte. */
  lemma {:induction false} Decode32Chopped(b: Bytes)
    requires b != [] && |b| % 5 == 0
    ensures Decode32(Chop(Encode32(b)) + "=") == Some(b[..|b| - 1])
    decreases |b|
  {
    var g := GroupSymbols(b[..5]);
    assert b == b[..5] + b[5..];
    if |b| == 5 {
      assert b[..5] == b;
      assert Encode32(b) == g;
      ChoppedGroup(g);
      DecodeSevenSymbols(b);
    } else {
      assert |b[5..]| % 5 == 0;
      Decode32Chopped(b[5..]);
      ChopLater(b[..5], b[5..]);
    }
  }

  lemma EncodeLater(b: Bytes, rest: Bytes)
    requires |b| == 5
    ensures Encode32(b + rest) == GroupSymbols(b) + Encode32(rest)
  {
    assert (b + rest)[..5] == b && (b + rest)[5..] == rest;
    EncodeFirst(b + rest);
  }

  lemma ChoppedLater(b: Bytes, t: string, init: Bytes)
    requires |b| == 5 && t != "" && Decode32(Chop(t) + "=") == Some(init)
    ensures Decode32(Chop(GroupSymbols(b) + t) + "=") == Some(b + init)
  {
    ChopAppend(GroupSymbols(b), t);
    DecodeFull(b, Chop(t) + "=");
  }

  lemma ChopLater(b: Bytes, rest: Bytes)
    requires |b| == 5 && rest != []
    requires Decode32(Chop(Encode32(rest)) + "=") == Some(rest[..|rest| - 1])
    ensures Decode32(Chop(Encode32(b + rest)) + "=") == Some((b + rest)[..|b + rest| - 1])
  {
    EncodeLater(b, rest);
    ChoppedLater(b, Encode32(rest), rest[..|rest| - 1]);
    assert b + rest[..|rest| - 1] == (b + rest)[..|b + rest| - 1];
  }

  lemma ChopAppend(g: string, t: string)
    requires t != ""
    ensures Chop(g + t) + "=" == g + (Chop(t) + "=")
  {
  }

  // ---- names ----

  function LowerChar(c: char): char {
    if 'A' <= c <= 'Z' then (c as int + 32) as char else c
  }

  function UpperChar(c: char): char {
    if 'a' <= c <= 'z' then (c as int - 32) as char else c
  }

  function Lower(s: string): (t: string)
    ensures |t| == |s| && forall i :: 0 <= i < |s| ==> t[i] == LowerChar(s[i])
  {
    seq(|s|, i requires 0 <= i < |s| => LowerChar(s[i]))
  }

  function Upper(s: string): (t: string)
    ensures |t| == |s| && forall i :: 0 <= i < |s| ==> t[i] == UpperChar(s[i])
  {
    seq(|s|, i requires 0 <= i < |s| => UpperChar(s[i]))
  }

  predicate LineEnd(c: char) {
    c == '\r' || c == '\n'
  }

  function StripLineEnds(s: string): string {
    if s == "" then "" else (if LineEnd(s[0]) then "" else [s[0]]) + StripLineEnds(s[1..])
  }

  /** What `(/ipfs/)?(.*)` captures in its second group: the first line, without the prefix. */
  function HashPart(s: string): string {
    FirstLine(if HasPrefix(s, "/ipfs/") then s[6..] else s)
  }

  function FirstLine(s: string): string {
    if s == "" || s[0] == '\n' then "" else [s[0]] + FirstLine(s[1..])
  }

  function DockerizeHash(base58Hash: string): string {
    var b32 := Encode32(Decode58(HashPart(base58Hash)));
    Lower(Chop(b32))
  }

  function IpfsifyHash(base32Hash: string): string {
    match Decode32(StripLineEnds(Upper(base32Hash) + "="))
    case None => ""
    case Some(b) => Encode58(b)
  }

  lemma {:induction false} FirstLineOf58(h: string)
    requires Valid58(h)
    ensures FirstLine(h) == h
  {
    if h != "" {
      FirstLineOf58(h[1..]);
    }
  }

  lemma {:induction false} StripNothing(s: string)
    requires forall i :: 0 <= i < |s| ==> !LineEnd(s[i])
    ensures StripLineEnds(s) == s
  {
    if s != "" {
      StripNothing(s[1..]);
    }
  }

  predicate Symbol32(c: char) {
    Index32(c) >= 0 || c == '='
  }

  predicate Symbols32(s: string) {
    forall i :: 0 <= i < |s| ==> Symbol32(s[i])
  }

  lemma {:induction false} Encode32Symbols(b: Bytes)
    ensures Symbols32(Encode32(b))
    decreases |b|
  {
    if |b| >= 5 {
      Encode32Symbols(b[5..]);
      assert Symbols32(EncodeGroup(b[..5]));
    }
  }

  lemma CaseRoundTrip(s: string)
    requires Symbols32(s)
    ensures StripLineEnds(Upper(Lower(s)) + "=") == s + "="
  {
    forall i | 0 <= i < |s|
      ensures Upper(Lower(s))[i] == s[i] && !LineEnd(s[i])
    {
      assert Symbol32(s[i]);
    }
    assert Upper(Lower(s)) == s;
    StripNothing(s + "=");
  }

  /** What `IpfsifyHash` decodes after the case changes: the encoding with its last character replaced by '='. */
  lemma IpfsifyDockerized(h: string)
    requires Valid58(h)
    ensures StripLineEnds(Upper(DockerizeHash(h)) + "=") == Chop(Encode32(Decode58(h))) + "="
  {
    HashPartOf58(h);
    var s := Encode32(Decode58(h));
    Encode32Symbols(Decode58(h));
    CaseRoundTrip(Chop(s));
  }

  lemma HashPartOf58(h: string)
    requires Valid58(h)
    ensures HashPart(h) == h
  {
    FirstLineOf58(h);
    assert h != "" ==> Index58(h[0]) >= 0;
    assert !HasPrefix(h, "/ipfs/");
  }

  /** The "/ipfs/" in front of a hash makes no difference. */
  lemma PrefixIgnored(h: string)
    requires Valid58(h)
    ensures DockerizeHash("/ipfs/" + h) == DockerizeHash(h)
  {
    HashPartOf58(h);
    FirstLineOf58(h);
    var s := "/ipfs/" + h;
    assert HasPrefix(s, "/ipfs/");
    assert s[6..] == h;
    assert HashPart(s) == h;
  }

  lemma {:induction false} FirstLineEnds(h: string, rest: string)
    requires Valid58(h)
    ensures FirstLine(h + "\n" + rest) == h
  {
    var s := h + "\n" + rest;
    if h != "" {
      assert s[1..] == h[1..] + "\n" + rest;
      FirstLineEnds(h[1..], rest);
      assert Index58(s[0]) >= 0;
    }
  }

  /** Nor do further lines after it. */
  lemma LaterLinesIgnored(h: string, rest: string)
    requires Valid58(h)
    ensures DockerizeHash(h + "\n" + rest) == DockerizeHash(h)
  {
    var s := h + "\n" + rest;
    FirstLineEnds(h, rest);
    HashPartOf58(h);
    assert !HasPrefix(s, "/ipfs/") by {
      assert s[0] == if h == "" then '\n' else h[0];
      assert h != "" ==> Index58(h[0]) >= 0;
    }
  }

  predicate EndsPadded(s: string) {
    s != "" && s[|s| - 1] == '='
  }

  lemma PaddedLater(b: Bytes)
    requires |b| > 5 && EndsPadded(Encode32(b[5..]))
    ensures EndsPadded(Encode32(b))
  {
  }

  /** An encoding of anything but whole groups ends in padding. */
  lemma {:induction false} Padded(b: Bytes)
    requires |b| % 5 != 0
    ensures EndsPadded(Encode32(b))
    decreases |b|
  {
    if |b| > 5 {
      Padded(b[5..]);
      PaddedLater(b);
    }
  }

  /**
   * The conversion round trip, exactly: it holds unless the hash has a positive multiple of five bytes,
   * and then precisely the last byte is lost.
   */
  lemma HashRoundTrip(h: string)
    requires Valid58(h)
    ensures var n := |Decode58(h)|; IpfsifyHash(DockerizeHash(h)) == h <==> n == 0 || n % 5 != 0
    ensures var b := Decode58(h);
            b != [] && |b| % 5 == 0 ==>
              IpfsifyHash(DockerizeHash(h)) == Encode58(b[..|b| - 1])
              && Decode58(IpfsifyHash(DockerizeHash(h))) == b[..|b| - 1]
  {
    var b := Decode58(h);
    Encode58Decode58(h);
    IpfsifyDockerized(h);
    if b == [] {
      EmptyRoundTrip(h);
    } else if |b| % 5 != 0 {
      PaddedRoundTrip(b);
    } else {
      Decode32Chopped(b);
      Decode58Encode58(b[..|b| - 1]);
    }
  }

  lemma EncodeNothing()
    ensures Encode58([]) == ""
  {
    assert Leading<byte>([], 0) == 0;
    assert Digits(Value([], 256), 58) == [];
  }

  lemma LonePaddingFails()
    ensures Decode32("=") == None
  {
    assert Run("=", 8) == 0;
  }

  lemma EmptyRoundTrip(h: string)
    requires Valid58(h) && Decode58(h) == []
    ensures h == "" && Decode32(Chop(Encode32(Decode58(h))) + "=") == None
  {
    Encode58Decode58(h);
    EncodeNothing();
    assert Chop(Encode32([])) + "=" == "=";
    LonePaddingFails();
  }

  lemma PaddedRoundTrip(b: Bytes)
    requires |b| % 5 != 0
    ensures Decode32(Chop(Encode32(b)) + "=") == Some(b)
  {
    Padded(b);
    ChopPadded(Encode32(b));
    Decode32Encode32(b);
  }

  lemma ChopPadded(s: string)
    requires EndsPadded(s)
    ensures Chop(s) + "=" == s
  {
  }

  /** In particular the 34-byte multihashes of IPFS survive the trip. */
  lemma MultihashSurvives(h: string)
    requires Valid58(h) && |Decode58(h)| == 34
    ensures IpfsifyHash(DockerizeHash(h)) == h
  {
    assert 34 % 5 == 4;
    HashRoundTrip(h);
  }

  /** So no two of them share a Docker name. */
  lemma MultihashNamesDistinct(h: string, h': string)
    requires Valid58(h) && |Decode58(h)| == 34
    requires Valid58(h') && |Decode58(h')| == 34
    requires DockerizeHash(h) == DockerizeHash(h')
    ensures h == h'
  {
    MultihashSurvives(h);
    MultihashSurvives(h');
  }

  /** A string with a character outside the alphabet gets the empty name. */
  lemma InvalidHasNoName(s: string)
    requires !Valid58(HashPart(s))
    ensures DockerizeHash(s) == ""
  {
    assert Encode32([]) == "";
  }

  // ---- the conversion spelled out against the published alphabets ----

  const FIGURES_58 := "123456789"
  const CAPITALS_58 := "ABCDEFGHJKLMNPQRSTUVWXYZ"
  const SMALLS_58 := "abcdefghijkmnopqrstuvwxyz"
  const ALPHABET_58 := FIGURES_58 + CAPITALS_58 + SMALLS_58
  const ALPHABET_32 := "ABCDEFGHIJKLMNOPQRSTUVWXYZ234567"
  const LOWER_32 := "abcdefghijklmnopqrstuvwxyz234567"

  lemma Figures58(d: nat)
    requires d < 9
    ensures |FIGURES_58| == 9 && Char58(d) == FIGURES_58[d]
  {
  }

  lemma Capitals58(d: nat)
    requires 9 <= d < 33
    ensures |CAPITALS_58| == 24 && Char58(d) == CAPITALS_58[d - 9]
  {
  }

  lemma Smalls58(d: nat)
    requires 33 <= d < 58
    ensures |SMALLS_58| == 25 && Char58(d) == SMALLS_58[d - 33]
  {
  }

  lemma Concatenated<T>(a: seq<T>, b: seq<T>, c: seq<T>, i: nat)
    requires i < |a + b + c|
    ensures (a + b + c)[i] == if i < |a| then a[i] else if i < |a| + |b| then b[i - |a|] else c[i - |a| - |b|]
  {
  }

  lemma Characters58(d: nat)
    requires d < 58
    ensures |ALPHABET_58| == 58 && Char58(d) == ALPHABET_58[d]
  {
    Concatenated(FIGURES_58, CAPITALS_58, SMALLS_58, d);
    if d < 9 {
      Figures58(d);
    } else if d < 33 {
      Capitals58(d);
    } else {
      Smalls58(d);
    }
  }

  lemma Characters32(d: nat)
    requires d < 32
    ensures |ALPHABET_32| == |LOWER_32| == 32
    ensures Char32(d) == ALPHABET_32[d] && LowerChar(Char32(d)) == LOWER_32[d]
  {
  }

  /** A valid string is spelled by its indices in the alphabet. */
  lemma SpelledByIndices(s: string)
    requires Valid58(s)
    ensures forall i :: 0 <= i < |s| ==> Indices58(s)[i] < 58 == |ALPHABET_58| && s[i] == ALPHABET_58[Indices58(s)[i]]
  {
    forall i | 0 <= i < |s|
      ensures Index58(s[i]) < 58 && s[i] == ALPHABET_58[Index58(s[i])]
    {
      CharOfIndex(s[i]);
      Characters58(Index58(s[i]));
    }
  }

  /** Numerals are read from the left. */
  lemma HornerRule(ds: seq<nat>, d: nat)
    ensures Value(ds + [d], 58) == Value(ds, 58) * 58 + d
    ensures Value(ds + [d], 256) == Value(ds, 256) * 256 + d
    ensures Value([], 58) == Value([], 256) == 0
  {
    var all := ds + [d];
    assert all[..|all| - 1] == ds;
    assert Value(all, 58) == Times(Value(ds, 58), 58) + d;
    assert Value(all, 256) == Times(Value(ds, 256), 256) + d;
  }

  /** What base58 encodes: a '1' for each leading zero byte, then the number that the bytes are in base 256. */
  lemma Encode58Spells(b: Bytes)
    ensures var s := Encode58(b);
            && Valid58(s)
            && (forall i :: 0 <= i < |s| ==>
                  Indices58(s)[i] < 58 == |ALPHABET_58| && s[i] == ALPHABET_58[Indices58(s)[i]])
            && Value(Indices58(s), 58) == Value(AsDigits(b), 256)
            && Leading(s, '1') == Leading(b, 0)
  {
    var k, tail := Leading<byte>(b, 0), Digits(Value(AsDigits(b), 256), 58);
    IndicesOfOnes(k, Chars58(tail));
    LeadingZeros(k, tail, 58);
    if tail != [] { CharOfIndex(Chars58(tail)[0]); }
    LeadingOf('1', k, Chars58(tail));
    SpelledByIndices(Encode58(b));
  }

  /** Bits `5 * i` to `5 * i + 4` of five bytes, counted from the left. */
  function Quintet(b: Bytes, i: nat): (d: nat)
    requires |b| == 5 && i < 8
    ensures d < 32
  {
    match i
    case 0 => b[0] / 8
    case 1 => b[0] % 8 * 4 + b[1] / 64
    case 2 => b[1] / 2 % 32
    case 3 => b[1] % 2 * 16 + b[2] / 16
    case 4 => b[2] % 16 * 2 + b[3] / 128
    case 5 => b[3] / 4 % 32
    case 6 => b[3] % 4 * 8 + b[4] / 32
    case _ => b[4] % 32
  }

  /** Five bytes, the missing ones zero. */
  function Filled(b: Bytes): (p: Bytes)
    requires |b| <= 5
    ensures |p| == 5
  {
    b + Repeat(0, 5 - |b|)
  }

  function Quintets(b: Bytes, n: nat): (ds: seq<nat>)
    requires |b| == 5 && n <= 8
    ensures |ds| == n && IsNumeral(ds, 32)
  {
    seq(n, i requires 0 <= i < n => Quintet(b, i))
  }

  /** A byte in the pieces that quintets cut it into. */
  lemma Pieces(x: nat)
    requires x < 256
    ensures x / 8 * 8 + x % 8 == x && x / 64 * 32 + x / 2 % 32 == x / 2 && x / 2 * 2 + x % 2 == x
    ensures x / 16 * 16 + x % 16 == x && x / 128 * 32 + x / 4 % 32 == x / 4 && x / 4 * 4 + x % 4 == x
    ensures x / 32 * 32 + x % 32 == x
  {
  }

  /** Two numerals of the same value, most significant part first: bytes and quintets at the ends of the groups. */
  lemma QuintetsSpell(p: Bytes, ds: seq<nat>)
    requires |p| == 5 && ds == AsDigits(p)
    ensures Value(Quintets(p, 2), 32) == Value(ds[..1], 256) * 4 + ds[1] / 64
    ensures Value(Quintets(p, 4), 32) == Value(ds[..2], 256) * 16 + ds[2] / 16
    ensures Value(Quintets(p, 5), 32) == Value(ds[..3], 256) * 2 + ds[3] / 128
    ensures Value(Quintets(p, 7), 32) == Value(ds[..4], 256) * 8 + ds[4] / 32
    ensures Value(Quintets(p, 8), 32) == Value(ds, 256)
  {
    BytesValue(ds);
    QuintetsValue(p);
    QuintetSums(p, ds[0], ds[1], ds[2], ds[3], ds[4]);
  }

  lemma QuintetSums(p: Bytes, a: nat, b: nat, c: nat, d: nat, e: nat)
    requires |p| == 5 && p[0] == a && p[1] == b && p[2] == c && p[3] == d && p[4] == e
    ensures var v2 := Quintet(p, 0) * 32 + Quintet(p, 1);
            var v4 := (v2 * 32 + Quintet(p, 2)) * 32 + Quintet(p, 3);
            var v5 := v4 * 32 + Quintet(p, 4);
            var v7 := (v5 * 32 + Quintet(p, 5)) * 32 + Quintet(p, 6);
            && v2 == a * 4 + b / 64
            && v4 == (a * 256 + b) * 16 + c / 16
            && v5 == ((a * 256 + b) * 256 + c) * 2 + d / 128
            && v7 == (((a * 256 + b) * 256 + c) * 256 + d) * 8 + e / 32
            && v7 * 32 + Quintet(p, 7) == (((a * 256 + b) * 256 + c) * 256 + d) * 256 + e
  {
    Pieces(a);
    Pieces(b);
    Pieces(c);
    Pieces(d);
    Pieces(e);
  }

  lemma BytesValue(ds: seq<nat>)
    requires |ds| == 5
    ensures Value(ds[..1], 256) == ds[0]
    ensures Value(ds[..2], 256) == ds[0] * 256 + ds[1]
    ensures Value(ds[..3], 256) == (ds[0] * 256 + ds[1]) * 256 + ds[2]
    ensures Value(ds[..4], 256) == ((ds[0] * 256 + ds[1]) * 256 + ds[2]) * 256 + ds[3]
    ensures Value(ds, 256) == (((ds[0] * 256 + ds[1]) * 256 + ds[2]) * 256 + ds[3]) * 256 + ds[4]
  {
    PrefixValue(ds, 1);
    PrefixValue(ds, 2);
    PrefixValue(ds, 3);
    PrefixValue(ds, 4);
    PrefixValue(ds, 5);
    assert ds[..5] == ds;
    assert Prefix256(ds, 1) == ds[0];
    assert Prefix256(ds, 2) == ds[0] * 256 + ds[1];
    assert Prefix256(ds, 3) == (ds[0] * 256 + ds[1]) * 256 + ds[2];
    assert Prefix256(ds, 4) == ((ds[0] * 256 + ds[1]) * 256 + ds[2]) * 256 + ds[3];
  }

  /** The value of the first `n` digits. */
  function Prefix256(ds: seq<nat>, n: nat): nat
    requires n <= |ds|
  {
    if n == 0 then 0 else Prefix256(ds, n - 1) * 256 + ds[n - 1]
  }

  lemma {:induction false} PrefixValue(ds: seq<nat>, n: nat)
    requires n <= |ds|
    ensures Value(ds[..n], 256) == Prefix256(ds, n)
  {
    if n > 0 {
      PrefixValue(ds, n - 1);
      assert ds[..n][..n - 1] == ds[..n - 1];
    }
  }

  lemma QuintetsValue(p: Bytes)
    requires |p| == 5
    ensures var v2 := Quintet(p, 0) * 32 + Quintet(p, 1);
            var v4 := (v2 * 32 + Quintet(p, 2)) * 32 + Quintet(p, 3);
            var v5 := v4 * 32 + Quintet(p, 4);
            var v7 := (v5 * 32 + Quintet(p, 5)) * 32 + Quintet(p, 6);
            && Value(Quintets(p, 2), 32) == v2 && Value(Quintets(p, 4), 32) == v4 && Value(Quintets(p, 5), 32) == v5
            && Value(Quintets(p, 7), 32) == v7 && Value(Quintets(p, 8), 32) == v7 * 32 + Quintet(p, 7)
  {
    QuintetsSnoc(p, 0);
    QuintetsSnoc(p, 1);
    QuintetsSnoc(p, 2);
    QuintetsSnoc(p, 3);
    QuintetsSnoc(p, 4);
    QuintetsSnoc(p, 5);
    QuintetsSnoc(p, 6);
    QuintetsSnoc(p, 7);
  }

  lemma QuintetsSnoc(p: Bytes, n: nat)
    requires |p| == 5 && n < 8
    ensures Value(Quintets(p, n + 1), 32) == Value(Quintets(p, n), 32) * 32 + Quintet(p, n)
    ensures Value(Quintets(p, 0), 32) == 0
  {
    var ds := Quintets(p, n + 1);
    assert ds[..|ds| - 1] == Quintets(p, n);
  }

  /** Symbols that `r` bytes need: the five-bit groups that they start. */
  function Started(r: nat): nat {
    (8 * r + 4) / 5
  }

  /** The symbols of a group, before the padding. */
  lemma GroupQuintets(b: Bytes)
    requires 1 <= |b| <= 5
    ensures Started(|b|) == Symbols(|b|)
    ensures Fixed(Widen(Value(AsDigits(b), 256), |b|), 32, Symbols(|b|)) == Quintets(Filled(b), Symbols(|b|))
  {
    var p, n := Filled(b), Symbols(|b|);
    assert Value(Quintets(p, n), 32) == Widen(Value(AsDigits(b), 256), |b|) by { GroupValues(b, AsDigits(p)); }
    FixedOfValue(Quintets(p, n), 32);
  }

  lemma GroupValues(b: Bytes, ds: seq<nat>)
    requires 1 <= |b| <= 5 && ds == AsDigits(Filled(b))
    ensures Value(Quintets(Filled(b), Symbols(|b|)), 32) == Widen(Value(AsDigits(b), 256), |b|)
  {
    QuintetsSpell(Filled(b), ds);
    assert ds[..|b|] == AsDigits(b);
    if |b| < 5 {
      assert ds[|b|] == 0;
    } else {
      assert Filled(b) == b;
    }
  }

  lemma GroupSpells(b: Bytes)
    requires 1 <= |b| <= 5
    ensures forall i :: 0 <= i < 8 ==>
              EncodeGroup(b)[i] == if i < Started(|b|) then Char32(Quintet(Filled(b), i)) else '='
  {
    GroupQuintets(b);
  }

  /** The bytes of group `q`: five, or what is left. */
  function GroupOf(b: Bytes, q: nat): (g: Bytes)
    requires 5 * q < |b|
    ensures 1 <= |g| <= 5
  {
    if 5 * q + 5 <= |b| then b[5 * q..5 * q + 5] else b[5 * q..]
  }

  lemma GroupLater(b: Bytes, q: nat)
    requires 0 < q && 5 * q < |b|
    ensures GroupOf(b, q) == GroupOf(b[5..], q - 1)
  {
  }

  lemma FirstGroup(b: Bytes)
    requires b != []
    ensures EncodeGroup(GroupOf(b, 0)) <= Encode32(b)
  {
    if |b| < 5 {
      assert b[5 * 0..] == b;
    } else {
      EncodeFirst(b);
      assert b[5 * 0..5 * 0 + 5] == b[..5];
    }
  }

  lemma LaterSymbol(g: string, t: string, q: nat, r: nat)
    requires |g| == 8 && 0 < q && 8 * (q - 1) + r < |t|
    ensures 8 * q + r < |g + t| && (g + t)[8 * q + r] == t[8 * (q - 1) + r]
  {
  }

  lemma {:induction false} Encode32Groups(b: Bytes, q: nat, r: nat)
    requires 5 * q < |b| && r < 8
    ensures 8 * q + r < |Encode32(b)| && Encode32(b)[8 * q + r] == EncodeGroup(GroupOf(b, q))[r]
    decreases q
  {
    if q == 0 {
      FirstGroup(b);
    } else {
      Encode32Groups(b[5..], q - 1, r);
      GroupLater(b, q);
      var t := Encode32(b[5..]);
      assert Encode32(b) == GroupSymbols(b[..5]) + t by { EncodeFirst(b); }
      LaterSymbol(GroupSymbols(b[..5]), t, q, r);
    }
  }

  lemma {:induction false} Encode32Length(b: Bytes, m: nat)
    requires 5 * m < |b| <= 5 * m + 5
    ensures |Encode32(b)| == 8 * m + 8
    decreases m
  {
    if m > 0 {
      EncodeFirst(b);
      Encode32Length(b[5..], m - 1);
    } else if |b| == 5 {
      assert b[5..] == [];
    }
  }

  /**
   * What base32 encodes, as in section 6 of RFC 4648: symbol `r` of group `q` stands for the five bits that start at
   * bit `5 * r` of its bytes, as long as there are any, and then comes padding.
   */
  lemma Encode32Spells(b: Bytes, q: nat, r: nat)
    requires 5 * q < |b| && r < 8
    ensures var g := GroupOf(b, q);
            && 8 * q + r < |Encode32(b)|
            && Encode32(b)[8 * q + r] == if r < Started(|g|) then Char32(Quintet(Filled(g), r)) else '='
  {
    Encode32Groups(b, q, r);
    GroupSpells(GroupOf(b, q));
  }

  /**
   * The Docker name of a hash of `5 * m + 4` bytes, such as a multihash with `m == 6`: all symbols of its base32 form
   * in lower case, and no padding.
   */
  lemma DockerName(h: string, m: nat, q: nat, r: nat)
    requires Valid58(h) && |Decode58(h)| == 5 * m + 4 && q <= m && r < 8 && 8 * q + r < 8 * m + 7
    ensures |DockerizeHash(h)| == 8 * m + 7
    ensures DockerizeHash(h)[8 * q + r] == LowerChar(Char32(Quintet(Filled(GroupOf(Decode58(h), q)), r)))
  {
    var b := Decode58(h);
    HashPartOf58(h);
    Encode32Length(b, m);
    Encode32Spells(b, q, r);
    GroupIsLong(b, m, q, r);
  }

  lemma GroupIsLong(b: Bytes, m: nat, q: nat, r: nat)
    requires |b| == 5 * m + 4 && q <= m && r < 8 && 8 * q + r < 8 * m + 7
    ensures r < Started(|GroupOf(b, q)|)
  {
    assert |GroupOf(b, q)| == if q < m then 5 else 4;
    assert Started(4) == 7 && Started(5) == 8;
  }

  lemma PlainSymbol(d: nat)
    requires d < 32
    ensures var c := LowerChar(Char32(d)); 'a' <= c <= 'z' || '2' <= c <= '7'
  {
  }

  lemma PlainCharacter(h: string, m: nat, q: nat, r: nat)
    requires Valid58(h) && |Decode58(h)| == 5 * m + 4 && q <= m && r < 8 && 8 * q + r < 8 * m + 7
    ensures |DockerizeHash(h)| == 8 * m + 7
    ensures var c := DockerizeHash(h)[8 * q + r]; 'a' <= c <= 'z' || '2' <= c <= '7'
  {
    DockerName(h, m, q, r);
    PlainSymbol(Quintet(Filled(GroupOf(Decode58(h), q)), r));
  }

  /** Every character of such a name is a small letter or a figure. */
  lemma DockerNameIsPlain(h: string, m: nat)
    requires Valid58(h) && |Decode58(h)| == 5 * m + 4
    ensures |DockerizeHash(h)| == 8 * m + 7
    ensures forall c :: c in DockerizeHash(h) ==> 'a' <= c <= 'z' || '2' <= c <= '7'
  {
    var name := DockerizeHash(h);
    PlainCharacter(h, m, 0, 0);
    forall i | 0 <= i < |name|
      ensures 'a' <= name[i] <= 'z' || '2' <= name[i] <= '7'
    {
      var q, r := i / 8, i % 8;
      assert i == 8 * q + r && q <= m;
      PlainCharacter(h, m, q, r);
    }
  }

  // ---- which names are hashes ----

  predicate AllSymbols(s: string) {
    forall i :: 0 <= i < |s| ==> Index32(s[i]) >= 0
  }

  lemma SymbolsSplit(s: string, n: nat)
    requires n <= |s|
    ensures AllSymbols(s) <==> AllSymbols(s[..n]) && AllSymbols(s[n..])
  {
    assert AllSymbols(s[..n]) && AllSymbols(s[n..]) ==> AllSymbols(s) by {
      assert forall i :: 0 <= i < |s| ==> s[i] == if i < n then s[..n][i] else s[n..][i - n];
    }
    assert forall i :: n <= i < |s| ==> s[n..][i - n] == s[i];
  }

  /** Eight symbols decode on their own. */
  lemma DecodeQuantum(g: string, rest: string)
    requires |g| == 8 && AllSymbols(g)
    ensures Decode32(g + rest) == Prepend(DecodeGroup(g), Decode32(rest))
  {
    RunOf(g, rest, 8);
    assert (g + rest)[..8] == g && (g + rest)[8..] == rest;
  }

  /** Less than eight, and then the end: seven are a quantum. */
  lemma DecodeTail(g: string)
    requires |g| < 8 && AllSymbols(g)
    ensures Decode32(g + "=") == if |g| == 7 then Some(DecodeGroup(g)) else None
  {
    RunOf(g, "=", 8);
    assert (g + "=")[..|g|] == g && (g + "=")[|g| + 1..] == "";
  }

  /** A character that is neither symbol nor padding ends the decoding. */
  lemma DecodeNoSymbol(s: string, n: nat)
    requires n < |s| && n < 8 && AllSymbols(s[..n]) && Index32(s[n]) < 0 && s[n] != '='
    ensures Decode32(s) == None
  {
    RunOf(s[..n], s[n..], 8);
    assert s[..n] + s[n..] == s;
  }

  lemma {:induction false} FirstNoSymbol(s: string) returns (n: nat)
    requires !AllSymbols(s)
    ensures n < |s| && AllSymbols(s[..n]) && Index32(s[n]) < 0
  {
    if Index32(s[0]) < 0 {
      n := 0;
    } else {
      assert !AllSymbols(s[1..]) by { SymbolsSplit(s, 1); }
      var k := FirstNoSymbol(s[1..]);
      n := k + 1;
      assert AllSymbols(s[..n]) by {
        assert s[..n][1..] == s[1..][..k];
        SymbolsSplit(s[..n], 1);
      }
    }
  }

  lemma DecodeBroken(s: string, g: string)
    requires '=' !in s && g <= s && |g| <= 8 && !AllSymbols(g)
    ensures Decode32(s + "=") == None && !AllSymbols(s)
  {
    var n := FirstNoSymbol(g);
    assert (s + "=")[..n] == g[..n] && (s + "=")[n] == g[n] && g[n] in s;
    DecodeNoSymbol(s + "=", n);
  }

  lemma DecodeLonger(g: string, rest: string)
    requires |g| == 8 && AllSymbols(g)
    ensures Decode32(g + rest + "=") == Prepend(DecodeGroup(g), Decode32(rest + "="))
  {
    DecodeQuantum(g, rest + "=");
    assert g + (rest + "=") == g + rest + "=";
  }

  /** Whole quanta, and seven symbols more. */
  predicate SevenMore(s: string) {
    AllSymbols(if |s| < 8 then s else s[..8]) && if |s| < 8 then |s| == 7 else SevenMore(s[8..])
  }

  lemma {:induction false} SevenMoreExactly(s: string)
    ensures SevenMore(s) <==> |s| % 8 == 7 && AllSymbols(s)
  {
    if |s| >= 8 {
      SymbolsSplit(s, 8);
      SevenMoreExactly(s[8..]);
    }
  }

  /** Of a string without padding, one '=' after it completes the last quantum only if that has seven symbols. */
  lemma {:induction false} DecodesExactly(s: string, t: string)
    requires '=' !in s && t == s + "="
    ensures Decode32(t).Some? <==> SevenMore(s)
    ensures Decode32(t).Some? ==> Decode32(t).value != []
    decreases |s|
  {
    var g := if |s| < 8 then s else s[..8];
    if !AllSymbols(g) {
      DecodeBroken(s, g);
    } else if |s| < 8 {
      DecodeTail(s);
    } else {
      var rest := s[8..];
      assert g + rest == s;
      DecodeLonger(g, rest);
      DecodesExactly(rest, rest + "=");
    }
  }

  lemma EncodedIsEmpty(b: Bytes)
    ensures Encode58(b) == "" <==> b == []
  {
    Decode58Encode58(b);
    EncodeNothing();
  }

  /**
   * The names that are taken for hashes are exactly those of letters and the figures 2 to 7 whose length is one less
   * than a multiple of eight.
   */
  lemma NamesOfHashes(name: string)
    requires forall c :: c in name ==> c != '=' && !LineEnd(c)
    ensures IpfsifyHash(name) != "" <==>
              |name| % 8 == 7 && forall c :: c in name ==> 'a' <= c <= 'z' || 'A' <= c <= 'Z' || '2' <= c <= '7'
  {
    var s := Upper(name);
    UpperSymbols(name);
    StripNothing(s + "=");
    SevenMoreExactly(s);
    DecodesExactly(s, s + "=");
    if Decode32(s + "=").Some? { EncodedIsEmpty(Decode32(s + "=").value); }
  }

  lemma UpperSymbols(name: string)
    requires forall c :: c in name ==> c != '=' && !LineEnd(c)
    ensures '=' !in Upper(name) && forall i :: 0 <= i < |name| ==> !LineEnd(Upper(name)[i])
    ensures AllSymbols(Upper(name)) <==>
              forall c :: c in name ==> 'a' <= c <= 'z' || 'A' <= c <= 'Z' || '2' <= c <= '7'
  {
    var s := Upper(name);
    forall i | 0 <= i < |s|
      ensures s[i] != '=' && !LineEnd(s[i])
      ensures Index32(s[i]) >= 0 <==> 'a' <= name[i] <= 'z' || 'A' <= name[i] <= 'Z' || '2' <= name[i] <= '7'
    {
      assert name[i] in name;
    }
    if forall c :: c in name ==> 'a' <= c <= 'z' || 'A' <= c <= 'Z' || '2' <= c <= '7' {
      assert forall i :: 0 <= i < |name| ==> name[i] in name;
    }
  }
}
