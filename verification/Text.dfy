/** String primitives that the front end (JavaScript) and the back end
    (Python) rely on: whitespace classes, trimming, splitting on whitespace
    runs or on a separator character, joining, ASCII lower-casing and decimal
    rendering of counts. */
module Text {

  /** Whose notion of whitespace applies. */
  datatype Runtime = JavaScript | Python | PythonInt

  /** JavaScript's `\s` class, which is also the set `String.prototype.trim`
      removes; Python's `str.isspace`, which is what `str.strip()` removes;
      what Python's `int()` skips around a number, which is `str.isspace`
      without the separators U+001C to U+001F (`int()` rejects those). */
  predicate IsSpace(rt: Runtime, c: char) {
    var n := c as int;
    match rt
    case JavaScript =>
      0x09 <= n <= 0x0D || n == 0x20 || n == 0xA0 || n == 0x1680
      || 0x2000 <= n <= 0x200A || n == 0x2028 || n == 0x2029 || n == 0x202F
      || n == 0x205F || n == 0x3000 || n == 0xFEFF
    case Python =>
      0x09 <= n <= 0x0D || 0x1C <= n <= 0x20 || n == 0x85 || n == 0xA0 || n == 0x1680
      || 0x2000 <= n <= 0x200A || n == 0x2028 || n == 0x2029 || n == 0x202F
      || n == 0x205F || n == 0x3000
    case PythonInt =>
      0x09 <= n <= 0x0D || n == 0x20 || n == 0x85 || n == 0xA0 || n == 0x1680
      || 0x2000 <= n <= 0x200A || n == 0x2028 || n == 0x2029 || n == 0x202F
      || n == 0x205F || n == 0x3000
  }

  predicate AllSpace(rt: Runtime, s: string) {
    forall i :: 0 <= i < |s| ==> IsSpace(rt, s[i])
  }

  predicate NoSpace(rt: Runtime, s: string) {
    forall i :: 0 <= i < |s| ==> !IsSpace(rt, s[i])
  }

  /** A non-empty run of characters without whitespace. */
  predicate IsWord(s: string) {
    s != [] && NoSpace(JavaScript, s)
  }

  // ---------------------------------------------------------------------
  // Trimming

  /** Drops the leading whitespace. */
  function TrimStart(rt: Runtime, s: string): (r: string)
    ensures |r| <= |s| && r == s[|s| - |r|..]
    ensures AllSpace(rt, s[..|s| - |r|])
    ensures r == [] || !IsSpace(rt, r[0])
  {
    if s != [] && IsSpace(rt, s[0]) then TrimStart(rt, s[1..]) else s
  }

  /** Drops the trailing whitespace. */
  function TrimEnd(rt: Runtime, s: string): (r: string)
    ensures |r| <= |s| && r == s[..|r|]
    ensures AllSpace(rt, s[|r|..])
    ensures r == [] || !IsSpace(rt, r[|r| - 1])
  {
    if s != [] && IsSpace(rt, s[|s| - 1]) then
      var r := TrimEnd(rt, s[..|s| - 1]);
      assert s[|r|..] == s[..|s| - 1][|r|..] + [s[|s| - 1]];
      r
    else s
  }

  /** `str.trim()` in JavaScript, `str.strip()` in Python, and the
      whitespace `int()` skips in Python. */
  function Trim(rt: Runtime, s: string): (r: string)
  {
    TrimEnd(rt, TrimStart(rt, s))
  }

  /** The trimmed string is the input minus a whitespace prefix and a
      whitespace suffix. */
  lemma TrimShape(rt: Runtime, s: string)
    ensures exists pre, post :: s == pre + Trim(rt, s) + post && AllSpace(rt, pre) && AllSpace(rt, post)
  {
    var t := TrimStart(rt, s);
    var r := TrimEnd(rt, t);
    var pre := s[..|s| - |t|];
    var post := t[|r|..];
    Rejoin(s, |s| - |t|);
    Rejoin(t, |r|);
    Regroup(s, pre, t, r, post);
  }

  /** A string is its prefix followed by the rest. */
  lemma Rejoin(s: string, n: nat)
    requires n <= |s|
    ensures s == s[..n] + s[n..]
  {
  }

  /** Substitutes one split into another: pre + (r + post). */
  lemma Regroup(s: string, pre: string, t: string, r: string, post: string)
    requires s == pre + t && t == r + post
    ensures s == pre + r + post
  {
  }

  /** The trimmed string neither starts nor ends with whitespace. */
  lemma TrimEdges(rt: Runtime, s: string)
    ensures var r := Trim(rt, s); r != [] ==> !IsSpace(rt, r[0]) && !IsSpace(rt, r[|r| - 1])
  {
    var t := TrimStart(rt, s);
    var r := TrimEnd(rt, t);
    if r != [] {
      PrefixHead(t, r);
    }
  }

  /** A non-empty prefix starts with the same character. */
  lemma PrefixHead(t: string, r: string)
    requires r != [] && |r| <= |t| && r == t[..|r|]
    ensures r[0] == t[0]
  {
  }

  /** Trimming yields the empty string exactly when the input is all
      whitespace. */
  lemma TrimEmptyIff(rt: Runtime, s: string)
    ensures Trim(rt, s) == [] <==> AllSpace(rt, s)
  {
    var t := TrimStart(rt, s);
    if Trim(rt, s) == [] {
      assert t == [];
    }
  }

  /** Trimming twice is trimming once. */
  lemma TrimIdempotent(rt: Runtime, s: string)
    ensures Trim(rt, Trim(rt, s)) == Trim(rt, s)
  {
    var r := Trim(rt, s);
    TrimEdges(rt, s);
    assert TrimStart(rt, r) == r;
    assert TrimEnd(rt, r) == r;
  }

  // ---------------------------------------------------------------------
  // Splitting on whitespace runs and joining

  /** Index of the first whitespace character, or |s| when there is none. */
  function FirstSpace(s: string): (i: nat)
    ensures i <= |s|
    ensures NoSpace(JavaScript, s[..i])
    ensures i < |s| ==> IsSpace(JavaScript, s[i])
  {
    if s == [] || IsSpace(JavaScript, s[0]) then 0 else 1 + FirstSpace(s[1..])
  }

  /** `s.split(/\s+/)`: the pieces between maximal whitespace runs. A leading
      or trailing run yields an empty first or last piece; the input "" yields
      [""]. */
  function SplitOnSpace(s: string): (parts: seq<string>)
    ensures |parts| >= 1
    ensures forall k :: 0 <= k < |parts| ==> NoSpace(JavaScript, parts[k])
    decreases |s|
  {
    var i := FirstSpace(s);
    if i == |s| then [s]
    else [s[..i]] + SplitOnSpace(TrimStart(JavaScript, s[i..]))
  }

  /** `parts.join(sep)`. */
  function Join(parts: seq<string>, sep: string): string
  {
    if parts == [] then ""
    else if |parts| == 1 then parts[0]
    else parts[0] + sep + Join(parts[1..], sep)
  }

  /** A word followed by a whitespace run splits off as the first piece. */
  lemma {:induction false} SplitOnSpaceCons(w: string, gap: string, rest: string)
    requires NoSpace(JavaScript, w)
    requires gap != [] && AllSpace(JavaScript, gap)
    requires rest == [] || !IsSpace(JavaScript, rest[0])
    ensures SplitOnSpace(w + gap + rest) == [w] + SplitOnSpace(rest)
  {
    var s := w + gap + rest;
    FirstSpaceAt(w, gap + rest);
    assert s == w + (gap + rest);
    assert s[..|w|] == w;
    assert s[|w|..] == gap + rest;
    TrimStartPast(gap, rest);
  }

  /** A string without whitespace splits into itself alone. */
  lemma SplitOnSpaceWord(w: string)
    requires NoSpace(JavaScript, w)
    ensures SplitOnSpace(w) == [w]
  {
    FirstSpaceAt(w, []);
    assert w + [] == w;
  }

  /** The first whitespace of `w + t` is at |w| when `w` has none and `t`
      starts with one. */
  lemma {:induction false} FirstSpaceAt(w: string, t: string)
    requires NoSpace(JavaScript, w)
    requires t == [] || IsSpace(JavaScript, t[0])
    ensures FirstSpace(w + t) == |w|
  {
    if w != [] {
      assert (w + t)[1..] == w[1..] + t;
      FirstSpaceAt(w[1..], t);
    } else {
      assert w + t == t;
    }
  }

  /** Trimming a whitespace prefix off `gap + rest` leaves `rest` when `rest`
      does not start with whitespace. */
  lemma {:induction false} TrimStartPast(gap: string, rest: string)
    requires AllSpace(JavaScript, gap)
    requires rest == [] || !IsSpace(JavaScript, rest[0])
    ensures TrimStart(JavaScript, gap + rest) == rest
  {
    if gap != [] {
      assert (gap + rest)[1..] == gap[1..] + rest;
      TrimStartPast(gap[1..], rest);
    } else {
      assert gap + rest == rest;
    }
  }

  /** Splitting, rejoining with single spaces and splitting again gives the
      same pieces: rejoining only collapses each whitespace run to one space. */
  lemma {:induction false} SplitJoinSplit(s: string)
    ensures SplitOnSpace(Join(SplitOnSpace(s), " ")) == SplitOnSpace(s)
    decreases |s|
  {
    var i := FirstSpace(s);
    if i < |s| {
      var t := SplitOnSpaceStep(s);
      var p := SplitOnSpace(t);
      var j := Join(p, " ");
      JoinCons(s[..i], p, " ");
      JoinStartsLikeSplit(t);
      SplitOnSpaceCons(s[..i], " ", j);
      SplitJoinSplit(t);
    } else {
      SplitOnSpaceWord(s);
    }
  }

  /** One step of `SplitOnSpace` on a string holding whitespace. */
  lemma SplitOnSpaceStep(s: string) returns (t: string)
    requires FirstSpace(s) < |s|
    ensures t == TrimStart(JavaScript, s[FirstSpace(s)..]) && |t| < |s|
    ensures SplitOnSpace(s) == [s[..FirstSpace(s)]] + SplitOnSpace(t)
    ensures t == [] || !IsSpace(JavaScript, t[0])
  {
    var i := FirstSpace(s);
    t := TrimStart(JavaScript, s[i..]);
    TrimStartShrinks(s[i..]);
  }

  lemma TrimStartShrinks(s: string)
    requires s != [] && IsSpace(JavaScript, s[0])
    ensures |TrimStart(JavaScript, s)| < |s|
  {
  }

  lemma JoinCons(a: string, p: seq<string>, sep: string)
    requires p != []
    ensures Join([a] + p, sep) == a + sep + Join(p, sep)
  {
    assert ([a] + p)[1..] == p;
  }

  lemma JoinStartsLikeSplit(t: string)
    requires t == [] || !IsSpace(JavaScript, t[0])
    ensures var j := Join(SplitOnSpace(t), " "); j == [] || !IsSpace(JavaScript, j[0])
  {
    var p := SplitOnSpace(t);
    var i := FirstSpace(t);
    if t != [] {
      assert i > 0;
      assert p[0] == t[..i];
      assert p[0][0] == t[0];
    }
  }

  // ---------------------------------------------------------------------
  // Splitting on one character

  /** Index of the first `c`, or |s| when there is none. */
  function IndexOf(s: string, c: char): (i: nat)
    ensures i <= |s|
    ensures c !in s[..i]
    ensures i < |s| ==> s[i] == c
  {
    if s == [] || s[0] == c then 0 else 1 + IndexOf(s[1..], c)
  }

  /** `s.split(c)` for a one-character separator: empty pieces are kept. */
  function SplitAt(s: string, c: char): (parts: seq<string>)
    ensures |parts| >= 1
    ensures forall k :: 0 <= k < |parts| ==> c !in parts[k]
    decreases |s|
  {
    var i := IndexOf(s, c);
    if i == |s| then [s] else [s[..i]] + SplitAt(s[i + 1..], c)
  }

  /** Joining the pieces with the separator restores the string. */
  lemma {:induction false} JoinSplitAt(s: string, c: char)
    ensures Join(SplitAt(s, c), [c]) == s
    decreases |s|
  {
    var i := IndexOf(s, c);
    if i < |s| {
      JoinSplitAt(s[i + 1..], c);
      assert s == s[..i] + [c] + s[i + 1..];
    }
  }

  // ---------------------------------------------------------------------
  // Lower-casing

  /** `toLowerCase` on one character, for the ASCII letters. */
  function Lower(c: char): (d: char)
  {
    if 'A' <= c <= 'Z' then (c as int + 32) as char else c
  }

  function LowerStr(s: string): (r: string)
    ensures |r| == |s|
    ensures forall i :: 0 <= i < |s| ==> r[i] == Lower(s[i])
  {
    seq(|s|, i requires 0 <= i < |s| => Lower(s[i]))
  }

  /** Lower-casing keeps whitespace and non-whitespace apart and is
      idempotent. */
  lemma LowerFacts(c: char)
    ensures IsSpace(JavaScript, Lower(c)) == IsSpace(JavaScript, c)
    ensures Lower(Lower(c)) == Lower(c)
  {
  }

  function MapLower(ws: seq<string>): (r: seq<string>)
    ensures |r| == |ws|
    ensures forall k :: 0 <= k < |ws| ==> r[k] == LowerStr(ws[k])
  {
    seq(|ws|, k requires 0 <= k < |ws| => LowerStr(ws[k]))
  }

  lemma LowerAppend(a: string, b: string)
    ensures LowerStr(a + b) == LowerStr(a) + LowerStr(b)
  {
  }

  /** Lower-casing commutes with joining. */
  lemma {:induction false} LowerJoin(ws: seq<string>, sep: string)
    ensures LowerStr(Join(ws, sep)) == Join(MapLower(ws), LowerStr(sep))
  {
    if |ws| > 1 {
      LowerJoin(ws[1..], sep);
      assert MapLower(ws[1..]) == MapLower(ws)[1..];
      LowerAppend(ws[0] + sep, Join(ws[1..], sep));
      LowerAppend(ws[0], sep);
    }
  }

  /** Lower-casing commutes with splitting on whitespace. */
  lemma {:induction false} LowerSplit(s: string)
    ensures SplitOnSpace(LowerStr(s)) == MapLower(SplitOnSpace(s))
    decreases |s|
  {
    var i := FirstSpace(s);
    var l := LowerStr(s);
    LowerFirstSpace(s);
    if i < |s| {
      var t := TrimStart(JavaScript, s[i..]);
      LowerTrimStart(s[i..]);
      assert l[i..] == LowerStr(s[i..]);
      assert l[..i] == LowerStr(s[..i]);
      LowerSplit(t);
    }
  }

  lemma {:induction false} LowerFirstSpace(s: string)
    ensures FirstSpace(LowerStr(s)) == FirstSpace(s)
  {
    if s != [] {
      LowerFacts(s[0]);
      assert LowerStr(s)[1..] == LowerStr(s[1..]);
      LowerFirstSpace(s[1..]);
    }
  }

  lemma {:induction false} LowerTrimStart(s: string)
    ensures TrimStart(JavaScript, LowerStr(s)) == LowerStr(TrimStart(JavaScript, s))
  {
    if s != [] {
      LowerFacts(s[0]);
      assert LowerStr(s)[1..] == LowerStr(s[1..]);
      LowerTrimStart(s[1..]);
    }
  }

  // ---------------------------------------------------------------------
  // Decimal rendering

  function Digit(d: nat): (c: char)
    requires d < 10
    ensures '0' <= c <= '9'
  {
    "0123456789"[d]
  }

  /** The decimal form of `n`, as a template literal renders a count. */
  function NatToString(n: nat): (r: string)
    ensures r != []
    ensures forall i :: 0 <= i < |r| ==> '0' <= r[i] <= '9'
  {
    if n < 10 then [Digit(n)] else NatToString(n / 10) + [Digit(n % 10)]
  }
}
