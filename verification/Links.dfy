/** Link names and the lookup table the terminal's `open` command consults:
    `slug` (dashboard.js line 41) and the map built from the loaded links
    (dashboard.js line 237). */
module Links {
  import opened Text

  /** A link record as the links endpoint delivers it. */
  datatype Link = Link(name: string, url: string)

  /** `s.replace(/\s+/g, '-')`: every maximal whitespace run becomes one
      hyphen. */
  function HyphenateRuns(s: string): (r: string)
    decreases |s|
  {
    if s == [] then []
    else if IsSpace(JavaScript, s[0]) then "-" + HyphenateRuns(TrimStart(JavaScript, s))
    else [s[0]] + HyphenateRuns(s[1..])
  }

  /** `slug(s)`: lower-case, then hyphenate whitespace runs. */
  function Slug(s: string): (r: string)
  {
    HyphenateRuns(LowerStr(s))
  }

  /** Hyphenating runs is joining the whitespace-separated pieces with
      hyphens, as `s.split(/\s+/).join('-')` would. */
  lemma {:induction false} HyphenateIsJoin(s: string)
    ensures HyphenateRuns(s) == Join(SplitOnSpace(s), "-")
    decreases |s|
  {
    if s == [] {
      assert SplitOnSpace(s) == [""];
    } else if IsSpace(JavaScript, s[0]) {
      var t := TrimStart(JavaScript, s);
      HyphenateIsJoin(t);
      SplitOnSpaceLeadingRun(s);
    } else {
      var t := s[1..];
      HyphenateIsJoin(t);
      SplitOnSpaceConsChar(s[0], t);
      assert s == [s[0]] + t;
    }
  }

  /** A leading whitespace run yields an empty first piece. */
  lemma SplitOnSpaceLeadingRun(s: string)
    requires s != [] && IsSpace(JavaScript, s[0])
    ensures Join(SplitOnSpace(s), "-") == "-" + Join(SplitOnSpace(TrimStart(JavaScript, s)), "-")
    ensures HyphenateRuns(s) == "-" + HyphenateRuns(TrimStart(JavaScript, s))
  {
    var p := SplitOnSpace(TrimStart(JavaScript, s));
    assert FirstSpace(s) == 0;
    assert s[0..] == s && s[..0] == "";
    assert SplitOnSpace(s) == [""] + p;
    JoinAfterEmpty(p, "-");
  }

  /** Putting a non-whitespace character in front of a string extends its
      first piece by that character. */
  lemma SplitOnSpaceConsChar(c: char, t: string)
    requires !IsSpace(JavaScript, c)
    ensures var p := SplitOnSpace(t);
      SplitOnSpace([c] + t) == [[c] + p[0]] + p[1..]
      && Join(SplitOnSpace([c] + t), "-") == [c] + Join(p, "-")
  {
    ConsCharPieces(c, t);
    JoinExtendFirst(c, SplitOnSpace(t), "-");
  }

  lemma ConsCharPieces(c: char, t: string)
    requires !IsSpace(JavaScript, c)
    ensures var p := SplitOnSpace(t); SplitOnSpace([c] + t) == [[c] + p[0]] + p[1..]
  {
    FirstSpaceCons(c, t);
    if FirstSpace(t) < |t| {
      ConsCharBeforeSpace(c, t);
    } else {
      assert SplitOnSpace([c] + t) == [[c] + t];
    }
  }

  /** The case where `t` has whitespace: the first piece grows by `c` and the
      rest is split as before. */
  lemma ConsCharBeforeSpace(c: char, t: string)
    requires FirstSpace([c] + t) == 1 + FirstSpace(t) && FirstSpace(t) < |t|
    ensures var p := SplitOnSpace(t); SplitOnSpace([c] + t) == [[c] + p[0]] + p[1..]
  {
    var s := [c] + t;
    var i := FirstSpace(t);
    ConsSlices(c, t, i);
    var rest := SplitOnSpace(TrimStart(JavaScript, t[i..]));
    assert SplitOnSpace(s) == [[c] + t[..i]] + rest;
    assert SplitOnSpace(t) == [t[..i]] + rest;
  }

  /** The two slices of `[c] + t` around position i + 1. */
  lemma ConsSlices(c: char, t: string, i: nat)
    requires i <= |t|
    ensures ([c] + t)[..i + 1] == [c] + t[..i] && ([c] + t)[i + 1..] == t[i..]
  {
  }

  /** An empty first piece contributes only the separator. */
  lemma JoinAfterEmpty(p: seq<string>, sep: string)
    requires |p| >= 1
    ensures Join([""] + p, sep) == sep + Join(p, sep)
  {
    assert ([""] + p)[1..] == p;
  }

  /** Extending the first piece by `c` extends the join by `c`. */
  lemma JoinExtendFirst(c: char, p: seq<string>, sep: string)
    requires |p| >= 1
    ensures Join([[c] + p[0]] + p[1..], sep) == [c] + Join(p, sep)
  {
    var q := [[c] + p[0]] + p[1..];
    assert q[1..] == p[1..];
  }

  /** A non-whitespace character in front moves the first whitespace by one. */
  lemma FirstSpaceCons(c: char, t: string)
    requires !IsSpace(JavaScript, c)
    ensures FirstSpace([c] + t) == 1 + FirstSpace(t)
  {
    assert ([c] + t)[1..] == t;
  }

  /** Every character of the result of hyphenating is a character of the
      input or a hyphen, and none is whitespace. */
  lemma {:induction false} HyphenateNoSpace(s: string)
    ensures NoSpace(JavaScript, HyphenateRuns(s))
    ensures IsLowered(s) ==> IsLowered(HyphenateRuns(s))
    decreases |s|
  {
    if s == [] {
    } else if IsSpace(JavaScript, s[0]) {
      var t := TrimStart(JavaScript, s);
      HyphenateNoSpace(t);
      if IsLowered(s) {
        assert forall k :: 0 <= k < |t| ==> t[k] == s[|s| - |t| + k];
      }
    } else {
      HyphenateNoSpace(s[1..]);
    }
  }

  /** No character is changed by lower-casing. */
  predicate IsLowered(s: string) {
    forall i :: 0 <= i < |s| ==> Lower(s[i]) == s[i]
  }

  /** Hyphenating a string without whitespace leaves it unchanged. */
  lemma {:induction false} HyphenateFixed(s: string)
    requires NoSpace(JavaScript, s)
    ensures HyphenateRuns(s) == s
  {
    if s != [] {
      HyphenateFixed(s[1..]);
    }
  }

  /** A slug has no whitespace and no upper-case ASCII letter. */
  lemma SlugShape(s: string)
    ensures NoSpace(JavaScript, Slug(s))
    ensures LowerStr(Slug(s)) == Slug(s)
  {
    var l := LowerStr(s);
    forall i | 0 <= i < |l| ensures Lower(l[i]) == l[i] { LowerFacts(s[i]); }
    HyphenateNoSpace(l);
  }

  /** Slugging is idempotent, so a slug looks itself up. */
  lemma SlugIdempotent(s: string)
    ensures Slug(Slug(s)) == Slug(s)
  {
    SlugShape(s);
    HyphenateFixed(Slug(s));
  }

  /** The slug of a name is its lower-cased whitespace-separated pieces joined
      by hyphens. */
  lemma SlugIsJoinedWords(s: string)
    ensures Slug(s) == Join(MapLower(SplitOnSpace(s)), "-")
  {
    HyphenateIsJoin(LowerStr(s));
    LowerSplit(s);
  }

  /** Two names with the same words up to ASCII case slug the same, however
      their whitespace runs look. */
  lemma SlugIgnoresCaseAndSpacing(a: string, b: string)
    requires MapLower(SplitOnSpace(a)) == MapLower(SplitOnSpace(b))
    ensures Slug(a) == Slug(b)
  {
    SlugIsJoinedWords(a);
    SlugIsJoinedWords(b);
  }

  /** Rejoining the pieces of a name with single spaces (what the `open`
      command does with its argument tokens) does not change its slug. */
  lemma SlugOfRejoined(s: string)
    ensures Slug(Join(SplitOnSpace(s), " ")) == Slug(s)
  {
    var j := Join(SplitOnSpace(s), " ");
    SplitJoinSplit(s);
    SlugIgnoresCaseAndSpacing(j, s);
  }

  // ---------------------------------------------------------------------
  // The link map

  /** `new Map(items.map(i => [slug(i.name), i]))`: entries are set in order,
      so a later link overwrites an earlier one with the same slug. */
  function LinkMap(items: seq<Link>): map<string, Link>
  {
    if items == [] then map[]
    else
      var last := items[|items| - 1];
      LinkMap(items[..|items| - 1])[Slug(last.name) := last]
  }

  /** The index of the last link whose name slugs to `key`, or -1. */
  function LastWithSlug(items: seq<Link>, key: string): (j: int)
    ensures -1 <= j < |items|
    ensures j >= 0 ==> Slug(items[j].name) == key
    ensures forall k :: j < k < |items| ==> Slug(items[k].name) != key
  {
    if items == [] then -1
    else if Slug(items[|items| - 1].name) == key then |items| - 1
    else LastWithSlug(items[..|items| - 1], key)
  }

  /** A key is in the map exactly when some link slugs to it, and it maps to
      the last such link. */
  lemma {:induction false} LinkMapLastWins(items: seq<Link>, key: string)
    ensures key in LinkMap(items) <==> LastWithSlug(items, key) >= 0
    ensures key in LinkMap(items) ==> LinkMap(items)[key] == items[LastWithSlug(items, key)]
  {
    if items != [] {
      var init := items[..|items| - 1];
      LinkMapLastWins(init, key);
    }
  }

  /** Looking a name up after slugging finds the link stored under any name
      with the same words up to case and spacing. */
  lemma LinkLookupIgnoresCaseAndSpacing(items: seq<Link>, i: nat, query: string)
    requires i < |items|
    requires MapLower(SplitOnSpace(query)) == MapLower(SplitOnSpace(items[i].name))
    ensures Slug(query) in LinkMap(items)
  {
    SlugIgnoresCaseAndSpacing(query, items[i].name);
    LinkMapLastWins(items, Slug(query));
    LastWithSlugFinds(items, i, Slug(query));
  }

  lemma {:induction false} LastWithSlugFinds(items: seq<Link>, i: nat, key: string)
    requires i < |items| && Slug(items[i].name) == key
    ensures LastWithSlug(items, key) >= i
  {
    if Slug(items[|items| - 1].name) != key {
      LastWithSlugFinds(items[..|items| - 1], i, key);
    }
  }
}
