/** The GitHub statistics endpoint (`get_github_stats`,
    backend/routes/github.py lines 8-80) with the HTTP answers it receives
    taken as inputs: the user record, the repository list, and a lookup
    `fetch` that gives the answer of each repository's languages URL. */
module GitHub {
  import opened Wrappers

  /** The fields of a repository record the endpoint reads; absent fields
      are `None`. */
  datatype Repo = Repo(
    name: Option<string>,
    description: Option<string>,
    htmlUrl: Option<string>,
    stars: Option<int>,
    forks: Option<int>,
    language: Option<string>,
    updatedAt: Option<string>,
    languagesUrl: Option<string>)

  /** The fields of the user record the endpoint reads. */
  datatype User = User(
    htmlUrl: Option<string>,
    avatarUrl: Option<string>,
    bio: Option<string>,
    publicRepos: Option<int>,
    followers: Option<int>,
    following: Option<int>)

  /** One language and its byte count, as in a languages answer or in the
      merged totals. */
  datatype Usage = Usage(language: string, bytes: int)

  /** The answer to a request: the request (or decoding its JSON) raised,
      or a status with the decoded body. */
  datatype Reply<T> = Raised | Answered(status: int, body: T)

  /** A projected entry of `recent_repos`. */
  datatype RecentRepo = RecentRepo(
    name: Option<string>,
    description: Option<string>,
    url: Option<string>,
    stars: int,
    language: Option<string>,
    updatedAt: Option<string>)

  /** The JSON document of a successful answer. */
  datatype Stats = Stats(
    username: string,
    profileUrl: Option<string>,
    avatarUrl: Option<string>,
    bio: Option<string>,
    repositories: int,
    stars: int,
    forks: int,
    followers: int,
    following: int,
    topLanguages: seq<string>,
    recentRepos: seq<RecentRepo>)

  /** Status 200 with the statistics, or status 500 with
      `{"error": "Failed to fetch GitHub data"}`. */
  datatype Answer = Ok(stats: Stats) | Failed(status: int, error: string)

  const DefaultUsername: string := "cormacGreaney"
  const FailedText: string := "Failed to fetch GitHub data"
  const LanguageRepos: nat := 10
  const TopCount: nat := 5
  const RecentCount: nat := 5

  function Min(a: nat, b: nat): nat {
    if a < b then a else b
  }

  // ---------------------------------------------------------------------
  // Star and fork sums

  /** `sum(repo.get("stargazers_count", 0) for repo in repos)`. */
  function TotalStars(repos: seq<Repo>): int
  {
    if repos == [] then 0 else repos[0].stars.GetOr(0) + TotalStars(repos[1..])
  }

  /** `sum(repo.get("forks_count", 0) for repo in repos)`. */
  function TotalForks(repos: seq<Repo>): int
  {
    if repos == [] then 0 else repos[0].forks.GetOr(0) + TotalForks(repos[1..])
  }

  /** The sums split over any division of the list, so each repository
      counts exactly once. */
  lemma {:induction false} TotalsAdditive(a: seq<Repo>, b: seq<Repo>)
    ensures TotalStars(a + b) == TotalStars(a) + TotalStars(b)
    ensures TotalForks(a + b) == TotalForks(a) + TotalForks(b)
  {
    if a != [] {
      var ab := a + b;
      assert ab[0] == a[0] && ab[1..] == a[1..] + b;
      TotalsAdditive(a[1..], b);
    } else {
      assert a + b == b;
    }
  }

  /** Counts are never negative on GitHub; then neither are the sums, and
      a repository without the fields adds nothing. */
  lemma {:induction false} TotalsNonNegative(repos: seq<Repo>)
    requires forall i :: 0 <= i < |repos| ==> repos[i].stars.GetOr(0) >= 0 && repos[i].forks.GetOr(0) >= 0
    ensures TotalStars(repos) >= 0 && TotalForks(repos) >= 0
  {
    if repos != [] {
      TotalsNonNegative(repos[1..]);
    }
  }

  // ---------------------------------------------------------------------
  // The languages merge

  /** The byte counts one repository contributes: none without a languages
      URL, or when its request raised or did not answer 200. */
  function RepoUsages(repo: Repo, fetch: string -> Reply<seq<Usage>>): seq<Usage>
  {
    if repo.languagesUrl.None? || repo.languagesUrl.value == [] then []
    else
      match fetch(repo.languagesUrl.value)
      case Answered(200, usages) => usages
      case _ => []
  }

  /** The contributions of the given repositories, in order. */
  function Contributions(repos: seq<Repo>, fetch: string -> Reply<seq<Usage>>): seq<Usage>
  {
    if repos == [] then []
    else Contributions(repos[..|repos| - 1], fetch) + RepoUsages(repos[|repos| - 1], fetch)
  }

  /** Only the first ten repositories are asked for their languages. */
  function LanguageSources(repos: seq<Repo>): (r: seq<Repo>)
    ensures |r| <= LanguageRepos && r <= repos
    ensures |repos| >= LanguageRepos ==> |r| == LanguageRepos
    ensures |repos| < LanguageRepos ==> r == repos
  {
    repos[..Min(LanguageRepos, |repos|)]
  }

  /** The total for `language` over a list of counts: the reference
      definition of the merged dictionary's values. */
  function SumFor(xs: seq<Usage>, language: string): int
  {
    if xs == [] then 0
    else
      var x := xs[|xs| - 1];
      SumFor(xs[..|xs| - 1], language) + (if x.language == language then x.bytes else 0)
  }

  /** The languages in order of first appearance: the key order of the
      merged dictionary. */
  function FirstSeen(xs: seq<Usage>): (order: seq<string>)
    ensures Distinct(order)
    ensures forall l :: l in order <==> exists i :: 0 <= i < |xs| && xs[i].language == l
  {
    if xs == [] then []
    else
      var init := xs[..|xs| - 1];
      var x := xs[|xs| - 1];
      var before := FirstSeen(init);
      assert forall i :: 0 <= i < |init| ==> init[i] == xs[i];
      if x.language in before then before else before + [x.language]
  }

  predicate Distinct(names: seq<string>) {
    forall i, j :: 0 <= i < j < |names| ==> names[i] != names[j]
  }

  /** The merged dictionary as its items, in key order. */
  function Merged(xs: seq<Usage>): (r: seq<Usage>)
    ensures |r| == |FirstSeen(xs)|
    ensures forall i :: 0 <= i < |r| ==> r[i] == Usage(FirstSeen(xs)[i], SumFor(xs, FirstSeen(xs)[i]))
  {
    var order := FirstSeen(xs);
    seq(|order|, i requires 0 <= i < |order| => Usage(order[i], SumFor(xs, order[i])))
  }

  /** What the merge has built after reading `xs`: the keys in first-seen
      order, and each key's running total. */
  ghost predicate Tallies(order: seq<string>, totals: map<string, int>, xs: seq<Usage>) {
    order == FirstSeen(xs)
    && (forall l :: l in totals <==> l in order)
    && (forall l :: l in totals ==> totals[l] == SumFor(xs, l))
  }

  /** One `languages[lang] = languages.get(lang, 0) + bytes_count` step keeps
      the tally. */
  lemma TallyStep(
    order: seq<string>, totals: map<string, int>, xs: seq<Usage>, x: Usage,
    order': seq<string>, totals': map<string, int>, ys: seq<Usage>)
    requires Tallies(order, totals, xs)
    requires order' == if x.language in totals then order else order + [x.language]
    requires totals' == totals[x.language := (if x.language in totals then totals[x.language] else 0) + x.bytes]
    requires ys == xs + [x]
    ensures Tallies(order', totals', ys)
  {
    var l0 := x.language;
    assert ys[..|ys| - 1] == xs && ys[|ys| - 1] == x;
    assert order' == FirstSeen(ys);
    assert forall l :: l in totals' <==> l in order';
    if l0 !in totals {
      SumForAbsent(xs, l0);
    }
    forall l | l in totals' ensures totals'[l] == SumFor(ys, l) {
      assert SumFor(ys, l) == SumFor(xs, l) + (if l0 == l then x.bytes else 0);
    }
  }

  /** A language that does not occur has total 0. */
  lemma {:induction false} SumForAbsent(xs: seq<Usage>, language: string)
    requires forall i :: 0 <= i < |xs| ==> xs[i].language != language
    ensures SumFor(xs, language) == 0
  {
    if xs != [] {
      SumForAbsent(xs[..|xs| - 1], language);
    }
  }

  lemma PrefixStep<T>(done: seq<T>, got: seq<T>, j: nat)
    requires j < |got|
    ensures done + got[..j + 1] == (done + got[..j]) + [got[j]]
  {
  }

  /** The nested loop of lines 36-47: for each of the first ten
      repositories whose languages request answered 200, add each
      language's bytes to its running total, inserting new languages at
      the end. */
  method MergeLanguages(repos: seq<Repo>, fetch: string -> Reply<seq<Usage>>)
    returns (order: seq<string>, totals: map<string, int>)
    ensures var xs := Contributions(LanguageSources(repos), fetch);
      order == FirstSeen(xs)
      && (forall l :: l in totals <==> l in order)
      && (forall l :: l in totals ==> totals[l] == SumFor(xs, l))
  {
    var sources := LanguageSources(repos);
    order := [];
    totals := map[];
    var i := 0;
    while i < |sources|
      invariant 0 <= i <= |sources|
      invariant Tallies(order, totals, Contributions(sources[..i], fetch))
    {
      ghost var done := Contributions(sources[..i], fetch);
      var got := FetchLanguages(sources[i], fetch);
      ContributionsStep(sources, i, fetch);
      order, totals := AddUsages(order, totals, done, got);
      i := i + 1;
    }
    assert sources[..i] == sources;
  }

  /** Lines 38-43 and 46-47 for one repository: no URL, a request that
      raised, or an answer other than 200 gives no languages. */
  method FetchLanguages(repo: Repo, fetch: string -> Reply<seq<Usage>>) returns (got: seq<Usage>)
    ensures got == RepoUsages(repo, fetch)
  {
    got := [];
    var url := repo.languagesUrl;
    if url.Some? && url.value != [] {
      match fetch(url.value) {
        case Answered(status, usages) =>
          if status == 200 {
            got := usages;
          }
        case Raised =>
      }
    }
  }

  /** The inner loop of lines 44-45: each language of one repository is
      added to its running total, a new language inserted at the end. */
  method AddUsages(order: seq<string>, totals: map<string, int>, ghost done: seq<Usage>, got: seq<Usage>)
    returns (order': seq<string>, totals': map<string, int>)
    requires Tallies(order, totals, done)
    ensures Tallies(order', totals', done + got)
  {
    order', totals' := order, totals;
    var j := 0;
    assert done + got[..0] == done;
    while j < |got|
      invariant 0 <= j <= |got|
      invariant Tallies(order', totals', done + got[..j])
    {
      var x := got[j];
      ghost var order0, totals0 := order', totals';
      if x.language !in totals' {
        order' := order' + [x.language];
      }
      var sofar := if x.language in totals' then totals'[x.language] else 0;
      totals' := totals'[x.language := sofar + x.bytes];
      PrefixStep(done, got, j);
      TallyStep(order0, totals0, done + got[..j], x, order', totals', done + got[..j + 1]);
      j := j + 1;
    }
    assert got[..j] == got;
  }

  /** One more repository appends its contribution. */
  lemma ContributionsStep(sources: seq<Repo>, i: nat, fetch: string -> Reply<seq<Usage>>)
    requires i < |sources|
    ensures Contributions(sources[..i + 1], fetch) == Contributions(sources[..i], fetch) + RepoUsages(sources[i], fetch)
  {
    assert sources[..i + 1][..i] == sources[..i];
  }

  /** A languages request that raised or did not answer 200 adds nothing. */
  lemma FailedFetchContributesNothing(repos: seq<Repo>, repo: Repo, fetch: string -> Reply<seq<Usage>>)
    requires repo.languagesUrl.Some? && repo.languagesUrl.value != []
    requires !(fetch(repo.languagesUrl.value).Answered? && fetch(repo.languagesUrl.value).status == 200)
    ensures Contributions(repos + [repo], fetch) == Contributions(repos, fetch)
  {
    var rs := repos + [repo];
    assert rs[..|rs| - 1] == repos;
  }

  /** A language's total over several repositories is the sum of its
      totals over each. */
  lemma {:induction false} SumForAppend(a: seq<Usage>, b: seq<Usage>, language: string)
    ensures SumFor(a + b, language) == SumFor(a, language) + SumFor(b, language)
    decreases |b|
  {
    if b != [] {
      var ab := a + b;
      assert ab[..|ab| - 1] == a + b[..|b| - 1];
      assert ab[|ab| - 1] == b[|b| - 1];
      SumForAppend(a, b[..|b| - 1], language);
    } else {
      assert a + b == a;
    }
  }

  // ---------------------------------------------------------------------
  // `sorted(languages.items(), key=lambda x: x[1], reverse=True)[:5]`

  /** Non-increasing byte counts. */
  predicate SortedDesc(s: seq<Usage>) {
    forall i, j :: 0 <= i < j < |s| ==> s[i].bytes >= s[j].bytes
  }

  /** Places `u` after every entry with at least its count: the step of a
      stable descending insertion sort. */
  function Insert(s: seq<Usage>, u: Usage): (r: seq<Usage>)
    ensures |r| == |s| + 1
  {
    if s == [] then [u]
    else if s[0].bytes < u.bytes then [u] + s
    else [s[0]] + Insert(s[1..], u)
  }

  /** Python's stable sort, descending by count. */
  function SortDesc(s: seq<Usage>): (r: seq<Usage>)
    ensures |r| == |s|
  {
    if s == [] then [] else Insert(SortDesc(s[..|s| - 1]), s[|s| - 1])
  }

  lemma {:induction false} InsertSorted(s: seq<Usage>, u: Usage)
    requires SortedDesc(s)
    ensures SortedDesc(Insert(s, u))
    ensures multiset(Insert(s, u)) == multiset(s) + multiset{u}
  {
    InsertOrdered(s, u);
    InsertPermutes(s, u);
  }

  lemma {:induction false} InsertOrdered(s: seq<Usage>, u: Usage)
    requires SortedDesc(s)
    ensures SortedDesc(Insert(s, u))
  {
    if s != [] && s[0].bytes >= u.bytes {
      var t := Insert(s[1..], u);
      InsertOrdered(s[1..], u);
      InsertElements(s[1..], u);
      assert forall k :: 0 <= k < |t| ==> s[0].bytes >= t[k].bytes;
      ConsSorted(s[0], t);
    }
  }

  lemma ConsSorted(h: Usage, t: seq<Usage>)
    requires SortedDesc(t) && forall k :: 0 <= k < |t| ==> h.bytes >= t[k].bytes
    ensures SortedDesc([h] + t)
  {
    var r := [h] + t;
    forall i, j | 0 <= i < j < |r| ensures r[i].bytes >= r[j].bytes {
      assert r[j] == t[j - 1];
      if i > 0 {
        assert r[i] == t[i - 1];
      }
    }
  }

  lemma {:induction false} InsertPermutes(s: seq<Usage>, u: Usage)
    ensures multiset(Insert(s, u)) == multiset(s) + multiset{u}
  {
    if s != [] && s[0].bytes >= u.bytes {
      InsertPermutes(s[1..], u);
      assert s == [s[0]] + s[1..];
    }
  }

  /** The sort orders by count and keeps every entry. */
  lemma {:induction false} SortDescSorted(s: seq<Usage>)
    ensures SortedDesc(SortDesc(s))
    ensures multiset(SortDesc(s)) == multiset(s)
  {
    if s != [] {
      var init := s[..|s| - 1];
      assert s == init + [s[|s| - 1]];
      SortDescSorted(init);
      InsertSorted(SortDesc(init), s[|s| - 1]);
    }
  }

  /** The entries with count `c`, in order. */
  function WithCount(s: seq<Usage>, c: int): seq<Usage>
  {
    if s == [] then [] else (if s[0].bytes == c then [s[0]] else []) + WithCount(s[1..], c)
  }

  lemma {:induction false} WithCountAppend(a: seq<Usage>, b: seq<Usage>, c: int)
    ensures WithCount(a + b, c) == WithCount(a, c) + WithCount(b, c)
  {
    if a != [] {
      var ab := a + b;
      assert ab[0] == a[0] && ab[1..] == a[1..] + b;
      WithCountAppend(a[1..], b, c);
    } else {
      assert a + b == b;
    }
  }

  lemma {:induction false} WithCountNone(s: seq<Usage>, c: int)
    requires forall k :: 0 <= k < |s| ==> s[k].bytes < c
    ensures WithCount(s, c) == []
  {
    if s != [] {
      WithCountNone(s[1..], c);
    }
  }

  lemma {:induction false} InsertStable(s: seq<Usage>, u: Usage, c: int)
    requires SortedDesc(s)
    ensures WithCount(Insert(s, u), c) == WithCount(s, c) + WithCount([u], c)
  {
    if s == [] {
    } else if s[0].bytes < u.bytes {
      if u.bytes == c {
        WithCountNone(s, c);
      }
      assert ([u] + s)[1..] == s;
    } else {
      InsertStable(s[1..], u, c);
      assert ([s[0]] + Insert(s[1..], u))[1..] == Insert(s[1..], u);
    }
  }

  /** Stability: entries with equal counts keep their relative order. */
  lemma {:induction false} SortDescStable(s: seq<Usage>, c: int)
    ensures WithCount(SortDesc(s), c) == WithCount(s, c)
  {
    if s != [] {
      var init := s[..|s| - 1];
      SortDescStable(init, c);
      SortDescSorted(init);
      InsertStable(SortDesc(init), s[|s| - 1], c);
      assert s == init + [s[|s| - 1]];
      WithCountAppend(init, [s[|s| - 1]], c);
    }
  }

  /** The names of a list of counts. */
  function Names(s: seq<Usage>): (r: seq<string>)
    ensures |r| == |s|
    ensures forall i :: 0 <= i < |s| ==> r[i] == s[i].language
  {
    seq(|s|, i requires 0 <= i < |s| => s[i].language)
  }

  /** Sorting entries with distinct names keeps the names distinct. */
  lemma {:induction false} SortDescDistinct(s: seq<Usage>)
    requires Distinct(Names(s))
    ensures Distinct(Names(SortDesc(s)))
  {
    if s != [] {
      var init := s[..|s| - 1];
      var u := s[|s| - 1];
      assert Distinct(Names(init));
      SortDescDistinct(init);
      SortDescSorted(init);
      var t := SortDesc(init);
      forall k | 0 <= k < |t| ensures t[k].language != u.language {
        assert t[k] in multiset(init);
        var m :| 0 <= m < |init| && init[m] == t[k];
        assert Names(s)[m] == t[k].language;
      }
      InsertDistinct(t, u);
    }
  }

  lemma {:induction false} InsertDistinct(s: seq<Usage>, u: Usage)
    requires Distinct(Names(s))
    requires forall k :: 0 <= k < |s| ==> s[k].language != u.language
    ensures Distinct(Names(Insert(s, u)))
  {
    if s != [] && s[0].bytes >= u.bytes {
      var t := s[1..];
      assert Distinct(Names(t));
      InsertDistinct(t, u);
      InsertElements(t, u);
    }
  }

  lemma {:induction false} InsertElements(s: seq<Usage>, u: Usage)
    ensures forall k :: 0 <= k < |Insert(s, u)| ==> Insert(s, u)[k] == u || Insert(s, u)[k] in s
  {
    if s != [] && s[0].bytes >= u.bytes {
      InsertElements(s[1..], u);
    }
  }

  /** The names of the at most five largest totals, ties in first-seen
      order. */
  function TopLanguages(xs: seq<Usage>): (r: seq<string>)
    ensures |r| == Min(TopCount, |FirstSeen(xs)|)
  {
    var sorted := SortDesc(Merged(xs));
    Names(sorted[..Min(TopCount, |sorted|)])
  }

  /** The top languages are at most five distinct names of languages that
      occur; every one listed has a total at least that of every language
      left out; and among equal totals the earlier-seen language comes
      first. */
  lemma TopLanguagesRanked(xs: seq<Usage>)
    ensures var top := TopLanguages(xs);
      |top| <= TopCount && Distinct(top)
      && (forall l :: l in top ==> l in FirstSeen(xs))
      && (forall a, b :: a in top && b in FirstSeen(xs) && b !in top ==> SumFor(xs, a) >= SumFor(xs, b))
  {
    TopAreDistinctLanguages(xs);
    TopDominateRest(xs);
  }

  /** The listed names are distinct languages that occur. */
  lemma TopAreDistinctLanguages(xs: seq<Usage>)
    ensures var top := TopLanguages(xs);
      Distinct(top) && forall l :: l in top ==> l in FirstSeen(xs)
  {
    var m := Merged(xs);
    var sorted := SortDesc(m);
    var n := Min(TopCount, |sorted|);
    assert TopLanguages(xs) == Names(sorted)[..n];
    assert Names(m) == FirstSeen(xs);
    SortDescDistinct(m);
    RankedEntriesAreTotals(xs);
  }

  /** Every listed language totals at least every language left out. */
  lemma TopDominateRest(xs: seq<Usage>)
    ensures var top := TopLanguages(xs);
      forall a, b :: a in top && b in FirstSeen(xs) && b !in top ==> SumFor(xs, a) >= SumFor(xs, b)
  {
    var m := Merged(xs);
    var sorted := SortDesc(m);
    var n := Min(TopCount, |sorted|);
    var top := TopLanguages(xs);
    SortDescSorted(m);
    RankedEntriesAreTotals(xs);
    assert forall k :: 0 <= k < n ==> top[k] == sorted[k].language;
    forall a, b | a in top && b in FirstSeen(xs) && b !in top
      ensures SumFor(xs, a) >= SumFor(xs, b)
    {
      var i :| 0 <= i < n && sorted[i].language == a;
      var j :| 0 <= j < |sorted| && sorted[j].language == b;
    }
  }

  /** Every entry of the ranking is a language that occurs, with its total,
      and every language that occurs has an entry. */
  lemma RankedEntriesAreTotals(xs: seq<Usage>)
    ensures var sorted := SortDesc(Merged(xs));
      (forall k :: 0 <= k < |sorted| ==>
        sorted[k].language in FirstSeen(xs) && sorted[k].bytes == SumFor(xs, sorted[k].language))
      && (forall l :: l in FirstSeen(xs) ==> exists k :: 0 <= k < |sorted| && sorted[k].language == l)
  {
    var m := Merged(xs);
    var sorted := SortDesc(m);
    SortDescSorted(m);
    forall k | 0 <= k < |sorted|
      ensures sorted[k].language in FirstSeen(xs) && sorted[k].bytes == SumFor(xs, sorted[k].language)
    {
      assert sorted[k] in multiset(m);
      var km :| 0 <= km < |m| && m[km] == sorted[k];
    }
    forall l | l in FirstSeen(xs) ensures exists k :: 0 <= k < |sorted| && sorted[k].language == l {
      var km :| 0 <= km < |m| && FirstSeen(xs)[km] == l;
      assert m[km] in multiset(sorted);
      var k :| 0 <= k < |sorted| && sorted[k] == m[km];
    }
  }

  /** Equal totals are listed in first-seen order. */
  lemma TopLanguagesTies(xs: seq<Usage>, c: int)
    ensures WithCount(SortDesc(Merged(xs)), c) == WithCount(Merged(xs), c)
  {
    SortDescStable(Merged(xs), c);
  }

  // ---------------------------------------------------------------------
  // `recent_repos`

  function Project(repo: Repo): RecentRepo
  {
    RecentRepo(repo.name, repo.description, repo.htmlUrl, repo.stars.GetOr(0), repo.language, repo.updatedAt)
  }

  /** The first five repositories, in order, projected. */
  function RecentRepos(repos: seq<Repo>): (r: seq<RecentRepo>)
    ensures |r| == Min(RecentCount, |repos|)
    ensures forall i :: 0 <= i < |r| ==>
      r[i].name == repos[i].name && r[i].description == repos[i].description
      && r[i].url == repos[i].htmlUrl && r[i].language == repos[i].language
      && r[i].updatedAt == repos[i].updatedAt
      && r[i].stars == (if repos[i].stars.Some? then repos[i].stars.value else 0)
  {
    var n := Min(RecentCount, |repos|);
    seq(n, i requires 0 <= i < n => Project(repos[i]))
  }

  // ---------------------------------------------------------------------
  // The handler

  /** `get_github_stats`: a raising or non-200 user request, or a raising
      repository request, fails with 500; a non-200 repository answer
      counts as no repositories. */
  function GetGithubStats(
    usernameVar: Option<string>,
    user: Reply<User>,
    repos: Reply<seq<Repo>>,
    fetch: string -> Reply<seq<Usage>>): (a: Answer)
    ensures a.Ok? ==> user.Answered? && user.status == 200 && repos.Answered?
    ensures a.Ok? ==> a.stats.username == usernameVar.GetOr(DefaultUsername)
    ensures a.Failed? <==> user.Raised? || user.status != 200 || repos.Raised?
    ensures a.Failed? ==> a.status == 500 && a.error == FailedText
  {
    var username := usernameVar.GetOr(DefaultUsername);
    if user.Raised? || user.status != 200 then Failed(500, FailedText)
    else if repos.Raised? then Failed(500, FailedText)
    else
      var u := user.body;
      var rs := if repos.status == 200 then repos.body else [];
      var xs := Contributions(LanguageSources(rs), fetch);
      Ok(Stats(
        username, u.htmlUrl, u.avatarUrl, u.bio,
        u.publicRepos.GetOr(0), TotalStars(rs), TotalForks(rs),
        u.followers.GetOr(0), u.following.GetOr(0),
        TopLanguages(xs), RecentRepos(rs)))
  }

  /** A user request that raised or did not answer 200 fails, whatever the
      other answers. */
  lemma UserFailureFails(usernameVar: Option<string>, user: Reply<User>, repos: Reply<seq<Repo>>, fetch: string -> Reply<seq<Usage>>)
    requires user.Raised? || user.status != 200
    ensures GetGithubStats(usernameVar, user, repos, fetch) == Failed(500, FailedText)
  {
  }

  /** A non-200 repository answer is treated as an empty list: no stars, no
      forks, no languages, no recent repositories; the user's own figures
      still come through, 0 when absent. */
  lemma ReposNotOkIsEmpty(usernameVar: Option<string>, u: User, status: int, body: seq<Repo>, fetch: string -> Reply<seq<Usage>>)
    requires status != 200
    ensures var a := GetGithubStats(usernameVar, Answered(200, u), Answered(status, body), fetch);
      a.Ok? && a.stats.stars == 0 && a.stats.forks == 0
      && a.stats.topLanguages == [] && a.stats.recentRepos == []
      && a.stats.repositories == (if u.publicRepos.Some? then u.publicRepos.value else 0)
      && a.stats.followers == (if u.followers.Some? then u.followers.value else 0)
      && a.stats.following == (if u.following.Some? then u.following.value else 0)
  {
    assert Contributions(LanguageSources([]), fetch) == [];
  }

  /** With both answers 200 the statistics are the sums over all
      repositories, the top languages of the first ten, and the first five
      repositories; each listed language's total is its sum over the
      contributions. */
  lemma StatsOfAnswers(usernameVar: Option<string>, u: User, rs: seq<Repo>, fetch: string -> Reply<seq<Usage>>)
    ensures var a := GetGithubStats(usernameVar, Answered(200, u), Answered(200, rs), fetch);
      var xs := Contributions(LanguageSources(rs), fetch);
      a.Ok? && a.stats.stars == TotalStars(rs) && a.stats.forks == TotalForks(rs)
      && |a.stats.recentRepos| == Min(RecentCount, |rs|)
      && a.stats.topLanguages == TopLanguages(xs)
      && a.stats.recentRepos == RecentRepos(rs)
      && a.stats.repositories == (if u.publicRepos.Some? then u.publicRepos.value else 0)
      && a.stats.followers == (if u.followers.Some? then u.followers.value else 0)
      && a.stats.following == (if u.following.Some? then u.following.value else 0)
  {
  }
}
