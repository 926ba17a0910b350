/** The GitHub statistics card: star total, contribution counts, the capped score and its
    grade, and the choice between the card and one of the error cards. */
module StatsCard {
  import opened Wrappers
  import XmlEscape

  // ---------------------------------------------------------------------------
  // Stars
  // ---------------------------------------------------------------------------

  /** What the repository list endpoint returned: an array of repositories (only their
      `stargazers_count` matters here), or some other JSON value. */
  datatype RepoList = ReposArray(stars: seq<nat>) | NotAnArray

  /** `repos.reduce((sum, repo) => sum + repo.stargazers_count, acc)`: a left fold. */
  function ReduceStars(acc: nat, stars: seq<nat>): nat
    decreases |stars|
  {
    if stars == [] then acc else ReduceStars(acc + stars[0], stars[1..])
  }

  /** Reference definition of the sum of a sequence, from the right. */
  function StarSum(stars: seq<nat>): nat
  {
    if stars == [] then 0 else StarSum(stars[..|stars| - 1]) + stars[|stars| - 1]
  }

  lemma {:induction false} StarSumCons(x: nat, rest: seq<nat>)
    ensures StarSum([x] + rest) == x + StarSum(rest)
  {
    if rest != [] {
      var s := [x] + rest;
      assert s[..|s| - 1] == [x] + rest[..|rest| - 1];
      StarSumCons(x, rest[..|rest| - 1]);
    } else {
      assert [x] + rest == [x];
      assert [x][..0] == [];
    }
  }

  /** The fold adds the sum of the stars to its starting value. */
  lemma {:induction false} ReduceStarsIsSum(acc: nat, stars: seq<nat>)
    ensures ReduceStars(acc, stars) == acc + StarSum(stars)
    decreases |stars|
  {
    if stars != [] {
      ReduceStarsIsSum(acc + stars[0], stars[1..]);
      StarSumCons(stars[0], stars[1..]);
      assert stars == [stars[0]] + stars[1..];
    }
  }

  /** `totalStars`: the sum of the stars of an array, 0 for anything else. */
  function TotalStars(repos: RepoList): (r: nat)
    ensures repos.ReposArray? ==> r == StarSum(repos.stars)
    ensures repos.NotAnArray? ==> r == 0
  {
    if repos.ReposArray? then
      ReduceStarsIsSum(0, repos.stars);
      ReduceStars(0, repos.stars)
    else 0
  }

  /** Star totals do not depend on the order of the repositories. */
  lemma {:induction false} StarSumPermutation(a: seq<nat>, b: seq<nat>)
    requires multiset(a) == multiset(b)
    ensures StarSum(a) == StarSum(b)
    decreases |a|
  {
    if a != [] {
      var x := a[|a| - 1];
      assert x in multiset(b) by {
        assert x in multiset(a);
      }
      var k :| 0 <= k < |b| && b[k] == x;
      var b' := b[..k] + b[k + 1..];
      MultisetRemove(b, k);
      MultisetRemove(a, |a| - 1);
      assert a[..|a| - 1] + a[|a|..] == a[..|a| - 1];
      StarSumPermutation(a[..|a| - 1], b');
      StarSumRemove(b, k);
    } else {
      assert |b| == |multiset(b)|;
    }
  }

  /** Removing the element at `k` removes one occurrence of it from the contents. */
  lemma MultisetRemove(b: seq<nat>, k: nat)
    requires k < |b|
    ensures multiset(b[..k] + b[k + 1..]) == multiset(b) - multiset{b[k]}
  {
    assert b == b[..k] + [b[k]] + b[k + 1..];
    assert multiset(b) == multiset(b[..k] + b[k + 1..]) + multiset{b[k]};
  }

  /** Removing the element at `k` subtracts it from the sum. */
  lemma {:induction false} StarSumRemove(b: seq<nat>, k: nat)
    requires k < |b|
    ensures StarSum(b) == StarSum(b[..k] + b[k + 1..]) + b[k]
    decreases |b|
  {
    if k < |b| - 1 {
      var init := b[..|b| - 1];
      StarSumRemove(init, k);
      assert init[..k] + init[k + 1..] == (b[..k] + b[k + 1..])[..|b| - 2];
      assert (b[..k] + b[k + 1..])[|b| - 2] == b[|b| - 1];
    } else {
      assert b[..k] + b[k + 1..] == b[..|b| - 1];
    }
  }

  // ---------------------------------------------------------------------------
  // Contributions, score and grade
  // ---------------------------------------------------------------------------

  /** `contributionsCollection`; each count is `None` when absent or null. */
  datatype Contributions = Contributions(commits: Option<nat>, pullRequests: Option<nat>,
                                         repositories: Option<nat>)

  /** The three counts shown, each 0 when the collection or the count is missing. */
  datatype Counts = Counts(totalCommits: nat, totalPRs: nat, contributedTo: nat)

  /** `contributions?.x || 0` for the three counts. */
  function CountsOf(c: Option<Contributions>): (r: Counts)
    ensures c.None? ==> r == Counts(0, 0, 0)
    ensures c.Some? ==>
              && r.totalCommits == c.value.commits.GetOr(0)
              && r.totalPRs == c.value.pullRequests.GetOr(0)
              && r.contributedTo == c.value.repositories.GetOr(0)
  {
    if c.None? then Counts(0, 0, 0)
    else Counts(c.value.commits.GetOr(0), c.value.pullRequests.GetOr(0), c.value.repositories.GetOr(0))
  }

  const MaxScore: nat := 100

  /** `Math.min(100, totalStars + followers + public_repos * 2)`: the raw score capped at
      100; the result never exceeds either, and equals one of them. */
  function Score(totalStars: nat, followers: nat, publicRepos: nat): (r: nat)
    ensures r <= MaxScore && r <= totalStars + followers + 2 * publicRepos
    ensures r == MaxScore || r == totalStars + followers + 2 * publicRepos
  {
    var raw := totalStars + followers + publicRepos * 2;
    if raw < MaxScore then raw else MaxScore
  }

  /** More stars, followers or repositories never lower the score. */
  lemma ScoreMonotone(s1: nat, f1: nat, p1: nat, s2: nat, f2: nat, p2: nat)
    requires s1 <= s2 && f1 <= f2 && p1 <= p2
    ensures Score(s1, f1, p1) <= Score(s2, f2, p2)
  {
  }

  datatype Grade = APlusPlus | APlus | A | B

  /** The text shown in the circle. */
  function GradeText(g: Grade): string
  {
    match g
    case APlusPlus => "A++"
    case APlus => "A+"
    case A => "A"
    case B => "B"
  }

  /** Position of a grade on the ladder, `B` lowest. */
  function Rank(g: Grade): nat
  {
    match g
    case B => 0
    case A => 1
    case APlus => 2
    case APlusPlus => 3
  }

  /** The grade ladder: `A++` above 90, `A+` above 75, `A` above 60, `B` otherwise. */
  function GradeOf(score: int): (g: Grade)
    ensures g == APlusPlus <==> score > 90
    ensures g == APlus <==> 75 < score <= 90
    ensures g == A <==> 60 < score <= 75
    ensures g == B <==> score <= 60
  {
    if score > 90 then APlusPlus else if score > 75 then APlus else if score > 60 then A else B
  }

  /** A higher score never gets a lower grade. */
  lemma GradeMonotone(s1: int, s2: int)
    requires s1 <= s2
    ensures Rank(GradeOf(s1)) <= Rank(GradeOf(s2))
  {
  }

  /** Different grades are shown differently. */
  lemma GradeTextInjective(g1: Grade, g2: Grade)
    requires GradeText(g1) == GradeText(g2)
    ensures g1 == g2
  {
  }

  // ---------------------------------------------------------------------------
  // The response
  // ---------------------------------------------------------------------------

  /** `res.ok`: a status in the 2xx range. */
  predicate Ok(status: nat)
  {
    200 <= status <= 299
  }

  /** HTTP statuses of the user, repository-list and GraphQL responses. */
  datatype Statuses = Statuses(user: nat, repos: nat, graphql: nat)

  /** The fields of the user read from the API. */
  datatype User = User(login: string, followers: nat, publicRepos: nat)

  /** The variable parts of the statistics card; `login` is the escaped login that the
      title puts before its fixed text "'s GitHub Stats". */
  datatype Stats = Stats(login: string, totalStars: nat, counts: Counts, score: nat, grade: Grade)

  datatype Response =
    | ErrorCard(status: nat, message: string)   // the error SVG, its status and the message it escapes
    | Card(stats: Stats)                      // 200, the statistics card

  const MissingToken := "Server Error: Missing Token"
  const RateLimited := "GitHub Rate Limit Exceeded"
  const UserNotFound := "User not found"
  const InternalError := "Internal Server Error"

  /** The card computed from the three answers. The repository list counts as empty when
      its response is not ok, and the contributions as missing when the GraphQL response is
      not ok. */
  function StatsOf(user: User, statuses: Statuses, repos: RepoList, contributions: Option<Contributions>): Stats
  {
    var totalStars := if Ok(statuses.repos) then TotalStars(repos) else TotalStars(ReposArray([]));
    var counts := CountsOf(if Ok(statuses.graphql) then contributions else None);
    var score := Score(totalStars, user.followers, user.publicRepos);
    Stats(XmlEscape.Escape(user.login), totalStars, counts, score, GradeOf(score))
  }

  /** The handler. `hasToken` says whether the token is set; `statuses` is `None` when the
      requests themselves fail. The checks come in order: the token (500), a 403 from any
      of the three answers (403), a user answer that is not ok (404); only then the card. */
  function Respond(hasToken: bool, statuses: Option<Statuses>, user: User, repos: RepoList,
                   contributions: Option<Contributions>): (r: Response)
    ensures !hasToken ==> r == ErrorCard(500, MissingToken)
    ensures hasToken && statuses.None? ==> r == ErrorCard(500, InternalError)
    ensures (r.ErrorCard? && r.status == 403) <==>
              hasToken && statuses.Some?
              && (statuses.value.user == 403 || statuses.value.repos == 403 || statuses.value.graphql == 403)
    ensures r.ErrorCard? && r.status == 403 ==> r.message == RateLimited
    ensures (r.ErrorCard? && r.status == 404) <==>
              hasToken && statuses.Some?
              && statuses.value.user != 403 && statuses.value.repos != 403 && statuses.value.graphql != 403
              && !Ok(statuses.value.user)
    ensures r.ErrorCard? && r.status == 404 ==> r.message == UserNotFound
    ensures r.Card? <==>
              hasToken && statuses.Some?
              && statuses.value.user != 403 && statuses.value.repos != 403 && statuses.value.graphql != 403
              && Ok(statuses.value.user)
    ensures r.Card? ==> r.stats == StatsOf(user, statuses.value, repos, contributions)
  {
    if !hasToken then ErrorCard(500, MissingToken)
    else if statuses.None? then ErrorCard(500, InternalError)
    else
      var s := statuses.value;
      if s.user == 403 || s.repos == 403 || s.graphql == 403 then ErrorCard(403, RateLimited)
      else if !Ok(s.user) then ErrorCard(404, UserNotFound)
      else Card(StatsOf(user, s, repos, contributions))
  }

  /** What the card shows: the star sum of the repositories when their response was ok and
      an array (0 otherwise), the three counts (0 when missing), the score capped at 100 and
      its grade, and the login escaped so that it decodes back. */
  lemma CardContents(user: User, statuses: Statuses, repos: RepoList, contributions: Option<Contributions>)
    ensures var st := StatsOf(user, statuses, repos, contributions);
            && st.totalStars == (if Ok(statuses.repos) && repos.ReposArray? then StarSum(repos.stars) else 0)
            && (!Ok(statuses.graphql) || contributions.None? ==> st.counts == Counts(0, 0, 0))
            && st.score <= MaxScore
            && st.score == (if st.totalStars + user.followers + 2 * user.publicRepos < 100
                            then st.totalStars + user.followers + 2 * user.publicRepos else 100)
            && st.grade == GradeOf(st.score)
            && XmlEscape.IsMarkupFree(st.login)
            && XmlEscape.Unescape(st.login) == user.login
  {
    XmlEscape.UnescapeEscape(user.login);
  }
}
