/** The projects gallery: the repository list fetched once on mount, with forks
    dropped and the rest sorted newest first, a loading/error/list tri-state set by
    the fetch outcome, and the card that shows each repository. */
module Projects {
  import opened Js
  import opened Subsequences

  /** One repository record of the hosting provider's listing. `created_at` and
      `updated_at` are taken as the millisecond timestamps `new Date(...).getTime()`
      gives for them. `description`, `homepage` and `language` come back as `null`
      when unset, and `topics` may be missing. */
  datatype Repository = Repository(
    id: int,
    name: string,
    description: Option<string>,
    htmlUrl: string,
    homepage: Option<string>,
    topics: Option<seq<string>>,
    language: Option<string>,
    fork: bool,
    createdAt: int,
    stargazersCount: nat,
    forksCount: nat,
    updatedAt: int)

  // ---------------------------------------------------------------------------
  // Derivation: `data.filter(repo => !repo.fork).sort((a, b) => b - a)`
  // ---------------------------------------------------------------------------

  /** `filter(repo => !repo.fork)`: keeps the non-fork records, in input order, each
      as often as it occurs in the input. */
  function NonForks(rs: seq<Repository>): (r: seq<Repository>)
    ensures forall i :: 0 <= i < |r| ==> !r[i].fork
    ensures IsSubsequence(r, rs)
    ensures forall x :: multiset(r)[x] == if x.fork then 0 else multiset(rs)[x]
  {
    if rs == [] then
      []
    else
      assert rs == [rs[0]] + rs[1..];
      if rs[0].fork then NonForks(rs[1..]) else [rs[0]] + NonForks(rs[1..])
  }

  /** Newest first: no repository is older than the one after it. */
  ghost predicate NewestFirst(s: seq<Repository>)
  {
    forall i :: 0 <= i < |s| - 1 ==> s[i].createdAt >= s[i + 1].createdAt
  }

  /** One insertion step of the sort: `x` goes in front of the first repository that
      is not newer than it, so it stays ahead of every repository with the same
      creation time (the comparator returns 0 for those, and the sort is stable). */
  function Insert(x: Repository, t: seq<Repository>): (r: seq<Repository>)
    ensures |r| == |t| + 1
    ensures r[0] == x || (t != [] && r[0] == t[0])
    ensures multiset(r) == multiset(t) + multiset{x}
    ensures NewestFirst(t) ==> NewestFirst(r)
    decreases |t|
  {
    if t == [] || x.createdAt >= t[0].createdAt then
      [x] + t
    else
      assert t == [t[0]] + t[1..];
      [t[0]] + Insert(x, t[1..])
  }

  /** `sort((a, b) => b.createdAt - a.createdAt)`: a newest-first permutation of the input. */
  function SortNewestFirst(s: seq<Repository>): (r: seq<Repository>)
    ensures multiset(r) == multiset(s)
    ensures NewestFirst(r)
  {
    if s == [] then
      []
    else
      assert s == [s[0]] + s[1..];
      Insert(s[0], SortNewestFirst(s[1..]))
  }

  /** The list the gallery shows for a fetched listing: no forks, newest first, and
      every non-fork record exactly as often as in the listing. */
  function Derive(rs: seq<Repository>): (r: seq<Repository>)
    ensures forall i :: 0 <= i < |r| ==> !r[i].fork
    ensures NewestFirst(r)
    ensures forall x :: multiset(r)[x] == if x.fork then 0 else multiset(rs)[x]
    ensures forall x :: x in r <==> x in rs && !x.fork
    ensures multiset(r) == multiset(NonForks(rs))
  {
    var r := SortNewestFirst(NonForks(rs));
    assert forall x :: x in r <==> x in multiset(r);
    r
  }

  /** The repositories of `s` created at time `k`, in the order `s` has them. */
  function CreatedAt(s: seq<Repository>, k: int): seq<Repository>
  {
    if s == [] then []
    else (if s[0].createdAt == k then [s[0]] else []) + CreatedAt(s[1..], k)
  }

  /** Inserting `x` puts it ahead of every repository created at the same time. */
  lemma {:induction false} InsertKeepsTies(x: Repository, t: seq<Repository>, k: int)
    ensures CreatedAt(Insert(x, t), k) == (if x.createdAt == k then [x] else []) + CreatedAt(t, k)
    decreases |t|
  {
    if t == [] || x.createdAt >= t[0].createdAt {
      assert ([x] + t)[1..] == t;
    } else {
      InsertKeepsTies(x, t[1..], k);
      assert ([t[0]] + Insert(x, t[1..]))[1..] == Insert(x, t[1..]);
    }
  }

  /** The sort is stable: repositories with equal creation times keep their relative order. */
  lemma {:induction false} SortIsStable(s: seq<Repository>, k: int)
    ensures CreatedAt(SortNewestFirst(s), k) == CreatedAt(s, k)
  {
    if s != [] {
      SortIsStable(s[1..], k);
      InsertKeepsTies(s[0], SortNewestFirst(s[1..]), k);
    }
  }

  /** In the derived list, repositories created at the same time appear in the order the
      listing gave them (after dropping forks). */
  lemma DeriveIsStable(rs: seq<Repository>, k: int)
    ensures CreatedAt(Derive(rs), k) == CreatedAt(NonForks(rs), k)
  {
    SortIsStable(NonForks(rs), k);
  }

  /** Filtering a fork-free list changes nothing. */
  lemma {:induction false} NonForksOfForkFree(rs: seq<Repository>)
    requires forall i :: 0 <= i < |rs| ==> !rs[i].fork
    ensures NonForks(rs) == rs
  {
    if rs != [] {
      NonForksOfForkFree(rs[1..]);
    }
  }

  /** Sorting a list that is already newest first changes nothing. */
  lemma {:induction false} SortOfSorted(s: seq<Repository>)
    requires NewestFirst(s)
    ensures SortNewestFirst(s) == s
  {
    if s != [] {
      assert NewestFirst(s[1..]) by {
        forall i | 0 <= i < |s[1..]| - 1 ensures s[1..][i].createdAt >= s[1..][i + 1].createdAt {
          assert s[1..][i] == s[i + 1] && s[1..][i + 1] == s[i + 2];
        }
      }
      SortOfSorted(s[1..]);
      assert s == [s[0]] + s[1..];
    }
  }

  /** Deriving is idempotent: a derived list derives to itself. */
  lemma DeriveIdempotent(rs: seq<Repository>)
    ensures Derive(Derive(rs)) == Derive(rs)
  {
    var d := Derive(rs);
    NonForksOfForkFree(d);
    SortOfSorted(d);
  }

  /** A listing record with only the fields the derivation reads set. */
  function Sample(id: int, fork: bool, createdAt: int): Repository
  {
    Repository(id, "", None, "", None, None, None, fork, createdAt, 0, 0, createdAt)
  }

  /** Three records created on 2023-01-01, 2024-01-01 (a fork) and 2022-01-01 derive to
      the first and the third, in that order. */
  lemma ThreeRepositoryExample()
    ensures Derive([Sample(1, false, 1672531200000), Sample(2, true, 1704067200000), Sample(3, false, 1640995200000)])
         == [Sample(1, false, 1672531200000), Sample(3, false, 1640995200000)]
  {
    var r1, r2, r3 := Sample(1, false, 1672531200000), Sample(2, true, 1704067200000), Sample(3, false, 1640995200000);
    assert NonForks([r1, r2, r3]) == [r1, r3] by {
      assert [r1, r2, r3][1..] == [r2, r3];
      assert [r2, r3][1..] == [r3];
    }
    assert SortNewestFirst([r3]) == [r3];
    assert [r1, r3][1..] == [r3];
  }

  // ---------------------------------------------------------------------------
  // Cards
  // ---------------------------------------------------------------------------

  const NoDescription := "No description available"

  /** What one repository card shows: name, star and fork counts, description,
      an optional language badge, the topic chips, the repository link and an
      optional homepage link, and the two dates. */
  datatype Card = Card(
    key: int,
    name: string,
    stars: nat,
    forks: nat,
    description: string,
    languageBadge: Option<string>,
    topics: seq<string>,
    repositoryLink: string,
    homepageLink: Option<string>,
    created: int,
    updated: int)

  /** The card for a repository, with the fallbacks for its optional fields: the
      placeholder text when the description is null or empty, the language badge
      and the homepage link only when those fields are non-empty, and no topic chips
      when `topics` is missing. */
  function CardOf(r: Repository): (c: Card)
    ensures Truthy(r.description) ==> c.description == r.description.value
    ensures !Truthy(r.description) ==> c.description == NoDescription
    ensures c.languageBadge.Some? <==> Truthy(r.language)
    ensures c.languageBadge.Some? ==> c.languageBadge == r.language
    ensures c.homepageLink.Some? <==> Truthy(r.homepage)
    ensures c.homepageLink.Some? ==> c.homepageLink == r.homepage
    ensures r.topics.Some? ==> c.topics == r.topics.value
    ensures r.topics.None? ==> c.topics == []
    ensures c.key == r.id && c.name == r.name && c.repositoryLink == r.htmlUrl
    ensures c.stars == r.stargazersCount && c.forks == r.forksCount
    ensures c.created == r.createdAt && c.updated == r.updatedAt
  {
    Card(
      r.id,
      r.name,
      r.stargazersCount,
      r.forksCount,
      if Truthy(r.description) then r.description.value else NoDescription,
      if Truthy(r.language) then r.language else None,
      if r.topics.Some? then r.topics.value else [],
      r.htmlUrl,
      if Truthy(r.homepage) then r.homepage else None,
      r.createdAt,
      r.updatedAt)
  }

  // ---------------------------------------------------------------------------
  // Fetch outcome and the view it selects
  // ---------------------------------------------------------------------------

  /** What reaches the `catch` block: an `Error` instance, with its message, or any
      other thrown value. */
  datatype Thrown = ErrorInstance(message: string) | OtherValue

  /** How the request ended: a response whose `ok` flag is set, with its body parsed as
      a listing; a response whose `ok` flag is clear; or a rejection before a listing
      was obtained (the network failed, the body did not parse, the body was not an
      array). */
  datatype Response = Ok(data: seq<Repository>) | NotOk | Rejected(thrown: Thrown)

  const FetchFailed := "Failed to fetch repositories"
  const FallbackFailure := "Failed to fetch projects"

  /** `err instanceof Error ? err.message : 'Failed to fetch projects'` */
  function CaughtMessage(t: Thrown): (m: string)
    ensures t.ErrorInstance? ==> m == t.message
    ensures t.OtherValue? ==> m == FallbackFailure
  {
    match t
    case ErrorInstance(m) => m
    case OtherValue => FallbackFailure
  }

  /** What the section renders. */
  datatype View = LoadingView | ErrorView(message: string) | ListView(cards: seq<Card>)

  /** The render branches in their fixed order: loading first, then a truthy error,
      then one card per repository, in list order. */
  function Render(loading: bool, error: Option<string>, repositories: seq<Repository>): (v: View)
    ensures v.LoadingView? <==> loading
    ensures v.ErrorView? <==> !loading && Truthy(error)
    ensures v.ErrorView? ==> v.message == error.value
    ensures v.ListView? ==> |v.cards| == |repositories|
    ensures v.ListView? ==> forall i :: 0 <= i < |repositories| ==> v.cards[i] == CardOf(repositories[i])
  {
    if loading then
      LoadingView
    else if Truthy(error) then
      ErrorView(error.value)
    else
      ListView(seq(|repositories|, i requires 0 <= i < |repositories| => CardOf(repositories[i])))
  }

  /** The component's state: `repositories`, `loading` and `error`. */
  class ProjectsSection {
    var repositories: seq<Repository>
    var loading: bool
    var error: Option<string>

    /** The initial state: no repositories, loading, no error. */
    constructor ()
      ensures repositories == [] && loading && error == None
    {
      repositories := [];
      loading := true;
      error := None;
    }

    /** The mount effect, once the request has ended: the `try` block stores the
        derived list or throws, the `catch` block stores the message, the `finally`
        block clears `loading`. */
    method FetchRepositories(response: Response)
      modifies this
      ensures !loading
      ensures response.Ok? ==> repositories == Derive(response.data) && error == old(error)
      ensures response.NotOk? ==> repositories == old(repositories) && error == Some(FetchFailed)
      ensures response.Rejected? ==> repositories == old(repositories) && error == Some(CaughtMessage(response.thrown))
    {
      // try
      var thrown: Option<Thrown> := None;
      match response {
        case NotOk =>
          thrown := Some(ErrorInstance(FetchFailed));
        case Rejected(t) =>
          thrown := Some(t);
        case Ok(data) =>
          repositories := Derive(data);
      }
      // catch
      if thrown.Some? {
        error := Some(CaughtMessage(thrown.value));
      }
      // finally
      loading := false;
    }

    /** What the section renders in the current state. */
    function View(): (v: View)
      reads this
      ensures v.LoadingView? <==> loading
    {
      Render(loading, error, repositories)
    }
  }

  /** The section's whole life: mount, the request ends with `response`, render. The
      result is never the loading view; a clear `ok` flag shows the fixed message and
      no cards; a rejection shows its message, or the fallback one for a thrown
      non-`Error`; an `Error` with an empty message is falsy, so the (empty) card
      list shows instead. */
  method LoadProjects(response: Response) returns (view: View)
    ensures !view.LoadingView?
    ensures response.Ok? ==> view == Render(false, None, Derive(response.data))
    ensures response.NotOk? ==> view == ErrorView(FetchFailed)
    ensures response == Rejected(OtherValue) ==> view == ErrorView(FallbackFailure)
    ensures forall m :: response == Rejected(ErrorInstance(m)) && m != "" ==> view == ErrorView(m)
    ensures response == Rejected(ErrorInstance("")) ==> view == ListView([])
  {
    var section := new ProjectsSection();
    section.FetchRepositories(response);
    view := section.View();
  }
}
