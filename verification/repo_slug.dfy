/** The `owner/name` reading of a repository string, as the UI does it with
    `const [owner, name] = repo.split("/")` followed by a truthiness test. */
module RepoSlug {
  import opened Text

  /** The first `/`-segment (always present, possibly empty). */
  function Owner(repo: string): string {
    Segment(repo, '/', 0)
  }

  /** The second `/`-segment, or `""` when there is none (`undefined` is falsy too). */
  function Name(repo: string): string {
    Segment(repo, '/', 1)
  }

  /** `!!owner && !!name`. */
  predicate HasOwnerAndName(repo: string) {
    Owner(repo) != "" && Name(repo) != ""
  }

  /** The GitHub lookups keyed by owner and name (branches, workflow runs)
      run only for a signed-in user and a repository that passes the guard. */
  function LookupEnabled(signedIn: bool, repo: string): (enabled: bool)
    ensures enabled <==> signedIn && Owner(repo) != "" && Name(repo) != ""
    ensures enabled ==> '/' in repo && repo[0] != '/'
  {
    if '/' !in repo then NoSeparatorNoName(repo); false
    else if repo[0] == '/' then LeadingSeparatorNoOwner(repo); false
    else signedIn && HasOwnerAndName(repo)
  }

  /** What follows the name: the third and later segments, with their separator. */
  function Tail(repo: string): string {
    var parts := Split(repo, '/');
    if |parts| > 2 then "/" + Join(parts[2..], '/') else ""
  }

  lemma SplitOfEmptyOrSeparated(rest: string)
    requires rest == "" || rest[0] == '/'
    ensures Split(rest, '/')[0] == ""
  {
  }

  /** A non-empty owner and name with no `/`, followed by nothing or by a `/`,
      pass the guard and are read back as owner and name. */
  lemma SlugAccepted(owner: string, name: string, rest: string)
    requires owner != "" && name != "" && '/' !in owner && '/' !in name
    requires rest == "" || rest[0] == '/'
    ensures HasOwnerAndName(owner + "/" + name + rest)
    ensures Owner(owner + "/" + name + rest) == owner
    ensures Name(owner + "/" + name + rest) == name
  {
    var s := owner + "/" + name + rest;
    assert s == owner + ['/'] + (name + rest);
    SplitPiece(owner, name + rest, '/');
    SplitPrepend(name, rest, '/');
    SplitOfEmptyOrSeparated(rest);
    assert name + "" == name;
  }

  /** Conversely, a string that passes the guard is exactly owner, `/`, name
      and a tail that is empty or starts with `/`. */
  lemma SlugDecomposed(repo: string)
    requires HasOwnerAndName(repo)
    ensures repo == Owner(repo) + "/" + Name(repo) + Tail(repo)
    ensures '/' !in Owner(repo) && '/' !in Name(repo)
    ensures Tail(repo) == "" || Tail(repo)[0] == '/'
  {
    var parts := Split(repo, '/');
    assert |parts| >= 2;
    JoinSplit(repo, '/');
    assert Join(parts, '/') == parts[0] + "/" + Join(parts[1..], '/');
    if |parts| == 2 {
      assert Join(parts[1..], '/') == parts[1];
    } else {
      assert parts[1..][1..] == parts[2..];
      assert Join(parts[1..], '/') == parts[1] + "/" + Join(parts[2..], '/');
    }
  }

  /** Without a `/` there is no name, so the guard fails. */
  lemma NoSeparatorNoName(repo: string)
    requires '/' !in repo
    ensures Name(repo) == "" && !HasOwnerAndName(repo)
  {
    SplitPrepend(repo, "", '/');
    assert repo + "" == repo;
  }

  /** An empty string or a leading `/` leaves the owner empty, so the guard fails. */
  lemma LeadingSeparatorNoOwner(repo: string)
    requires repo == "" || repo[0] == '/'
    ensures Owner(repo) == "" && !HasOwnerAndName(repo)
  {
    SplitOfEmptyOrSeparated(repo);
  }
}
