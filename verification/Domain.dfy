/** The values that travel between the local database, the VCS and the service layer. */
module Domain {

  datatype Option<+T> = None | Some(value: T)

  /** The exceptions that the modelled operations let escape. */
  datatype Error =
    | RepositoryNotFound
    | RepositoryAccess
    | MultipleWebhooks
    | IntegrityError
    | AssertionFailed
    | ProviderDown

  /** A Python call that returns a value or lets an exception escape. */
  datatype Result<+T> = Ok(value: T) | Raised(error: Error)

  /** A parsed URL: the host part `urlparse(url).netloc`, and everything else. */
  datatype Url = Url(netloc: string, rest: string)

  /** The text of a hook column: the decimal form of a number, or any other text.
      `text.isdigit()` is `Digits?`; the empty string is `Other("")`. */
  datatype HookText = Digits(n: nat) | Other(text: string)

  datatype GenericRepository = GenericRepository(
    id: string, fullName: string, defaultBranch: string,
    description: Option<string>, license: Option<string>)

  /** A row of `vcs_repositories`. Its primary key is the key of the table that holds it. */
  datatype Repo = Repo(
    provider: string, providerId: string,
    fullName: string, defaultBranch: string, description: Option<string>,
    hook: Option<HookText>, enabledBy: Option<nat>, community: Option<string>)
  {
    /** `bool(self.hook)`: a null or empty hook column means "not enabled". */
    predicate Enabled() {
      hook.Some? && hook.value != Other("")
    }

    function MarkedDisabled(): Repo {
      this.(hook := None, enabledBy := None, community := None)
    }

    function MarkedEnabled(h: HookText, user: nat, c: Option<string>): Repo {
      this.(hook := Some(h), enabledBy := Some(user), community := if c.Some? then c else community)
    }

    /** The row agrees with `g` on every column that a sync refreshes. */
    predicate Shows(g: GenericRepository) {
      fullName == g.fullName && defaultBranch == g.defaultBranch && description == g.description
    }

    function Refreshed(g: GenericRepository): (r: Repo)
      ensures r.Shows(g) && r.providerId == providerId && r.provider == provider
      ensures r.hook == hook && r.enabledBy == enabledBy && r.community == community
      ensures Shows(g) ==> r == this
    {
      this.(fullName := g.fullName, defaultBranch := g.defaultBranch, description := g.description)
    }

    /** A hook and an enabler come and go together, and only enabled rows carry a community. */
    predicate WellFormed() {
      (hook.None? <==> enabledBy.None?) && (community.Some? ==> Enabled())
    }
  }

  /** Two states of a row that differ at most in the columns that enabling and disabling write. */
  predicate SameExceptEnabling(a: Repo, b: Repo) {
    a == b.(hook := a.hook, enabledBy := a.enabledBy, community := a.community)
  }

  /** The row `Repository.create` adds for a repository that the database has never seen. */
  function NewRepo(provider: string, g: GenericRepository): Repo {
    Repo(provider, g.id, g.fullName, g.defaultBranch, g.description, None, None, None)
  }

  /** The keys of a listing, in listing order. A listing is a dict whose key is the entry's id. */
  function Ids(listing: seq<GenericRepository>): (ids: seq<string>)
    ensures |ids| == |listing| && forall k :: 0 <= k < |ids| ==> ids[k] == listing[k].id
  {
    seq(|listing|, k requires 0 <= k < |listing| => listing[k].id)
  }

  predicate Distinct<T(==)>(xs: seq<T>) {
    forall i, j :: 0 <= i < j < |xs| ==> xs[i] != xs[j]
  }

  /** `listing.get(r)`: a later entry under the same key replaces an earlier one. */
  function Find(listing: seq<GenericRepository>, r: string): (g: Option<GenericRepository>)
    ensures g.None? <==> r !in Ids(listing)
    ensures g.Some? ==> g.value in listing && g.value.id == r
  {
    if listing == [] then None
    else
      var last := listing[|listing| - 1];
      var rest := listing[..|listing| - 1];
      assert Ids(listing) == Ids(rest) + [last.id];
      if last.id == r then Some(last) else Find(rest, r)
  }

  lemma {:induction false} FindsLast(listing: seq<GenericRepository>, k: nat)
    requires k < |listing| && forall j :: k < j < |listing| ==> listing[j].id != listing[k].id
    ensures Find(listing, listing[k].id) == Some(listing[k])
  {
    if k < |listing| - 1 {
      FindsLast(listing[..|listing| - 1], k);
    }
  }
}
