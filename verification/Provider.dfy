/** The remote VCS, and the provider operations through which one user sees and changes it. */
module Provider {
  import opened Domain

  /** What a user's token reaches of a repository: everything, nothing (the API answers "no such
      repository"), or an access error raised by the provider plugin. */
  datatype Reach = Full | Hidden | Denied

  datatype World = World(
    host: string,                                    // netloc of the configured webhook receiver URL
    tokens: map<nat, string>,                        // the user's webhook token, part of the receiver URL
    listings: map<nat, seq<GenericRepository>>,      // what list_repositories answers; absent: None
    admins: map<string, seq<string>>,                // external ids of a repository's admin collaborators
    reach: map<(nat, string), Reach>,                // absent: Hidden
    hooks: map<string, map<nat, Option<Url>>>,       // repository -> hook id -> URL the hook calls
    nextHook: nat)

  function Listing(w: World, u: nat): seq<GenericRepository> {
    if u in w.listings then w.listings[u] else []
  }

  function ReachOf(w: World, u: nat, r: string): Reach {
    if (u, r) in w.reach then w.reach[(u, r)] else Hidden
  }

  function HooksOf(w: World, r: string): map<nat, Option<Url>> {
    if r in w.hooks then w.hooks[r] else map[]
  }

  function WebhookUrl(w: World, u: nat): Url {
    Url(w.host, if u in w.tokens then w.tokens[u] else "")
  }

  /** A hook is ours when both hosts are non-empty and equal. */
  predicate IsConfigured(host: string, url: Option<Url>) {
    url.Some? && host != "" && url.value.netloc != "" && host == url.value.netloc
  }

  /** Hook n of repository r calls this instance. */
  predicate Ours(w: World, r: string, n: nat) {
    n in HooksOf(w, r) && IsConfigured(w.host, HooksOf(w, r)[n])
  }

  /** What `get_configured_webhook` answers, stated by the hooks that exist and not by a scan. */
  ghost function ConfiguredWebhook(w: World, u: nat, r: string): (res: Result<Option<nat>>)
    ensures res.Ok? && res.value.Some? ==> ReachOf(w, u, r).Full? && Ours(w, r, res.value.value)
    ensures res.Ok? && res.value.None? && ReachOf(w, u, r).Full? ==> forall n :: !Ours(w, r, n)
    ensures res == Raised(MultipleWebhooks)
       <==> ReachOf(w, u, r).Full? && exists a, b :: Ours(w, r, a) && Ours(w, r, b) && a != b
  {
    match ReachOf(w, u, r)
    case Denied => Raised(RepositoryAccess)
    case Hidden => Ok(None)
    case Full =>
      if exists a, b :: Ours(w, r, a) && Ours(w, r, b) && a != b then Raised(MultipleWebhooks)
      else if n: nat :| Ours(w, r, n) then Ok(Some(n))
      else Ok(None)
  }

  /** The answer of `list_repository_user_ids`. */
  function AdminIds(w: World, u: nat, r: string): Result<Option<seq<string>>> {
    match ReachOf(w, u, r)
    case Denied => Raised(RepositoryAccess)
    case Hidden => Ok(None)
    case Full => Ok(Some(if r in w.admins then w.admins[r] else []))
  }

  function WithHooks(w: World, r: string, hs: map<nat, Option<Url>>): World {
    w.(hooks := w.hooks[r := hs])
  }

  function AfterCreate(w: World, u: nat, r: string): World {
    WithHooks(w, r, HooksOf(w, r)[w.nextHook := Some(WebhookUrl(w, u))]).(nextHook := w.nextHook + 1)
  }

  function AfterEdit(w: World, u: nat, r: string, n: nat, editOk: bool): World {
    if editOk then WithHooks(w, r, HooksOf(w, r)[n := Some(WebhookUrl(w, u))]) else w
  }

  function AfterDelete(w: World, r: string, n: nat): World {
    WithHooks(w, r, HooksOf(w, r) - {n})
  }

  datatype Webhook = Webhook(id: nat, url: Option<Url>)

  /** The deletion of one hook as the GitHub provider performs it: the answer and what remains.
      `deleteOk` is the API's own answer to the delete request. */
  ghost function Deletion(w: World, u: nat, r: string, hook: Option<HookText>, deleteOk: bool)
    : (World, Result<bool>)
  {
    match ReachOf(w, u, r)
    case Denied => (w, Raised(RepositoryAccess))
    case Hidden => (w, Ok(false))
    case Full =>
      match hook
      case Some(Other(_)) => (w, Raised(AssertionFailed))
      case Some(Digits(n)) => DeleteOne(w, r, n, deleteOk)
      case None =>
        match ConfiguredWebhook(w, u, r)
        case Raised(e) => (w, Raised(e))
        case Ok(None) => (w, Ok(true))
        case Ok(Some(n)) => DeleteOne(w, r, n, deleteOk)
  }

  function DeleteOne(w: World, r: string, n: nat, deleteOk: bool): (World, Result<bool>) {
    if n !in HooksOf(w, r) then (w, Ok(true))
    else if deleteOk then (AfterDelete(w, r, n), Ok(true))
    else (w, Ok(false))
  }

  class Remote {
    const host: string
    var tokens: map<nat, string>
    var listings: map<nat, seq<GenericRepository>>
    var admins: map<string, seq<string>>
    var reach: map<(nat, string), Reach>
    var hooks: map<string, map<nat, Option<Url>>>
    var nextHook: nat

    ghost function Snap(): World
      reads this
    {
      World(host, tokens, listings, admins, reach, hooks, nextHook)
    }

    function Reaches(u: nat, r: string): (a: Reach)
      reads this
      ensures a == ReachOf(Snap(), u, r)
    {
      if (u, r) in reach then reach[(u, r)] else Hidden
    }

    function Hooks(r: string): (hs: map<nat, Option<Url>>)
      reads this
      ensures hs == HooksOf(Snap(), r)
    {
      if r in hooks then hooks[r] else map[]
    }

    function Receiver(u: nat): (url: Url)
      reads this
      ensures url == WebhookUrl(Snap(), u)
    {
      Url(host, if u in tokens then tokens[u] else "")
    }

    /** Some order of the repository's hooks, each exactly once. */
    method ListWebhooks(u: nat, r: string) returns (res: Result<Option<seq<Webhook>>>)
      ensures Reaches(u, r).Denied? <==> res == Raised(RepositoryAccess)
      ensures res.Raised? ==> res.error == RepositoryAccess
      ensures Reaches(u, r).Hidden? <==> res == Ok(None)
      ensures res.Ok? && res.value.Some? ==>
        && (forall i, j :: 0 <= i < j < |res.value.value| ==> res.value.value[i].id != res.value.value[j].id)
        && (forall h :: h in res.value.value <==> h.id in Hooks(r) && Hooks(r)[h.id] == h.url)
    {
      match Reaches(u, r)
      case Denied => res := Raised(RepositoryAccess);
      case Hidden => res := Ok(None);
      case Full =>
        var rest := Hooks(r).Keys;
        var hs: seq<Webhook> := [];
        while rest != {}
          invariant rest <= Hooks(r).Keys
          invariant forall h :: h in hs <==> h.id in Hooks(r) && h.id !in rest && Hooks(r)[h.id] == h.url
          invariant forall i, j :: 0 <= i < j < |hs| ==> hs[i].id != hs[j].id
          decreases rest
        {
          var n :| n in rest;
          hs := hs + [Webhook(n, Hooks(r)[n])];
          rest := rest - {n};
        }
        res := Ok(Some(hs));
    }

    /** Scans the hooks for the one that calls this instance. */
    method GetConfiguredWebhook(u: nat, r: string) returns (res: Result<Option<nat>>)
      ensures res == ConfiguredWebhook(Snap(), u, r)
    {
      var listed := ListWebhooks(u, r);
      if listed.Raised? {
        return Raised(listed.error);
      }
      if listed.value.None? {
        return Ok(None);
      }
      var hs := listed.value.value;
      var found: Option<nat> := None;
      for i := 0 to |hs|
        invariant found.Some? ==> exists k :: 0 <= k < i && hs[k].id == found.value && IsConfigured(host, hs[k].url)
        invariant forall k :: 0 <= k < i && IsConfigured(host, hs[k].url) ==> found == Some(hs[k].id)
      {
        if IsConfigured(host, hs[i].url) {
          if found.Some? {
            assert hs[i] in hs && Ours(Snap(), r, hs[i].id);
            assert exists k :: 0 <= k < i && hs[k] in hs && hs[k].id == found.value && Ours(Snap(), r, hs[k].id);
            return Raised(MultipleWebhooks);
          }
          found := Some(hs[i].id);
        }
      }
      forall n | Ours(Snap(), r, n)
        ensures found == Some(n)
      {
        assert Webhook(n, Hooks(r)[n]) in hs;
      }
      if found.Some? {
        assert exists k :: 0 <= k < |hs| && hs[k] in hs && hs[k].id == found.value && Ours(Snap(), r, hs[k].id);
      }
      return Ok(found);
    }

    method CreateWebhook(u: nat, r: string) returns (res: Result<Option<nat>>)
      modifies this`hooks, this`nextHook
      ensures Reaches(u, r).Denied? ==> res == Raised(RepositoryAccess) && Snap() == old(Snap())
      ensures Reaches(u, r).Hidden? ==> res == Ok(None) && Snap() == old(Snap())
      ensures Reaches(u, r).Full? ==> res == Ok(Some(old(nextHook))) && Snap() == AfterCreate(old(Snap()), u, r)
    {
      match Reaches(u, r)
      case Denied => res := Raised(RepositoryAccess);
      case Hidden => res := Ok(None);
      case Full =>
        hooks := hooks[r := Hooks(r)[nextHook := Some(Receiver(u))]];
        res := Ok(Some(nextHook));
        nextHook := nextHook + 1;
    }

    /** Rewrites the hook's configuration; fails when the hook is gone. The API's own answer to the edit request,
        `editOk`, is ignored. */
    method UpdateWebhook(u: nat, r: string, n: nat, editOk: bool) returns (res: Result<bool>)
      modifies this`hooks
      ensures Reaches(u, r).Full? && n in old(Hooks(r)) ==>
        res == Ok(true) && Snap() == AfterEdit(old(Snap()), u, r, n, editOk)
      ensures !(Reaches(u, r).Full? && n in old(Hooks(r))) ==> Snap() == old(Snap())
      ensures Reaches(u, r).Hidden? ==> res == Ok(false)
      ensures Reaches(u, r).Denied? ==> res == Raised(RepositoryAccess)
      ensures Reaches(u, r).Full? && n !in old(Hooks(r)) ==> res == Raised(AssertionFailed)
    {
      match Reaches(u, r)
      case Denied => res := Raised(RepositoryAccess);
      case Hidden => res := Ok(false);
      case Full =>
        if n !in Hooks(r) {
          return Raised(AssertionFailed);
        }
        if editOk {
          hooks := hooks[r := Hooks(r)[n := Some(Receiver(u))]];
        }
        res := Ok(true);
    }

    method DeleteWebhook(u: nat, r: string, hook: Option<HookText>, deleteOk: bool) returns (res: Result<bool>)
      modifies this`hooks
      ensures (Snap(), res) == Deletion(old(Snap()), u, r, hook, deleteOk)
    {
      match Reaches(u, r)
      case Denied => return Raised(RepositoryAccess);
      case Hidden => return Ok(false);
      case Full =>
        var n: nat;
        if hook.Some? {
          if !hook.value.Digits? {
            return Raised(AssertionFailed);
          }
          n := hook.value.n;
        } else {
          var found := GetConfiguredWebhook(u, r);
          if found.Raised? {
            return Raised(found.error);
          }
          if found.value.None? {
            return Ok(true);
          }
          n := found.value.value;
        }
        if n !in Hooks(r) {
          return Ok(true);
        }
        if !deleteOk {
          return Ok(false);
        }
        hooks := hooks[r := Hooks(r) - {n}];
        return Ok(true);
    }
  }
}
