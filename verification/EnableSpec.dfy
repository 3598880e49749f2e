/** Enabling and disabling a repository: what happens to the tables and to the remote hooks. */
module EnableSpec {
  import opened Domain
  import opened Tables
  import opened Provider

  datatype Effect = Effect(db: Db, world: World, result: Result<bool>)

  /** VCSService.enable_repository; `editOk` is the API's answer to a request to edit an existing hook. */
  ghost function Enable(db: Db, w: World, u: nat, p: string, r: string, c: Option<string>, editOk: bool): Effect {
    match AvailableRow(db, p, u, r)
    case None => Effect(db, w, Raised(RepositoryNotFound))
    case Some(id) =>
      match ConfiguredWebhook(w, u, r)
      case Raised(e) => Effect(db, w, Raised(e))
      case Ok(Some(n)) =>
        Effect(WithRow(db, id, db.repos[id].MarkedEnabled(Digits(n), u, c)), AfterEdit(w, u, r, n, editOk), Ok(true))
      case Ok(None) =>
        if ReachOf(w, u, r).Full? then
          Effect(WithRow(db, id, db.repos[id].MarkedEnabled(Digits(w.nextHook), u, c)), AfterCreate(w, u, r), Ok(true))
        else
          Effect(db, w, Ok(false))
  }

  /** VCSService.disable_repository; `deleteOk` is the API's answer to the delete request. */
  ghost function Disable(db: Db, w: World, u: nat, p: string, r: string, hook: Option<HookText>, deleteOk: bool)
    : Effect
  {
    match AvailableRow(db, p, u, r)
    case None => Effect(db, w, Raised(RepositoryNotFound))
    case Some(id) =>
      var (w', res) := Deletion(w, u, r, hook, deleteOk);
      if res == Ok(true) then Effect(WithRow(db, id, db.repos[id].MarkedDisabled()), w', res)
      else Effect(db, w', res)
  }
}
