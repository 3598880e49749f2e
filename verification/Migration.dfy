/** The migration of repositories into the new table: the accounts' JSON listings first, the old table second. */
module Migration {
  import opened Domain

  /** The part of a JSON repository that is copied. */
  datatype Meta = Meta(fullName: string, defaultBranch: string, description: Option<string>)

  type Entry = (string, Meta)

  /** An account's extra_data: the listing, the time of the last sync, and everything else. */
  datatype Extra = Extra(repos: Option<seq<Entry>>, lastSync: Option<string>, rest: map<string, string>)

  /** A row of the old table. */
  datatype OldRepo = OldRepo(id: nat, githubId: Option<string>, name: string, hook: Option<nat>, userId: Option<nat>)

  /** A row of the new table with its primary key. */
  datatype Row = Row(id: nat, repo: Repo)

  /** The new table; `nextUuid` is the id that uuid4 generates next. */
  datatype Table = Table(rows: seq<Row>, nextUuid: nat)

  const GITHUB := "github"

  /** The first row with this provider id (the provider is not asked for), or the number of rows. */
  function Index(rows: seq<Row>, key: string): (k: nat)
    ensures k <= |rows| && (k < |rows| ==> rows[k].repo.providerId == key)
    ensures forall j :: 0 <= j < k ==> rows[j].repo.providerId != key
  {
    if rows == [] then 0
    else if rows[0].repo.providerId == key then 0
    else 1 + Index(rows[1..], key)
  }

  function WithMeta(row: Row, m: Meta): Row {
    row.(repo := row.repo.(fullName := m.fullName, defaultBranch := m.defaultBranch, description := m.description))
  }

  /** The first pass's update of the rows with primary key id. */
  function UpdateMeta(rows: seq<Row>, id: nat, m: Meta): (out: seq<Row>)
    ensures |out| == |rows|
    ensures forall j :: 0 <= j < |rows| ==> out[j] == if rows[j].id == id then WithMeta(rows[j], m) else rows[j]
  {
    seq(|rows|, j requires 0 <= j < |rows| => if rows[j].id == id then WithMeta(rows[j], m) else rows[j])
  }

  /** The row inserted for a listed repository: it was not enabled, or the old table would have it. */
  function ListedRow(id: nat, e: Entry): Row {
    Row(id, Repo(GITHUB, e.0, e.1.fullName, e.1.defaultBranch, e.1.description, None, None, None))
  }

  /** One listed repository of the first pass. */
  function Upsert(t: Table, e: Entry): Table {
    var k := Index(t.rows, e.0);
    if k == |t.rows| then
      Table(t.rows + [ListedRow(t.nextUuid, e)], t.nextUuid + 1)
    else
      t.(rows := UpdateMeta(t.rows, t.rows[k].id, e.1))
  }

  function UpsertAll(t: Table, es: seq<Entry>): Table {
    if es == [] then t else Upsert(UpsertAll(t, es[..|es| - 1]), es[|es| - 1])
  }

  lemma UpsertNext(t: Table, before: seq<Entry>, repos: seq<Entry>, j: nat)
    requires j < |repos|
    ensures UpsertAll(t, before + repos[..j + 1]) == Upsert(UpsertAll(t, before + repos[..j]), repos[j])
  {
    var es := before + repos[..j + 1];
    assert es[..|es| - 1] == before + repos[..j] && es[|es| - 1] == repos[j];
  }

  /** All listed repositories, account by account. */
  function Entries(accounts: seq<Extra>): seq<Entry> {
    if accounts == [] then []
    else
      var last := accounts[|accounts| - 1];
      Entries(accounts[..|accounts| - 1]) + if last.repos.Some? then last.repos.value else []
  }

  lemma EntriesNext(accounts: seq<Extra>, i: nat)
    requires i < |accounts|
    ensures accounts[i].repos.None? ==> Entries(accounts[..i + 1]) == Entries(accounts[..i])
    ensures accounts[i].repos.Some? ==>
      Entries(accounts[..i + 1]) == Entries(accounts[..i]) + accounts[i].repos.value
  {
    assert accounts[..i + 1][..i] == accounts[..i];
  }

  /** The account b as the first pass leaves it: without a listing it is untouched; otherwise the time of the sync is
      all that is left. */
  predicate Stripped(b: Extra, a: Extra) {
    if b.repos.None? then a == b else a.repos.None? && a.lastSync == b.lastSync && a.rest == map[]
  }

  /** The accounts when the first n have been migrated. */
  predicate StrippedTo(before: seq<Extra>, after: seq<Extra>, n: nat) {
    && |after| == |before|
    && (forall k :: 0 <= k < |before| && k < n ==> Stripped(before[k], after[k]))
    && (forall k :: n <= k < |before| ==> after[k] == before[k])
  }

  lemma StrippedNext(before: seq<Extra>, after: seq<Extra>, i: nat, a: Extra)
    requires i < |before| && StrippedTo(before, after, i) && Stripped(before[i], a)
    ensures StrippedTo(before, after[i := a], i + 1)
    ensures a == before[i] ==> StrippedTo(before, after, i + 1)
  {
    assert a == before[i] ==> after[i := a] == after;
  }

  /** `str(github_id)`. */
  function Key(o: OldRepo): string {
    if o.githubId.Some? then o.githubId.value else "None"
  }

  /** `str(hook)` of an integer column. */
  function StrHook(h: Option<nat>): HookText {
    if h.Some? then Digits(h.value) else Other("None")
  }

  /** A row that already exists takes over the old row's primary key, hook and user. */
  function Adopted(row: Row, o: OldRepo): Row {
    Row(o.id, row.repo.(hook := Some(StrHook(o.hook)), enabledBy := o.userId))
  }

  /** The second pass's update of the rows with primary key id. */
  function UpdateOld(rows: seq<Row>, id: nat, o: OldRepo): (out: seq<Row>)
    ensures |out| == |rows|
    ensures forall j :: 0 <= j < |rows| ==> out[j] == if rows[j].id == id then Adopted(rows[j], o) else rows[j]
  {
    seq(|rows|, j requires 0 <= j < |rows| => if rows[j].id == id then Adopted(rows[j], o) else rows[j])
  }

  /** One old row of the second pass. */
  function Adopt(t: Table, o: OldRepo): Table {
    var k := Index(t.rows, Key(o));
    if k == |t.rows| then
      t.(rows := t.rows + [Row(o.id, Repo(GITHUB, Key(o), o.name, "main", None,
                                          if o.hook.Some? then Some(Digits(o.hook.value)) else None, o.userId, None))])
    else
      t.(rows := UpdateOld(t.rows, t.rows[k].id, o))
  }

  function AdoptAll(t: Table, os: seq<OldRepo>): Table {
    if os == [] then t else Adopt(AdoptAll(t, os[..|os| - 1]), os[|os| - 1])
  }

  class MigrationDb {
    var accounts: seq<Extra>
    var oldRepos: seq<OldRepo>
    var rows: seq<Row>
    var nextUuid: nat

    ghost function NewTable(): Table
      reads this
    {
      Table(rows, nextUuid)
    }

    /** run_upgrade_for_oauthclient_repositories. A missing `last_sync` is a KeyError: nothing is committed. */
    method MigrateListings() returns (ok: bool)
      modifies this`accounts, this`rows, this`nextUuid
      ensures ok <==> forall i :: 0 <= i < |old(accounts)| && old(accounts)[i].repos.Some? ==>
        old(accounts)[i].lastSync.Some?
      ensures ok ==> NewTable() == UpsertAll(old(NewTable()), Entries(old(accounts)))
      ensures ok ==> StrippedTo(old(accounts), accounts, |accounts|)
      ensures !ok ==> NewTable() == old(NewTable()) && accounts == old(accounts)
    {
      var savedRows, savedUuid, savedAccounts := rows, nextUuid, accounts;
      for i := 0 to |savedAccounts|
        invariant StrippedTo(savedAccounts, accounts, i)
        invariant NewTable() == UpsertAll(old(NewTable()), Entries(savedAccounts[..i]))
        invariant forall k :: 0 <= k < i && savedAccounts[k].repos.Some? ==> savedAccounts[k].lastSync.Some?
      {
        var a := savedAccounts[i];
        EntriesNext(savedAccounts, i);
        if a.repos.None? {
          StrippedNext(savedAccounts, accounts, i, a);
          continue;
        }
        MigrateOne(a.repos.value, Entries(savedAccounts[..i]), old(NewTable()));
        if a.lastSync.None? {
          rows, nextUuid, accounts := savedRows, savedUuid, savedAccounts;
          return false;
        }
        StrippedNext(savedAccounts, accounts, i, Extra(None, a.lastSync, map[]));
        accounts := accounts[i := Extra(None, a.lastSync, map[])];
      }
      assert savedAccounts[..|savedAccounts|] == savedAccounts;
      return true;
    }

    /** The inner loop over one account's listing. */
    method MigrateOne(repos: seq<Entry>, ghost before: seq<Entry>, ghost start: Table)
      requires NewTable() == UpsertAll(start, before)
      modifies this`rows, this`nextUuid
      ensures NewTable() == UpsertAll(start, before + repos)
    {
      assert before + repos[..0] == before;
      for j := 0 to |repos|
        invariant NewTable() == UpsertAll(start, before + repos[..j])
      {
        UpsertNext(start, before, repos, j);
        UpsertOne(repos[j]);
      }
      assert repos[..|repos|] == repos;
    }

    /** The body of that loop: insert a row for a repository that has none, refresh the row of one that has. */
    method UpsertOne(e: Entry)
      modifies this`rows, this`nextUuid
      ensures NewTable() == Upsert(old(NewTable()), e)
    {
      var k := Index(rows, e.0);
      if k == |rows| {
        rows := rows + [ListedRow(nextUuid, e)];
        nextUuid := nextUuid + 1;
      } else {
        rows := UpdateMeta(rows, rows[k].id, e.1);
      }
    }

    /** run_upgrade_for_existing_db_repositories. */
    method MigrateOldRows()
      modifies this`rows
      ensures NewTable() == AdoptAll(old(NewTable()), oldRepos)
    {
      for i := 0 to |oldRepos|
        invariant NewTable() == AdoptAll(old(NewTable()), oldRepos[..i])
      {
        var o := oldRepos[i];
        assert oldRepos[..i + 1][..i] == oldRepos[..i];
        var k := Index(rows, Key(o));
        if k == |rows| {
          rows := rows + [Row(o.id, Repo(GITHUB, Key(o), o.name, "main", None,
                                         if o.hook.Some? then Some(Digits(o.hook.value)) else None, o.userId, None))];
        } else {
          rows := UpdateOld(rows, rows[k].id, o);
        }
      }
      assert oldRepos[..|oldRepos|] == oldRepos;
    }
  }
}
