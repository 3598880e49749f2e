/** What the two migration passes establish, and where null columns of the old table lead. */
module MigrationProofs {
  import opened Domain
  import opened Migration

  ghost predicate DistinctProviderIds(rows: seq<Row>) {
    forall i, j :: 0 <= i < j < |rows| ==> rows[i].repo.providerId != rows[j].repo.providerId
  }

  ghost predicate UniqueIds(rows: seq<Row>) {
    forall i, j :: 0 <= i < j < |rows| ==> rows[i].id != rows[j].id
  }

  ghost predicate Present(rows: seq<Row>, key: string) {
    exists i :: 0 <= i < |rows| && rows[i].repo.providerId == key
  }

  ghost predicate TableOk(t: Table) {
    DistinctProviderIds(t.rows) && UniqueIds(t.rows) && forall i :: 0 <= i < |t.rows| ==> t.rows[i].id < t.nextUuid
  }

  /** The metadata of the last listing that contains the key. */
  function LastMeta(es: seq<Entry>, key: string): Option<Meta> {
    if es == [] then None
    else if es[|es| - 1].0 == key then Some(es[|es| - 1].1)
    else LastMeta(es[..|es| - 1], key)
  }

  lemma {:induction false} LastMetaSplit(a: seq<Entry>, b: seq<Entry>, key: string)
    ensures LastMeta(a + b, key) == if LastMeta(b, key).Some? then LastMeta(b, key) else LastMeta(a, key)
  {
    if b == [] {
      assert a + b == a;
    } else {
      LastMetaSplit(a, b[..|b| - 1], key);
      assert (a + b)[..|a + b| - 1] == a + b[..|b| - 1];
    }
  }

  /** The entries end with an entry for the key that carries m, apart from entries for other keys. */
  ghost predicate EndsWith(es: seq<Entry>, key: string, m: Meta) {
    exists j :: 0 <= j < |es| && es[j] == (key, m) && forall k :: j < k < |es| ==> es[k].0 != key
  }

  lemma {:induction false} LastMetaEnds(es: seq<Entry>, key: string, m: Meta)
    ensures LastMeta(es, key) == Some(m) <==> EndsWith(es, key, m)
    ensures LastMeta(es, key).None? <==> forall k :: 0 <= k < |es| ==> es[k].0 != key
  {
    if es != [] && es[|es| - 1].0 != key {
      var rest := es[..|es| - 1];
      LastMetaEnds(rest, key, m);
      if EndsWith(rest, key, m) {
        var j :| 0 <= j < |rest| && rest[j] == (key, m) && forall k :: j < k < |rest| ==> rest[k].0 != key;
        assert es[j] == (key, m);
      }
      if EndsWith(es, key, m) {
        var j :| 0 <= j < |es| && es[j] == (key, m) && forall k :: j < k < |es| ==> es[k].0 != key;
        assert rest[j] == (key, m);
      }
      assert forall k :: 0 <= k < |rest| ==> rest[k] == es[k];
    } else if es != [] && es[|es| - 1].1 == m {
      assert es[|es| - 1] == (key, m);
    }
  }

  ghost predicate NotListed(a: Extra, key: string) {
    a.repos.Some? ==> forall k :: 0 <= k < |a.repos.value| ==> a.repos.value[k].0 != key
  }

  /** Account i lists the key, and none after it does; the last entry for the key in its listing carries m. */
  ghost predicate ListsLast(accounts: seq<Extra>, i: nat, key: string, m: Meta) {
    && i < |accounts| && accounts[i].repos.Some? && EndsWith(accounts[i].repos.value, key, m)
    && forall k :: i < k < |accounts| ==> NotListed(accounts[k], key)
  }

  /** Of several accounts that list a repository, the last one decides its metadata. */
  lemma {:induction false} LastAccountDecides(accounts: seq<Extra>, key: string, m: Meta)
    ensures LastMeta(Entries(accounts), key) == Some(m) <==> exists i :: ListsLast(accounts, i, key, m)
  {
    if accounts != [] {
      var rest, last := accounts[..|accounts| - 1], accounts[|accounts| - 1];
      LastAccountDecides(rest, key, m);
      var es := if last.repos.Some? then last.repos.value else [];
      LastMetaSplit(Entries(rest), es, key);
      LastMetaEnds(es, key, m);
      assert NotListed(last, key) <==> LastMeta(es, key).None?;
      assert ListsLast(accounts, |accounts| - 1, key, m) <==> EndsWith(es, key, m);
      if LastMeta(es, key).None? {
        forall i: nat | i < |rest|
          ensures ListsLast(accounts, i, key, m) <==> ListsLast(rest, i, key, m)
        {
          assert forall k :: i < k < |accounts| ==> accounts[k] == if k < |rest| then rest[k] else last;
        }
      }
    }
  }

  /** The row's metadata columns are those of m. */
  predicate ShowsMeta(row: Row, m: Meta) {
    && row.repo.fullName == m.fullName && row.repo.defaultBranch == m.defaultBranch
    && row.repo.description == m.description
  }

  /** The rows agree on every other column. */
  predicate SameButMeta(a: Row, b: Row) {
    && a.id == b.id && a.repo.provider == b.repo.provider && a.repo.providerId == b.repo.providerId
    && a.repo.hook == b.repo.hook && a.repo.enabledBy == b.repo.enabledBy && a.repo.community == b.repo.community
  }

  // ---------- first pass ----------

  /** The first pass, by row: what was there keeps its id, hook and users and shows the last listing's metadata;
      what was added is listed, was not there, and carries a generated id and no hook. */
  ghost predicate Upserted(t: Table, es: seq<Entry>, out: Table) {
    && TableOk(out) && |t.rows| <= |out.rows| && t.nextUuid <= out.nextUuid
    && (forall i :: 0 <= i < |t.rows| ==>
          var m := LastMeta(es, t.rows[i].repo.providerId);
          if m.Some? then SameButMeta(out.rows[i], t.rows[i]) && ShowsMeta(out.rows[i], m.value)
          else out.rows[i] == t.rows[i])
    && (forall i :: |t.rows| <= i < |out.rows| ==> AddedRow(t, es, out.rows[i]))
    && (forall key :: LastMeta(es, key).Some? ==> Present(out.rows, key))
  }

  ghost predicate AddedRow(t: Table, es: seq<Entry>, row: Row) {
    && t.nextUuid <= row.id && !Present(t.rows, row.repo.providerId)
    && row.repo.provider == "github" && row.repo.hook.None? && row.repo.enabledBy.None? && row.repo.community.None?
    && LastMeta(es, row.repo.providerId).Some? && ShowsMeta(row, LastMeta(es, row.repo.providerId).value)
  }

  lemma SameKeys(a: seq<Row>, b: seq<Row>, key: string)
    requires |a| <= |b| && forall j :: 0 <= j < |a| ==> a[j].repo.providerId == b[j].repo.providerId
    ensures Present(a, key) ==> Present(b, key)
    ensures |a| == |b| ==> (Present(a, key) <==> Present(b, key))
  {
    if i :| 0 <= i < |a| && a[i].repo.providerId == key {
      assert b[i].repo.providerId == key;
    }
    if i :| 0 <= i < |b| && b[i].repo.providerId == key {
      assert |a| == |b| ==> a[i].repo.providerId == key;
    }
  }

  /** Refreshing an existing row touches that row's metadata only. */
  lemma UpsertOverRows(mid: Table, e: Entry, k: nat)
    requires TableOk(mid) && k == Index(mid.rows, e.0) < |mid.rows|
    ensures var out := Upsert(mid, e);
      && TableOk(out) && |out.rows| == |mid.rows| && out.nextUuid == mid.nextUuid
      && forall j :: 0 <= j < |mid.rows| ==>
           && (mid.rows[j].repo.providerId == e.0 <==> j == k)
           && if j == k then SameButMeta(out.rows[j], mid.rows[j]) && ShowsMeta(out.rows[j], e.1)
              else out.rows[j] == mid.rows[j]
  {
  }

  lemma UpsertOver(t: Table, es: seq<Entry>, e: Entry, mid: Table, k: nat)
    requires Upserted(t, es, mid) && k == Index(mid.rows, e.0) < |mid.rows|
    ensures Upserted(t, es + [e], Upsert(mid, e))
  {
    var out := Upsert(mid, e);
    assert (es + [e])[..|es|] == es;
    UpsertOverRows(mid, e, k);
    forall i | |t.rows| <= i < |out.rows|
      ensures AddedRow(t, es + [e], out.rows[i])
    {
      assert AddedRow(t, es, mid.rows[i]);
    }
    assert Present(mid.rows, e.0);
    forall key | LastMeta(es + [e], key).Some?
      ensures Present(out.rows, key)
    {
      SameKeys(mid.rows, out.rows, key);
    }
  }

  lemma UpsertNew(t: Table, es: seq<Entry>, e: Entry, mid: Table)
    requires Upserted(t, es, mid) && Index(mid.rows, e.0) == |mid.rows|
    ensures Upserted(t, es + [e], Upsert(mid, e))
  {
    var out := Upsert(mid, e);
    assert (es + [e])[..|es|] == es;
    NotBefore(t, es, mid, e.0);
    forall i | |t.rows| <= i < |out.rows|
      ensures AddedRow(t, es + [e], out.rows[i])
    {
      if i < |mid.rows| {
        assert AddedRow(t, es, mid.rows[i]);
      }
    }
    assert out.rows[|mid.rows|].repo.providerId == e.0;
    forall key | LastMeta(es + [e], key).Some?
      ensures Present(out.rows, key)
    {
      SameKeys(mid.rows, out.rows, key);
    }
  }

  /** A key that the table does not have was not in the table it started from. */
  lemma NotBefore(t: Table, es: seq<Entry>, mid: Table, key: string)
    requires Upserted(t, es, mid) && Index(mid.rows, key) == |mid.rows|
    ensures !Present(t.rows, key)
  {
    forall i | 0 <= i < |t.rows|
      ensures t.rows[i].repo.providerId != key
    {
      assert mid.rows[i].repo.providerId != key;
    }
  }

  lemma {:induction false} ListingsMigrated(t: Table, es: seq<Entry>)
    requires TableOk(t)
    ensures Upserted(t, es, UpsertAll(t, es))
  {
    if es != [] {
      ListingsMigrated(t, es[..|es| - 1]);
      assert es[..|es| - 1] + [es[|es| - 1]] == es;
      var mid := UpsertAll(t, es[..|es| - 1]);
      var k := Index(mid.rows, es[|es| - 1].0);
      if k < |mid.rows| {
        UpsertOver(t, es[..|es| - 1], es[|es| - 1], mid, k);
      } else {
        UpsertNew(t, es[..|es| - 1], es[|es| - 1], mid);
      }
    }
  }

  /** The provider ids afterwards are those before and those listed. */
  lemma ListingsKeys(t: Table, es: seq<Entry>, key: string)
    requires TableOk(t)
    ensures Present(UpsertAll(t, es).rows, key) <==> Present(t.rows, key) || LastMeta(es, key).Some?
  {
    ListingsMigrated(t, es);
    var out := UpsertAll(t, es);
    if i :| 0 <= i < |t.rows| && t.rows[i].repo.providerId == key {
      assert out.rows[i].repo.providerId == key;
    }
    if i :| 0 <= i < |out.rows| && out.rows[i].repo.providerId == key {
      if i < |t.rows| {
        assert t.rows[i].repo.providerId == key;
      } else {
        assert AddedRow(t, es, out.rows[i]);
      }
    }
  }

  lemma AddedAt(t: Table, es: seq<Entry>, out: Table, i: nat)
    requires Upserted(t, es, out) && |t.rows| <= i < |out.rows|
    ensures AddedRow(t, es, out.rows[i])
  {
  }

  /** Going over the same listings again changes nothing. */
  lemma ListingsAgain(t: Table, es: seq<Entry>)
    requires TableOk(t)
    ensures UpsertAll(UpsertAll(t, es), es) == UpsertAll(t, es)
  {
    var once := UpsertAll(t, es);
    var twice := UpsertAll(once, es);
    ListingsMigrated(t, es);
    ListingsMigrated(once, es);
    if |twice.rows| > |once.rows| {
      AddedAt(once, es, twice, |once.rows|);
      assert false;
    }
    forall i | 0 <= i < |once.rows|
      ensures twice.rows[i] == once.rows[i]
    {
      if i >= |t.rows| {
        assert AddedRow(t, es, once.rows[i]);
      }
    }
    assert twice.rows == once.rows;
    NoNewUuids(once, es);
  }

  /** A uuid is generated for an added row only. */
  lemma {:induction false} NoNewUuids(t: Table, es: seq<Entry>)
    ensures |t.rows| <= |UpsertAll(t, es).rows|
    ensures UpsertAll(t, es).nextUuid - t.nextUuid == |UpsertAll(t, es).rows| - |t.rows|
  {
    if es != [] {
      NoNewUuids(t, es[..|es| - 1]);
    }
  }

  // ---------- second pass ----------

  /** The last old row whose github id reads as this key. */
  function LastOld(os: seq<OldRepo>, key: string): Option<OldRepo> {
    if os == [] then None
    else if Key(os[|os| - 1]) == key then Some(os[|os| - 1])
    else LastOld(os[..|os| - 1], key)
  }

  /** What the second pass leaves in the hook column for this key. A null column of an old row stays null only
      when that row was inserted; written over an existing row, it becomes the text "None". */
  ghost function HookOf(t: Table, os: seq<OldRepo>, key: string): Option<HookText> {
    if os == [] then None
    else
      var o, rest := os[|os| - 1], os[..|os| - 1];
      if Key(o) != key then HookOf(t, rest, key)
      else if o.hook.Some? then Some(Digits(o.hook.value))
      else if Present(t.rows, key) || LastOld(rest, key).Some? then Some(Other("None"))
      else None
  }

  ghost predicate Adopts(t: Table, os: seq<OldRepo>, out: Table) {
    && DistinctProviderIds(out.rows)
    && AllAdopted(t, os, out.rows)
    && (forall key :: Present(out.rows, key) <==> Present(t.rows, key) || LastOld(os, key).Some?)
  }

  ghost predicate AllAdopted(t: Table, os: seq<OldRepo>, rows: seq<Row>) {
    forall i :: 0 <= i < |rows| ==> RowAdopted(t, os, rows[i]) && MetadataKept(t, os, rows[i])
  }

  ghost predicate RowAdopted(t: Table, os: seq<OldRepo>, row: Row) {
    var o := LastOld(os, row.repo.providerId);
    if o.None? then row in t.rows
    else
      && row.id == o.value.id && row.repo.enabledBy == o.value.userId
      && row.repo.hook == HookOf(t, os, row.repo.providerId)
  }

  predicate SameButHook(a: Repo, b: Repo) {
    a == b.(hook := a.hook, enabledBy := a.enabledBy)
  }

  /** A row that was in the table keeps everything but id, hook and user; an inserted row has an old row's name and
      the defaults. */
  ghost predicate MetadataKept(t: Table, os: seq<OldRepo>, row: Row) {
    if Present(t.rows, row.repo.providerId) then
      exists j :: 0 <= j < |t.rows| && SameButHook(row.repo, t.rows[j].repo)
    else
      && row.repo.provider == "github" && row.repo.defaultBranch == "main"
      && row.repo.description.None? && row.repo.community.None?
      && exists j :: 0 <= j < |os| && Key(os[j]) == row.repo.providerId && os[j].name == row.repo.fullName
  }

  lemma MetadataKeptMore(t: Table, os: seq<OldRepo>, o: OldRepo, row: Row)
    requires MetadataKept(t, os, row)
    ensures MetadataKept(t, os + [o], row) && MetadataKept(t, os + [o], Adopted(row, o))
  {
    if !Present(t.rows, row.repo.providerId) {
      var j :| 0 <= j < |os| && Key(os[j]) == row.repo.providerId && os[j].name == row.repo.fullName;
      assert (os + [o])[j] == os[j];
    }
  }

  /** Old ids are distinct and none of them is in the new table yet. */
  ghost predicate OldOk(t: Table, os: seq<OldRepo>) {
    && DistinctProviderIds(t.rows) && UniqueIds(t.rows)
    && (forall i, j :: 0 <= i < j < |os| ==> os[i].id != os[j].id)
    && (forall i, j :: 0 <= i < |t.rows| && 0 <= j < |os| ==> t.rows[i].id != os[j].id)
  }

  lemma {:induction false} LastOldIn(os: seq<OldRepo>, key: string)
    ensures LastOld(os, key).Some? ==> LastOld(os, key).value in os && Key(LastOld(os, key).value) == key
    ensures LastOld(os, key).None? ==> forall i :: 0 <= i < |os| ==> Key(os[i]) != key
  {
    if os != [] && Key(os[|os| - 1]) != key {
      LastOldIn(os[..|os| - 1], key);
    }
  }

  lemma OtherId(t: Table, os: seq<OldRepo>, a: Row, b: Row)
    requires OldOk(t, os) && RowAdopted(t, os, a) && RowAdopted(t, os, b) && a.repo.providerId != b.repo.providerId
    ensures a.id != b.id
  {
    LastOldIn(os, a.repo.providerId);
    LastOldIn(os, b.repo.providerId);
  }

  /** Primary keys stay distinct throughout the second pass. */
  lemma AdoptedIds(t: Table, os: seq<OldRepo>, out: Table)
    requires OldOk(t, os) && Adopts(t, os, out)
    ensures UniqueIds(out.rows)
  {
    forall i, j | 0 <= i < j < |out.rows|
      ensures out.rows[i].id != out.rows[j].id
    {
      OtherId(t, os, out.rows[i], out.rows[j]);
    }
  }

  lemma AdoptStep(t: Table, os: seq<OldRepo>, o: OldRepo, mid: Table)
    requires OldOk(t, os + [o]) && Adopts(t, os, mid)
    ensures Adopts(t, os + [o], Adopt(mid, o))
  {
    assert (os + [o])[..|os|] == os;
    assert OldOk(t, os) by {
      assert forall i :: 0 <= i < |os| ==> (os + [o])[i] == os[i];
    }
    AdoptedIds(t, os, mid);
    var out, k := Adopt(mid, o), Index(mid.rows, Key(o));
    if k < |mid.rows| {
      AdoptOver(t, os, o, mid, k);
    } else {
      AdoptNew(t, os, o, mid);
    }
  }

  /** Writing an old row over an existing one touches that row only. */
  lemma AdoptOverRows(mid: Table, o: OldRepo, k: nat)
    requires DistinctProviderIds(mid.rows) && UniqueIds(mid.rows) && k == Index(mid.rows, Key(o)) < |mid.rows|
    ensures var out := Adopt(mid, o);
      && DistinctProviderIds(out.rows) && |out.rows| == |mid.rows|
      && forall j :: 0 <= j < |mid.rows| ==>
           && (mid.rows[j].repo.providerId == Key(o) <==> j == k)
           && out.rows[j] == if j == k then Adopted(mid.rows[j], o) else mid.rows[j]
  {
  }

  lemma AdoptedRow(t: Table, os: seq<OldRepo>, o: OldRepo, row: Row)
    requires RowAdopted(t, os, row) && MetadataKept(t, os, row)
    requires row.repo.providerId == Key(o) ==> Present(t.rows, Key(o)) || LastOld(os, Key(o)).Some?
    ensures var now := if row.repo.providerId == Key(o) then Adopted(row, o) else row;
      RowAdopted(t, os + [o], now) && MetadataKept(t, os + [o], now)
  {
    assert (os + [o])[..|os|] == os;
    MetadataKeptMore(t, os, o, row);
  }

  lemma AdoptOver(t: Table, os: seq<OldRepo>, o: OldRepo, mid: Table, k: nat)
    requires Adopts(t, os, mid) && UniqueIds(mid.rows) && k == Index(mid.rows, Key(o)) < |mid.rows|
    ensures Adopts(t, os + [o], Adopt(mid, o))
  {
    var out := Adopt(mid, o);
    AdoptOverRows(mid, o, k);
    assert Present(mid.rows, Key(o));
    forall i | 0 <= i < |out.rows|
      ensures RowAdopted(t, os + [o], out.rows[i]) && MetadataKept(t, os + [o], out.rows[i])
    {
      AdoptedRow(t, os, o, mid.rows[i]);
    }
    assert (os + [o])[..|os|] == os;
    forall key
      ensures Present(out.rows, key) <==> Present(t.rows, key) || LastOld(os + [o], key).Some?
    {
      SameKeys(mid.rows, out.rows, key);
    }
  }

  /** An inserted row adds its key. */
  lemma InsertedKey(rows: seq<Row>, row: Row, key: string)
    ensures Present(rows + [row], key) <==> Present(rows, key) || key == row.repo.providerId
  {
    SameKeys(rows, rows + [row], key);
    assert (rows + [row])[|rows|] == row;
    if i :| 0 <= i < |rows + [row]| && (rows + [row])[i].repo.providerId == key {
      assert i < |rows| ==> rows[i].repo.providerId == key;
    }
  }

  lemma InsertedRow(t: Table, os: seq<OldRepo>, o: OldRepo, row: Row)
    requires !Present(t.rows, Key(o)) && LastOld(os, Key(o)).None?
    requires row == Row(o.id, Repo(GITHUB, Key(o), o.name, "main", None,
                                   if o.hook.Some? then Some(Digits(o.hook.value)) else None, o.userId, None))
    ensures RowAdopted(t, os + [o], row) && MetadataKept(t, os + [o], row)
  {
    assert (os + [o])[..|os|] == os && (os + [o])[|os|] == o;
  }

  lemma KeptRows(t: Table, os: seq<OldRepo>, o: OldRepo, rows: seq<Row>)
    requires AllAdopted(t, os, rows) && !Present(rows, Key(o))
    ensures AllAdopted(t, os + [o], rows)
  {
    forall i | 0 <= i < |rows|
      ensures RowAdopted(t, os + [o], rows[i]) && MetadataKept(t, os + [o], rows[i])
    {
      assert rows[i].repo.providerId != Key(o);
      AdoptedRow(t, os, o, rows[i]);
    }
  }

  lemma AdoptNew(t: Table, os: seq<OldRepo>, o: OldRepo, mid: Table)
    requires Adopts(t, os, mid) && Index(mid.rows, Key(o)) == |mid.rows|
    ensures Adopts(t, os + [o], Adopt(mid, o))
  {
    var out := Adopt(mid, o);
    var row := out.rows[|mid.rows|];
    assert !Present(mid.rows, Key(o));
    KeptRows(t, os, o, mid.rows);
    InsertedRow(t, os, o, row);
    forall key
      ensures Present(out.rows, key) <==> Present(t.rows, key) || LastOld(os + [o], key).Some?
    {
      InsertedKey(mid.rows, row, key);
      LastOldNext(os, o, key);
    }
  }

  lemma LastOldNext(os: seq<OldRepo>, o: OldRepo, key: string)
    ensures LastOld(os + [o], key) == if Key(o) == key then Some(o) else LastOld(os, key)
  {
    assert (os + [o])[..|os|] == os;
  }

  lemma {:induction false} OldRowsMigrated(t: Table, os: seq<OldRepo>)
    requires OldOk(t, os)
    ensures Adopts(t, os, AdoptAll(t, os))
  {
    if os != [] {
      var rest, o := os[..|os| - 1], os[|os| - 1];
      assert rest + [o] == os;
      OldRowsMigrated(t, rest);
      AdoptStep(t, rest, o, AdoptAll(t, rest));
    } else {
      forall i | 0 <= i < |t.rows|
        ensures RowAdopted(t, os, t.rows[i]) && MetadataKept(t, os, t.rows[i])
      {
        assert t.rows[i] in t.rows;
      }
    }
  }

  /** The row of the new table that carries primary key id. */
  ghost predicate HasId(rows: seq<Row>, id: nat) {
    exists k :: 0 <= k < |rows| && rows[k].id == id
  }

  lemma LastSurvives(t: Table, os: seq<OldRepo>, key: string)
    requires OldOk(t, os) && LastOld(os, key).Some?
    ensures HasId(AdoptAll(t, os).rows, LastOld(os, key).value.id)
  {
    OldRowsMigrated(t, os);
    var rows := AdoptAll(t, os).rows;
    assert Present(rows, key);
    var k :| 0 <= k < |rows| && rows[k].repo.providerId == key;
    assert RowAdopted(t, os, rows[k]);
  }

  lemma SurvivorIsLast(t: Table, os: seq<OldRepo>, i: nat, k: nat)
    requires OldOk(t, os) && i < |os| && k < |AdoptAll(t, os).rows| && AdoptAll(t, os).rows[k].id == os[i].id
    ensures LastOld(os, Key(os[i])) == Some(os[i])
  {
    OldRowsMigrated(t, os);
    var row := AdoptAll(t, os).rows[k];
    assert RowAdopted(t, os, row);
    LastOldIn(os, row.repo.providerId);
    assert forall j :: 0 <= j < |t.rows| ==> t.rows[j].id != os[i].id;
    var j :| 0 <= j < |os| && os[j] == LastOld(os, row.repo.providerId).value;
  }

  /** An old primary key survives the second pass exactly when no later old row has the same github id; two null
      github ids count as the same, because both are written as "None". */
  lemma OldIdSurvives(t: Table, os: seq<OldRepo>, i: nat)
    requires OldOk(t, os) && i < |os|
    ensures HasId(AdoptAll(t, os).rows, os[i].id) <==> LastOld(os, Key(os[i])) == Some(os[i])
  {
    var rows := AdoptAll(t, os).rows;
    if LastOld(os, Key(os[i])) == Some(os[i]) {
      LastSurvives(t, os, Key(os[i]));
    }
    if k :| 0 <= k < |rows| && rows[k].id == os[i].id {
      SurvivorIsLast(t, os, i, k);
    }
  }

  ghost predicate DistinctGithubIds(os: seq<OldRepo>) {
    forall i, j :: 0 <= i < j < |os| ==> Key(os[i]) != Key(os[j])
  }

  lemma {:induction false} LastOldDistinct(t: Table, os: seq<OldRepo>, i: nat)
    requires DistinctGithubIds(os) && i < |os|
    ensures LastOld(os, Key(os[i])) == Some(os[i])
    ensures HookOf(t, os, Key(os[i])) ==
      if os[i].hook.Some? then Some(Digits(os[i].hook.value))
      else if Present(t.rows, Key(os[i])) then Some(Other("None")) else None
  {
    var rest := os[..|os| - 1];
    if i < |os| - 1 {
      LastOldDistinct(t, rest, i);
    } else {
      LastOldIn(rest, Key(os[i]));
    }
  }

  /** The hypotheses of the whole migration: distinct old ids that uuid4 generates for no other row, in a table
      with distinct ids and provider ids. */
  ghost predicate Migratable(t: Table, os: seq<OldRepo>) {
    && TableOk(t)
    && (forall i, j :: 0 <= i < j < |os| ==> os[i].id != os[j].id)
    && (forall j :: 0 <= j < |os| ==> os[j].id < t.nextUuid && !HasId(t.rows, os[j].id))
  }

  lemma ListingsKeepOldIdsFree(t: Table, es: seq<Entry>, os: seq<OldRepo>)
    requires Migratable(t, os)
    ensures OldOk(UpsertAll(t, es), os)
  {
    ListingsMigrated(t, es);
    var mid := UpsertAll(t, es);
    forall i, j | 0 <= i < |mid.rows| && 0 <= j < |os|
      ensures mid.rows[i].id != os[j].id
    {
      if i < |t.rows| {
        assert mid.rows[i].id == t.rows[i].id;
      } else {
        AddedAt(t, es, mid, i);
      }
    }
  }

  /** The second pass leaves the listings' metadata alone. */
  lemma AdoptedShows(t: Table, es: seq<Entry>, os: seq<OldRepo>, row: Row)
    requires TableOk(t) && MetadataKept(UpsertAll(t, es), os, row) && LastMeta(es, row.repo.providerId).Some?
    ensures ShowsMeta(row, LastMeta(es, row.repo.providerId).value)
  {
    var mid := UpsertAll(t, es);
    ListingsMigrated(t, es);
    ListingsKeys(t, es, row.repo.providerId);
    var j :| 0 <= j < |mid.rows| && SameButHook(row.repo, mid.rows[j].repo);
    if j >= |t.rows| {
      AddedAt(t, es, mid, j);
    }
  }

  /** The migration of repositories: with distinct github ids, every old primary key is the key of exactly one new
      row, the one with its github id, its user and its hook; keys and provider ids are unique; and every release
      reference to an old repository resolves. A disabled old repository comes out enabled, under a hook "None",
      exactly when its github id was listed by some account or already in the table. */
  lemma RepositoriesMigrated(t: Table, es: seq<Entry>, os: seq<OldRepo>, refs: set<nat>)
    requires Migratable(t, os) && DistinctGithubIds(os)
    requires forall x :: x in refs ==> exists i :: 0 <= i < |os| && os[i].id == x
    ensures var rows := AdoptAll(UpsertAll(t, es), os).rows;
      && DistinctProviderIds(rows) && UniqueIds(rows)
      && (forall i :: 0 <= i < |os| ==> exists k :: 0 <= k < |rows| && Matches(t, es, os[i], rows[k]))
      && (forall x :: x in refs ==> HasId(rows, x))
  {
    var mid := UpsertAll(t, es);
    ListingsKeepOldIdsFree(t, es, os);
    OldRowsMigrated(mid, os);
    AdoptedIds(mid, os, AdoptAll(mid, os));
    var rows := AdoptAll(mid, os).rows;
    forall i | 0 <= i < |os|
      ensures exists k :: 0 <= k < |rows| && Matches(t, es, os[i], rows[k])
    {
      LastOldDistinct(mid, os, i);
      ListingsKeys(t, es, Key(os[i]));
      assert Present(rows, Key(os[i]));
      var k :| 0 <= k < |rows| && rows[k].repo.providerId == Key(os[i]);
      assert RowAdopted(mid, os, rows[k]) && MetadataKept(mid, os, rows[k]);
      if LastMeta(es, Key(os[i])).Some? {
        AdoptedShows(t, es, os, rows[k]);
      }
      assert Matches(t, es, os[i], rows[k]);
    }
    forall x | x in refs
      ensures HasId(rows, x)
    {
      var i :| 0 <= i < |os| && os[i].id == x;
      OldIdSurvives(mid, os, i);
      LastOldDistinct(mid, os, i);
    }
  }

  /** The new row of an old repository; the metadata is the last listing's, where some account listed it. */
  ghost predicate Matches(t: Table, es: seq<Entry>, o: OldRepo, row: Row) {
    && (LastMeta(es, Key(o)).Some? ==> ShowsMeta(row, LastMeta(es, Key(o)).value))
    && row.repo.providerId == (if o.githubId.Some? then o.githubId.value else "None")
    && row.id == o.id && row.repo.enabledBy == o.userId
    && (o.hook.Some? ==> row.repo.hook == Some(Digits(o.hook.value)))
    && (o.hook.None? ==>
          (row.repo.Enabled() <==> Present(t.rows, Key(o)) || LastMeta(es, Key(o)).Some?)
          && (row.repo.Enabled() ==> row.repo.hook == Some(Other("None"))))
  }

  // ---------- well-formed rows ----------

  ghost predicate AllWellFormed(rows: seq<Row>) {
    forall i :: 0 <= i < |rows| ==> rows[i].repo.WellFormed()
  }

  lemma ListedWellFormed(t: Table, es: seq<Entry>)
    requires TableOk(t) && AllWellFormed(t.rows)
    ensures AllWellFormed(UpsertAll(t, es).rows)
  {
    ListingsMigrated(t, es);
    var out := UpsertAll(t, es);
    forall i | 0 <= i < |out.rows|
      ensures out.rows[i].repo.WellFormed()
    {
      if i < |t.rows| {
        assert t.rows[i].repo.WellFormed();
      } else {
        AddedAt(t, es, out, i);
      }
    }
  }

  /** A hook written over an existing row is never null, and none is empty. */
  lemma {:induction false} WrittenHook(mid: Table, os: seq<OldRepo>, key: string)
    ensures LastOld(os, key).Some? && Present(mid.rows, key) ==> HookOf(mid, os, key).Some?
    ensures HookOf(mid, os, key) != Some(Other(""))
  {
    if os != [] && Key(os[|os| - 1]) != key {
      WrittenHook(mid, os[..|os| - 1], key);
    }
  }

  lemma AdoptedWellFormed(mid: Table, os: seq<OldRepo>, row: Row)
    requires AllWellFormed(mid.rows) && LastOld(os, row.repo.providerId).Some?
    requires RowAdopted(mid, os, row) && MetadataKept(mid, os, row)
    ensures row.repo.WellFormed() <==>
      (HookOf(mid, os, row.repo.providerId).Some? <==> LastOld(os, row.repo.providerId).value.userId.Some?)
  {
    WrittenHook(mid, os, row.repo.providerId);
  }

  /** The i-th old row is the last one with its GitHub id, the one whose primary key survives. */
  predicate Survives(os: seq<OldRepo>, i: nat) {
    i < |os| && LastOld(os, Key(os[i])) == Some(os[i])
  }

  /** A hook ends up in the row of the i-th old row just if that has a user. */
  ghost predicate HookMatchesUser(mid: Table, os: seq<OldRepo>, i: nat)
    requires i < |os|
  {
    HookOf(mid, os, Key(os[i])).Some? <==> os[i].userId.Some?
  }

  lemma RowWellFormed(mid: Table, os: seq<OldRepo>, rows: seq<Row>, k: nat)
    requires Adopts(mid, os, Table(rows, mid.nextUuid)) && AllWellFormed(mid.rows) && k < |rows|
    requires forall i :: 0 <= i < |os| && Survives(os, i) ==> HookMatchesUser(mid, os, i)
    ensures rows[k].repo.WellFormed()
  {
    var key := rows[k].repo.providerId;
    assert RowAdopted(mid, os, rows[k]) && MetadataKept(mid, os, rows[k]);
    LastOldIn(os, key);
    if LastOld(os, key).Some? {
      var i :| 0 <= i < |os| && os[i] == LastOld(os, key).value;
      assert Survives(os, i) && HookMatchesUser(mid, os, i);
      AdoptedWellFormed(mid, os, rows[k]);
    }
  }

  lemma SurvivorMatches(mid: Table, os: seq<OldRepo>, rows: seq<Row>, i: nat)
    requires Adopts(mid, os, Table(rows, mid.nextUuid)) && AllWellFormed(mid.rows) && AllWellFormed(rows)
    requires Survives(os, i)
    ensures HookMatchesUser(mid, os, i)
  {
    assert Present(rows, Key(os[i]));
    var k :| 0 <= k < |rows| && rows[k].repo.providerId == Key(os[i]);
    assert RowAdopted(mid, os, rows[k]) && MetadataKept(mid, os, rows[k]) && rows[k].repo.WellFormed();
    AdoptedWellFormed(mid, os, rows[k]);
  }

  /** The migrated table is well-formed exactly when, for every old row whose primary key survives, the hook column ends
      up non-null just if the old row has a user. */
  lemma MigratedWellFormed(t: Table, es: seq<Entry>, os: seq<OldRepo>)
    requires Migratable(t, os) && AllWellFormed(t.rows)
    ensures AllWellFormed(AdoptAll(UpsertAll(t, es), os).rows) <==>
      forall i :: 0 <= i < |os| && Survives(os, i) ==> HookMatchesUser(UpsertAll(t, es), os, i)
  {
    var mid := UpsertAll(t, es);
    var rows := AdoptAll(mid, os).rows;
    ListedWellFormed(t, es);
    ListingsKeepOldIdsFree(t, es, os);
    OldRowsMigrated(mid, os);
    assert Adopts(mid, os, Table(rows, mid.nextUuid));
    if AllWellFormed(rows) {
      forall i | 0 <= i < |os| && Survives(os, i)
        ensures HookMatchesUser(mid, os, i)
      {
        SurvivorMatches(mid, os, rows, i);
      }
    }
    if forall i :: 0 <= i < |os| && Survives(os, i) ==> HookMatchesUser(mid, os, i) {
      forall k | 0 <= k < |rows|
        ensures rows[k].repo.WellFormed()
      {
        RowWellFormed(mid, os, rows, k);
      }
    }
  }

  /** The old row had a hook, or some account listed its repository, or the table had it already. */
  ghost predicate GetsHook(t: Table, es: seq<Entry>, o: OldRepo) {
    o.hook.Some? || Present(t.rows, Key(o)) || LastMeta(es, Key(o)).Some?
  }

  /** With distinct GitHub ids that can be told from the inputs: every old row has a user just if it gets a hook. */
  lemma MigratedWellFormedDistinct(t: Table, es: seq<Entry>, os: seq<OldRepo>)
    requires Migratable(t, os) && DistinctGithubIds(os) && AllWellFormed(t.rows)
    ensures AllWellFormed(AdoptAll(UpsertAll(t, es), os).rows) <==>
      forall i :: 0 <= i < |os| ==> (GetsHook(t, es, os[i]) <==> os[i].userId.Some?)
  {
    var mid := UpsertAll(t, es);
    MigratedWellFormed(t, es, os);
    forall i | 0 <= i < |os|
      ensures Survives(os, i) && (HookMatchesUser(mid, os, i) <==> (GetsHook(t, es, os[i]) <==> os[i].userId.Some?))
    {
      LastOldDistinct(mid, os, i);
      ListingsKeys(t, es, Key(os[i]));
    }
  }

  /** Whatever GitHub ids repeat or are null: provider ids and primary keys of the migrated table are distinct. */
  lemma MigratedKeys(t: Table, es: seq<Entry>, os: seq<OldRepo>)
    requires Migratable(t, os)
    ensures var rows := AdoptAll(UpsertAll(t, es), os).rows;
      DistinctProviderIds(rows) && UniqueIds(rows)
  {
    var mid := UpsertAll(t, es);
    ListingsKeepOldIdsFree(t, es, os);
    OldRowsMigrated(mid, os);
    AdoptedIds(mid, os, AdoptAll(mid, os));
  }

  /** The stripped accounts list nothing, so running the first pass again changes neither table nor accounts. */
  lemma {:induction false} StrippedListNothing(accounts: seq<Extra>)
    requires forall a :: a in accounts ==> a.repos.None?
    ensures Entries(accounts) == []
  {
    if accounts != [] {
      StrippedListNothing(accounts[..|accounts| - 1]);
    }
  }
}
