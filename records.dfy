/** The user collection: its record shape and every change the two services make to it,
    as pure functions on a table from `_id` to record, with the lemmas about them. */
module Records {

  type Id = string
  type Salt = string
  /** A timestamp, supplied by the caller (the source reads `new Date()`). */
  type Date = int

  datatype Option<T> = None | Some(value: T)

  datatype Result<T, E> = Success(value: T) | Failure(error: E)

  /** The `{ _id, email }` pair of the acting user, stamped into createdBy, deletedBy and updatefBy. */
  datatype Stamp = Stamp(id: Id, email: string)

  datatype Company = Company(id: string, name: string)

  /** One document of the user collection. Fields the source never writes stay `None`. */
  datatype User = User(
    id: Id,
    name: string,
    email: string,
    password: string,               // always a hash when written by seeding, register or create
    age: Option<int>,
    role: Option<string>,
    company: Option<Company>,
    createdBy: Option<Stamp>,
    createdDate: Option<Date>,
    deletedBy: Option<Stamp>,
    isDeleted: bool,
    updatefBy: Option<Stamp>,       // the field name the update operation writes, spelling included
    refreshToken: Option<string>)

  type Table = map<Id, User>

  /** Every record is stored under its own `_id`. */
  predicate WellKeyed(t: Table)
  {
    forall id :: id in t ==> t[id].id == id
  }

  /** Some record, deleted or not, has this email. */
  predicate EmailTaken(t: Table, email: string)
  {
    exists id :: id in t && t[id].email == email
  }

  /** At most one record has this email. */
  predicate UniqueEmail(t: Table, email: string)
  {
    forall a, b :: a in t && b in t && t[a].email == email && t[b].email == email ==> a == b
  }

  predicate EmailsUnique(t: Table)
  {
    forall a, b :: a in t && b in t && t[a].email == t[b].email ==> a == b
  }

  /** Some record currently stores exactly this refresh token. */
  predicate HoldsToken(t: Table, token: string)
  {
    exists id :: id in t && t[id].refreshToken == Some(token)
  }

  // ---------------------------------------------------------------------------
  // Seeding

  datatype Account = Account(name: string, email: string)

  /** The five accounts inserted into an empty collection at start-up. */
  const SEED_ACCOUNTS: seq<Account> := [
    Account("Eric", "admin@gmail.com"),
    Account("User", "user@gmail.com"),
    Account("User 1", "user1@gmail.com"),
    Account("User 2", "user2@gmail.com"),
    Account("User 3", "user3@gmail.com")
  ]

  predicate DistinctIds(ids: seq<Id>)
  {
    forall i, j :: 0 <= i < j < |ids| ==> ids[i] != ids[j]
  }

  /** Ids the store may hand to the seeded records: one per account, all different. */
  predicate SeedIds(ids: seq<Id>)
  {
    |ids| == |SEED_ACCOUNTS| && DistinctIds(ids)
  }

  function SeedRecord(id: Id, a: Account, hash: string): User
  {
    User(id, a.name, a.email, hash, None, None, None, None, None, None, false, None, None)
  }

  /** The table `insertMany` builds from the five accounts, every one sharing `hash`. */
  function SeedTable(ids: seq<Id>, hash: string): (r: Table)
    requires SeedIds(ids)
    ensures forall i :: 0 <= i < |ids| ==> ids[i] in r && r[ids[i]] == SeedRecord(ids[i], SEED_ACCOUNTS[i], hash)
    ensures forall id :: id in r ==> exists i :: 0 <= i < |ids| && ids[i] == id
  {
    map i | 0 <= i < |ids| :: ids[i] := SeedRecord(ids[i], SEED_ACCOUNTS[i], hash)
  }

  /** Start-up seeding: only an empty collection is filled. */
  function Seeded(t: Table, ids: seq<Id>, hash: string): Table
    requires SeedIds(ids)
  {
    if |t| == 0 then SeedTable(ids, hash) else t
  }

  lemma SeedTableKeys(ids: seq<Id>, hash: string)
    requires SeedIds(ids)
    ensures SeedTable(ids, hash).Keys == {ids[0], ids[1], ids[2], ids[3], ids[4]}
  {
    var r := SeedTable(ids, hash);
    forall id | id in r ensures id in {ids[0], ids[1], ids[2], ids[3], ids[4]} {
      var i :| 0 <= i < |ids| && ids[i] == id;
    }
  }

  /** No two of the five seed accounts share an email. */
  lemma SeedEmailsDistinct()
    ensures forall i, j :: 0 <= i < j < |SEED_ACCOUNTS| ==> SEED_ACCOUNTS[i].email != SEED_ACCOUNTS[j].email
  {
    var e := seq(5, i requires 0 <= i < 5 => SEED_ACCOUNTS[i].email);
    assert e[0][0] != e[1][0] && e[0][0] != e[2][0] && e[0][0] != e[3][0] && e[0][0] != e[4][0];
    assert |e[1]| != |e[2]| && |e[1]| != |e[3]| && |e[1]| != |e[4]|;
    assert e[2][4] != e[3][4] && e[2][4] != e[4][4] && e[3][4] != e[4][4];
  }

  lemma SeedTableSize(ids: seq<Id>, hash: string)
    requires SeedIds(ids)
    ensures |SeedTable(ids, hash)| == 5
  {
    SeedTableKeys(ids, hash);
    var keys := {ids[0]};
    assert ids[1] !in keys;
    keys := keys + {ids[1]};
    assert ids[2] !in keys;
    keys := keys + {ids[2]};
    assert ids[3] !in keys;
    keys := keys + {ids[3]};
    assert ids[4] !in keys;
    keys := keys + {ids[4]};
    assert |keys| == 5 && keys == SeedTable(ids, hash).Keys;
  }

  lemma SeedTableWellKeyed(ids: seq<Id>, hash: string)
    requires SeedIds(ids)
    ensures WellKeyed(SeedTable(ids, hash))
  {
    var r := SeedTable(ids, hash);
    forall id | id in r ensures r[id].id == id {
      var i :| 0 <= i < 5 && ids[i] == id;
    }
  }

  /** Seeding an empty table yields exactly the five accounts, all well-keyed, with one shared
      password hash, no role, no token, none deleted, and no two with the same email. */
  lemma SeedingCreatesFiveAccounts(ids: seq<Id>, hash: string)
    requires SeedIds(ids)
    ensures var r := SeedTable(ids, hash);
      |r| == 5 && WellKeyed(r) && EmailsUnique(r) &&
      (set id | id in r :: r[id].email) == (set a | a in SEED_ACCOUNTS :: a.email) &&
      forall id :: id in r ==>
        r[id].password == hash && r[id].role.None? && r[id].refreshToken.None? && !r[id].isDeleted
  {
    var r := SeedTable(ids, hash);
    SeedTableSize(ids, hash);
    SeedTableWellKeyed(ids, hash);
    SeedEmailsDistinct();
    forall a, b | a in r && b in r && r[a].email == r[b].email ensures a == b {
      var i :| 0 <= i < 5 && ids[i] == a;
      var j :| 0 <= j < 5 && ids[j] == b;
    }
    var found := set id | id in r :: r[id].email;
    forall e | e in found ensures e in (set a | a in SEED_ACCOUNTS :: a.email) {
      var id :| id in r && r[id].email == e;
      var i :| 0 <= i < 5 && ids[i] == id;
    }
    forall e | e in (set a | a in SEED_ACCOUNTS :: a.email) ensures e in found {
      var a :| a in SEED_ACCOUNTS && a.email == e;
      var i :| 0 <= i < 5 && SEED_ACCOUNTS[i] == a;
      assert r[ids[i]].email == e;
    }
  }

  /** Seeding is one-shot: a second run, whatever ids or hash it is given, changes nothing. */
  lemma SeedingRunsOnce(t: Table, ids: seq<Id>, hash: string, ids': seq<Id>, hash': string)
    requires SeedIds(ids) && SeedIds(ids')
    ensures Seeded(Seeded(t, ids, hash), ids', hash') == Seeded(t, ids, hash)
    ensures |t| != 0 ==> Seeded(t, ids, hash) == t
  {
    if |t| == 0 {
      assert ids[0] in SeedTable(ids, hash);
    }
  }

  // ---------------------------------------------------------------------------
  // Insertion (register, create), soft delete, patch update, token write

  /** Adding one new record under its own id; nothing else changes. */
  function Inserted(t: Table, u: User): (r: Table)
    requires u.id !in t
    ensures r.Keys == t.Keys + {u.id} && |r| == |t| + 1
    ensures r[u.id] == u
    ensures forall id :: id in t ==> r[id] == t[id]
  {
    t[u.id := u]
  }

  /** Registration and creation keep emails unique: they insert only when no record, deleted
      or not, already has the email. */
  lemma InsertKeepsEmailsUnique(t: Table, u: User)
    requires EmailsUnique(t) && u.id !in t && !EmailTaken(t, u.email)
    ensures EmailsUnique(Inserted(t, u))
  {
    var r := Inserted(t, u);
    forall a, b | a in r && b in r && r[a].email == r[b].email ensures a == b {
      if a != u.id && b != u.id {
        assert r[a] == t[a] && r[b] == t[b];
      }
    }
  }

  function DeletedRecord(u: User, actor: Stamp): User
  {
    u.(deletedBy := Some(actor), isDeleted := true)
  }

  /** The `updateOne` stamping `deletedBy` followed by the plug-in's `softDelete`. */
  function SoftDeleted(t: Table, id: Id, actor: Stamp): (r: Table)
    ensures r.Keys == t.Keys
    ensures id in t ==> r[id].isDeleted && r[id].deletedBy == Some(actor)
    ensures id in t ==> r[id] == t[id].(deletedBy := r[id].deletedBy, isDeleted := r[id].isDeleted)
    ensures forall k :: k in t && k != id ==> r[k] == t[k]
  {
    if id in t then t[id := DeletedRecord(t[id], actor)] else t
  }

  /** The fields an update may carry besides the target `_id`; an absent field leaves the stored one. */
  datatype Patch = Patch(
    id: Id,
    name: Option<string>,
    email: Option<string>,
    age: Option<int>,
    role: Option<string>,
    company: Option<Company>)

  function Or<T>(given: Option<T>, stored: T): T
  {
    if given.Some? then given.value else stored
  }

  function OrOption<T>(given: Option<T>, stored: Option<T>): Option<T>
  {
    if given.Some? then given else stored
  }

  function PatchedRecord(u: User, p: Patch, actor: Stamp): User
  {
    u.(name := Or(p.name, u.name), email := Or(p.email, u.email), age := OrOption(p.age, u.age),
       role := OrOption(p.role, u.role), company := OrOption(p.company, u.company), updatefBy := Some(actor))
  }

  /** `updateOne({_id}, {...patch, updatefBy})`: a missing target is a silent no-op. */
  function Patched(t: Table, p: Patch, actor: Stamp): (r: Table)
    ensures r.Keys == t.Keys
    ensures forall k :: k in t && k != p.id ==> r[k] == t[k]
    ensures p.id !in t ==> r == t
    ensures p.id in t ==> var u, v := t[p.id], r[p.id];
      v.updatefBy == Some(actor) &&
      (p.name.Some? ==> v.name == p.name.value) && (p.name.None? ==> v.name == u.name) &&
      (p.email.Some? ==> v.email == p.email.value) && (p.email.None? ==> v.email == u.email) &&
      (p.age.Some? ==> v.age == p.age) && (p.age.None? ==> v.age == u.age) &&
      (p.role.Some? ==> v.role == p.role) && (p.role.None? ==> v.role == u.role) &&
      (p.company.Some? ==> v.company == p.company) && (p.company.None? ==> v.company == u.company) &&
      v.(name := u.name, email := u.email, age := u.age, role := u.role, company := u.company,
         updatefBy := u.updatefBy) == u
  {
    if p.id in t then t[p.id := PatchedRecord(t[p.id], p, actor)] else t
  }

  /** The update operation checks no email: a patch can give one record the email of another,
      so uniqueness, which registration and creation keep, is not an invariant of the table. */
  lemma UpdateCanDuplicateEmail()
    ensures exists t: Table, p: Patch, actor: Stamp ::
      WellKeyed(t) && EmailsUnique(t) && !EmailsUnique(Patched(t, p, actor))
  {
    var a := SeedRecord("a", Account("A", "a@x"), "h");
    var b := SeedRecord("b", Account("B", "b@x"), "h");
    var t := map["a" := a, "b" := b];
    assert "a" != "b" && "a@x" != "b@x" by {
      assert "a"[0] != "b"[0] && "a@x"[0] != "b@x"[0];
    }
    assert EmailsUnique(t);
    var p := Patch("b", None, Some("a@x"), None, None, None);
    var actor := Stamp("a", "a@x");
    var r := Patched(t, p, actor);
    assert r["a"].email == r["b"].email;
    assert !EmailsUnique(r);
  }

  /** `updateUserToken(token, id)`: overwrite one record's refresh token, nothing else. */
  function WithToken(t: Table, id: Id, token: string): (r: Table)
    ensures r.Keys == t.Keys
    ensures id in t ==> r[id].refreshToken == Some(token) && r[id].(refreshToken := t[id].refreshToken) == t[id]
    ensures forall k :: k in t && k != id ==> r[k] == t[k]
  {
    if id in t then t[id := t[id].(refreshToken := Some(token))] else t
  }

  /** Who holds a token after one record's token is overwritten: the written record holds
      exactly the written token, every other record keeps what it held. */
  lemma HoldersAfterWrite(t: Table, id: Id, token: string, x: string)
    requires id in t
    ensures HoldsToken(WithToken(t, id, token), x) <==>
      x == token || exists k :: k in t && k != id && t[k].refreshToken == Some(x)
  {
    var r := WithToken(t, id, token);
    if x == token {
      assert r[id].refreshToken == Some(x);
    } else if exists k :: k in t && k != id && t[k].refreshToken == Some(x) {
      var k :| k in t && k != id && t[k].refreshToken == Some(x);
      assert r[k].refreshToken == Some(x);
    }
  }

  /** Single use: once the only holder of `old` overwrites it with a different token, no record
      holds `old` any more (rotation with a new token, or logout with the empty one). */
  lemma OverwrittenTokenIsRetired(t: Table, id: Id, prev: string, next: string)
    requires id in t && t[id].refreshToken == Some(prev)
    requires forall k :: k in t && t[k].refreshToken == Some(prev) ==> k == id
    requires next != prev
    ensures !HoldsToken(WithToken(t, id, next), prev)
  {
    HoldersAfterWrite(t, id, next, prev);
  }

  // ---------------------------------------------------------------------------
  // Sequences of changes

  /** Every change either service makes to the collection. */
  datatype Mutation =
    | Seed(ids: seq<Id>, hash: string)
    | Insert(user: User)
    | SoftDelete(target: Id, actor: Stamp)
    | Update(patch: Patch, actor: Stamp)
    | SetToken(holder: Id, token: string)

  /** What the services guarantee before a change: seed ids are distinct and a new record's
      id is fresh and its own. */
  predicate Allowed(t: Table, m: Mutation)
  {
    match m
    case Seed(ids, _) => SeedIds(ids)
    case Insert(u) => u.id !in t
    case _ => true
  }

  function Apply(t: Table, m: Mutation): Table
    requires Allowed(t, m)
  {
    match m
    case Seed(ids, hash) => Seeded(t, ids, hash)
    case Insert(u) => Inserted(t, u)
    case SoftDelete(id, actor) => SoftDeleted(t, id, actor)
    case Update(p, actor) => Patched(t, p, actor)
    case SetToken(id, token) => WithToken(t, id, token)
  }

  predicate Admissible(t: Table, ms: seq<Mutation>)
    decreases |ms|
  {
    ms == [] || (Allowed(t, ms[0]) && Admissible(Apply(t, ms[0]), ms[1..]))
  }

  function Run(t: Table, ms: seq<Mutation>): Table
    requires Admissible(t, ms)
    decreases |ms|
  {
    if ms == [] then t else Run(Apply(t, ms[0]), ms[1..])
  }

  /** A record survives into a later table: same id, still deleted if it was, and its
      creation stamps untouched. */
  predicate Persists(u: User, v: User)
  {
    v.id == u.id && (u.isDeleted ==> v.isDeleted) &&
    v.createdBy == u.createdBy && v.createdDate == u.createdDate
  }

  predicate Survives(t: Table, t': Table)
  {
    forall id :: id in t ==> id in t' && Persists(t[id], t'[id])
  }

  lemma StepSurvives(t: Table, m: Mutation)
    requires WellKeyed(t) && Allowed(t, m)
    ensures WellKeyed(Apply(t, m)) && Survives(t, Apply(t, m))
  {
    match m
    case Seed(ids, hash) =>
      if |t| == 0 {
        SeedTableWellKeyed(ids, hash);
        assert t == map[];
      }
    case Insert(u) =>
    case SoftDelete(id, actor) =>
      SoftDeleteSurvives(t, id, actor);
    case Update(p, actor) =>
      PatchSurvives(t, p, actor);
    case SetToken(id, token) =>
  }

  lemma SoftDeleteSurvives(t: Table, id: Id, actor: Stamp)
    requires WellKeyed(t)
    ensures WellKeyed(SoftDeleted(t, id, actor)) && Survives(t, SoftDeleted(t, id, actor))
  {
    if id in t {
      assert SoftDeleted(t, id, actor) == t[id := DeletedRecord(t[id], actor)];
    }
  }

  lemma PatchSurvives(t: Table, p: Patch, actor: Stamp)
    requires WellKeyed(t)
    ensures WellKeyed(Patched(t, p, actor)) && Survives(t, Patched(t, p, actor))
  {
    if p.id in t {
      assert Patched(t, p, actor) == t[p.id := PatchedRecord(t[p.id], p, actor)];
    }
  }

  /** Nothing the services do ever removes a record, un-deletes it, or changes who created it
      and when: records are soft-deleted only, and deletion is permanent. */
  lemma {:induction false} RecordsArePermanent(t: Table, ms: seq<Mutation>)
    requires WellKeyed(t) && Admissible(t, ms)
    ensures WellKeyed(Run(t, ms)) && Survives(t, Run(t, ms))
    decreases |ms|
  {
    if ms != [] {
      var t1 := Apply(t, ms[0]);
      StepSurvives(t, ms[0]);
      RecordsArePermanent(t1, ms[1..]);
      var r := Run(t, ms);
      forall id | id in t ensures id in r && Persists(t[id], r[id]) {
        assert id in t1 && Persists(t[id], t1[id]);
      }
    }
  }

  /** The session operations (login, rotation, logout) only ever write tokens: after any run of
      them every record is as before except for its refreshToken. */
  lemma {:induction false} TokenWritesTouchOnlyTokens(t: Table, ms: seq<Mutation>)
    requires forall i :: 0 <= i < |ms| ==> ms[i].SetToken?
    ensures Admissible(t, ms)
    ensures Run(t, ms).Keys == t.Keys
    ensures forall id :: id in t ==> Run(t, ms)[id].(refreshToken := t[id].refreshToken) == t[id]
    decreases |ms|
  {
    if ms != [] {
      var t1 := Apply(t, ms[0]);
      TokenWritesTouchOnlyTokens(t1, ms[1..]);
      var r := Run(t, ms);
      forall id | id in t ensures r[id].(refreshToken := t[id].refreshToken) == t[id] {
        assert r[id].(refreshToken := t1[id].refreshToken) == t1[id];
        assert t1[id].(refreshToken := t[id].refreshToken) == t[id];
      }
    }
  }
}
