/**
  The `User` Mongoose model: the record a stored account holds, the
  defaults the schema fills in, the in-memory document with its set of
  modified paths, and the pre-save hook that hashes the password only
  when that path was modified since the last save. The collection is an
  in-memory store of records.
*/
module UserModel {
  import opened Wrappers

  /** The schema's `role` enum; "user" is the default. */
  datatype Role = UserRole | AdminRole

  /**
    A password as it stands in a record: the plaintext a client supplied,
    or bcrypt's digest of an earlier value. bcrypt itself is not modelled:
    `Hash` is a constructor, so a digest records what it was computed
    from and with which cost, and nothing else is assumed about it.
  */
  datatype Credential = Plain(text: string) | Digest(source: Credential, cost: nat)

  /** The salt rounds the pre-save hook passes to bcrypt. */
  const SaltRounds: nat := 10

  function Hash(c: Credential, cost: nat): Credential {
    Digest(c, cost)
  }

  /** How many times bcrypt was applied to reach this value. */
  function HashDepth(c: Credential): nat {
    match c
    case Plain(_) => 0
    case Digest(source, _) => HashDepth(source) + 1
  }

  /**
    A stored account. `googleId` and `avatar` are written by the Google
    sign-in callback; `id` stands for MongoDB's `_id`; the timestamps are
    the ones `timestamps: true` maintains.
  */
  datatype User = User(
    id: nat,
    name: Option<string>,
    email: Option<string>,
    password: Option<Credential>,
    role: Role,
    isVerified: bool,
    verificationToken: Option<string>,
    resetPasswordToken: Option<string>,
    resetPasswordExpires: Option<int>,
    googleId: Option<string>,
    avatar: Option<string>,
    createdAt: int,
    updatedAt: int)

  /** The paths a document can mark as modified. */
  datatype Path = NamePath | EmailPath | PasswordPath | GoogleIdPath | AvatarPath
                | IsVerifiedPath | VerificationTokenPath

  /**
    The object passed to `new User(...)` or `User.create(...)`. A key
    that is missing or `undefined` has the value `None`; `keys` are the
    keys the object names, whether their values are defined or not.
  */
  datatype NewUser = NewUser(
    name: Option<string>,
    email: Option<string>,
    password: Option<string>,
    googleId: Option<string>,
    avatar: Option<string>,
    isVerified: Option<bool>,
    keys: set<Path>)

  /** A new document: supplied values, schema defaults for the rest. */
  function WithDefaults(f: NewUser, id: nat): User {
    User(id, f.name, f.email,
         if f.password.Some? then Some(Plain(f.password.value)) else None,
         UserRole,
         if f.isVerified.Some? then f.isVerified.value else false,
         None, None, None,
         f.googleId, f.avatar, 0, 0)
  }

  /**
    Strict casting of a new document: the schema declares neither
    `googleId` nor `avatar`, and Mongoose's strict mode, on by default,
    drops keys the schema does not declare.
  */
  function StrictCast(f: NewUser): (g: NewUser)
    ensures g.googleId.None? && g.avatar.None?
    ensures GoogleIdPath !in g.keys && AvatarPath !in g.keys
    ensures g.keys == f.keys - {GoogleIdPath, AvatarPath}
    ensures g.(googleId := f.googleId, avatar := f.avatar, keys := f.keys) == f
  {
    f.(googleId := None, avatar := None, keys := f.keys - {GoogleIdPath, AvatarPath})
  }

  /** An assignment `doc.<path> = value` made by the callers. */
  datatype Update = SetGoogleId(googleId: string) | SetAvatar(avatar: string)
                  | SetVerificationToken(token: string)

  function PathOf(x: Update): Path {
    match x
    case SetGoogleId(_) => GoogleIdPath
    case SetAvatar(_) => AvatarPath
    case SetVerificationToken(_) => VerificationTokenPath
  }

  function Apply(u: User, x: Update): User {
    match x
    case SetGoogleId(g) => u.(googleId := Some(g))
    case SetAvatar(a) => u.(avatar := Some(a))
    case SetVerificationToken(t) => u.(verificationToken := Some(t))
  }

  /**
    The pre-save hook fails: the password path is modified but holds no
    value, and bcrypt rejects hashing `undefined`.
  */
  predicate HookRejects(u: User, modified: set<Path>) {
    PasswordPath in modified && u.password.None?
  }

  /**
    What `save()` makes of a document, or `None` when the pre-save hook
    rejects it. The hook replaces the password by its digest when the
    password path was modified; the timestamps are set on the first save
    and refreshed on a later save that has something to write.
  */
  function Saved(u: User, modified: set<Path>, isNew: bool, now: int): (r: Option<User>)
    ensures r.None? <==> HookRejects(u, modified)
    ensures r.Some? ==> (r.value.password != u.password <==> PasswordPath in modified)
    ensures r.Some? && r.value.password != u.password ==>
              r.value.password == Some(Hash(u.password.value, SaltRounds))
    ensures r.Some? && r.value.password.Some? && u.password.Some? ==>
              HashDepth(r.value.password.value) <= HashDepth(u.password.value) + 1
    ensures r.Some? ==>
              r.value == u.(password := r.value.password, createdAt := r.value.createdAt,
                            updatedAt := r.value.updatedAt)
    ensures r.Some? && isNew ==> r.value.createdAt == now && r.value.updatedAt == now
    ensures r.Some? && !isNew ==> r.value.createdAt == u.createdAt
    ensures r.Some? && !isNew ==> r.value.updatedAt == if modified == {} then u.updatedAt else now
  {
    assert u.password.Some? ==>
      HashDepth(Hash(u.password.value, SaltRounds)) == HashDepth(u.password.value) + 1;
    if HookRejects(u, modified) then None
    else
      var hashed :=
        if PasswordPath in modified
        then u.(password := Some(Hash(u.password.value, SaltRounds)))
        else u;
      if isNew then Some(hashed.(createdAt := now, updatedAt := now))
      else if modified == {} then Some(hashed)
      else Some(hashed.(updatedAt := now))
  }

  /**
    A save right after a successful save writes nothing new: the first
    cleared the modified paths, so the password is hashed at most once.
  */
  lemma SaveTwiceHashesOnce(u: User, modified: set<Path>, isNew: bool, t1: int, t2: int)
    requires Saved(u, modified, isNew, t1).Some?
    ensures var s := Saved(u, modified, isNew, t1).value;
            Saved(s, {}, false, t2) == Some(s)
    ensures var r := Saved(Saved(u, modified, isNew, t1).value, {}, false, t2).value;
            r.password.Some? && u.password.Some? ==>
              HashDepth(r.password.value) <= HashDepth(u.password.value) + 1
  {
  }

  /** The filters `findOne` and `findById` are called with. */
  datatype Query = ByGoogleId(googleId: string) | ByEmail(email: Option<string>) | ById(id: nat)

  predicate Matches(u: User, q: Query) {
    match q
    case ByGoogleId(g) => u.googleId == Some(g)
    case ByEmail(e) => u.email == e
    case ById(i) => u.id == i
  }

  /** The position of the first record matching the filter, if any. */
  function FirstMatch(records: seq<User>, q: Query): (r: Option<nat>)
    ensures r.Some? ==> r.value < |records| && Matches(records[r.value], q)
    ensures r.Some? ==> forall k :: 0 <= k < r.value ==> !Matches(records[k], q)
    ensures r.None? ==> forall k :: 0 <= k < |records| ==> !Matches(records[k], q)
  {
    if records == [] then None
    else if Matches(records[0], q) then Some(0)
    else match FirstMatch(records[1..], q)
      case None => None
      case Some(k) => Some(k + 1)
  }

  /** A match with none before it is the first match. */
  lemma FirstMatchAt(records: seq<User>, q: Query, k: nat)
    requires k < |records| && Matches(records[k], q)
    requires forall j :: 0 <= j < k ==> !Matches(records[j], q)
    ensures FirstMatch(records, q) == Some(k)
  {
  }

  ghost predicate UniqueIds(records: seq<User>) {
    forall i, j :: 0 <= i < j < |records| ==> records[i].id != records[j].id
  }

  /** With unique ids, looking a record's id up finds that record. */
  lemma IdLookup(records: seq<User>, k: nat)
    requires UniqueIds(records) && k < |records|
    ensures FirstMatch(records, ById(records[k].id)) == Some(k)
  {
    FirstMatchAt(records, ById(records[k].id), k);
  }

  /**
    A Mongoose document: the values it currently holds, the paths
    assigned since it was last saved, and whether it was ever saved.
  */
  class Document {
    var fields: User
    var modified: set<Path>
    var isNew: bool

    /** `new User(f)`: defaults applied, every key the object names modified. */
    constructor Build(f: NewUser, id: nat)
      ensures fields == WithDefaults(f, id) && modified == f.keys && isNew
    {
      fields := WithDefaults(f, id);
      modified := f.keys;
      isNew := true;
    }

    /** A document as a query hands it back: nothing modified. */
    constructor Hydrate(u: User)
      ensures fields == u && modified == {} && !isNew
    {
      fields := u;
      modified := {};
      isNew := false;
    }

    /**
      `doc.<path> = value` on a document that was saved or loaded; the
      path is marked only if the value changes.
    */
    method Assign(x: Update)
      requires !isNew
      modifies this
      ensures fields == Apply(old(fields), x) && isNew == old(isNew)
      ensures modified == old(modified) + (if fields == old(fields) then {} else {PathOf(x)})
    {
      var was := fields;
      fields := Apply(fields, x);
      if fields != was {
        modified := modified + {PathOf(x)};
      }
    }
  }

  /** The `users` collection, insertion-ordered; `nextId` stands for the ObjectId generator. */
  class UserStore {
    var records: seq<User>
    var nextId: nat

    ghost predicate Valid()
      reads this
    {
      && (forall i :: 0 <= i < |records| ==> records[i].id < nextId)
      && UniqueIds(records)
    }

    constructor ()
      ensures Valid() && records == [] && nextId == 0
    {
      records := [];
      nextId := 0;
    }

    /** `findOne(filter)` / `findById(id)`: the first matching record as a fresh document. */
    method FindOne(q: Query) returns (doc: Document?)
      ensures doc == null <==> FirstMatch(records, q).None?
      ensures doc != null ==>
                fresh(doc) && doc.fields == records[FirstMatch(records, q).value]
                && doc.modified == {} && !doc.isNew
    {
      var i := FirstMatch(records, q);
      if i.None? {
        doc := null;
      } else {
        doc := new Document.Hydrate(records[i.value]);
      }
    }

    /**
      `doc.save()`. A new document is inserted (refused when its `_id`
      is taken); an unmodified one writes nothing; a modified one
      replaces the record with its id (refused when there is none).
      On success the document holds what was written and nothing is
      left modified.
    */
    method Save(doc: Document, now: int) returns (ok: bool)
      requires Valid() && doc.fields.id < nextId
      modifies this, doc
      ensures Valid() && nextId == old(nextId)
      ensures ok == (!HookRejects(old(doc.fields), old(doc.modified))
                     && if old(doc.isNew) then FirstMatch(old(records), ById(old(doc.fields.id))).None?
                        else old(doc.modified) == {} || FirstMatch(old(records), ById(old(doc.fields.id))).Some?)
      ensures !ok ==> records == old(records) && doc.fields == old(doc.fields)
                      && doc.modified == old(doc.modified) && doc.isNew == old(doc.isNew)
      ensures ok ==> Saved(old(doc.fields), old(doc.modified), old(doc.isNew), now) == Some(doc.fields)
                     && doc.modified == {} && !doc.isNew
      ensures ok && old(doc.isNew) ==> records == old(records) + [doc.fields]
      ensures ok && !old(doc.isNew) && old(doc.modified) == {} ==>
                records == old(records) && doc.fields == old(doc.fields)
      ensures ok && !old(doc.isNew) && old(doc.modified) != {} ==>
                records == old(records)[FirstMatch(old(records), ById(old(doc.fields.id))).value := doc.fields]
    {
      var s := Saved(doc.fields, doc.modified, doc.isNew, now);
      if s.None? {
        return false;  // the pre-save hook's bcrypt call rejects
      }
      var u := s.value;
      var i := FirstMatch(records, ById(doc.fields.id));
      if doc.isNew {
        if i.Some? {
          return false;  // duplicate key on _id
        }
        records := records + [u];
      } else if doc.modified != {} {
        if i.None? {
          return false;  // the document is no longer in the collection
        }
        records := records[i.value := u];
      }
      doc.fields, doc.modified, doc.isNew := u, {}, false;
      ok := true;
    }

    /**
      `User.create(f)`: build a document with a fresh `_id`, then save it.
      The result is `null` where `create` rejects because the pre-save
      hook did; nothing is stored then.
    */
    method Create(f: NewUser, now: int) returns (doc: Document?)
      requires Valid()
      modifies this
      ensures Valid() && nextId == old(nextId) + 1
      ensures doc == null <==> PasswordPath in f.keys && f.password.None?
      ensures doc == null ==> records == old(records)
      ensures doc != null ==>
                && fresh(doc) && doc.modified == {} && !doc.isNew
                && Saved(WithDefaults(f, old(nextId)), f.keys, true, now) == Some(doc.fields)
                && records == old(records) + [doc.fields]
                && doc.fields.id == old(nextId) && doc.fields.role == UserRole
                && doc.fields.isVerified == (f.isVerified == Some(true))
                && doc.fields.verificationToken.None? && doc.fields.resetPasswordToken.None?
                && doc.fields.resetPasswordExpires.None?
    {
      doc := new Document.Build(f, nextId);
      nextId := nextId + 1;
      var ok := Save(doc, now);
      if !ok {
        doc := null;
      }
    }
  }
}
