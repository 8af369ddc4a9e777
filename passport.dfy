/**
  The Google sign-in verify callback and the session's user id round
  trip. The callback reconciles a provider profile with the store in a
  fixed order: a record carrying the profile's Google id; otherwise a
  record with the profile's first e-mail, which gets the Google id and
  first photo linked onto it; otherwise a new, verified record.
*/
module Passport {
  import opened Wrappers
  import opened UserModel

  /** The parts of a Google profile the callback reads; `emails` and `photos` hold the `value`s. */
  datatype Profile = Profile(id: string, displayName: string, emails: seq<string>, photos: seq<string>)

  /** The store calls of the callback, in the order it makes them. */
  datatype Step = FindByGoogleId | FindByEmail | WriteUser

  /** Which store call, if any, throws. */
  datatype Fault = NoFault | FailAt(step: Step)

  /**
    The error handed to `done(error, null)`: the store threw, or the
    profile had no first e-mail or photo, so reading `.value` of it threw.
  */
  datatype Failure = StoreError | ProfileError

  /** The store after the callback and what it passes to `done`. */
  datatype Outcome = Outcome(records: seq<User>, result: Result<User, Failure>)

  /** The record `User.create` gets from the profile (lines 36-42). */
  function GoogleFields(p: Profile): NewUser
    requires |p.emails| > 0 && |p.photos| > 0
  {
    NewUser(Some(p.displayName), Some(p.emails[0]), None, Some(p.id), Some(p.photos[0]), Some(true),
            {NamePath, EmailPath, GoogleIdPath, AvatarPath, IsVerifiedPath})
  }

  /** The record found by e-mail once `googleId` and `avatar` are assigned and saved. */
  function Linked(u: User, p: Profile, now: int): User
    requires |p.photos| > 0
  {
    var withId := Apply(u, SetGoogleId(p.id));
    var withAvatar := Apply(withId, SetAvatar(p.photos[0]));
    var modified := (if withId == u then {} else {GoogleIdPath})
                    + (if withAvatar == withId then {} else {AvatarPath});
    Saved(withAvatar, modified, false, now).value
  }

  /**
    The verify callback as a function of the store before it. `freshId`
    is the `_id` a created record receives.
  */
  function Reconcile(records: seq<User>, freshId: nat, p: Profile, fault: Fault, now: int): (o: Outcome)
    // the callback fails exactly when the first lookup throws, or when no
    // record has the Google id and the profile lacks an e-mail or a photo
    // or a later store call throws
    ensures o.result.Err? <==>
              || fault == FailAt(FindByGoogleId)
              || (FirstMatch(records, ByGoogleId(p.id)).None?
                  && (|p.emails| == 0 || |p.photos| == 0 || fault != NoFault))
    // which error: the store calls and the profile reads, in the order the callback makes them
    ensures fault == FailAt(FindByGoogleId) ==> o.result == Err(StoreError)
    ensures fault != FailAt(FindByGoogleId) && FirstMatch(records, ByGoogleId(p.id)).None? ==>
              && (|p.emails| == 0 ==> o.result == Err(ProfileError))
              && (|p.emails| > 0 && fault == FailAt(FindByEmail) ==> o.result == Err(StoreError))
              && (|p.emails| > 0 && fault != FailAt(FindByEmail) && |p.photos| == 0 ==>
                    o.result == Err(ProfileError))
              && (|p.emails| > 0 && |p.photos| > 0 && fault == FailAt(WriteUser) ==>
                    o.result == Err(StoreError))
    // a failure hands no user on and leaves the store alone
    ensures o.result.Err? ==> o.records == records
    // a user handed on is stored and carries the profile's Google id
    ensures o.result.Ok? ==> o.result.value in o.records && o.result.value.googleId == Some(p.id)
    // at most one record is added, at the end, and none is removed
    ensures |o.records| == |records| || |o.records| == |records| + 1
    ensures |o.records| == |records| + 1 ==> o.records[..|records|] == records
    // a Google id match wins before the e-mails or photos are looked at
    ensures fault != FailAt(FindByGoogleId) && FirstMatch(records, ByGoogleId(p.id)).Some? ==>
              o == Outcome(records, Ok(records[FirstMatch(records, ByGoogleId(p.id)).value]))
    // linking by e-mail changes that record's googleId, avatar and updatedAt and nothing else
    ensures fault == NoFault && FirstMatch(records, ByGoogleId(p.id)).None?
            && |p.emails| > 0 && |p.photos| > 0 && FirstMatch(records, ByEmail(Some(p.emails[0]))).Some? ==>
              var j := FirstMatch(records, ByEmail(Some(p.emails[0]))).value;
              var u := records[j].(googleId := Some(p.id), avatar := Some(p.photos[0]), updatedAt := now);
              o == Outcome(records[j := u], Ok(u))
    // otherwise exactly one verified record is created from the profile
    ensures fault == NoFault && FirstMatch(records, ByGoogleId(p.id)).None?
            && |p.emails| > 0 && |p.photos| > 0 && FirstMatch(records, ByEmail(Some(p.emails[0]))).None? ==>
              && |o.records| == |records| + 1 && o.result == Ok(o.records[|records|])
              && var u := o.records[|records|];
                 u.id == freshId && u.googleId == Some(p.id) && u.name == Some(p.displayName)
                 && u.email == Some(p.emails[0]) && u.avatar == Some(p.photos[0]) && u.isVerified
                 && u.role == UserRole && u.password.None? && u.verificationToken.None?
  {
    if fault == FailAt(FindByGoogleId) then Outcome(records, Err(StoreError))
    else match FirstMatch(records, ByGoogleId(p.id))
      case Some(i) => Outcome(records, Ok(records[i]))
      case None =>
        if |p.emails| == 0 then Outcome(records, Err(ProfileError))
        else if fault == FailAt(FindByEmail) then Outcome(records, Err(StoreError))
        else match FirstMatch(records, ByEmail(Some(p.emails[0])))
          // the only store call left is the write, so any fault now is FailAt(WriteUser)
          case Some(j) =>
            if |p.photos| == 0 || fault != NoFault then
              Outcome(records, Err(if |p.photos| == 0 then ProfileError else StoreError))
            else
              var u := Linked(records[j], p, now);
              assert records[j := u][j] == u;
              Outcome(records[j := u], Ok(u))
          case None =>
            if |p.photos| == 0 then Outcome(records, Err(ProfileError))
            else if fault != NoFault then Outcome(records, Err(StoreError))
            else
              var f := GoogleFields(p);
              var u := Saved(WithDefaults(f, freshId), f.keys, true, now).value;
              assert (records + [u])[|records|] == u;
              assert (records + [u])[..|records|] == records;
              Outcome(records + [u], Ok(u))
  }

  /**
    The callback on the store: the same decisions, made with the store's
    queries, document assignments and saves.
  */
  method GoogleVerify(store: UserStore, p: Profile, fault: Fault, now: int) returns (r: Result<User, Failure>)
    requires store.Valid()
    modifies store
    ensures store.Valid() && store.nextId >= old(store.nextId)
    ensures Reconcile(old(store.records), old(store.nextId), p, fault, now) == Outcome(store.records, r)
  {
    if fault == FailAt(FindByGoogleId) {
      return Err(StoreError);
    }
    var user := store.FindOne(ByGoogleId(p.id));
    if user != null {
      return Ok(user.fields);
    }
    if |p.emails| == 0 {
      return Err(ProfileError);  // profile.emails[0] is undefined
    }
    if fault == FailAt(FindByEmail) {
      return Err(StoreError);
    }
    user := store.FindOne(ByEmail(Some(p.emails[0])));
    if user != null {
      ghost var j := FirstMatch(store.records, ByEmail(Some(p.emails[0]))).value;
      user.Assign(SetGoogleId(p.id));
      if |p.photos| == 0 {
        return Err(ProfileError);  // profile.photos[0] is undefined; nothing was saved
      }
      user.Assign(SetAvatar(p.photos[0]));
      if fault != NoFault {  // FailAt(WriteUser), the only store call left
        return Err(StoreError);
      }
      IdLookup(store.records, j);
      var ok := store.Save(user, now);
      assert ok;
      return Ok(user.fields);
    }
    if |p.photos| == 0 {
      return Err(ProfileError);
    }
    if fault != NoFault {  // FailAt(WriteUser)
      return Err(StoreError);
    }
    var created := store.Create(GoogleFields(p), now);
    assert created != null;  // the object has no password key, so the hook passes
    return Ok(created.fields);
  }

  /**
    Reconciling the same profile again, once a call has succeeded, finds
    by Google id the record that call handed on and changes nothing.
  */
  lemma ReconcileIdempotent(records: seq<User>, id1: nat, id2: nat, p: Profile,
                            fault: Fault, now1: int, now2: int)
    requires Reconcile(records, id1, p, fault, now1).result.Ok?
    ensures var o := Reconcile(records, id1, p, fault, now1);
            Reconcile(o.records, id2, p, NoFault, now2) == o
  {
    var o := Reconcile(records, id1, p, fault, now1);
    var g := ByGoogleId(p.id);
    if FirstMatch(records, g).None? {
      if FirstMatch(records, ByEmail(Some(p.emails[0]))).Some? {
        var j := FirstMatch(records, ByEmail(Some(p.emails[0]))).value;
        FirstMatchAt(o.records, g, j);
      } else {
        FirstMatchAt(o.records, g, |records|);
      }
    }
  }

  /** `serializeUser`: the session keeps the user's id. */
  function SerializeUser(u: User): nat {
    u.id
  }

  /** `deserializeUser`: `findById` on the stored records; `null` when none has the id. */
  function DeserializeUser(records: seq<User>, id: nat, storeFails: bool): (r: Result<Option<User>, Failure>)
    ensures storeFails <==> r.Err?
    ensures r.Ok? && r.value.Some? ==> r.value.value in records && r.value.value.id == id
    ensures r.Ok? && r.value.None? ==> forall k :: 0 <= k < |records| ==> records[k].id != id
  {
    if storeFails then Err(StoreError)
    else match FirstMatch(records, ById(id))
      case Some(k) => Ok(Some(records[k]))
      case None => Ok(None)
  }

  /** The id the session keeps brings back the very record it was taken from. */
  lemma SerializeRoundTrip(records: seq<User>, k: nat)
    requires UniqueIds(records) && k < |records|
    ensures DeserializeUser(records, SerializeUser(records[k]), false) == Ok(Some(records[k]))
  {
    IdLookup(records, k);
  }

  /**
    The record lines 36-42 store under the schema as declared: strict
    mode drops `googleId` and `avatar` from the object given to
    `User.create`, so the user handed on has no Google id.
  */
  function CreatedAsWritten(p: Profile, freshId: nat, now: int): (u: User)
    requires |p.emails| > 0 && |p.photos| > 0
  {
    var f := StrictCast(GoogleFields(p));
    Saved(WithDefaults(f, freshId), f.keys, true, now).value
  }

  /**
    Against the schema as declared, a first Google sign-in hands on a
    user without the profile's Google id, while Reconcile promises it.
  */
  lemma CreatedAsWrittenLacksGoogleId(p: Profile, freshId: nat, now: int)
    requires |p.emails| > 0 && |p.photos| > 0
    ensures CreatedAsWritten(p, freshId, now).googleId.None?
    ensures CreatedAsWritten(p, freshId, now).avatar.None?
    ensures Reconcile([], freshId, p, NoFault, now).result.value.googleId == Some(p.id)
  {
  }

  /**
    The link of lines 27-31 under the schema as declared: `googleId` and
    `avatar` are not schema paths, so the two assignments mark nothing
    and the save writes nothing.
  */
  function LinkedAsWritten(u: User, now: int): User {
    Saved(u, {}, false, now).value
  }

  /**
    Against the schema as declared, the record found by e-mail is stored
    unchanged and so still lacks the Google id, where Reconcile links it.
  */
  lemma LinkedAsWrittenStaysUnlinked(records: seq<User>, p: Profile, now: int)
    requires FirstMatch(records, ByGoogleId(p.id)).None?
    requires |p.emails| > 0 && |p.photos| > 0 && FirstMatch(records, ByEmail(Some(p.emails[0]))).Some?
    ensures var j := FirstMatch(records, ByEmail(Some(p.emails[0]))).value;
            && LinkedAsWritten(records[j], now) == records[j]
            && LinkedAsWritten(records[j], now).googleId != Some(p.id)
            && Reconcile(records, |records|, p, NoFault, now).result.value.googleId == Some(p.id)
  {
  }
}
