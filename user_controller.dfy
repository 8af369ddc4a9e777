/**
  The `registerUser` request handler: presence check of the three
  fields, duplicate-email check, create, then a 64-digit verification
  token stored with a second save. Every `res.status(400).json(...)` is
  appended to a response log; the handler does not return after any of
  them, so the log can hold several responses. Express's refusal of a
  second response on the same request is not modelled, so in this model
  the record is also created after "User already exists" when all three
  fields are present.
*/
module UserController {
  import opened Wrappers
  import opened UserModel
  import Hex

  /** `req.body`'s three fields; an absent key is `None`. */
  datatype Request = Request(name: Option<string>, email: Option<string>, password: Option<string>)

  datatype Body = Message(message: string) | ErrorReport(error: string)

  /** One `res.status(status).json(body)`. */
  datatype Response = Response(status: nat, body: Body)

  /** Which store call, if any, throws. */
  datatype Fault = NoFault | LookupThrows(reason: string) | CreateThrows(reason: string) | TokenSaveThrows

  /** JavaScript truthiness of a string field: present and not empty. */
  predicate Truthy(f: Option<string>) {
    f.Some? && f.value != ""
  }

  predicate AllPresent(req: Request) {
    Truthy(req.name) && Truthy(req.email) && Truthy(req.password)
  }

  /**
    The text of the rejection bcrypt gives the pre-save hook when the
    password is `undefined`, as `${error}` renders it.
  */
  const HashRejection: string := "Error: Illegal arguments: undefined, number"

  /**
    Why the `try` block lands in the `catch`, if it does: the lookup
    throws; or `User.create` rejects, first because the hook cannot hash
    an undefined password, else because the store throws.
  */
  function CatchReason(req: Request, fault: Fault): (r: Option<string>)
    ensures r.None? <==> !fault.LookupThrows? && !fault.CreateThrows? && req.password.Some?
    ensures fault.LookupThrows? ==> r == Some(fault.reason)
    ensures !fault.LookupThrows? && req.password.None? ==> r == Some(HashRejection)
  {
    match fault
    case LookupThrows(reason) => Some(reason)
    case _ =>
      if req.password.None? then Some(HashRejection)
      else if fault.CreateThrows? then Some(fault.reason)
      else None
  }

  /** The handler's `catch` runs. */
  predicate Caught(req: Request, fault: Fault) {
    CatchReason(req, fault).Some?
  }

  const AllFieldsRequired: Response := Response(400, Message("All fields are required"))

  const UserAlreadyExists: Response := Response(400, Message("User already exists"))

  const ErrorPrefix: string := "Error in registering user: "

  function RegisterError(reason: string): Response {
    Response(400, ErrorReport(ErrorPrefix + reason))
  }

  /**
    Only the three destructured fields reach `User.create`, and the
    object names all three keys even when a value is `undefined`.
  */
  function RequestFields(req: Request): NewUser {
    NewUser(req.name, req.email, req.password, None, None, None, {NamePath, EmailPath, PasswordPath})
  }

  /**
    The responses lines 8-37 emit, in order: the presence check's, the
    duplicate check's (when the lookup ran and found a record), and the
    `catch`'s.
  */
  function Emitted(records: seq<User>, req: Request, fault: Fault): (log: seq<Response>)
    ensures forall i :: 0 <= i < |log| ==> log[i].status == 400
    ensures (|log| > 0 && log[0] == AllFieldsRequired) <==> !AllPresent(req)
    ensures UserAlreadyExists in log <==>
              !fault.LookupThrows? && FirstMatch(records, ByEmail(req.email)).Some?
    ensures Caught(req, fault) <==> |log| > 0 && log[|log| - 1].body.ErrorReport?
    ensures Caught(req, fault) ==> ErrorPrefix <= log[|log| - 1].body.error
    ensures !fault.LookupThrows? && req.password.None? ==>
              log[|log| - 1] == RegisterError(HashRejection)
    ensures !AllPresent(req) && !fault.LookupThrows? && FirstMatch(records, ByEmail(req.email)).Some? ==>
              log[..2] == [AllFieldsRequired, UserAlreadyExists]
  {
    (if AllPresent(req) then [] else [AllFieldsRequired])
    + (if !fault.LookupThrows? && FirstMatch(records, ByEmail(req.email)).Some? then [UserAlreadyExists] else [])
    + (match CatchReason(req, fault)
       case Some(reason) => [RegisterError(reason)]
       case None => [])
  }

  /** The record a registration leaves in the store. */
  ghost predicate IsRegistration(u: User, req: Request, id: nat, token: Option<string>, now: int) {
    && u.id == id && u.name == req.name && u.email == req.email
    && req.password.Some? && u.password == Some(Hash(Plain(req.password.value), SaltRounds))
    && u.role == UserRole && !u.isVerified && u.verificationToken == token
    && u.resetPasswordToken.None? && u.resetPasswordExpires.None?
    && u.googleId.None? && u.avatar.None?
    && u.createdAt == now && u.updatedAt == now
  }

  /**
    Lines 8-37: the presence check, then, in the `try`, the lookup by
    e-mail and the create. `newUser` is the created document, `null`
    when the `catch` ran.
  */
  method ValidateAndCreate(store: UserStore, req: Request, fault: Fault, now: int)
    returns (responses: seq<Response>, newUser: Document?)
    requires store.Valid()
    modifies store
    ensures store.Valid()
    ensures responses == Emitted(old(store.records), req, fault)
    ensures newUser == null <==> Caught(req, fault)
    ensures newUser == null ==> store.records == old(store.records)
    ensures newUser != null ==>
              && fresh(newUser) && newUser.modified == {} && !newUser.isNew
              && newUser.fields.id < store.nextId
              && store.records == old(store.records) + [newUser.fields]
              && IsRegistration(newUser.fields, req, old(store.nextId), None, now)
  {
    responses := [];
    if !AllPresent(req) {
      responses := responses + [AllFieldsRequired];  // no return: the handler carries on
    }
    newUser := null;
    if fault.LookupThrows? {
      responses := responses + [RegisterError(fault.reason)];
      return;
    }
    var existing := store.FindOne(ByEmail(req.email));
    if existing != null {
      // no return: with all fields present the model goes on to create a
      // second record, as Express's throw on a second response is not modelled
      responses := responses + [UserAlreadyExists];
    }
    if fault.CreateThrows? && req.password.Some? {
      responses := responses + [RegisterError(fault.reason)];
      return;
    }
    // `User.create` resolves to a document or rejects, so `if(!newUser)` never fires
    newUser := store.Create(RequestFields(req), now);
    if newUser == null {
      responses := responses + [RegisterError(HashRejection)];
    }
  }

  /**
    `registerUser` with `newUser` in scope at lines 41-42. When the
    `catch` ran there is no document, and reading its
    `verificationToken` throws, so the handler ends without completing.
    The handler sends no response on success.
  */
  method RegisterUser(store: UserStore, req: Request, random: seq<Hex.byte>, fault: Fault, now: int)
    returns (responses: seq<Response>, completed: bool)
    requires store.Valid() && |random| == 32
    modifies store
    ensures store.Valid()
    ensures responses == Emitted(old(store.records), req, fault)
    ensures completed <==> fault == NoFault && req.password.Some?
    ensures Caught(req, fault) ==> store.records == old(store.records)
    ensures !Caught(req, fault) ==>
              && |store.records| == |old(store.records)| + 1
              && store.records[..|old(store.records)|] == old(store.records)
              && IsRegistration(store.records[|old(store.records)|], req, old(store.nextId),
                                if fault == NoFault then Some(Hex.Encode(random)) else None, now)
    ensures completed ==>
              var u := store.records[|old(store.records)|];
              && u.password.Some? && HashDepth(u.password.value) == 1
              && |u.verificationToken.value| == 64
              && forall i :: 0 <= i < 64 ==> Hex.IsHexDigit(u.verificationToken.value[i])
  {
    var newUser;
    responses, newUser := ValidateAndCreate(store, req, fault, now);
    if newUser == null {
      return responses, false;
    }
    var token := Hex.Encode(random);
    newUser.Assign(SetVerificationToken(token));
    if fault == TokenSaveThrows {
      return responses, false;
    }
    IdLookup(store.records, |store.records| - 1);
    var ok := store.Save(newUser, now);
    assert ok;
    completed := true;
  }

  /**
    `registerUser` as written: line 41 assigns through `newuser`, a name
    declared nowhere, which throws a ReferenceError on every request
    that gets that far, so the token is never stored and line 42 never
    runs.
  */
  method RegisterUserAsWritten(store: UserStore, req: Request, random: seq<Hex.byte>, fault: Fault, now: int)
    returns (responses: seq<Response>, completed: bool)
    requires store.Valid() && |random| == 32
    modifies store
    ensures store.Valid()
    ensures responses == Emitted(old(store.records), req, fault)
    ensures !completed
    ensures Caught(req, fault) ==> store.records == old(store.records)
    ensures !Caught(req, fault) ==>
              && |store.records| == |old(store.records)| + 1
              && store.records[..|old(store.records)|] == old(store.records)
              && IsRegistration(store.records[|old(store.records)|], req, old(store.nextId), None, now)
  {
    var newUser;
    responses, newUser := ValidateAndCreate(store, req, fault, now);
    var token := Hex.Encode(random);
    completed := false;  // `newuser.verificationToken = token` throws
  }
}
