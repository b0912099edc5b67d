/** The browser's session store, frontend/src/lib/auth.ts: what is kept beside an access
    token never says more than the token does. */
module AuthSession {
  import opened Text
  import opened BrowserText

  /** The storage keys: six of the session, nine left over from older releases, and
      those of everything else. */
  datatype Key =
    | AccessToken | TokenType | OrganizationId | UserEmail | UserRole | DriverId
    | OldAccessToken | OldTokenType | OldOrganizationId | OldUserEmail | OldUserRole | OldDriverId
    | OldAuthToken | OldAuthUser | OldAuthSession
    | Other(name: string)

  const AUTH_STORAGE_KEYS: seq<Key> := [
    AccessToken, TokenType, OrganizationId, UserEmail, UserRole, DriverId,
    OldAccessToken, OldTokenType, OldOrganizationId, OldUserEmail, OldUserRole, OldDriverId,
    OldAuthToken, OldAuthUser, OldAuthSession]

  predicate IsSessionKey(k: Key) {
    k.AccessToken? || k.TokenType? || k.OrganizationId? || k.UserEmail? || k.UserRole? || k.DriverId?
  }

  type Storage = map<Key, string>

  /** What a token's payload holds; a claim of another type than expected is None. */
  datatype Claims = Claims(
    exp: Option<real>, organizationId: Option<string>, role: Option<string>,
    email: Option<string>, sub: Option<string>, driverId: Option<string>)

  /** `decodeJwtPayload`: None for a token that cannot be read. */
  type Decoder = string -> Option<Claims>

  datatype Session = Session(
    accessToken: Option<string>, tokenType: string, organizationId: Option<string>,
    userEmail: Option<string>, userRole: Option<string>, driverId: Option<string>)

  const EMPTY := Session(None, "Bearer", None, None, None, None)
  const EXPIRY_SKEW := 30.0

  // ---------- reading ----------

  function NonBlank(v: Option<string>): Option<string> {
    if v.Some? && Trim(v.value) != "" then Some(Trim(v.value)) else None
  }

  function Stored(st: Storage, k: Key): Option<string> {
    if k in st then Some(st[k]) else None
  }

  function GetItem(st: Storage, k: Key): Option<string> {
    NonBlank(Stored(st, k))
  }

  function NormalizeTokenType(v: string): string {
    var t := Trim(v);
    if t == "" then "Bearer" else if Lower(t) == "bearer" then "Bearer" else t
  }

  function OrElse(a: Option<string>, b: Option<string>): Option<string> {
    if a.Some? then a else b
  }

  predicate Expired(c: Claims, now: real) {
    c.exp.None? || c.exp.value <= now + EXPIRY_SKEW
  }

  /** What the token says, leaving its age aside. */
  function Says(c: Claims, token: string, tokenType: string): Option<Session> {
    var organization, role := NonBlank(c.organizationId), NonBlank(c.role);
    if organization.None? || role.None? then None
    else Some(Session(Some(token), NormalizeTokenType(tokenType), organization,
                      OrElse(NonBlank(c.email), NonBlank(c.sub)), Some(Lower(role.value)), NonBlank(c.driverId)))
  }

  function Derive(d: Decoder, now: real, token: string, tokenType: string): Option<Session> {
    if d(token).None? || Expired(d(token).value, now) then None else Says(d(token).value, token, tokenType)
  }

  // ---------- writing ----------

  function SetItem(st: Storage, k: Key, v: string): Storage {
    if Trim(v) == "" then st - {k} else st[k := Trim(v)]
  }

  function Cleared(st: Storage): Storage {
    map k | k in st && k.Other? :: st[k]
  }

  function OrBlank(v: Option<string>): string {
    if v.Some? then v.value else ""
  }

  function PersistedToken(st: Storage, token: string, s: Session): Storage {
    SetItem(SetItem(SetItem(st, AccessToken, token), TokenType, s.tokenType), OrganizationId, OrBlank(s.organizationId))
  }

  function PersistedUser(st: Storage, s: Session): Storage {
    var after := SetItem(SetItem(st, UserEmail, OrBlank(s.userEmail)), UserRole, OrBlank(s.userRole));
    if s.driverId.Some? then SetItem(after, DriverId, s.driverId.value) else after - {DriverId}
  }

  function Persisted(st: Storage, s: Session): Storage {
    if s.accessToken.None? then Cleared(st)
    else PersistedUser(PersistedToken(st, s.accessToken.value, s), s)
  }

  /** The session that a restore finds in the store. */
  function Found(d: Decoder, now: real, st: Storage): Session {
    var token := GetItem(st, AccessToken);
    if token.None? then EMPTY
    else
      var tokenType := GetItem(st, TokenType);
      var s := Derive(d, now, token.value, if tokenType.Some? then tokenType.value else "Bearer");
      if s.None? then EMPTY else s.value
  }

  function Restored(d: Decoder, now: real, st: Storage): Storage {
    Persisted(st, Found(d, now, st))
  }

  /** A parameter that a caller left out, passed as null, or passed a text for. */
  datatype Field = Undefined | Null | Value(text: string)

  datatype Params = Params(
    accessToken: Field, tokenType: Field, organizationId: Field, userEmail: Field, userRole: Field, driverId: Field)

  function SetField(st: Storage, k: Key, f: Field): Storage {
    match f
    case Undefined => st
    case Null => st - {k}
    case Value(v) => SetItem(st, k, v)
  }

  function NormalField(f: Field): Field {
    if f.Value? then Value(NormalizeTokenType(f.text)) else f
  }

  function WithParams(st: Storage, p: Params): Storage {
    var a := SetField(st, AccessToken, p.accessToken);
    var b := SetField(a, TokenType, NormalField(p.tokenType));
    var c := SetField(b, OrganizationId, p.organizationId);
    var e := SetField(c, UserEmail, p.userEmail);
    var f := SetField(e, UserRole, p.userRole);
    SetField(f, DriverId, p.driverId)
  }

  datatype Operation =
    | SetSession(params: Params)
    | SetTokenType(text: string)
    | SetOrganizationId(text: string)
    | SetUserEmail(text: string)
    | SetUserRole(text: string)
    | SetDriverId(text: string)
    | Restore
    | Clear

  /** The operation empties the store without looking at it. */
  predicate EndsSession(op: Operation) {
    op.Clear? || (op.SetSession? && op.params.accessToken.Null?)
  }

  /** The store that an operation restores from. */
  function Written(st: Storage, op: Operation): Storage {
    match op
    case SetSession(p) => WithParams(st, p)
    case SetTokenType(v) => SetItem(st, TokenType, NormalizeTokenType(v))
    case SetOrganizationId(v) => SetItem(st, OrganizationId, v)
    case SetUserEmail(v) => SetItem(st, UserEmail, v)
    case SetUserRole(v) => SetItem(st, UserRole, v)
    case SetDriverId(v) => SetItem(st, DriverId, v)
    case Restore => st
    case Clear => st
  }

  function Next(d: Decoder, now: real, st: Storage, op: Operation): Storage {
    if EndsSession(op) then Cleared(st) else Restored(d, now, Written(st, op))
  }

  // ---------- the store agrees with its token ----------

  predicate NoSession(st: Storage) {
    forall k | k in st :: !IsSessionKey(k)
  }

  predicate HoldsSession(st: Storage, s: Session) {
    && Stored(st, AccessToken) == s.accessToken && Stored(st, TokenType) == Some(s.tokenType)
    && Stored(st, OrganizationId) == s.organizationId && Stored(st, UserEmail) == s.userEmail
    && Stored(st, UserRole) == s.userRole && Stored(st, DriverId) == s.driverId
  }

  /** The session keys are all absent, or each holds what the stored token says. */
  predicate Agrees(d: Decoder, st: Storage) {
    || NoSession(st)
    || (&& AccessToken in st && TokenType in st
        && GetItem(st, AccessToken) == Some(st[AccessToken])
        && d(st[AccessToken]).Some?
        && var s := Says(d(st[AccessToken]).value, st[AccessToken], st[TokenType]);
           s.Some? && HoldsSession(st, s.value))
  }

  lemma TrimIdempotent(s: string)
    ensures Trim(Trim(s)) == Trim(s)
  {
  }

  lemma LowerKeepsTrimmed(s: string)
    requires Trim(s) == s
    ensures Trim(Lower(s)) == Lower(s)
  {
  }

  lemma NormalTypeIsFixed(v: string)
    ensures var n := NormalizeTokenType(v); n != "" && Trim(n) == n && NormalizeTokenType(n) == n
  {
    TrimIdempotent(v);
    assert Lower("Bearer") == "bearer";
  }

  /** What a restore finds is empty, or what a readable, unexpired token says; its
      values are all stored as they are. */
  lemma FoundIsStorable(d: Decoder, now: real, st: Storage)
    ensures var s := Found(d, now, st);
      s == EMPTY ||
      (&& s.accessToken == GetItem(st, AccessToken) && s.accessToken.Some?
       && d(s.accessToken.value).Some? && !Expired(d(s.accessToken.value).value, now)
       && Says(d(s.accessToken.value).value, s.accessToken.value, s.tokenType) == Some(s)
       && Storable(s))
  {
    var token, stored := GetItem(st, AccessToken), GetItem(st, TokenType);
    if token.Some? && d(token.value).Some? {
      TrimIdempotent(st[AccessToken]);
      SaysIsStorable(d(token.value).value, token.value, if stored.Some? then stored.value else "Bearer");
    }
  }

  lemma SaysIsStorable(c: Claims, token: string, tokenType: string)
    requires Plain(Some(token))
    ensures var s := Says(c, token, tokenType);
            s.Some? ==> Storable(s.value) && Says(c, token, s.value.tokenType) == s
  {
    NormalTypeIsFixed(tokenType);
    if NonBlank(c.role).Some? { LowerKeepsTrimmed(NonBlank(c.role).value); }
    NonBlankIsPlain(c.organizationId);
    NonBlankIsPlain(c.email);
    NonBlankIsPlain(c.sub);
    NonBlankIsPlain(c.driverId);
  }

  lemma NonBlankIsPlain(v: Option<string>)
    ensures Plain(NonBlank(v))
  {
    if v.Some? { TrimIdempotent(v.value); }
  }

  /** The value, if any, is stored as it is. */
  predicate Plain(v: Option<string>) {
    v.Some? ==> v.value != "" && Trim(v.value) == v.value
  }

  predicate Storable(s: Session) {
    && s.accessToken.Some? && Plain(s.accessToken) && Plain(Some(s.tokenType)) && Plain(s.organizationId)
    && Plain(s.userEmail) && Plain(s.userRole) && Plain(s.driverId)
  }

  lemma ItemKeeps(st: Storage, k: Key, v: string, k': Key)
    requires k' != k
    ensures Stored(SetItem(st, k, v), k') == Stored(st, k')
  {
  }

  lemma ItemHolds(st: Storage, k: Key, v: Option<string>)
    requires Plain(v)
    ensures Stored(SetItem(st, k, OrBlank(v)), k) == v
  {
    assert Trim("") == "";
  }

  lemma PersistedTokenKeeps(st: Storage, token: string, s: Session, k: Key)
    requires k !in {AccessToken, TokenType, OrganizationId}
    ensures Stored(PersistedToken(st, token, s), k) == Stored(st, k)
  {
    var a := SetItem(st, AccessToken, token);
    ItemKeeps(st, AccessToken, token, k);
    ItemKeeps(a, TokenType, s.tokenType, k);
  }

  lemma PersistedUserKeeps(st: Storage, s: Session, k: Key)
    requires k !in {UserEmail, UserRole, DriverId}
    ensures Stored(PersistedUser(st, s), k) == Stored(st, k)
  {
    var a := SetItem(st, UserEmail, OrBlank(s.userEmail));
    ItemKeeps(st, UserEmail, OrBlank(s.userEmail), k);
    ItemKeeps(a, UserRole, OrBlank(s.userRole), k);
  }

  lemma PersistedTokenHolds(st: Storage, s: Session)
    requires Storable(s)
    ensures var after := PersistedToken(st, s.accessToken.value, s);
            Stored(after, AccessToken) == s.accessToken && Stored(after, TokenType) == Some(s.tokenType)
            && Stored(after, OrganizationId) == s.organizationId
  {
    var before := SetItem(SetItem(st, AccessToken, s.accessToken.value), TokenType, s.tokenType);
    ItemHolds(before, OrganizationId, s.organizationId);
  }

  lemma PersistedUserHolds(st: Storage, s: Session)
    requires Storable(s)
    ensures var after := PersistedUser(st, s);
            Stored(after, UserEmail) == s.userEmail && Stored(after, UserRole) == s.userRole
            && Stored(after, DriverId) == s.driverId
  {
    var a := SetItem(st, UserEmail, OrBlank(s.userEmail));
    ItemHolds(st, UserEmail, s.userEmail);
    ItemHolds(a, UserRole, s.userRole);
  }

  lemma PersistedHolds(st: Storage, s: Session)
    requires Storable(s)
    ensures HoldsSession(Persisted(st, s), s)
  {
    var middle := PersistedToken(st, s.accessToken.value, s);
    PersistedTokenHolds(st, s);
    PersistedUserHolds(middle, s);
    PersistedUserKeeps(middle, s, AccessToken);
    PersistedUserKeeps(middle, s, TokenType);
    PersistedUserKeeps(middle, s, OrganizationId);
  }

  lemma PersistedKeeps(st: Storage, s: Session, k: Key)
    requires s.accessToken.Some? && !IsSessionKey(k)
    ensures Stored(Persisted(st, s), k) == Stored(st, k)
  {
    PersistedTokenKeeps(st, s.accessToken.value, s, k);
    PersistedUserKeeps(PersistedToken(st, s.accessToken.value, s), s, k);
  }

  lemma RestoredAgrees(d: Decoder, now: real, st: Storage)
    ensures Agrees(d, Restored(d, now, st))
    ensures var s, after := Found(d, now, st), Restored(d, now, st);
            if s == EMPTY then NoSession(after) else HoldsSession(after, s)
  {
    FoundIsStorable(d, now, st);
    var s := Found(d, now, st);
    if s != EMPTY { PersistedHolds(st, s); }
  }

  /** Whatever was stored before, every operation leaves session keys that are all
      absent or all as the stored token says. */
  lemma EveryOperationAgrees(d: Decoder, now: real, st: Storage, op: Operation)
    ensures Agrees(d, Next(d, now, st, op))
  {
    if !EndsSession(op) { RestoredAgrees(d, now, Written(st, op)); }
  }

  lemma FieldKeeps(st: Storage, k: Key, f: Field, k': Key)
    requires k' != k
    ensures Stored(SetField(st, k, f), k') == Stored(st, k')
  {
  }

  /** Writing parameters changes no key but the six, and the token by its own alone. */
  lemma ParamsKeep(st: Storage, p: Params, k: Key)
    requires !IsSessionKey(k) || k.AccessToken?
    ensures Stored(WithParams(st, p), k) == Stored(SetField(st, AccessToken, p.accessToken), k)
  {
    var a := SetField(st, AccessToken, p.accessToken);
    var b := SetField(a, TokenType, NormalField(p.tokenType));
    var c := SetField(b, OrganizationId, p.organizationId);
    var e := SetField(c, UserEmail, p.userEmail);
    var f := SetField(e, UserRole, p.userRole);
    FieldKeeps(a, TokenType, NormalField(p.tokenType), k);
    FieldKeeps(b, OrganizationId, p.organizationId, k);
    FieldKeeps(c, UserEmail, p.userEmail, k);
    FieldKeeps(e, UserRole, p.userRole, k);
    FieldKeeps(f, DriverId, p.driverId, k);
  }

  lemma WrittenKeepsOthers(st: Storage, op: Operation, k: Key)
    requires k.Other?
    ensures Stored(Written(st, op), k) == Stored(st, k)
  {
    if op.SetSession? {
      ParamsKeep(st, op.params, k);
      FieldKeeps(st, AccessToken, op.params.accessToken, k);
    }
  }

  lemma RestoredKeepsOthers(d: Decoder, now: real, st: Storage, k: Key)
    requires k.Other?
    ensures Stored(Restored(d, now, st), k) == Stored(st, k)
  {
    FoundIsStorable(d, now, st);
    if Found(d, now, st) != EMPTY { PersistedKeeps(st, Found(d, now, st), k); }
  }

  /** Every operation leaves the keys of everything else as they are. */
  lemma OthersUntouched(d: Decoder, now: real, st: Storage, op: Operation, k: Key)
    requires k.Other?
    ensures Stored(Next(d, now, st, op), k) == Stored(st, k)
  {
    if !EndsSession(op) {
      WrittenKeepsOthers(st, op, k);
      RestoredKeepsOthers(d, now, Written(st, op), k);
    }
  }

  // ---------- reading it back ----------

  /** The session that the store holds. */
  function Held(st: Storage): Session {
    if AccessToken !in st || TokenType !in st then EMPTY
    else Session(Stored(st, AccessToken), st[TokenType], Stored(st, OrganizationId), Stored(st, UserEmail),
                 Stored(st, UserRole), Stored(st, DriverId))
  }

  lemma AgreeingIsStorable(d: Decoder, st: Storage)
    requires Agrees(d, st) && AccessToken in st
    ensures Storable(Held(st)) && HoldsSession(st, Held(st))
    ensures Says(d(st[AccessToken]).value, st[AccessToken], st[TokenType]) == Some(Held(st))
  {
    SaysIsStorable(d(st[AccessToken]).value, st[AccessToken], st[TokenType]);
  }

  /** At any later time the store is read back as it is, or as empty once its token has
      expired. */
  lemma FoundInAgreeing(d: Decoder, now: real, st: Storage)
    requires Agrees(d, st)
    ensures Found(d, now, st) ==
              if AccessToken in st && !Expired(d(st[AccessToken]).value, now) then Held(st) else EMPTY
  {
    if AccessToken in st { AgreeingIsStorable(d, st); }
  }

  lemma SameSession(a: Storage, b: Storage, s: Session)
    requires HoldsSession(a, s) && HoldsSession(b, s)
    requires forall k | !IsSessionKey(k) :: Stored(a, k) == Stored(b, k)
    ensures a == b
  {
    forall k: Key ensures Stored(a, k) == Stored(b, k) {
    }
    assert forall k :: (k in a <==> Stored(a, k).Some?) && (k in b <==> Stored(b, k).Some?);
  }

  /** Restoring again at the same time finds the same session and changes nothing. */
  lemma RestoreIdempotent(d: Decoder, now: real, st: Storage)
    ensures var after := Restored(d, now, st);
            Found(d, now, after) == Found(d, now, st) && Restored(d, now, after) == after
  {
    var after, s := Restored(d, now, st), Found(d, now, st);
    RestoredAgrees(d, now, st);
    FoundInAgreeing(d, now, after);
    FoundIsStorable(d, now, st);
    if s != EMPTY {
      PersistedHolds(after, s);
      forall k | !IsSessionKey(k) ensures Stored(Persisted(after, s), k) == Stored(after, k) {
        PersistedKeeps(after, s, k);
      }
      SameSession(Persisted(after, s), after, s);
    }
  }

  /** The operation brings in a token. */
  predicate SetsToken(op: Operation) {
    op.SetSession? && op.params.accessToken.Value? && Trim(op.params.accessToken.text) != ""
  }

  /** The claims name an end that lies more than `seconds` ahead. */
  predicate ValidFor(c: Claims, now: real, seconds: real) {
    c.exp.Some? && c.exp.value > now + seconds
  }

  /** What an operation says of the token's type: its text, nothing, or what is stored. */
  function GivenType(st: Storage, op: Operation): string {
    if op.SetTokenType? then op.text
    else if op.SetSession? && op.params.tokenType.Value? then op.params.tokenType.text
    else if op.SetSession? && op.params.tokenType.Null? then ""
    else if TokenType in st then st[TokenType] else ""
  }

  /** The type is sent as "Bearer" when it is blank or that word in any case, and trimmed otherwise. */
  predicate IsSentAs(given: string, sent: string) {
    if Trim(given) == "" || Lower(Trim(given)) == "bearer" then sent == "Bearer" else sent == Trim(given)
  }

  /** Reading a stored type trims it, and takes "Bearer" for a blank one. */
  lemma TypeRead(stored: Option<string>)
    ensures var t := NonBlank(stored);
            NormalizeTokenType(if t.Some? then t.value else "Bearer") == NormalizeTokenType(OrBlank(stored))
  {
    NormalOfBlank();
    if stored.Some? { TrimIdempotent(stored.value); }
  }

  lemma FieldType(st: Storage, f: Field)
    ensures NormalizeTokenType(OrBlank(Stored(SetField(st, TokenType, NormalField(f)), TokenType))) ==
              NormalizeTokenType(if f.Value? then f.text else if f.Null? then "" else OrBlank(Stored(st, TokenType)))
  {
    if f.Value? { NormalTypeIsFixed(f.text); }
  }

  lemma TypeInSession(st: Storage, p: Params)
    ensures NormalizeTokenType(OrBlank(Stored(WithParams(st, p), TokenType))) ==
              NormalizeTokenType(GivenType(st, SetSession(p)))
  {
    ParamsType(st, p);
    FieldType(st, p.tokenType);
  }

  lemma TypeKept(st: Storage, op: Operation)
    requires !op.SetSession? && !op.SetTokenType?
    ensures OrBlank(Stored(Written(st, op), TokenType)) == GivenType(st, op)
  {
    match op
    case SetOrganizationId(v) => ItemKeeps(st, OrganizationId, v, TokenType);
    case SetUserEmail(v) => ItemKeeps(st, UserEmail, v, TokenType);
    case SetUserRole(v) => ItemKeeps(st, UserRole, v, TokenType);
    case SetDriverId(v) => ItemKeeps(st, DriverId, v, TokenType);
    case Restore =>
    case Clear =>
  }

  lemma TypeWritten(st: Storage, op: Operation)
    ensures NormalizeTokenType(OrBlank(Stored(Written(st, op), TokenType))) == NormalizeTokenType(GivenType(st, op))
  {
    if op.SetSession? {
      TypeInSession(st, op.params);
    } else if op.SetTokenType? {
      FieldType(st, Value(op.text));
    } else {
      TypeKept(st, op);
    }
  }

  lemma NormalOfBlank()
    ensures NormalizeTokenType("") == "Bearer" == NormalizeTokenType("Bearer")
  {
    NormalTypeIsFixed("");
    assert Trim("") == "";
  }

  lemma ParamsType(st: Storage, p: Params)
    ensures Stored(WithParams(st, p), TokenType) == Stored(SetField(st, TokenType, NormalField(p.tokenType)), TokenType)
  {
    var a := SetField(st, AccessToken, p.accessToken);
    var b := SetField(a, TokenType, NormalField(p.tokenType));
    var c := SetField(b, OrganizationId, p.organizationId);
    var e := SetField(c, UserEmail, p.userEmail);
    var f := SetField(e, UserRole, p.userRole);
    FieldKeeps(st, AccessToken, p.accessToken, TokenType);
    FieldKeeps(b, OrganizationId, p.organizationId, TokenType);
    FieldKeeps(c, UserEmail, p.userEmail, TokenType);
    FieldKeeps(e, UserRole, p.userRole, TokenType);
    FieldKeeps(f, DriverId, p.driverId, TokenType);
  }

  /** While a session lasts every operation leaves the type as it was given last. */
  lemma TypeIsAsGiven(d: Decoder, now: real, st: Storage, op: Operation)
    requires AccessToken in Next(d, now, st, op)
    ensures var after := Next(d, now, st, op); TokenType in after && IsSentAs(GivenType(st, op), after[TokenType])
  {
    var before := Written(st, op);
    TypeWritten(st, op);
    TypeRead(Stored(before, TokenType));
    RestoredAgrees(d, now, before);
    var s := Found(d, now, before);
    assert s != EMPTY && Stored(Restored(d, now, before), TokenType) == Some(s.tokenType);
  }

  /** A token is kept exactly when it can be read, has more than thirty seconds left and names an
      organization and a role; then the store holds what it says. */
  lemma SignedInIff(d: Decoder, now: real, st: Storage, p: Params)
    requires SetsToken(SetSession(p))
    ensures var token, after := Trim(p.accessToken.text), Next(d, now, st, SetSession(p));
            AccessToken in after <==>
              && d(token).Some? && ValidFor(d(token).value, now, 30.0)
              && NonBlank(d(token).value.organizationId).Some? && NonBlank(d(token).value.role).Some?
    ensures var token, after := Trim(p.accessToken.text), Next(d, now, st, SetSession(p));
            AccessToken in after ==>
              && after[AccessToken] == token
              && Stored(after, OrganizationId) == NonBlank(d(token).value.organizationId)
              && Stored(after, UserRole) == Some(Lower(NonBlank(d(token).value.role).value))
              && Stored(after, UserEmail) == OrElse(NonBlank(d(token).value.email), NonBlank(d(token).value.sub))
              && Stored(after, DriverId) == NonBlank(d(token).value.driverId)
  {
    var token, before := Trim(p.accessToken.text), WithParams(st, p);
    TrimIdempotent(p.accessToken.text);
    ParamsKeep(st, p, AccessToken);
    assert GetItem(before, AccessToken) == Some(token);
    RestoredAgrees(d, now, before);
    TokenIsFound(d, now, before);
  }

  lemma TokenIsFound(d: Decoder, now: real, st: Storage)
    requires GetItem(st, AccessToken).Some?
    ensures var token, s := GetItem(st, AccessToken).value, Found(d, now, st);
            (s != EMPTY <==>
              && d(token).Some? && !Expired(d(token).value, now)
              && NonBlank(d(token).value.organizationId).Some? && NonBlank(d(token).value.role).Some?)
            && (s != EMPTY ==>
              && s.accessToken == Some(token)
              && s.organizationId == NonBlank(d(token).value.organizationId)
              && s.userRole == Some(Lower(NonBlank(d(token).value.role).value))
              && s.userEmail == OrElse(NonBlank(d(token).value.email), NonBlank(d(token).value.sub))
              && s.driverId == NonBlank(d(token).value.driverId))
  {
  }

  // ---------- whole runs ----------

  datatype Event = Event(now: real, op: Operation)

  function Run(d: Decoder, st: Storage, t: seq<Event>): Storage {
    if t == [] then st else Next(d, t[|t| - 1].now, Run(d, st, t[..|t| - 1]), t[|t| - 1].op)
  }

  /** After any run of operations on any store whatever, the store agrees with its token. */
  lemma RunAgrees(d: Decoder, st: Storage, t: seq<Event>)
    requires t != []
    ensures Agrees(d, Run(d, st, t))
  {
    EveryOperationAgrees(d, t[|t| - 1].now, Run(d, st, t[..|t| - 1]), t[|t| - 1].op);
  }

  /** The two stores hold the same session, up to how its token is to be sent. */
  predicate SameIdentity(a: Storage, b: Storage) {
    && AccessToken in a && AccessToken in b
    && Stored(a, AccessToken) == Stored(b, AccessToken) && Stored(a, OrganizationId) == Stored(b, OrganizationId)
    && Stored(a, UserEmail) == Stored(b, UserEmail) && Stored(a, UserRole) == Stored(b, UserRole)
    && Stored(a, DriverId) == Stored(b, DriverId)
  }

  /** Two agreeing stores with one token hold one identity. */
  lemma TokenFixesIdentity(d: Decoder, a: Storage, b: Storage)
    requires Agrees(d, a) && Agrees(d, b) && AccessToken in a && AccessToken in b && a[AccessToken] == b[AccessToken]
    ensures SameIdentity(a, b)
  {
    AgreeingIsStorable(d, a);
    AgreeingIsStorable(d, b);
  }

  lemma TokenAfter(d: Decoder, now: real, st: Storage, op: Operation)
    requires Agrees(d, st) && !SetsToken(op)
    ensures var after := Next(d, now, st, op);
            AccessToken in after ==> AccessToken in st && after[AccessToken] == st[AccessToken]
    ensures AccessToken !in Next(d, now, st, op) ==> forall k | k in Next(d, now, st, op) :: k.Other?
  {
    if !EndsSession(op) {
      var before := Written(st, op);
      TokenWritten(st, op);
      RestoredAgrees(d, now, before);
      FoundIsStorable(d, now, before);
    }
  }

  /** Without a token of its own an operation leaves the stored one or removes it. */
  lemma TokenWritten(st: Storage, op: Operation)
    requires !SetsToken(op)
    ensures Stored(Written(st, op), AccessToken) in {None, Stored(st, AccessToken)}
  {
    if op.SetSession? { ParamsKeep(st, op.params, AccessToken); }
  }

  /** Until a token is set, a run of operations keeps the identity it began with or ends
      with no session; no setter gives the session another organization or role. */
  lemma {:induction false} IdentityIsFixed(d: Decoder, st: Storage, t: seq<Event>)
    requires Agrees(d, st) && forall i | 0 <= i < |t| :: !SetsToken(t[i].op)
    ensures var after := Run(d, st, t); Agrees(d, after) && (AccessToken in after ==> SameIdentity(after, st))
  {
    if t != [] {
      var front, e := t[..|t| - 1], t[|t| - 1];
      IdentityIsFixed(d, st, front);
      var before := Run(d, st, front);
      EveryOperationAgrees(d, e.now, before, e.op);
      TokenAfter(d, e.now, before, e.op);
      if AccessToken in Run(d, st, t) { TokenFixesIdentity(d, Run(d, st, t), st); }
    }
  }

  /** Once a session is gone it stays gone until a token is set, and no session key of
      this or an older release is left. */
  lemma {:induction false} ClearedStaysCleared(d: Decoder, st: Storage, t: seq<Event>)
    requires Agrees(d, st) && AccessToken !in st && t != [] && forall i | 0 <= i < |t| :: !SetsToken(t[i].op)
    ensures forall k | k in Run(d, st, t) :: k.Other?
  {
    var front, e := t[..|t| - 1], t[|t| - 1];
    IdentityIsFixed(d, st, front);
    TokenAfter(d, e.now, Run(d, st, front), e.op);
  }

  /** A restore ends the session exactly when its token has no more than thirty seconds left. */
  lemma RestoreEndsIff(d: Decoder, now: real, st: Storage)
    requires Agrees(d, st) && AccessToken in st
    ensures AccessToken in Restored(d, now, st) <==> ValidFor(d(st[AccessToken]).value, now, 30.0)
    ensures AccessToken in Restored(d, now, st) ==> Held(Restored(d, now, st)) == Held(st)
  {
    FoundInAgreeing(d, now, st);
    AgreeingIsStorable(d, st);
    RestoredAgrees(d, now, st);
  }

  // ---------- the store itself ----------

  class AuthStore {
    const decode: Decoder
    var items: Storage

    constructor (decode: Decoder, items: Storage)
      ensures this.decode == decode && this.items == items
    {
      this.decode := decode;
      this.items := items;
    }

    method SetStorageItem(k: Key, v: string)
      modifies this
      ensures items == SetItem(old(items), k, v)
    {
      var normalized := Trim(v);
      if |normalized| == 0 {
        items := items - {k};
        return;
      }
      items := items[k := normalized];
    }

    method ClearAuth()
      modifies this
      ensures items == Cleared(old(items))
    {
      for i := 0 to |AUTH_STORAGE_KEYS|
        invariant forall k :: k in items <==> k in old(items) && k !in AUTH_STORAGE_KEYS[..i]
        invariant forall k | k in items :: items[k] == old(items)[k]
      {
        items := items - {AUTH_STORAGE_KEYS[i]};
      }
      EveryAuthKeyIsListed();
    }

    method PersistDerivedSession(s: Session)
      modifies this
      ensures items == Persisted(old(items), s)
    {
      if s.accessToken.None? {
        ClearAuth();
        return;
      }
      SetStorageItem(AccessToken, s.accessToken.value);
      SetStorageItem(TokenType, s.tokenType);
      SetStorageItem(OrganizationId, OrBlank(s.organizationId));
      SetStorageItem(UserEmail, OrBlank(s.userEmail));
      SetStorageItem(UserRole, OrBlank(s.userRole));
      if s.driverId.Some? {
        SetStorageItem(DriverId, s.driverId.value);
      } else {
        items := items - {DriverId};
      }
    }

    method RestoreAuthSession(now: real) returns (s: Session)
      modifies this
      ensures items == Restored(decode, now, old(items))
      ensures s == Found(decode, now, old(items))
    {
      var token := GetItem(items, AccessToken);
      if token.None? {
        ClearAuth();
        return EMPTY;
      }
      var tokenType := GetItem(items, TokenType);
      var session := Derive(decode, now, token.value, if tokenType.Some? then tokenType.value else "Bearer");
      if session.None? {
        ClearAuth();
        return EMPTY;
      }
      PersistDerivedSession(session.value);
      return session.value;
    }

    method SetOneField(k: Key, f: Field)
      modifies this
      ensures items == SetField(old(items), k, f)
    {
      match f
      case Undefined =>
      case Null => items := items - {k};
      case Value(v) => SetStorageItem(k, v);
    }

    method SetAuthSession(now: real, p: Params)
      modifies this
      ensures items == Next(decode, now, old(items), SetSession(p))
    {
      if p.accessToken.Null? {
        ClearAuth();
        return;
      }
      SetOneField(AccessToken, p.accessToken);
      SetOneField(TokenType, NormalField(p.tokenType));
      SetOneField(OrganizationId, p.organizationId);
      SetOneField(UserEmail, p.userEmail);
      SetOneField(UserRole, p.userRole);
      SetOneField(DriverId, p.driverId);
      var session := RestoreAuthSession(now);
      if session.accessToken.None? {
        ClearAuth();
      }
    }

    /** `setUserRole`; the setters of the other single fields have its form. */
    method SetRole(now: real, role: string)
      modifies this
      ensures items == Next(decode, now, old(items), SetUserRole(role))
    {
      SetStorageItem(UserRole, role);
      var session := RestoreAuthSession(now);
    }

    method SetType(now: real, tokenType: string)
      modifies this
      ensures items == Next(decode, now, old(items), SetTokenType(tokenType))
    {
      SetStorageItem(TokenType, NormalizeTokenType(tokenType));
      var session := RestoreAuthSession(now);
    }
  }

  lemma EveryAuthKeyIsListed()
    ensures forall k :: k in AUTH_STORAGE_KEYS <==> !k.Other?
  {
    forall k: Key | !k.Other? ensures k in AUTH_STORAGE_KEYS {
      KeyIsListed(k);
    }
  }

  lemma KeyIsListed(k: Key)
    requires !k.Other?
    ensures k in AUTH_STORAGE_KEYS
  {
    var s := AUTH_STORAGE_KEYS;
    match k
    case AccessToken => assert s[0] == k;
    case TokenType => assert s[1] == k;
    case OrganizationId => assert s[2] == k;
    case UserEmail => assert s[3] == k;
    case UserRole => assert s[4] == k;
    case DriverId => assert s[5] == k;
    case OldAccessToken => assert s[6] == k;
    case OldTokenType => assert s[7] == k;
    case OldOrganizationId => assert s[8] == k;
    case OldUserEmail => assert s[9] == k;
    case OldUserRole => assert s[10] == k;
    case OldDriverId => assert s[11] == k;
    case OldAuthToken => assert s[12] == k;
    case OldAuthUser => assert s[13] == k;
    case OldAuthSession => assert s[14] == k;
  }
}
