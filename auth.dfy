/** The authentication service: the users collection, the refresh-token
    collection keyed by user, and the issue and rotation of token pairs.
    Hashing, signing and fresh token ids come from outside. */
module Auth {
  import opened Wrappers
  import opened Jwt
  import opened Schema

  /** A users document; `password` holds the hash. */
  datatype User = User(id: UserId, name: string, email: string, password: string)

  /** A refresh-token document, without its owner (the table's key).
      `expiryDate` is a time in milliseconds. */
  datatype RefreshRecord = RefreshRecord(token: string, expiryDate: int)

  datatype TokenPair = TokenPair(accessToken: string, refreshToken: string)

  /** A user as `select('-password')` returns it. */
  datatype Profile = Profile(id: UserId, name: string, email: string)

  /** bcrypt: `hash(password, salt)`, and `compare(password, hash)`. */
  datatype Bcrypt = Bcrypt(hash: (string, string) -> string, compare: (string, string) -> bool)

  /** `setDate(getDate() + 3)`: three days of 24 hours (days lengthened or
      shortened by a change of local time are not modelled). */
  const ThreeDays: int := 3 * 24 * 60 * 60 * 1000

  /** The user field a lookup matches on. */
  datatype UserField = Email | Id

  function FieldOf(u: User, f: UserField): string
  {
    match f
    case Email => u.email
    case Id => u.id
  }

  /** `findOne({ email })` and `findById(userId)`: the first user whose
      field `f` is `v`. */
  function FindUser(users: seq<User>, f: UserField, v: string): (r: Option<User>)
    ensures r.Some? ==> r.value in users && FieldOf(r.value, f) == v
    ensures r.None? <==> forall i :: 0 <= i < |users| ==> FieldOf(users[i], f) != v
  {
    if users == [] then None
    else if FieldOf(users[0], f) == v then Some(users[0])
    else FindUser(users[1..], f, v)
  }

  function ProfileOf(u: User): (p: Profile)
    ensures p.id == u.id && p.name == u.name && p.email == u.email
  {
    Profile(u.id, u.name, u.email)
  }

  predicate EmailsDistinct(users: seq<User>)
  {
    forall i, j :: 0 <= i < j < |users| ==> users[i].email != users[j].email
  }

  predicate IdsDistinct(users: seq<User>)
  {
    forall i, j :: 0 <= i < j < |users| ==> users[i].id != users[j].id
  }

  /** With unique ids, the record found by id is the one at that id. */
  lemma {:induction false} FindByIdUnique(users: seq<User>, i: nat)
    requires IdsDistinct(users) && i < |users|
    ensures FindUser(users, Id, users[i].id) == Some(users[i])
  {
    if i > 0 {
      assert users[0].id != users[i].id;
      assert users[1..][i - 1] == users[i];
      FindByIdUnique(users[1..], i - 1);
    }
  }

  /** `storeRefreshTokem`: the upsert keyed by user, expiring three days
      after `now`. */
  function Upsert(table: map<UserId, RefreshRecord>, userId: UserId, token: string, now: int)
    : (r: map<UserId, RefreshRecord>)
    ensures r.Keys == table.Keys + {userId}
    ensures r[userId] == RefreshRecord(token, now + ThreeDays)
    ensures forall u :: u in table && u != userId ==> r[u] == table[u]
  {
    table[userId := RefreshRecord(token, now + ThreeDays)]
  }

  /** The owners of records that `findOne({ token, expiryDate: { $gte: now } })`
      can return. */
  function Redeemers(table: map<UserId, RefreshRecord>, token: string, now: int): (r: set<UserId>)
    ensures forall u :: u in r <==> u in table && table[u].token == token && table[u].expiryDate >= now
  {
    set u | u in table && table[u].token == token && table[u].expiryDate >= now
  }

  /** No two users share a refresh token. */
  predicate TokensDistinct(table: map<UserId, RefreshRecord>)
  {
    forall u, v :: u in table && v in table && u != v ==> table[u].token != table[v].token
  }

  predicate TokenInUse(table: map<UserId, RefreshRecord>, token: string)
  {
    exists u :: u in table && table[u].token == token
  }

  /** A fresh token keeps the tokens distinct. */
  lemma UpsertKeepsTokensDistinct(table: map<UserId, RefreshRecord>, userId: UserId, token: string, now: int)
    requires TokensDistinct(table) && !TokenInUse(table, token)
    ensures TokensDistinct(Upsert(table, userId, token, now))
  {
    var r := Upsert(table, userId, token, now);
    forall u, v | u in r && v in r && u != v ensures r[u].token != r[v].token {
      if u == userId {
        assert r[v] == table[v];
      } else if v == userId {
        assert r[u] == table[u];
      }
    }
  }

  /** Rotation: after the owner of `stale` gets the renewed token, `stale`
      redeems for nobody, at any time. */
  lemma RotationRevokesOldToken(table: map<UserId, RefreshRecord>, userId: UserId, stale: string,
                                renewed: string, now: int, later: int)
    requires TokensDistinct(table)
    requires userId in table && table[userId].token == stale
    requires renewed != stale
    ensures Redeemers(Upsert(table, userId, renewed, now), stale, later) == {}
  {
    var r := Upsert(table, userId, renewed, now);
    forall u | u in r ensures r[u].token != stale {
      if u != userId {
        assert table[u].token != table[userId].token;
      }
    }
  }

  /** The renewed token redeems for its owner alone until it expires. */
  lemma FreshTokenRedeemsForOwner(table: map<UserId, RefreshRecord>, userId: UserId, renewed: string,
                                  now: int, later: int)
    requires !TokenInUse(table, renewed)
    requires later <= now + ThreeDays
    ensures Redeemers(Upsert(table, userId, renewed, now), renewed, later) == {userId}
  {
    var r := Upsert(table, userId, renewed, now);
    forall u | u in r && u != userId ensures r[u].token != renewed {
      assert r[u] == table[u];
    }
  }

  /** A record is still accepted at the very instant it expires. */
  lemma ExpiryIsInclusive(table: map<UserId, RefreshRecord>, userId: UserId, token: string, now: int)
    ensures userId in Redeemers(Upsert(table, userId, token, now), token, now + ThreeDays)
    ensures Redeemers(Upsert(table, userId, token, now), token, now + ThreeDays + 1) ==
            Redeemers(table - {userId}, token, now + ThreeDays + 1)
  {
    var r := Upsert(table, userId, token, now);
    assert userId in r && r[userId].token == token;
  }

  class AuthService {
    var users: seq<User>
    /** The refresh-token collection, keyed by its `userId`. */
    var refreshTokens: map<UserId, RefreshRecord>
    const bcrypt: Bcrypt
    const jwt: JwtService

    ghost predicate Valid()
      reads this
    {
      EmailsDistinct(users) && IdsDistinct(users) && TokensDistinct(refreshTokens)
    }

    constructor (bcrypt: Bcrypt, jwt: JwtService)
      ensures Valid() && users == [] && refreshTokens == map[]
      ensures this.bcrypt == bcrypt && this.jwt == jwt
    {
      this.bcrypt := bcrypt;
      this.jwt := jwt;
      users := [];
      refreshTokens := map[];
    }

    /** `register`: Conflict for an email in use; otherwise a new user with
        the hashed password. `salt` is bcrypt's random salt, `newId` the new
        document's id. */
    method Register(name: string, email: string, password: string, salt: string, newId: UserId)
      returns (r: Result<User>)
      requires Valid()
      requires FindUser(users, Id, newId).None?
      modifies this
      ensures Valid() && refreshTokens == old(refreshTokens)
      ensures r.Err? <==> FindUser(old(users), Email, email).Some?
      ensures r.Err? ==> r.error == Conflict && users == old(users)
      ensures r.Ok? ==> r.value == User(newId, name, email, bcrypt.hash(password, salt))
      ensures r.Ok? ==> users == old(users) + [r.value]
    {
      if FindUser(users, Email, email).Some? {
        return Err(Conflict);
      }
      var u := User(newId, name, email, bcrypt.hash(password, salt));
      users := users + [u];
      return Ok(u);
    }

    /** `storeRefreshTokem`. */
    method StoreRefreshToken(token: string, userId: UserId, now: int)
      requires Valid() && !TokenInUse(refreshTokens, token)
      modifies this
      ensures Valid() && users == old(users)
      ensures refreshTokens == Upsert(old(refreshTokens), userId, token, now)
    {
      UpsertKeepsTokensDistinct(refreshTokens, userId, token, now);
      refreshTokens := Upsert(refreshTokens, userId, token, now);
    }

    /** `generateUserToken`: an access token for `userId` and a fresh
        refresh token, which replaces the user's previous one. */
    method GenerateUserToken(userId: UserId, freshToken: string, now: int) returns (pair: TokenPair)
      requires Valid() && !TokenInUse(refreshTokens, freshToken)
      modifies this
      ensures Valid() && users == old(users)
      ensures pair == TokenPair(jwt.sign(userId), freshToken)
      ensures refreshTokens == Upsert(old(refreshTokens), userId, freshToken, now)
    {
      var accessToken := jwt.sign(userId);
      StoreRefreshToken(freshToken, userId, now);
      pair := TokenPair(accessToken, freshToken);
    }

    /** `login`: Unauthorized for an unknown email or a wrong password,
        without touching the tokens; otherwise a new pair for the user. */
    method Login(email: string, password: string, freshToken: string, now: int) returns (r: Result<TokenPair>)
      requires Valid() && !TokenInUse(refreshTokens, freshToken)
      modifies this
      ensures Valid() && users == old(users)
      ensures r.Ok? <==> FindUser(users, Email, email).Some? &&
                         bcrypt.compare(password, FindUser(users, Email, email).value.password)
      ensures r.Err? ==> r.error == Unauthorized && refreshTokens == old(refreshTokens)
      ensures r.Ok? ==>
                var u := FindUser(users, Email, email).value;
                r.value == TokenPair(jwt.sign(u.id), freshToken) &&
                refreshTokens == Upsert(old(refreshTokens), u.id, freshToken, now)
    {
      var found := FindUser(users, Email, email);
      if found.None? {
        return Err(Unauthorized);
      }
      if !bcrypt.compare(password, found.value.password) {
        return Err(Unauthorized);
      }
      var pair := GenerateUserToken(found.value.id, freshToken, now);
      return Ok(pair);
    }

    /** `refreshTokensFuntion`: Unauthorized unless some record holds the
        token and has not expired by `now`; otherwise a new pair for that
        record's owner, whose old token then redeems no more. */
    method RefreshTokens(refreshToken: string, freshToken: string, now: int) returns (r: Result<TokenPair>)
      requires Valid() && !TokenInUse(refreshTokens, freshToken)
      modifies this
      ensures Valid() && users == old(users)
      ensures r.Ok? <==> Redeemers(old(refreshTokens), refreshToken, now) != {}
      ensures r.Err? ==> r.error == Unauthorized && refreshTokens == old(refreshTokens)
      ensures r.Ok? ==> exists u :: u in Redeemers(old(refreshTokens), refreshToken, now) &&
                          r.value == TokenPair(jwt.sign(u), freshToken) &&
                          refreshTokens == Upsert(old(refreshTokens), u, freshToken, now)
      ensures r.Ok? ==> forall later :: Redeemers(refreshTokens, refreshToken, later) == {}
    {
      var owners := Redeemers(refreshTokens, refreshToken, now);
      if owners == {} {
        return Err(Unauthorized);
      }
      var u :| u in owners;
      assert refreshToken != freshToken by {
        assert refreshTokens[u].token == refreshToken;
      }
      forall later ensures Redeemers(Upsert(refreshTokens, u, freshToken, now), refreshToken, later) == {} {
        RotationRevokesOldToken(refreshTokens, u, refreshToken, freshToken, now, later);
      }
      var pair := GenerateUserToken(u, freshToken, now);
      return Ok(pair);
    }

    /** `getProfileWithToken`: the profile of the user a verified token
        names; every failure, a missing user included, is Unauthorized. */
    function GetProfileWithToken(token: string): (r: Result<Profile>)
      reads this
      ensures r.Err? ==> r.error == Unauthorized
      ensures r.Ok? <==> jwt.verify(token).Some? && Truthy(jwt.verify(token).value.userId) &&
                         FindUser(users, Id, jwt.verify(token).value.userId.value).Some?
      ensures r.Ok? ==> r.value == ProfileOf(FindUser(users, Id, jwt.verify(token).value.userId.value).value)
    {
      match jwt.verify(token)
      case None => Err(Unauthorized)
      case Some(p) =>
        if !Truthy(p.userId) then Err(Unauthorized)
        else match FindUser(users, Id, p.userId.value)
          case None => Err(Unauthorized)
          case Some(u) => Ok(ProfileOf(u))
    }
  }

  /** A token signed for a registered user yields that user's profile. */
  lemma SignedTokenYieldsProfile(svc: AuthService, i: nat)
    requires svc.Valid() && i < |svc.users| && svc.users[i].id != ""
    requires SignedVerifies(svc.jwt)
    ensures svc.GetProfileWithToken(svc.jwt.sign(svc.users[i].id)) == Ok(ProfileOf(svc.users[i]))
  {
    FindByIdUnique(svc.users, i);
  }
}
