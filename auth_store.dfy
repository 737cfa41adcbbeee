/**
 * The front end's authentication store: an in-memory token and flag,
 * initialised from and written through to the browser's key/value storage.
 */
module Auth {

  /** `localStorage`: string keys to string values. */
  type Storage = map<string, string>

  const JwtKey: string := "jwt"
  const AuthKey: string := "isAuthenticated"

  /** The text a boolean converts to. */
  function BoolText(b: bool): string
  {
    if b then "true" else "false"
  }

  /** The token read back from storage: the stored one, or empty when none is stored. */
  function LoadJwt(st: Storage): string
  {
    if JwtKey in st then st[JwtKey] else ""
  }

  /** The flag read back from storage: set exactly when the stored text is "true". */
  predicate LoadAuthenticated(st: Storage)
  {
    AuthKey in st && st[AuthKey] == "true"
  }

  /** The storage after `setJwt(jwt)`. */
  function StoreJwt(st: Storage, jwt: string): Storage
  {
    st[JwtKey := jwt][AuthKey := "true"]
  }

  /** The storage after `setIsAuthenticated(val)`: logging out also removes the token. */
  function StoreAuthenticated(st: Storage, val: bool): Storage
  {
    if val then st[AuthKey := BoolText(val)] else st[AuthKey := BoolText(val)] - {JwtKey}
  }

  /**
   * What the in-memory fields and the storage agree on: the flag always
   * mirrors the stored flag, and a stored token is the in-memory one.  A
   * logged-out store may keep an in-memory token that storage no longer has.
   */
  ghost predicate Mirrored(jwt: string, isAuthenticated: bool, st: Storage)
  {
    (isAuthenticated <==> LoadAuthenticated(st)) &&
    (JwtKey in st ==> st[JwtKey] == jwt)
  }

  class AuthStore {
    /** `_jwt` */
    var jwt: string
    /** `_isAuthenticated` */
    var isAuthenticated: bool
    /** The browser's `localStorage`. */
    var storage: Storage

    ghost predicate Valid()
      reads this
    {
      Mirrored(jwt, isAuthenticated, storage)
    }

    /** `createAuthStore()`: both fields are read back from storage. */
    constructor (storage: Storage)
      ensures Valid()
      ensures this.storage == storage
      ensures jwt == LoadJwt(storage)
      ensures isAuthenticated <==> LoadAuthenticated(storage)
    {
      this.storage := storage;
      jwt := LoadJwt(storage);
      isAuthenticated := LoadAuthenticated(storage);
    }

    /** `setJwt`: logs in with `token`, in memory and in storage. */
    method SetJwt(token: string)
      requires Valid()
      modifies this
      ensures Valid()
      ensures jwt == token && isAuthenticated
      ensures storage == StoreJwt(old(storage), token)
    {
      jwt := token;
      isAuthenticated := true;
      storage := storage[JwtKey := token];
      storage := storage[AuthKey := "true"];
    }

    /**
     * `setIsAuthenticated`: sets the flag in memory and in storage; logging
     * out removes the stored token but keeps the in-memory one.
     */
    method SetIsAuthenticated(val: bool)
      requires Valid()
      modifies this
      ensures Valid()
      ensures isAuthenticated == val
      ensures jwt == old(jwt)
      ensures storage == StoreAuthenticated(old(storage), val)
    {
      isAuthenticated := val;
      storage := storage[AuthKey := BoolText(val)];
      if !val {
        storage := storage - {JwtKey};
      }
    }

    /** `getIsAuthenticated`. */
    method GetIsAuthenticated() returns (b: bool)
      requires Valid()
      ensures b == isAuthenticated
      ensures b <==> LoadAuthenticated(storage)
    {
      b := isAuthenticated;
    }

    /** `getJwt`: the in-memory token, which is the stored one whenever one is stored. */
    method GetJwt() returns (token: string)
      requires Valid()
      ensures JwtKey in storage ==> token == storage[JwtKey]
      ensures token == jwt
    {
      token := jwt;
    }
  }

  /** Reloading after `setJwt(token)` restores the same token and flag. */
  lemma ReloadAfterSetJwt(st: Storage, token: string)
    ensures LoadJwt(StoreJwt(st, token)) == token
    ensures LoadAuthenticated(StoreJwt(st, token))
  {
  }

  /**
   * Reloading after `setIsAuthenticated(val)` restores the flag; after a
   * logout it finds no token, after a login the token stored before.
   */
  lemma ReloadAfterSetAuthenticated(st: Storage, val: bool)
    ensures LoadAuthenticated(StoreAuthenticated(st, val)) == val
    ensures !val ==> LoadJwt(StoreAuthenticated(st, val)) == ""
    ensures val ==> LoadJwt(StoreAuthenticated(st, val)) == LoadJwt(st)
  {
  }

  /** After a logout the in-memory token survives while a reload would find none. */
  method LogoutKeepsInMemoryToken()
  {
    var store := new AuthStore(map[]);
    store.SetJwt("abc");
    store.SetIsAuthenticated(false);
    var token := store.GetJwt();
    var authenticated := store.GetIsAuthenticated();
    assert token == "abc" && !authenticated;
    assert JwtKey !in store.storage && LoadJwt(store.storage) == "";
  }
}
