/** The token codec, abstracted. Each secret is a keyring: the map from every
    string it has signed to the claims signed into it. Verifying against a
    keyring rejects strings it never signed, and signed strings from their
    expiry on. Signing draws a string from a serial counter, so that no string
    is signed twice; this is the freshness assumption of the model (a real JWT
    signer is deterministic and repeats itself within one clock second). */
module Jwt {
  import opened Types

  /** Default lifetimes in seconds: '15m' for access, '7d' for refresh tokens. */
  const AccessTtl: int := 900
  const RefreshTtl: int := 604800

  /** What a signed token carries: the payload and its expiry instant. */
  datatype Claims = Claims(payload: TokenPayload, exp: int)

  /** The two ways verification fails. */
  datatype JwtError = JsonWebTokenError | TokenExpiredError

  /** Verification of `token` at clock `now` against one secret's keyring. */
  function Verify(keyring: map<string, Claims>, token: string, now: int): (r: Result<TokenPayload, JwtError>)
    ensures r.Ok? <==> token in keyring && now < keyring[token].exp
    ensures r.Ok? ==> r.value == keyring[token].payload
    ensures r == Err(TokenExpiredError) <==> token in keyring && keyring[token].exp <= now
  {
    if token !in keyring then Err(JsonWebTokenError)
    else if now >= keyring[token].exp then Err(TokenExpiredError)
    else Ok(keyring[token].payload)
  }

  function DigitChar(d: nat): char
    requires d < 10
  {
    "0123456789"[d]
  }

  /** Decimal notation of a serial number. */
  function Decimal(n: nat): (s: string)
    ensures |s| >= 1
    decreases n
  {
    if n < 10 then [DigitChar(n)] else Decimal(n / 10) + [DigitChar(n % 10)]
  }

  lemma {:induction false} DecimalDistinct(a: nat, b: nat)
    requires a != b
    ensures Decimal(a) != Decimal(b)
    decreases a
  {
    if a < 10 && b < 10 {
      assert Decimal(a)[0] != Decimal(b)[0];
    } else if a < 10 || b < 10 {
      assert |Decimal(a)| != |Decimal(b)|;
    } else if a % 10 != b % 10 {
      assert Decimal(a)[|Decimal(a)| - 1] != Decimal(b)[|Decimal(b)| - 1];
    } else {
      DecimalDistinct(a / 10, b / 10);
      assert Decimal(a)[..|Decimal(a)| - 1] == Decimal(a / 10);
      assert Decimal(b)[..|Decimal(b)| - 1] == Decimal(b / 10);
    }
  }

  /** The string signed with serial number `serial`. */
  function TokenText(serial: nat): string {
    "jwt." + Decimal(serial)
  }

  lemma TokenTextDistinct(a: nat, b: nat)
    requires a != b
    ensures TokenText(a) != TokenText(b)
  {
    DecimalDistinct(a, b);
    assert TokenText(a)[4..] == Decimal(a);
    assert TokenText(b)[4..] == Decimal(b);
  }

  /** `t` is one of the first `n` strings the signer produced. */
  ghost predicate SignedBefore(t: string, n: nat) {
    exists k: nat :: k < n && t == TokenText(k)
  }

  /** The next serial's string is in no keyring built from earlier serials. */
  lemma NextTextIsFresh(keys: set<string>, n: nat)
    requires forall t :: t in keys ==> SignedBefore(t, n)
    ensures TokenText(n) !in keys
  {
    forall k: nat | k < n
      ensures TokenText(k) != TokenText(n)
    {
      TokenTextDistinct(k, n);
    }
  }

  /** The signer behind `generateAccessToken` and `generateRefreshToken`:
      two secrets, one keyring each, and a shared serial counter. */
  class TokenSigner {
    var issued: nat
    var accessKeys: map<string, Claims>
    var refreshKeys: map<string, Claims>

    ghost predicate Valid()
      reads this
    {
      && (forall t :: t in accessKeys ==> SignedBefore(t, issued))
      && (forall t :: t in refreshKeys ==> SignedBefore(t, issued))
      && accessKeys.Keys !! refreshKeys.Keys
    }

    constructor ()
      ensures Valid() && issued == 0 && accessKeys == map[] && refreshKeys == map[]
    {
      issued := 0;
      accessKeys := map[];
      refreshKeys := map[];
    }

    /** Signs `payload` with the access secret; the token expires `AccessTtl` after `now`. */
    method SignAccess(payload: TokenPayload, now: int) returns (token: string)
      requires Valid()
      modifies this
      ensures Valid()
      ensures token !in old(accessKeys) && token !in old(refreshKeys)
      ensures accessKeys == old(accessKeys)[token := Claims(payload, now + AccessTtl)]
      ensures refreshKeys == old(refreshKeys)
    {
      NextTextIsFresh(accessKeys.Keys, issued);
      NextTextIsFresh(refreshKeys.Keys, issued);
      token := TokenText(issued);
      accessKeys := accessKeys[token := Claims(payload, now + AccessTtl)];
      issued := issued + 1;
    }

    /** Signs `payload` with the refresh secret; the token expires `RefreshTtl` after `now`. */
    method SignRefresh(payload: TokenPayload, now: int) returns (token: string)
      requires Valid()
      modifies this
      ensures Valid()
      ensures token !in old(accessKeys) && token !in old(refreshKeys)
      ensures refreshKeys == old(refreshKeys)[token := Claims(payload, now + RefreshTtl)]
      ensures accessKeys == old(accessKeys)
    {
      NextTextIsFresh(accessKeys.Keys, issued);
      NextTextIsFresh(refreshKeys.Keys, issued);
      token := TokenText(issued);
      refreshKeys := refreshKeys[token := Claims(payload, now + RefreshTtl)];
      issued := issued + 1;
    }
  }
}
