/**
 * Stand-ins for the two cryptographic libraries the core calls.
 *
 * bcrypt: `hash(p, 10)` is an injective function of `p` whose text carries the algorithm tag
 * and the cost factor 10; `compare(p, h)` holds exactly when `h` is the hash of `p`. Salting
 * and one-wayness are not modelled.
 *
 * jsonwebtoken: a ledger of every token signed so far. `sign` mints a token text never used
 * before and records its claims, signing secret and expiry setting; `verify` accepts a token
 * only under the secret it was signed with and only while it has not expired; the passage
 * of time is the environment step `Expire`.
 */
module Crypto {
  import opened Wrappers
  import JsString
  import opened Mongo

  // ---------------------------------------------------------------------------
  // bcrypt

  /** The cost factor passed to `bcrypt.hash`. */
  const SaltRounds: nat := 10

  function HashPrefix(): string {
    "$2b$" + JsString.Decimal(SaltRounds) + "$"
  }

  predicate IsBcryptHash(h: string) {
    |HashPrefix()| <= |h| && h[..|HashPrefix()|] == HashPrefix()
  }

  /** `bcrypt.hash(plain, 10)`. */
  function BcryptHash(plain: string): (h: string)
    ensures IsBcryptHash(h)
  {
    HashPrefix() + plain
  }

  /** Different plaintexts have different hashes. */
  lemma BcryptHashInjective(p: string, q: string)
    ensures BcryptHash(p) == BcryptHash(q) <==> p == q
  {
    if BcryptHash(p) == BcryptHash(q) {
      assert BcryptHash(p)[|HashPrefix()|..] == p;
      assert BcryptHash(q)[|HashPrefix()|..] == q;
    }
  }

  /** The message bcrypt rejects a missing plaintext with. */
  const MissingArgumentsMessage := "data and hash arguments required"

  /** `bcrypt.compare(plain, hash)`; a missing plaintext makes it throw. */
  function BcryptCompare(plain: Option<string>, hash: string): (r: Result<bool, string>)
    ensures r.Err? <==> plain.None?
    ensures r.Err? ==> r.error == MissingArgumentsMessage
  {
    match plain
    case None => Err(MissingArgumentsMessage)
    case Some(p) => Ok(hash == BcryptHash(p))
  }

  /** A stored hash accepts its own plaintext and no other. */
  lemma CompareAcceptsOnlyItsPlaintext(p: string, q: string)
    ensures BcryptCompare(Some(q), BcryptHash(p)) == Ok(q == p)
  {
    BcryptHashInjective(p, q);
  }

  // ---------------------------------------------------------------------------
  // jsonwebtoken

  /** A token payload: `{_id, email, username, fullName}` or `{_id}`. */
  datatype Claims =
    | AccessClaims(id: ObjectId, email: string, username: string, fullName: string)
    | RefreshClaims(id: ObjectId)

  /** What `jwt.sign` was called with. */
  datatype Minted = Minted(claims: Claims, secret: string, expiresIn: string)

  /** The text of the token minted `serial`-th. */
  function TokenText(serial: nat): (t: string)
    ensures t != ""
  {
    "eyJ." + JsString.Decimal(serial)
  }

  lemma TokenTextInjective(a: nat, b: nat)
    ensures TokenText(a) == TokenText(b) <==> a == b
  {
    if TokenText(a) == TokenText(b) {
      assert TokenText(a)[4..] == JsString.Decimal(a);
      assert TokenText(b)[4..] == JsString.Decimal(b);
      JsString.DecimalInjective(a, b);
    }
  }

  /** Every token signed so far, the serial of the next one, and those that have expired. */
  datatype Ledger = Ledger(minted: map<string, Minted>, next: nat, expired: set<string>) {
    ghost predicate Valid() {
      && expired <= minted.Keys
      && "" !in minted
      && forall k: nat {:trigger TokenText(k)} :: k >= next ==> TokenText(k) !in minted
    }
  }

  const EmptyLedger := Ledger(map[], 0, {})

  lemma EmptyLedgerValid()
    ensures EmptyLedger.Valid()
  {
  }

  datatype Signed = Signed(ledger: Ledger, token: string)

  /** `jwt.sign(claims, secret, {expiresIn})`. */
  function SignToken(l: Ledger, claims: Claims, secret: string, expiresIn: string): (r: Signed)
    requires l.Valid()
    ensures r.ledger.Valid()
    ensures r.token != "" && r.token !in l.minted
    ensures r.ledger.minted == l.minted[r.token := Minted(claims, secret, expiresIn)]
    ensures r.ledger.expired == l.expired
  {
    var t := TokenText(l.next);
    var l' := Ledger(l.minted[t := Minted(claims, secret, expiresIn)], l.next + 1, l.expired);
    assert l'.Valid() by {
      forall k: nat | k >= l'.next ensures TokenText(k) !in l'.minted {
        TokenTextInjective(k, l.next);
      }
    }
    Signed(l', t)
  }

  const MalformedMessage := "jwt malformed"
  const InvalidSignatureMessage := "invalid signature"
  const ExpiredMessage := "jwt expired"

  /** `jwt.verify(token, secret)`: the claims, or the message the library throws. */
  function VerifyToken(l: Ledger, token: string, secret: string): (r: Result<Claims, string>)
    ensures r.Err? ==> r.error in {MalformedMessage, InvalidSignatureMessage, ExpiredMessage}
  {
    if token !in l.minted then Err(MalformedMessage)
    else if l.minted[token].secret != secret then Err(InvalidSignatureMessage)
    else if token in l.expired then Err(ExpiredMessage)
    else Ok(l.minted[token].claims)
  }

  /** A token verifies exactly when it was signed with this secret and has not expired. */
  lemma VerifyIff(l: Ledger, token: string, secret: string, c: Claims)
    ensures VerifyToken(l, token, secret) == Ok(c)
        <==> token in l.minted && l.minted[token].secret == secret
             && l.minted[token].claims == c && token !in l.expired
  {
  }

  /** A token that was just signed verifies under its secret, to its claims. */
  lemma SignThenVerify(l: Ledger, c: Claims, secret: string, expiresIn: string)
    requires l.Valid()
    ensures VerifyToken(SignToken(l, c, secret, expiresIn).ledger, SignToken(l, c, secret, expiresIn).token, secret) == Ok(c)
  {
    var r := SignToken(l, c, secret, expiresIn);
    assert r.token !in r.ledger.expired;
  }

  /** ... and under no other secret. */
  lemma SignedRejectsOtherSecret(l: Ledger, c: Claims, secret: string, expiresIn: string, other: string)
    requires l.Valid() && other != secret
    ensures VerifyToken(SignToken(l, c, secret, expiresIn).ledger, SignToken(l, c, secret, expiresIn).token, other)
         == Err(InvalidSignatureMessage)
  {
  }

  /** Signing a token changes the verdict on no other token. */
  lemma SignPreservesVerify(l: Ledger, c: Claims, secret: string, expiresIn: string, t: string, s: string)
    requires l.Valid()
    requires t != SignToken(l, c, secret, expiresIn).token
    ensures VerifyToken(SignToken(l, c, secret, expiresIn).ledger, t, s) == VerifyToken(l, t, s)
  {
  }

  /** Time passes and the given tokens expire. */
  function Expire(l: Ledger, tokens: set<string>): (r: Ledger)
    requires l.Valid()
    ensures r.Valid()
    ensures r.minted == l.minted && r.next == l.next
    ensures r.expired == l.expired + (tokens * l.minted.Keys)
  {
    l.(expired := l.expired + (tokens * l.minted.Keys))
  }

  /** An expired token no longer verifies under any secret. */
  lemma ExpiredTokenFails(l: Ledger, tokens: set<string>, t: string, s: string)
    requires l.Valid() && t in tokens
    ensures VerifyToken(Expire(l, tokens), t, s).Err?
  {
  }

  /** The `jsonwebtoken` module together with the ledger of what it has signed. */
  class JwtService {
    var ledger: Ledger

    constructor (l: Ledger)
      requires l.Valid()
      ensures ledger == l
    {
      ledger := l;
    }

    /** `jwt.sign(claims, secret, {expiresIn})`. */
    method Sign(claims: Claims, secret: string, expiresIn: string) returns (token: string)
      requires ledger.Valid()
      modifies this
      ensures Signed(ledger, token) == SignToken(old(ledger), claims, secret, expiresIn)
    {
      var r := SignToken(ledger, claims, secret, expiresIn);
      ledger := r.ledger;
      token := r.token;
    }

    /** `jwt.verify(token, secret)`. */
    function Verify(token: string, secret: string): Result<Claims, string>
      reads this
    {
      VerifyToken(ledger, token, secret)
    }
  }
}
