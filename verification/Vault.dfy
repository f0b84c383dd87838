/** Secrets sealed under a context, and opened only under the same context. */
module Vault {
  import opened Options
  import opened Json

  /** An authenticated cipher and the derivation of its key from the master key. Ciphertext and tag are texts. */
  datatype Cipher = Cipher(
    derive: string -> string,
    seal: (string, string, Option<string>, string) -> (string, string),
    open: (string, string, Option<string>, string, string) -> Option<string>)

  /** Opening checks the tag: what opens is what was sealed with the same key, nonce and associated data. */
  ghost predicate Authenticated(c: Cipher) {
    forall key, iv, aad, ciphertext, tag, text ::
      c.open(key, iv, aad, ciphertext, tag) == Some(text) <==> c.seal(key, iv, aad, text) == (ciphertext, tag)
  }

  /** A secret is a JSON object. */
  type Secret = v: Json | v.Object? && WellFormed(v) witness Object([])

  datatype Context = Context(organizationId: Option<string>, credentialId: Option<string>, keyVersion: Option<string>)

  datatype Payload = Payload(keyVersion: string, iv: string, tag: string, ciphertext: string, aad: Option<string>)

  datatype Opened =
    | Plain(value: Json)
    | InvalidMasterKey
    | ContextMismatch
    | NotAuthentic
    | NotJson
    | NotAnObject

  const FIRST_VERSION := "local-v1"

  /** `!value` for an optional string. */
  predicate Falsy(value: Option<string>) {
    value.None? || value.value == ""
  }

  function OrNull(value: Option<string>): Json {
    if value.Some? then String(value.value) else Null
  }

  function Or(value: Option<string>, default: string): string {
    if value.Some? then value.value else default
  }

  function AadValue(ctx: Context): Json {
    Object([Entry("organizationId", OrNull(ctx.organizationId)),
            Entry("credentialId", OrNull(ctx.credentialId)),
            Entry("keyVersion", String(Or(ctx.keyVersion, FIRST_VERSION)))])
  }

  /** `aadFromContext`. */
  function Aad(ctx: Context): Option<string> {
    if Falsy(ctx.organizationId) && Falsy(ctx.credentialId) then None else Some(Stringify(AadValue(ctx)))
  }

  /** `assertValidMasterKey` outside production. */
  predicate ValidMasterKey(masterKey: string) {
    |masterKey| >= 32
  }

  /** `encryptSecret` with a random `iv`; nothing when the master key is refused. */
  function Encrypt(c: Cipher, secret: Secret, masterKey: string, ctx: Context, iv: string): Option<Payload> {
    if !ValidMasterKey(masterKey) then None
    else
      var aad := Aad(ctx);
      var (ciphertext, tag) := c.seal(c.derive(masterKey), iv, aad, Stringify(secret));
      Some(Payload(Or(ctx.keyVersion, FIRST_VERSION), iv, tag, ciphertext, aad))
  }

  /** The associated data a payload carries; an empty text counts as none. */
  function CarriedAad(p: Payload): Option<string> {
    if Falsy(p.aad) then None else p.aad
  }

  function ParseObject(text: string): Opened {
    match Parse(text)
    case None => NotJson
    case Some(v) => if v.Object? then Plain(v) else NotAnObject
  }

  /** The context a payload is opened under: its own key version is taken where none is given. */
  function Offered(other: Context, keyVersion: string): Context {
    other.(keyVersion := Some(Or(other.keyVersion, keyVersion)))
  }

  /** `decryptSecret`. */
  function Decrypt(c: Cipher, p: Payload, masterKey: string, ctx: Context): Opened {
    if !ValidMasterKey(masterKey) then InvalidMasterKey
    else
      var expected := CarriedAad(p);
      var provided := Aad(Offered(ctx, p.keyVersion));
      if expected.Some? && expected != provided then ContextMismatch
      else
        match c.open(c.derive(masterKey), p.iv, expected, p.ciphertext, p.tag)
        case None => NotAuthentic
        case Some(text) => ParseObject(text)
  }

  // ---------------------------------------------------------------- the context decides

  /** Two contexts that name the same organization, credential and key version. */
  predicate SameContext(a: Context, b: Context) {
    && a.organizationId == b.organizationId && a.credentialId == b.credentialId
    && Or(a.keyVersion, FIRST_VERSION) == Or(b.keyVersion, FIRST_VERSION)
  }

  lemma AadValueWellFormed(ctx: Context)
    ensures WellFormed(AadValue(ctx))
  {
    var es := AadValue(ctx).entries;
    assert es[0].key[0] == 'o' && es[1].key[0] == 'c' && es[2].key[0] == 'k';
    assert forall i | 0 <= i < |es| :: WellFormed(es[i].value);
  }

  lemma AadValueInjective(a: Context, b: Context)
    requires AadValue(a) == AadValue(b)
    ensures SameContext(a, b)
  {
    var x, y := AadValue(a).entries, AadValue(b).entries;
    assert x[0].value == y[0].value && x[1].value == y[1].value && x[2].value == y[2].value;
  }

  /** The associated data is a faithful name of the context. */
  lemma AadInjective(a: Context, b: Context)
    requires Aad(a).Some?
    ensures Aad(a) == Aad(b) <==> SameContext(a, b)
  {
    AadValueWellFormed(a);
    AadValueWellFormed(b);
    ParseRoundTrip(AadValue(a));
    ParseRoundTrip(AadValue(b));
    if Aad(a) == Aad(b) {
      assert AadValue(a) == AadValue(b);
      AadValueInjective(a, b);
    }
    if SameContext(a, b) {
      assert AadValue(a) == AadValue(b);
    }
  }

  lemma AadNotEmpty(ctx: Context)
    ensures Aad(ctx).Some? ==> !Falsy(Aad(ctx))
  {
  }

  /** Opening what was sealed gives the secret back exactly under the same context; a secret sealed without a
      context opens under every context. Any other context is refused before the cipher is used. */
  lemma OpensIffSameContext(c: Cipher, secret: Secret, masterKey: string, ctx: Context, iv: string, other: Context)
    requires Authenticated(c) && ValidMasterKey(masterKey)
    ensures Encrypt(c, secret, masterKey, ctx, iv).Some?
    ensures Decrypt(c, Encrypt(c, secret, masterKey, ctx, iv).value, masterKey, other)
      == (if Aad(ctx).None? || SameContext(ctx, Offered(other, Or(ctx.keyVersion, FIRST_VERSION)))
          then Plain(secret) else ContextMismatch)
  {
    var p := Encrypt(c, secret, masterKey, ctx, iv).value;
    assert c.open(c.derive(masterKey), iv, p.aad, p.ciphertext, p.tag) == Some(Stringify(secret));
    ParseRoundTrip(secret);
    AadNotEmpty(ctx);
    if Aad(ctx).Some? {
      AadInjective(ctx, Offered(other, Or(ctx.keyVersion, FIRST_VERSION)));
    }
  }

  /** Opening in a context that has associated data: the payload carries the same, and the cipher opened it. */
  lemma OpenedUnderAad(c: Cipher, p: Payload, masterKey: string, ctx: Context)
    requires Decrypt(c, p, masterKey, ctx).Plain? && ctx.keyVersion.Some?
    ensures ValidMasterKey(masterKey)
    ensures var aad := CarriedAad(p);
      && aad in {None, Aad(ctx)}
      && c.open(c.derive(masterKey), p.iv, aad, p.ciphertext, p.tag).Some?
      && ParseObject(c.open(c.derive(masterKey), p.iv, aad, p.ciphertext, p.tag).value) == Decrypt(c, p, masterKey, ctx)
  {
    assert Offered(ctx, p.keyVersion) == ctx;
  }
}
