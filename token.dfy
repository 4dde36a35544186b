/**
 * Per-table QR tokens: `signTable` in generate-qr.js builds them and
 * `verifyToken` in server.js checks them. A token is the base64url text of
 * `{ p: { t, r }, s }` where `s` is the first 16 hex characters of the
 * HMAC-SHA256 of `JSON.stringify(p)` under the shared secret.
 *
 * The byte-level codecs and the HMAC are not modelled: they are the
 * functions of a `Codec` value, and the lemmas state what they need of them.
 */
module Token {
  import opened Util

  /** The signed payload `{ t: table, r: restaurant name }`. */
  datatype Payload = Payload(t: int, r: string)

  /** The decoded token `{ p, s }`. */
  datatype Signed = Signed(p: Payload, s: string)

  /**
   * `decode`: base64url decoding, `JSON.parse` and the `{ p, s }`
   * destructuring, None when any of them throws. `encode`: the inverse
   * direction used by `signTable`. `hmacHex`: the hex HMAC-SHA256 digest under
   * the secret. `stringify`: `JSON.stringify` of a payload.
   */
  datatype Codec = Codec(
    decode: string -> Option<Signed>,
    encode: Signed -> string,
    hmacHex: string -> string,
    stringify: Payload -> string)

  /** `{ valid: false }` or `{ valid: true, table }`. */
  datatype Check = Invalid | Valid(table: int)

  const SignatureLength := 16

  /** `s.substring(0, n)`. */
  function Prefix(s: string, n: nat): string {
    if |s| <= n then s else s[..n]
  }

  /** The signature the server expects for a payload. */
  function Signature(codec: Codec, p: Payload): string {
    Prefix(codec.hmacHex(codec.stringify(p)), SignatureLength)
  }

  /** `verifyToken(token)`. */
  function VerifyToken(codec: Codec, totalTables: int, token: string): (r: Check)
    ensures r.Valid? <==>
              && codec.decode(token).Some?
              && codec.decode(token).value.s == Signature(codec, codec.decode(token).value.p)
              && 1 <= codec.decode(token).value.p.t <= totalTables
    ensures r.Valid? ==> r.table == codec.decode(token).value.p.t
  {
    match codec.decode(token)
    case None => Invalid
    case Some(Signed(p, s)) =>
      if s != Signature(codec, p) then Invalid
      else if p.t < 1 || p.t > totalTables then Invalid
      else Valid(p.t)
  }

  /**
   * `signTable(tableNum)` of generate-qr.js. When the codec reads back what
   * it wrote, the token is accepted for every table count that covers `t`,
   * and refused for every other.
   */
  function SignTable(codec: Codec, restaurantName: string, t: int): (token: string)
    ensures var p := Payload(t, restaurantName);
            codec.decode(codec.encode(Signed(p, Signature(codec, p)))) == Some(Signed(p, Signature(codec, p))) ==>
              && (forall total :: 1 <= t <= total ==> VerifyToken(codec, total, token) == Valid(t))
              && (forall total :: !(1 <= t <= total) ==> VerifyToken(codec, total, token) == Invalid)
  {
    var p := Payload(t, restaurantName);
    codec.encode(Signed(p, Signature(codec, p)))
  }

  /** A token printed for table `t` in range verifies, and names table `t`. */
  lemma SignedTokenVerifies(codec: Codec, restaurantName: string, totalTables: int, t: int)
    requires 1 <= t <= totalTables
    requires var p := Payload(t, restaurantName);
             codec.decode(codec.encode(Signed(p, Signature(codec, p)))) == Some(Signed(p, Signature(codec, p)))
    ensures VerifyToken(codec, totalTables, SignTable(codec, restaurantName, t)) == Valid(t)
  {
  }

  /** A token whose signature is not the one computed from its payload is refused. */
  lemma TamperedTokenRejected(codec: Codec, totalTables: int, token: string, p: Payload, s: string)
    requires codec.decode(token) == Some(Signed(p, s))
    requires s != Signature(codec, p)
    ensures VerifyToken(codec, totalTables, token) == Invalid
  {
  }
}
