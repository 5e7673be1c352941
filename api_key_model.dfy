/** The ApiKey document: its fields and defaults, the permission vocabulary,
    the format of a generated key, and the validity rule `isValid`. */
module ApiKeyModel {
  import opened Common

  const ORDER_CREATE: string := "order:create"
  const ORDER_UPDATE: string := "order:update"
  const ORDER_READ: string := "order:read"
  const ORDER_DELETE: string := "order:delete"

  /** The `enum` of the `permissions` field. */
  const PermissionVocabulary: set<string> := {ORDER_CREATE, ORDER_UPDATE, ORDER_READ, ORDER_DELETE}
  /** The `default` of the `permissions` field. */
  const DefaultPermissions: seq<string> := [ORDER_CREATE, ORDER_UPDATE, ORDER_READ]

  const KEY_PREFIX: string := "wms_"
  /** `crypto.randomBytes(32)` */
  const KEY_RANDOM_BYTES: nat := 32

  type byte = x: int | 0 <= x < 256

  datatype ApiKey = ApiKey(
    id: Id,
    name: string,
    key: string,
    user: UserId,
    description: Option<string>,
    permissions: seq<string>,
    isActive: bool,
    lastUsedAt: Option<Time>,
    expiresAt: Option<Time>,
    createdAt: Time)

  /** What the schema's validators demand on every save: a non-empty `name` and
      `key` (a required String rejects ""), and every permission from the enum.
      `user` is always set by construction. */
  predicate ApiKeySchemaValid(k: ApiKey) {
    && k.name != ""
    && k.key != ""
    && forall i :: 0 <= i < |k.permissions| ==> k.permissions[i] in PermissionVocabulary
  }

  /** `isValid`: an inactive key is never valid; an active key is valid unless it
      has an expiry strictly earlier than `now`. */
  function IsValid(k: ApiKey, now: Time): (valid: bool)
    ensures valid <==> k.isActive && (k.expiresAt.None? || now <= k.expiresAt.value)
  {
    if !k.isActive then false
    else if k.expiresAt.Some? && k.expiresAt.value < now then false
    else true
  }

  /** Once a key is invalid it stays invalid as time passes, unless its owner
      changes it: validity is antitone in `now`. */
  lemma ValidityIsAntitone(k: ApiKey, earlier: Time, later: Time)
    requires earlier <= later
    ensures IsValid(k, later) ==> IsValid(k, earlier)
  {
  }

  /** A document built with the schema's defaults: `permissions` falls back to the
      default list only when none is given (an empty list is kept), `isActive` is
      true, and `lastUsedAt` is unset. */
  function NewApiKey(id: Id, name: string, key: string, user: UserId, description: Option<string>,
                     permissions: Option<seq<string>>, expiresAt: Option<Time>, now: Time): (k: ApiKey)
    ensures k.isActive && k.lastUsedAt.None?
    ensures k.id == id && k.name == name && k.key == key && k.user == user && k.createdAt == now
    ensures k.description == description && k.expiresAt == expiresAt
    ensures permissions.Some? ==> k.permissions == permissions.value
    ensures permissions.None? ==> k.permissions == DefaultPermissions
    ensures permissions.None? ==> ORDER_DELETE !in k.permissions
    ensures expiresAt.None? ==> forall t :: IsValid(k, t)
    ensures expiresAt.Some? ==> forall t :: IsValid(k, t) <==> t <= expiresAt.value
  {
    ApiKey(id, name, key, user, description, permissions.GetOr(DefaultPermissions),
           true, None, expiresAt, now)
  }

  /** `updateLastUsed`'s change to the document: `lastUsedAt` becomes `now` and
      nothing else changes, so neither validity nor schema validity can change. */
  function WithLastUsed(k: ApiKey, now: Time): (k': ApiKey)
    ensures k'.lastUsedAt == Some(now)
    ensures k'.(lastUsedAt := k.lastUsedAt) == k
    ensures forall t :: IsValid(k', t) == IsValid(k, t)
    ensures ApiKeySchemaValid(k') == ApiKeySchemaValid(k)
  {
    k.(lastUsedAt := Some(now))
  }

  // ---------------------------------------------------------------------------
  // `generateKey`: "wms_" followed by the lower-case hex encoding of 32 random bytes.
  // The random bytes are a parameter.

  predicate IsHexChar(c: char) {
    '0' <= c <= '9' || 'a' <= c <= 'f'
  }

  function HexDigit(d: int): (c: char)
    requires 0 <= d < 16
    ensures IsHexChar(c)
  {
    if d < 10 then ('0' as int + d) as char else ('a' as int + d - 10) as char
  }

  function HexValue(c: char): (d: int)
    requires IsHexChar(c)
    ensures 0 <= d < 16 && HexDigit(d) == c
  {
    if c <= '9' then c as int - '0' as int else c as int - 'a' as int + 10
  }

  /** `Buffer.toString("hex")`: two lower-case hex digits per byte, high nibble first. */
  function HexEncode(bytes: seq<byte>): (s: string)
    ensures |s| == 2 * |bytes|
    ensures forall i :: 0 <= i < |s| ==> IsHexChar(s[i])
  {
    if |bytes| == 0 then []
    else [HexDigit(bytes[0] / 16), HexDigit(bytes[0] % 16)] + HexEncode(bytes[1..])
  }

  /** The inverse of `HexEncode`, used to state that a key determines its random bytes. */
  function HexDecode(s: string): (bytes: seq<byte>)
    requires |s| % 2 == 0
    requires forall i :: 0 <= i < |s| ==> IsHexChar(s[i])
    ensures |bytes| == |s| / 2
  {
    if |s| == 0 then []
    else [HexValue(s[0]) * 16 + HexValue(s[1])] + HexDecode(s[2..])
  }

  lemma {:induction false} HexRoundTrip(bytes: seq<byte>)
    ensures HexDecode(HexEncode(bytes)) == bytes
  {
    if |bytes| > 0 {
      var b := bytes[0];
      var s := HexEncode(bytes);
      assert s[2..] == HexEncode(bytes[1..]);
      assert HexValue(s[0]) == b / 16 && HexValue(s[1]) == b % 16 by {
        HexDigitInjective(HexValue(s[0]), b / 16);
        HexDigitInjective(HexValue(s[1]), b % 16);
      }
      HexRoundTrip(bytes[1..]);
    }
  }

  lemma HexDigitInjective(d: int, e: int)
    requires 0 <= d < 16 && 0 <= e < 16
    ensures HexDigit(d) == HexDigit(e) ==> d == e
  {
  }

  function GenerateKey(randomBytes: seq<byte>): (key: string)
    requires |randomBytes| == KEY_RANDOM_BYTES
    ensures |key| == |KEY_PREFIX| + 2 * KEY_RANDOM_BYTES
    ensures key[..|KEY_PREFIX|] == KEY_PREFIX
    ensures forall i :: |KEY_PREFIX| <= i < |key| ==> IsHexChar(key[i])
  {
    KEY_PREFIX + HexEncode(randomBytes)
  }

  /** Reads the random bytes back out of a well-formed key. */
  function KeyBytes(key: string): (bytes: Option<seq<byte>>)
    ensures bytes.Some? ==> |bytes.value| == KEY_RANDOM_BYTES
  {
    if |key| == |KEY_PREFIX| + 2 * KEY_RANDOM_BYTES && key[..|KEY_PREFIX|] == KEY_PREFIX
       && forall i :: |KEY_PREFIX| <= i < |key| ==> IsHexChar(key[i])
    then Some(HexDecode(key[|KEY_PREFIX|..]))
    else None
  }

  /** A generated key is exactly the prefix and the hex of its bytes: distinct random
      bytes give distinct keys. */
  lemma GeneratedKeyRoundTrip(randomBytes: seq<byte>)
    requires |randomBytes| == KEY_RANDOM_BYTES
    ensures KeyBytes(GenerateKey(randomBytes)) == Some(randomBytes)
  {
    var key := GenerateKey(randomBytes);
    assert key[|KEY_PREFIX|..] == HexEncode(randomBytes);
    HexRoundTrip(randomBytes);
  }
}
