/**
 * The per-user attributes the plugin keeps in WordPress user meta, and the
 * password generator the plugin calls to make a secret key.
 */
module UserMeta {
  import opened Wrappers

  /** A WordPress user id. */
  type UserId = int

  /** Length requested from `wp_generate_password` for a secret key. */
  const KeyLength: nat := 32

  /** Seconds a key generation keeps the rate limiter closed. */
  const Cooldown: int := 300

  /** The `n` consecutive characters starting at `first`. */
  function CharRange(first: char, n: nat): (r: string)
    requires first as int + n <= 0xD800
    ensures |r| == n
    ensures forall i :: 0 <= i < n ==> r[i] as int == first as int + i
  {
    seq(n, i requires 0 <= i < n => (first as int + i) as char)
  }

  /**
   * The characters `wp_generate_password` draws from when special
   * characters are switched off: a-z, then A-Z, then 0-9.
   */
  const Alphabet: string := CharRange('a', 26) + CharRange('A', 26) + CharRange('0', 10)

  /** An index into `Alphabet`, as the generator's random source yields it. */
  type AlphabetIndex = i: int | 0 <= i < 62

  /**
   * The two meta entries of one user: `uvp_secret_key` and
   * `uvp_last_key_generation`. `None` means the entry does not exist.
   */
  datatype Meta = Meta(secretKey: Option<string>, lastKeyGeneration: Option<int>)

  /** A user with neither entry. */
  const NoMeta := Meta(None, None)

  /** The user-meta table, restricted to the plugin's two keys. */
  type Store = map<UserId, Meta>

  /** The entries of user `u`; a user absent from the table has none. */
  function Lookup(s: Store, u: UserId): Meta {
    if u in s then s[u] else NoMeta
  }

  /** Every user other than `u` has the same entries in `s` and `s'`. */
  ghost predicate SameExcept(s: Store, s': Store, u: UserId) {
    forall v :: v != u ==> Lookup(s', v) == Lookup(s, v)
  }

  predicate IsLetterOrDigit(c: char) {
    ('a' <= c <= 'z') || ('A' <= c <= 'Z') || ('0' <= c <= '9')
  }

  /** A key as `wp_generate_password(32, false)` produces it. */
  predicate ValidKey(k: string) {
    |k| == KeyLength && forall i :: 0 <= i < |k| ==> IsLetterOrDigit(k[i])
  }

  /** Every stored secret key is a valid key. */
  predicate KeysWellFormed(s: Store) {
    forall u :: u in s && s[u].secretKey.Some? ==> ValidKey(s[u].secretKey.value)
  }

  /**
   * PHP truthiness of `get_user_meta($id, 'uvp_last_key_generation', true)`:
   * a missing entry reads as '' and a stored 0 as '0', both falsy.
   */
  predicate IsTruthy(t: Option<int>) {
    t.Some? && t.value != 0
  }

  lemma AlphabetLettersAndDigits()
    ensures |Alphabet| == 62
    ensures forall i :: 0 <= i < |Alphabet| ==> IsLetterOrDigit(Alphabet[i])
  {
  }

  /**
   * `wp_generate_password(32, false)`: character `i` is the alphabet letter
   * at the index the random source `rand` yields for draw `i`.
   */
  function GeneratePassword(rand: nat -> AlphabetIndex): (k: string)
    ensures ValidKey(k)
  {
    AlphabetLettersAndDigits();
    seq(KeyLength, i requires 0 <= i => Alphabet[rand(i)])
  }
}
