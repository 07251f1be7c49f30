/**
 * What each plugin operation does to the user-meta table, as functions from
 * the old table to the result and the new table. WordPress helpers are
 * inputs: `canEdit` is `current_user_can('edit_user', ·)` for the logged-in
 * user, `nonceOk` the outcome of `check_admin_referer`, `rand` the random
 * source of `wp_generate_password` and `now` the value of `time()`.
 */
module PluginSpec {
  import opened Wrappers
  import opened UserMeta

  /** A result together with the table after the operation. */
  datatype Outcome<T> = Outcome(result: T, store: Store)

  /**
   * What the profile section shows: nothing at all when the handler returns
   * early, otherwise the key value it passes to the page.
   */
  datatype View = Hidden | Section(shownKey: string)

  /**
   * `uvp_generate_secret_key`: refuses (PHP `false`, here `None`) without
   * edit rights on `u`; otherwise stores a fresh key under `uvp_secret_key`,
   * replacing any old one, and returns it.
   */
  function GenerateSecretKey(s: Store, u: UserId, canEdit: UserId -> bool, rand: nat -> AlphabetIndex): (r: Outcome<Option<string>>)
    ensures r.result.Some? <==> canEdit(u)
    ensures !canEdit(u) ==> r.store == s
    ensures canEdit(u) ==> ValidKey(r.result.value) && Lookup(r.store, u).secretKey == r.result
    ensures Lookup(r.store, u).lastKeyGeneration == Lookup(s, u).lastKeyGeneration
    ensures SameExcept(s, r.store, u)
    ensures KeysWellFormed(s) ==> KeysWellFormed(r.store)
  {
    if !canEdit(u) then Outcome(None, s)
    else
      var key := GeneratePassword(rand);
      Outcome(Some(key), s[u := Lookup(s, u).(secretKey := Some(key))])
  }

  /**
   * `uvp_delete_secret_key`: removes `uvp_secret_key` of `u`, with no
   * permission check.
   */
  function DeleteSecretKey(s: Store, u: UserId): (r: Store)
    ensures Lookup(r, u).secretKey.None?
    ensures Lookup(r, u).lastKeyGeneration == Lookup(s, u).lastKeyGeneration
    ensures SameExcept(s, r, u)
    ensures KeysWellFormed(s) ==> KeysWellFormed(r)
  {
    s[u := Lookup(s, u).(secretKey := None)]
  }

  /**
   * `uvp_check_rate_limit`: denies while a truthy `uvp_last_key_generation`
   * is fewer than `Cooldown` seconds behind `now` (a stamp in the future
   * denies too); otherwise records `now` and allows.
   */
  function CheckRateLimit(s: Store, u: UserId, now: int): (r: Outcome<bool>)
    ensures r.result <==> (var last := Lookup(s, u).lastKeyGeneration;
                           last == None || last == Some(0) || now >= last.value + Cooldown)
    ensures !r.result ==> r.store == s
    ensures Lookup(r.store, u).lastKeyGeneration == if r.result then Some(now) else Lookup(s, u).lastKeyGeneration
    ensures Lookup(r.store, u).secretKey == Lookup(s, u).secretKey
    ensures SameExcept(s, r.store, u)
    ensures KeysWellFormed(s) ==> KeysWellFormed(r.store)
  {
    var last := Lookup(s, u).lastKeyGeneration;
    if IsTruthy(last) && now - last.value < Cooldown then Outcome(false, s)
    else Outcome(true, s[u := Lookup(s, u).(lastKeyGeneration := Some(now))])
  }

  /**
   * The request handling at the top of `uvp_add_secret_key_to_profile`,
   * for the posted (sanitized) `action`: without edit rights nothing is
   * shown and nothing changes; `regenerate` and `delete` act only when the
   * nonce check passes; any other action shows the stored key.
   */
  function AddSecretKeyToProfile(s: Store, u: UserId, canEdit: UserId -> bool, action: string, nonceOk: bool,
                                 rand: nat -> AlphabetIndex): (r: Outcome<View>)
    ensures !canEdit(u) ==> r == Outcome(Hidden, s)
    ensures canEdit(u) && action == "regenerate" && nonceOk ==>
      && r.result.Section?
      && ValidKey(r.result.shownKey)
      && Lookup(r.store, u).secretKey == Some(r.result.shownKey)
      && Lookup(r.store, u).lastKeyGeneration == Lookup(s, u).lastKeyGeneration
      && SameExcept(s, r.store, u)
    ensures canEdit(u) && action == "delete" && nonceOk ==>
      && r.result == Section("")
      && Lookup(r.store, u).secretKey == None
      && Lookup(r.store, u).lastKeyGeneration == Lookup(s, u).lastKeyGeneration
      && SameExcept(s, r.store, u)
    ensures canEdit(u) && !((action == "regenerate" || action == "delete") && nonceOk) ==>
      r == Outcome(Section(Lookup(s, u).secretKey.GetOr("")), s)
    ensures KeysWellFormed(s) ==> KeysWellFormed(r.store)
  {
    if !canEdit(u) then Outcome(Hidden, s)
    else
      // get_user_meta(..., true) reads a missing key as ''
      var stored := Lookup(s, u).secretKey.GetOr("");
      if action == "regenerate" && nonceOk then
        var g := GenerateSecretKey(s, u, canEdit, rand);
        // a refusal would be PHP false, which the page renders like ''
        Outcome(Section(g.result.GetOr("")), g.store)
      else if action == "delete" && nonceOk then
        Outcome(Section(""), DeleteSecretKey(s, u))
      else
        Outcome(Section(stored), s)
  }
}
