# Secret-key lifecycle of the Borrzu user-verification plugin

This project models the core of the WordPress plugin in `plugin.php`. Each
user has a secret key that the Borrzu platform uses to authenticate its
requests. The plugin keeps that key in WordPress user meta, together with a
key-generation timestamp that a rate limiter reads. The model covers:

- **The secret-key store**: `uvp_generate_secret_key` and
  `uvp_delete_secret_key`, which write and remove the `uvp_secret_key` entry.
- **The rate limiter**: `uvp_check_rate_limit`, a per-user cooldown of 300
  seconds over the `uvp_last_key_generation` entry.
- **The profile action dispatch**: the part of
  `uvp_add_secret_key_to_profile` that runs before any output. It checks the
  capability, acts on the posted `regenerate` or `delete` action, and decides
  which key value the page shows.

Layout:

- `user_meta.dfy` (module `UserMeta`): the meta table as a map from user id
  to the two entries, PHP truthiness of the stored timestamp, and the
  password generator.
- `plugin_spec.dfy` (module `PluginSpec`): each operation as a function from
  the old table to a result and a new table.
- `plugin.dfy` (module `Plugin`): the class `UserMetaStore`. Its methods
  update the table in place, as the PHP functions do, and are proved equal to
  the functions of `PluginSpec`. They also keep the invariant that every
  stored key has 32 letters and digits.
- `plugin_properties.dfy` (module `PluginProperties`): lemmas that relate
  several calls. They cover the cooldown boundary, the spacing of allowed
  calls over any sequence of clock readings, idempotent deletion, and the
  fact that regeneration never goes through the limiter.

WordPress helpers become inputs:

- `current_user_can('edit_user', ·)` becomes the predicate `canEdit`.
- `check_admin_referer` becomes the boolean `nonceOk`.
- The random source of `wp_generate_password` becomes `rand`, which yields an
  index into the 62-character alphabet for each character.
- `time()` becomes `now`.

The profile handler has no clock input and never calls the rate limiter. In
the code, `uvp_check_rate_limit` is called from nowhere. A design that pairs
each key with the time it was generated does not match the code either: key
generation never writes `uvp_last_key_generation`, and only the limiter
does. The model follows the code. `ProfileNeverTouchesTimestamp`,
`ProfileRequestsDoNotAffectRateLimit` and `RepeatedRegenerationsSucceed`
state the consequence.

## Model

| member | source | states |
|---|---|---|
| `UserMeta.GeneratePassword` | plugin.php:20 | the generated key has exactly 32 characters, all ASCII letters or digits (special characters off) |
| `PluginSpec.GenerateSecretKey` | plugin.php:15-23 | returns a key iff the caller may edit `u`. On refusal the table is unchanged. Otherwise the key is valid and equals the stored `uvp_secret_key`, replacing any old one. The timestamp and all other users are untouched, and well-formed keys stay well-formed |
| `PluginSpec.DeleteSecretKey` | plugin.php:26-28 | with no permission check, `u` has no `uvp_secret_key` afterwards. `uvp_last_key_generation` and every other user are unchanged |
| `PluginSpec.CheckRateLimit` | plugin.php:141-151 | allows iff the stored stamp is missing, is 0 (falsy), or lies at least 300 s before `now`. A negative difference denies. A denial writes nothing. An allow sets the stamp to `now`. The secret key and other users never change |
| `PluginSpec.AddSecretKeyToProfile` | plugin.php:31-53 | without capability it shows nothing and changes nothing. `regenerate` with a passing nonce shows a valid key equal to the newly stored one. `delete` with a passing nonce removes the key and shows `''`. Any other action, or a failing nonce, shows the stored key (or `''`) and changes nothing. The timestamp is never touched |
| `Plugin.UserMetaStore.GenerateSecretKey` | plugin.php:15-23 | the returned key and the new table are those of `PluginSpec.GenerateSecretKey`, and the stored-keys invariant holds |
| `Plugin.UserMetaStore.DeleteSecretKey` | plugin.php:26-28 | the new table is that of `PluginSpec.DeleteSecretKey` |
| `Plugin.UserMetaStore.CheckRateLimit` | plugin.php:141-151 | the verdict and the new table are those of `PluginSpec.CheckRateLimit` |
| `Plugin.UserMetaStore.AddSecretKeyToProfile` | plugin.php:31-53 | the view and the new table are those of `PluginSpec.AddSecretKeyToProfile`. Regeneration goes through `GenerateSecretKey` and deletion through `DeleteSecretKey` |
| `PluginProperties.RateLimitTwoCalls` | plugin.php:145-150 | after a call allowed at `t`, a call at `t + d` is allowed iff `d >= 300`, or `t` was 0 and so recorded a falsy stamp |
| `PluginProperties.DeleteIdempotent` | plugin.php:26-28 | deleting twice gives the same table as deleting once |
| `PluginProperties.GenerateThenDelete` | plugin.php:15-28 | generation followed by deletion leaves no key and the original timestamp |
| `PluginProperties.RegenerationReplacesKey` | plugin.php:20-22 | after two permitted generations only the second key is stored, and it is the one returned |
| `PluginProperties.RunRateLimit` | plugin.php:141-151 | any sequence of limiter calls for `u` leaves `u`'s secret key and every other user's entries unchanged |
| `PluginProperties.AllowedOnlyAfterCooldown` | plugin.php:145-149 | from a truthy stamp `t`, every call allowed in a sequence of positive clock readings comes at least 300 s after `t` |
| `PluginProperties.AllowedCallsAreSpaced` | plugin.php:141-151 | any two allowed calls for one user, with positive clock readings in any order, are at least 300 s apart |
| `PluginProperties.ProfileNeverTouchesTimestamp` | plugin.php:44-51 | no sequence of profile submissions changes any user's `uvp_last_key_generation` |
| `PluginProperties.ProfileRequestsDoNotAffectRateLimit` | plugin.php:44-45 | after any sequence of profile submissions, the limiter's verdict for every user and time is what it was before |
| `PluginProperties.RepeatedRegenerationsSucceed` | plugin.php:44-45 | any number of permitted `regenerate` submissions with passing nonces all succeed. Each shows the key it generated, the last one is stored, and the timestamp is untouched |

## Left out

- The HTML, CSS and clipboard script of the profile section (plugin.php:58-135), and the admin notices from `add_settings_error` and `settings_errors`: presentation only.
- `uvp_encrypt_key` (plugin.php:153-161): OpenSSL AES-256-CBC with a random IV and base64 are foreign calls, and nothing calls the function.
- `uvp_activation_check` (plugin.php:164-169) and the SSL gate (plugin.php:171-173): host bootstrapping that only deactivates the plugin or ends the request.
- Hook registration (plugin.php:137-138, 163): framework wiring.
- WordPress core is not part of this model. `current_user_can`, `check_admin_referer`, `sanitize_text_field` and `time()` are inputs. The posted action is taken as already sanitized, and `''` stands for no posted action.
- `wp_generate_password` is modelled as a choice of alphabet index per character, supplied by the random source. Randomness and the uniqueness of keys are not claimed.
- The nonce outcome is taken as a boolean, as the code reads it. In WordPress a failing `check_admin_referer` ends the request instead of returning false. The forms post the nonce as `uvp_nonce` (plugin.php:79, 85), while `check_admin_referer` reads its default field (plugin.php:44, 49), so the real outcome depends on WordPress internals. In every reading a failing nonce changes no meta.
- User meta holds strings. The stamp is modelled as an integer that is missing or present, and PHP's conversion of other strings is not modelled. PHP integer overflow of `time()` is not modelled.
- The REST verification endpoints, the API call log and key verification are not in `plugin.php` and are not modelled.
- A refused generation inside the profile handler: PHP assigns `false` to the shown key. The model shows `''`, which the page renders the same way. This case cannot arise, because the handler has already passed the same capability check.
