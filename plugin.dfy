/**
 * The plugin's operations as they run: each one reads and writes the
 * WordPress user-meta table in place.
 */
module Plugin {
  import opened Wrappers
  import opened UserMeta
  import PluginSpec

  /** The user-meta table, as far as the plugin's two keys go. */
  class UserMetaStore {
    var meta: Store

    /** The only keys ever stored are ones the plugin generated. */
    ghost predicate Valid()
      reads this
    {
      KeysWellFormed(meta)
    }

    /** A site where no user has either entry yet. */
    constructor ()
      ensures Valid() && meta == map[]
    {
      meta := map[];
    }

    /** `get_user_meta($u, ...)` for both keys. */
    function MetaOf(u: UserId): Meta
      reads this
    {
      Lookup(meta, u)
    }

    method GenerateSecretKey(u: UserId, canEdit: UserId -> bool, rand: nat -> AlphabetIndex) returns (key: Option<string>)
      requires Valid()
      modifies this
      ensures Valid()
      ensures PluginSpec.Outcome(key, meta) == PluginSpec.GenerateSecretKey(old(meta), u, canEdit, rand)
    {
      if !canEdit(u) {
        return None;
      }
      var secretKey := GeneratePassword(rand);
      meta := meta[u := MetaOf(u).(secretKey := Some(secretKey))];
      key := Some(secretKey);
    }

    method DeleteSecretKey(u: UserId)
      requires Valid()
      modifies this
      ensures Valid()
      ensures meta == PluginSpec.DeleteSecretKey(old(meta), u)
    {
      meta := meta[u := MetaOf(u).(secretKey := None)];
    }

    method CheckRateLimit(u: UserId, now: int) returns (allowed: bool)
      requires Valid()
      modifies this
      ensures Valid()
      ensures PluginSpec.Outcome(allowed, meta) == PluginSpec.CheckRateLimit(old(meta), u, now)
    {
      var lastGeneration := MetaOf(u).lastKeyGeneration;
      if IsTruthy(lastGeneration) && now - lastGeneration.value < Cooldown {
        return false;
      }
      meta := meta[u := MetaOf(u).(lastKeyGeneration := Some(now))];
      allowed := true;
    }

    /** The request handling of the profile section, before any output. */
    method AddSecretKeyToProfile(u: UserId, canEdit: UserId -> bool, action: string, nonceOk: bool,
                                 rand: nat -> AlphabetIndex) returns (view: PluginSpec.View)
      requires Valid()
      modifies this
      ensures Valid()
      ensures PluginSpec.Outcome(view, meta) == PluginSpec.AddSecretKeyToProfile(old(meta), u, canEdit, action, nonceOk, rand)
    {
      if !canEdit(u) {
        return PluginSpec.Hidden;
      }
      var secretKey := MetaOf(u).secretKey.GetOr("");
      if action == "regenerate" && nonceOk {
        var generated := GenerateSecretKey(u, canEdit, rand);
        secretKey := generated.GetOr("");
      } else if action == "delete" && nonceOk {
        DeleteSecretKey(u);
        secretKey := "";
      }
      view := PluginSpec.Section(secretKey);
    }
  }
}
