/**
 * Properties of the plugin's operations that relate several calls: the
 * cooldown boundary, idempotent deletion, the spacing the rate limiter
 * enforces over any sequence of calls, and the fact that the profile
 * handler's regeneration never goes through the rate limiter.
 */
module PluginProperties {
  import opened Wrappers
  import opened UserMeta
  import opened PluginSpec

  /** Two rate-limit checks for `u`, the first allowed at `t`, the second at `t + d`. */
  lemma RateLimitTwoCalls(s: Store, u: UserId, t: int, d: int)
    requires CheckRateLimit(s, u, t).result
    ensures CheckRateLimit(CheckRateLimit(s, u, t).store, u, t + d).result <==> (t == 0 || d >= Cooldown)
  {
  }

  lemma DeleteIdempotent(s: Store, u: UserId)
    ensures DeleteSecretKey(DeleteSecretKey(s, u), u) == DeleteSecretKey(s, u)
  {
  }

  /** Key generation followed by deletion leaves `u` without a key. */
  lemma GenerateThenDelete(s: Store, u: UserId, canEdit: UserId -> bool, rand: nat -> AlphabetIndex)
    ensures Lookup(DeleteSecretKey(GenerateSecretKey(s, u, canEdit, rand).store, u), u).secretKey == None
    ensures Lookup(DeleteSecretKey(GenerateSecretKey(s, u, canEdit, rand).store, u), u).lastKeyGeneration
         == Lookup(s, u).lastKeyGeneration
  {
  }

  /** A second generation replaces the first key; only the newer one is stored. */
  lemma RegenerationReplacesKey(s: Store, u: UserId, canEdit: UserId -> bool, rand1: nat -> AlphabetIndex, rand2: nat -> AlphabetIndex)
    requires canEdit(u)
    ensures var first := GenerateSecretKey(s, u, canEdit, rand1);
            var second := GenerateSecretKey(first.store, u, canEdit, rand2);
            Lookup(second.store, u).secretKey == second.result == Some(GeneratePassword(rand2))
  {
  }

  // ---------------------------------------------------------------------
  // Sequences of rate-limit checks for one user

  /** The verdicts of `uvp_check_rate_limit` for `u` called at each of `times` in turn. */
  function RunRateLimit(s: Store, u: UserId, times: seq<int>): (r: Outcome<seq<bool>>)
    ensures |r.result| == |times|
    ensures Lookup(r.store, u).secretKey == Lookup(s, u).secretKey
    ensures SameExcept(s, r.store, u)
    decreases |times|
  {
    if times == [] then Outcome([], s)
    else
      var first := CheckRateLimit(s, u, times[0]);
      var rest := RunRateLimit(first.store, u, times[1..]);
      Outcome([first.result] + rest.result, rest.store)
  }

  predicate AllPositive(times: seq<int>) {
    forall k :: 0 <= k < |times| ==> times[k] > 0
  }

  /**
   * Starting from a truthy stamp `t`, every call the limiter allows comes at
   * least `Cooldown` seconds after `t`.
   */
  lemma {:induction false} AllowedOnlyAfterCooldown(s: Store, u: UserId, times: seq<int>, j: nat)
    requires IsTruthy(Lookup(s, u).lastKeyGeneration)
    requires AllPositive(times)
    requires j < |times| && RunRateLimit(s, u, times).result[j]
    ensures times[j] >= Lookup(s, u).lastKeyGeneration.value + Cooldown
    decreases |times|
  {
    var first := CheckRateLimit(s, u, times[0]);
    var rest := RunRateLimit(first.store, u, times[1..]);
    assert RunRateLimit(s, u, times).result == [first.result] + rest.result;
    if j > 0 {
      assert rest.result[j - 1];
      assert AllPositive(times[1..]) by {
        forall k | 0 <= k < |times[1..]| ensures times[1..][k] > 0 {
          assert times[1..][k] == times[k + 1];
        }
      }
      AllowedOnlyAfterCooldown(first.store, u, times[1..], j - 1);
      assert times[1..][j - 1] == times[j];
    }
  }

  /**
   * Any two calls the limiter allows for the same user are at least
   * `Cooldown` seconds apart, whatever the order of the clock readings.
   */
  lemma {:induction false} AllowedCallsAreSpaced(s: Store, u: UserId, times: seq<int>, i: nat, j: nat)
    requires AllPositive(times)
    requires i < j < |times|
    requires RunRateLimit(s, u, times).result[i] && RunRateLimit(s, u, times).result[j]
    ensures times[j] >= times[i] + Cooldown
    decreases i
  {
    var first := CheckRateLimit(s, u, times[0]);
    var rest := RunRateLimit(first.store, u, times[1..]);
    assert RunRateLimit(s, u, times).result == [first.result] + rest.result;
    assert AllPositive(times[1..]) by {
      forall k | 0 <= k < |times[1..]| ensures times[1..][k] > 0 {
        assert times[1..][k] == times[k + 1];
      }
    }
    assert rest.result[j - 1];
    assert times[1..][j - 1] == times[j];
    if i == 0 {
      assert Lookup(first.store, u).lastKeyGeneration == Some(times[0]);
      AllowedOnlyAfterCooldown(first.store, u, times[1..], j - 1);
    } else {
      assert rest.result[i - 1];
      assert times[1..][i - 1] == times[i];
      AllowedCallsAreSpaced(first.store, u, times[1..], i - 1, j - 1);
    }
  }

  // ---------------------------------------------------------------------
  // Sequences of profile-form submissions for one user

  /** One submission of the profile form. */
  datatype ProfileRequest = ProfileRequest(action: string, nonceOk: bool, rand: nat -> AlphabetIndex)

  /** The views shown for each of `requests`, handled one after another. */
  function RunProfile(s: Store, u: UserId, canEdit: UserId -> bool, requests: seq<ProfileRequest>): (r: Outcome<seq<View>>)
    ensures |r.result| == |requests|
    decreases |requests|
  {
    if requests == [] then Outcome([], s)
    else
      var q := requests[0];
      var first := AddSecretKeyToProfile(s, u, canEdit, q.action, q.nonceOk, q.rand);
      var rest := RunProfile(first.store, u, canEdit, requests[1..]);
      Outcome([first.result] + rest.result, rest.store)
  }

  /**
   * No sequence of profile submissions, whatever their actions, nonces and
   * permissions, reads or writes any user's `uvp_last_key_generation`.
   */
  lemma {:induction false} ProfileNeverTouchesTimestamp(s: Store, u: UserId, canEdit: UserId -> bool, requests: seq<ProfileRequest>)
    ensures forall v :: Lookup(RunProfile(s, u, canEdit, requests).store, v).lastKeyGeneration == Lookup(s, v).lastKeyGeneration
    decreases |requests|
  {
    if requests != [] {
      var q := requests[0];
      var first := AddSecretKeyToProfile(s, u, canEdit, q.action, q.nonceOk, q.rand);
      ProfileNeverTouchesTimestamp(first.store, u, canEdit, requests[1..]);
    }
  }

  /**
   * Profile submissions never change the rate limiter's verdict for any
   * user at any time: regeneration bypasses the cooldown.
   */
  lemma ProfileRequestsDoNotAffectRateLimit(s: Store, u: UserId, canEdit: UserId -> bool, requests: seq<ProfileRequest>,
                                            v: UserId, now: int)
    ensures CheckRateLimit(RunProfile(s, u, canEdit, requests).store, v, now).result == CheckRateLimit(s, v, now).result
  {
    ProfileNeverTouchesTimestamp(s, u, canEdit, requests);
  }

  /**
   * Permitted `regenerate` submissions with passing nonces, any number and
   * at any times, all succeed: each shows the key it generated, the last one
   * is the stored key, and the rate-limit stamp is untouched.
   */
  lemma {:induction false} RepeatedRegenerationsSucceed(s: Store, u: UserId, canEdit: UserId -> bool, requests: seq<ProfileRequest>)
    requires canEdit(u)
    requires forall k :: 0 <= k < |requests| ==> requests[k].action == "regenerate" && requests[k].nonceOk
    ensures var r := RunProfile(s, u, canEdit, requests);
            && (forall k :: 0 <= k < |requests| ==> r.result[k] == Section(GeneratePassword(requests[k].rand)))
            && (|requests| > 0 ==> Lookup(r.store, u).secretKey == Some(GeneratePassword(requests[|requests| - 1].rand)))
            && Lookup(r.store, u).lastKeyGeneration == Lookup(s, u).lastKeyGeneration
    decreases |requests|
  {
    if requests != [] {
      var q := requests[0];
      var first := AddSecretKeyToProfile(s, u, canEdit, q.action, q.nonceOk, q.rand);
      var tail := requests[1..];
      var rest := RunProfile(first.store, u, canEdit, tail);
      assert forall k :: 0 <= k < |tail| ==> tail[k] == requests[k + 1];
      RepeatedRegenerationsSucceed(first.store, u, canEdit, tail);
      var r := RunProfile(s, u, canEdit, requests);
      assert r.result == [first.result] + rest.result;
      assert first.result == Section(GeneratePassword(q.rand));
      if tail == [] {
        assert r.store == first.store;
      } else {
        assert tail[|tail| - 1] == requests[|requests| - 1];
      }
    }
  }
}
