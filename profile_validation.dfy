/** The wizard's client-profile validator (`validate_client_profile`): five checks run in a fixed
    order, each adding its own message to the error list when it fails.

    A profile is a typed record of the four places the validator reads. The `kpis` section is an
    ordered list of (key, entry) pairs because the validator iterates it; its `primary` key is
    looked up in the same section.
 */
module ProfileValidation {
  import opened Values

  datatype Profile = Profile(
    clientName: Value,                 // profile["client"]["name"]
    kpis: seq<(string, Value)>,        // profile["kpis"], in iteration order
    horizonDays: Value,                // profile["strategy"]["horizon_days"]
    replacementMultiplier: Value)      // profile["financials"]["replacement_multiplier"]

  const NameRequired := "Client name is required."
  const KpiRequired := "At least one KPI must be enabled."
  const PrimaryNotEnabled := "Primary KPI must be enabled."
  const HorizonTooShort := "Decision horizon must be at least 90 days."
  /** The message as the source file stores it: the sign between "be" and "1.0" is the three
      characters U+00E2 U+2030 U+00A5 (a UTF-8 "greater-than or equal" decoded as Windows-1252). */
  const MultiplierTooLow := "Replacement multiplier must be \U{00E2}\U{2030}\U{00A5} 1.0."

  /** The keys of the `kpis` entries that are dicts with a truthy `enabled`, in order. */
  function EnabledKpis(kpis: seq<(string, Value)>): (r: seq<string>)
    ensures forall k :: k in r <==> exists i :: 0 <= i < |kpis| && kpis[i].0 == k && kpis[i].1.Dict? && TruthyAt(kpis[i].1.fields, "enabled")
    decreases |kpis|
  {
    if kpis == [] then []
    else
      var rest := EnabledKpis(kpis[1..]);
      assert forall k :: k in rest <==> exists i :: 1 <= i < |kpis| && kpis[i].0 == k && kpis[i].1.Dict? && TruthyAt(kpis[i].1.fields, "enabled") by {
        forall k | k in rest
          ensures exists i :: 1 <= i < |kpis| && kpis[i].0 == k && kpis[i].1.Dict? && TruthyAt(kpis[i].1.fields, "enabled")
        {
          var i :| 0 <= i < |kpis[1..]| && kpis[1..][i].0 == k && kpis[1..][i].1.Dict? && TruthyAt(kpis[1..][i].1.fields, "enabled");
          assert kpis[i + 1] == kpis[1..][i];
        }
        forall k, i | 1 <= i < |kpis| && kpis[i].0 == k && kpis[i].1.Dict? && TruthyAt(kpis[i].1.fields, "enabled")
          ensures k in rest
        {
          assert kpis[1..][i - 1] == kpis[i];
        }
      }
      (if kpis[0].1.Dict? && TruthyAt(kpis[0].1.fields, "enabled") then [kpis[0].0] else []) + rest
  }

  /** `kpis[key]` on the section: the entry under the key, if any. */
  function EntryOf(kpis: seq<(string, Value)>, key: string): (r: Option<Value>)
    ensures r.None? <==> forall i :: 0 <= i < |kpis| ==> kpis[i].0 != key
    ensures r.Some? ==> exists i :: 0 <= i < |kpis| && kpis[i] == (key, r.value)
    decreases |kpis|
  {
    if kpis == [] then None
    else if kpis[0].0 == key then Some(kpis[0].1)
    else
      var rest := EntryOf(kpis[1..], key);
      assert rest.Some? ==> kpis[1..][FirstIndex(kpis[1..], key, rest.value)] == (key, rest.value);
      rest
  }

  /** An index at which a pair occurs. */
  function FirstIndex(kpis: seq<(string, Value)>, key: string, v: Value): (i: nat)
    requires exists i :: 0 <= i < |kpis| && kpis[i] == (key, v)
    ensures i < |kpis| && kpis[i] == (key, v)
    decreases |kpis|
  {
    if kpis[0] == (key, v) then 0
    else
      assert exists i :: 0 <= i < |kpis[1..]| && kpis[1..][i] == (key, v) by {
        var i :| 0 <= i < |kpis| && kpis[i] == (key, v);
        assert kpis[1..][i - 1] == kpis[i];
      }
      FirstIndex(kpis[1..], key, v) + 1
  }

  /** One check of the validator: whether it passed, and the message it adds when it did not. */
  datatype Check = Check(passed: bool, message: string)

  /** The five checks, in the order the validator runs them, once the values they compare are
      known to be numbers. */
  function Checks(p: Profile, primary: Value, horizon: real, multiplier: real): seq<Check>
  {
    var enabled := EnabledKpis(p.kpis);
    [ Check(Truthy(p.clientName), NameRequired),
      Check(enabled != [], KpiRequired),
      Check(primary.Str? && primary.s in enabled, PrimaryNotEnabled),
      Check(horizon >= 90.0, HorizonTooShort),
      Check(multiplier >= 1.0, MultiplierTooLow) ]
  }

  /** What a single check contributes to the error list. */
  function MessageIfFailed(c: Check): seq<string>
  {
    if c.passed then [] else [c.message]
  }

  /** The messages of the failed checks, in check order. */
  function Failures(checks: seq<Check>): seq<string>
    decreases |checks|
  {
    if checks == [] then [] else MessageIfFailed(checks[0]) + Failures(checks[1..])
  }

  /** No more messages than checks, and none exactly when every check passes. */
  lemma {:induction false} FailuresFacts(checks: seq<Check>)
    ensures |Failures(checks)| <= |checks|
    ensures Failures(checks) == [] <==> forall i :: 0 <= i < |checks| ==> checks[i].passed
    decreases |checks|
  {
    if checks != [] {
      FailuresFacts(checks[1..]);
      assert forall i :: 1 <= i < |checks| ==> checks[i] == checks[1..][i - 1];
    }
  }

  lemma FailuresOfFive(c0: Check, c1: Check, c2: Check, c3: Check, c4: Check)
    ensures Failures([c0, c1, c2, c3, c4])
            == MessageIfFailed(c0) + MessageIfFailed(c1) + MessageIfFailed(c2) + MessageIfFailed(c3) + MessageIfFailed(c4)
  {
    assert Failures([c4]) == MessageIfFailed(c4) by {
      assert [c4][1..] == [];
    }
    assert Failures([c3, c4]) == MessageIfFailed(c3) + Failures([c4]) by {
      assert [c3, c4][1..] == [c4];
    }
    assert Failures([c2, c3, c4]) == MessageIfFailed(c2) + Failures([c3, c4]) by {
      assert [c2, c3, c4][1..] == [c3, c4];
    }
    assert Failures([c1, c2, c3, c4]) == MessageIfFailed(c1) + Failures([c2, c3, c4]) by {
      assert [c1, c2, c3, c4][1..] == [c2, c3, c4];
    }
    assert Failures([c0, c1, c2, c3, c4]) == MessageIfFailed(c0) + Failures([c1, c2, c3, c4]) by {
      assert [c0, c1, c2, c3, c4][1..] == [c1, c2, c3, c4];
    }
  }

  /** `validate_client_profile`. A missing `primary` key raises a KeyError, and a horizon or a
      multiplier that is not a number cannot be compared with a number and raises a TypeError;
      otherwise the result holds exactly the messages of the failed checks, in check order. */
  method ValidateClientProfile(p: Profile) returns (r: Result<seq<string>, PyError>)
    ensures EntryOf(p.kpis, "primary").None? ==> r == Err(KeyError("primary"))
    ensures (EntryOf(p.kpis, "primary").Some? && (AsNumber(p.horizonDays).None? || AsNumber(p.replacementMultiplier).None?))
            ==> r == Err(TypeError)
    ensures r.Ok? <==> EntryOf(p.kpis, "primary").Some? && AsNumber(p.horizonDays).Some? && AsNumber(p.replacementMultiplier).Some?
    ensures r.Ok? ==>
      r.value == Failures(Checks(p, EntryOf(p.kpis, "primary").value,
                                 AsNumber(p.horizonDays).value, AsNumber(p.replacementMultiplier).value))
  {
    var errors: seq<string> := [];
    if !Truthy(p.clientName) {
      errors := errors + [NameRequired];
    }
    ghost var c0 := Check(Truthy(p.clientName), NameRequired);
    assert errors == MessageIfFailed(c0);

    var enabledKpis := EnabledKpis(p.kpis);
    if enabledKpis == [] {
      errors := errors + [KpiRequired];
    }
    ghost var c1 := Check(enabledKpis != [], KpiRequired);
    assert errors == MessageIfFailed(c0) + MessageIfFailed(c1);

    var primary := EntryOf(p.kpis, "primary");
    if primary.None? {
      return Err(KeyError("primary"));
    }
    if !(primary.value.Str? && primary.value.s in enabledKpis) {
      errors := errors + [PrimaryNotEnabled];
    }
    ghost var c2 := Check(primary.value.Str? && primary.value.s in enabledKpis, PrimaryNotEnabled);
    assert errors == MessageIfFailed(c0) + MessageIfFailed(c1) + MessageIfFailed(c2);

    var horizon := AsNumber(p.horizonDays);
    if horizon.None? {
      return Err(TypeError);
    }
    if horizon.value < 90.0 {
      errors := errors + [HorizonTooShort];
    }
    ghost var c3 := Check(horizon.value >= 90.0, HorizonTooShort);
    assert errors == MessageIfFailed(c0) + MessageIfFailed(c1) + MessageIfFailed(c2) + MessageIfFailed(c3);

    var multiplier := AsNumber(p.replacementMultiplier);
    if multiplier.None? {
      return Err(TypeError);
    }
    if multiplier.value < 1.0 {
      errors := errors + [MultiplierTooLow];
    }
    ghost var c4 := Check(multiplier.value >= 1.0, MultiplierTooLow);
    assert errors == MessageIfFailed(c0) + MessageIfFailed(c1) + MessageIfFailed(c2) + MessageIfFailed(c3) + MessageIfFailed(c4);

    FailuresOfFive(c0, c1, c2, c3, c4);
    assert Checks(p, primary.value, horizon.value, multiplier.value) == [c0, c1, c2, c3, c4];
    r := Ok(errors);
  }

  /** Each message appears exactly when its own check fails: the five messages are distinct, so no
      failure can be mistaken for another. */
  lemma MessageIffFailed(p: Profile, primary: Value, horizon: real, multiplier: real, i: nat)
    requires i < 5
    ensures Checks(p, primary, horizon, multiplier)[i].message in Failures(Checks(p, primary, horizon, multiplier))
            <==> !Checks(p, primary, horizon, multiplier)[i].passed
  {
    var checks := Checks(p, primary, horizon, multiplier);
    FailuresOfFive(checks[0], checks[1], checks[2], checks[3], checks[4]);
    assert checks == [checks[0], checks[1], checks[2], checks[3], checks[4]];
  }

  /** The profile passes exactly when the client is named, some KPI is enabled, the primary KPI is
      one of the enabled ones, the horizon is at least 90 days and the multiplier at least 1. */
  lemma ValidIff(p: Profile, primary: Value, horizon: real, multiplier: real)
    ensures Failures(Checks(p, primary, horizon, multiplier)) == []
            <==> && Truthy(p.clientName)
                 && EnabledKpis(p.kpis) != []
                 && primary.Str? && primary.s in EnabledKpis(p.kpis)
                 && horizon >= 90.0
                 && multiplier >= 1.0
  {
    var checks := Checks(p, primary, horizon, multiplier);
    FailuresFacts(checks);
    assert checks[0].passed && checks[1].passed && checks[2].passed && checks[3].passed && checks[4].passed
           <==> forall i :: 0 <= i < |checks| ==> checks[i].passed;
  }

  /** A primary KPI that is enabled also makes the "at least one KPI" check pass, so the two
      messages never appear for the same cause alone: an empty enabled list fails both. */
  lemma NoEnabledFailsPrimary(p: Profile, primary: Value, horizon: real, multiplier: real)
    requires EnabledKpis(p.kpis) == []
    ensures KpiRequired in Failures(Checks(p, primary, horizon, multiplier))
    ensures PrimaryNotEnabled in Failures(Checks(p, primary, horizon, multiplier))
  {
    MessageIffFailed(p, primary, horizon, multiplier, 1);
    MessageIffFailed(p, primary, horizon, multiplier, 2);
  }
}
