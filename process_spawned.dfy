/**
 * `isSpawnEventSupported` of `src/util/processSpawned.ts`: whether the running Node.js version
 * (`major.minor.patch`) emits the child process `spawn` event, which it does from 15.1.0 on.
 */
module ProcessSpawned {
  import opened Results
  import opened Text

  /** `Number(s)` on a version component: a string of decimal digits is its value (the empty
      string gives 0); anything else is `NaN`, shown as `None`. */
  function NumberOf(s: string): (r: Option<nat>)
    ensures r.Some? <==> forall i :: 0 <= i < |s| ==> IsDigit(s[i])
  {
    if forall i :: 0 <= i < |s| ==> IsDigit(s[i]) then Some(DigitsValue(s)) else None
  }

  /** The `i`-th component, `undefined` (so `None`) when there are fewer. */
  function Component(parts: seq<Option<nat>>, i: nat): Option<nat> {
    if i < |parts| then parts[i] else None
  }

  /** `x > n`, `x >= n` and `x === n` as JavaScript evaluates them, false for `NaN` and `undefined`. */
  predicate Greater(x: Option<nat>, n: nat) {
    x.Some? && x.value > n
  }

  predicate AtLeast(x: Option<nat>, n: nat) {
    x.Some? && x.value >= n
  }

  /** `.map(Number)` over the parts of a version. */
  function Numbers(parts: seq<string>): (r: seq<Option<nat>>)
    ensures |r| == |parts| && forall i :: 0 <= i < |parts| ==> r[i] == NumberOf(parts[i])
  {
    seq(|parts|, i requires 0 <= i < |parts| => NumberOf(parts[i]))
  }

  /** `isSpawnEventSupported()` for the version string `version`. */
  function IsSpawnEventSupported(version: string): (r: bool)
    ensures r ==> var major := Component(Numbers(Split(version, '.')), 0); major.Some? && major.value >= 15
    ensures r && Component(Numbers(Split(version, '.')), 0) == Some(15) ==>
      AtLeast(Component(Numbers(Split(version, '.')), 1), 1) && Component(Numbers(Split(version, '.')), 2).Some?
  {
    var numbers := Numbers(Split(version, '.'));
    var major := Component(numbers, 0);
    var minor := Component(numbers, 1);
    var patch := Component(numbers, 2);
    Greater(major, 15) || (major == Some(15) && AtLeast(minor, 1) && AtLeast(patch, 0))
  }

  /** A version string `major.minor.patch` splits back into its three numbers. */
  lemma VersionParts(major: nat, minor: nat, patch: nat)
    ensures var parts := Split(NatToString(major) + "." + NatToString(minor) + "." + NatToString(patch), '.');
      && |parts| == 3
      && NumberOf(parts[0]) == Some(major)
      && NumberOf(parts[1]) == Some(minor)
      && NumberOf(parts[2]) == Some(patch)
  {
    var ps := [NatToString(major), NatToString(minor), NatToString(patch)];
    forall i | 0 <= i < 3 ensures SeparatorFree(ps[i], x => x == '.') {
      forall k | 0 <= k < |ps[i]| ensures ps[i][k] != '.' {
        assert IsDigit(ps[i][k]);
      }
    }
    assert Join(ps, ".") == NatToString(major) + "." + NatToString(minor) + "." + NatToString(patch) by {
      assert Join(ps[2..], ".") == NatToString(patch);
      assert ps[1..][1..] == ps[2..];
    }
    SplitByJoin(ps, '.', x => x == '.');
    DigitsValueOfNatToString(major);
    DigitsValueOfNatToString(minor);
    DigitsValueOfNatToString(patch);
  }

  /** Once the three parts read as numbers, the decision is made on those numbers alone. */
  lemma SupportedByNumbers(version: string, major: nat, minor: nat, patch: nat)
    requires var parts := Split(version, '.');
      && |parts| == 3
      && NumberOf(parts[0]) == Some(major)
      && NumberOf(parts[1]) == Some(minor)
      && NumberOf(parts[2]) == Some(patch)
    ensures IsSpawnEventSupported(version) <==> major > 15 || (major == 15 && minor >= 1)
  {
    var numbers := Numbers(Split(version, '.'));
    assert Component(numbers, 0) == Some(major) && Component(numbers, 1) == Some(minor);
    assert Component(numbers, 2) == Some(patch);
  }

  /** For a well-formed version, the event is supported exactly from 15.1.0 on: any major above
      15, or major 15 with a minor of at least 1; 15.0.x and anything below 15 are not. */
  lemma SpawnEventSupportedFrom15_1(major: nat, minor: nat, patch: nat)
    ensures IsSpawnEventSupported(NatToString(major) + "." + NatToString(minor) + "." + NatToString(patch))
        <==> major > 15 || (major == 15 && minor >= 1)
  {
    var version := NatToString(major) + "." + NatToString(minor) + "." + NatToString(patch);
    VersionParts(major, minor, patch);
    SupportedByNumbers(version, major, minor, patch);
  }

  /** A version without a numeric major part is never taken to support the event. */
  lemma NonNumericMajorUnsupported(version: string)
    requires NumberOf(Split(version, '.')[0]).None?
    ensures !IsSpawnEventSupported(version)
  {
  }
}
