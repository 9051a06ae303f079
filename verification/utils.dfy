/** `pkg/utils`: environment lookup with a default, and target validation.
    The process environment is a map argument; `net.ParseIP` is the
    argument `isIP`, a predicate on address text. */
module Utils {
  import opened Metrics

  /** The variable's value, or the default when it is unset or empty. */
  function GetEnvWithDefaultValue(env: map<string, string>, key: string, defaultValue: string): (v: string)
    ensures key !in env ==> v == defaultValue
    ensures key in env && env[key] == "" ==> v == defaultValue
    ensures key in env && env[key] != "" ==> v == env[key]
    ensures defaultValue != "" ==> v != ""
  {
    if key !in env then defaultValue
    else if |env[key]| == 0 then defaultValue
    else env[key]
  }

  /** A target survives validation when its address is non-empty and parses. */
  predicate ValidTarget(t: PingHost, isIP: string -> bool) {
    t.ipAddress != "" && isIP(t.ipAddress)
  }

  /** Keeps the valid targets, in order, duplicates included; names are
      never looked at. */
  function ValidateTargets(targets: seq<PingHost>, isIP: string -> bool): (r: seq<PingHost>)
    ensures |r| <= |targets|
    ensures forall i :: 0 <= i < |r| ==> ValidTarget(r[i], isIP)
    ensures forall t :: multiset(r)[t] == if ValidTarget(t, isIP) then multiset(targets)[t] else 0
  {
    if |targets| == 0 then []
    else
      var rest := ValidateTargets(targets[1..], isIP);
      assert targets == [targets[0]] + targets[1..];
      if ValidTarget(targets[0], isIP) then [targets[0]] + rest else rest
  }

  /** A single target is kept exactly when it is valid. */
  lemma ValidateOne(t: PingHost, isIP: string -> bool)
    ensures ValidateTargets([t], isIP) == if ValidTarget(t, isIP) then [t] else []
  {
    assert [t][1..] == [];
  }

  /** Validation distributes over concatenation, so relative order is kept. */
  lemma {:induction false} ValidateConcat(a: seq<PingHost>, b: seq<PingHost>, isIP: string -> bool)
    ensures ValidateTargets(a + b, isIP) == ValidateTargets(a, isIP) + ValidateTargets(b, isIP)
  {
    if |a| > 0 {
      assert (a + b)[1..] == a[1..] + b;
      ValidateConcat(a[1..], b, isIP);
    } else {
      assert a + b == b;
    }
  }

  /** Validating already-validated targets changes nothing. */
  lemma {:induction false} ValidateIdempotent(targets: seq<PingHost>, isIP: string -> bool)
    ensures ValidateTargets(ValidateTargets(targets, isIP), isIP) == ValidateTargets(targets, isIP)
  {
    if |targets| > 0 {
      ValidateIdempotent(targets[1..], isIP);
      var rest := ValidateTargets(targets[1..], isIP);
      if ValidTarget(targets[0], isIP) {
        assert ([targets[0]] + rest)[1..] == rest;
      }
    }
  }

  /** A list of valid targets is returned unchanged. */
  lemma {:induction false} ValidateKeepsValid(targets: seq<PingHost>, isIP: string -> bool)
    requires forall i :: 0 <= i < |targets| ==> ValidTarget(targets[i], isIP)
    ensures ValidateTargets(targets, isIP) == targets
  {
    if |targets| > 0 {
      ValidateKeepsValid(targets[1..], isIP);
      assert [targets[0]] + targets[1..] == targets;
    }
  }
}
