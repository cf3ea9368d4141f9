/**
  Object paths handed out for new engines: the fixed prefix followed by the
  decimal counter value (`"/org/freedesktop/IBus/Engine/%d"`). `EngineSerial`
  recovers the counter value from a path, so paths and serials are in
  one-to-one correspondence.
 */
module EnginePaths {
  import opened Wrappers
  import opened Decimal

  const EnginePathPrefix: string := "/org/freedesktop/IBus/Engine/"

  /** The path the factory publishes for the engine created with counter value `serial`. */
  function EnginePath(serial: nat): (p: string)
    ensures |p| > |EnginePathPrefix| && p[..|EnginePathPrefix|] == EnginePathPrefix
    ensures IsCanonical(p[|EnginePathPrefix|..])
  {
    var p := EnginePathPrefix + FromNat(serial);
    assert p[|EnginePathPrefix|..] == FromNat(serial);
    p
  }

  /** The counter value encoded in an engine path, or None for any other string. */
  function EngineSerial(p: string): (r: Option<nat>)
    ensures r.Some? ==> |p| > |EnginePathPrefix| && p[..|EnginePathPrefix|] == EnginePathPrefix
  {
    var k := |EnginePathPrefix|;
    if |p| > k && p[..k] == EnginePathPrefix && IsCanonical(p[k..]) then Some(ToNat(p[k..])) else None
  }

  /** Parsing a published path recovers its counter value. */
  lemma SerialOfEnginePath(n: nat)
    ensures EngineSerial(EnginePath(n)) == Some(n)
  {
    var p := EnginePath(n);
    assert p[|EnginePathPrefix|..] == FromNat(n);
    ToNatOfFromNat(n);
  }

  /** A string that parses as an engine path is exactly the path of that counter value. */
  lemma EnginePathOfSerial(p: string, n: nat)
    requires EngineSerial(p) == Some(n)
    ensures p == EnginePath(n)
  {
    var k := |EnginePathPrefix|;
    FromNatOfToNat(p[k..]);
    assert p == p[..k] + p[k..];
  }

  /** Two counter values yield the same path exactly when they are equal. */
  lemma EnginePathInjective(a: nat, b: nat)
    ensures EnginePath(a) == EnginePath(b) <==> a == b
  {
    if EnginePath(a) == EnginePath(b) {
      SerialOfEnginePath(a);
      SerialOfEnginePath(b);
    }
  }
}
