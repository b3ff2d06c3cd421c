/** The names the driver builds by concatenation: pools, devices and node label keys. Each has a
    parser that undoes it, so two different things never end up under one name. */
module Naming {
  import opened Text

  const FABRIC := "-fabric"

  function PoolName(k8sDeviceName: string, fabricID: int): string {
    k8sDeviceName + FABRIC + Itoa(fabricID)
  }

  /** Splits at the last "-fabric"; whatever follows must be a number as Itoa writes it. */
  function ParsePoolName(p: string): Option<(string, int)> {
    var i := LastIndex(p, 'c');
    if i < 6 || p[i - 6..i + 1] != FABRIC then None
    else match Atoi(p[i + 1..])
      case Some(f) => Some((p[..i - 6], f))
      case None => None
  }

  /** A string parses to (k, f) exactly when it is the pool name of (k, f), whatever k contains. */
  lemma PoolNameParses(p: string, k: string, f: int)
    ensures ParsePoolName(p) == Some((k, f)) <==> p == PoolName(k, f)
  {
    PoolNameParsesBack(k, f);
    if ParsePoolName(p) == Some((k, f)) {
      var i := LastIndex(p, 'c');
      AtoiInvertsItoa(p[i + 1..], f);
      InThreeParts(p, i - 6, i + 1);
    }
  }

  lemma InThreeParts(s: string, i: nat, j: nat)
    requires i <= j <= |s|
    ensures s == s[..i] + s[i..j] + s[j..]
  {
  }

  lemma PoolNameAt(k: string, f: int)
    ensures var name, n := PoolName(k, f), |k|;
            |name| > n + 7 && name[..n] == k && name[n..n + 7] == "-fabric" && name[n + 7..] == Itoa(f)
  {
  }

  lemma PoolNameParsesBack(k: string, f: int)
    ensures ParsePoolName(PoolName(k, f)) == Some((k, f))
  {
    var name := PoolName(k, f);
    assert LastIndex(name, 'c') == |k| + 6 by {
      assert name == (k + "-fabri") + ['c'] + Itoa(f);
      LastIndexOfJoin(k + "-fabri", 'c', Itoa(f));
    }
    PoolNameAt(k, f);
    AtoiInvertsItoa(Itoa(f), f);
  }

  lemma PoolNameInjective(k: string, f: int, k': string, f': int)
    ensures PoolName(k, f) == PoolName(k', f') <==> k == k' && f == f'
  {
    PoolNameParses(PoolName(k, f), k, f);
    PoolNameParses(PoolName(k, f), k', f');
  }

  /** fmt.Sprintf("%s-%d", k8sDeviceName, i). */
  function DeviceName(k8sDeviceName: string, i: nat): string {
    k8sDeviceName + "-" + Itoa(i)
  }

  function ParseDeviceName(s: string): Option<(string, nat)> {
    var i := LastIndex(s, '-');
    if i < 0 then None
    else match Atoi(s[i + 1..])
      case Some(n) => if n >= 0 then Some((s[..i], n)) else None
      case None => None
  }

  lemma DeviceNameParses(s: string, k: string, i: nat)
    ensures ParseDeviceName(s) == Some((k, i)) <==> s == DeviceName(k, i)
  {
    var name := DeviceName(k, i);
    assert name == k + ['-'] + Itoa(i);
    LastIndexOfJoin(k, '-', Itoa(i));
    assert name[|k| + 1..] == Itoa(i);
    assert name[..|k|] == k;
    AtoiInvertsItoa(Itoa(i), i);
    if ParseDeviceName(s) == Some((k, i)) {
      var j := LastIndex(s, '-');
      AtoiInvertsItoa(s[j + 1..], i);
      assert s == s[..j] + [s[j]] + s[j + 1..];
    }
  }

  // Labels as validation.IsDNS1123Label accepts them: RFC 1123 section 2.1 on top of RFC 1035 section 2.3.4.

  predicate IsAlphanumeric(c: char) {
    IsDigit(c) || 'a' <= c <= 'z'
  }

  predicate IsDNSLabel(s: string) {
    && 1 <= |s| <= 63
    && IsAlphanumeric(s[0]) && IsAlphanumeric(s[|s| - 1])
    && forall i :: 0 <= i < |s| ==> IsAlphanumeric(s[i]) || s[i] == '-'
  }

  /** Every device name of a pool (at most 128 devices, validated k8s name) is itself a DNS label. */
  lemma DeviceNameIsDNSLabel(k: string, i: nat)
    requires IsDNSLabel(k) && |k| <= 50 && i < 128
    ensures IsDNSLabel(DeviceName(k, i))
  {
    assert |Digits(i / 10 / 10)| == 1;
    assert |Digits(i / 10)| <= 2;
    assert |Digits(i)| <= 3;
    var s := DeviceName(k, i);
    forall j | 0 <= j < |s|
      ensures IsAlphanumeric(s[j]) || s[j] == '-'
    {
      if j > |k| {
        assert s[j] == Itoa(i)[j - |k| - 1];
      }
    }
    assert s[|s| - 1] == Itoa(i)[|Itoa(i)| - 1];
  }

  // Node label keys.

  function FabricKey(prefix: string): string { prefix + "/" + "fabric" }

  function DeviceKey(prefix: string, k: string): string { prefix + "/" + k }

  function MaxKey(prefix: string, k: string): string { prefix + "/" + k + "-size-max" }

  function MinKey(prefix: string, k: string): string { prefix + "/" + k + "-size-min" }

  /** The keys the driver writes never collide with each other, whatever the device names. */
  lemma WrittenKeysDistinct(prefix: string, k: string, k': string)
    ensures MaxKey(prefix, k) == MaxKey(prefix, k') <==> k == k'
    ensures MinKey(prefix, k) == MinKey(prefix, k') <==> k == k'
    ensures MaxKey(prefix, k) != MinKey(prefix, k')
    ensures FabricKey(prefix) != MaxKey(prefix, k) && FabricKey(prefix) != MinKey(prefix, k)
  {
    var a, b := MaxKey(prefix, k), MaxKey(prefix, k');
    var c, d := MinKey(prefix, k), MinKey(prefix, k');
    assert a[|prefix| + 1..|a| - 9] == k && b[|prefix| + 1..|b| - 9] == k';
    assert c[|prefix| + 1..|c| - 9] == k && d[|prefix| + 1..|d| - 9] == k';
    assert a[|a| - 1] == 'x' && c[|c| - 1] == 'n' && d[|d| - 1] == 'n';
    var fk := FabricKey(prefix);
    assert fk[|fk| - 1] == 'c';
  }

  /** A device named like this shares its label key with a limit of the other device. */
  predicate IsLimitName(k: string, other: string) {
    k == other + "-size-max" || k == other + "-size-min"
  }

  /** The key a pool's selector reads can be one of the written keys, and exactly in these cases. */
  lemma DeviceKeyCollisions(prefix: string, k: string, k': string)
    ensures DeviceKey(prefix, k) == FabricKey(prefix) <==> k == "fabric"
    ensures DeviceKey(prefix, k) == MaxKey(prefix, k') <==> k == k' + "-size-max"
    ensures DeviceKey(prefix, k) == MinKey(prefix, k') <==> k == k' + "-size-min"
  {
    var key := DeviceKey(prefix, k);
    var n := |prefix| + 1;
    assert key[n..] == k;
    assert FabricKey(prefix)[n..] == "fabric";
    assert MaxKey(prefix, k') == DeviceKey(prefix, k' + "-size-max");
    assert MaxKey(prefix, k')[n..] == k' + "-size-max";
    assert MinKey(prefix, k') == DeviceKey(prefix, k' + "-size-min");
    assert MinKey(prefix, k')[n..] == k' + "-size-min";
  }
}
