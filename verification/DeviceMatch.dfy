/**
 Device scoring and the matching loop of the activation transaction. `MatchDevice` is the
 specification; the loop refines it, and the lemmas say what it means for any list of devices.
 */
module DeviceMatch {
  import opened Prelude

  const DIGEST_BYTES := 32
  const MATCH_THRESHOLD := 70

  datatype DeviceStatus = Active | Revoked

  /** The keyed digests of the hardware identifiers; the empty string is SQL NULL. */
  datatype Hardware = Hardware(
    smbios: string, motherboard: string, bios: string, disk: string, guid: string, fingerprint: string)

  datatype Device = Device(
    id: nat, userId: nat, licenseId: nat, key: seq<Byte>, keySha: seq<Byte>, hardware: Hardware,
    status: DeviceStatus, createdAt: int, updatedAt: int, lastSeenAt: int)

  /** What a verification presents: the key digest and the hardware digests. */
  datatype Presented = Presented(keySha: seq<Byte>, hardware: Hardware)

  datatype Signals = Signals(
    tpm: string, smbios: string, motherboard: string, bios: string, disk: string, guid: string)

  lemma HexInjective(a: seq<Byte>, b: seq<Byte>)
    requires Hex(a) == Hex(b)
    ensures a == b
  {
    hide HexDigit;
    assert |a| == |b|;
    forall k | 0 <= k < |a| ensures a[k] == b[k] {
      assert Hex(a)[2 * k] == Hex(b)[2 * k] && Hex(a)[2 * k + 1] == Hex(b)[2 * k + 1];
      HexDigitsInjective(a[k], b[k]);
    }
  }

  predicate SignalMatches(stored: string, presented: string) {
    stored != "" && presented != "" && stored == presented
  }

  function Weight(stored: string, presented: string, weight: nat): nat {
    if SignalMatches(stored, presented) then weight else 0
  }

  function ScoreDevice(stored: Signals, presented: Signals): nat {
    Weight(stored.tpm, presented.tpm, 50) + Weight(stored.smbios, presented.smbios, 20)
    + Weight(stored.motherboard, presented.motherboard, 15) + Weight(stored.bios, presented.bios, 5)
    + Weight(stored.disk, presented.disk, 5) + Weight(stored.guid, presented.guid, 5)
  }

  /** What the threshold means: the TPM key, and either the SMBIOS UUID or the board and one lesser signal. */
  lemma ThresholdMeaning(stored: Signals, presented: Signals)
    ensures ScoreDevice(stored, presented) >= MATCH_THRESHOLD <==>
            && stored.tpm == presented.tpm != ""
            && (|| stored.smbios == presented.smbios != ""
                || (&& stored.motherboard == presented.motherboard != ""
                    && (|| stored.bios == presented.bios != ""
                        || stored.disk == presented.disk != ""
                        || stored.guid == presented.guid != "")))
  {
  }

  function SignalsOf(keySha: seq<Byte>, hw: Hardware): Signals {
    Signals(Hex(keySha), hw.smbios, hw.motherboard, hw.bios, hw.disk, hw.guid)
  }

  function Score(d: Device, p: Presented): nat {
    ScoreDevice(SignalsOf(d.keySha, d.hardware), SignalsOf(p.keySha, p.hardware))
  }

  predicate SameKey(d: Device, p: Presented) {
    |d.keySha| == DIGEST_BYTES && d.keySha == p.keySha
  }

  /** A score at the threshold is unreachable without the key. */
  lemma ThresholdNeedsKey(d: Device, p: Presented)
    requires Score(d, p) >= MATCH_THRESHOLD
    ensures d.keySha == p.keySha
  {
    ThresholdMeaning(SignalsOf(d.keySha, d.hardware), SignalsOf(p.keySha, p.hardware));
    HexInjective(d.keySha, p.keySha);
  }

  // ---- The matching loop ----

  /** A revoked device that either revoked check of the loop can hit. */
  predicate RevokedHit(d: Device, p: Presented) {
    d.status == Revoked && (SameKey(d, p) || Score(d, p) >= MATCH_THRESHOLD)
  }

  predicate Candidate(d: Device, p: Presented) {
    d.status == Active && Score(d, p) >= MATCH_THRESHOLD
  }

  predicate AnyRevoked(devices: seq<Device>, p: Presented) {
    exists i :: 0 <= i < |devices| && RevokedHit(devices[i], p)
  }

  function CountActive(devices: seq<Device>): nat {
    if devices == [] then 0
    else CountActive(devices[..|devices| - 1]) + if devices[|devices| - 1].status == Active then 1 else 0
  }

  /** The earliest candidate of maximal score, found from the left. */
  function Best(devices: seq<Device>, p: Presented): (best: Option<Device>)
    ensures best.Some? ==> Candidate(best.value, p)
  {
    if devices == [] then None
    else
      var best := Best(devices[..|devices| - 1], p);
      var last := devices[|devices| - 1];
      if Candidate(last, p) && (best.None? || Score(last, p) > Score(best.value, p)) then Some(last) else best
  }

  datatype Match = DeviceRevoked | Verdict(matched: Option<Device>, activeCount: nat)

  function MatchDevice(devices: seq<Device>, p: Presented): Match {
    if AnyRevoked(devices, p) then DeviceRevoked else Verdict(Best(devices, p), CountActive(devices))
  }

  method MatchDeviceLoop(devices: seq<Device>, p: Presented) returns (result: Match)
    ensures result == MatchDevice(devices, p)
  {
    hide Score;
    var activeCount: nat := 0;
    var matched: Option<Device> := None;
    var bestScore: int := -1;
    for index := 0 to |devices|
      invariant !AnyRevoked(devices[..index], p)
      invariant activeCount == CountActive(devices[..index])
      invariant matched == Best(devices[..index], p)
      invariant bestScore == if matched.Some? then Score(matched.value, p) else -1
    {
      var device := devices[index];
      assert devices[..index + 1][..index] == devices[..index];
      if device.status == Active {
        activeCount := activeCount + 1;
      }
      if device.status == Revoked && |device.keySha| == DIGEST_BYTES && device.keySha == p.keySha {
        assert RevokedHit(devices[index], p);
        return DeviceRevoked;
      }
      var score := Score(device, p);
      if score < MATCH_THRESHOLD {
        continue;
      }
      if device.status == Revoked {
        assert RevokedHit(devices[index], p);
        return DeviceRevoked;
      }
      if device.status == Active && score > bestScore {
        matched := Some(device);
        bestScore := score;
      }
    }
    assert devices[..|devices|] == devices;
    return Verdict(matched, activeCount);
  }

  /** The loop's second revoked check never fires for a well-formed digest: the first one already has. */
  lemma SecondRevokedCheckIsDead(d: Device, p: Presented)
    requires |p.keySha| == DIGEST_BYTES
    ensures RevokedHit(d, p) <==> d.status == Revoked && SameKey(d, p)
  {
    if Score(d, p) >= MATCH_THRESHOLD {
      ThresholdNeedsKey(d, p);
    }
  }

  /** Position `k` holds the earliest candidate of maximal score. */
  ghost predicate EarliestBest(devices: seq<Device>, p: Presented, k: nat) {
    && k < |devices|
    && Candidate(devices[k], p)
    && (forall i :: 0 <= i < |devices| && Candidate(devices[i], p) ==> Score(devices[i], p) <= Score(devices[k], p))
    && (forall i :: 0 <= i < k && Candidate(devices[i], p) ==> Score(devices[i], p) < Score(devices[k], p))
  }

  /** `Best` is absent exactly when nothing qualifies; otherwise it is the first device of the highest score. */
  lemma {:induction false} BestMeaning(devices: seq<Device>, p: Presented)
    ensures Best(devices, p).None? <==> forall i :: 0 <= i < |devices| ==> !Candidate(devices[i], p)
    ensures Best(devices, p).Some? ==>
              exists k: nat :: EarliestBest(devices, p, k) && devices[k] == Best(devices, p).value
  {
    hide Score, Candidate;
    if devices != [] {
      var n := |devices| - 1;
      var init := devices[..n];
      BestMeaning(init, p);
      assert forall i :: 0 <= i < n ==> init[i] == devices[i];
      if Best(init, p).Some? {
        var k: nat :| EarliestBest(init, p, k) && init[k] == Best(init, p).value;
        if Best(devices, p) == Best(init, p) {
          assert EarliestBest(devices, p, k);
        } else {
          assert EarliestBest(devices, p, n);
        }
      } else if Best(devices, p).Some? {
        assert EarliestBest(devices, p, n);
      }
    }
  }

  lemma {:induction false} CountActiveConcat(a: seq<Device>, b: seq<Device>)
    ensures CountActive(a + b) == CountActive(a) + CountActive(b)
  {
    if b == [] {
      assert a + b == a;
    } else {
      var init := b[..|b| - 1];
      CountActiveConcat(a, init);
      assert (a + b)[..|a + b| - 1] == a + init;
    }
  }

  lemma WithoutOne(b: seq<Device>, j: nat)
    requires j < |b|
    ensures b == b[..j] + [b[j]] + b[j + 1..]
    ensures multiset(b[..j] + b[j + 1..]) == multiset(b) - multiset{b[j]}
  {
    assert b == b[..j] + [b[j]] + b[j + 1..];
  }

  /** Taking one device out of a list takes its share out of the count. */
  lemma CountWithout(b: seq<Device>, j: nat)
    requires j < |b|
    ensures CountActive(b) == CountActive(b[..j] + b[j + 1..]) + CountActive([b[j]])
  {
    hide *;
    WithoutOne(b, j);
    CountActiveConcat(b[..j], [b[j]]);
    CountActiveConcat(b[..j] + [b[j]], b[j + 1..]);
    CountActiveConcat(b[..j], b[j + 1..]);
  }

  lemma {:induction false} CountActivePermuted(a: seq<Device>, b: seq<Device>)
    requires multiset(a) == multiset(b)
    ensures CountActive(a) == CountActive(b)
    decreases |a|
  {
    hide CountActive;
    if a == [] {
      assert |multiset(b)| == 0;
    } else {
      var i := |a| - 1;
      var j := SameElements(a, b, i);
      WithoutOne(a, i);
      WithoutOne(b, j);
      CountWithout(a, i);
      CountWithout(b, j);
      CountActivePermuted(a[..i] + a[i + 1..], b[..j] + b[j + 1..]);
    }
  }

  lemma SameElements(a: seq<Device>, b: seq<Device>, i: nat) returns (j: nat)
    requires multiset(a) == multiset(b) && i < |a|
    ensures j < |b| && b[j] == a[i]
  {
    assert a[i] in multiset(b);
    j :| j < |b| && b[j] == a[i];
  }

  lemma RevokedOneWay(a: seq<Device>, b: seq<Device>, p: Presented)
    requires multiset(a) == multiset(b) && AnyRevoked(a, p)
    ensures AnyRevoked(b, p)
  {
    hide RevokedHit;
    var i: nat :| i < |a| && RevokedHit(a[i], p);
    var j := SameElements(a, b, i);
  }

  lemma BestOneWay(a: seq<Device>, b: seq<Device>, p: Presented)
    requires multiset(a) == multiset(b) && Best(a, p).Some?
    ensures Best(b, p).Some? && Score(Best(a, p).value, p) <= Score(Best(b, p).value, p)
  {
    hide Score, Candidate, Best;
    BestMeaning(a, p);
    BestMeaning(b, p);
    var i: nat :| EarliestBest(a, p, i) && a[i] == Best(a, p).value;
    var j := SameElements(a, b, i);
    assert Candidate(b[j], p);
  }

  /** Verdict, active count and best score do not depend on the order of the list. */
  lemma OrderIrrelevant(a: seq<Device>, b: seq<Device>, p: Presented)
    requires multiset(a) == multiset(b)
    ensures MatchDevice(a, p).DeviceRevoked? <==> MatchDevice(b, p).DeviceRevoked?
    ensures CountActive(a) == CountActive(b)
    ensures Best(a, p).None? <==> Best(b, p).None?
    ensures Best(a, p).Some? ==> Score(Best(a, p).value, p) == Score(Best(b, p).value, p)
  {
    CountActivePermuted(a, b);
    if AnyRevoked(a, p) { RevokedOneWay(a, b, p); }
    if AnyRevoked(b, p) { RevokedOneWay(b, a, p); }
    if Best(a, p).Some? { BestOneWay(a, b, p); }
    if Best(b, p).Some? { BestOneWay(b, a, p); }
  }
}
