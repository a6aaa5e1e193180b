/** Numbers as octets, the highest first. */
module BigEndians {
  import opened Octets

  /** The lowest octet last. */
  function BigEndian(v: nat, n: nat): (r: Bytes)
    ensures |r| == n
    decreases n
  {
    if n == 0 then [] else BigEndian(v / 256, n - 1) + [v % 256]
  }

  function FromBig(octets: Bytes): nat
    decreases |octets|
  {
    if |octets| == 0 then 0 else 256 * FromBig(octets[..|octets| - 1]) + octets[|octets| - 1]
  }

  /** What is left of `v` when its `n` lowest octets are cut off. */
  function Cut(v: nat, n: nat): nat
    decreases n
  {
    if n == 0 then v else Cut(v / 256, n - 1)
  }

  lemma {:induction false} FirstOctet(v: nat, n: nat)
    requires n > 0
    ensures BigEndian(v, n)[0] == Cut(v, n - 1) % 256
    decreases n
  {
    if n > 1 {
      FirstOctet(v / 256, n - 1);
    }
  }

  lemma {:induction false} BigEndianIsValue(v: nat, n: nat)
    requires Cut(v, n) == 0
    ensures FromBig(BigEndian(v, n)) == v
    decreases n
  {
    if n > 0 {
      BigEndianIsValue(v / 256, n - 1);
      assert BigEndian(v, n)[..n - 1] == BigEndian(v / 256, n - 1);
    }
  }

  lemma {:induction false} ValueIsBigEndian(octets: Bytes)
    ensures BigEndian(FromBig(octets), |octets|) == octets
    decreases |octets|
  {
    if |octets| > 0 {
      var n := |octets| - 1;
      ValueIsBigEndian(octets[..n]);
      assert FromBig(octets) / 256 == FromBig(octets[..n]) && FromBig(octets) % 256 == octets[n];
      assert octets == octets[..n] + [octets[n]];
    }
  }

  lemma {:induction false} CutOnce(v: nat, n: nat)
    ensures Cut(v, n + 1) == Cut(v, n) / 256
    decreases n
  {
    if n > 0 {
      CutOnce(v / 256, n - 1);
    }
  }
}
