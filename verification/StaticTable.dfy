/** What HPACK and QPACK have in common: a string compression, a static table, names kept out of tables. */
module StaticTable {
  import opened Wrappers
  import opened Octets
  import opened StringLiteral
  import opened HpackTable

  /** The fixed tables both peers know. */
  datatype Coding = Coding(z: Compressor, fixed: seq<Field>)

  ghost predicate ValidCoding(c: Coding) {
    Usable(c) && Lossless(c.z)
  }

  predicate Usable(c: Coding) {
    0 < |c.fixed| <= 1000
  }

  /** The lowest index from `from` on whose entry is `f`. */
  function StaticExactFrom(fixed: seq<Field>, f: Field, from: nat): (r: Option<nat>)
    ensures r.Some? ==> from <= r.value < |fixed| && fixed[r.value] == f
    ensures forall i :: from <= i < |fixed| && (r.Some? ==> i < r.value) ==> fixed[i] != f
    decreases |fixed| - from
  {
    if from >= |fixed| then None
    else if fixed[from] == f then Some(from)
    else StaticExactFrom(fixed, f, from + 1)
  }

  /** The lowest index from `from` on whose entry has the name. */
  function StaticByNameFrom(fixed: seq<Field>, name: Bytes, from: nat): (r: Option<nat>)
    ensures r.Some? ==> from <= r.value < |fixed| && fixed[r.value].name == name
    ensures forall i :: from <= i < |fixed| && (r.Some? ==> i < r.value) ==> fixed[i].name != name
    decreases |fixed| - from
  {
    if from >= |fixed| then None
    else if fixed[from].name == name then Some(from)
    else StaticByNameFrom(fixed, name, from + 1)
  }

  /** NEVER_INDEXED: names an intermediary must not put in a shared table. */
  predicate NeverIndex(name: Bytes) {
    name in NEVER_INDEXED
  }

  lemma {:induction false} ShortNamesAreIndexed(name: Bytes)
    requires |name| < 3
    ensures !NeverIndex(name)
  {
    assert forall n :: n in NEVER_INDEXED ==> |n| >= 6;
  }

  const NEVER_INDEXED: set<Bytes> :=
    {Ascii("authorization"), Ascii("cookie"), Ascii("set-cookie"), Ascii("proxy-authorization")}
}
