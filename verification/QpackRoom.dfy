/** A table with room: when a section can evict nothing that it refers to. */
module QpackRoom {
  import opened Wrappers
  import opened HpackTable
  import opened StaticTable
  import opened QpackTable
  import opened Qpack
  import opened QpackRoundTrip
  import Hpack

  /** The field would be inserted into the table as it is. */
  predicate Fresh(c: Coding, t: Numbered, f: Field) {
    StaticExactFrom(c.fixed, f, 0).None? && f !in t.entries && WorthInserting(t, f)
  }

  /** What the fresh fields among these take, counted as often as they come. */
  function FreshSize(c: Coding, t: Numbered, fields: seq<Field>): nat
    decreases |fields|
  {
    if |fields| == 0 then 0
    else (if Fresh(c, t, fields[0]) then EntrySize(fields[0]) else 0) + FreshSize(c, t, fields[1..])
  }

  /** No field is among the oldest `k` entries, and the others and the fresh fields fit together. */
  predicate HasRoom(c: Coding, t: Numbered, fields: seq<Field>, k: nat) {
    k <= |t.entries| && (forall i :: 0 <= i < k ==> t.entries[i] !in fields) &&
    SizeOf(t.entries[k..]) + FreshSize(c, t, fields) <= t.capacity
  }

  /** Fields that are fresh for `t` were so for `u`. */
  lemma {:induction false} FreshGrowsNoLarger(c: Coding, t: Numbered, u: Numbered, fields: seq<Field>)
    requires forall f :: f in fields && Fresh(c, t, f) ==> Fresh(c, u, f)
    ensures FreshSize(c, t, fields) <= FreshSize(c, u, fields)
    decreases |fields|
  {
    if |fields| > 0 {
      assert fields[0] in fields && forall f :: f in fields[1..] ==> f in fields;
      FreshGrowsNoLarger(c, t, u, fields[1..]);
    }
  }

  /** An insert leaves room for the rest of the fields, and the oldest number that may be needed stays the same. */
  lemma {:induction false} InsertLeavesRoom(c: Coding, t: Numbered, f: Field, rest: seq<Field>, k: nat) returns (k': nat)
    requires t.Sound() && Fresh(c, t, f) && HasRoom(c, t, [f] + rest, k)
    ensures var t' := t.Add(f); HasRoom(c, t', rest, k') && t'.Dropped() + k' == t.Dropped() + k && t'.count == t.count + 1
  {
    var all, t' := t.entries + [f], t.Add(f);
    assert ([f] + rest)[1..] == rest;
    assert all[k..] == t.entries[k..] + [f];
    SizeOfSnoc(t.entries[k..], f);
    FitFrontKeepsNewest(all, t.capacity, k);
    FitFrontIsEnd(all, t.capacity);
    var gone := |all| - |t'.entries|;
    k' := k - gone;
    assert t'.entries[k'..] == all[k..];
    assert forall i :: 0 <= i < k' ==> t'.entries[i] == t.entries[i + gone] && t.entries[i + gone] !in [f] + rest;
    assert forall g :: g in rest ==> g in [f] + rest;
    forall g | g in rest && Fresh(c, t', g)
      ensures Fresh(c, t, g) && g != f
    {
      LaterFresh(t, t', f, g, gone, k, rest);
    }
    FreshGrowsNoLarger(c, t', t, rest);
  }

  lemma {:induction false} FitFrontIsEnd(entries: seq<Field>, capacity: nat)
    ensures FitFront(entries, capacity) == entries[|entries| - |FitFront(entries, capacity)|..]
    decreases |entries|
  {
    FitFrontUnfolds(entries, capacity);
    if |entries| > 0 && SizeOf(entries) > capacity {
      FitFrontIsEnd(entries[1..], capacity);
    }
  }

  lemma {:induction false} LaterFresh(t: Numbered, t': Numbered, f: Field, g: Field, gone: nat, k: nat, rest: seq<Field>)
    requires gone <= k <= |t.entries| && t'.entries == (t.entries + [f])[gone..] && g in rest && g !in t'.entries
    requires forall i :: 0 <= i < k ==> t.entries[i] !in [f] + rest
    ensures g !in t.entries && g != f
  {
    var all := t.entries + [f];
    assert forall i :: gone <= i < |all| ==> all[i] == t'.entries[i - gone];
    assert all[|t.entries|] == f;
    assert g in [f] + rest;
    forall i | 0 <= i < |t.entries|
      ensures t.entries[i] != g
    {
      assert i >= gone ==> t.entries[i] == t'.entries[i - gone];
    }
  }

  /** With room, the numbers that the lines refer to are held to the end. */
  lemma {:induction false} RoomKeepsEntries(c: Coding, e: EncoderState, fields: seq<Field>, k: nat)
    requires e.table.Sound() && HasRoom(c, e.table, fields, k)
    ensures var (lines, e') := PlanAll(c, e, fields);
            e'.table.Dropped() <= e.table.Dropped() + k && e.table.count <= e'.table.count &&
            forall i :: 0 <= i < |lines| && lines[i].DynamicLine? ==> e.table.Dropped() + k <= lines[i].absolute < e'.table.count
    decreases |fields|
  {
    if |fields| > 0 {
      var f, rest := fields[0], fields[1..];
      assert fields == [f] + rest;
      var (line, e1) := PlanOne(c, e, f);
      var k1 := OneLeavesRoom(c, e, f, rest, k);
      RoomKeepsEntries(c, e1, rest, k1);
      var (lines, e') := PlanAll(c, e1, rest);
      forall i | 0 <= i < |lines| + 1 && ([line] + lines)[i].DynamicLine?
        ensures e.table.Dropped() + k <= ([line] + lines)[i].absolute < e'.table.count
      {
        assert i > 0 ==> ([line] + lines)[i] == lines[i - 1];
      }
    }
  }

  lemma {:induction false} OneLeavesRoom(c: Coding, e: EncoderState, f: Field, rest: seq<Field>, k: nat) returns (k': nat)
    requires e.table.Sound() && HasRoom(c, e.table, [f] + rest, k)
    ensures var (line, e') := PlanOne(c, e, f);
            HasRoom(c, e'.table, rest, k') && e'.table.Dropped() + k' == e.table.Dropped() + k && e.table.count <= e'.table.count &&
            (line.DynamicLine? ==> e.table.Dropped() + k <= line.absolute < e'.table.count)
  {
    var t, m := e.table, FindNewest(e.table.entries, f);
    assert ([f] + rest)[0] == f && ([f] + rest)[1..] == rest;
    assert forall g :: g in rest ==> g in [f] + rest;
    if Fresh(c, t, f) {
      k' := InsertLeavesRoom(c, t, f, rest, k);
    } else {
      k' := k;
      if StaticExactFrom(c.fixed, f, 0).None? && m.Exact? {
        assert t.entries[m.position] == f && f in [f] + rest;
      }
    }
  }

  /**
   * A guard over the headers and the table: with room, and a capacity below 2048, a section
   * comes back.
   */
  lemma {:induction false} RoomySectionComesBack(c: Coding, e: EncoderState, headers: seq<Field>, huffman: bool, k: nat)
    requires Encodable(c, e, Hpack.LowerNames(headers), huffman)
    requires HasRoom(c, e.table, Hpack.LowerNames(headers), k) && e.table.capacity < 2048
    ensures var e' := EncodeSection(c, e, headers, huffman).1;
            DecodeSection(c, Some(e'.table), EncodeSection(c, e, headers, huffman).0) == Ok(Hpack.LowerNames(headers))
  {
    var fields := Hpack.LowerNames(headers);
    var (lines, e') := PlanAll(c, e, fields);
    RoomKeepsEntries(c, e, fields, k);
    PlanAllStands(c, e, fields);
    SmallTablesKeepTheSign(e'.table, Required(lines));
    SectionComesBackExactly(c, e, headers, huffman);
  }
}
