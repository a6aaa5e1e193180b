/** The encoder object of QPACK and the two decoders, with tables changed in place. */
module QpackCodec {
  import opened Wrappers
  import opened Octets
  import opened HpackTable
  import opened StaticTable
  import opened QpackTable
  import opened Qpack
  import Hpack

  lemma {:induction false} StreamBytesSnoc(c: Coding, all: seq<Instruction>, ins: Instruction)
    ensures StreamBytes(c, all + [ins]) == StreamBytes(c, all) + Spelled(c, ins)
    decreases |all|
  {
    if |all| == 0 {
      assert all + [ins] == [ins] && [ins][1..] == [];
    } else {
      StreamBytesSnoc(c, all[1..], ins);
      assert (all + [ins])[1..] == all[1..] + [ins];
    }
  }

  lemma {:induction false} RequiredSnoc(lines: seq<Line>, line: Line)
    ensures Required(lines + [line]) ==
            if line.DynamicLine? && line.absolute + 1 > Required(lines) then line.absolute + 1 else Required(lines)
    decreases |lines|
  {
    if |lines| == 0 {
      assert lines + [line] == [line] && [line][1..] == [];
    } else {
      RequiredSnoc(lines[1..], line);
      assert (lines + [line])[1..] == lines[1..] + [line];
    }
  }

  /** What is planned so far, with the plan of the rest behind it, is the whole plan. */
  ghost predicate PlanningOn(c: Coding, all: (seq<Line>, EncoderState), plan: seq<Line>, e: EncoderState, rest: seq<Field>) {
    e.table.Sound() && all == (plan + PlanAll(c, e, rest).0, PlanAll(c, e, rest).1)
  }

  lemma {:induction false} PlanStep(c: Coding, all: (seq<Line>, EncoderState), plan: seq<Line>, e: EncoderState, fields: seq<Field>, i: nat)
    requires i < |fields| && PlanningOn(c, all, plan, e, fields[i..])
    ensures var (line, e') := PlanOne(c, e, fields[i]); PlanningOn(c, all, plan + [line], e', fields[i + 1..])
  {
    var (line, e') := PlanOne(c, e, fields[i]);
    assert fields[i..][0] == fields[i] && fields[i..][1..] == fields[i + 1..];
    var rest := PlanAll(c, e', fields[i + 1..]).0;
    assert plan + ([line] + rest) == (plan + [line]) + rest;
  }

  lemma {:induction false} EmitStep(c: Coding, lines: seq<Line>, base: nat, huffman: bool, i: nat, body: Bytes)
    requires i < |lines| && body + EmitAll(c, lines[i..], base, huffman) == EmitAll(c, lines, base, huffman)
    ensures body + EmitLine(c, lines[i], base, huffman) + EmitAll(c, lines[i + 1..], base, huffman) == EmitAll(c, lines, base, huffman)
  {
    assert lines[i..][0] == lines[i] && lines[i..][1..] == lines[i + 1..];
  }

  class Encoder {
    const c: Coding
    const table: NumberedTable
    var pendingInstructions: Bytes
    /** What the pending octets say. */
    ghost var pending: seq<Instruction>

    ghost predicate Valid()
      reads this, table
    {
      table.Valid() && pendingInstructions == StreamBytes(c, pending)
    }

    ghost function State(): EncoderState
      reads this, table
    {
      EncoderState(table.Value(), pending)
    }

    constructor (c: Coding, capacity: nat)
      ensures Valid() && fresh(table) && this.c == c
      ensures State() == EncoderState(Numbered([], capacity, 0), if capacity > 0 then [SetCapacity(capacity)] else [])
    {
      this.c := c;
      table := new NumberedTable(capacity);
      pendingInstructions := if capacity > 0 then Spelled(c, SetCapacity(capacity)) else [];
      pending := if capacity > 0 then [SetCapacity(capacity)] else [];
      new;
      if capacity > 0 {
        StreamBytesSnoc(c, [], SetCapacity(capacity));
        assert [] + [SetCapacity(capacity)] == pending;
      }
    }

    method Say(ins: Instruction)
      requires pendingInstructions == StreamBytes(c, pending)
      modifies this
      ensures pendingInstructions == StreamBytes(c, pending) && pending == old(pending) + [ins]
    {
      StreamBytesSnoc(c, pending, ins);
      pendingInstructions := pendingInstructions + Spelled(c, ins);
      pending := pending + [ins];
    }

    method ChangeCapacity(capacity: nat)
      requires Valid()
      modifies this, table
      ensures Valid() && State() == EncoderState(old(table.Value()).Resize(capacity), old(pending) + [SetCapacity(capacity)])
    {
      table.SetCapacity(capacity);
      Say(SetCapacity(capacity));
    }

    method TakeEncoderStream() returns (data: Bytes)
      requires Valid()
      modifies this
      ensures Valid() && data == StreamBytes(c, old(pending)) && State() == EncoderState(old(table.Value()), [])
    {
      data := pendingInstructions;
      pendingInstructions := [];
      pending := [];
    }

    /** The number of the inserted field, or nothing when it does not fit. */
    method Insert(f: Field) returns (absolute: Option<nat>)
      requires Valid()
      modifies this, table
      ensures Valid()
      ensures if old(table.Value()).Fits(f)
              then absolute == Some(old(table.insertCount)) &&
                   State() == EncoderState(old(table.Value()).Add(f), old(pending) + [InsertionOf(c, f)])
              else absolute == None && State() == old(State())
    {
      var named := StaticByNameFrom(c.fixed, f.name, 0);
      var instruction := if named.Some? then InsertStatic(named.value, f.value) else InsertLiteral(f.name, f.value);
      absolute := table.Add(f);
      if absolute.Some? {
        Say(instruction);
      }
    }

    method PlanField(f: Field) returns (line: Line)
      requires Valid()
      modifies this, table
      ensures Valid() && (line, State()) == PlanOne(c, old(State()), f)
    {
      var exact := StaticExactFrom(c.fixed, f, 0);
      if exact.Some? {
        return StaticLine(exact.value);
      }
      var found := table.Find(f);
      var absolute := if found.Exact? then Some(table.insertCount - |table.entries| + found.position) else None;
      if !found.Exact? && table.capacity > 0 && !NeverIndex(f.name) {
        absolute := Insert(f);
      }
      if absolute.Some? {
        return DynamicLine(absolute.value);
      }
      var named := StaticByNameFrom(c.fixed, f.name, 0);
      return if named.Some? then StaticName(named.value, f.value) else LiteralLine(f.name, f.value, NeverIndex(f.name));
    }

    /** The first pass. */
    method Plan(headers: seq<Field>) returns (plan: seq<Line>, required: nat)
      requires Valid()
      modifies this, table
      ensures Valid() && (plan, State()) == PlanAll(c, old(State()), Hpack.LowerNames(headers)) && required == Required(plan)
    {
      ghost var fields := Hpack.LowerNames(headers);
      ghost var all := PlanAll(c, State(), fields);
      plan, required := [], 0;
      assert fields[0..] == fields && [] + all.0 == all.0;
      for i := 0 to |headers|
        invariant Valid() && required == Required(plan)
        invariant PlanningOn(c, all, plan, State(), fields[i..])
      {
        PlanStep(c, all, plan, State(), fields, i);
        var line := PlanField(Hpack.LowerName(headers[i]));
        RequiredSnoc(plan, line);
        if line.DynamicLine? && line.absolute + 1 > required {
          required := line.absolute + 1;
        }
        plan := plan + [line];
      }
      assert fields[|headers|..] == [] && plan + [] == plan;
    }

    /** The second pass: nothing is written before the base is settled. */
    method Emit(plan: seq<Line>, base: nat, huffman: bool) returns (body: Bytes)
      ensures body == EmitAll(c, plan, base, huffman)
    {
      body := [];
      assert plan[0..] == plan && [] + EmitAll(c, plan, base, huffman) == EmitAll(c, plan, base, huffman);
      for i := 0 to |plan|
        invariant body + EmitAll(c, plan[i..], base, huffman) == EmitAll(c, plan, base, huffman)
      {
        EmitStep(c, plan, base, huffman, i, body);
        body := body + EmitLine(c, plan[i], base, huffman);
      }
      assert plan[|plan|..] == [] && body + [] == body;
    }

    method Encode(headers: seq<Field>, huffman: bool) returns (section: Bytes)
      requires Valid()
      modifies this, table
      ensures Valid() && (section, State()) == EncodeSection(c, old(State()), headers, huffman)
    {
      var plan, required := Plan(headers);
      var base := table.insertCount;
      var body := Emit(plan, base, huffman);
      section := SectionPrefix(required, base, MaxEntries(table.capacity)) + body;
    }
  }

  /** Applies a peer's instructions to a table; a broken instruction leaves those before it applied. */
  method DecodeEncoderStream(c: Coding, data: Bytes, table: NumberedTable) returns (r: Result<nat, QpackError>)
    requires table.Valid()
    modifies table
    ensures table.Valid()
    ensures match ReadStream(c, old(table.Value()), data, 0, 0)
            case Replayed(t, applied) => r == Ok(applied) && table.Value() == t
            case Broken(e, t) => r == Err(e) && table.Value() == t
  {
    var offset, applied := 0, 0;
    while offset < |data|
      invariant table.Valid() && offset <= |data|
      invariant ReadStream(c, table.Value(), data, offset, applied) == ReadStream(c, old(table.Value()), data, 0, 0)
      decreases |data| - offset
    {
      ReadStreamUnfolds(c, table.Value(), data, offset, applied);
      ReadInstructionUnfolds(c, table.Value(), data, offset);
      var byte := data[offset];
      if 0x20 <= byte < 0x40 {
        var capacity := ReadInteger(data, offset, 5);
        if capacity.Err? {
          return Err(capacity.error);
        }
        table.SetCapacity(capacity.value.0);
        offset := capacity.value.1;
      } else {
        var field := ReadInsertion(c, data, offset, table);
        if field.Err? {
          return Err(field.error);
        }
        var added := table.Add(field.value.0);
        offset, applied := field.value.1, applied + 1;
      }
    }
    ReadStreamUnfolds(c, table.Value(), data, offset, applied);
    return Ok(applied);
  }

  /** The field an insertion is about, and the offset behind it. */
  method ReadInsertion(c: Coding, data: Bytes, offset: nat, table: NumberedTable) returns (r: Result<(Field, nat), QpackError>)
    requires table.Valid() && offset < |data| && !(0x20 <= data[offset] < 0x40)
    ensures r == if data[offset] >= 0x80 then ReadInsertByName(c, table.Value(), data, offset, data[offset] >= 0xC0)
                 else if data[offset] >= 0x40 then ReadInsertByLiteral(c, data, offset)
                 else ReadDuplicate(table.Value(), data, offset)
  {
    if 0x40 <= data[offset] < 0x80 {
      return ReadInsertByLiteral(c, data, offset);
    }
    var fixed := data[offset] >= 0xC0;
    var index := ReadInteger(data, offset, if data[offset] >= 0x80 then 6 else 5);
    if index.Err? {
      return Err(index.error);
    }
    if data[offset] < 0x80 {
      var entry := table.Get(table.insertCount - 1 - index.value.0);
      return if entry.Some? then Ok((entry.value, index.value.1)) else Err(NoLongerHeld);
    }
    var value := ReadString(c, data, index.value.1, 7);
    if value.Err? {
      return Err(value.error);
    }
    if fixed {
      var named := StaticEntry(c, index.value.0);
      return if named.Ok? then Ok((Field(named.value.name, value.value.0), value.value.1)) else Err(named.error);
    }
    var entry := table.Get(index.value.0);
    return if entry.Some? then Ok((Field(entry.value.name, value.value.0), value.value.1)) else Err(NoLongerHeld);
  }

  /** The table as a value, if the caller has one. */
  ghost function ValueOf(table: NumberedTable?): Option<Numbered>
    reads table
  {
    if table == null then None else Some(table.Value())
  }

  method DecodeFieldSection(c: Coding, data: Bytes, table: NumberedTable?) returns (r: Result<seq<Field>, QpackError>)
    requires table != null ==> table.Valid()
    ensures r == DecodeSection(c, ValueOf(table), data)
  {
    var prefix := ReadPrefix(data);
    if prefix.Err? {
      return Err(prefix.error);
    }
    var (encoded, delta, sign, start) := prefix.value;
    var maxEntries, total := 0, 0;
    if table != null {
      maxEntries, total := MaxEntries(table.capacity), table.insertCount;
    }
    var required := DecodeCount(encoded, maxEntries, total);
    if required.Err? {
      return Err(required.error);
    }
    if required.value != 0 && (table == null || required.value > total) {
      return Err(RequiresEntries);
    }
    var base := if sign then required.value - delta else required.value + delta;
    var headers: seq<Field>, offset: nat := [], start;
    while offset < |data|
      invariant offset <= |data|
      invariant ReadLines(c, ValueOf(table), base, data, offset, headers) == ReadLines(c, ValueOf(table), base, data, start, [])
      decreases |data| - offset
    {
      ReadLinesUnfolds(c, ValueOf(table), base, data, offset, headers);
      var field := ReadFieldLine(c, table, base, data, offset);
      if field.Err? {
        return Err(field.error);
      }
      headers, offset := headers + [field.value.0], field.value.1;
    }
    ReadLinesUnfolds(c, ValueOf(table), base, data, offset, headers);
    return Ok(headers);
  }

  method LookUp(table: NumberedTable?, absolute: int) returns (r: Result<Field, QpackError>)
    requires table != null ==> table.Valid()
    ensures r == TableEntry(ValueOf(table), absolute)
  {
    if table == null {
      return Err(NoTable);
    }
    var entry := table.Get(absolute);
    return if entry.Some? then Ok(entry.value) else Err(NoLongerHeld);
  }

  method ReadFieldLine(c: Coding, table: NumberedTable?, base: int, data: Bytes, offset: nat) returns (r: Result<(Field, nat), QpackError>)
    requires (table != null ==> table.Valid()) && offset < |data|
    ensures r == ReadLine(c, ValueOf(table), base, data, offset)
  {
    ReadLineUnfolds(c, ValueOf(table), base, data, offset);
    var byte := data[offset];
    if byte < 0x40 {
      if byte < 0x20 {
        return Err(if byte >= 0x10 then PostBaseIndexing else UnknownPattern);
      }
      var name := ReadString(c, data, offset, 3);
      if name.Err? {
        return Err(name.error);
      }
      var value := ReadString(c, data, name.value.1, 7);
      return if value.Ok? then Ok((Field(Lower(name.value.0), value.value.0), value.value.1)) else Err(value.error);
    }
    var index := ReadInteger(data, offset, if byte >= 0x80 then 6 else 4);
    if index.Err? {
      return Err(index.error);
    }
    var entry: Result<Field, QpackError>;
    if (if byte >= 0x80 then byte >= 0xC0 else byte % 0x20 >= 0x10) {
      entry := StaticEntry(c, index.value.0);
    } else {
      entry := LookUp(table, base - index.value.0 - 1);
    }
    if entry.Err? {
      return Err(entry.error);
    }
    if byte >= 0x80 {
      return Ok((entry.value, index.value.1));
    }
    var value := ReadString(c, data, index.value.1, 7);
    return if value.Ok? then Ok((Field(entry.value.name, value.value.0), value.value.1)) else Err(value.error);
  }
}
