/** What the property reader promises about every payload it accepts. */
module MapiLemmas {
  import opened ByteUtil
  import opened Errors
  import opened Mapi

  /** A property as `decodeMapi` emits it: the multi-value bit cleared, type
      and name within 16 bits, and a zero GUID unless the name is extended. */
  predicate WellFormed(a: MapiAttribute)
  {
    && !HasMultiValueFlag(a.attrType)
    && a.attrType < 0x1_0000
    && a.name < 0x1_0000
    && (!IsNamedId(a.name) ==> a.guid == 0)
  }

  /** The name block of a plain name is empty; an extended name consumes the
      16-byte GUID block and the 4-byte kind, then 4 more bytes for kind 0,
      a 4-byte length, the id and its padding for kind 1, and nothing else
      for any other kind. */
  lemma NameBlockLayout(data: seq<byte>, offset: nat, name: nat)
    ensures !IsNamedId(name) ==> NameBlock(data, offset, name) == Ok((0, offset))
    ensures IsNamedId(name) && NameBlock(data, offset, name).Ok? ==>
              && offset + 20 <= |data|
              && var kind := LittleEndian(data[offset + 16..offset + 20]);
              && (kind == 1 ==> offset + 24 <= |data|)
              && NameBlock(data, offset, name).value ==
                   (GuidValue(data[offset..offset + 16]),
                    if kind == 0 then offset + 24
                    else if kind == 1 then
                      var idLen := LittleEndian(data[offset + 20..offset + 24]);
                      offset + 24 + idLen + Pad(idLen)
                    else offset + 20)
  {
  }

  /** Every property read yields a well-formed property and moves past at
      least its 4-byte type and name. */
  lemma PropertyWellFormed(data: seq<byte>, offset: nat, a: MapiAttribute, next: nat)
    requires Property(data, offset) == Ok((a, next))
    ensures WellFormed(a)
    ensures next >= offset + 4
  {
    var rawType := ReadUint(data, offset, 2).value;
    var name := ReadUint(data, offset + 2, 2).value;
    var nb := NameBlock(data, offset + 4, name).value;
    assert !IsNamedId(name) ==> nb == (0, offset + 4);
    assert ClearMultiValueFlag(rawType) <= rawType;
    var typeSize := TypeSize(ClearMultiValueFlag(rawType));
    var vc := ValueCount(data, nb.1, HasMultiValueFlag(rawType) || typeSize < 0).value;
    ValuesShape(data, vc.1, typeSize, vc.0);
  }

  /** The value loop never yields more bytes than it steps over, and stops
      on a 4-byte boundary relative to where it started. */
  lemma {:induction false} ValuesShape(data: seq<byte>, offset: nat, typeSize: int, count: nat)
    ensures var r := Values(data, offset, typeSize, count);
            r.Ok? ==>
              && r.value.1 >= offset && (r.value.1 - offset) % 4 == 0
              && |r.value.0| <= r.value.1 - offset
  {
    ValuesAligned(data, offset, typeSize, count);
    ValuesSpan(data, offset, typeSize, count);
  }

  /** The value loop stops on a 4-byte boundary relative to where it started. */
  lemma {:induction false} ValuesAligned(data: seq<byte>, offset: nat, typeSize: int, count: nat)
    ensures var r := Values(data, offset, typeSize, count);
            r.Ok? ==> r.value.1 >= offset && (r.value.1 - offset) % 4 == 0
    decreases count
  {
    if count > 0 && ValueLength(data, offset, typeSize).Ok? {
      var vl := ValueLength(data, offset, typeSize).value;
      var length, start := vl.0, vl.1;
      if start + length <= |data| {
        var next := start + length + Pad(length);
        ValuesAligned(data, next, typeSize, count - 1);
        var rest := Values(data, next, typeSize, count - 1);
        ValuesCons(data, offset, typeSize, count, length, start, rest);
        if rest.Ok? {
          AlignedStep(offset, start, length, next, rest.value.1);
        }
      }
    }
  }

  /** The value loop never yields more bytes than it steps over. */
  lemma {:induction false} ValuesSpan(data: seq<byte>, offset: nat, typeSize: int, count: nat)
    ensures var r := Values(data, offset, typeSize, count);
            r.Ok? ==> r.value.1 >= offset && |r.value.0| <= r.value.1 - offset
    decreases count
  {
    if count > 0 && ValueLength(data, offset, typeSize).Ok? {
      var vl := ValueLength(data, offset, typeSize).value;
      var length, start := vl.0, vl.1;
      if start + length <= |data| {
        var next := start + length + Pad(length);
        ValuesSpan(data, next, typeSize, count - 1);
        var rest := Values(data, next, typeSize, count - 1);
        ValuesCons(data, offset, typeSize, count, length, start, rest);
      }
    }
  }

  /** One value's step keeps the cursor on a 4-byte boundary. */
  lemma {:induction false} AlignedStep(offset: nat, start: nat, length: nat, next: nat, end: nat)
    requires start == offset || start == offset + 4
    requires next == start + length + Pad(length)
    requires end >= next && (end - next) % 4 == 0
    ensures end >= offset && (end - offset) % 4 == 0
  {
    AlignedSum(start - offset, length + Pad(length));
    AlignedSum(end - next, next - offset);
  }

  /** The outer loop emits at most one property per iteration. */
  lemma {:induction false} PropertiesShape(data: seq<byte>, offset: nat, remaining: nat)
    ensures var r := Properties(data, offset, remaining);
            r.Ok? ==> |r.value| <= remaining
    decreases remaining
  {
    if remaining > 0 {
      if offset >= |data| {
        PropertiesShape(data, offset, remaining - 1);
      } else if Property(data, offset).Ok? {
        PropertiesShape(data, Property(data, offset).value.1, remaining - 1);
      }
    }
  }

  /** Every property of a list is well formed. */
  predicate AllWellFormed(attrs: seq<MapiAttribute>)
  {
    attrs != [] ==> WellFormed(attrs[0]) && AllWellFormed(attrs[1..])
  }

  /** `AllWellFormed` holds of each element. */
  lemma {:induction false} AllWellFormedEach(attrs: seq<MapiAttribute>)
    requires AllWellFormed(attrs)
    ensures forall i :: 0 <= i < |attrs| ==> WellFormed(attrs[i])
  {
    if attrs != [] {
      AllWellFormedEach(attrs[1..]);
      assert forall i :: 1 <= i < |attrs| ==> attrs[i] == attrs[1..][i - 1];
    }
  }

  /** A well-formed property in front of well-formed ones. */
  lemma {:induction false} AllWellFormedCons(a: MapiAttribute, rest: seq<MapiAttribute>)
    requires WellFormed(a) && AllWellFormed(rest)
    ensures AllWellFormed([a] + rest)
  {
    assert ([a] + rest)[1..] == rest;
  }

  /** The outer loop emits only well-formed properties. */
  lemma {:induction false} PropertiesWellFormed(data: seq<byte>, offset: nat, remaining: nat,
                                                attrs: seq<MapiAttribute>)
    requires Properties(data, offset, remaining) == Ok(attrs)
    ensures AllWellFormed(attrs)
    decreases remaining, 1
  {
    if remaining > 0 {
      if offset >= |data| {
        PropertiesSkip(data, offset, remaining);
        PropertiesWellFormed(data, offset, remaining - 1, attrs);
      } else {
        PropertiesWellFormedStep(data, offset, remaining, attrs);
      }
    }
  }

  /** An iteration that reads a property emits a well-formed one in front
      of the well-formed rest. */
  lemma {:induction false} PropertiesWellFormedStep(data: seq<byte>, offset: nat, remaining: nat,
                                                    attrs: seq<MapiAttribute>)
    requires remaining > 0 && offset < |data|
    requires Properties(data, offset, remaining) == Ok(attrs)
    ensures AllWellFormed(attrs)
    decreases remaining, 0
  {
    var a, next, rest := PropertiesUncons(data, offset, remaining, attrs);
    PropertyWellFormed(data, offset, a, next);
    PropertiesWellFormed(data, next, remaining - 1, rest);
    AllWellFormedCons(a, rest);
  }

  /** `decodeMapi` emits at most as many properties as its count field
      announces, each well formed. */
  lemma MapiPropertiesWellFormed(data: seq<byte>)
    requires MapiProperties(data).Ok?
    ensures |data| >= 4
    ensures |MapiProperties(data).value| <= LittleEndian(data[..4])
    ensures var attrs := MapiProperties(data).value;
            forall i :: 0 <= i < |attrs| ==> WellFormed(attrs[i])
  {
    var count := ReadUint(data, 0, 4).value;
    PropertiesShape(data, 4, count);
    PropertiesWellFormed(data, 4, count, MapiProperties(data).value);
    AllWellFormedEach(MapiProperties(data).value);
  }

  /** Iterations that start at or past the end of the payload emit nothing:
      the cursor no longer moves, so every remaining iteration is skipped. */
  lemma {:induction false} PropertiesPastEnd(data: seq<byte>, offset: nat, remaining: nat)
    requires offset >= |data|
    ensures Properties(data, offset, remaining) == Ok([])
    decreases remaining
  {
    if remaining > 0 {
      PropertiesPastEnd(data, offset, remaining - 1);
    }
  }

  /** Values of a fixed-size type: `count` values of `typeSize` bytes each,
      every one followed by its padding. */
  lemma {:induction false} FixedSizeValues(data: seq<byte>, offset: nat, typeSize: int, count: nat)
    requires typeSize >= 0
    requires Values(data, offset, typeSize, count).Ok?
    ensures var (bytes, end) := Values(data, offset, typeSize, count).value;
            && |bytes| == count * typeSize
            && end == offset + count * (typeSize + Pad(typeSize))
    decreases count
  {
    if count > 0 {
      var next := offset + typeSize + Pad(typeSize);
      FixedSizeValues(data, next, typeSize, count - 1);
      assert count * typeSize == (count - 1) * typeSize + typeSize;
      var step := typeSize + Pad(typeSize);
      assert count * step == (count - 1) * step + step;
    }
  }

  /** A fixed-size property without the multi-value flag holds exactly one
      value: `Data` has `typeSize` bytes and the value takes `typeSize` bytes
      plus padding after the name block. */
  lemma SingleFixedSizeProperty(data: seq<byte>, offset: nat)
    requires offset + 2 <= |data|
    requires !HasMultiValueFlag(LittleEndian(data[offset..offset + 2]))
    requires TypeSize(ClearMultiValueFlag(LittleEndian(data[offset..offset + 2]))) >= 0
    requires Property(data, offset).Ok?
    ensures var (a, end) := Property(data, offset).value;
            var typeSize := TypeSize(a.attrType);
            && NameBlock(data, offset + 4, a.name).Ok?
            && |a.data| == typeSize
            && end == NameBlock(data, offset + 4, a.name).value.1 + typeSize + Pad(typeSize)
  {
    var a := Property(data, offset).value.0;
    var typeSize := TypeSize(a.attrType);
    var nb := NameBlock(data, offset + 4, a.name).value;
    FixedSizeValues(data, nb.1, typeSize, 1);
  }

  /** The plausibility guard: once the type, the name, any GUID block of an
      extended name, and the value count have been read, a count that
      exceeds both 1024 and the payload length makes the read fail with
      that count. */
  lemma ImplausibleCount(data: seq<byte>, offset: nat, rawType: nat, name: nat, guid: int,
                         nameEnd: nat, count: nat, start: nat)
    requires ReadUint(data, offset, 2) == Ok(rawType)
    requires ReadUint(data, offset + 2, 2) == Ok(name)
    requires NameBlock(data, offset + 4, name) == Ok((guid, nameEnd))
    requires ValueCount(data, nameEnd, HasMultiValueFlag(rawType) || TypeSize(ClearMultiValueFlag(rawType)) < 0)
             == Ok((count, start))
    requires count > MAX_VALUE_COUNT && count > |data|
    ensures Property(data, offset) == Err(CountTooLarge(count))
  {
  }

  /** Conversely, the count error is reported only for such a count. */
  lemma CountTooLargeIsImplausible(data: seq<byte>, offset: nat, count: nat)
    requires Property(data, offset) == Err(CountTooLarge(count))
    ensures count > MAX_VALUE_COUNT && count > |data|
  {
    var rawType := ReadUint(data, offset, 2).value;
    var typeSize := TypeSize(ClearMultiValueFlag(rawType));
    var name := ReadUint(data, offset + 2, 2).value;
    var nb := NameBlock(data, offset + 4, name).value;
    var vc := ValueCount(data, nb.1, HasMultiValueFlag(rawType) || typeSize < 0).value;
    match Values(data, vc.1, typeSize, vc.0)
    case Err(e) =>
      assert e != CountTooLarge(count) by {
        ValuesErrors(data, vc.1, typeSize, vc.0);
      }
    case Ok(_) =>
  }

  /** The value loop fails only by running out of payload. */
  lemma {:induction false} ValuesErrors(data: seq<byte>, offset: nat, typeSize: int, count: nat)
    ensures Values(data, offset, typeSize, count).Err? ==>
              Values(data, offset, typeSize, count) == Err(Truncated)
    decreases count
  {
    if count > 0 {
      match ValueLength(data, offset, typeSize)
      case Err(_) =>
      case Ok(vl) =>
        if vl.1 + vl.0 <= |data| {
          ValuesErrors(data, vl.1 + vl.0 + Pad(vl.0), typeSize, count - 1);
        }
    }
  }

  /** An error in any property that is read aborts the whole payload. */
  lemma PropertyErrorAborts(data: seq<byte>, offset: nat, remaining: nat)
    requires remaining > 0 && offset < |data|
    requires Property(data, offset).Err?
    ensures Properties(data, offset, remaining) == Err(Property(data, offset).error)
  {
  }

  /** The two ways the property reader can fail: a read past the end of the
      payload, or an implausible value count. */
  predicate IsPayloadError(e: Error)
  {
    e == Truncated || e.CountTooLarge?
  }

  /** A property read fails only by running out of payload or by the
      plausibility guard. */
  lemma PropertyErrors(data: seq<byte>, offset: nat)
    requires Property(data, offset).Err?
    ensures IsPayloadError(Property(data, offset).error)
  {
    match ReadUint(data, offset, 2)
    case Err(_) =>
    case Ok(rawType) =>
      var typeSize := TypeSize(ClearMultiValueFlag(rawType));
      match ReadUint(data, offset + 2, 2)
      case Err(_) =>
      case Ok(name) =>
        match NameBlock(data, offset + 4, name)
        case Err(_) =>
        case Ok(nb) =>
          match ValueCount(data, nb.1, HasMultiValueFlag(rawType) || typeSize < 0)
          case Err(_) =>
          case Ok(vc) =>
            ValuesErrors(data, vc.1, typeSize, vc.0);
  }

  /** The outer loop fails only as a property read does. */
  lemma {:induction false} PropertiesErrors(data: seq<byte>, offset: nat, remaining: nat)
    requires Properties(data, offset, remaining).Err?
    ensures IsPayloadError(Properties(data, offset, remaining).error)
    decreases remaining
  {
    if offset >= |data| {
      PropertiesErrors(data, offset, remaining - 1);
    } else {
      match Property(data, offset)
      case Err(_) =>
        PropertyErrors(data, offset);
      case Ok(p) =>
        PropertiesErrors(data, p.1, remaining - 1);
    }
  }

  /** `decodeMapi` fails only by running out of payload or by the
      plausibility guard; it never reports a missing marker or attachment. */
  lemma MapiErrors(data: seq<byte>)
    requires MapiProperties(data).Err?
    ensures IsPayloadError(MapiProperties(data).error)
  {
    match ReadUint(data, 0, 4)
    case Err(_) =>
    case Ok(count) =>
      PropertiesErrors(data, 4, count);
  }
}
