/** The MAPI property reader (mapi.go): the payload of an `ATTMAPIPROPS`
    record is a 4-byte count followed by that many typed, possibly
    multi-valued properties. */
module Mapi {
  import opened ByteUtil
  import opened Errors

  /** OR-ed into a type code: the property carries several values. */
  const MV_FLAG := 0x1000

  const SZMAPI_SHORT := 0x0002
  const SZMAPI_INT := 0x0003
  const SZMAPI_FLOAT := 0x0004
  const SZMAPI_DOUBLE := 0x0005
  const SZMAPI_CURRENCY := 0x0006
  const SZMAPI_APPTIME := 0x0007
  const SZMAPI_ERROR := 0x000a
  const SZMAPI_BOOLEAN := 0x000b
  const SZMAPI_OBJECT := 0x000d
  const SZMAPI_INT8BYTE := 0x0014
  const SZMAPI_STRING := 0x001e
  const SZMAPI_UNICODE_STRING := 0x001f
  const SZMAPI_SYSTIME := 0x0040
  const SZMAPI_CLSID := 0x0048
  const SZMAPI_BINARY := 0x0102

  /** The property names of the plain-text and the HTML body. */
  const MAPI_BODY := 0x1000
  const MAPI_BODY_HTML := 0x1013

  /** A value count above this must also not exceed the payload length. */
  const MAX_VALUE_COUNT := 1024

  const FIXED_SIZE_TYPES: set<nat> := {
    SZMAPI_SHORT, SZMAPI_BOOLEAN,
    SZMAPI_INT, SZMAPI_FLOAT, SZMAPI_ERROR,
    SZMAPI_DOUBLE, SZMAPI_APPTIME, SZMAPI_CURRENCY, SZMAPI_INT8BYTE, SZMAPI_SYSTIME,
    SZMAPI_CLSID}

  const VARIABLE_SIZE_TYPES: set<nat> := {
    SZMAPI_STRING, SZMAPI_UNICODE_STRING, SZMAPI_OBJECT, SZMAPI_BINARY}

  /** `MAPIAttribute`: one decoded property.  `data` is the concatenation of
      all its values; `guid` is 0 unless the name is an extended one. */
  datatype MapiAttribute = MapiAttribute(attrType: nat, name: nat, data: seq<byte>, guid: int)

  /** `getTypeSize`: the byte size of one value of a base type; -1 for the
      variable-length kinds, whose every value carries its own 4-byte length;
      0 for codes the table does not list. */
  function TypeSize(attrType: nat): (r: int)
  {
    match attrType
    case 0x0002 | 0x000b => 2
    case 0x0003 | 0x0004 | 0x000a => 4
    case 0x0005 | 0x0007 | 0x0006 | 0x0014 | 0x0040 => 8
    case 0x0048 => 16
    case 0x001e | 0x001f | 0x000d | 0x0102 => -1
    case _ => 0
  }

  /** The size table: variable-length kinds are exactly the four string,
      object and binary codes, fixed sizes exactly the eleven listed codes,
      and every other code has size 0. */
  lemma TypeSizeTable(attrType: nat)
    ensures TypeSize(attrType) in {-1, 0, 2, 4, 8, 16}
    ensures TypeSize(attrType) == -1 <==> attrType in VARIABLE_SIZE_TYPES
    ensures TypeSize(attrType) > 0 <==> attrType in FIXED_SIZE_TYPES
    ensures TypeSize(attrType) == 2 <==> attrType in {SZMAPI_SHORT, SZMAPI_BOOLEAN}
    ensures TypeSize(attrType) == 4 <==> attrType in {SZMAPI_INT, SZMAPI_FLOAT, SZMAPI_ERROR}
    ensures TypeSize(attrType) == 8 <==>
              attrType in {SZMAPI_DOUBLE, SZMAPI_APPTIME, SZMAPI_CURRENCY, SZMAPI_INT8BYTE, SZMAPI_SYSTIME}
    ensures TypeSize(attrType) == 16 <==> attrType == SZMAPI_CLSID
  {
  }

  /** `(attrType & mvFlag) != 0`. */
  predicate HasMultiValueFlag(rawType: nat)
  {
    (rawType / MV_FLAG) % 2 == 1
  }

  /** `attrType &^ mvFlag`: the type code with the multi-value bit cleared and
      every other bit kept. */
  function ClearMultiValueFlag(rawType: nat): (r: nat)
    ensures !HasMultiValueFlag(r)
    ensures r + (if HasMultiValueFlag(rawType) then MV_FLAG else 0) == rawType
  {
    if HasMultiValueFlag(rawType) then rawType - MV_FLAG else rawType
  }

  /** `(-n) & 3`: the padding that brings n up to a multiple of 4. */
  function Pad(n: nat): (r: nat)
    ensures r < 4 && (n + r) % 4 == 0
  {
    (4 - n % 4) % 4
  }

  /** Names in this range identify an extended property, whose name is
      followed by a GUID block and a numeric or string id. */
  predicate IsNamedId(name: nat)
  {
    0x8000 <= name <= 0xFFFE
  }

  /** The GUID field: Go's `byteToInt` of the 16-byte block in a 64-bit
      signed `int`.  A shift by 64 bits or more yields 0, so only the low 8
      bytes contribute, and their sum wraps into the signed range. */
  function GuidValue(block: seq<byte>): (r: int)
    requires |block| == 16
  {
    var low := LittleEndian(block[..8]);
    if low < 0x8000_0000_0000_0000 then low else low - 0x1_0000_0000_0000_0000
  }

  /** The GUID field is a signed 64-bit value congruent to the low 8 bytes
      read as an unsigned little-endian integer. */
  lemma GuidValueRange(block: seq<byte>)
    requires |block| == 16
    ensures -0x8000_0000_0000_0000 <= GuidValue(block) < 0x8000_0000_0000_0000
    ensures (LittleEndian(block[..8]) - GuidValue(block)) % 0x1_0000_0000_0000_0000 == 0
  {
    LittleEndianBound(block[..8]);
    Pow256Values();
  }

  /** What follows a property's name: for an extended name the GUID block,
      the 4-byte kind and the id that the kind selects.  Yields the GUID
      (0 for a plain name) and the offset after the block. */
  function NameBlock(data: seq<byte>, offset: nat, name: nat): (r: Result<(int, nat)>)
  {
    if !IsNamedId(name) then
      Ok((0, offset))
    else if offset + 16 > |data| then
      Err(Truncated)
    else
      var guid := GuidValue(data[offset..offset + 16]);
      var kind :- ReadUint(data, offset + 16, 4);
      var after := offset + 20;
      if kind == 0 then
        Ok((guid, after + 4))
      else if kind == 1 then
        var idLen :- ReadUint(data, after, 4);
        Ok((guid, after + 4 + idLen + Pad(idLen)))
      else
        Ok((guid, after))
  }

  /** The number of values and the offset after the count field. */
  function ValueCount(data: seq<byte>, offset: nat, isMultiValue: bool): (r: Result<(nat, nat)>)
  {
    if isMultiValue then
      var count :- ReadUint(data, offset, 4);
      Ok((count, offset + 4))
    else
      Ok((1, offset))
  }

  /** The length of the next value and the offset where its bytes start. */
  function ValueLength(data: seq<byte>, offset: nat, typeSize: int): (r: Result<(nat, nat)>)
    ensures r.Ok? ==> r.value.1 == offset + (if typeSize < 0 then 4 else 0)
    ensures typeSize >= 0 ==> r == Ok((typeSize, offset))
  {
    if typeSize < 0 then
      var length :- ReadUint(data, offset, 4);
      Ok((length, offset + 4))
    else
      Ok((typeSize, offset))
  }

  /** A sum of two multiples of 4 is one. */
  lemma AlignedSum(a: nat, b: nat)
    requires a % 4 == 0 && b % 4 == 0
    ensures (a + b) % 4 == 0
  {
  }

  /** The inner value loop: reads `count` values from `offset`; yields their
      bytes run together and the offset after the last one's padding. */
  function Values(data: seq<byte>, offset: nat, typeSize: int, count: nat)
    : (r: Result<(seq<byte>, nat)>)
    decreases count
  {
    if count == 0 then
      Ok(([], offset))
    else
      match ValueLength(data, offset, typeSize)
      case Err(e) => Err(e)
      case Ok(vl) =>
        var length, start := vl.0, vl.1;
        if start + length > |data| then
          Err(Truncated)
        else
          var rest :- Values(data, start + length + Pad(length), typeSize, count - 1);
          Ok((data[start..start + length] + rest.0, rest.1))
  }

  /** One iteration of the outer loop that does not skip: the property at
      `offset` and the offset after it. */
  function Property(data: seq<byte>, offset: nat): (r: Result<(MapiAttribute, nat)>)
  {
    var rawType :- ReadUint(data, offset, 2);
    var attrType := ClearMultiValueFlag(rawType);
    var typeSize := TypeSize(attrType);
    var isMultiValue := HasMultiValueFlag(rawType) || typeSize < 0;
    var name :- ReadUint(data, offset + 2, 2);
    var nb :- NameBlock(data, offset + 4, name);
    var vc :- ValueCount(data, nb.1, isMultiValue);
    if vc.0 > MAX_VALUE_COUNT && vc.0 > |data| then
      Err(CountTooLarge(vc.0))
    else
      var vs :- Values(data, vc.1, typeSize, vc.0);
      Ok((MapiAttribute(attrType, name, vs.0, nb.0), vs.1))
  }

  /** The outer loop: `remaining` more iterations from `offset`, each of which
      is skipped when the offset has reached the end of the payload. */
  function Properties(data: seq<byte>, offset: nat, remaining: nat): (r: Result<seq<MapiAttribute>>)
    decreases remaining
  {
    if remaining == 0 then
      Ok([])
    else if offset >= |data| then
      Properties(data, offset, remaining - 1)
    else
      var p :- Property(data, offset);
      var rest :- Properties(data, p.1, remaining - 1);
      Ok([p.0] + rest)
  }

  /** What `decodeMapi` computes: the count, then that many property iterations. */
  function MapiProperties(data: seq<byte>): (r: Result<seq<MapiAttribute>>)
    ensures |data| < 4 ==> r == Err(Truncated)
  {
    var count :- ReadUint(data, 0, 4);
    Properties(data, 4, count)
  }

  /** The outer loop runs as many iterations as the count field says. */
  lemma MapiPropertiesCount(data: seq<byte>, count: nat)
    requires ReadUint(data, 0, 4) == Ok(count)
    ensures MapiProperties(data) == Properties(data, 4, count)
  {
  }

  /** A value-loop result with `acc` read before it. */
  function PrefixBytes(acc: seq<byte>, r: Result<(seq<byte>, nat)>): Result<(seq<byte>, nat)>
  {
    match r
    case Ok(v) => Ok((acc + v.0, v.1))
    case Err(e) => Err(e)
  }

  /** An outer-loop result with `acc` read before it. */
  function PrefixAttrs(acc: seq<MapiAttribute>, r: Result<seq<MapiAttribute>>)
    : Result<seq<MapiAttribute>>
  {
    match r
    case Ok(v) => Ok(acc + v)
    case Err(e) => Err(e)
  }

  /** Nothing read before: the result itself. */
  lemma PrefixNothing(rb: Result<(seq<byte>, nat)>, ra: Result<seq<MapiAttribute>>)
    ensures PrefixBytes([], rb) == rb
    ensures PrefixAttrs([], ra) == ra
  {
    if rb.Ok? {
      assert [] + rb.value.0 == rb.value.0;
    }
    if ra.Ok? {
      assert [] + ra.value == ra.value;
    }
  }

  /** One non-skipped iteration of the outer loop after `acc`: the error of
      the property read, or the remaining iterations after `acc` and the
      property. */
  lemma PropertiesStep(data: seq<byte>, offset: nat, remaining: nat, acc: seq<MapiAttribute>)
    requires remaining > 0 && offset < |data|
    ensures Property(data, offset).Err? ==>
              PrefixAttrs(acc, Properties(data, offset, remaining)) == Err(Property(data, offset).error)
    ensures Property(data, offset).Ok? ==>
              var p := Property(data, offset).value;
              PrefixAttrs(acc, Properties(data, offset, remaining))
                == PrefixAttrs(acc + [p.0], Properties(data, p.1, remaining - 1))
  {
    if Property(data, offset).Ok? {
      var p := Property(data, offset).value;
      var rest := Properties(data, p.1, remaining - 1);
      if rest.Ok? {
        assert acc + ([p.0] + rest.value) == acc + [p.0] + rest.value;
      }
    }
  }

  /** An iteration that starts at or past the end of the buffer is skipped. */
  lemma PropertiesSkip(data: seq<byte>, offset: nat, remaining: nat)
    requires remaining > 0 && offset >= |data|
    ensures Properties(data, offset, remaining) == Properties(data, offset, remaining - 1)
  {
  }

  /** A non-skipped iteration whose property and remaining iterations succeed. */
  lemma PropertiesCons(data: seq<byte>, offset: nat, remaining: nat, a: MapiAttribute, next: nat,
                       rest: seq<MapiAttribute>)
    requires remaining > 0 && offset < |data|
    requires Property(data, offset) == Ok((a, next))
    requires Properties(data, next, remaining - 1) == Ok(rest)
    ensures Properties(data, offset, remaining) == Ok([a] + rest)
  {
  }

  /** A non-skipped iteration of a successful outer loop: the property read
      there, the offset after it, and what the remaining iterations yield. */
  lemma PropertiesUncons(data: seq<byte>, offset: nat, remaining: nat, attrs: seq<MapiAttribute>)
    returns (a: MapiAttribute, next: nat, rest: seq<MapiAttribute>)
    requires remaining > 0 && offset < |data|
    requires Properties(data, offset, remaining) == Ok(attrs)
    ensures Property(data, offset) == Ok((a, next))
    ensures Properties(data, next, remaining - 1) == Ok(rest)
    ensures attrs == [a] + rest
  {
    var p := Property(data, offset).value;
    a, next := p.0, p.1;
    rest := Properties(data, next, remaining - 1).value;
  }

  /** A value that fits, followed by the remaining iterations. */
  lemma ValuesCons(data: seq<byte>, offset: nat, typeSize: int, count: nat, length: nat, start: nat,
                   rest: Result<(seq<byte>, nat)>)
    requires count > 0
    requires ValueLength(data, offset, typeSize) == Ok((length, start))
    requires start + length <= |data|
    requires rest == Values(data, start + length + Pad(length), typeSize, count - 1)
    ensures Values(data, offset, typeSize, count) == PrefixBytes(data[start..start + length], rest)
  {
  }

  /** A property read that succeeds, assembled from its parts. */
  lemma PropertyFromParts(data: seq<byte>, offset: nat, rawType: nat, name: nat, guid: int,
                          nameEnd: nat, typeSize: int, isMultiValue: bool, count: nat,
                          valuesStart: nat, bytes: seq<byte>, end: nat)
    requires ReadUint(data, offset, 2) == Ok(rawType)
    requires ReadUint(data, offset + 2, 2) == Ok(name)
    requires NameBlock(data, offset + 4, name) == Ok((guid, nameEnd))
    requires typeSize == TypeSize(ClearMultiValueFlag(rawType))
    requires isMultiValue == (HasMultiValueFlag(rawType) || typeSize < 0)
    requires ValueCount(data, nameEnd, isMultiValue) == Ok((count, valuesStart))
    requires !(count > MAX_VALUE_COUNT && count > |data|)
    requires Values(data, valuesStart, typeSize, count) == Ok((bytes, end))
    ensures Property(data, offset) == Ok((MapiAttribute(ClearMultiValueFlag(rawType), name, bytes, guid), end))
  {
  }

  /** One iteration of the value loop after `acc` whose value fits in the
      payload: the remaining iterations after `acc` and the value. */
  lemma ValuesStep(data: seq<byte>, offset: nat, typeSize: int, count: nat, acc: seq<byte>,
                   length: nat, start: nat)
    requires count > 0
    requires ValueLength(data, offset, typeSize) == Ok((length, start))
    requires start + length <= |data|
    ensures PrefixBytes(acc, Values(data, offset, typeSize, count))
         == PrefixBytes(acc + data[start..start + length],
                        Values(data, start + length + Pad(length), typeSize, count - 1))
  {
    var rest := Values(data, start + length + Pad(length), typeSize, count - 1);
    ValuesCons(data, offset, typeSize, count, length, start, rest);
    if rest.Ok? {
      var slice := data[start..start + length];
      assert acc + (slice + rest.value.0) == acc + slice + rest.value.0;
    }
  }

  /** An iteration of the value loop after `acc` that runs out of payload,
      for the length field or for the value, fails the loop. */
  lemma ValuesTruncated(data: seq<byte>, offset: nat, typeSize: int, count: nat, acc: seq<byte>)
    requires count > 0
    ensures typeSize < 0 && offset + 4 > |data| ==>
              PrefixBytes(acc, Values(data, offset, typeSize, count)) == Err(Truncated)
    ensures var vl := ValueLength(data, offset, typeSize);
            vl.Ok? && vl.value.1 + vl.value.0 > |data| ==>
              PrefixBytes(acc, Values(data, offset, typeSize, count)) == Err(Truncated)
  {
  }

  /** `decodeMapi`: the property count, then that many iterations, each of
      which reads one property unless the offset has reached the end. */
  method DecodeMapi(data: seq<byte>) returns (r: Result<seq<MapiAttribute>>)
    ensures r == MapiProperties(data)
  {
    var attrs: seq<MapiAttribute> := [];
    var dataLen := |data|;
    var offset: nat := 0;
    if offset + 4 > dataLen {
      return Err(Truncated);
    }
    var numProperties := ByteToInt(data[offset..offset + 4]);
    offset := offset + 4;
    assert ReadUint(data, 0, 4) == Ok(numProperties);
    MapiPropertiesCount(data, numProperties);
    PrefixNothing(Ok(([], 0)), Properties(data, offset, numProperties));

    for i := 0 to numProperties
      invariant MapiProperties(data) == PrefixAttrs(attrs, Properties(data, offset, numProperties - i))
    {
      if offset >= dataLen {
        PropertiesSkip(data, offset, numProperties - i);
        continue;
      }
      PropertiesStep(data, offset, numProperties - i, attrs);
      var property := ReadProperty(data, offset);
      if property.Err? {
        return Err(property.error);
      }
      attrs := attrs + [property.value.0];
      offset := property.value.1;
    }

    assert attrs + [] == attrs;
    return Ok(attrs);
  }

  /** The body of the outer loop of `decodeMapi` (mapi.go:27-87): one
      property and the offset after it. */
  method ReadProperty(data: seq<byte>, offset0: nat) returns (r: Result<(MapiAttribute, nat)>)
    ensures r == Property(data, offset0)
  {
    var dataLen := |data|;
    var offset: nat := offset0;
    if offset + 2 > dataLen {
      return Err(Truncated);
    }
    var attrType := ByteToInt(data[offset..offset + 2]);
    offset := offset + 2;
    ghost var rawType := attrType;
    assert ReadUint(data, offset0, 2) == Ok(rawType);

    var isMultiValue := HasMultiValueFlag(attrType);
    attrType := ClearMultiValueFlag(attrType);

    var typeSize := TypeSize(attrType);
    if typeSize < 0 {
      isMultiValue := true;
    }

    if offset + 2 > dataLen {
      return Err(Truncated);
    }
    var attrName := ByteToInt(data[offset..offset + 2]);
    offset := offset + 2;
    assert ReadUint(data, offset0 + 2, 2) == Ok(attrName);

    var nameBlock := ReadNameBlock(data, offset, attrName);
    if nameBlock.Err? {
      return Err(nameBlock.error);
    }
    var guid := nameBlock.value.0;
    offset := nameBlock.value.1;
    ghost var nameEnd := offset;

    // Handle multi-value properties
    var valueCount := 1;
    if isMultiValue {
      if offset + 4 > dataLen {
        return Err(Truncated);
      }
      valueCount := ByteToInt(data[offset..offset + 4]);
      offset := offset + 4;
    }
    assert ValueCount(data, nameEnd, isMultiValue) == Ok((valueCount, offset));

    if valueCount > MAX_VALUE_COUNT && valueCount > dataLen {
      return Err(CountTooLarge(valueCount));
    }

    var values := ReadValues(data, offset, typeSize, valueCount);
    if values.Err? {
      return Err(values.error);
    }
    var attrData := values.value.0;
    offset := values.value.1;

    return Ok((MapiAttribute(attrType, attrName, attrData, guid), offset));
  }

  /** The extended-name block of `decodeMapi` (mapi.go:41-58). */
  method ReadNameBlock(data: seq<byte>, offset0: nat, attrName: nat) returns (r: Result<(int, nat)>)
    ensures r == NameBlock(data, offset0, attrName)
  {
    var dataLen := |data|;
    var offset: nat := offset0;
    var guid := 0;
    if IsNamedId(attrName) {
      if offset + 16 > dataLen {
        return Err(Truncated);
      }
      guid := GuidValue(data[offset..offset + 16]);
      offset := offset + 16;
      if offset + 4 > dataLen {
        return Err(Truncated);
      }
      var kind := ByteToInt(data[offset..offset + 4]);
      offset := offset + 4;
      assert ReadUint(data, offset0 + 16, 4) == Ok(kind);

      if kind == 0 {
        offset := offset + 4;
      } else if kind == 1 {
        if offset + 4 > dataLen {
          return Err(Truncated);
        }
        var iidLen := ByteToInt(data[offset..offset + 4]);
        offset := offset + 4;
        assert ReadUint(data, offset0 + 20, 4) == Ok(iidLen);
        offset := offset + iidLen;
        offset := offset + Pad(iidLen);
      }
    }
    return Ok((guid, offset));
  }

  /** The value loop of `decodeMapi` (mapi.go:71-85). */
  method ReadValues(data: seq<byte>, offset0: nat, typeSize: int, valueCount: nat)
    returns (r: Result<(seq<byte>, nat)>)
    ensures r == Values(data, offset0, typeSize, valueCount)
  {
    var dataLen := |data|;
    var offset: nat := offset0;
    var attrData: seq<byte> := [];
    PrefixNothing(Values(data, offset0, typeSize, valueCount), Ok([]));
    for j := 0 to valueCount
      invariant Values(data, offset0, typeSize, valueCount)
             == PrefixBytes(attrData, Values(data, offset, typeSize, valueCount - j))
    {
      ghost var offsetBefore := offset;
      ValuesTruncated(data, offset, typeSize, valueCount - j, attrData);
      var length := typeSize;
      if typeSize < 0 {
        if offset + 4 > dataLen {
          return Err(Truncated);
        }
        length := ByteToInt(data[offset..offset + 4]);
        offset := offset + 4;
      }

      if offset + length > dataLen {
        return Err(Truncated);
      }
      ValuesStep(data, offsetBefore, typeSize, valueCount - j, attrData, length, offset);
      attrData := attrData + data[offset..offset + length];

      offset := offset + length;
      offset := offset + Pad(length);
    }
    assert attrData + [] == attrData;
    return Ok((attrData, offset));
  }
}
