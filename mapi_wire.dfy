/** The property layout written out: an encoder for properties with plain
    names, and the round trip that the reader completes on its output. */
module MapiWire {
  import opened ByteUtil
  import opened Errors
  import opened Mapi

  /** A property as it is written: the raw type code (possibly with the
      multi-value flag), a plain name, and its values one by one. */
  datatype WireProperty = WireProperty(rawType: nat, name: nat, values: seq<seq<byte>>)

  function BaseType(p: WireProperty): nat
  {
    ClearMultiValueFlag(p.rawType)
  }

  /** Whether the reader expects a value count: flagged, or of a variable-length type. */
  predicate IsMultiValue(p: WireProperty)
  {
    HasMultiValueFlag(p.rawType) || TypeSize(BaseType(p)) < 0
  }

  /** A value as the reader expects it for a type of this size. */
  predicate FitsType(typeSize: int, v: seq<byte>)
  {
    if typeSize < 0 then |v| < 0x1_0000_0000 else |v| == typeSize
  }

  /** What the encoder can write: 16-bit codes, a plain name, values of the
      right sizes, exactly one value unless multi-valued, and a count the
      plausibility guard accepts. */
  predicate Encodable(p: WireProperty)
  {
    && p.rawType < 0x1_0000
    && p.name < 0x1_0000
    && !IsNamedId(p.name)
    && (if IsMultiValue(p) then |p.values| <= MAX_VALUE_COUNT else |p.values| == 1)
    && AllFit(TypeSize(BaseType(p)), p.values)
  }

  /** Every one of `vs` fits the type. */
  predicate AllFit(typeSize: int, vs: seq<seq<byte>>)
    decreases |vs|
  {
    vs == [] || (FitsType(typeSize, vs[0]) && AllFit(typeSize, vs[1..]))
  }

  /** Every one of `ps` can be written. */
  predicate AllEncodable(ps: seq<WireProperty>)
    decreases |ps|
  {
    ps == [] || (Encodable(ps[0]) && AllEncodable(ps[1..]))
  }

  function Zeros(n: nat): (r: seq<byte>)
    ensures |r| == n
  {
    if n == 0 then [] else [0] + Zeros(n - 1)
  }

  function Concat(vs: seq<seq<byte>>): seq<byte>
  {
    if vs == [] then [] else vs[0] + Concat(vs[1..])
  }

  /** The 4-byte length field that precedes each value of a variable-length type. */
  function LengthFieldSize(typeSize: int): nat
  {
    if typeSize < 0 then 4 else 0
  }

  /** The bytes one value takes: its length field, its bytes, its padding. */
  function ValueSize(typeSize: int, v: seq<byte>): nat
  {
    LengthFieldSize(typeSize) + |v| + Pad(|v|)
  }

  function ValuesSize(typeSize: int, vs: seq<seq<byte>>): nat
  {
    if vs == [] then 0 else ValueSize(typeSize, vs[0]) + ValuesSize(typeSize, vs[1..])
  }

  /** The bytes of the count field the reader expects. */
  function CountSize(p: WireProperty): nat
  {
    if IsMultiValue(p) then 4 else 0
  }

  /** The bytes a plain-named property takes: type, name, count field, values. */
  function PropertySize(p: WireProperty): nat
  {
    4 + CountSize(p) + ValuesSize(TypeSize(BaseType(p)), p.values)
  }

  /** One value: its 4-byte length for a variable-length type, its bytes,
      then zeros up to the next multiple of 4. */
  function EncodeValue(typeSize: int, v: seq<byte>): (r: seq<byte>)
    requires FitsType(typeSize, v)
    ensures |r| == ValueSize(typeSize, v)
  {
    (if typeSize < 0 then EncodeLE(|v|, 4) else []) + (v + Zeros(Pad(|v|)))
  }

  function EncodeValues(typeSize: int, vs: seq<seq<byte>>): (r: seq<byte>)
    requires AllFit(typeSize, vs)
    ensures |r| == ValuesSize(typeSize, vs)
  {
    if vs == [] then [] else EncodeValue(typeSize, vs[0]) + EncodeValues(typeSize, vs[1..])
  }

  /** The 4-byte value count, written only when the reader expects one. */
  function CountField(p: WireProperty): (r: seq<byte>)
    requires Encodable(p)
    ensures |r| == CountSize(p)
  {
    if IsMultiValue(p) then EncodeLE(|p.values|, 4) else []
  }

  function EncodeProperty(p: WireProperty): (r: seq<byte>)
    requires Encodable(p)
    ensures |r| == PropertySize(p)
  {
    EncodeLE(p.rawType, 2) + EncodeLE(p.name, 2) + CountField(p)
      + EncodeValues(TypeSize(BaseType(p)), p.values)
  }

  function EncodeProperties(ps: seq<WireProperty>): seq<byte>
    requires AllEncodable(ps)
  {
    if ps == [] then [] else EncodeProperty(ps[0]) + EncodeProperties(ps[1..])
  }

  /** A whole `ATTMAPIPROPS` payload: the count, then the properties. */
  function EncodeMapi(ps: seq<WireProperty>): seq<byte>
    requires |ps| < 0x1_0000_0000
    requires AllEncodable(ps)
  {
    EncodeLE(|ps|, 4) + EncodeProperties(ps)
  }

  /** What the reader makes of a written property: the base type, the name,
      all values run together, and a zero GUID. */
  function Decoded(p: WireProperty): MapiAttribute
  {
    MapiAttribute(BaseType(p), p.name, Concat(p.values), 0)
  }

  function DecodedAll(ps: seq<WireProperty>): (r: seq<MapiAttribute>)
    ensures |r| == |ps|
  {
    if ps == [] then [] else [Decoded(ps[0])] + DecodedAll(ps[1..])
  }

  /** The buffer holds `bytes` from `offset` on. */
  predicate Holds(data: seq<byte>, offset: nat, bytes: seq<byte>)
  {
    offset + |bytes| <= |data| && data[offset..offset + |bytes|] == bytes
  }

  /** A buffer holds itself from its start. */
  lemma HoldsWhole(data: seq<byte>)
    ensures Holds(data, 0, data)
  {
    assert data[0..|data|] == data;
  }

  /** A buffer holding `a + b` holds `a`, then `b`. */
  lemma SplitSlice(data: seq<byte>, offset: nat, a: seq<byte>, b: seq<byte>, next: nat)
    requires Holds(data, offset, a + b)
    requires next == offset + |a|
    ensures Holds(data, offset, a)
    ensures Holds(data, next, b)
  {
    var s := data[offset..offset + |a| + |b|];
    assert data[offset..next] == s[..|a|];
    assert data[next..next + |b|] == s[|a|..];
  }

  /** An encoded integer inside a larger buffer reads back as itself. */
  lemma ReadEncoded(data: seq<byte>, offset: nat, v: nat, k: nat)
    requires v < Pow256(k)
    requires Holds(data, offset, EncodeLE(v, k))
    ensures ReadUint(data, offset, k) == Ok(v)
  {
  }

  /** The reader's view of one value at `offset`: its length (read or
      implied by the type) is that of `v`, and its bytes are `v`. */
  predicate ValueAt(data: seq<byte>, offset: nat, typeSize: int, v: seq<byte>)
  {
    var start := offset + LengthFieldSize(typeSize);
    && ValueLength(data, offset, typeSize) == Ok((|v|, start))
    && start + |v| <= |data|
    && data[start..start + |v|] == v
  }

  /** The values `vs` one after another from `offset`, each after the padding
      of the one before. */
  predicate ValuesAt(data: seq<byte>, offset: nat, typeSize: int, vs: seq<seq<byte>>)
    decreases |vs|
  {
    vs == [] ||
    (ValueAt(data, offset, typeSize, vs[0])
     && ValuesAt(data, offset + ValueSize(typeSize, vs[0]), typeSize, vs[1..]))
  }

  /** The reader's view of a plain-named property at `offset`: its type,
      its name, its count field (if it has one) holding a count the
      plausibility guard accepts, then its values. */
  predicate PropertyAt(data: seq<byte>, offset: nat, p: WireProperty)
  {
    var start := offset + 4 + CountSize(p);
    && !IsNamedId(p.name)
    && !(|p.values| > MAX_VALUE_COUNT && |p.values| > |data|)
    && ReadUint(data, offset, 2) == Ok(p.rawType)
    && ReadUint(data, offset + 2, 2) == Ok(p.name)
    && ValueCount(data, offset + 4, IsMultiValue(p)) == Ok((|p.values|, start))
    && ValuesAt(data, start, TypeSize(BaseType(p)), p.values)
  }

  /** The properties `ps` one after another from `offset`. */
  predicate PropertiesAt(data: seq<byte>, offset: nat, ps: seq<WireProperty>)
    decreases |ps|
  {
    ps == [] ||
    (PropertyAt(data, offset, ps[0]) && PropertiesAt(data, offset + PropertySize(ps[0]), ps[1..]))
  }

  /** One step of `ValuesRead`: the head value, then the rest. */
  lemma ValuesReadStep(data: seq<byte>, offset: nat, typeSize: int, vs: seq<seq<byte>>, end: nat)
    requires vs != []
    requires ValueAt(data, offset, typeSize, vs[0])
    requires Values(data, offset + ValueSize(typeSize, vs[0]), typeSize, |vs[1..]|)
          == Ok((Concat(vs[1..]), end))
    ensures Values(data, offset, typeSize, |vs|) == Ok((Concat(vs), end))
  {
  }

  /** The value loop over values laid out in place yields them run together
      and stops right after the last one's padding. */
  lemma {:induction false} ValuesRead(data: seq<byte>, offset: nat, typeSize: int,
                                      vs: seq<seq<byte>>)
    requires ValuesAt(data, offset, typeSize, vs)
    ensures Values(data, offset, typeSize, |vs|) == Ok((Concat(vs), offset + ValuesSize(typeSize, vs)))
    decreases |vs|
  {
    if vs != [] {
      var next := offset + ValueSize(typeSize, vs[0]);
      ValuesRead(data, next, typeSize, vs[1..]);
      ValuesReadStep(data, offset, typeSize, vs, next + ValuesSize(typeSize, vs[1..]));
    }
  }

  /** A property laid out in place reads back as `Decoded(p)`, and the
      cursor ends right after it. */
  lemma PropertyRead(data: seq<byte>, offset: nat, p: WireProperty)
    requires PropertyAt(data, offset, p)
    ensures offset < |data|
    ensures Property(data, offset) == Ok((Decoded(p), offset + PropertySize(p)))
  {
    var typeSize := TypeSize(BaseType(p));
    var start := offset + 4 + CountSize(p);
    ValuesRead(data, start, typeSize, p.values);
    PropertyFromParts(data, offset, p.rawType, p.name, 0, offset + 4, typeSize, IsMultiValue(p),
                      |p.values|, start, Concat(p.values), start + ValuesSize(typeSize, p.values));
  }

  /** One step of `PropertiesRead`: the head property in place, then the
      rest as read back. */
  lemma PropertiesReadStep(data: seq<byte>, offset: nat, ps: seq<WireProperty>)
    requires ps != []
    requires PropertyAt(data, offset, ps[0])
    requires Properties(data, offset + PropertySize(ps[0]), |ps| - 1) == Ok(DecodedAll(ps[1..]))
    ensures Properties(data, offset, |ps|) == Ok(DecodedAll(ps))
  {
    PropertyRead(data, offset, ps[0]);
    PropertiesCons(data, offset, |ps|, Decoded(ps[0]), offset + PropertySize(ps[0]),
                   DecodedAll(ps[1..]));
  }

  /** The outer loop over properties laid out in place yields them in order. */
  lemma {:induction false} PropertiesRead(data: seq<byte>, offset: nat, ps: seq<WireProperty>)
    requires PropertiesAt(data, offset, ps)
    ensures Properties(data, offset, |ps|) == Ok(DecodedAll(ps))
    decreases |ps|
  {
    if ps != [] {
      PropertiesRead(data, offset + PropertySize(ps[0]), ps[1..]);
      PropertiesReadStep(data, offset, ps);
    }
  }

  /** A written value lies in place as the reader expects it. */
  lemma EncodedValueAt(data: seq<byte>, offset: nat, typeSize: int, v: seq<byte>)
    requires FitsType(typeSize, v)
    requires Holds(data, offset, EncodeValue(typeSize, v))
    ensures ValueAt(data, offset, typeSize, v)
  {
    Pow256Values();
    var start := offset + LengthFieldSize(typeSize);
    var lengthField := if typeSize < 0 then EncodeLE(|v|, 4) else [];
    SplitSlice(data, offset, lengthField, v + Zeros(Pad(|v|)), start);
    SplitSlice(data, start, v, Zeros(Pad(|v|)), start + |v|);
    if typeSize < 0 {
      ReadEncoded(data, offset, |v|, 4);
    }
  }

  /** Written values lie in place one after another. */
  lemma {:induction false} EncodedValuesAt(data: seq<byte>, offset: nat, typeSize: int,
                                           vs: seq<seq<byte>>)
    requires AllFit(typeSize, vs)
    requires Holds(data, offset, EncodeValues(typeSize, vs))
    ensures ValuesAt(data, offset, typeSize, vs)
    decreases |vs|
  {
    if vs != [] {
      var next := offset + ValueSize(typeSize, vs[0]);
      SplitSlice(data, offset, EncodeValue(typeSize, vs[0]), EncodeValues(typeSize, vs[1..]), next);
      EncodedValueAt(data, offset, typeSize, vs[0]);
      EncodedValuesAt(data, next, typeSize, vs[1..]);
    }
  }

  /** The value loop reads back exactly the values written, run together,
      and stops right after the last one's padding. */
  lemma ValuesRoundTrip(data: seq<byte>, offset: nat, typeSize: int, vs: seq<seq<byte>>)
    requires AllFit(typeSize, vs)
    requires Holds(data, offset, EncodeValues(typeSize, vs))
    ensures Values(data, offset, typeSize, |vs|)
         == Ok((Concat(vs), offset + ValuesSize(typeSize, vs)))
  {
    EncodedValuesAt(data, offset, typeSize, vs);
    ValuesRead(data, offset, typeSize, vs);
  }

  /** A buffer holding a property's four fields holds each of them in turn. */
  lemma PropertyFields(data: seq<byte>, offset: nat, t: seq<byte>, n: seq<byte>, c: seq<byte>,
                       body: seq<byte>, countSize: nat)
    requires |t| == 2 && |n| == 2 && |c| == countSize
    requires Holds(data, offset, t + n + c + body)
    ensures Holds(data, offset, t)
    ensures Holds(data, offset + 2, n)
    ensures Holds(data, offset + 4, c)
    ensures Holds(data, offset + 4 + countSize, body)
  {
    SplitSlice(data, offset, t + n + c, body, offset + 4 + countSize);
    SplitSlice(data, offset, t + n, c, offset + 4);
    SplitSlice(data, offset, t, n, offset + 2);
  }

  /** A written count field reads back as the number of values. */
  lemma CountFieldRead(data: seq<byte>, offset: nat, p: WireProperty)
    requires Encodable(p)
    requires Holds(data, offset, CountField(p))
    ensures ValueCount(data, offset, IsMultiValue(p)) == Ok((|p.values|, offset + CountSize(p)))
  {
    if IsMultiValue(p) {
      ReadEncoded(data, offset, |p.values|, 4);
    }
  }

  /** A written property lies in place as the reader expects it. */
  lemma EncodedPropertyAt(data: seq<byte>, offset: nat, p: WireProperty)
    requires Encodable(p)
    requires Holds(data, offset, EncodeProperty(p))
    ensures PropertyAt(data, offset, p)
  {
    var typeSize := TypeSize(BaseType(p));
    PropertyFields(data, offset, EncodeLE(p.rawType, 2), EncodeLE(p.name, 2), CountField(p),
                   EncodeValues(typeSize, p.values), CountSize(p));
    ReadEncoded(data, offset, p.rawType, 2);
    ReadEncoded(data, offset + 2, p.name, 2);
    CountFieldRead(data, offset + 4, p);
    EncodedValuesAt(data, offset + 4 + CountSize(p), typeSize, p.values);
  }

  /** A written property reads back as `Decoded(p)`, and the cursor ends
      right after it. */
  lemma PropertyRoundTrip(data: seq<byte>, offset: nat, p: WireProperty)
    requires Encodable(p)
    requires Holds(data, offset, EncodeProperty(p))
    ensures Property(data, offset) == Ok((Decoded(p), offset + PropertySize(p)))
  {
    EncodedPropertyAt(data, offset, p);
    PropertyRead(data, offset, p);
  }

  /** Written properties lie in place one after another. */
  lemma {:induction false} EncodedPropertiesAt(data: seq<byte>, offset: nat, ps: seq<WireProperty>)
    requires AllEncodable(ps)
    requires Holds(data, offset, EncodeProperties(ps))
    ensures PropertiesAt(data, offset, ps)
    decreases |ps|
  {
    if ps != [] {
      var next := offset + PropertySize(ps[0]);
      EncodedPropertiesSplit(data, offset, ps, next);
      EncodedPropertyAt(data, offset, ps[0]);
      EncodedPropertiesAt(data, next, ps[1..]);
      PropertiesAtCons(data, offset, ps, next);
    }
  }

  /** A property in place followed by properties in place. */
  lemma PropertiesAtCons(data: seq<byte>, offset: nat, ps: seq<WireProperty>, next: nat)
    requires ps != [] && next == offset + PropertySize(ps[0])
    requires PropertyAt(data, offset, ps[0])
    requires PropertiesAt(data, next, ps[1..])
    ensures PropertiesAt(data, offset, ps)
  {
  }

  /** A buffer holding several written properties holds the first, then
      the rest. */
  lemma EncodedPropertiesSplit(data: seq<byte>, offset: nat, ps: seq<WireProperty>, next: nat)
    requires ps != [] && AllEncodable(ps)
    requires Holds(data, offset, EncodeProperties(ps))
    requires next == offset + PropertySize(ps[0])
    ensures Encodable(ps[0]) && AllEncodable(ps[1..])
    ensures Holds(data, offset, EncodeProperty(ps[0]))
    ensures Holds(data, next, EncodeProperties(ps[1..]))
  {
    SplitSlice(data, offset, EncodeProperty(ps[0]), EncodeProperties(ps[1..]), next);
  }

  /** `decodeMapi` inverts the encoder: a written payload yields its
      properties, in order, each with its values run together. */
  lemma MapiRoundTrip(ps: seq<WireProperty>)
    requires |ps| < 0x1_0000_0000
    requires AllEncodable(ps)
    ensures MapiProperties(EncodeMapi(ps)) == Ok(DecodedAll(ps))
  {
    var data := EncodeMapi(ps);
    HoldsWhole(data);
    SplitSlice(data, 0, EncodeLE(|ps|, 4), EncodeProperties(ps), 4);
    MapiReadBack(data, ps);
  }

  /** `MapiRoundTrip` over a buffer that holds the count and the written
      properties. */
  lemma MapiReadBack(data: seq<byte>, ps: seq<WireProperty>)
    requires |ps| < 0x1_0000_0000
    requires AllEncodable(ps)
    requires Holds(data, 0, EncodeLE(|ps|, 4))
    requires Holds(data, 4, EncodeProperties(ps))
    ensures MapiProperties(data) == Ok(DecodedAll(ps))
  {
    Pow256Values();
    ReadEncoded(data, 0, |ps|, 4);
    EncodedPropertiesAt(data, 4, ps);
    PropertiesRead(data, 4, ps);
  }

  /** The padding law: a variable-length value of length L takes its 4-byte
      length, L bytes and (-L) & 3 zeros, a multiple of 4 in all. */
  lemma VariableValueSize(v: seq<byte>)
    requires |v| < 0x1_0000_0000
    ensures |EncodeValue(-1, v)| == 4 + |v| + Pad(|v|)
    ensures |EncodeValue(-1, v)| % 4 == 0
    ensures |v| == 0 ==> |EncodeValue(-1, v)| == 4
    ensures |v| == 1 ==> |EncodeValue(-1, v)| == 8
    ensures |v| == 4 ==> |EncodeValue(-1, v)| == 8
    ensures |v| == 5 ==> |EncodeValue(-1, v)| == 12
  {
    AlignedSum(4, |v| + Pad(|v|));
  }

  /** A plain-named 16-bit property can be written, and the payload holding
      it yields exactly that property, with 2 bytes of data. */
  lemma ShortPropertyExample(name: nat, v: seq<byte>)
    requires name < 0x8000 && |v| == 2
    ensures var p := WireProperty(SZMAPI_SHORT, name, [v]);
            && AllEncodable([p])
            && MapiProperties(EncodeMapi([p])) == Ok([MapiAttribute(SZMAPI_SHORT, name, v, 0)])
  {
    var p := WireProperty(SZMAPI_SHORT, name, [v]);
    assert !HasMultiValueFlag(SZMAPI_SHORT);
    assert [v][1..] == [] && [p][1..] == [];
    assert AllFit(2, [v]);
    assert AllEncodable([p]);
    MapiRoundTrip([p]);
    assert Concat([v]) == v + [];
    assert DecodedAll([p]) == [Decoded(p)];
    assert Decoded(p) == MapiAttribute(SZMAPI_SHORT, name, v, 0);
  }
}
