/** The container reader: the signature check, the walk over the records
    from offset 6, and what each record does to the decoded message. */
module Tnef {
  import opened ByteUtil
  import opened Errors
  import opened Mapi

  /** The 4-byte marker every TNEF stream starts with. */
  const TNEF_SIGNATURE := 0x223e9f78
  /** The level of records that belong to the current attachment. */
  const LVL_ATTACHMENT := 0x02

  const ATT_ATTACH_DATA := 0x800f
  const ATT_ATTACH_TITLE := 0x8010
  const ATT_ATTACH_REND_DATA := 0x9002
  const ATT_MAPI_PROPS := 0x9003

  /** One record of the stream: its level, name and type, its payload, and
      the number of bytes it takes including the 2-byte checksum. */
  datatype TnefObject = TnefObject(level: nat, name: nat, attrType: nat, data: seq<byte>, length: nat)

  /** `decodeTNEFObject` over the buffer from the cursor on: a 1-byte level,
      2-byte name and type, a 4-byte payload length, the payload, and a
      checksum that is stepped over without being read.  Each slice that
      would reach past the end fails as `Truncated`. */
  function DecodeTnefObject(s: seq<byte>): (r: Result<TnefObject>)
    ensures r.Ok? ==> r.value.length == 11 + |r.value.data|
  {
    var level :- ReadUint(s, 0, 1);
    var name :- ReadUint(s, 1, 2);
    var attrType :- ReadUint(s, 3, 2);
    var attLength :- ReadUint(s, 5, 4);
    if 9 + attLength > |s| then
      Err(Truncated)
    else
      Ok(TnefObject(level, name, attrType, s[9..9 + attLength], 9 + attLength + 2))
  }

  /** The title and the data of an attachment. */
  datatype AttachmentValue = AttachmentValue(title: seq<byte>, data: seq<byte>)

  /** `strings.Replace(string(b), "\x00", "", -1)`: `b` with every zero byte
      removed. */
  function RemoveZeros(s: seq<byte>): seq<byte>
  {
    if s == [] then []
    else (if s[0] == 0 then [] else [s[0]]) + RemoveZeros(s[1..])
  }

  /** Whether `addAttr` touches the attachment for a record of this name. */
  predicate IsAttachmentField(name: nat)
  {
    name == ATT_ATTACH_TITLE || name == ATT_ATTACH_DATA
  }

  /** `addAttr`: a title record sets the title, a data record the data, and
      any other record leaves the attachment as it is. */
  function MergeAttr(a: AttachmentValue, obj: TnefObject): AttachmentValue
  {
    if obj.name == ATT_ATTACH_TITLE then a.(title := RemoveZeros(obj.data))
    else if obj.name == ATT_ATTACH_DATA then a.(data := obj.data)
    else a
  }

  /** The decoded message: its body, its HTML body, its attachments in the
      order they were opened, and the last property list read. */
  datatype Message = Message(body: seq<byte>, bodyHtml: seq<byte>,
                             attachments: seq<AttachmentValue>,
                             attributes: seq<MapiAttribute>)

  /** The message before any record is read. */
  const EMPTY_MESSAGE := Message([], [], [], [])

  /** The loop over the properties of a `ATTMAPIPROPS` record: the data of
      each property named `name` overwrites `prev` in turn. */
  function LastData(attrs: seq<MapiAttribute>, name: nat, prev: seq<byte>): seq<byte>
    decreases |attrs|
  {
    if attrs == [] then prev
    else LastData(attrs[1..], name, if attrs[0].name == name then attrs[0].data else prev)
  }

  /** What a message-level `ATTMAPIPROPS` record does with the properties
      read from its payload. */
  function WithAttributes(m: Message, attrs: seq<MapiAttribute>): Message
  {
    m.(attributes := attrs,
       body := LastData(attrs, MAPI_BODY, m.body),
       bodyHtml := LastData(attrs, MAPI_BODY_HTML, m.bodyHtml))
  }

  /** One pass of the record loop: a rendering record opens a new
      attachment; an attachment-level record goes to the newest attachment
      (failing when there is none and `addAttr` would write through the nil
      pointer); any other `ATTMAPIPROPS` record replaces the properties, and
      a payload the property reader rejects fails the decode. */
  function Step(m: Message, obj: TnefObject): Result<Message>
  {
    if obj.name == ATT_ATTACH_REND_DATA then
      Ok(m.(attachments := m.attachments + [AttachmentValue([], [])]))
    else if obj.level == LVL_ATTACHMENT then
      if m.attachments == [] then
        if IsAttachmentField(obj.name) then Err(NoAttachment) else Ok(m)
      else
        var last := |m.attachments| - 1;
        Ok(m.(attachments := m.attachments[..last] + [MergeAttr(m.attachments[last], obj)]))
    else if obj.name == ATT_MAPI_PROPS then
      var attrs :- MapiProperties(obj.data);
      Ok(WithAttributes(m, attrs))
    else
      Ok(m)
  }

  /** The record loop from `offset` on, with `m` decoded so far. */
  function Walk(data: seq<byte>, offset: nat, m: Message): Result<Message>
    decreases |data| - offset
  {
    if offset >= |data| then
      Ok(m)
    else
      var obj :- DecodeTnefObject(data[offset..]);
      var next :- Step(m, obj);
      Walk(data, offset + obj.length, next)
  }

  /** What `Decode` computes: `ErrNoMarker` unless the stream starts with the
      signature, otherwise the record loop from offset 6 (bytes 4 and 5 are
      a key that is not read). */
  function DecodeSpec(data: seq<byte>): Result<Message>
  {
    if |data| < 4 || LittleEndian(data[..4]) != TNEF_SIGNATURE then
      Err(NoMarker)
    else
      Walk(data, 6, EMPTY_MESSAGE)
  }

  /** A record that decodes and whose step succeeds moves the walk past it. */
  lemma {:induction false} WalkStep(data: seq<byte>, offset: nat, m: Message, obj: TnefObject, next: Message)
    requires offset < |data|
    requires DecodeTnefObject(data[offset..]) == Ok(obj)
    requires Step(m, obj) == Ok(next)
    ensures Walk(data, offset, m) == Walk(data, offset + obj.length, next)
  {
  }

  /** A record that decodes but whose step fails ends the walk with that error. */
  lemma {:induction false} WalkStepFails(data: seq<byte>, offset: nat, m: Message, obj: TnefObject, e: Error)
    requires offset < |data|
    requires DecodeTnefObject(data[offset..]) == Ok(obj)
    requires Step(m, obj) == Err(e)
    ensures Walk(data, offset, m) == Err(e)
  {
  }

  /** A record that does not decode ends the walk with that error. */
  lemma {:induction false} WalkRecordFails(data: seq<byte>, offset: nat, m: Message, e: Error)
    requires offset < |data|
    requires DecodeTnefObject(data[offset..]) == Err(e)
    ensures Walk(data, offset, m) == Err(e)
  {
  }

  /** An attachment, updated in place through the pointer that the decoder
      and the attachment list share. */
  class Attachment {
    var title: seq<byte>
    var data: seq<byte>

    constructor()
      ensures Value() == AttachmentValue([], [])
    {
      title := [];
      data := [];
    }

    function Value(): AttachmentValue
      reads this
    {
      AttachmentValue(title, data)
    }

    /** `Attachment.addAttr`. */
    method AddAttr(obj: TnefObject)
      modifies this
      ensures Value() == MergeAttr(old(Value()), obj)
    {
      if obj.name == ATT_ATTACH_TITLE {
        title := RemoveZeros(obj.data);
      } else if obj.name == ATT_ATTACH_DATA {
        data := obj.data;
      }
    }
  }

  /** The values of the attachments of a list, in order. */
  function AttachmentValues(atts: seq<Attachment>): (r: seq<AttachmentValue>)
    reads atts
    ensures |r| == |atts|
    decreases |atts|
  {
    if atts == [] then []
    else AttachmentValues(atts[..|atts| - 1]) + [atts[|atts| - 1].Value()]
  }

  /** The decoded message as the decoder builds it. */
  class Data {
    var body: seq<byte>
    var bodyHtml: seq<byte>
    var attachments: seq<Attachment>
    var attributes: seq<MapiAttribute>

    constructor()
      ensures attachments == []
      ensures Value() == EMPTY_MESSAGE
    {
      body := [];
      bodyHtml := [];
      attachments := [];
      attributes := [];
    }

    function Value(): Message
      reads this, attachments
    {
      Message(body, bodyHtml, AttachmentValues(attachments), attributes)
    }

    /** No attachment appears twice in the list. */
    predicate Distinct()
      reads this
    {
      forall i, j :: 0 <= i < j < |attachments| ==> attachments[i] != attachments[j]
    }

    /** tnef.go:126-139 once the payload is read: the properties replace the
        old ones, and the loop over them picks out the body and HTML body. */
    method TakeAttributes(attrs: seq<MapiAttribute>)
      modifies this
      ensures attachments == old(attachments)
      ensures Value() == WithAttributes(old(Value()), attrs)
    {
      attributes := attrs;
      for i := 0 to |attrs|
        invariant attributes == attrs && attachments == old(attachments)
        invariant LastData(attrs, MAPI_BODY, old(body)) == LastData(attrs[i..], MAPI_BODY, body)
        invariant LastData(attrs, MAPI_BODY_HTML, old(bodyHtml))
               == LastData(attrs[i..], MAPI_BODY_HTML, bodyHtml)
      {
        assert attrs[i..][1..] == attrs[i + 1..];
        if attrs[i].name == MAPI_BODY {
          body := attrs[i].data;
        } else if attrs[i].name == MAPI_BODY_HTML {
          bodyHtml := attrs[i].data;
        }
      }
    }
  }

  /** The body of the record loop (tnef.go:119-140) for a record that has
      been read: `attachment` is the newest attachment, or null before the
      first one; the result is the newest attachment afterwards. */
  method Dispatch(tnef: Data, attachment: Attachment?, obj: TnefObject) returns (r: Result<Attachment?>)
    requires tnef.Distinct()
    requires attachment == null <==> tnef.attachments == []
    requires attachment != null ==> attachment == tnef.attachments[|tnef.attachments| - 1]
    modifies tnef, tnef.attachments
    ensures Step(old(tnef.Value()), obj) == (if r.Ok? then Ok(tnef.Value()) else Err(r.error))
    ensures r.Ok? ==> tnef.Distinct()
    ensures r.Ok? ==> (r.value == null <==> tnef.attachments == [])
    ensures r.Ok? && r.value != null ==> r.value == tnef.attachments[|tnef.attachments| - 1]
    ensures r.Ok? ==> tnef.attachments == old(tnef.attachments)
                      || (tnef.attachments == old(tnef.attachments) + [r.value] && fresh(r.value))
  {
    if obj.name == ATT_ATTACH_REND_DATA {
      var created := OpenAttachment(tnef);
      return Ok(created);
    } else if obj.level == LVL_ATTACHMENT {
      if attachment == null {
        // addAttr on the nil pointer writes through it for these names only
        if IsAttachmentField(obj.name) {
          return Err(NoAttachment);
        }
        return Ok(null);
      }
      UpdateNewest(tnef, attachment, obj);
      return Ok(attachment);
    } else if obj.name == ATT_MAPI_PROPS {
      var attrs := DecodeMapi(obj.data);
      if attrs.Err? {
        return Err(attrs.error);
      }
      tnef.TakeAttributes(attrs.value);
      return Ok(attachment);
    }
    return Ok(attachment);
  }

  /** tnef.go:120-121: a fresh, empty attachment is appended to the list. */
  method OpenAttachment(tnef: Data) returns (created: Attachment)
    requires tnef.Distinct()
    modifies tnef
    ensures fresh(created)
    ensures tnef.attachments == old(tnef.attachments) + [created]
    ensures tnef.Value() == old(tnef.Value()).(attachments := old(tnef.Value()).attachments + [AttachmentValue([], [])])
    ensures tnef.Distinct()
  {
    created := new Attachment();
    AppendValue(tnef.attachments, created);
    tnef.attachments := tnef.attachments + [created];
  }

  /** tnef.go:123 with an attachment: the record goes to the newest one, the
      only attachment that changes. */
  method UpdateNewest(tnef: Data, attachment: Attachment, obj: TnefObject)
    requires tnef.Distinct()
    requires tnef.attachments != [] && attachment == tnef.attachments[|tnef.attachments| - 1]
    modifies attachment
    ensures var before := old(tnef.Value()); var last := |before.attachments| - 1;
      tnef.Value() == before.(attachments := before.attachments[..last]
                                              + [MergeAttr(before.attachments[last], obj)])
  {
    ghost var atts := tnef.attachments;
    ghost var last := |atts| - 1;
    assert atts == atts[..last] + [attachment];
    AppendValue(atts[..last], attachment);
    attachment.AddAttr(obj);
    AppendValue(atts[..last], attachment);
  }

  /** The values of a list with one more attachment at its end. */
  lemma {:induction false} AppendValue(atts: seq<Attachment>, a: Attachment)
    ensures AttachmentValues(atts + [a]) == AttachmentValues(atts) + [a.Value()]
  {
    assert (atts + [a])[..|atts|] == atts;
  }

  /** One pass of the record loop (tnef.go:116-140): the record at the
      cursor is read and dispatched, and the walk from the cursor equals the
      walk from just past that record over the updated message. */
  method DecodeStep(data: seq<byte>, offset: nat, tnef: Data, attachment: Attachment?)
      returns (r: Result<(nat, Attachment?)>)
    requires offset < |data|
    requires tnef.Distinct()
    requires attachment == null <==> tnef.attachments == []
    requires attachment != null ==> attachment == tnef.attachments[|tnef.attachments| - 1]
    modifies tnef, tnef.attachments
    ensures r.Err? ==> Walk(data, offset, old(tnef.Value())) == Err(r.error)
    ensures r.Ok? ==> offset < r.value.0
    ensures r.Ok? ==> Walk(data, offset, old(tnef.Value())) == Walk(data, r.value.0, tnef.Value())
    ensures r.Ok? ==> tnef.Distinct()
    ensures r.Ok? ==> (r.value.1 == null <==> tnef.attachments == [])
    ensures r.Ok? && r.value.1 != null ==> r.value.1 == tnef.attachments[|tnef.attachments| - 1]
    ensures r.Ok? ==> tnef.attachments == old(tnef.attachments)
                      || (tnef.attachments == old(tnef.attachments) + [r.value.1] && fresh(r.value.1))
  {
    var obj := DecodeTnefObject(data[offset..]);
    if obj.Err? {
      WalkRecordFails(data, offset, tnef.Value(), obj.error);
      return Err(obj.error);
    }
    ghost var before := tnef.Value();
    var next := Dispatch(tnef, attachment, obj.value);
    if next.Err? {
      WalkStepFails(data, offset, before, obj.value, next.error);
      return Err(next.error);
    }
    WalkStep(data, offset, before, obj.value, tnef.Value());
    return Ok((offset + obj.value.length, next.value));
  }

  /** `Decode`: the signature check, then the record loop; each record's
      length moves the cursor, and the loop stops once the cursor reaches
      or passes the end of the buffer. */
  method Decode(data: seq<byte>) returns (r: Result<Data>)
    ensures r.Err? ==> DecodeSpec(data) == Err(r.error)
    ensures r.Ok? ==> DecodeSpec(data) == Ok(r.value.Value())
  {
    if |data| < 4 {
      return Err(NoMarker);
    }
    var signature := ByteToInt(data[0..4]);
    if signature != TNEF_SIGNATURE {
      return Err(NoMarker);
    }
    var offset: nat := 6;
    var attachment: Attachment? := null;
    var tnef := new Data();

    while offset < |data|
      invariant fresh(tnef) && tnef.Distinct()
      invariant fresh(tnef.attachments)
      invariant attachment == null <==> tnef.attachments == []
      invariant attachment != null ==> attachment == tnef.attachments[|tnef.attachments| - 1]
      invariant DecodeSpec(data) == Walk(data, offset, tnef.Value())
      decreases |data| - offset
    {
      var step := DecodeStep(data, offset, tnef, attachment);
      if step.Err? {
        return Err(step.error);
      }
      offset, attachment := step.value.0, step.value.1;
    }
    return Ok(tnef);
  }
}
