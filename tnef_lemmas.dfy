/** What the container reader promises: the layout of a record, the marker
    check, the ways a decode can fail, and what each kind of record does to
    the decoded message. */
module TnefLemmas {
  import opened ByteUtil
  import opened Errors
  import opened Mapi
  import opened MapiLemmas
  import opened Tnef

  /** The record layout: the level is byte 0, the name bytes 1-2, the type
      bytes 3-4 and the payload length bytes 5-8, all little-endian; the
      payload is exactly the bytes that follow, and the record takes 11 more
      bytes than its payload.  A record decodes exactly when its header and
      its payload fit, and otherwise the read is truncated. */
  lemma {:induction false} RecordLayout(s: seq<byte>)
    ensures DecodeTnefObject(s).Ok? <==> 9 <= |s| && 9 + LittleEndian(s[5..9]) <= |s|
    ensures DecodeTnefObject(s).Err? ==> DecodeTnefObject(s).error == Truncated
    ensures DecodeTnefObject(s).Ok? ==>
              var obj := DecodeTnefObject(s).value;
              var attLength := LittleEndian(s[5..9]);
              && obj.level == s[0]
              && obj.name == LittleEndian(s[1..3])
              && obj.attrType == LittleEndian(s[3..5])
              && obj.data == s[9..9 + attLength]
              && obj.length == 11 + attLength
  {
    if 9 <= |s| {
      LittleEndianBound(s[0..1]);
    }
  }

  /** Every record moves the cursor by at least the 11 bytes of its header
      and checksum, so the record loop terminates. */
  lemma {:induction false} RecordAdvances(s: seq<byte>)
    requires DecodeTnefObject(s).Ok?
    ensures DecodeTnefObject(s).value.length >= 11
  {
  }

  /** One pass of the loop fails only by a missing attachment or as the
      property reader does. */
  lemma {:induction false} StepErrors(m: Message, obj: TnefObject)
    requires Step(m, obj).Err?
    ensures Step(m, obj).error == NoAttachment || IsPayloadError(Step(m, obj).error)
  {
    if obj.name != ATT_ATTACH_REND_DATA && obj.level != LVL_ATTACHMENT && obj.name == ATT_MAPI_PROPS {
      MapiErrors(obj.data);
    }
  }

  /** When one pass of the loop fails: an attachment title or data record
      before any attachment was opened (the nil receiver of `addAttr`), or
      a message-level property record that the property reader rejects. */
  lemma {:induction false} StepFails(m: Message, obj: TnefObject)
    ensures Step(m, obj).Err? <==>
              || (obj.name != ATT_ATTACH_REND_DATA && obj.level == LVL_ATTACHMENT
                  && m.attachments == [] && IsAttachmentField(obj.name))
              || (obj.name != ATT_ATTACH_REND_DATA && obj.level != LVL_ATTACHMENT
                  && obj.name == ATT_MAPI_PROPS && MapiProperties(obj.data).Err?)
    ensures Step(m, obj) == Err(NoAttachment) <==>
              obj.name != ATT_ATTACH_REND_DATA && obj.level == LVL_ATTACHMENT
              && m.attachments == [] && IsAttachmentField(obj.name)
  {
    if obj.name != ATT_ATTACH_REND_DATA && obj.level != LVL_ATTACHMENT && obj.name == ATT_MAPI_PROPS
       && MapiProperties(obj.data).Err? {
      MapiErrors(obj.data);
    }
  }

  /** What one pass of the loop does to the attachment list: a rendering
      record, at any level, appends one empty attachment; an attachment-level
      record changes at most the newest attachment, by `addAttr`; every
      other record leaves the list alone.  Earlier attachments never change,
      and neither the body nor the properties change unless the record is a
      message-level property record. */
  lemma {:induction false} StepAttachments(m: Message, obj: TnefObject, m': Message)
    requires Step(m, obj) == Ok(m')
    ensures |m'.attachments| == |m.attachments| + (if obj.name == ATT_ATTACH_REND_DATA then 1 else 0)
    ensures forall i :: 0 <= i < |m.attachments| - 1 ==> m'.attachments[i] == m.attachments[i]
    ensures obj.name == ATT_ATTACH_REND_DATA ==>
              m'.attachments == m.attachments + [AttachmentValue([], [])]
    ensures obj.name != ATT_ATTACH_REND_DATA && obj.level == LVL_ATTACHMENT && m.attachments != [] ==>
              var last := |m.attachments| - 1;
              m'.attachments[last] == MergeAttr(m.attachments[last], obj)
    ensures obj.name != ATT_ATTACH_REND_DATA && obj.level != LVL_ATTACHMENT ==>
              m'.attachments == m.attachments
    ensures obj.name == ATT_ATTACH_REND_DATA || obj.level == LVL_ATTACHMENT || obj.name != ATT_MAPI_PROPS ==>
              m'.body == m.body && m'.bodyHtml == m.bodyHtml && m'.attributes == m.attributes
  {
  }

  /** A message-level property record replaces the properties by those its
      payload holds and keeps the attachments. */
  lemma {:induction false} StepProperties(m: Message, obj: TnefObject, m': Message)
    requires obj.name == ATT_MAPI_PROPS && obj.level != LVL_ATTACHMENT
    requires Step(m, obj) == Ok(m')
    ensures MapiProperties(obj.data) == Ok(m'.attributes)
    ensures m'.attachments == m.attachments
    ensures m' == WithAttributes(m, m'.attributes)
  {
  }

  /** The loop over the properties keeps the data of the last property of
      the given name, and the old value when there is none. */
  lemma {:induction false} LastDataIsLast(attrs: seq<MapiAttribute>, name: nat, prev: seq<byte>)
    ensures (forall i :: 0 <= i < |attrs| ==> attrs[i].name != name) ==>
              LastData(attrs, name, prev) == prev
    ensures forall i ::
              (0 <= i < |attrs| && attrs[i].name == name
               && forall j :: i < j < |attrs| ==> attrs[j].name != name) ==>
              LastData(attrs, name, prev) == attrs[i].data
    decreases |attrs|
  {
    if attrs != [] {
      var rest := attrs[1..];
      var prev' := if attrs[0].name == name then attrs[0].data else prev;
      LastDataIsLast(rest, name, prev');
      assert LastData(attrs, name, prev) == LastData(rest, name, prev');
      forall i | 0 <= i < |attrs| && attrs[i].name == name
                 && (forall j :: i < j < |attrs| ==> attrs[j].name != name)
        ensures LastData(attrs, name, prev) == attrs[i].data
      {
        if i == 0 {
          assert forall k :: 0 <= k < |rest| ==> rest[k] == attrs[k + 1];
        } else {
          assert rest[i - 1] == attrs[i];
          assert forall j :: i - 1 < j < |rest| ==> rest[j] == attrs[j + 1];
        }
      }
    }
  }

  /** The body and HTML body after a property record: the data of the last
      property named `MAPIBody` (`MAPIBodyHTML`), or the previous value when
      the list holds none. */
  lemma {:induction false} WithAttributesBody(m: Message, attrs: seq<MapiAttribute>, i: nat)
    requires i < |attrs|
    requires attrs[i].name == MAPI_BODY || attrs[i].name == MAPI_BODY_HTML
    requires forall j :: i < j < |attrs| ==> attrs[j].name != attrs[i].name
    ensures attrs[i].name == MAPI_BODY ==> WithAttributes(m, attrs).body == attrs[i].data
    ensures attrs[i].name == MAPI_BODY_HTML ==> WithAttributes(m, attrs).bodyHtml == attrs[i].data
    ensures WithAttributes(m, attrs).attributes == attrs
    ensures WithAttributes(m, attrs).attachments == m.attachments
  {
    LastDataIsLast(attrs, attrs[i].name, if attrs[i].name == MAPI_BODY then m.body else m.bodyHtml);
  }

  /** With no body property the body is kept, and likewise for HTML. */
  lemma {:induction false} WithAttributesKeeps(m: Message, attrs: seq<MapiAttribute>)
    ensures (forall j :: 0 <= j < |attrs| ==> attrs[j].name != MAPI_BODY) ==>
              WithAttributes(m, attrs).body == m.body
    ensures (forall j :: 0 <= j < |attrs| ==> attrs[j].name != MAPI_BODY_HTML) ==>
              WithAttributes(m, attrs).bodyHtml == m.bodyHtml
  {
    LastDataIsLast(attrs, MAPI_BODY, m.body);
    LastDataIsLast(attrs, MAPI_BODY_HTML, m.bodyHtml);
  }

  /** The record loop fails only as a record read, a missing attachment or
      the property reader does; it never reports a missing marker. */
  lemma {:induction false} WalkErrors(data: seq<byte>, offset: nat, m: Message)
    requires Walk(data, offset, m).Err?
    ensures Walk(data, offset, m).error != NoMarker
    decreases |data| - offset
  {
    match DecodeTnefObject(data[offset..])
    case Err(_) =>
      RecordLayout(data[offset..]);
    case Ok(obj) =>
      match Step(m, obj)
      case Err(_) =>
        StepErrors(m, obj);
      case Ok(next) =>
        WalkErrors(data, offset + obj.length, next);
  }

  /** `Decode` reports `ErrNoMarker` exactly when the input is shorter
      than 4 bytes or does not start with the little-endian signature. */
  lemma {:induction false} MarkerCheck(data: seq<byte>)
    ensures DecodeSpec(data) == Err(NoMarker) <==>
              |data| < 4 || LittleEndian(data[..4]) != TNEF_SIGNATURE
  {
    if DecodeSpec(data).Err? && !(|data| < 4 || LittleEndian(data[..4]) != TNEF_SIGNATURE) {
      WalkErrors(data, 6, EMPTY_MESSAGE);
    }
  }

  /** A stream of at most 6 bytes that starts with the signature holds the
      signature and the key only, and decodes to an empty message: no body,
      no HTML body, no attachments and no properties. */
  lemma {:induction false} HeaderOnly(data: seq<byte>)
    requires 4 <= |data| <= 6 && LittleEndian(data[..4]) == TNEF_SIGNATURE
    ensures DecodeSpec(data) == Ok(EMPTY_MESSAGE)
  {
  }

  /** Every byte `strings.Replace` leaves in a title is non-zero. */
  lemma {:induction false} RemoveZerosNoZeros(s: seq<byte>)
    ensures forall i :: 0 <= i < |RemoveZeros(s)| ==> RemoveZeros(s)[i] != 0
  {
    if s != [] {
      RemoveZerosNoZeros(s[1..]);
    }
  }

  /** Removing zeros keeps every other byte as often as it occurs and drops
      every zero. */
  lemma {:induction false} RemoveZerosCounts(s: seq<byte>)
    ensures multiset(RemoveZeros(s)) == multiset(s)[0 := 0]
  {
    if s != [] {
      RemoveZerosCounts(s[1..]);
      assert s == [s[0]] + s[1..];
    }
  }

  /** Removing zeros works piece by piece, so the kept bytes stay in order. */
  lemma {:induction false} RemoveZerosAppend(a: seq<byte>, b: seq<byte>)
    ensures RemoveZeros(a + b) == RemoveZeros(a) + RemoveZeros(b)
  {
    if a != [] {
      assert (a + b)[1..] == a[1..] + b;
      RemoveZerosAppend(a[1..], b);
    } else {
      assert a + b == b;
    }
  }

  /** A title without zeros is kept as it is. */
  lemma {:induction false} RemoveZerosIdentity(s: seq<byte>)
    requires forall i :: 0 <= i < |s| ==> s[i] != 0
    ensures RemoveZeros(s) == s
  {
    if s != [] {
      RemoveZerosIdentity(s[1..]);
      assert s == [s[0]] + s[1..];
    }
  }

  /** Removing zeros twice is removing them once. */
  lemma {:induction false} RemoveZerosIdempotent(s: seq<byte>)
    ensures RemoveZeros(RemoveZeros(s)) == RemoveZeros(s)
  {
    RemoveZerosNoZeros(s);
    RemoveZerosIdentity(RemoveZeros(s));
  }

  /** `addAttr` sets the title to the zero-free payload and the data to the
      payload verbatim; repeating a record changes nothing more. */
  lemma {:induction false} MergeAttrLaws(a: AttachmentValue, obj: TnefObject)
    ensures obj.name == ATT_ATTACH_TITLE ==>
              MergeAttr(a, obj).data == a.data
              && multiset(MergeAttr(a, obj).title) == multiset(obj.data)[0 := 0]
              && (forall i :: 0 <= i < |MergeAttr(a, obj).title| ==> MergeAttr(a, obj).title[i] != 0)
    ensures obj.name == ATT_ATTACH_DATA ==> MergeAttr(a, obj) == a.(data := obj.data)
    ensures !IsAttachmentField(obj.name) ==> MergeAttr(a, obj) == a
    ensures MergeAttr(MergeAttr(a, obj), obj) == MergeAttr(a, obj)
  {
    RemoveZerosNoZeros(obj.data);
    RemoveZerosCounts(obj.data);
  }
}
