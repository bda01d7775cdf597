/** A writer for the container format, and proofs that `Decode` reads back
    what it writes: every record as written, and the message that the
    record loop builds from the sequence of records. */
module TnefWire {
  import opened ByteUtil
  import opened Errors
  import opened Mapi
  import opened MapiWire
  import opened Tnef
  import opened TnefLemmas

  /** A record to write: level, name, type, payload and the two checksum
      bytes (which the reader steps over). */
  datatype WireRecord = WireRecord(level: nat, name: nat, attrType: nat,
                                   payload: seq<byte>, checksum: seq<byte>)

  /** The fields fit their widths: 1 byte, 2, 2, and a 4-byte length. */
  predicate RecordEncodable(w: WireRecord)
  {
    && w.level < 0x100
    && w.name < 0x1_0000
    && w.attrType < 0x1_0000
    && |w.payload| < 0x1_0000_0000
    && |w.checksum| == 2
  }

  predicate AllRecordsEncodable(ws: seq<WireRecord>)
  {
    forall i :: 0 <= i < |ws| ==> RecordEncodable(ws[i])
  }

  /** The bytes of one record. */
  function EncodeRecord(w: WireRecord): (r: seq<byte>)
    requires RecordEncodable(w)
    ensures |r| == 11 + |w.payload|
  {
    Pow256Values();
    EncodeLE(w.level, 1) + (EncodeLE(w.name, 2) + (EncodeLE(w.attrType, 2)
    + (EncodeLE(|w.payload|, 4) + (w.payload + w.checksum))))
  }

  function EncodeRecords(ws: seq<WireRecord>): seq<byte>
    requires AllRecordsEncodable(ws)
  {
    if ws == [] then [] else EncodeRecord(ws[0]) + EncodeRecords(ws[1..])
  }

  /** A whole stream: the signature, the 2-byte key, the records. */
  function EncodeStream(key: seq<byte>, ws: seq<WireRecord>): seq<byte>
    requires |key| == 2 && AllRecordsEncodable(ws)
  {
    Pow256Values();
    EncodeLE(TNEF_SIGNATURE, 4) + key + EncodeRecords(ws)
  }

  /** The record the reader makes of a written one. */
  function Record(w: WireRecord): TnefObject
  {
    TnefObject(w.level, w.name, w.attrType, w.payload, 11 + |w.payload|)
  }

  function Records(ws: seq<WireRecord>): (r: seq<TnefObject>)
    ensures |r| == |ws|
    ensures forall i :: 0 <= i < |ws| ==> r[i] == Record(ws[i])
  {
    if ws == [] then [] else [Record(ws[0])] + Records(ws[1..])
  }

  /** The record loop over a list of records already read: each pass in
      turn, stopping at the first failure. */
  function Apply(m: Message, objs: seq<TnefObject>): Result<Message>
    decreases |objs|
  {
    if objs == [] then Ok(m)
    else
      var next :- Step(m, objs[0]);
      Apply(next, objs[1..])
  }

  /** The number of rendering records in a list. */
  function CountRendData(objs: seq<TnefObject>): (r: nat)
    ensures r <= |objs|
  {
    if objs == [] then 0
    else (if objs[0].name == ATT_ATTACH_REND_DATA then 1 else 0) + CountRendData(objs[1..])
  }

  /** `decodeTNEFObject` reads back a written record, whatever follows it. */
  lemma {:induction false} RecordRoundTrip(w: WireRecord, rest: seq<byte>)
    requires RecordEncodable(w)
    ensures DecodeTnefObject(EncodeRecord(w) + rest) == Ok(Record(w))
  {
    Pow256Values();
    var s := EncodeRecord(w) + rest;
    var r4 := w.payload + w.checksum;
    var r3 := EncodeLE(|w.payload|, 4) + r4;
    var r2 := EncodeLE(w.attrType, 2) + r3;
    var r1 := EncodeLE(w.name, 2) + r2;
    assert s[0..|EncodeRecord(w)|] == EncodeRecord(w);
    SplitSlice(s, 0, EncodeLE(w.level, 1), r1, 1);
    SplitSlice(s, 1, EncodeLE(w.name, 2), r2, 3);
    SplitSlice(s, 3, EncodeLE(w.attrType, 2), r3, 5);
    SplitSlice(s, 5, EncodeLE(|w.payload|, 4), r4, 9);
    SplitSlice(s, 9, w.payload, w.checksum, 9 + |w.payload|);
    ReadEncoded(s, 0, w.level, 1);
    ReadEncoded(s, 1, w.name, 2);
    ReadEncoded(s, 3, w.attrType, 2);
    ReadEncoded(s, 5, |w.payload|, 4);
  }

  /** A buffer holding a written record at the cursor reads it back there. */
  lemma {:induction false} RecordAt(data: seq<byte>, offset: nat, w: WireRecord)
    requires RecordEncodable(w)
    requires Holds(data, offset, EncodeRecord(w))
    ensures DecodeTnefObject(data[offset..]) == Ok(Record(w))
  {
    var end := offset + |EncodeRecord(w)|;
    assert data[offset..] == EncodeRecord(w) + data[end..];
    RecordRoundTrip(w, data[end..]);
  }

  /** The record loop over a buffer that ends with written records is the
      loop over those records. */
  lemma {:induction false} WalkRecords(data: seq<byte>, offset: nat, m: Message, ws: seq<WireRecord>)
    requires AllRecordsEncodable(ws)
    requires Holds(data, offset, EncodeRecords(ws))
    requires offset + |EncodeRecords(ws)| == |data|
    ensures Walk(data, offset, m) == Apply(m, Records(ws))
    decreases |ws|
  {
    if ws == [] {
      assert Walk(data, offset, m) == Ok(m);
    } else {
      var w := ws[0];
      var next := offset + |EncodeRecord(w)|;
      SplitSlice(data, offset, EncodeRecord(w), EncodeRecords(ws[1..]), next);
      RecordAt(data, offset, w);
      var objs := Records(ws);
      assert objs[0] == Record(w) && objs[1..] == Records(ws[1..]);
      if Step(m, Record(w)).Ok? {
        WalkRecords(data, next, Step(m, Record(w)).value, ws[1..]);
      }
      WalkApply(data, offset, m, Record(w), objs, next);
    }
  }

  /** The record loop over a buffer agrees with the loop over a list whose
      first record is the one at the cursor, once the rests agree. */
  lemma {:induction false} WalkApply(data: seq<byte>, offset: nat, m: Message, obj: TnefObject, objs: seq<TnefObject>,
                  next: nat)
    requires offset < |data| && DecodeTnefObject(data[offset..]) == Ok(obj)
    requires objs != [] && objs[0] == obj
    requires next == offset + obj.length
    requires Step(m, obj).Ok? ==> Walk(data, next, Step(m, obj).value) == Apply(Step(m, obj).value, objs[1..])
    ensures Walk(data, offset, m) == Apply(m, objs)
  {
    match Step(m, obj)
    case Err(e) =>
      WalkStepFails(data, offset, m, obj, e);
      ApplyStepFails(m, objs, e);
    case Ok(m') =>
      WalkStep(data, offset, m, obj, m');
      ApplyStep(m, objs, m');
  }

  /** A pass that fails ends the loop with its error. */
  lemma {:induction false} ApplyStepFails(m: Message, objs: seq<TnefObject>, e: Error)
    requires objs != [] && Step(m, objs[0]) == Err(e)
    ensures Apply(m, objs) == Err(e)
  {
  }

  /** A pass that succeeds hands its message to the rest of the loop. */
  lemma {:induction false} ApplyStep(m: Message, objs: seq<TnefObject>, m': Message)
    requires objs != [] && Step(m, objs[0]) == Ok(m')
    ensures Apply(m, objs) == Apply(m', objs[1..])
  {
  }

  /** `Decode` inverts the writer: a written stream decodes to what the
      loop builds from its records, starting from the empty message. */
  lemma {:induction false} StreamRoundTrip(key: seq<byte>, ws: seq<WireRecord>)
    requires |key| == 2 && AllRecordsEncodable(ws)
    ensures DecodeSpec(EncodeStream(key, ws)) == Apply(EMPTY_MESSAGE, Records(ws))
  {
    Pow256Values();
    var data := EncodeStream(key, ws);
    var records := EncodeRecords(ws);
    assert data[..4] == EncodeLE(TNEF_SIGNATURE, 4);
    assert data[6..6 + |records|] == records;
    WalkRecords(data, 6, EMPTY_MESSAGE, ws);
  }

  /** One new attachment per rendering record, whatever its level: a loop
      that succeeds ends with as many more attachments as it met rendering
      records, and the attachments it started with are unchanged except the
      newest. */
  lemma {:induction false} ApplyAttachmentCount(m: Message, objs: seq<TnefObject>)
    requires Apply(m, objs).Ok?
    ensures |Apply(m, objs).value.attachments| == |m.attachments| + CountRendData(objs)
    ensures forall i :: 0 <= i < |m.attachments| - 1 ==>
              Apply(m, objs).value.attachments[i] == m.attachments[i]
    decreases |objs|
  {
    if objs != [] {
      var next := Step(m, objs[0]).value;
      StepAttachments(m, objs[0], next);
      ApplyAttachmentCount(next, objs[1..]);
    }
  }

  /** The records that carry one attached file: a rendering record that
      opens the attachment, then its title and its data record. */
  function FileRecords(title: seq<byte>, content: seq<byte>): seq<WireRecord>
  {
    [WireRecord(LVL_ATTACHMENT, ATT_ATTACH_REND_DATA, 0, [], [0, 0]),
     WireRecord(LVL_ATTACHMENT, ATT_ATTACH_TITLE, 1, title, [0, 0]),
     WireRecord(LVL_ATTACHMENT, ATT_ATTACH_DATA, 6, content, [0, 0])]
  }

  /** The records of a list of files (title, content), one file after another. */
  function AttachmentRecords(files: seq<(seq<byte>, seq<byte>)>): seq<WireRecord>
    decreases |files|
  {
    if files == [] then []
    else AttachmentRecords(files[..|files| - 1]) + FileRecords(files[|files| - 1].0, files[|files| - 1].1)
  }

  /** Every title and content fits the 4-byte length field. */
  predicate FilesFit(files: seq<(seq<byte>, seq<byte>)>)
  {
    forall i :: 0 <= i < |files| ==> |files[i].0| < 0x1_0000_0000 && |files[i].1| < 0x1_0000_0000
  }

  /** The attachments a reader should see for a list of files: one per
      file, in order, with the title stripped of zero bytes and the content
      as it was written. */
  function FileAttachments(files: seq<(seq<byte>, seq<byte>)>): (r: seq<AttachmentValue>)
    ensures |r| == |files|
    ensures forall i :: 0 <= i < |files| ==> r[i] == AttachmentValue(RemoveZeros(files[i].0), files[i].1)
    decreases |files|
  {
    if files == [] then []
    else FileAttachments(files[..|files| - 1])
         + [AttachmentValue(RemoveZeros(files[|files| - 1].0), files[|files| - 1].1)]
  }

  /** The read records of two written lists are those of each in turn. */
  lemma {:induction false} RecordsAppend(a: seq<WireRecord>, b: seq<WireRecord>)
    ensures Records(a + b) == Records(a) + Records(b)
  {
    assert forall i :: 0 <= i < |a| + |b| ==> (a + b)[i] == if i < |a| then a[i] else b[i - |a|];
  }

  /** The record loop over two lists runs the first, then the second from
      where the first left off. */
  lemma {:induction false} ApplyAppend(m: Message, a: seq<TnefObject>, b: seq<TnefObject>)
    ensures Apply(m, a + b) == (match Apply(m, a) case Ok(m') => Apply(m', b) case Err(e) => Err(e))
    decreases |a|
  {
    if a == [] {
      assert a + b == b;
    } else {
      assert (a + b)[0] == a[0] && (a + b)[1..] == a[1..] + b;
      if Step(m, a[0]).Ok? {
        ApplyAppend(Step(m, a[0]).value, a[1..], b);
      }
    }
  }

  /** The three records of one file append exactly the attachment that
      holds it, and change nothing else. */
  lemma {:induction false} FileRecordsAppend(m: Message, title: seq<byte>, content: seq<byte>)
    ensures Apply(m, Records(FileRecords(title, content)))
            == Ok(m.(attachments := m.attachments + [AttachmentValue(RemoveZeros(title), content)]))
  {
    var ws := FileRecords(title, content);
    var o0, o1, o2 := Record(ws[0]), Record(ws[1]), Record(ws[2]);
    assert Records(ws) == [o0, o1, o2];
    var atts := m.attachments;
    var m1 := m.(attachments := atts + [AttachmentValue([], [])]);
    var named := AttachmentValue(RemoveZeros(title), []);
    var m2 := m.(attachments := atts + [named]);
    var m3 := m.(attachments := atts + [named.(data := content)]);
    assert (atts + [AttachmentValue([], [])])[..|atts|] == atts;
    assert Step(m, o0) == Ok(m1);
    assert Step(m1, o1) == Ok(m2);
    assert (atts + [named])[..|atts|] == atts;
    assert Step(m2, o2) == Ok(m3);
    ApplyStep(m, [o0, o1, o2], m1);
    assert [o0, o1, o2][1..] == [o1, o2];
    ApplyStep(m1, [o1, o2], m2);
    assert [o1, o2][1..] == [o2];
    ApplyStep(m2, [o2], m3);
    assert [o2][1..] == [];
  }

  /** The records of the files can be written. */
  lemma {:induction false} AttachmentRecordsEncodable(files: seq<(seq<byte>, seq<byte>)>)
    requires FilesFit(files)
    ensures AllRecordsEncodable(AttachmentRecords(files))
    decreases |files|
  {
    if files != [] {
      var init := files[..|files| - 1];
      assert forall i :: 0 <= i < |init| ==> init[i] == files[i];
      AttachmentRecordsEncodable(init);
    }
  }

  /** The record loop over the files' records appends one attachment per
      file, in order. */
  lemma {:induction false} AttachmentRecordsDecode(m: Message, files: seq<(seq<byte>, seq<byte>)>)
    ensures Apply(m, Records(AttachmentRecords(files)))
            == Ok(m.(attachments := m.attachments + FileAttachments(files)))
    decreases |files|
  {
    if files == [] {
      assert m.attachments + [] == m.attachments;
    } else {
      var init := files[..|files| - 1];
      var (title, content) := files[|files| - 1];
      RecordsAppend(AttachmentRecords(init), FileRecords(title, content));
      ApplyAppend(m, Records(AttachmentRecords(init)), Records(FileRecords(title, content)));
      AttachmentRecordsDecode(m, init);
      var mid := m.(attachments := m.attachments + FileAttachments(init));
      FileRecordsAppend(mid, title, content);
      assert m.attachments + FileAttachments(init) + [AttachmentValue(RemoveZeros(title), content)]
          == m.attachments + FileAttachments(files);
    }
  }

  /** A stream that writes a list of files as attachments decodes to one
      attachment per file, in order, each with the file's title stripped
      of zero bytes and the file's content; nothing else is set. */
  lemma {:induction false} AttachmentsRoundTrip(key: seq<byte>, files: seq<(seq<byte>, seq<byte>)>)
    requires |key| == 2 && FilesFit(files)
    ensures AllRecordsEncodable(AttachmentRecords(files))
    ensures DecodeSpec(EncodeStream(key, AttachmentRecords(files)))
            == Ok(EMPTY_MESSAGE.(attachments := FileAttachments(files)))
  {
    AttachmentRecordsEncodable(files);
    var ws := AttachmentRecords(files);
    StreamRoundTrip(key, ws);
    AttachmentRecordsDecode(EMPTY_MESSAGE, files);
    assert [] + FileAttachments(files) == FileAttachments(files);
  }

  /** Two files with content decode to two attachments, each holding data:
      the two conditions a test of a two-attachment file checks. */
  lemma {:induction false} TwoAttachmentsExample(t1: seq<byte>, c1: seq<byte>, t2: seq<byte>, c2: seq<byte>)
    requires |t1| < 0x1_0000_0000 && |c1| < 0x1_0000_0000
    requires |t2| < 0x1_0000_0000 && |c2| < 0x1_0000_0000
    ensures AllRecordsEncodable(AttachmentRecords([(t1, c1), (t2, c2)]))
    ensures var r := DecodeSpec(EncodeStream([0, 0], AttachmentRecords([(t1, c1), (t2, c2)])));
            && r.Ok?
            && |r.value.attachments| == 2
            && r.value.attachments[0] == AttachmentValue(RemoveZeros(t1), c1)
            && r.value.attachments[1] == AttachmentValue(RemoveZeros(t2), c2)
            && (c1 != [] && c2 != [] ==> forall a :: a in r.value.attachments ==> |a.data| > 0)
  {
    var files := [(t1, c1), (t2, c2)];
    AttachmentsRoundTrip([0, 0], files);
  }

  /** The title `a\0` loses its zero byte. */
  lemma {:induction false} TitleExample()
    ensures RemoveZeros([0x61, 0]) == [0x61]
  {
    assert [0x61 as byte, 0][1..] == [0] && [0 as byte][1..] == [];
  }
}
