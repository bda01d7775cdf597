# A verified model of the `tnef` decoder

`tnef` is a Go package that reads Microsoft TNEF (Transport Neutral
Encapsulation Format, the `winmail.dat` attachment). A TNEF stream has
three parts:

- a 4-byte signature (`0x223e9f78`);
- a 2-byte key that the package does not read;
- a sequence of records.

Each record has these fields, in order:

- a 1-byte level;
- a 2-byte name;
- a 2-byte type;
- a 4-byte payload length;
- the payload;
- a 2-byte checksum.

`Decode` walks the records and acts on each one:

- A rendering record (`ATTATTACHRENDDATA`) opens a new attachment.
- An attachment-level record fills in the newest attachment (`Attachment.addAttr`): a title record sets its file name with the zero bytes removed, a data record sets its contents, and other records do nothing.
- A message-level `ATTMAPIPROPS` record carries a MAPI property list. The property reader (`decodeMapi`) decodes it, and `Decode` takes the plain-text and the HTML body from that list.

Each MAPI property has:

- a type code, which may carry the multi-value flag `0x1000`;
- a name;
- a GUID block, for extended names `0x8000..0xFFFE`;
- a value count, when the property is multi-valued or of a variable-length type;
- its values, each one padded to a multiple of 4 bytes.

The model is split into modules:

| module | contents |
|---|---|
| `Errors` | the error kinds and a `Result` type. Every Go slice expression that would panic becomes `Err(Truncated)`. A write through the nil attachment pointer becomes `Err(NoAttachment)`. |
| `ByteUtil` | `byteToInt` as a loop (`ByteToInt`), proved to compute the little-endian value `LittleEndian`. Also the bounded read `ReadUint` and the encoder `EncodeLE`. |
| `Mapi` | the property reader. `Values`, `Property`, `Properties` and `MapiProperties` are functions that follow `decodeMapi` branch by branch. The methods `DecodeMapi`, `ReadProperty`, `ReadNameBlock` and `ReadValues` keep the Go loops and are proved equal to those functions. |
| `MapiLemmas` | what the property reader guarantees: the layout, the alignment, well-formedness of the result and the error classes. |
| `MapiWire` | an encoder for property lists, and the round trip `MapiProperties(EncodeMapi(ps)) == Ok(DecodedAll(ps))`. |
| `Tnef` | the container reader. `DecodeTnefObject` reads one record. `Step` is one pass of the record loop, `Walk` is the loop and `DecodeSpec` is the whole of `Decode`. The classes `Attachment` and `Data` hold the state that `Decode` updates through shared pointers. The method `Decode` keeps the loop and is proved to produce `DecodeSpec(data)`. |
| `TnefLemmas` | the record layout, what each kind of record does to the message, the error classes, and the title clean-up. |
| `TnefWire` | an encoder for records and streams, and the round trip from a written stream back to the records. There is also a theorem for streams that carry a list of files as attachments. |

The core follows Go's semantics in these places:

- **Offsets and lengths** are unbounded naturals.
- **Platform.** Go's `int` is taken to be 64 bits wide, as on 64-bit platforms.
- **GUID field.** `byteToInt` of a 16-byte GUID in a 64-bit `int` keeps only the low 8 bytes and wraps them into the signed range. `GuidValue` models this.
- **Tail padding.** `(-n) & 3` is `Pad(n) == (4 - n % 4) % 4`.

## Model

| member | source | states |
|---|---|---|
| `ByteUtil.ByteToInt` | util.go:3-11 | The loop returns the little-endian value of the bytes, which is below 256^len. The empty slice gives 0 and one byte gives that byte. |
| `ByteUtil.LittleEndianAppend` | util.go:6-9 | One more iteration adds the new byte shifted by 8 times the number of bytes before it. |
| `ByteUtil.LittleEndianBound` | util.go:3-11 | The result of `byteToInt` on k bytes is below 256^k, and one byte reads as itself. |
| `ByteUtil.EncodeLE` | util.go:3-11 | The inverse of `byteToInt`: k bytes whose little-endian value is v. |
| `ByteUtil.EncodeLittleEndian` | util.go:3-11 | Re-encoding the value of k bytes gives back the same k bytes. |
| `ByteUtil.ReadUint` | util.go:3-11 | A `byteToInt(data[o:o+w])` succeeds exactly when the slice is in bounds, and its value is below 256^w. |
| `Mapi.TypeSizeTable` | mapi.go:93-107 | `getTypeSize` gives -1 exactly for the four string, object and binary codes. It gives 2, 4, 8 or 16 exactly for the listed fixed-size codes, and 0 for every other code. |
| `Mapi.ClearMultiValueFlag` | mapi.go:30-31 | The cleared code has no multi-value bit, and it differs from the raw code by exactly that bit. |
| `Mapi.Pad` | mapi.go:56 | `(-n) & 3` is below 4 and brings n to a multiple of 4. |
| `Mapi.GuidValueRange` | mapi.go:41-43 | The GUID field is a signed 64-bit value congruent, modulo 2^64, to the low 8 bytes of the block. |
| `Mapi.ValueLength` | mapi.go:74-78 | A variable-length value's length is read from a 4-byte field and the cursor moves past it. A fixed-size value has the type size and the cursor stays put. |
| `Mapi.TypeSize` | mapi.go:93-107 | `getTypeSize`: the byte size of one value of a base type. -1 marks the variable-length kinds and 0 the codes the table does not list. `Mapi.TypeSizeTable` states the table. |
| `Mapi.HasMultiValueFlag` | mapi.go:30 | `(attrType & mvFlag) != 0`: bit 12 of the raw type code is set. |
| `Mapi.GuidValue` | mapi.go:43 | `byteToInt` of the 16-byte GUID block in a 64-bit `int`. Only the low 8 bytes contribute, wrapped into the signed range; `Mapi.GuidValueRange` states this. |
| `Mapi.NameBlock` | mapi.go:41-58 | The GUID block of an extended name: the GUID, then the kind, then 4 bytes for kind 0 or a length-prefixed, padded id for kind 1. A plain name has no block. `MapiLemmas.NameBlockLayout` states the offsets. |
| `Mapi.ValueCount` | mapi.go:60-65 | A multi-valued property reads a 4-byte count; any other property has exactly one value and reads nothing. |
| `Mapi.Values` | mapi.go:71-85 | The inner loop: count values, each with its length field for variable-length kinds, its bytes and its padding. The bytes are run together, and a slice past the end fails as truncated. `MapiLemmas.ValuesShape`, `MapiLemmas.ValuesErrors` and `MapiWire.ValuesRoundTrip` state its properties. |
| `Mapi.Property` | mapi.go:27-87 | One non-skipped iteration of the outer loop, reading in source order: type, flag, name, GUID block, count, guard, values. `MapiLemmas.PropertyWellFormed`, `MapiLemmas.PropertyErrors` and `MapiWire.PropertyRoundTrip` state its properties. |
| `Mapi.Properties` | mapi.go:22-88 | The outer loop: when the cursor has reached the end of the payload an iteration is skipped, otherwise a property is read and appended, and the first error aborts. |
| `Mapi.MapiProperties` | mapi.go:17-20 | A payload shorter than the 4-byte count fails as truncated. |
| `Mapi.MapiPropertiesCount` | mapi.go:19-22 | The outer loop runs exactly the number of iterations in the count field. |
| `Mapi.PropertiesStep` | mapi.go:22-88 | An iteration that does not skip either aborts the whole list with the property's error, or appends the property and continues after it. |
| `Mapi.PropertiesSkip` | mapi.go:23-25 | Once the cursor is at or past the end, an iteration only uses up the counter. |
| `Mapi.PropertiesCons` | mapi.go:22-88 | A property followed by a successfully read rest is the head of the list. |
| `Mapi.PropertiesUncons` | mapi.go:22-88 | A non-empty successful list starts with the property at the cursor and continues after it. |
| `Mapi.ValuesCons` | mapi.go:73-85 | A value in bounds contributes exactly its bytes, and the next value starts after its padding. |
| `Mapi.PropertyFromParts` | mapi.go:27-87 | The fields read in order give the property with the flag-cleared type, the name, the values' bytes and the GUID. |
| `Mapi.ValuesStep` | mapi.go:73-85 | The inner loop's accumulator grows by exactly the slice `data[start:start+length]`. |
| `Mapi.ValuesTruncated` | mapi.go:76-81 | A missing length field, or a value reaching past the end, fails as truncated. |
| `Mapi.DecodeMapi` | mapi.go:15-91 | The method with both loops returns exactly `MapiProperties(data)`. |
| `Mapi.ReadProperty` | mapi.go:27-87 | One iteration of the outer loop returns exactly `Property(data, offset)`. |
| `Mapi.ReadNameBlock` | mapi.go:41-58 | The GUID block returns exactly `NameBlock`. |
| `Mapi.ReadValues` | mapi.go:71-85 | The inner loop returns exactly `Values`. |
| `MapiLemmas.NameBlockLayout` | mapi.go:41-58 | A plain name reads no GUID block. An extended name reads a 16-byte GUID then a 4-byte kind. Kind 0 skips 4 bytes, kind 1 skips a length-prefixed id and its padding, and any other kind skips nothing more. |
| `MapiLemmas.PropertyWellFormed` | mapi.go:27-87 | A decoded property has a 16-bit type with the flag cleared, a 16-bit name, and a zero GUID unless its name is extended. The cursor moves at least 4 bytes. |
| `MapiLemmas.ValuesShape` | mapi.go:71-85 | The value loop moves the cursor forward by a multiple of 4 and never yields more bytes than it moved over. |
| `MapiLemmas.ValuesAligned` | mapi.go:71-85 | The value loop moves the cursor forward by a multiple of 4. |
| `MapiLemmas.ValuesSpan` | mapi.go:71-85 | The value loop yields at most as many bytes as it moved over. |
| `MapiLemmas.PropertiesShape` | mapi.go:22-88 | The list never has more entries than the loop has iterations. |
| `MapiLemmas.PropertiesWellFormed` | mapi.go:22-88 | Every property of a successful list is well formed. |
| `MapiLemmas.PropertiesWellFormedStep` | mapi.go:27-88 | An iteration that reads a property puts a well-formed property in front of a well-formed rest. |
| `MapiLemmas.MapiPropertiesWellFormed` | mapi.go:15-91 | A successful decode had a count field, has at most that many properties, and each of them is well formed. |
| `MapiLemmas.PropertiesPastEnd` | mapi.go:23-25 | Iterations that start past the end of the payload yield an empty list. Surplus count is skipped, not an error. |
| `MapiLemmas.FixedSizeValues` | mapi.go:71-85 | For a fixed-size type, count values take exactly count * size bytes. The cursor moves by count times size plus padding. |
| `MapiLemmas.SingleFixedSizeProperty` | mapi.go:27-87 | An unflagged fixed-size property has exactly one value of the type's size, followed by its padding. |
| `MapiLemmas.ImplausibleCount` | mapi.go:27-69 | Once the type, the name, the GUID block of an extended name and the value count have been read, a count above 1024 that also exceeds the payload length fails the property with that count. This holds for plain and extended names alike. |
| `MapiLemmas.CountTooLargeIsImplausible` | mapi.go:67-69 | The count error is raised only for such a count. |
| `MapiLemmas.ValuesErrors` | mapi.go:71-85 | The value loop fails only by reaching past the end. |
| `MapiLemmas.PropertyErrorAborts` | mapi.go:22-88 | A failing property fails the whole list with its error. |
| `MapiLemmas.PropertyErrors` | mapi.go:27-87 | A property fails only as truncated or with an implausible count. |
| `MapiLemmas.PropertiesErrors` | mapi.go:22-88 | So does the property loop. |
| `MapiLemmas.MapiErrors` | mapi.go:15-91 | So does `decodeMapi`. |
| `MapiWire.EncodeValue` | mapi.go:74-84 | A written value takes its length field, its bytes and its padding. |
| `MapiWire.EncodeValues` | mapi.go:71-85 | Written values take the sum of their sizes. |
| `MapiWire.CountField` | mapi.go:60-65 | A count field is written exactly when the reader expects one. |
| `MapiWire.EncodeProperty` | mapi.go:27-87 | A written property takes type, name, count field and values. |
| `MapiWire.DecodedAll` | mapi.go:87 | One attribute per written property. |
| `MapiWire.ReadEncoded` | util.go:3-11 | A field written with `EncodeLE` and read back with `byteToInt` gives the value written. |
| `MapiWire.ValuesReadStep` | mapi.go:71-85 | A value laid out at the cursor is read, and the loop continues after it. |
| `MapiWire.ValuesRead` | mapi.go:71-85 | Values laid out from the cursor are read back run together, and the cursor ends after the last padding. |
| `MapiWire.PropertyRead` | mapi.go:27-87 | A property laid out at the cursor is read back as its decoded form, and the cursor ends after it. |
| `MapiWire.PropertiesReadStep` | mapi.go:22-88 | A property laid out at the cursor followed by a readable rest is read as the list's head. |
| `MapiWire.PropertiesRead` | mapi.go:22-88 | Properties laid out from the cursor are read back in order. |
| `MapiWire.EncodedValueAt` | mapi.go:74-84 | Encoded bytes place the value where the reader looks for it. |
| `MapiWire.EncodedValuesAt` | mapi.go:71-85 | Encoded bytes place each value where the reader looks for it. |
| `MapiWire.ValuesRoundTrip` | mapi.go:71-85 | Reading written values gives their bytes run together and the offset after them. |
| `MapiWire.CountFieldRead` | mapi.go:60-65 | Reading a written count gives the number of values. |
| `MapiWire.EncodedPropertyAt` | mapi.go:27-87 | An encoded property lays out its fields where the reader looks for them. |
| `MapiWire.PropertyRoundTrip` | mapi.go:27-87 | Reading a written property gives its decoded form and the offset after it. |
| `MapiWire.EncodedPropertiesAt` | mapi.go:22-88 | An encoded list lays out each property after the previous one. |
| `MapiWire.EncodedPropertiesSplit` | mapi.go:22-88 | An encoded list is its first property followed by the encoded rest. |
| `MapiWire.MapiRoundTrip` | mapi.go:15-91 | `decodeMapi` of an encoded list returns the decoded properties in order. |
| `MapiWire.MapiReadBack` | mapi.go:15-91 | The same holds when the count and the properties only make up a prefix of the buffer. |
| `MapiWire.VariableValueSize` | mapi.go:74-84 | A variable-length value takes 4 + length + padding bytes, always a multiple of 4 (for example 5 bytes take 12). |
| `MapiWire.ShortPropertyExample` | mapi.go:27-87 | A single 2-byte `szmapiShort` property is read back with its name, its value and GUID 0. |
| `Tnef.RemoveZeros` | tnef.go:84 | `strings.Replace(..., "\x00", "", -1)` on the title bytes: every zero byte removed. The `TnefLemmas.RemoveZeros*` lemmas state its properties. |
| `Tnef.MergeAttr` | tnef.go:81-88 | `addAttr` on values: a title record sets the zero-free title, a data record sets the data, and any other name changes nothing. `TnefLemmas.MergeAttrLaws` states this. |
| `Tnef.LastData` | tnef.go:132-139 | The scan over the properties for one name: each matching property overwrites the value in turn. `TnefLemmas.LastDataIsLast` states the result. |
| `Tnef.WithAttributes` | tnef.go:126-139 | A message-level property list replaces the attributes and sets the body and HTML body by that scan. |
| `Tnef.Step` | tnef.go:119-140 | The branches of the loop body in source order: a rendering record, then an attachment-level record, then a message-level `ATTMAPIPROPS` record. A nil attachment written by a title or data record fails. `TnefLemmas.StepFails` and `TnefLemmas.StepAttachments` state its effect. |
| `Tnef.Walk` | tnef.go:115-141 | The record loop: while the cursor is before the end, read a record, dispatch it, and advance by its length. The first error aborts. |
| `Tnef.DecodeSpec` | tnef.go:103-144 | `Decode`: `ErrNoMarker` unless the stream starts with the signature, otherwise the record loop from offset 6 over the empty message. `Tnef.Decode` is proved to compute it. |
| `Tnef.DecodeTnefObject` | tnef.go:146-164 | A record's length is its payload plus the 11 header and checksum bytes. |
| `Tnef.WalkStep` | tnef.go:115-141 | A record that is read and dispatched moves the loop past it, with the updated message. |
| `Tnef.WalkStepFails` | tnef.go:125-129 | A failing dispatch fails the whole decode with its error. |
| `Tnef.WalkRecordFails` | tnef.go:116 | A record that cannot be read fails the whole decode. |
| `Tnef.Attachment.constructor` | tnef.go:120 | `new(Attachment)` has no title and no data. |
| `Tnef.Attachment.AddAttr` | tnef.go:81-88 | The new attachment is `MergeAttr` of the old one: a title record sets the title with zeros removed, a data record sets the data, and other records change nothing. |
| `Tnef.AttachmentValues` | tnef.go:77 | One value per attachment pointer, in order. |
| `Tnef.Data.constructor` | tnef.go:111-113 | The new message is empty, with no attachments. |
| `Tnef.Data.TakeAttributes` | tnef.go:126-139 | The property list is replaced. The body and HTML body become those of the last matching property, or stay as they were. The attachments are untouched. |
| `Tnef.Dispatch` | tnef.go:119-140 | The state after one record is `Step` of the old state, or the method fails with `Step`'s error. The attachment pointers stay distinct, the returned pointer is the newest one, and a new attachment is a fresh object appended to the list. |
| `Tnef.OpenAttachment` | tnef.go:120-121 | A fresh empty attachment is appended to the list. The pointers stay distinct and the message gains exactly one empty attachment. |
| `Tnef.UpdateNewest` | tnef.go:122-123 | Only the newest attachment changes, and it becomes `MergeAttr` of itself and the record. |
| `Tnef.AppendValue` | tnef.go:121 | Appending a pointer appends its value. |
| `Tnef.DecodeStep` | tnef.go:116-140 | One loop iteration either fails as the rest of the decode would, or moves the cursor forward and leaves the rest of the decode unchanged. |
| `Tnef.Decode` | tnef.go:103-144 | The method fails exactly as `DecodeSpec` does, and otherwise returns an object whose value is `DecodeSpec(data)`. |
| `TnefLemmas.RecordLayout` | tnef.go:146-164 | A record can be read exactly when its 9 header bytes and its payload are present. Its fields are level, name, type and length in that order, its payload is the next length bytes, and every failure is truncation. |
| `TnefLemmas.RecordAdvances` | tnef.go:117 | Every record moves the cursor by at least 11 bytes, so the loop terminates. |
| `TnefLemmas.StepErrors` | tnef.go:119-140 | One pass fails only through the nil attachment or a property-list error. |
| `TnefLemmas.StepFails` | tnef.go:119-140 | In both directions: a pass fails exactly when an attachment-level title or data record comes before any rendering record, or a message-level property list is rejected. The first case is exactly the `NoAttachment` error. |
| `TnefLemmas.StepAttachments` | tnef.go:119-123 | A rendering record appends one empty attachment and no other record changes the count. Earlier attachments never change, and an attachment-level record is merged into the newest one. Message-level records other than `ATTMAPIPROPS` leave everything as it was. |
| `TnefLemmas.StepProperties` | tnef.go:124-139 | A message-level `ATTMAPIPROPS` record stores exactly the decoded property list, keeps the attachments, and updates the bodies from that list. |
| `TnefLemmas.LastDataIsLast` | tnef.go:132-139 | The body loop leaves the old value when no property has the name. Otherwise it yields the data of the last property with that name. |
| `TnefLemmas.WithAttributesBody` | tnef.go:132-139 | The last `MAPIBody` or `MAPIBodyHTML` property sets the corresponding body. |
| `TnefLemmas.WithAttributesKeeps` | tnef.go:132-139 | A list without a body property keeps the old body. |
| `TnefLemmas.WalkErrors` | tnef.go:115-141 | The record loop never reports a missing marker. |
| `TnefLemmas.MarkerCheck` | tnef.go:104-106 | `Decode` reports `ErrNoMarker` exactly when the stream is shorter than 4 bytes or does not start with the signature. |
| `TnefLemmas.HeaderOnly` | tnef.go:103-115 | A signature with at most the key after it decodes to an empty message. |
| `TnefLemmas.RemoveZerosNoZeros` | tnef.go:84 | The cleaned title contains no zero byte. |
| `TnefLemmas.RemoveZerosCounts` | tnef.go:84 | It keeps every other byte with its multiplicity. |
| `TnefLemmas.RemoveZerosAppend` | tnef.go:84 | Removal distributes over concatenation, so the order of the kept bytes is preserved. |
| `TnefLemmas.RemoveZerosIdentity` | tnef.go:84 | A title without zeros is kept as it is. |
| `TnefLemmas.RemoveZerosIdempotent` | tnef.go:84 | Cleaning twice is cleaning once. |
| `TnefLemmas.MergeAttrLaws` | tnef.go:81-88 | A title record keeps the data and sets a zero-free title with the payload's other bytes. A data record sets just the data and other names change nothing. Applying the same record twice is the same as once. |
| `TnefWire.EncodeRecord` | tnef.go:146-164 | A written record takes its payload plus 11 bytes. |
| `TnefWire.Records` | tnef.go:146-164 | The records the reader makes of written ones, one each, in order. |
| `TnefWire.CountRendData` | tnef.go:119-121 | The number of rendering records is at most the number of records. |
| `TnefWire.RecordRoundTrip` | tnef.go:146-164 | Reading a written record, whatever follows it, gives its level, name, type, payload and length. |
| `TnefWire.RecordAt` | tnef.go:116 | The same read at any cursor where the record's bytes sit. |
| `TnefWire.WalkRecords` | tnef.go:115-141 | The record loop over written records acts as the dispatch applied to them in order. |
| `TnefWire.WalkApply` | tnef.go:115-141 | One step of that correspondence. |
| `TnefWire.ApplyStepFails` | tnef.go:125-129 | A failing record stops the fold with its error. |
| `TnefWire.ApplyStep` | tnef.go:115-141 | A successful record continues the fold with the updated message. |
| `TnefWire.StreamRoundTrip` | tnef.go:103-144 | `Decode` of a written stream (signature, key, records) is the dispatch applied to the records in order. |
| `TnefWire.ApplyAttachmentCount` | tnef.go:119-123 | A successful decode has one attachment per rendering record, and it never alters an attachment older than the newest. |
| `TnefWire.FileAttachments` | tnef.go:119-123 | The attachments expected for a list of files: one per file, in order, holding the zero-free title and the content. |
| `TnefWire.RecordsAppend` | tnef.go:146-164 | The records read from two written lists are those of each list in turn. |
| `TnefWire.ApplyAppend` | tnef.go:115-141 | The record loop over two lists runs the first list, then the second from the message the first produced. |
| `TnefWire.FileRecordsAppend` | tnef.go:119-123 | A rendering record, a title record and a data record append exactly one attachment holding that title and content, and change nothing else. |
| `TnefWire.AttachmentRecordsEncodable` | tnef.go:146-164 | The records of files whose titles and contents fit a 4-byte length can be written. |
| `TnefWire.AttachmentRecordsDecode` | tnef.go:115-141 | The record loop over the files' records appends one attachment per file, in order. |
| `TnefWire.AttachmentsRoundTrip` | tnef.go:103-144 | `Decode` of a stream that writes a list of files decodes to exactly one attachment per file, in order, each with the file's zero-free title and its content. |
| `TnefWire.TwoAttachmentsExample` | tnef_test.go:15-24 | Two files decode to exactly two attachments, the count checked at tnef_test.go:15. When both contents are non-empty, every attachment has data, the condition checked at tnef_test.go:20-24. The fixture that test reads is not part of this model. |
| `TnefWire.TitleExample` | tnef.go:84 | A title with a trailing zero byte loses it. |

## Left out

- `DecodeFile` (tnef.go:92-99) only reads a file from disk and calls `Decode`; file I/O is not modelled.
- Buffer sharing: in Go the decoded byte slices share memory with their sources. An attachment's data aliases the input buffer (tnef.go:86), and the body and HTML body alias the data of the property they came from (tnef.go:135, 137). The model keeps these as values, so the aliasing, and what a later write by the caller into the input would do to them, is not captured. The decoder itself never writes into those buffers.
- Slice capacity: the model treats a Go slice's capacity as its length. `obj.Data` is a reslice of the whole stream, so in Go `decodeMapi` could read past the end of a property payload into the rest of the stream without panicking. The model reports `Truncated` there.
- Panics: Go's out-of-range slice expressions and the nil-pointer write in `addAttr` panic, and `Decode` does not recover them. The model returns the errors `Truncated` and `NoAttachment` instead. The error message texts are not modelled.
- Attachment-level records before the first rendering record call `addAttr` on a nil pointer. Only a title or data record writes through it; any other name returns without touching the attachment, and the model does the same.
- Checksums: the 2 checksum bytes of a record are stepped over, neither read nor bounds-checked. The model does the same. A record whose checksum is cut off is therefore accepted, and the final cursor may pass the end of the stream by 1 or 2 bytes. A well-formed stream ends right after its last checksum, but the code does not check this, and the model follows the code. A corrupted checksum is not detected either, contrary to the expectation of `TestBadChecksum` (tnef_test.go:27-32); that test depends on a fixture file that is not part of this model.
- Integer width: the model takes Go's `int` to be 64 bits wide, as on 64-bit platforms, and every offset and length here is an unbounded `nat`. A 4-byte length cannot make such an offset overflow. On a 32-bit platform `byteToInt` of a 4-byte field would wrap into a negative `int` and the GUID would keep only 4 bytes; the 32-bit behaviour is not modelled. The GUID, the one field where 64-bit wrap-around shows, is modelled exactly as a signed 64-bit value.
- The attachment title is kept as the byte sequence with its zero bytes removed. The conversion to a Go `string`, which keeps the bytes as they are, is not modelled.
- The named constant tables (tnef.go:18-50, mapi.go:133 onward) are represented only by the constants the core uses: the four record names, the two body property names and the MAPI type codes.
- The test fixtures (`testfiles/*.dat`) are binary files that are not part of this model. `TnefWire.AttachmentsRoundTrip` and `TnefWire.TwoAttachmentsExample` state, for streams the model writes itself, the two conditions `TestAttachments` checks.
- `MapiWire.EncodeProperty`: the encoder writes plain names only (not `0x8000..0xFFFE`). Extended names and their GUID block are covered on the reading side by `MapiLemmas.NameBlockLayout`, not by a round trip.
- `TnefWire.EncodeRecord`: the checksum bytes are arbitrary. The reader does not check them, so the round trip holds for any two bytes.
