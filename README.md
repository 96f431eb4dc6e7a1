# TenniS `.tsm` reader and display binding, modelled in Dafny

This project models the part of the TenniS model viewer that reads a `.tsm`
model container and turns it into a display graph.

- **`src/tennis-utils.js`**, the reader:
  - a byte cursor (`tennis.Stream`) over a little-endian buffer;
  - the dtype tables;
  - tensors with their lazily decoded and cached value, and `Pack`;
  - nodes with their reserved `#name`/`#op`/`#shape`/`#dtype` parameters;
  - `Prototype.toString`;
  - `Module`: it checks the magic number at byte 4, skips 120 reserved
    bytes, reads the global input and output index arrays and the node
    table, then links the nodes.
- **`src/tennis.js`**, the display layer built on the reader:
  - `ModelFactory.match` and the error rewriting of `_openModel`;
  - the `Graph` constructor, which hides `<param>` and `<const>` nodes;
  - the positional binding of node inputs and outputs to schema slots;
  - `Argument`'s type setter;
  - `TensorShape` and `TensorType.toString`;
  - the bounds-checked `Weights` header reader;
  - the operator-schema map, with its memoised attribute lookup.

## How the model is built

Each read has two layers:

- A **function** of the buffer and a start offset (`Cursor.Fixed`,
  `Reader.ModuleAt`, …). It returns `Ok(Got(value, next))` or `Fail(error)`.
- An **imperative method** that does the read. The JS objects that change
  state are Dafny classes:
  - `Streams.Stream` moves `offset`;
  - `Tensors.CachedTensor` fills its value cache;
  - `Schemas.Metadata` fills its attribute cache;
  - `WeightsFile.Weights` moves `position`.

  Each method is proved to return what the function returns and to move
  the offset to where the function says.

A JS exception is a `Fail(Error(name, message))`. The name and message are
the ones the source produces, with one exception: the reader's three
`throw tennis.Error(...)` statements (src/tennis-utils.js:27, 228, 551)
omit `new`, which as written throws a TypeError that loses the message
(first Findings row below). The model's reader throws the intended
`Results.UtilsError` instead, so the contracts of `Dtype.TypeBytes`,
`Tensors.ValueOf`, `Reader.ModuleAt` and `Display.MatchAgreesWithReader`
state the corrected error. Two other Findings rows are modelled the same
way: the signed INT64 read of `Tensors.ScalarAt` and the corrected `Pack`
that `Reader.TensorAt` uses. The errors are:

| error | when |
|---|---|
| `RangeError` | a `DataView` read out of range |
| `TypeError` | reading a property of `null`/`undefined` |
| "Error running tennis utils." | `tennis.Error` of the reader |
| "Error loading tennis model." | `tennis.Error` of the display layer |

The node table is an arena: a node's inputs and the global inputs and
outputs are indices into the node sequence. `None` stands for JS
`undefined`, which an index outside the table yields. The display layer
dereferences such an index later, and the TypeError it then throws is
modelled.

A count-prefixed loop of the source is the generic `Cursor.Many`: `n`
reads in a row, each starting where the previous one stopped. Lemmas about
`Many` give:

- its span (`ManySpan`);
- its round trip over concatenated encodings (`ManyReadsConcat`);
- its early stop on failure (`ManyStops`).

The loops of the methods keep `Ran(step, start, i, items, offset)` as their
invariant: the first `i` reads from `start` succeed, yield `items` and end at
`offset`.

## Model

| member | source | states |
|---|---|---|
| Results.UtilsError | src/tennis-utils.js:654-659 | the reader's error, built with `new`, carries its message and differs from the display layer's error with the same message |
| Results.UtilsErrorAsWritten | src/tennis-utils.js:27 | `tennis.Error(message)` without `new` throws a TypeError, never the reader's error with that message |
| Results.UtilsErrorAsWrittenLosesMessage | src/tennis-utils.js:654-659 | as written, every reader error is the same TypeError whatever the message; with `new`, different messages give different errors |
| Text.NatText | src/tennis-utils.js:228 | the decimal text of a number is non-empty and all digits |
| Text.NatTextRoundTrip | src/tennis-utils.js:228 | the decimal text of `n` reads back as `n` |
| Text.NatTextInjective | src/tennis-utils.js:427-429 | different ids print differently |
| Text.IntText | src/tennis-utils.js:228 | the text of an integer is non-empty and contains no ',', ':' or ']' |
| Text.IntTextSign | src/tennis.js:450 | the text starts with '-' exactly for negative numbers |
| Text.IntTextInjective | src/tennis.js:450 | different integers print differently |
| Text.JoinShape | src/tennis.js:450 | joining non-empty separator-free parts gives "" only for no parts, and contains the separator only for two or more |
| Text.JoinInjective | src/tennis.js:450 | such a join can be split back into its parts |
| Text.SplitAtFirst | src/tennis-utils.js:427-429 | a string `a + sep + b` with `sep[0]` not in `a` splits uniquely |
| Bytes.Le | src/tennis-utils.js:96-118 | a little-endian unsigned number of `w` bytes is below 256^w |
| Bytes.LeOfEncodeLe | src/tennis-utils.js:96-118 | decoding the `w`-byte little-endian encoding of `n < 256^w` gives `n` |
| Bytes.EncodeLeOfLe | src/tennis-utils.js:96-118 | encoding a decoded byte string gives the bytes back |
| Bytes.LeAppend | src/tennis-utils.js:41-45 | the value of `a + b` is `Le(a) + 256^|a| * Le(b)`, so a low word followed by a high word |
| Bytes.Signed | src/tennis-utils.js:69-91 | the two's-complement reading of `u` lies in `[-256^w/2, 256^w/2)` and maps back to `u` |
| Bytes.SignedOfUnsigned | src/tennis-utils.js:69-91 | every `w`-byte signed value survives the unsigned encoding and the signed reading |
| Bytes.Slice | src/tennis-utils.js:125-131 | `slice(beg, end)` within bounds is exactly `data[beg..end]`, and never longer than the buffer |
| Cursor.Fixed | src/tennis-utils.js:96-118 | an unsigned read succeeds iff the `w` bytes lie in the buffer; it advances by `w` and yields the number whose little-endian encoding is those bytes; otherwise it fails with the DataView RangeError |
| Cursor.IntAt | src/tennis-utils.js:69-91 | a signed read succeeds iff the `w` bytes lie in the buffer and advances by `w`; otherwise it fails with the DataView RangeError |
| Cursor.IntAtIsLe | src/tennis-utils.js:69-91 | a successful signed read lies in the `w`-byte two's-complement range, and the bytes read are its encoding |
| Cursor.Int64At | src/tennis-utils.js:41-45 | `int64` succeeds iff 8 bytes lie in bounds and then advances by 8; out of bounds it throws the RangeError |
| Cursor.Int64AtIsLe | src/tennis-utils.js:41-45 | `int64` (first word low, second word high, both unsigned) is the unsigned little-endian 8-byte read |
| Cursor.Chars | src/tennis-utils.js:146 | `fromCharCode` over an Int8Array maps every byte to one char, in order |
| Cursor.CharOf | src/tennis-utils.js:146 | a byte `b` becomes char code `b` below 128 and `b + 0xFF00` above, and the byte can be recovered |
| Cursor.CharOfByteOf | src/tennis-utils.js:146 | every char that `fromCharCode` can produce from a signed byte comes from exactly one byte |
| Cursor.BufferAt | src/tennis-utils.js:125-131 | `buffer(n)` never throws: inside the buffer it yields exactly the `n` bytes at the offset, never more bytes than the buffer holds, and the offset moves by `n` regardless |
| Cursor.StringAt | src/tennis-utils.js:143-147 | `string` succeeds iff the length word is in bounds; it yields the chars of the clamped slice of `L` bytes and advances by `4 + L` |
| Cursor.Many | src/tennis-utils.js:157-164 | `n` successful reads yield exactly `n` items |
| Cursor.ManyNext | src/tennis-utils.js:160-162 | one more read extends a successful run by its item, or ends it with the read's error |
| Cursor.ManyStops | src/tennis-utils.js:160-162 | once a prefix of the reads fails, every longer run fails with the same error |
| Cursor.ManySpan | src/tennis-utils.js:160-162 | `n` fixed-width reads succeed iff `off + w*n` is in bounds, end there, and item `k` is the read at `off + w*k` |
| Cursor.ManyAll | src/tennis-utils.js:639-642 | a property every read guarantees holds of every item of the run |
| Cursor.ManyReadsConcat | src/tennis-utils.js:157-164 | reading `|xs|` items over their concatenated encodings gives back `xs` and ends after the encodings |
| Cursor.ManyReadsAll | src/tennis-utils.js:157-164 | over a buffer that is exactly the concatenated encodings, the run from 0 gives `xs` and ends at the end of the buffer |
| Cursor.FixedRoundTrip | src/tennis-utils.js:96-118 | an unsigned read inverts the little-endian encoding |
| Cursor.IntRoundTrip | src/tennis-utils.js:69-91 | a signed read inverts the two's-complement encoding |
| Cursor.Int32RoundTrip | src/tennis-utils.js:87-91 | `int32` inverts the 4-byte encoding of any 32-bit integer |
| Cursor.Int32sSpan | src/tennis-utils.js:160-162 | `n` int32 reads succeed iff `4n` bytes are there and advance by `4n` |
| Cursor.Int32ArrayAt | src/tennis-utils.js:157-164 | `int32_array` throws the RangeError when the count word is out of bounds, and a successful read has `max(c, 0)` elements for the count `c` |
| Cursor.Int32ArrayAtSpan | src/tennis-utils.js:157-164 | `int32_array` reads a count `c` and then `max(c, 0)` int32s in order, advancing by `4 + 4*max(c, 0)` |
| Cursor.Int32StepsInvert | src/tennis-utils.js:87-91 | the int32 read inverts the 4-byte encoding of every element, at any position |
| Cursor.Int32ArrayRoundTrip | src/tennis-utils.js:157-164 | a count-prefixed int32 array reads back as the same array |
| Cursor.StringRoundTrip | src/tennis-utils.js:143-147 | a length-prefixed string of byte chars reads back as the same string |
| Streams.Stream.constructor | src/tennis-utils.js:15-29 | a stream over the bytes at the given offset (0 by default) |
| Streams.Stream.Rewind | src/tennis-utils.js:34-36 | the offset becomes 0 |
| Streams.Stream.Int8 | src/tennis-utils.js:69-73 | yields the signed byte at the offset and advances by 1; out of range it throws and the offset stays |
| Streams.Stream.Int16 | src/tennis-utils.js:78-82 | the signed 2-byte little-endian read, advancing by 2 |
| Streams.Stream.Int32 | src/tennis-utils.js:87-91 | the signed 4-byte little-endian read, advancing by 4 |
| Streams.Stream.Uint8 | src/tennis-utils.js:96-100 | the unsigned byte, advancing by 1 |
| Streams.Stream.Uint16 | src/tennis-utils.js:105-109 | the unsigned 2-byte read, advancing by 2 |
| Streams.Stream.Uint32 | src/tennis-utils.js:114-118 | the unsigned 4-byte read, advancing by 4 |
| Streams.Stream.Float32 | src/tennis-utils.js:47-51 | the 4-byte bit pattern, advancing by 4 |
| Streams.Stream.Float64 | src/tennis-utils.js:53-57 | the 8-byte bit pattern, advancing by 8 |
| Streams.Stream.ReadFixed | src/tennis-utils.js:96-118 | the shared unsigned read behind the `uint` and float readers |
| Streams.Stream.ReadInt | src/tennis-utils.js:69-91 | the shared signed read behind the `int` readers |
| Streams.Stream.Int64 | src/tennis-utils.js:41-45 | two int32 reads combined as first + 2^32 * second, advancing by 8 |
| Streams.Stream.Skip | src/tennis-utils.js:136-138 | the offset moves by exactly `size`, with no bounds check |
| Streams.Stream.Buffer | src/tennis-utils.js:125-131 | yields the clamped slice `[offset, offset + size)` and moves the offset by `size` regardless |
| Streams.Stream.String | src/tennis-utils.js:143-147 | yields what `StringAt` yields and ends where it ends |
| Streams.Stream.Int32Array | src/tennis-utils.js:157-164 | the loop yields what `int32_array` specifies: `max(c, 0)` int32s, in order |
| Dtype.TypeBytes | src/tennis-utils.js:199-229 | widths are in {0,1,2,4,8,16}, and 0 only for VOID; defined exactly for codes 0..24 except PTR; any other code throws "Not support dtype = <code>" |
| Dtype.TypeStr | src/tennis-utils.js:236-264 | never throws, and gives "unkown" exactly for the codes `type_bytes` rejects |
| Dtype.CodeOf | src/tennis-utils.js:236-264 | a recognised type name names a supported code |
| Dtype.TypeStrRoundTrip | src/tennis-utils.js:236-264 | every supported code is recovered from its name |
| Dtype.TypeStrInjective | src/tennis-utils.js:236-264 | two codes with the same known name are equal |
| Tensors.Prod | src/tennis-utils.js:296-302 | the product of non-negative dimensions is non-negative; 1 for an empty shape |
| Tensors.ProdAppend | src/tennis-utils.js:296-302 | the product over a concatenation is the product of the products |
| Tensors.ProdZero | src/tennis-utils.js:296-302 | the count is 0 exactly when some dimension is 0 |
| Tensors.Count | src/tennis-utils.js:587-593 | the `count`/`_prod` loop computes the product of the shape |
| Tensors.SignedAt | src/tennis-utils.js:326-333 | the INT8/16/32/64 readers succeed iff their width is there and consume exactly that width |
| Tensors.UnsignedAt | src/tennis-utils.js:334-341 | the UINT8/16/32/64 readers succeed iff their width is there and consume exactly that width |
| Tensors.ScalarAt | src/tennis-utils.js:323-350 | each `_decode` reader succeeds iff `type_bytes(dtype)` bytes are there and consumes exactly that many |
| Tensors.DecodeAt | src/tennis-utils.js:311-321 | one scalar for an empty shape, otherwise a flat list of exactly `count` scalars (none for a negative count) |
| Tensors.ValueOf | src/tennis-utils.js:352-368 | CHAR8 gives a string; undecodable dtypes give `null`; a `null` buffer makes the stream constructor throw |
| Tensors.DecodeSpan | src/tennis-utils.js:311-350 | decoding succeeds iff `width * count` bytes are there, and element `k` is the read `k` widths in |
| Tensors.ScalarRoundTrip | src/tennis-utils.js:323-350 | every element reader inverts its encoding |
| Tensors.StepsInvertEncoder | src/tennis-utils.js:317-319 | the element reader inverts the element encoder at every position |
| Tensors.ScalarsEncoded | src/tennis-utils.js:315-320 | the element reads over the concatenated encodings of `xs` give `xs` back and end at the end of the buffer |
| Tensors.DecodeAtEncoded | src/tennis-utils.js:311-321 | decoding the encodings of `count` elements gives those elements back |
| Tensors.DecodeRoundTrip | src/tennis-utils.js:352-368 | the value of a tensor whose bytes encode a list of `count` elements is that list |
| Tensors.Int64ScalarAsWritten | src/tennis-utils.js:332-333 | as written, an INT64 element read succeeds iff 8 bytes are there and is never negative |
| Tensors.Int64AsWrittenLosesSign | src/tennis-utils.js:332-333 | as written, eight 0xFF bytes decode as 2^64 - 1 for INT64; corrected, as -1 |
| Tensors.Pack | src/tennis-utils.js:374-387 | packing no fields gives the void tensor, one field gives that field, and more give the first field carrying the rest |
| Tensors.Unpack | src/tennis-utils.js:374-387 | unpacking lists the packed fields in order |
| Tensors.PackUnpack | src/tennis-utils.js:374-387 | packing the unpacked fields of a tensor gives it back |
| Tensors.UnpackPack | src/tennis-utils.js:374-387 | unpacking a pack of field-free tensors gives the fields back in order |
| Tensors.PackAsWritten | src/tennis-utils.js:374-387 | as written, exactly one field is returned as is; any other count gives a hollow tensor that carries only the fields after the first |
| Tensors.PackAsWrittenLosesFirst | src/tennis-utils.js:374-387 | as written, two packs that differ only in the first field are the same, and packing no fields yields a hollow tensor rather than the void tensor |
| Tensors.ReadScalar | src/tennis-utils.js:323-350 | one decoder call yields `ScalarAt` and advances by its width |
| Tensors.ReadScalars | src/tennis-utils.js:315-320 | the `_decode_core` loop yields the `Many` run of element reads |
| Tensors.DecodeCore | src/tennis-utils.js:311-321 | `_decode_core` over a fresh stream yields `DecodeAt` from offset 0 |
| Tensors.Decode | src/tennis-utils.js:323-350 | `_decode` yields the tensor's value |
| Tensors.CachedTensor.constructor | src/tennis-utils.js:275-286 | a tensor with an empty cache |
| Tensors.CachedTensor.Value | src/tennis-utils.js:352-368 | always returns `ValueOf(tensor)`; a filled cache is returned unchanged; a non-null result is cached |
| Nodes.RequiredValue | src/tennis-utils.js:402-403 | `get(key).value` is the tensor's value, or a TypeError on `null` when the key is missing |
| Nodes.OptionalValue | src/tennis-utils.js:404-414 | a missing optional key stays `null`; a present one gives its value |
| Nodes.NewNode | src/tennis-utils.js:395-415 | construction succeeds iff `#name` and `#op` are present and all reserved values decode, and the node keeps its id, its parameters and no inputs |
| Nodes.Has | src/tennis-utils.js:469-471 | `has(k)` holds for every own parameter and for every name inherited from `Object.prototype`; for a reserved `#` name it holds exactly when that parameter was read |
| Nodes.Get | src/tennis-utils.js:478-483 | `get(k, d)` is the own parameter when there is one, else the inherited `Object.prototype` member of that name, else `d` |
| Nodes.HasIffGet | src/tennis-utils.js:469-483 | `has(k)` holds iff `get(k, d)` does not fall back to `d`, in which case `d` plays no part; `get` finds an own parameter exactly for the names read |
| Nodes.ArgId | src/tennis-utils.js:427-429 | `arg_id` is `id + ":" + name`, at least two characters |
| Nodes.NoColonInDigits | src/tennis-utils.js:427-429 | the id's digits contain no ':' |
| Nodes.ArgIdInjective | src/tennis-utils.js:427-429 | equal `arg_id`s have the same id and the same printed name |
| Nodes.Proto | src/tennis-utils.js:417-422 | `proto` is `null` iff both the declared dtype and shape are `null`, and otherwise carries them |
| Nodes.DtypeLabel | src/tennis-utils.js:521 | the dtype part is "" exactly for a `null` dtype |
| Nodes.DimText | src/tennis-utils.js:529-534 | a dimension prints as "?" exactly when negative, and never contains ',' |
| Nodes.DimTexts | src/tennis-utils.js:527-535 | one text per dimension, in order |
| Nodes.ShapePart | src/tennis-utils.js:522-537 | a `null` shape gives "tensor" (" tensor" after a dtype name); a non-empty shape gives its dimensions joined by ", " in brackets; an empty shape gives "" |
| Nodes.Unbracket | src/tennis-utils.js:525-536 | equal bracketed texts after the same prefix have equal contents |
| Nodes.DimTextsInjective | src/tennis-utils.js:527-535 | the dimension texts of integer shapes determine the shape |
| Nodes.PrototypeTextDeterminesShape | src/tennis-utils.js:520-539 | for one dtype, the printed prototype of a non-empty integer shape determines the shape |
| Nodes.PrototypeText | src/tennis-utils.js:520-538 | `Prototype.toString` starts with the dtype label; with a `null` dtype it is the shape part alone, and with a `null` shape it is the label followed by " tensor" (or "tensor" alone) |
| Reader.FieldAt | src/tennis-utils.js:604-609 | a field read has a supported dtype, a data buffer and no fields of its own |
| Reader.FieldSpan | src/tennis-utils.js:604-609 | a field ends `5 + 4*|shape| + width*count` bytes after it starts |
| Reader.TensorAt | src/tennis-utils.js:600-613 | `_read_tensor` throws the RangeError of a missing count word, and a count of zero or less gives the void tensor 4 bytes on |
| Reader.TensorAtUnpacks | src/tennis-utils.js:600-613 | a tensor read with a positive count unpacks into exactly the fields read, in order |
| Reader.ParamMap | src/tennis-utils.js:620-629 | the last parameter read is bound to its value, and there are no more names than parameters |
| Reader.ParamMapSnoc | src/tennis-utils.js:626 | one more parameter sets its name to its value and leaves the other names as they were |
| Reader.ParamMapLookup | src/tennis-utils.js:623-627 | a parameter name is in the map iff some parameter has it, and a repeated name keeps its last value |
| Reader.ParamMapKeys | src/tennis-utils.js:623-627 | the map's names are exactly the names read |
| Reader.ParamMapLast | src/tennis-utils.js:623-627 | a name maps to the value of its last occurrence |
| Reader.BubbleAt | src/tennis-utils.js:620-629 | the node read gets the id it is given and no inputs yet |
| Reader.EntryAt | src/tennis-utils.js:639-642 | a table entry is a node with the given id and its raw input indices |
| Reader.EntriesAt | src/tennis-utils.js:636-642 | the first `_read_graph` loop throws the RangeError of a missing count word and otherwise reads `max(c, 0)` entries |
| Reader.Index | src/tennis-utils.js:645-647 | an index refers to a node iff it lies inside the table |
| Reader.Indices | src/tennis-utils.js:560-565 | index `k` resolves the `k`-th raw index |
| Reader.Link | src/tennis-utils.js:643-649 | the linked table keeps every node and sets node `i`'s inputs to its own resolved indices |
| Reader.GraphAt | src/tennis-utils.js:635-651 | `_read_graph` yields a closed table: every input present refers to a node of the same table |
| Reader.GraphIds | src/tennis-utils.js:635-651 | node `i` of the table has id `i`, and every linked input refers into the table or is `undefined` |
| Reader.ModuleAt | src/tennis-utils.js:547-566 | success implies the magic number at byte 4; a different number is "TenniS Module not valid."; the index arrays are read 128 bytes in and resolved against the table |
| Reader.ModuleWellFormed | src/tennis-utils.js:547-566 | every index in a read module refers into its node table or is `undefined` |
| Reader.ReadField | src/tennis-utils.js:604-609 | one field read yields `FieldAt` and ends where it ends |
| Reader.ReadFields | src/tennis-utils.js:602-610 | the `_read_tensor` loop reads `max(size, 0)` fields in order, or stops with the first field's error |
| Reader.ReadTensor | src/tennis-utils.js:600-612 | `_read_tensor`: a field count, then the fields, packed |
| Reader.ReadParam | src/tennis-utils.js:624-626 | a name then a tensor |
| Reader.ReadParams | src/tennis-utils.js:621-627 | the `_read_bubble` loop reads `max(size, 0)` parameters and yields their map |
| Reader.ReadBubble | src/tennis-utils.js:620-629 | `_read_bubble` yields `BubbleAt` |
| Reader.ReadEntry | src/tennis-utils.js:640-641 | a node followed by its input index array |
| Reader.ReadEntries | src/tennis-utils.js:636-642 | the first `_read_graph` loop reads `max(size, 0)` entries in order |
| Reader.Resolve | src/tennis-utils.js:645-647 | resolving raw indices gives `Indices` |
| Reader.LinkNodes | src/tennis-utils.js:643-649 | the second `_read_graph` loop gives `Link` of the entries |
| Reader.ReadGraph | src/tennis-utils.js:635-651 | `_read_graph` yields `GraphAt` |
| Reader.ReadModule | src/tennis-utils.js:547-566 | the `Module` constructor yields `ModuleAt` at the stream's offset |
| Schemas.SchemaMap | src/tennis.js:519-535 | the built map never has the empty name: items without a name are skipped |
| Schemas.SchemaMapSpec | src/tennis.js:519-535 | the map is built iff no counted name repeats, and it then holds exactly the counted names, each with its schema; items without a name or schema are ignored |
| Schemas.SchemaMapStops | src/tennis.js:524-531 | after a duplicate, the rest of the items change nothing |
| Schemas.LastNamed | src/tennis.js:546-550 | a found attribute has that name and is in the schema; none is found iff no attribute has the name |
| Schemas.AttributeOf | src/tennis.js:541-553 | the intended attribute lookup finds only an attribute of that name in the operator's own schema |
| Schemas.Metadata.constructor | src/tennis.js:519-521 | an empty attribute cache over the schema map |
| Schemas.Metadata.Create | src/tennis.js:519-535 | the constructor loop builds `SchemaMap(items)` or throws its duplicate-key error |
| Schemas.Metadata.SchemaOf | src/tennis.js:537-539 | a schema is found iff the operator is in the map |
| Schemas.Metadata.GetSchema | src/tennis.js:537-539 | only a string operator present in the map has a schema |
| Schemas.Metadata.GetAttributeSchema | src/tennis.js:541-553 | returns the schema's attribute with that name (the last one), or `null`; the answer is cached and the cache stays consistent, so repeated calls agree |
| Schemas.Metadata.Populate | src/tennis.js:545-550 | filling the cache for one operator keeps it consistent |
| Schemas.AttributeLookupAsWritten | src/tennis.js:541-553 | as written, a cached `op + ":" + name` key is answered from the cache unchanged; otherwise the key is added, and the cache only grows |
| Schemas.PopulateAsWritten | src/tennis.js:545-550 | the string-keyed cache only grows |
| Schemas.AttributeKeyCollision | src/tennis.js:541-553 | as written, keys collide in both orders: after attribute "b:c" of operator "a" is looked up, attribute "c" of the unknown operator "a:b" answers that attribute; after attribute "c" of "a:b" is looked up first, "b:c" of "a" is reported missing although the schema has it |
| Display.NewArgument | src/tennis.js:115-120 | an argument keeps its id and description; its type is `null` exactly when given empty |
| Display.SetType | src/tennis.js:137-142 | setting the type succeeds iff none is set, and otherwise throws "Invalid argument type set operation." |
| Display.SetTypeOnce | src/tennis.js:137-142 | a non-empty type can be set only once |
| Display.InputIds | src/tennis.js:188-199 | the inputs' `arg_id`s in order, or a TypeError on `arg_id` iff some input is `undefined` |
| Display.SynthInputs | src/tennis.js:171-177 | one "Tensor" slot per input, named "input" for several inputs and "inputs" otherwise |
| Display.InputParams | src/tennis.js:185-201 | one parameter when a single slot absorbs several inputs, otherwise one per positional input |
| Display.OutputParams | src/tennis.js:203-209 | one output parameter per output slot |
| Display.Bind | src/tennis.js:155-210 | binding succeeds iff there is no schema or the schema has both `inputs` and `outputs`, and no input is `undefined`; a schema without `inputs` throws reading `length` first, then an `undefined` input throws reading `arg_id`, then a schema without `outputs` throws reading `length`; a bound node keeps the node's name and operator |
| Display.BindContents | src/tennis.js:164-209 | a bound node's input parameters are the schema's (or the synthesised) input slots bound to the inputs' `arg_id`s, and its output parameters the output slots bound to the node's `arg_id` |
| Display.InputParamsKeepIds | src/tennis.js:185-201 | the input arguments are exactly the inputs' `arg_id`s, in positional order, in both binding modes |
| Display.ArgumentIdsOfSingles | src/tennis.js:192-201 | single-argument parameters list their ids in order |
| Display.PositionalInputs | src/tennis.js:192-201 | without collapsing, input `i` uses schema slot `i`, or an "output"/"Tensor" slot past the schema's end; surplus slots give nothing |
| Display.OutputIdsDistinct | src/tennis.js:203-209 | output ids (`arg_id`, then `arg_id[i]`) are pairwise distinct |
| Display.BindWithoutSchema | src/tennis.js:171-184 | without a schema, one "input"/"inputs" parameter per input and a single "output" output carrying the node's `arg_id` |
| Display.GlobalParams | src/tennis.js:66-71 | one visible parameter per global index, named after the node, with the node's `arg_id`; an `undefined` node throws reading `name` |
| Display.Shown | src/tennis.js:73-77 | the displayed nodes all come from the table |
| Display.Hidden | src/tennis.js:74-75 | a hidden node has a string operator of the form "<…>" |
| Display.ShownSpec | src/tennis.js:73-77 | exactly the nodes whose op is neither `<param>` nor `<const>` are displayed |
| Display.BindAll | src/tennis.js:73-77 | the bound nodes correspond one to one, in order, to the displayed nodes |
| Display.GraphOf | src/tennis.js:57-78 | the `Graph` constructor succeeds iff no global input or output is `undefined` and every displayed node binds, with one parameter per global input and output and one node per displayed node |
| Display.GraphShape | src/tennis.js:57-78 | a graph shows the filtered nodes, none with op `<param>`/`<const>`, and one input and output parameter per global index carrying that node's `arg_id` |
| Display.StripDot | src/tennis.js:35 | at most one trailing "." is removed |
| Display.Rewrite | src/tennis.js:34-36 | the rethrown message starts with the original one less its final "." and ends with "." |
| Display.RewriteInjective | src/tennis.js:34-36 | for one identifier, the rewritten message determines the original up to its trailing "." |
| Display.OpenModel | src/tennis.js:29-38 | a model that reads is returned as is; any error becomes "<message without its final dot> in '<identifier>'." |
| Display.Match | src/tennis.js:13-20 | `match` throws iff the buffer is shorter than 8 bytes and holds iff the int32 at byte 4 is 0x19910929 |
| Display.MatchAgreesWithReader | src/tennis.js:13-36 | every module the reader accepts matches; a mismatching buffer fails as "TenniS Module not valid in '<identifier>'." |
| Display.BindNode | src/tennis.js:155-210 | the `Node` constructor's loops yield `Bind` of the operator's schema |
| Display.BindInputs | src/tennis.js:185-201 | the input loops yield the input parameters, or the TypeError of the first `undefined` input |
| Display.BindOutputs | src/tennis.js:203-209 | the output loop yields `OutputParams` |
| Display.BuildGlobals | src/tennis.js:66-71 | the global input/output loops yield `GlobalParams` |
| Display.BuildNodes | src/tennis.js:73-77 | the node loop skips hidden nodes and binds the rest, stopping at the first failure |
| Display.BindAllNext | src/tennis.js:73-77 | one more table node leaves the bound nodes unchanged if hidden, else appends its binding |
| Display.BindAllStops | src/tennis.js:73-77 | a failed binding fails the whole graph with the same error |
| Display.BuildGraph | src/tennis.js:57-78 | the `Graph` constructor yields `GraphOf` |
| Display.Open | src/tennis.js:22-38 | reading the module from offset 0 and building its graph yields `OpenModel` |
| Shapes.NewTensorShape | src/tennis.js:434-439 | a shape is built iff no dimension is 0, else "Invalid tensor shape." |
| Shapes.ShapeText | src/tennis.js:445-453 | "" exactly for an empty shape; otherwise a bracketed text with '[' only at its start |
| Shapes.ShapeTextInjective | src/tennis.js:445-453 | the printed shape determines the shape |
| Shapes.JoinedDimsInjective | src/tennis.js:450 | the dimensions joined by "," determine the dimensions |
| Shapes.TensorTypeTextInjective | src/tennis.js:427-429 | a printed tensor type determines its shape and its data type, except that "" and "?" print alike |
| Shapes.TensorTypeText | src/tennis.js:427-429 | `TensorType.toString` starts with the data type, or "?" when it is empty, and ends with "]" exactly when the shape has dimensions or the data type itself ends with "]" |
| WeightsFile.SeekFrom | src/tennis.js:490-495 | `seek` fails iff the new position passes the end, naming the missing byte count |
| WeightsFile.WordAt | src/tennis.js:472-476 | `int32` succeeds iff the word lies in the buffer and yields its signed little-endian value; past the end it is the end-of-file error, before the start a RangeError |
| WeightsFile.LongAt | src/tennis.js:478-482 | `int64` succeeds only with 8 bytes in the buffer, and is never negative |
| WeightsFile.LongAtIsLe | src/tennis.js:478-482 | `int64` succeeds iff 8 bytes are there and is their unsigned little-endian value |
| WeightsFile.BytesAt | src/tennis.js:484-488 | `bytes(n)` succeeds iff the end stays in the buffer and yields exactly those `n` bytes |
| WeightsFile.VersionAt | src/tennis.js:462-464 | the three version words are read iff the buffer holds 12 bytes, and each is a signed 32-bit number |
| WeightsFile.HeaderAt | src/tennis.js:458-470 | an accepted header has major and minor at most 1000, and ends at 20 bytes when `seen` is 64-bit (`major*10 + minor >= 2`), else at 16 |
| WeightsFile.HeaderTooShort | src/tennis.js:462-465 | a buffer ending inside header word `k` (of the first four) fails at that word, naming the bytes it lacks |
| WeightsFile.MajorTooShort | src/tennis.js:462 | a buffer under 4 bytes fails reading `major` |
| WeightsFile.MinorTooShort | src/tennis.js:463 | a buffer of 4 to 7 bytes fails reading `minor` |
| WeightsFile.RevisionTooShort | src/tennis.js:464 | a buffer of 8 to 11 bytes fails reading `revision` |
| WeightsFile.SeenTooShort | src/tennis.js:465 | a buffer of 12 to 15 bytes fails reading `seen`, whichever width it has |
| WeightsFile.HeaderVersion | src/tennis.js:458-470 | a header is accepted iff no version part exceeds 1000 and `seen` fits; a transposed version is rejected naming all three parts; `seen` is the 64- or 32-bit word at byte 12 |
| WeightsFile.Weights.Start | src/tennis.js:459-461 | position 0 over the buffer |
| WeightsFile.Weights.Seek | src/tennis.js:490-495 | the position moves by `n` even when the check then fails |
| WeightsFile.Weights.Int32 | src/tennis.js:472-476 | yields `WordAt` at the old position and moves by 4 |
| WeightsFile.Weights.Int64 | src/tennis.js:478-482 | yields `LongAt` and moves by 8, or by 4 when the first word already fails |
| WeightsFile.Weights.Bytes | src/tennis.js:484-488 | yields `BytesAt` and moves by `length` |
| WeightsFile.Weights.Validate | src/tennis.js:497-501 | succeeds iff the position is exactly the end, else "Invalid weights size." |
| WeightsFile.Weights.ReadVersion | src/tennis.js:462-464 | the three version words |
| WeightsFile.Weights.ReadSeen | src/tennis.js:465 | `seen` in 64 bits from version 0.2 on, else in 32 |
| WeightsFile.Weights.Open | src/tennis.js:458-470 | the constructor succeeds iff `HeaderAt` does and leaves its position and `seen`, or throws its error |
| WeightsFile.ReadToEnd | src/tennis.js:484-501 | reading all remaining bytes yields them and reaches the end that `validate` demands |

## Findings

| source | as written | input that shows it | evidently intended | confidence | as-written member | corrected member |
|---|---|---|---|---|---|---|
| src/tennis-utils.js:374-387 | the static `Pack` builds the packed tensor from `this`, which is the `Tensor` class itself, so the first field's shape, dtype and data are lost; for no fields the void tensor is built and dropped | `Pack([a, b])` vs `Pack([c, b])` with `a != c`; `Pack([])` | the packed tensor is the first field carrying the others, and `Pack([])` is the void tensor | high (not executed) | Tensors.PackAsWritten, Tensors.PackAsWrittenLosesFirst | Tensors.Pack, Tensors.PackUnpack, Tensors.UnpackPack |
| src/tennis-utils.js:27, 228, 551 | `throw tennis.Error(...)` without `new` calls a class constructor as a function, which throws a TypeError that ignores the message | a buffer whose int32 at byte 4 is not 0x19910929 | the reader's own error with "TenniS Module not valid." (and "Not support dtype = …") | high (not executed) | Results.UtilsErrorAsWritten, Results.UtilsErrorAsWrittenLosesMessage | Results.UtilsError, Display.MatchAgreesWithReader |
| src/tennis-utils.js:332-333 | the INT64 reader uses `int64`, which reads unsigned | eight 0xFF bytes with dtype INT64 | -1, a signed 64-bit read as for INT8/16/32 | medium (not executed) | Tensors.Int64ScalarAsWritten, Tensors.Int64AsWrittenLosesSign | Tensors.ScalarAt, Tensors.ScalarRoundTrip |
| src/tennis.js:541-553 | the attribute memo is keyed by `operator + ':' + name`, so names containing ':' collide | operator "a" with attribute "b:c": looking up "b:c" of "a" and then "c" of the unknown "a:b" answers that attribute; in the other order "b:c" of "a" is reported missing | a key that keeps operator and name apart | low (not executed) | Schemas.AttributeLookupAsWritten, Schemas.AttributeKeyCollision | Schemas.Metadata.GetAttributeSchema |

## Left out

- Float values: float16/32/64 elements are kept as bit patterns. Their numeric value is not modelled, and `Nodes.ScalarText` prints them as the placeholder "NaN".
- `long.Long.toNumber` loses precision above 2^53. `int64` is modelled as the exact integer.
- `Stream`'s constructor dispatches on the host type (DataView, Buffer, ArrayBuffer). The model always gets a byte sequence; only the `null` buffer of a void tensor reaches the failure branch (`Tensors.ValueOf`).
- `Stream.offset()` is the `offset` field itself.
- `Tensor.proto` (src/tennis-utils.js:304-306) just wraps shape and dtype. It is not modelled apart from `Nodes.Proto`.
- `Tensor`'s optional fourth constructor argument (a preset value) is not modelled. The reader never passes one.
- `Attribute`, `Node.documentation` and `category` are not modelled: they are `parseInt`/`parseFloat` coercion and Markdown rendering. The display `Tensor` (src/tennis.js:329-410) is not modelled either: it uses floats and `JSON.stringify`, and nothing in the reader builds it.
- `Metadata.open` (promises, `host.request`, the global instance) and `JSON.parse` are not modelled. `Schemas.Metadata.Create` starts from the parsed item list.
- An item is modelled with a string name and an optional schema. A name that is some other truthy JS value, and a slot field that is missing rather than a string, are not modelled; a missing slot field is "".
- `Argument`'s `initializer` is always `null` in the code modelled, so the `type` getter is the stored type.
- Display.SetType: the setter is modelled on values, returning the updated argument; aliasing of the JS object is not captured.
- Reader.ParamMap: a parameter named "__proto__" is stored as an ordinary key. In JS, `params["__proto__"] = tensor` replaces the parameter object's prototype instead of adding a key, after which `has` and `get` also find the tensor's own members. This is not modelled.
- Nodes.Get: an inherited name yields `Inherited(name)`, which stands for the `Object.prototype` member (a function) that JS returns. That function is not modelled.
- Node's `id` and `inputs` setters are not modelled separately. `Reader.Link` sets the inputs once, as `_read_graph` does.
- `Tensors.Prod` and `Reader.FieldAt` use exact integers. JS numbers overflow to inaccurate doubles above 2^53.
- `Display.Hidden` compares the operator value with `<param>`/`<const>` as strings. JS loose `==` would also match a one-element list whose text is that string; this is not modelled.
- `Nodes.DtypeLabel` gives a label only for an integer dtype value. The label of a float dtype value is not modelled.
- Display.BindAll: a node's binding uses `Tensors.ValueOf` of its parameters rather than each tensor's own cache. The cached and uncached values are equal (`Tensors.CachedTensor.Value`).
- `ModelFactory.open` wraps the graph in a one-graph `Model` after the metadata promise resolves. `Display.Open` returns that graph directly.
- `TensorShape` also rejects `undefined` and `NaN` dimensions. The model's dimensions are integers, so neither arises.
- Results.UtilsErrorAsWritten: V8's exact wording for a class called without `new` includes the class name, which is not modelled; only the name "TypeError" and the loss of the message are.
