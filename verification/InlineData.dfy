// Inline query data: a prefix and the encoded fields of a model, joined by one separator character.
module InlineData {
  import opened Common

  const MAX_CALLBACK_LENGTH := 64

  // The value of a field: nothing, something with a text form, or something that has none.
  datatype Value = Absent | Plain(text: string) | Unpackable

  datatype Error =
    | NotPackable(field: nat)
    | SeparatorInValue(field: nat)
    | TooLong
    | WrongCount(expected: nat, given: nat)
    | BadPrefix(prefix: string)

  // A subclass: its prefix, its separator and, field by field, whether the field is required.
  datatype Shape = Shape(prefix: string, separator: char, required: seq<bool>)

  // A class whose prefix holds its separator cannot be declared.
  predicate Declared(shape: Shape) {
    shape.separator !in shape.prefix
  }

  function EncodeValue(value: Value, field: nat): Result<string, Error> {
    match value
    case Absent => Ok("")
    case Plain(text) => Ok(text)
    case Unpackable => Err(NotPackable(field))
  }

  function Join(separator: char, parts: seq<string>): string
    requires parts != []
  {
    if |parts| == 1 then parts[0] else parts[0] + [separator] + Join(separator, parts[1..])
  }

  function Split(separator: char, text: string): (parts: seq<string>)
    ensures parts != []
  {
    if text == "" then [""]
    else
      var rest := Split(separator, text[1..]);
      if text[0] == separator then [""] + rest else [[text[0]] + rest[0]] + rest[1..]
  }

  // The width of a character in UTF-8.
  function CharBytes(c: char): (n: nat)
    ensures 1 <= n <= 4
  {
    if c as int < 0x80 then 1 else if c as int < 0x800 then 2 else if c as int < 0x10000 then 3 else 4
  }

  function ByteLength(text: string): nat {
    if text == "" then 0 else CharBytes(text[0]) + ByteLength(text[1..])
  }

  // ------------------------------------------------------------------ splitting undoes joining

  predicate Clean(separator: char, parts: seq<string>) {
    forall k :: 0 <= k < |parts| ==> separator !in parts[k]
  }

  lemma {:induction false} SplitClean(separator: char, text: string)
    requires separator !in text
    ensures Split(separator, text) == [text]
  {
    if text != "" {
      SplitClean(separator, text[1..]);
      assert [text[0]] + text[1..] == text;
    }
  }

  lemma {:induction false} SplitFirst(separator: char, head: string, tail: string)
    requires separator !in head
    ensures Split(separator, head + [separator] + tail) == [head] + Split(separator, tail)
  {
    var text := head + [separator] + tail;
    if head == "" {
      assert text[1..] == tail;
    } else {
      assert text[1..] == head[1..] + [separator] + tail;
      SplitFirst(separator, head[1..], tail);
      assert [head[0]] + head[1..] == head;
    }
  }

  lemma {:induction false} SplitOfJoin(separator: char, parts: seq<string>)
    requires parts != [] && Clean(separator, parts)
    ensures Split(separator, Join(separator, parts)) == parts
  {
    if |parts| == 1 {
      SplitClean(separator, parts[0]);
    } else {
      SplitFirst(separator, parts[0], Join(separator, parts[1..]));
      SplitOfJoin(separator, parts[1..]);
    }
  }

  lemma {:induction false} JoinOfSplit(separator: char, text: string)
    ensures Join(separator, Split(separator, text)) == text && Clean(separator, Split(separator, text))
  {
    if text != "" {
      JoinOfSplit(separator, text[1..]);
      var rest := Split(separator, text[1..]);
      var parts := Split(separator, text);
      if text[0] == separator {
        assert parts[1..] == rest;
      } else {
        assert parts[0] == [text[0]] + rest[0] && parts[1..] == rest[1..];
        assert forall k :: 1 <= k < |parts| ==> parts[k] == rest[k];
      }
    }
  }

  // ------------------------------------------------------------------ the two directions

  // The encoded fields, or what is wrong with the first field that cannot be sent.
  function EncodedFields(separator: char, values: seq<Value>): (r: Result<seq<string>, Error>)
    ensures r.Ok? ==> |r.value| == |values|
  {
    if values == [] then Ok([])
    else
      var last := |values| - 1;
      match EncodedFields(separator, values[..last])
      case Err(e) => Err(e)
      case Ok(fields) =>
        match EncodeValue(values[last], last)
        case Err(e) => Err(e)
        case Ok(text) => if separator in text then Err(SeparatorInValue(last)) else Ok(fields + [text])
  }

  function Packed(shape: Shape, values: seq<Value>): Result<string, Error> {
    match EncodedFields(shape.separator, values)
    case Err(e) => Err(e)
    case Ok(fields) =>
      var text := Join(shape.separator, [shape.prefix] + fields);
      if ByteLength(text) > MAX_CALLBACK_LENGTH then Err(TooLong) else Ok(text)
  }

  function Restored(raw: string, required: bool): Option<string> {
    if raw == "" && !required then None else Some(raw)
  }

  // The count is looked at before the prefix.
  function Unpacked(shape: Shape, text: string): Result<seq<Option<string>>, Error> {
    var parts := Split(shape.separator, text);
    if |parts| - 1 != |shape.required| then Err(WrongCount(|shape.required|, |parts| - 1))
    else if parts[0] != shape.prefix then Err(BadPrefix(parts[0]))
    else Ok(seq(|shape.required|, k requires 0 <= k < |shape.required| => Restored(parts[k + 1], shape.required[k])))
  }

  method Pack(shape: Shape, values: seq<Value>) returns (r: Result<string, Error>)
    requires Declared(shape) && |values| == |shape.required|
    ensures r == Packed(shape, values)
  {
    var result := [shape.prefix];
    assert result[1..] == [] && values[..0] == [];
    for i := 0 to |values|
      invariant result != [] && result[0] == shape.prefix
      invariant EncodedFields(shape.separator, values[..i]) == Ok(result[1..])
    {
      assert values[..i + 1][..i] == values[..i];
      var encoded := EncodeValue(values[i], i);
      if encoded.Err? || shape.separator in encoded.value {
        FirstErrorStays(shape.separator, values, i + 1);
        return Err(if encoded.Err? then encoded.error else SeparatorInValue(i));
      }
      assert (result + [encoded.value])[1..] == result[1..] + [encoded.value];
      result := result + [encoded.value];
    }
    assert values[..|values|] == values && [shape.prefix] + result[1..] == result;
    var text := Join(shape.separator, result);
    if ByteLength(text) > MAX_CALLBACK_LENGTH { return Err(TooLong); }
    return Ok(text);
  }

  method Unpack(shape: Shape, text: string) returns (r: Result<seq<Option<string>>, Error>)
    requires Declared(shape)
    ensures r == Unpacked(shape, text)
  {
    var parts := Split(shape.separator, text);
    var prefix := parts[0];
    parts := parts[1..];
    if |parts| != |shape.required| { return Err(WrongCount(|shape.required|, |parts|)); }
    if prefix != shape.prefix { return Err(BadPrefix(prefix)); }
    var payload: seq<Option<string>> := [];
    for k := 0 to |parts|
      invariant |payload| == k
      invariant forall j :: 0 <= j < k ==> payload[j] == Restored(parts[j], shape.required[j])
    {
      if parts[k] == "" && !shape.required[k] {
        payload := payload + [None];
      } else {
        payload := payload + [Some(parts[k])];
      }
    }
    assert Unpacked(shape, text).value == payload;
    return Ok(payload);
  }

  lemma {:induction false} FirstErrorStays(separator: char, values: seq<Value>, n: nat)
    requires n <= |values| && EncodedFields(separator, values[..n]).Err?
    ensures EncodedFields(separator, values) == EncodedFields(separator, values[..n])
    decreases |values|
  {
    if n == |values| {
      assert values[..n] == values;
    } else {
      var rest := values[..|values| - 1];
      assert rest[..n] == values[..n];
      FirstErrorStays(separator, rest, n);
    }
  }

  // ------------------------------------------------------------------ what can be sent

  predicate Sendable(separator: char, value: Value) {
    !value.Unpackable? && (value.Plain? ==> separator !in value.text)
  }

  function TextOf(value: Value): string {
    if value.Plain? then value.text else ""
  }

  function Texts(values: seq<Value>): (texts: seq<string>)
    ensures |texts| == |values|
  {
    seq(|values|, k requires 0 <= k < |values| => TextOf(values[k]))
  }

  predicate AllSendable(separator: char, values: seq<Value>) {
    forall k :: 0 <= k < |values| ==> Sendable(separator, values[k])
  }

  lemma SendableIff(separator: char, value: Value, field: nat)
    ensures Sendable(separator, value) <==>
              EncodeValue(value, field) == Ok(TextOf(value)) && separator !in TextOf(value)
  {
  }

  lemma {:induction false} EncodedIff(separator: char, values: seq<Value>)
    ensures EncodedFields(separator, values).Ok? <==> AllSendable(separator, values)
    ensures EncodedFields(separator, values).Ok? ==> EncodedFields(separator, values).value == Texts(values)
    ensures EncodedFields(separator, values).Ok? ==> Clean(separator, Texts(values))
  {
    if values != [] {
      var last := |values| - 1;
      EncodedIff(separator, values[..last]);
      SendableIff(separator, values[last], last);
      assert AllSendable(separator, values)
        <==> AllSendable(separator, values[..last]) && Sendable(separator, values[last]);
      assert Texts(values) == Texts(values[..last]) + [TextOf(values[last])];
    }
  }

  function FieldBytes(separator: char, fields: seq<string>): nat {
    if fields == [] then 0
    else CharBytes(separator) + ByteLength(fields[0]) + FieldBytes(separator, fields[1..])
  }

  lemma {:induction false} ByteLengthSum(a: string, b: string)
    ensures ByteLength(a + b) == ByteLength(a) + ByteLength(b)
  {
    if a == "" {
      assert a + b == b;
    } else {
      assert (a + b)[1..] == a[1..] + b;
      ByteLengthSum(a[1..], b);
    }
  }

  lemma {:induction false} JoinedBytes(separator: char, first: string, fields: seq<string>)
    ensures ByteLength(Join(separator, [first] + fields)) == ByteLength(first) + FieldBytes(separator, fields)
    decreases fields
  {
    if fields != [] {
      assert ([first] + fields)[1..] == fields && fields == [fields[0]] + fields[1..];
      JoinedBytes(separator, fields[0], fields[1..]);
      ByteLengthSum(first + [separator], Join(separator, fields));
      ByteLengthSum(first, [separator]);
    }
  }

  // A model can be packed exactly when every field has a text without the separator and
  // the prefix, the fields and one separator before each field take at most 64 bytes.
  lemma PackAcceptsIff(shape: Shape, values: seq<Value>)
    ensures Packed(shape, values).Ok? <==>
              && AllSendable(shape.separator, values)
              && ByteLength(shape.prefix) + FieldBytes(shape.separator, Texts(values)) <= MAX_CALLBACK_LENGTH
  {
    EncodedIff(shape.separator, values);
    JoinedBytes(shape.separator, shape.prefix, Texts(values));
  }

  // ------------------------------------------------------------------ round trips

  function Sent(value: Value): Option<string> {
    if value.Plain? then Some(value.text) else None
  }

  // An optional field must not hold the empty text, a required one must not be missing.
  predicate Faithful(required: bool, value: Value) {
    if required then value != Absent else value != Plain("")
  }

  // Whatever was packed unpacks, and each field comes back as it was sent exactly when it is faithful.
  lemma PackedUnpacks(shape: Shape, values: seq<Value>)
    requires Declared(shape) && |values| == |shape.required| && Packed(shape, values).Ok?
    ensures var r := Unpacked(shape, Packed(shape, values).value);
            && r.Ok? && |r.value| == |values|
            && forall k :: 0 <= k < |values| ==>
                 (r.value[k] == Sent(values[k]) <==> Faithful(shape.required[k], values[k]))
  {
    EncodedIff(shape.separator, values);
    var parts := [shape.prefix] + Texts(values);
    SplitOfJoin(shape.separator, parts);
    forall k | 0 <= k < |values| ensures parts[k + 1] == TextOf(values[k]) && Sendable(shape.separator, values[k]) {
    }
  }

  // Two models that pack to the same text have the same field texts.
  lemma PackIsInjective(shape: Shape, a: seq<Value>, b: seq<Value>)
    requires Declared(shape)
    requires Packed(shape, a).Ok? && Packed(shape, a) == Packed(shape, b)
    ensures Texts(a) == Texts(b)
  {
    EncodedIff(shape.separator, a);
    EncodedIff(shape.separator, b);
    SplitOfJoin(shape.separator, [shape.prefix] + Texts(a));
    SplitOfJoin(shape.separator, [shape.prefix] + Texts(b));
    assert ([shape.prefix] + Texts(a))[1..] == Texts(a) && ([shape.prefix] + Texts(b))[1..] == Texts(b);
  }

  function AsValue(field: Option<string>): Value {
    if field.Some? then Plain(field.value) else Absent
  }

  function AsValues(fields: seq<Option<string>>): (values: seq<Value>)
    ensures |values| == |fields|
  {
    seq(|fields|, k requires 0 <= k < |fields| => AsValue(fields[k]))
  }

  // Whatever unpacks, packs to the same text again, unless it was too long to be packed at all.
  lemma UnpackedPacks(shape: Shape, text: string)
    requires Declared(shape) && Unpacked(shape, text).Ok?
    ensures Packed(shape, AsValues(Unpacked(shape, text).value))
         == if ByteLength(text) <= MAX_CALLBACK_LENGTH then Ok(text) else Err(TooLong)
  {
    var values := AsValues(Unpacked(shape, text).value);
    JoinOfSplit(shape.separator, text);
    UnpackedTexts(shape, text);
    EncodedIff(shape.separator, values);
  }

  lemma UnpackedTexts(shape: Shape, text: string)
    requires Declared(shape) && Unpacked(shape, text).Ok?
    ensures var values := AsValues(Unpacked(shape, text).value);
            && [shape.prefix] + Texts(values) == Split(shape.separator, text)
            && AllSendable(shape.separator, values)
  {
    var parts := Split(shape.separator, text);
    var values := AsValues(Unpacked(shape, text).value);
    JoinOfSplit(shape.separator, text);
    forall k | 0 <= k < |values| ensures Texts(values)[k] == parts[k + 1] && Sendable(shape.separator, values[k]) {
    }
  }

  // A text unpacks exactly when it is the prefix and as many separator-free fields as the class has.
  lemma UnpackAcceptsIff(shape: Shape, text: string)
    requires Declared(shape)
    ensures Unpacked(shape, text).Ok? <==>
              exists fields :: |fields| == |shape.required| && Clean(shape.separator, fields)
                               && text == Join(shape.separator, [shape.prefix] + fields)
  {
    var parts := Split(shape.separator, text);
    if Unpacked(shape, text).Ok? {
      JoinOfSplit(shape.separator, text);
      assert [shape.prefix] + parts[1..] == parts && Clean(shape.separator, parts[1..]);
    }
    forall fields | |fields| == |shape.required| && Clean(shape.separator, fields)
                    && text == Join(shape.separator, [shape.prefix] + fields)
      ensures Unpacked(shape, text).Ok?
    {
      SplitOfJoin(shape.separator, [shape.prefix] + fields);
    }
  }

  // ------------------------------------------------------------------ what is sent, and what is refused

  // The text that is sent is the prefix and the texts of the fields in their order, one separator between.
  lemma PackedText(shape: Shape, values: seq<Value>)
    requires Declared(shape) && Packed(shape, values).Ok?
    ensures Split(shape.separator, Packed(shape, values).value) == [shape.prefix] + Texts(values)
  {
    EncodedIff(shape.separator, values);
    SplitOfJoin(shape.separator, [shape.prefix] + Texts(values));
  }

  // The first field that cannot be sent is named, with the reason; if all can, the text is too long.
  lemma PackRefusal(shape: Shape, values: seq<Value>)
    requires Packed(shape, values).Err?
    ensures forall k: nat :: k < |values| && !Sendable(shape.separator, values[k])
                             && (forall j :: 0 <= j < k ==> Sendable(shape.separator, values[j])) ==>
              Packed(shape, values) == Err(if values[k].Unpackable? then NotPackable(k) else SeparatorInValue(k))
    ensures AllSendable(shape.separator, values) ==> Packed(shape, values) == Err(TooLong)
  {
    EncodedIff(shape.separator, values);
    forall k: nat | k < |values| && !Sendable(shape.separator, values[k])
                    && (forall j :: 0 <= j < k ==> Sendable(shape.separator, values[j]))
      ensures Packed(shape, values) == Err(if values[k].Unpackable? then NotPackable(k) else SeparatorInValue(k))
    {
      FirstFault(shape.separator, values, k);
    }
  }

  lemma FirstFault(separator: char, values: seq<Value>, k: nat)
    requires k < |values| && !Sendable(separator, values[k])
    requires forall j :: 0 <= j < k ==> Sendable(separator, values[j])
    ensures EncodedFields(separator, values)
         == Err(if values[k].Unpackable? then NotPackable(k) else SeparatorInValue(k))
  {
    var upTo := values[..k + 1];
    EncodedIff(separator, values[..k]);
    assert upTo[..k] == values[..k];
    FirstErrorStays(separator, values, k + 1);
  }

  // A wrong number of fields is reported first, with both numbers, and then a wrong prefix.
  lemma UnpackRefusal(shape: Shape, text: string)
    ensures var given := |Split(shape.separator, text)| - 1;
            if given != |shape.required| then Unpacked(shape, text) == Err(WrongCount(|shape.required|, given))
            else if Split(shape.separator, text)[0] != shape.prefix then
              Unpacked(shape, text) == Err(BadPrefix(Split(shape.separator, text)[0]))
            else
              && Unpacked(shape, text).Ok? && |Unpacked(shape, text).value| == given
              && forall k: nat :: k < given ==>
                   var part := Split(shape.separator, text)[k + 1];
                   Unpacked(shape, text).value[k] == if part == "" && !shape.required[k] then None else Some(part)
  {
  }

  // ------------------------------------------------------------------ the width of a text

  // The characters from a code point on.
  function CountFrom(text: string, first: int): nat {
    if text == "" then 0 else (if text[0] as int >= first then 1 else 0) + CountFrom(text[1..], first)
  }

  // Each character takes a byte, and one more from U+0080, from U+0800 and from U+10000 on.
  lemma {:induction false} ByteLengthIs(text: string)
    ensures ByteLength(text)
         == |text| + CountFrom(text, 0x80) + CountFrom(text, 0x800) + CountFrom(text, 0x10000)
  {
    if text != "" { ByteLengthIs(text[1..]); }
  }

  predicate Within(text: string, first: int, last: int) {
    forall i :: 0 <= i < |text| ==> first <= text[i] as int <= last
  }

  lemma {:induction false} CountWithin(text: string, first: int, last: int, from_: int)
    requires Within(text, first, last)
    ensures from_ <= first ==> CountFrom(text, from_) == |text|
    ensures from_ > last ==> CountFrom(text, from_) == 0
  {
    if text != "" {
      assert forall i :: 0 <= i < |text[1..]| ==> text[1..][i] == text[i + 1];
      CountWithin(text[1..], first, last, from_);
    }
  }

  function TotalLength(fields: seq<string>): nat {
    if fields == [] then 0 else |fields[0]| + TotalLength(fields[1..])
  }

  lemma {:induction false} FieldBytesWithin(separator: char, fields: seq<string>, first: int, last: int, width: nat)
    requires separator as int < 0x80 && forall k :: 0 <= k < |fields| ==> Within(fields[k], first, last)
    requires (width == 1 && 0 <= first && last < 0x80) || (width == 2 && 0x80 <= first && last < 0x800)
    ensures FieldBytes(separator, fields) == |fields| + width * TotalLength(fields)
  {
    if fields != [] {
      FieldBytesWithin(separator, fields[1..], first, last, width);
      ByteLengthIs(fields[0]);
      CountWithin(fields[0], first, last, 0x80);
      CountWithin(fields[0], first, last, 0x800);
      CountWithin(fields[0], first, last, 0x10000);
      assert width * TotalLength(fields) == width * |fields[0]| + width * TotalLength(fields[1..]);
    }
  }

  // With a prefix and a separator of ASCII, fields of ASCII are sent while prefix, separators and characters are at
  // most 64; of Cyrillic fields every character counts twice.
  lemma LongestSent(shape: Shape, values: seq<Value>, cyrillic: bool)
    requires shape.separator as int < 0x80 && Within(shape.prefix, 0, 0x7F)
    requires forall k :: 0 <= k < |values| ==>
               if cyrillic then Within(TextOf(values[k]), 0x400, 0x4FF) else Within(TextOf(values[k]), 0, 0x7F)
    ensures Packed(shape, values).Ok? <==>
              && AllSendable(shape.separator, values)
              && |shape.prefix| + |values| + (if cyrillic then 2 else 1) * TotalLength(Texts(values)) <= 64
  {
    PackAcceptsIff(shape, values);
    ByteLengthIs(shape.prefix);
    CountWithin(shape.prefix, 0, 0x7F, 0x80);
    CountWithin(shape.prefix, 0, 0x7F, 0x800);
    CountWithin(shape.prefix, 0, 0x7F, 0x10000);
    if cyrillic {
      FieldBytesWithin(shape.separator, Texts(values), 0x400, 0x4FF, 2);
    } else {
      FieldBytesWithin(shape.separator, Texts(values), 0, 0x7F, 1);
    }
  }
}
