/** Conversion of an MCP `CallToolResult` value into a tool result: one loop checks every content block, a
    second one extracts texts and binary payloads relying on those checks. */
module McpConversion {
  import opened Wrappers

  /** A value after JSON decoding. */
  datatype Json =
    | Null
    | Bool(flag: bool)
    | Number(number: real)
    | Str(text: string)
    | Arr(items: seq<Json>)
    | Obj(fields: map<string, Json>)

  datatype Binary = Binary(data: string, mimeType: string, kind: string, description: string)

  datatype ToolResult = ToolResult(text: string, resultType: string, binaries: seq<Binary>)

  /** The text of a string field, or "" for a missing field or one of another type. */
  function Field(m: map<string, Json>, key: string): string {
    if key in m && m[key].Str? then m[key].text else ""
  }

  /** `strings.Join` with newlines. */
  function Join(parts: seq<string>): string {
    if parts == [] then ""
    else if |parts| == 1 then parts[0]
    else parts[0] + "\n" + Join(parts[1..])
  }

  // ---------- what a value is worth ----------

  predicate IsBlock(j: Json) {
    j.Obj? && "type" in j.fields && j.fields["type"].Str?
  }

  predicate IsCallToolResult(v: Json) {
    && v.Obj? && "content" in v.fields && v.fields["content"].Arr?
    && forall i :: 0 <= i < |v.fields["content"].items| ==> IsBlock(v.fields["content"].items[i])
  }

  /** The texts a block contributes: the text of a text block, even an empty one, and the non-empty text of
      an embedded resource. */
  function Texts(b: Json): seq<string>
    requires IsBlock(b)
  {
    match b.fields["type"].text
    case "text" => if "text" in b.fields && b.fields["text"].Str? then [b.fields["text"].text] else []
    case "resource" =>
      if "resource" in b.fields && b.fields["resource"].Obj? && Field(b.fields["resource"].fields, "text") != ""
      then [Field(b.fields["resource"].fields, "text")] else []
    case _ => []
  }

  /** The payloads a block contributes: an image with data, and the non-empty blob of a resource. */
  function Binaries(b: Json): seq<Binary>
    requires IsBlock(b)
  {
    match b.fields["type"].text
    case "image" =>
      if Field(b.fields, "data") == "" then []
      else [Binary(Field(b.fields, "data"), Field(b.fields, "mimeType"), "image", "")]
    case "resource" =>
      if "resource" in b.fields && b.fields["resource"].Obj? && Field(b.fields["resource"].fields, "blob") != "" then
        var r := b.fields["resource"].fields;
        [Binary(Field(r, "blob"),
                if Field(r, "mimeType") == "" then "application/octet-stream" else Field(r, "mimeType"),
                "resource", Field(r, "uri"))]
      else []
    case _ => []
  }

  function AllTexts(blocks: seq<Json>): seq<string>
    requires forall i :: 0 <= i < |blocks| ==> IsBlock(blocks[i])
  {
    if blocks == [] then [] else AllTexts(blocks[..|blocks| - 1]) + Texts(blocks[|blocks| - 1])
  }

  function AllBinaries(blocks: seq<Json>): seq<Binary>
    requires forall i :: 0 <= i < |blocks| ==> IsBlock(blocks[i])
  {
    if blocks == [] then [] else AllBinaries(blocks[..|blocks| - 1]) + Binaries(blocks[|blocks| - 1])
  }

  /** Succeeds exactly on objects whose "content" is an array of objects with string types; the second loop
      never meets a block its casts do not fit. Texts and payloads come out in block order, each once. */
  method ConvertMCPCallToolResult(value: Json) returns (r: Option<ToolResult>)
    ensures r.Some? <==> IsCallToolResult(value)
    ensures r.Some? ==>
      && r.value.text == Join(AllTexts(value.fields["content"].items))
      && r.value.binaries == AllBinaries(value.fields["content"].items)
      && r.value.resultType ==
           if "isError" in value.fields && value.fields["isError"] == Bool(true) then "failure" else "success"
  {
    if !value.Obj? || "content" !in value.fields || !value.fields["content"].Arr? {
      return None;
    }
    var m := value.fields;
    var content := m["content"].items;
    for i := 0 to |content|
      invariant forall j :: 0 <= j < i ==> IsBlock(content[j])
    {
      if !content[i].Obj? {
        return None;
      }
      var block := content[i].fields;
      if "type" !in block || !block["type"].Str? {
        return None;
      }
    }

    var textParts: seq<string> := [];
    var binaryResults: seq<Binary> := [];
    for i := 0 to |content|
      invariant textParts == AllTexts(content[..i])
      invariant binaryResults == AllBinaries(content[..i])
    {
      assert content[..i + 1][..i] == content[..i];
      var block := content[i].fields;
      var blockType := block["type"].text;
      if blockType == "text" {
        if "text" in block && block["text"].Str? {
          textParts := textParts + [block["text"].text];
        }
      } else if blockType == "image" {
        var data := Field(block, "data");
        var mimeType := Field(block, "mimeType");
        if data == "" {
          continue;
        }
        binaryResults := binaryResults + [Binary(data, mimeType, "image", "")];
      } else if blockType == "resource" {
        if "resource" in block && block["resource"].Obj? {
          var res := block["resource"].fields;
          var text := Field(res, "text");
          if text != "" {
            textParts := textParts + [text];
          }
          var blob := Field(res, "blob");
          if blob != "" {
            var mimeType := Field(res, "mimeType");
            if mimeType == "" {
              mimeType := "application/octet-stream";
            }
            binaryResults := binaryResults + [Binary(blob, mimeType, "resource", Field(res, "uri"))];
          }
        }
      }
    }
    assert content[..|content|] == content;
    var resultType := "success";
    if "isError" in m && m["isError"].Bool? && m["isError"].flag {
      resultType := "failure";
    }
    return Some(ToolResult(Join(textParts), resultType, binaryResults));
  }

  // ---------- what a block contributes, read off its fields ----------

  /** The field is there and is this string. */
  predicate Says(m: map<string, Json>, key: string, text: string) {
    key in m && m[key] == Str(text)
  }

  /** The field is missing or not a string, or is this string. */
  predicate SaysOrNothing(m: map<string, Json>, key: string, text: string) {
    if key in m && m[key].Str? then m[key] == Str(text) else text == ""
  }

  predicate HasResource(m: map<string, Json>) {
    Says(m, "type", "resource") && "resource" in m && m["resource"].Obj?
  }

  /** A text block contributes its text, whatever it is; a resource its text unless that is empty; no other
      block contributes any. */
  lemma TextsMean(b: Json, s: string)
    requires IsBlock(b)
    ensures Says(b.fields, "type", "text") ==> (Texts(b) == [s] <==> Says(b.fields, "text", s))
    ensures HasResource(b.fields) ==> (Texts(b) == [s] <==> s != "" && Says(b.fields["resource"].fields, "text", s))
    ensures !Says(b.fields, "type", "text") && !HasResource(b.fields) ==> Texts(b) == []
    ensures |Texts(b)| <= 1
  {
  }

  /** An image block with data contributes it with its MIME type and no description; a resource with a blob
      contributes that with its URI as description, and with the octet-stream type if it has none; no other
      block contributes any. */
  lemma BinariesMean(b: Json)
    requires IsBlock(b)
    ensures |Binaries(b)| <= 1
    ensures Binaries(b) != [] <==>
      || (Says(b.fields, "type", "image") && exists d :: d != "" && Says(b.fields, "data", d))
      || (HasResource(b.fields) && exists d :: d != "" && Says(b.fields["resource"].fields, "blob", d))
    ensures Binaries(b) != [] && Says(b.fields, "type", "image") ==>
      var p := Binaries(b)[0];
      && p.kind == "image" && p.description == ""
      && Says(b.fields, "data", p.data) && SaysOrNothing(b.fields, "mimeType", p.mimeType)
    ensures Binaries(b) != [] && HasResource(b.fields) ==>
      var p, r := Binaries(b)[0], b.fields["resource"].fields;
      && p.kind == "resource" && SaysOrNothing(r, "uri", p.description)
      && Says(r, "blob", p.data)
      && (SaysOrNothing(r, "mimeType", "") ==> p.mimeType == "application/octet-stream")
      && (!SaysOrNothing(r, "mimeType", "") ==> Says(r, "mimeType", p.mimeType))
  {
    if Says(b.fields, "type", "image") && "data" in b.fields && b.fields["data"].Str? {
      assert Says(b.fields, "data", b.fields["data"].text);
    }
    if HasResource(b.fields) {
      var r := b.fields["resource"].fields;
      if "blob" in r && r["blob"].Str? {
        assert Says(r, "blob", r["blob"].text);
      }
    }
  }

  // ---------- writing blocks and converting them back ----------

  /** What a tool may have to say, one block each. */
  datatype Part =
    | TextPart(text: string)
    | ImagePart(data: string, mimeType: string)
    | ResourcePart(text: string, blob: string, mimeType: string, uri: string)
    | OtherPart(blockType: string, content: Json)

  function Written(p: Part): Json {
    match p
    case TextPart(text) => Obj(map["type" := Str("text"), "text" := Str(text)])
    case ImagePart(data, mimeType) =>
      Obj(map["type" := Str("image"), "data" := Str(data), "mimeType" := Str(mimeType)])
    case ResourcePart(text, blob, mimeType, uri) =>
      Obj(map["type" := Str("resource"),
              "resource" := Obj(map["text" := Str(text), "blob" := Str(blob),
                                    "mimeType" := Str(mimeType), "uri" := Str(uri)])])
    case OtherPart(blockType, content) => Obj(map["type" := Str(blockType), "content" := content])
  }

  function WrittenAll(parts: seq<Part>): seq<Json> {
    seq(|parts|, i requires 0 <= i < |parts| => Written(parts[i]))
  }

  predicate Unknown(blockType: string) {
    blockType != "text" && blockType != "image" && blockType != "resource"
  }

  function TextOf(p: Part): seq<string> {
    match p
    case TextPart(text) => [text]
    case ResourcePart(text, _, _, _) => if text != "" then [text] else []
    case _ => []
  }

  function PayloadOf(p: Part): seq<Binary> {
    match p
    case ImagePart(data, mimeType) => if data != "" then [Binary(data, mimeType, "image", "")] else []
    case ResourcePart(_, blob, mimeType, uri) =>
      if blob == "" then []
      else if mimeType == "" then [Binary(blob, "application/octet-stream", "resource", uri)]
      else [Binary(blob, mimeType, "resource", uri)]
    case _ => []
  }

  function TextsOf(parts: seq<Part>): seq<string> {
    if parts == [] then [] else TextsOf(parts[..|parts| - 1]) + TextOf(parts[|parts| - 1])
  }

  function PayloadsOf(parts: seq<Part>): seq<Binary> {
    if parts == [] then [] else PayloadsOf(parts[..|parts| - 1]) + PayloadOf(parts[|parts| - 1])
  }

  lemma WrittenBlock(p: Part)
    requires p.OtherPart? ==> Unknown(p.blockType)
    ensures IsBlock(Written(p)) && Texts(Written(p)) == TextOf(p) && Binaries(Written(p)) == PayloadOf(p)
  {
    var b := Written(p);
    match p
    case TextPart(text) => assert b.fields["type"] == Str("text") && b.fields["text"] == Str(text);
    case ImagePart(data, mimeType) =>
      assert b.fields["type"] == Str("image") && b.fields["data"] == Str(data) && b.fields["mimeType"] == Str(mimeType);
    case ResourcePart(text, blob, mimeType, uri) =>
      assert b.fields["type"] == Str("resource") && b.fields["resource"].Obj?;
      var r := b.fields["resource"].fields;
      assert r["text"] == Str(text) && r["blob"] == Str(blob) && r["mimeType"] == Str(mimeType) && r["uri"] == Str(uri);
    case OtherPart(blockType, _) => assert b.fields["type"] == Str(blockType);
  }

  lemma {:induction false} WrittenBlocks(parts: seq<Part>)
    requires forall i :: 0 <= i < |parts| && parts[i].OtherPart? ==> Unknown(parts[i].blockType)
    ensures forall i :: 0 <= i < |parts| ==> IsBlock(WrittenAll(parts)[i])
    ensures AllTexts(WrittenAll(parts)) == TextsOf(parts)
    ensures AllBinaries(WrittenAll(parts)) == PayloadsOf(parts)
  {
    hide Written, Texts, Binaries, IsBlock, TextOf, PayloadOf, Unknown;
    if parts != [] {
      var front, p := parts[..|parts| - 1], parts[|parts| - 1];
      WrittenBlocks(front);
      WrittenBlock(p);
      var blocks := WrittenAll(parts);
      assert blocks == WrittenAll(front) + [Written(p)];
      hide WrittenAll;
      assert blocks[..|parts| - 1] == WrittenAll(front) && blocks[|parts| - 1] == Written(p);
      assert forall i :: 0 <= i < |parts| - 1 ==> blocks[i] == WrittenAll(front)[i];
    }
  }

  /** A result written block by block comes back with exactly its texts, joined by newlines, and its payloads,
      in order; blocks of other types, and empty payloads, leave nothing. */
  method ConvertWritten(parts: seq<Part>, isError: bool) returns (r: Option<ToolResult>)
    requires forall i :: 0 <= i < |parts| && parts[i].OtherPart? ==> Unknown(parts[i].blockType)
    ensures r == Some(ToolResult(Join(TextsOf(parts)), if isError then "failure" else "success", PayloadsOf(parts)))
  {
    WrittenBlocks(parts);
    var value := Obj(map["content" := Arr(WrittenAll(parts)), "isError" := Bool(isError)]);
    assert value.fields["content"].items == WrittenAll(parts) && value.fields["isError"] == Bool(isError);
    hide WrittenAll, Written, IsBlock, AllTexts, AllBinaries, TextsOf, PayloadsOf, Join;
    r := ConvertMCPCallToolResult(value);
  }

  // ---------- every block is extracted once, in order ----------

  function TextParts(blocks: seq<Json>): seq<seq<string>>
    requires forall i :: 0 <= i < |blocks| ==> IsBlock(blocks[i])
  {
    seq(|blocks|, i requires 0 <= i < |blocks| => Texts(blocks[i]))
  }

  lemma TextPartsLast(blocks: seq<Json>)
    requires blocks != [] && forall i :: 0 <= i < |blocks| ==> IsBlock(blocks[i])
    ensures var last := |blocks| - 1;
      && TextParts(blocks) == TextParts(blocks[..last]) + [Texts(blocks[last])] && |Texts(blocks[last])| <= 1
      && AllTexts(blocks) == AllTexts(blocks[..last]) + Texts(blocks[last])
  {
    assert |Texts(blocks[|blocks| - 1])| <= 1;
    hide Texts, IsBlock;
  }

  /** Each text comes from one block, in block order, and no block with a text is passed over. */
  lemma {:induction false} TextsInBlockOrder(blocks: seq<Json>) returns (at: seq<nat>)
    requires forall i :: 0 <= i < |blocks| ==> IsBlock(blocks[i])
    ensures Picks(TextParts(blocks), AllTexts(blocks), at)
  {
    if blocks == [] {
      at := [];
    } else {
      hide Texts, AllTexts, IsBlock, Picks, TextParts;
      var last := |blocks| - 1;
      TextPartsLast(blocks);
      var before := TextsInBlockOrder(blocks[..last]);
      PicksAppend(TextParts(blocks[..last]), AllTexts(blocks[..last]), before, Texts(blocks[last]));
      at := if Texts(blocks[last]) == [] then before else before + [|TextParts(blocks[..last])|];
    }
  }

  function BinaryParts(blocks: seq<Json>): seq<seq<Binary>>
    requires forall i :: 0 <= i < |blocks| ==> IsBlock(blocks[i])
  {
    seq(|blocks|, i requires 0 <= i < |blocks| => Binaries(blocks[i]))
  }

  lemma BinaryPartsLast(blocks: seq<Json>)
    requires blocks != [] && forall i :: 0 <= i < |blocks| ==> IsBlock(blocks[i])
    ensures var last := |blocks| - 1;
      && BinaryParts(blocks) == BinaryParts(blocks[..last]) + [Binaries(blocks[last])] && |Binaries(blocks[last])| <= 1
      && AllBinaries(blocks) == AllBinaries(blocks[..last]) + Binaries(blocks[last])
  {
    assert |Binaries(blocks[|blocks| - 1])| <= 1;
    hide Binaries, IsBlock;
  }

  /** The same for the payloads. */
  lemma {:induction false} BinariesInBlockOrder(blocks: seq<Json>) returns (at: seq<nat>)
    requires forall i :: 0 <= i < |blocks| ==> IsBlock(blocks[i])
    ensures Picks(BinaryParts(blocks), AllBinaries(blocks), at)
  {
    if blocks == [] {
      at := [];
    } else {
      hide Binaries, AllBinaries, IsBlock, Picks, BinaryParts;
      var last := |blocks| - 1;
      BinaryPartsLast(blocks);
      var before := BinariesInBlockOrder(blocks[..last]);
      PicksAppend(BinaryParts(blocks[..last]), AllBinaries(blocks[..last]), before, Binaries(blocks[last]));
      at := if Binaries(blocks[last]) == [] then before else before + [|BinaryParts(blocks[..last])|];
    }
  }

  // ---------- nothing is lost in the joined text ----------

  function Sum(parts: seq<string>): nat {
    if parts == [] then 0 else |parts[0]| + Sum(parts[1..])
  }

  /** The joined text is as long as its parts and one separator between each two. */
  lemma {:induction false} JoinLength(parts: seq<string>)
    ensures |Join(parts)| == Sum(parts) + (if parts == [] then 0 else |parts| - 1)
  {
    if |parts| > 1 {
      JoinLength(parts[1..]);
    }
  }

  function Newlines(s: string): nat {
    if s == "" then 0 else (if s[0] == '\n' then 1 else 0) + Newlines(s[1..])
  }

  /** The lines of a text. */
  function Lines(s: string): (lines: seq<string>)
    ensures |lines| == Newlines(s) + 1
  {
    if s == "" then [""]
    else if s[0] == '\n' then [""] + Lines(s[1..])
    else
      var rest := Lines(s[1..]);
      [[s[0]] + rest[0]] + rest[1..]
  }

  lemma {:induction false} NewlinesConcat(s: string, t: string)
    ensures Newlines(s + t) == Newlines(s) + Newlines(t)
    decreases |s|
  {
    if s == "" {
      assert s + t == t;
    } else {
      assert (s + t)[0] == s[0] && (s + t)[1..] == s[1..] + t;
      NewlinesConcat(s[1..], t);
    }
  }

  lemma {:induction false} FirstLine(s: string, t: string)
    requires Newlines(s) == 0
    ensures Lines(s) == [s] && Lines(s + "\n" + t) == [s] + Lines(t)
    decreases |s|
  {
    var line := s + "\n" + t;
    if s == "" {
      assert line[0] == '\n' && line[1..] == t;
    } else {
      FirstLine(s[1..], t);
      assert line[0] == s[0] && line[1..] == s[1..] + "\n" + t;
      assert [s[0]] + s[1..] == s;
      assert Lines(line) == [[s[0]] + ([s[1..]] + Lines(t))[0]] + ([s[1..]] + Lines(t))[1..];
    }
  }

  lemma {:induction false} JoinNewlines(parts: seq<string>)
    requires parts != []
    ensures Newlines(Join(parts)) >= |parts| - 1
    ensures (exists i :: 0 <= i < |parts| && Newlines(parts[i]) > 0) ==> Newlines(Join(parts)) >= |parts|
  {
    if |parts| > 1 {
      JoinNewlines(parts[1..]);
      NewlinesConcat(parts[0] + "\n", Join(parts[1..]));
      NewlinesConcat(parts[0], "\n");
      assert Newlines("\n") == 1 + Newlines("\n"[1..]);
      if i :| 0 < i < |parts| && Newlines(parts[i]) > 0 {
        assert parts[1..][i - 1] == parts[i];
      }
    }
  }

  /** Splitting the joined text into lines gives the parts back exactly when there is a part and no part
      has a newline of its own. */
  lemma {:induction false} LinesOfJoin(parts: seq<string>)
    ensures Lines(Join(parts)) == parts <==> parts != [] && forall i :: 0 <= i < |parts| ==> Newlines(parts[i]) == 0
  {
    if parts == [] {
    } else if forall i :: 0 <= i < |parts| ==> Newlines(parts[i]) == 0 {
      LinesOfPlain(parts);
    } else {
      JoinNewlines(parts);
    }
  }

  lemma {:induction false} LinesOfPlain(parts: seq<string>)
    requires parts != [] && forall i :: 0 <= i < |parts| ==> Newlines(parts[i]) == 0
    ensures Lines(Join(parts)) == parts
  {
    hide Newlines, Lines;
    if |parts| == 1 {
      FirstLine(parts[0], "");
      assert parts == [parts[0]];
    } else {
      LinesOfPlain(parts[1..]);
      FirstLine(parts[0], Join(parts[1..]));
      assert parts == [parts[0]] + parts[1..];
    }
  }
}
