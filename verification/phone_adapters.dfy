/** The two adapters of the agent-provisioning pipeline: OCR text extraction
    (Asprise receipt API) and knowledge-file upload (Vapi `/file`). */
module PhoneAdapters {
  import opened Common
  import opened Text
  import opened Json
  import opened Http
  import opened Outbound

  /** The receipt fields tried for text, in priority order. */
  const TextKeys: seq<string> := ["ocr_text", "text", "raw_text"]

  /** The OCR response reports success: a dict whose `success` is exactly `True`. */
  predicate IsSuccessObject(ocr: Json) {
    ocr.JObj? && Get(ocr.fields, "success") == Some(JBool(true))
  }

  /** The stripped value of `receipt[key]` when that is a string that is not blank. */
  function UsableText(receipt: seq<(string, Json)>, key: string): (r: Option<string>)
    ensures r.Some? ==> r.value != [] && Strip(r.value) == r.value
  {
    match Get(receipt, key)
    case Some(JStr(s)) =>
      StripIdempotent(s);
      if Strip(s) != [] then Some(Strip(s)) else None
    case _ => None
  }

  /** The position of the first present value. */
  function FirstPresent(opts: seq<Option<string>>): (r: Option<nat>)
    ensures r.None? <==> forall i :: 0 <= i < |opts| ==> opts[i].None?
    ensures r.Some? ==> r.value < |opts| && opts[r.value].Some? &&
                          forall j :: 0 <= j < r.value ==> opts[j].None?
  {
    if opts == [] then None
    else if opts[0].Some? then Some(0)
    else
      var rest := FirstPresent(opts[1..]);
      assert forall i :: 1 <= i < |opts| ==> opts[i] == opts[1..][i - 1];
      if rest.Some? then Some(rest.value + 1) else None
  }

  /** The usable text of each key, in order. */
  function UsableTexts(receipt: seq<(string, Json)>, keys: seq<string>): (r: seq<Option<string>>)
    ensures |r| == |keys| && forall i :: 0 <= i < |keys| ==> r[i] == UsableText(receipt, keys[i])
  {
    seq(|keys|, i requires 0 <= i < |keys| => UsableText(receipt, keys[i]))
  }

  /** The usable text of the first key of `keys` that has one: the value of
      key `k` is returned only when every key before it has none. */
  function FirstText(receipt: seq<(string, Json)>, keys: seq<string>): (r: Option<string>)
    ensures r.None? <==> forall i :: 0 <= i < |keys| ==> UsableText(receipt, keys[i]).None?
    ensures r.Some? ==> exists k :: 0 <= k < |keys| && r == UsableText(receipt, keys[k]) &&
                          forall j :: 0 <= j < k ==> UsableText(receipt, keys[j]).None?
  {
    var texts := UsableTexts(receipt, keys);
    var k := FirstPresent(texts);
    if k.Some? then texts[k.value] else None
  }

  /** The first receipt as a dict when `receipts` is a non-empty list (`{}`
      when that element is not a dict); None when there is no such list. */
  function FirstReceipt(fields: seq<(string, Json)>): (r: Option<seq<(string, Json)>>)
    ensures r.Some? <==> Get(fields, "receipts").Some? && Get(fields, "receipts").value.JArr?
                         && Get(fields, "receipts").value.items != []
  {
    match Get(fields, "receipts")
    case Some(JArr(items)) =>
      if items == [] then None
      else if items[0].JObj? then Some(items[0].fields)
      else Some([])
    case _ => None
  }

  /** For a successful response: the first usable text of the first receipt
      when there is one, otherwise the dump of the whole response. */
  function FoundOrDump(ocr: Json): string
    requires ocr.JObj?
  {
    var first := FirstReceipt(ocr.fields);
    if first.Some? && FirstText(first.value, TextKeys).Some? then FirstText(first.value, TextKeys).value
    else Dump(ocr)
  }

  /** `extract_text_from_asprise`: "" unless the response reports success;
      then the first usable text field of the first receipt; otherwise the
      JSON dump of the whole response. */
  function ExtractTextFromAsprise(ocr: Json): (r: string)
    ensures !IsSuccessObject(ocr) ==> r == ""
    ensures IsSuccessObject(ocr) ==> r == FoundOrDump(ocr)
  {
    if !ocr.JObj? then ""
    else if Get(ocr.fields, "success") != Some(JBool(true)) then ""
    else
      var first := FirstReceipt(ocr.fields);
      var found := if first.Some? then FirstText(first.value, TextKeys) else None;
      if found.Some? then found.value
      else
        var dumped := Dump(ocr);
        DumpObjectNotBlank(ocr.fields);
        if Strip(dumped) != [] then dumped else ""
  }

  /** The extracted text is blank exactly when the response does not report
      success: on success it is either a non-blank field or the dump. */
  lemma ExtractTextBlankIff(ocr: Json)
    ensures Strip(ExtractTextFromAsprise(ocr)) == [] <==> !IsSuccessObject(ocr)
  {
    var r := ExtractTextFromAsprise(ocr);
    if IsSuccessObject(ocr) {
      var first := FirstReceipt(ocr.fields);
      if first.Some? && FirstText(first.value, TextKeys).Some? {
        assert Strip(r) == r && r != [];
      } else {
        DumpObjectNotBlank(ocr.fields);
      }
    }
  }

  /** The OCR request for one file; a missing content type is sent as
      `application/octet-stream`. */
  function OcrRequest(filename: string, contentType: string): (q: Request)
    ensures q.OcrPost? && q.filename == filename && q.contentType != ""
  {
    OcrPost(filename, if contentType != "" then contentType else "application/octet-stream")
  }

  const OcrEmptyText := "OCR returned empty text (file may be unreadable or unsupported)."

  /** `run_ocr` given the reply of the OCR service. A transport error, an
      error status and a body that is not JSON are all `requests` exceptions
      (502); a parsed response with no text is unprocessable (422). */
  function RunOcr(reply: HttpReply): (r: Result<string>)
    ensures r.Ok? ==> SucceededWithJson(reply) && r.value == ExtractTextFromAsprise(reply.body.value)
    ensures r.Ok? ==> Strip(r.value) != []
  {
    match reply
    case TransportError => Err(HttpException(502, ExceptionText("OCR request failed: ")))
    case Reply(status, _, body) =>
      if IsErrorStatus(status) || body.None? then Err(HttpException(502, ExceptionText("OCR request failed: ")))
      else
        var text := ExtractTextFromAsprise(body.value);
        if Strip(text) == [] then Err(HttpException(422, Message(OcrEmptyText)))
        else Ok(text)
  }

  /** `run_ocr` fails with 502 exactly when the call did not yield JSON, with
      422 exactly when the JSON is not a successful dict, and succeeds otherwise. */
  lemma RunOcrClassification(reply: HttpReply)
    ensures RunOcr(reply).Err? && RunOcr(reply).error.status == 502 <==> !SucceededWithJson(reply)
    ensures (RunOcr(reply).Err? && RunOcr(reply).error.status == 422) <==>
              (SucceededWithJson(reply) && !IsSuccessObject(reply.body.value))
    ensures RunOcr(reply).Ok? <==> SucceededWithJson(reply) && IsSuccessObject(reply.body.value)
  {
    if SucceededWithJson(reply) {
      ExtractTextBlankIff(reply.body.value);
    }
  }

  /** The `.txt` name a text is uploaded under: the base name up to its last
      '.', plus ".txt"; "kb.txt" for an empty base name. */
  function TxtName(baseFilename: string): (r: string)
    ensures |r| >= 4 && r[|r| - 4..] == ".txt"
    ensures baseFilename == "" ==> r == "kb.txt"
    ensures baseFilename != "" && '.' !in baseFilename ==> r == baseFilename + ".txt"
    ensures baseFilename != "" && '.' in baseFilename ==>
              r == baseFilename[..LastIndexOf(baseFilename, '.')] + ".txt"
  {
    if baseFilename != "" then BeforeLast(baseFilename, '.') + ".txt" else "kb.txt"
  }

  /** The last `c` of `stem + [c] + tail` is the one after `stem` when `tail` has none. */
  lemma {:induction false} LastIndexOfBeforeTail(stem: string, tail: string, c: char)
    requires c !in tail
    ensures LastIndexOf(stem + [c] + tail, c) == |stem|
    decreases |tail|
  {
    var s := stem + [c] + tail;
    if tail != [] {
      assert s[|s| - 1] == tail[|tail| - 1];
      assert s[..|s| - 1] == stem + [c] + tail[..|tail| - 1];
      LastIndexOfBeforeTail(stem, tail[..|tail| - 1], c);
    }
  }

  /** "a.b.pdf" becomes "a.b.txt": only the part after the last '.' goes. */
  lemma TxtNameKeepsInnerDots()
    ensures TxtName("a.b.pdf") == "a.b.txt"
  {
    assert "a.b" + "." + "pdf" == "a.b.pdf";
    LastIndexOfBeforeTail("a.b", "pdf", '.');
    assert "a.b.pdf"[..3] == "a.b";
  }

  /** ".x" becomes ".txt": the stem before the only '.' is empty. */
  lemma TxtNameHiddenFile()
    ensures TxtName(".x") == ".txt"
  {
    assert "" + "." + "x" == ".x";
    LastIndexOfBeforeTail("", "x", '.');
  }

  lemma TxtNameExamples()
    ensures TxtName("noext") == "noext.txt"
    ensures TxtName("") == "kb.txt"
  {
    assert '.' !in "noext";
  }

  /** The default base name of an upload without a filename. */
  lemma TxtNameDefaultUpload()
    ensures TxtName("upload.pdf") == "upload.txt"
  {
    assert "upload" + "." + "pdf" == "upload.pdf";
    LastIndexOfBeforeTail("upload", "pdf", '.');
    assert "upload.pdf"[..6] == "upload";
  }

  /** A name already ending in ".txt" is kept, so deriving twice is deriving once. */
  lemma TxtNameIdempotent(baseFilename: string)
    ensures TxtName(TxtName(baseFilename)) == TxtName(baseFilename)
  {
    var r := TxtName(baseFilename);
    var stem := r[..|r| - 4];
    assert r == stem + "." + "txt";
    LastIndexOfBeforeTail(stem, "txt", '.');
  }

  /** The multipart upload of one extracted text. */
  function UploadRequest(text: string, baseFilename: string): (q: Request)
    ensures q.FilePost? && q.name == TxtName(baseFilename) && q.content == text
  {
    FilePost(TxtName(baseFilename), text)
  }

  /** `upload_text_to_vapi` given the reply of Vapi's `/file`: the `id` of the
      response. Request failures and non-JSON bodies are 502, a dict without
      `id` is 502 with its own message, and a JSON value that is not a dict
      makes `["id"]` raise a TypeError nobody catches (500). */
  function UploadTextToVapi(reply: HttpReply): (r: Result<Json>)
    ensures r.Ok? <==> SucceededWithJson(reply) && Member(reply.body.value, "id").Some?
    ensures r.Ok? ==> r.value == Member(reply.body.value, "id").value
    ensures r.Err? && r.error.status == 502 <==>
              !SucceededWithJson(reply) || (reply.body.value.JObj? && Member(reply.body.value, "id").None?)
    ensures SucceededWithJson(reply) && !reply.body.value.JObj? ==> r == Err(InternalServerError)
  {
    match reply
    case TransportError => Err(HttpException(502, ExceptionText("Vapi file upload failed: ")))
    case Reply(status, _, body) =>
      if IsErrorStatus(status) || body.None? then Err(HttpException(502, ExceptionText("Vapi file upload failed: ")))
      else
        match body.value
        case JObj(fields) =>
          (match Get(fields, "id")
           case Some(id) => Ok(id)
           case None => Err(HttpException(502, Message("Vapi file upload response missing 'id'"))))
        case _ => Err(InternalServerError)
  }
}
