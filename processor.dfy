/** `KYCDocumentProcessor`: the cached image encoding and extension, the
    extension check, the `data:` URL handed to the vision model, the prompt
    update, and the quote normalisation applied to model replies before they
    are parsed as JSON. The model call and base64 encoding are parameters. */
module Processor {

  datatype Option<T> = None | Some(value: T)

  /** The model used when the constructor is given none. */
  const DefaultModel: string := "accounts/fireworks/models/phi-3-vision-128k-instruct"

  /** The accepted image extensions, compared case-sensitively. */
  const ValidExtensions: seq<string> := ["png", "jpg", "jpeg", "gif", "bmp", "tiff", "ppm"]

  /** An uploaded file: its name and its bytes. */
  datatype Upload = Upload(name: string, content: seq<bv8>)

  /** The chat request sent to the model: model name, system text, user text
      and the image URL. */
  datatype ChatRequest = ChatRequest(model: string, systemText: string, userText: string, imageUrl: string)

  /** The two `ValueError`s `process_document` raises. */
  datatype ProcessError = MissingImage | InvalidExtension

  /** How `process_document` ends: it raises, or it returns the model's
      reply (None when the model call failed). */
  datatype Outcome = Raised(error: ProcessError) | Returned(reply: Option<string>)

  /** `name.split('.')[-1]`: everything after the last '.', or the whole
      name when it has none. */
  function Extension(name: string): (ext: string)
    ensures |ext| <= |name| && ext == name[|name| - |ext|..]
    ensures '.' !in ext
    ensures |ext| < |name| ==> name[|name| - |ext| - 1] == '.'
    ensures '.' !in name ==> ext == name
  {
    if name == [] then []
    else if name[|name| - 1] == '.' then []
    else Extension(name[..|name| - 1]) + [name[|name| - 1]]
  }

  /** `ext in valid_extensions`: an exact, case-sensitive list membership. */
  predicate IsValidExtension(ext: string)
    ensures IsValidExtension(ext) ==> 3 <= |ext| <= 4
  {
    ext in ValidExtensions
  }

  /** Python truthiness of the cached encoding: None and "" are false. */
  predicate Truthy(cached: Option<string>)
    ensures Truthy(cached) <==> cached != None && cached != Some("")
  {
    cached.Some? && cached.value != ""
  }

  /** How an f-string renders an optional string: None prints as "None". */
  function Render(v: Option<string>): (r: string)
    ensures v.Some? ==> r == v.value
    ensures v.None? ==> r == "None"
  {
    match v
    case None => "None"
    case Some(s) => s
  }

  const DataPrefix: string := "data:image/"
  const Base64Marker: string := ";base64,"

  /** The `data:` URL of an image with extension `ext` and base64 text `data`. */
  function ImageUrl(ext: string, data: string): (url: string)
    ensures |url| == |DataPrefix| + |ext| + |Base64Marker| + |data|
    ensures url[..|DataPrefix|] == DataPrefix
    ensures url[|DataPrefix|..|DataPrefix| + |ext|] == ext
    ensures url[|DataPrefix| + |ext|..|DataPrefix| + |ext| + |Base64Marker|] == Base64Marker
    ensures url[|url| - |data|..] == data
  {
    DataPrefix + ext + Base64Marker + data
  }

  /** The index of the first `c` in `s`, or `|s|` when there is none. */
  function FirstIndexOf(s: string, c: char): (i: nat)
    ensures i <= |s|
    ensures i < |s| ==> s[i] == c
    ensures forall j :: 0 <= j < i ==> s[j] != c
  {
    if s == [] || s[0] == c then 0 else 1 + FirstIndexOf(s[1..], c)
  }

  /** Reads the extension and the base64 text back out of a `data:` URL. */
  function ParseImageUrl(url: string): Option<(string, string)>
  {
    if |url| < |DataPrefix| || url[..|DataPrefix|] != DataPrefix then None
    else
      var rest := url[|DataPrefix|..];
      var i := FirstIndexOf(rest, ';');
      var tail := rest[i..];
      if |tail| < |Base64Marker| || tail[..|Base64Marker|] != Base64Marker then None
      else Some((rest[..i], tail[|Base64Marker|..]))
  }

  /** The URL determines the extension and the image data it was built from,
      for every extension without a ';' (all valid ones, and "None"). */
  lemma ImageUrlRoundTrip(ext: string, data: string)
    requires ';' !in ext
    ensures ParseImageUrl(ImageUrl(ext, data)) == Some((ext, data))
  {
    var url := ImageUrl(ext, data);
    var rest := url[|DataPrefix|..];
    assert rest == ext + Base64Marker + data;
    var i := FirstIndexOf(rest, ';');
    assert rest[|ext|] == ';';
    assert forall j :: 0 <= j < |ext| ==> rest[j] == ext[j];
    assert rest[..i] == ext;
    assert rest[i..] == Base64Marker + data;
  }

  /** Every accepted extension is lower-case ASCII letters only, so none holds
      a ';' or a '.'. */
  lemma ValidExtensionsAreLowerCaseLetters(ext: string)
    requires IsValidExtension(ext)
    ensures forall i :: 0 <= i < |ext| ==> 'a' <= ext[i] <= 'z'
    ensures ';' !in ext && '.' !in ext
  {
  }

  /** Whatever precedes the last dot, the extension is what follows it. */
  lemma {:induction false} ExtensionAfterDot(stem: string, ext: string)
    requires '.' !in ext
    ensures Extension(stem + "." + ext) == ext
  {
    var name := stem + "." + ext;
    if ext == [] {
      assert name[|name| - 1] == '.';
    } else {
      var init := ext[..|ext| - 1];
      assert name[..|name| - 1] == stem + "." + init;
      ExtensionAfterDot(stem, init);
      assert init + [ext[|ext| - 1]] == ext;
    }
  }

  /** The extension is what follows the last dot, even among several. */
  lemma ExtensionAfterLastDot()
    ensures Extension("id.tar.gif") == "gif"
    ensures Extension("id.") == ""
  {
    ExtensionAfterDot("id.tar", "gif");
    assert "id.tar.gif" == "id.tar" + "." + "gif";
    ExtensionAfterDot("id", "");
    assert "id." == "id" + "." + "";
  }

  /** A name without a dot is its own extension, so "png" alone passes. */
  lemma ExtensionOfDotlessName()
    ensures Extension("png") == "png" && IsValidExtension(Extension("png"))
  {
  }

  /** The extension check is case-sensitive: ".png" passes, ".PNG" does not. */
  lemma ExtensionCheckIsCaseSensitive()
    ensures Extension("passport.png") == "png" && IsValidExtension("png")
    ensures Extension("scan.PNG") == "PNG" && !IsValidExtension("PNG")
  {
    ExtensionAfterDot("passport", "png");
    assert "passport.png" == "passport" + "." + "png";
    ExtensionAfterDot("scan", "PNG");
    assert "scan.PNG" == "scan" + "." + "PNG";
    assert forall e :: e in ValidExtensions ==> e[0] != 'P';
  }

  /** The quote replacement `s.replace("'", '"')` applied to model replies. */
  function NormaliseQuotes(s: string): (r: string)
    ensures |r| == |s|
    ensures '\'' !in r
    ensures forall i :: 0 <= i < |s| && s[i] != '\'' ==> r[i] == s[i]
    ensures forall i :: 0 <= i < |s| && s[i] == '\'' ==> r[i] == '"'
  {
    if s == [] then []
    else [if s[0] == '\'' then '"' else s[0]] + NormaliseQuotes(s[1..])
  }

  class KYCDocumentProcessor {
    var model: string
    /** The response pattern, as the text it is interpolated into prompts as. */
    var responsePattern: string
    var systemPrompt: string
    /** The base64 text of the last uploaded image, reused when no image is given. */
    var imageBase64: Option<string>
    /** The extension of the last upload that passed the extension check. */
    var ext: Option<string>

    constructor (responsePattern: string, systemPrompt: string, model: string)
      ensures this.model == model
      ensures this.responsePattern == responsePattern && this.systemPrompt == systemPrompt
      ensures imageBase64 == None && ext == None
    {
      this.model := model;
      this.responsePattern := responsePattern;
      this.systemPrompt := systemPrompt;
      imageBase64 := None;
      ext := None;
    }

    /** `process_document(uploaded_image, user_prompt)`. `b64encode` is the
        base64 encoding of the upload's bytes and `complete` the model call,
        None when that call raised. */
    method ProcessDocument(uploadedImage: Option<Upload>, userPrompt: string,
                           b64encode: seq<bv8> -> string, complete: ChatRequest -> Option<string>)
      returns (outcome: Outcome)
      modifies this`imageBase64, this`ext
      // neither an upload nor a usable cached encoding: raise, touching nothing
      ensures uploadedImage.None? && !Truthy(old(imageBase64)) ==>
                outcome == Raised(MissingImage) && imageBase64 == old(imageBase64) && ext == old(ext)
      // no upload, cached encoding: reuse the cache unchanged
      ensures uploadedImage.None? && Truthy(old(imageBase64)) ==>
                imageBase64 == old(imageBase64) && ext == old(ext) && outcome.Returned?
      // an upload replaces the encoding before its extension is checked
      ensures uploadedImage.Some? ==>
                imageBase64 == Some(b64encode(uploadedImage.value.content))
      ensures uploadedImage.Some? && !IsValidExtension(Extension(uploadedImage.value.name)) ==>
                outcome == Raised(InvalidExtension) && ext == old(ext)
      ensures uploadedImage.Some? && IsValidExtension(Extension(uploadedImage.value.name)) ==>
                ext == Some(Extension(uploadedImage.value.name)) && outcome.Returned?
      // what is returned is the model's reply to the request built from the cache
      ensures outcome.Returned? ==>
                imageBase64.Some?
                && outcome.reply == complete(ChatRequest(model, systemPrompt, userPrompt,
                                                         ImageUrl(Render(ext), imageBase64.value)))
    {
      if !(uploadedImage.Some? || Truthy(imageBase64)) {
        return Raised(MissingImage);
      } else if uploadedImage.Some? {
        var encoded := b64encode(uploadedImage.value.content);
        imageBase64 := Some(encoded);
        var extension := Extension(uploadedImage.value.name);
        if !IsValidExtension(extension) {
          return Raised(InvalidExtension);
        }
        ext := Some(extension);
      }
      var request := ChatRequest(model, systemPrompt, userPrompt, ImageUrl(Render(ext), imageBase64.value));
      var reply := complete(request);
      return Returned(reply);
    }

    /** `update_prompts`: replaces the two prompt fields and nothing else. */
    method UpdatePrompts(responsePattern: string, systemPrompt: string)
      modifies this`responsePattern, this`systemPrompt
      ensures this.responsePattern == responsePattern && this.systemPrompt == systemPrompt
      ensures model == old(model) && imageBase64 == old(imageBase64) && ext == old(ext)
    {
      this.responsePattern := responsePattern;
      this.systemPrompt := systemPrompt;
    }
  }

  /** The model call seen by the scenarios below: it answers with the image
      URL it was sent. */
  function EchoUrl(request: ChatRequest): Option<string>
  {
    Some(request.imageUrl)
  }

  /** A valid upload, then a rejected one, then a call with no upload: the
      rejected upload's encoding is cached beside the earlier upload's
      extension, and that pair is what the last call sends. */
  method RejectedUploadKeepsOldExtension(first: seq<bv8>, second: seq<bv8>, b64encode: seq<bv8> -> string)
    returns (rejected: Outcome, reused: Outcome)
    requires b64encode(second) != ""
    ensures rejected == Raised(InvalidExtension)
    ensures reused == Returned(Some(ImageUrl("png", b64encode(second))))
  {
    var processor := new KYCDocumentProcessor("", "", DefaultModel);
    ExtensionCheckIsCaseSensitive();
    var accepted := processor.ProcessDocument(Some(Upload("passport.png", first)), "", b64encode, EchoUrl);
    assert processor.ext == Some("png");
    rejected := processor.ProcessDocument(Some(Upload("scan.PNG", second)), "", b64encode, EchoUrl);
    assert processor.ext == Some("png") && processor.imageBase64 == Some(b64encode(second));
    reused := processor.ProcessDocument(None, "", b64encode, EchoUrl);
  }

  /** A fresh processor whose first upload is rejected still caches the
      encoding; a later call without an upload then sends an image URL whose
      extension renders as "None". */
  method RejectedFirstUploadSendsNoneExtension(content: seq<bv8>, b64encode: seq<bv8> -> string)
    returns (reused: Outcome)
    requires b64encode(content) != ""
    ensures reused == Returned(Some(ImageUrl("None", b64encode(content))))
  {
    var processor := new KYCDocumentProcessor("", "", DefaultModel);
    ExtensionCheckIsCaseSensitive();
    var rejected := processor.ProcessDocument(Some(Upload("scan.PNG", content)), "", b64encode, EchoUrl);
    assert processor.ext == None && processor.imageBase64 == Some(b64encode(content));
    reused := processor.ProcessDocument(None, "", b64encode, EchoUrl);
  }

  /** A rejected upload of a file whose encoding is empty caches "", which
      is falsy: a later call without an upload raises instead of sending it. */
  method RejectedEmptyUploadThenRaises(content: seq<bv8>, b64encode: seq<bv8> -> string,
                                       complete: ChatRequest -> Option<string>)
    returns (rejected: Outcome, reused: Outcome)
    requires b64encode(content) == ""
    ensures rejected == Raised(InvalidExtension)
    ensures reused == Raised(MissingImage)
  {
    var processor := new KYCDocumentProcessor("", "", DefaultModel);
    ExtensionCheckIsCaseSensitive();
    rejected := processor.ProcessDocument(Some(Upload("scan.PNG", content)), "", b64encode, complete);
    assert processor.imageBase64 == Some("");
    reused := processor.ProcessDocument(None, "", b64encode, complete);
  }

  /** A fresh processor asked to work without an upload raises before any
      model call. */
  method NoImageRaises(userPrompt: string, complete: ChatRequest -> Option<string>)
    returns (outcome: Outcome)
    ensures outcome == Raised(MissingImage)
  {
    var processor := new KYCDocumentProcessor("", "", DefaultModel);
    outcome := processor.ProcessDocument(None, userPrompt, s => "", complete);
  }
}
