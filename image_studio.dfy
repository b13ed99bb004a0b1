/**
 * The image demo (components/demos/ImageStudio.tsx): `handleGenerate` asks the image model for a
 * square picture of the chosen size, `handleEdit` sends the uploaded picture with a prompt, and both
 * show the first inline image of the response as a PNG data URL.
 *
 * Each handler awaits the model call once and is split there into a `Begin…` method, which returns
 * the request it would send, and a `Finish…` method, which takes the call's outcome as input.  The
 * browser's key-selection dialog is an input too: whether it exists and what it reports.
 */
module ImageStudio {

  import opened Wrappers
  import JsString

  datatype Mode = Generate | Edit

  /** The pieces of a `generateContent` response the handlers read; every level may be absent. */
  datatype InlineImage = InlineImage(data: Option<string>)
  datatype ImagePart = ImagePart(inlineData: Option<InlineImage>)
  datatype ImageContent = ImageContent(parts: Option<seq<ImagePart>>)
  datatype ImageCandidate = ImageCandidate(content: Option<ImageContent>)
  datatype ImageResponse = ImageResponse(candidates: Option<seq<ImageCandidate>>)

  /** The model call ends with a response, or throws. */
  datatype Outcome = Responded(response: ImageResponse) | Failed

  /** The `generateContent` calls the two handlers make. */
  datatype ImageRequest =
    | GenerateRequest(model: string, prompt: string, imageSize: string, aspectRatio: string)
    | EditRequest(model: string, mimeType: string, data: Option<string>, text: string)

  const GenerateModel: string := "gemini-3-pro-image-preview"
  const EditModel: string := "gemini-2.5-flash-image"
  const AspectRatio: string := "1:1"
  const EditMimeType: string := "image/png"
  const DefaultEditPrompt: string := "Enhance this image"
  const ImagePrefix: string := "data:image/png;base64,"
  const ImageSizes: seq<string> := ["1K", "2K", "4K"]

  const UploadFirstAlert: string := "Please upload an image first."
  const GenerationFailedAlert: string := "Generation failed. Ensure you have selected a valid paid API key project."
  const EditingFailedAlert: string := "Editing failed."

  /** `response.candidates?.[0]?.content?.parts || []`. */
  function ResponseParts(response: ImageResponse): (r: seq<ImagePart>)
    ensures r != [] ==> && response.candidates.Some? && |response.candidates.value| > 0
                        && response.candidates.value[0].content.Some?
                        && response.candidates.value[0].content.value.parts == Some(r)
    ensures (response.candidates.Some? && |response.candidates.value| > 0
             && response.candidates.value[0].content.Some?
             && response.candidates.value[0].content.value.parts.Some?) ==>
      r == response.candidates.value[0].content.value.parts.value
  {
    match response.candidates
    case None => []
    case Some(candidates) =>
      if candidates == [] then []
      else
        match candidates[0].content
        case None => []
        case Some(content) => content.parts.GetOr([])
  }

  /** The index of the first part carrying `inlineData`, if any. */
  function FirstInline(parts: seq<ImagePart>): (r: Option<nat>)
    ensures r.Some? ==> r.value < |parts| && parts[r.value].inlineData.Some?
    ensures r.Some? ==> forall j :: 0 <= j < r.value ==> parts[j].inlineData.None?
    ensures r.None? ==> forall j :: 0 <= j < |parts| ==> parts[j].inlineData.None?
    decreases |parts|
  {
    if parts == [] then None
    else if parts[0].inlineData.Some? then Some(0)
    else
      match FirstInline(parts[1..])
      case None => None
      case Some(i) => Some(i + 1)
  }

  /** `` `data:image/png;base64,${data}` ``, where a missing `data` renders as `undefined`. */
  function ImageUrl(data: Option<string>): (r: string)
    ensures ImagePrefix <= r
    ensures data.Some? ==> r[|ImagePrefix|..] == data.value
  {
    ImagePrefix + (if data.Some? then data.value else "undefined")
  }

  /** The image a response yields: the data URL of its first inline part, if it has one. */
  function ResultOf(parts: seq<ImagePart>): (r: Option<string>)
    ensures r.Some? <==> exists j :: 0 <= j < |parts| && parts[j].inlineData.Some?
  {
    match FirstInline(parts)
    case None => None
    case Some(i) => Some(ImageUrl(parts[i].inlineData.value.data))
  }

  /** Parts after the first inline image are ignored. */
  lemma {:induction false} LaterPartsIgnored(parts: seq<ImagePart>, later: seq<ImagePart>)
    requires FirstInline(parts).Some?
    ensures FirstInline(parts + later) == FirstInline(parts)
    ensures ResultOf(parts + later) == ResultOf(parts)
    decreases |parts|
  {
    if parts[0].inlineData.None? {
      assert (parts + later)[1..] == parts[1..] + later;
      LaterPartsIgnored(parts[1..], later);
    }
  }

  /**
   * The `for (const part of parts) { if (part.inlineData) { … break; } }` scan: the data URL of
   * the first part with inline data, or `None` when no part has any.
   */
  method FirstInlineImage(parts: seq<ImagePart>) returns (r: Option<string>)
    ensures r == ResultOf(parts)
  {
    r := None;
    var i := 0;
    while i < |parts|
      invariant 0 <= i <= |parts|
      invariant forall j :: 0 <= j < i ==> parts[j].inlineData.None?
    {
      if parts[i].inlineData.Some? {
        r := Some(ImageUrl(parts[i].inlineData.value.data));
        break;
      }
      i := i + 1;
    }
  }

  /** `uploadImage.split(',')[1]`: the payload after the data URL's header, `None` when there is no comma. */
  function UploadPayload(upload: string): (r: Option<string>)
    ensures r.None? <==> ',' !in upload
  {
    JsString.SecondField(upload, ',')
  }

  /** For a data URL `header,payload` the payload is what gets sent. */
  lemma DataUrlPayload(header: string, payload: string)
    requires ',' !in header && ',' !in payload
    ensures UploadPayload(header + [','] + payload) == Some(payload)
  {
    JsString.SplitPrefix(header, payload, ',');
    JsString.SplitNoSeparator(payload, ',');
  }

  /** `prompt || "Enhance this image"`. */
  function EditPrompt(prompt: string): (r: string)
    ensures r != []
    ensures prompt != [] ==> r == prompt
    ensures prompt == [] ==> r == DefaultEditPrompt
  {
    if prompt == [] then DefaultEditPrompt else prompt
  }

  class Studio {
    var mode: Mode
    var prompt: string
    var imageSize: string
    var resultImage: Option<string>
    var loading: bool
    var uploadImage: Option<string>
    var keySelected: bool
    var alerts: seq<string>

    /** The size picker only ever holds one of its three options. */
    predicate Valid()
      reads this
    {
      imageSize in ImageSizes
    }

    constructor()
      ensures Valid()
      ensures mode == Generate && prompt == [] && imageSize == "1K" && resultImage.None?
      ensures !loading && uploadImage.None? && !keySelected && alerts == []
    {
      mode := Generate;
      prompt := [];
      imageSize := "1K";
      resultImage := None;
      loading := false;
      uploadImage := None;
      keySelected := false;
      alerts := [];
    }

    /**
     * The mode buttons; choosing generate also runs `checkKey`, which records a selected key when
     * the dialog host exists and reports one.
     */
    method SelectMode(m: Mode, hostPresent: bool, hasKey: bool)
      modifies this
      ensures mode == m
      ensures keySelected == (old(keySelected) || (m == Generate && hostPresent && hasKey))
      ensures prompt == old(prompt) && imageSize == old(imageSize) && resultImage == old(resultImage)
      ensures loading == old(loading) && uploadImage == old(uploadImage) && alerts == old(alerts)
    {
      mode := m;
      if m == Generate && hostPresent && hasKey {
        keySelected := true;
      }
    }

    method SetPrompt(text: string)
      modifies this
      ensures prompt == text
      ensures mode == old(mode) && imageSize == old(imageSize) && resultImage == old(resultImage)
      ensures loading == old(loading) && uploadImage == old(uploadImage)
      ensures keySelected == old(keySelected) && alerts == old(alerts)
    {
      prompt := text;
    }

    /** The size picker's `onChange`: it offers only the three sizes. */
    method SetImageSize(size: string)
      requires size in ImageSizes
      modifies this
      ensures Valid() && imageSize == size
      ensures mode == old(mode) && prompt == old(prompt) && resultImage == old(resultImage)
      ensures loading == old(loading) && uploadImage == old(uploadImage)
      ensures keySelected == old(keySelected) && alerts == old(alerts)
    {
      imageSize := size;
    }

    /** The file reader's `onloadend`: keep the picture as a data URL. */
    method SetUpload(dataUrl: string)
      modifies this
      ensures uploadImage == Some(dataUrl)
      ensures mode == old(mode) && prompt == old(prompt) && imageSize == old(imageSize)
      ensures resultImage == old(resultImage) && loading == old(loading)
      ensures keySelected == old(keySelected) && alerts == old(alerts)
    {
      uploadImage := Some(dataUrl);
    }

    /**
     * `handleGenerate` up to the model call.  Without a selected key the dialog runs first; the
     * handler gives up when the dialog host exists and still reports no key, and otherwise records
     * the key as selected.  It then sets loading, clears the result and asks for a square picture
     * of the chosen size.
     */
    method BeginGenerate(hostPresent: bool, hasKey: bool) returns (request: Option<ImageRequest>)
      requires Valid()
      modifies this
      ensures Valid()
      ensures mode == old(mode) && prompt == old(prompt) && imageSize == old(imageSize)
      ensures uploadImage == old(uploadImage) && alerts == old(alerts)
      ensures !old(keySelected) && hostPresent && !hasKey ==>
        request.None? && !keySelected && loading == old(loading) && resultImage == old(resultImage)
      ensures old(keySelected) || !hostPresent || hasKey ==>
        && keySelected && loading && resultImage.None?
        && request == Some(GenerateRequest(GenerateModel, prompt, imageSize, AspectRatio))
      ensures request.Some? ==> request.value.imageSize in ImageSizes && request.value.aspectRatio == "1:1"
    {
      if !keySelected {
        if hostPresent && hasKey {
          keySelected := true;
        }
        if hostPresent && !hasKey {
          return None;
        }
        keySelected := true;
      }
      loading := true;
      resultImage := None;
      request := Some(GenerateRequest(GenerateModel, prompt, imageSize, AspectRatio));
    }

    /**
     * `handleEdit` up to the model call.  Without an uploaded picture it alerts and returns;
     * otherwise it sets loading, clears the result and sends the payload of the data URL with the
     * prompt, or the default prompt when that is empty.
     */
    method BeginEdit() returns (request: Option<ImageRequest>)
      modifies this
      ensures mode == old(mode) && prompt == old(prompt) && imageSize == old(imageSize)
      ensures uploadImage == old(uploadImage) && keySelected == old(keySelected)
      ensures uploadImage.None? || uploadImage.value == [] ==>
        && request.None? && alerts == old(alerts) + [UploadFirstAlert]
        && loading == old(loading) && resultImage == old(resultImage)
      ensures uploadImage.Some? && uploadImage.value != [] ==>
        && alerts == old(alerts) && loading && resultImage.None?
        && request == Some(EditRequest(EditModel, EditMimeType, UploadPayload(uploadImage.value), EditPrompt(prompt)))
    {
      if uploadImage.None? || uploadImage.value == [] {
        alerts := alerts + [UploadFirstAlert];
        return None;
      }
      loading := true;
      resultImage := None;
      var base64Data := UploadPayload(uploadImage.value);
      request := Some(EditRequest(EditModel, EditMimeType, base64Data, EditPrompt(prompt)));
    }

    /**
     * Either handler after the model call: show the first inline image, if there is one, or alert
     * the handler's failure text; loading ends either way.
     */
    method Finish(outcome: Outcome, failureAlert: string)
      modifies this
      ensures !loading
      ensures mode == old(mode) && prompt == old(prompt) && imageSize == old(imageSize)
      ensures uploadImage == old(uploadImage) && keySelected == old(keySelected)
      ensures outcome.Failed? ==> resultImage == old(resultImage) && alerts == old(alerts) + [failureAlert]
      ensures outcome.Responded? ==> alerts == old(alerts)
      ensures outcome.Responded? ==>
        resultImage == (var r := ResultOf(ResponseParts(outcome.response)); if r.Some? then r else old(resultImage))
    {
      match outcome {
        case Failed =>
          alerts := alerts + [failureAlert];
        case Responded(response) =>
          var image := FirstInlineImage(ResponseParts(response));
          if image.Some? {
            resultImage := image;
          }
      }
      loading := false;
    }

    /** The end of `handleGenerate`. */
    method FinishGenerate(outcome: Outcome)
      modifies this
      ensures !loading
      ensures mode == old(mode) && prompt == old(prompt) && imageSize == old(imageSize)
      ensures uploadImage == old(uploadImage) && keySelected == old(keySelected)
      ensures outcome.Failed? ==> resultImage == old(resultImage) && alerts == old(alerts) + [GenerationFailedAlert]
      ensures outcome.Responded? ==> alerts == old(alerts)
      ensures outcome.Responded? ==>
        resultImage == (var r := ResultOf(ResponseParts(outcome.response)); if r.Some? then r else old(resultImage))
    {
      Finish(outcome, GenerationFailedAlert);
    }

    /** The end of `handleEdit`. */
    method FinishEdit(outcome: Outcome)
      modifies this
      ensures !loading
      ensures mode == old(mode) && prompt == old(prompt) && imageSize == old(imageSize)
      ensures uploadImage == old(uploadImage) && keySelected == old(keySelected)
      ensures outcome.Failed? ==> resultImage == old(resultImage) && alerts == old(alerts) + [EditingFailedAlert]
      ensures outcome.Responded? ==> alerts == old(alerts)
      ensures outcome.Responded? ==>
        resultImage == (var r := ResultOf(ResponseParts(outcome.response)); if r.Some? then r else old(resultImage))
    {
      Finish(outcome, EditingFailedAlert);
    }
  }

  /**
   * A response without any inline image leaves the result as the begin step cleared it: after
   * `BeginEdit` or `BeginGenerate` set it to `None`, it stays `None`.
   */
  lemma NoImageKeepsCleared(parts: seq<ImagePart>)
    requires forall j :: 0 <= j < |parts| ==> parts[j].inlineData.None?
    ensures ResultOf(parts).None?
  {
  }
}
