// The tag a document or model capability is shown with (src/lib/helper.tsx):
// the tag table and the classification of a document by its MIME type and
// processing status. The MIME lookup by file name is a parameter.

module DocTags {
  import opened Strings

  datatype Icon =
    | FileTextIcon | ImageIcon | VideoIcon | AudioLinesIcon | FileIcon | LinkIcon
    | GlobeIcon | YoutubeIcon | GithubIcon | AlertCircleIcon | Loader2Icon | Hammer | Brain

  datatype TagInfo = TagInfo(icon: Icon, className: string, parentClassName: string, tag: string)

  /** The tags the table knows. */
  const KnownTags: seq<string> :=
    ["text", "image", "video", "audio", "pdf", "url", "site", "youtube", "github",
     "error", "processing", "toolSupport", "thinking", "file"]

  /** The row of the table for a known tag. */
  function TagRow(tag: string): TagInfo
  {
    match tag
    case "text" => TagInfo(FileTextIcon, "text-blue-500", "bg-blue-100/20 backdrop-blur-sm", "text")
    case "image" => TagInfo(ImageIcon, "text-green-500", "bg-green-300/20 backdrop-blur-sm", "image")
    case "video" => TagInfo(VideoIcon, "text-red-500", "bg-red-300/20 backdrop-blur-sm", "video")
    case "audio" => TagInfo(AudioLinesIcon, "text-purple-500", "bg-purple-300/20 backdrop-blur-sm", "audio")
    case "pdf" => TagInfo(FileIcon, "text-orange-500", "bg-orange-300/20 backdrop-blur-sm", "pdf")
    case "url" => TagInfo(LinkIcon, "text-blue-500", "bg-blue-300/20 backdrop-blur-sm", "url")
    case "site" => TagInfo(GlobeIcon, "text-green-500", "bg-green-300/20 backdrop-blur-sm", "site")
    case "youtube" => TagInfo(YoutubeIcon, "text-red-500", "bg-red-300/20 backdrop-blur-sm", "youtube")
    case "github" => TagInfo(GithubIcon, "text-gray-500", "bg-gray-300/20 backdrop-blur-sm", "github")
    case "error" => TagInfo(AlertCircleIcon, "text-red-500", "bg-red-300/20 backdrop-blur-sm", "error")
    case "processing" => TagInfo(Loader2Icon, "text-gray-500 animate-spin", "bg-gray-300/20 backdrop-blur-sm", "processing")
    case "toolSupport" => TagInfo(Hammer, "text-blue-500", "bg-blue-300/20 backdrop-blur-sm", "toolSupport")
    case "thinking" => TagInfo(Brain, "text-purple-500", "bg-purple-300/20 backdrop-blur-sm", "thinking")
    case _ => TagInfo(FileIcon, "text-gray-500", "bg-gray-300/20 backdrop-blur-sm", "file")
  }

  /** `getTagInfo`: a known tag keeps its name; anything else is shown as a plain file. */
  function GetTagInfo(tag: string): (r: TagInfo)
    ensures tag in KnownTags ==> r.tag == tag
    ensures tag !in KnownTags ==> r == TagRow("file")
    ensures r.tag in KnownTags
  {
    TagRow(tag)
  }

  /** The tag shown names its own row, so looking it up again changes nothing. */
  lemma GetTagInfoIdempotent(tag: string)
    ensures GetTagInfo(GetTagInfo(tag).tag) == GetTagInfo(tag)
  {
  }

  /** Different known tags are shown differently. */
  lemma KnownTagsAreDistinct(a: string, b: string)
    requires a in KnownTags && b in KnownTags && a != b
    ensures GetTagInfo(a) != GetTagInfo(b)
  {
  }

  /** The modalities a document's MIME type can give. */
  const Modalities: seq<string> := ["image", "video", "audio", "text", "pdf", "file"]

  /** The modality of a MIME type; an unknown type arrives as the empty text and is a plain file. */
  function Modality(mimeType: string): (m: string)
    ensures m in Modalities
    ensures m in ["image", "video", "audio", "text"] ==> StartsWith(mimeType, m + "/")
    ensures m == "pdf" ==> StartsWith(mimeType, "application/pdf")
  {
    if StartsWith(mimeType, "image/") then "image"
    else if StartsWith(mimeType, "video/") then "video"
    else if StartsWith(mimeType, "audio/") then "audio"
    else if StartsWith(mimeType, "text/") then "text"
    else if StartsWith(mimeType, "application/pdf") then "pdf"
    else "file"
  }

  /** Every major type the classification knows gives its own modality. */
  lemma ModalityOfMajorType(major: string, subtype: string)
    requires major in ["image", "video", "audio", "text"]
    ensures Modality(major + "/" + subtype) == major
  {
    var m := major + "/" + subtype;
    assert m[..|major| + 1] == major + "/";
    assert m[0] == major[0];
  }

  /** A type the classification does not know is a plain file. */
  lemma UnknownTypeIsFile(mimeType: string)
    requires !StartsWith(mimeType, "image/") && !StartsWith(mimeType, "video/")
    requires !StartsWith(mimeType, "audio/") && !StartsWith(mimeType, "text/")
    requires !StartsWith(mimeType, "application/pdf")
    ensures Modality(mimeType) == "file"
  {
  }

  datatype DocumentStatus = Processing | Done | Error

  /**
   * `getDocTagInfo`: a document still processing into a modality the model
   * does not take is shown as processing, a failed one as an error, any
   * other by its modality.
   */
  function GetDocTagInfo(mimeType: Option<string>, status: DocumentStatus, supportedModalities: seq<string>): (r: TagInfo)
    ensures var m := Modality(if mimeType.Some? then mimeType.value else "");
            && (status == Processing && m !in supportedModalities ==> r.tag == "processing")
            && (status == Error ==> r.tag == "error")
            && (status == Done || (status == Processing && m in supportedModalities) ==> r.tag == m)
  {
    var mime := if mimeType.Some? then mimeType.value else "";
    var modality := Modality(mime);
    if status == Processing && modality !in supportedModalities then GetTagInfo("processing")
    else if status == Error then GetTagInfo("error")
    else GetTagInfo(modality)
  }

  /** A document whose type is unknown is a plain file once done. */
  lemma UnknownDocumentIsFile(status: DocumentStatus, supportedModalities: seq<string>)
    requires status == Done
    ensures GetDocTagInfo(None, status, supportedModalities).tag == "file"
  {
  }
}
