/**
  A blob as the service returns it: its encoded content, the tag naming the
  content's encoding, its API URL, its SHA and its size. The fields are set
  once, from the service's response, and never reassigned; the getters
  `getContent`, `getEncoding`, `getSha` and `getSize` are the datatype's
  destructors.
*/
module Blobs {
  import opened Wrappers
  import Base64

  datatype Blob = Blob(content: string, encoding: string, url: string, sha: string, size: int)

  /** The tag under which the content can be read. The comparison is exact (case-sensitive). */
  const Base64Tag: string := "base64"

  const UnrecognizedPrefix: string := "Unrecognized encoding: "

  datatype ReadError =
    /** The content is tagged with an encoding other than "base64". */
    | UnsupportedEncoding(message: string)
    /** The content is tagged "base64" but is not a canonical Base64 text. */
    | MalformedContent

  /**
    `read()`: the bytes of the blob. Content tagged exactly "base64" is
    decoded; any other tag fails with a message that names it.
  */
  function Read(b: Blob): (r: Result<seq<Base64.byte>, ReadError>)
    ensures r.Ok? ==> b.encoding == Base64Tag && Base64.Encode(r.value) == b.content
    ensures b.encoding == Base64Tag && (exists bytes :: Base64.Encode(bytes) == b.content) ==> r.Ok?
    ensures b.encoding != Base64Tag ==> r == Err(UnsupportedEncoding(UnrecognizedPrefix + b.encoding))
    ensures b.encoding == Base64Tag && r.Err? ==> r.error == MalformedContent
  {
    if b.encoding == Base64Tag then
      match Base64.Decode(b.content)
      case Some(bytes) =>
        Base64.EncodeDecode(b.content, bytes);
        Ok(bytes)
      case None =>
        assert forall bytes :: Base64.Encode(bytes) != b.content by {
          forall bytes ensures Base64.Encode(bytes) != b.content {
            Base64.DecodeEncode(bytes);
          }
        }
        Err(MalformedContent)
    else
      Err(UnsupportedEncoding(UnrecognizedPrefix + b.encoding))
  }

  /** The failure message of an unsupported tag is the fixed prefix followed by the tag itself. */
  lemma UnsupportedMessageNamesTag(b: Blob)
    requires b.encoding != Base64Tag
    ensures Read(b).Err? && Read(b).error.UnsupportedEncoding?
    ensures var msg := Read(b).error.message;
      |msg| >= |UnrecognizedPrefix| + |b.encoding|
      && msg[..|UnrecognizedPrefix|] == UnrecognizedPrefix
      && msg[|msg| - |b.encoding|..] == b.encoding
  {
    var msg := Read(b).error.message;
    assert msg == UnrecognizedPrefix + b.encoding;
    assert msg[..|UnrecognizedPrefix|] == UnrecognizedPrefix;
    assert msg[|UnrecognizedPrefix|..] == b.encoding;
  }

  /** The tag is compared exactly: "BASE64" is not "base64". */
  lemma TagIsCaseSensitive(content: string, url: string, sha: string, size: int)
    ensures Read(Blob(content, "BASE64", url, sha, size)) == Err(UnsupportedEncoding("Unrecognized encoding: BASE64"))
  {
    assert "BASE64"[0] != Base64Tag[0];
    assert UnrecognizedPrefix + "BASE64" == "Unrecognized encoding: BASE64";
  }
}
