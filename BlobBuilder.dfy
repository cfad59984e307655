/**
  The fluent builder that creates a blob: the content setters record the
  content and its encoding tag as request parameters, and `create()` posts
  them to the repository's blob collection.
*/
module BlobBuilders {
  import opened Wrappers
  import opened Requests
  import Repositories
  import Base64
  import Blobs

  /** The writes of `textContent(content)`: the text verbatim, tagged "utf-8". */
  function TextWrites(content: string): seq<Write>
  {
    [Write("content", Text(content)), Write("encoding", Text("utf-8"))]
  }

  /** The writes of `binaryContent(content)`: the Base64 text of the bytes, tagged "base64". */
  function BinaryWrites(content: seq<Base64.byte>): seq<Write>
  {
    [Write("content", Text(Base64.Encode(content))), Write("encoding", Text(Blobs.Base64Tag))]
  }

  /** `getApiTail()`: the path of the repository's blob collection. */
  function BlobsPath(ownerName: string, name: string): string
  {
    "/repos/" + ownerName + "/" + name + "/git/blobs"
  }

  class BlobBuilder {
    const repo: Repositories.Repository
    const req: Requester

    constructor (repo: Repositories.Repository)
      ensures this.repo == repo && fresh(req)
      ensures req.params == map[] && req.verb == None && req.target == None
    {
      this.repo := repo;
      req := new Requester();
    }

    /** `textContent(content)`: records the text verbatim and the tag "utf-8"; returns this builder. */
    method TextContent(content: string) returns (self: BlobBuilder)
      modifies req
      ensures self == this
      ensures req.params == ApplyAll(old(req.params), TextWrites(content))
      ensures req.verb == old(req.verb) && req.target == old(req.target)
    {
      req.With("content", Text(content));
      req.With("encoding", Text("utf-8"));
      self := this;
    }

    /** `binaryContent(content)`: records the Base64 text of the bytes and the tag "base64"; returns this builder. */
    method BinaryContent(content: seq<Base64.byte>) returns (self: BlobBuilder)
      modifies req
      ensures self == this
      ensures req.params == ApplyAll(old(req.params), BinaryWrites(content))
      ensures req.verb == old(req.verb) && req.target == old(req.target)
    {
      var base64Content := Base64.Encode(content);
      req.With("content", Text(base64Content));
      req.With("encoding", Text(Blobs.Base64Tag));
      self := this;
    }

    /** `create()`: posts the parameters recorded so far to the blob collection of the repository. */
    method Create() returns (r: Request)
      modifies req
      ensures r == Request("POST", BlobsPath(repo.ownerName, repo.name), old(req.params))
      ensures req.verb == Some("POST") && req.target == Some(r.path) && req.params == old(req.params)
    {
      req.Method("POST");
      r := req.To(BlobsPath(repo.ownerName, repo.name));
    }
  }

  /** The content setters write exactly the keys "content" and "encoding". */
  lemma ContentWritesKeys(text: string, bytes: seq<Base64.byte>)
    ensures KeysOf(TextWrites(text)) == {"content", "encoding"}
    ensures KeysOf(BinaryWrites(bytes)) == {"content", "encoding"}
  {
    assert TextWrites(text)[0].key == "content" && TextWrites(text)[1].key == "encoding";
    assert BinaryWrites(bytes)[0].key == "content" && BinaryWrites(bytes)[1].key == "encoding";
  }

  /**
    Whichever content setter runs last decides both "content" and
    "encoding": an earlier text or binary content leaves no trace.
  */
  lemma LastContentSetterWins(m: map<string, Value>, earlier: seq<Write>, later: seq<Write>,
    t1: string, b1: seq<Base64.byte>, t2: string, b2: seq<Base64.byte>)
    requires earlier == TextWrites(t1) || earlier == BinaryWrites(b1)
    requires later == TextWrites(t2) || later == BinaryWrites(b2)
    ensures ApplyAll(ApplyAll(m, earlier), later) == ApplyAll(m, later)
  {
    ContentWritesKeys(t1, b1);
    ContentWritesKeys(t2, b2);
    LaterWritesOverride(m, earlier, later);
  }

  /**
    A content setter leaves every other parameter as it was, and sets
    "content" and "encoding" to its own values.
  */
  lemma TextContentParams(m: map<string, Value>, text: string)
    ensures var p := ApplyAll(m, TextWrites(text));
      && p.Keys == m.Keys + {"content", "encoding"}
      && p["content"] == Text(text) && p["encoding"] == Text("utf-8")
      && forall key :: key in m && key != "content" && key != "encoding" ==> p[key] == m[key]
  {
    ContentWritesKeys(text, []);
    ApplyAllKeys(m, TextWrites(text));
    forall key | key in m && key != "content" && key != "encoding"
      ensures ApplyAll(m, TextWrites(text))[key] == m[key]
    {
      LastWriteKeys(TextWrites(text), key);
      LastWriteWins(m, TextWrites(text), key);
    }
  }

  lemma BinaryContentParams(m: map<string, Value>, bytes: seq<Base64.byte>)
    ensures var p := ApplyAll(m, BinaryWrites(bytes));
      && p.Keys == m.Keys + {"content", "encoding"}
      && p["content"] == Text(Base64.Encode(bytes)) && p["encoding"] == Text("base64")
      && |p["content"].text| == 4 * ((|bytes| + 2) / 3)
      && forall key :: key in m && key != "content" && key != "encoding" ==> p[key] == m[key]
  {
    ContentWritesKeys("", bytes);
    ApplyAllKeys(m, BinaryWrites(bytes));
    Base64.EncodeLength(bytes);
    forall key | key in m && key != "content" && key != "encoding"
      ensures ApplyAll(m, BinaryWrites(bytes))[key] == m[key]
    {
      LastWriteKeys(BinaryWrites(bytes), key);
      LastWriteWins(m, BinaryWrites(bytes), key);
    }
  }

  /**
    Round trip: a blob whose content and tag are the parameters
    `binaryContent(bytes)` recorded reads back exactly `bytes`.
  */
  lemma BinaryContentReadsBack(m: map<string, Value>, bytes: seq<Base64.byte>, url: string, sha: string, size: int)
    ensures var p := ApplyAll(m, BinaryWrites(bytes));
      && "content" in p && p["content"].Text? && "encoding" in p && p["encoding"].Text?
      && Blobs.Read(Blobs.Blob(p["content"].text, p["encoding"].text, url, sha, size)) == Ok(bytes)
  {
    BinaryContentParams(m, bytes);
    Base64.DecodeEncode(bytes);
  }

  /** A blob whose content and tag are those `textContent` recorded cannot be read: its tag is "utf-8". */
  lemma TextContentUnreadable(m: map<string, Value>, text: string, url: string, sha: string, size: int)
    ensures var p := ApplyAll(m, TextWrites(text));
      && "content" in p && p["content"].Text? && "encoding" in p && p["encoding"].Text?
      && Blobs.Read(Blobs.Blob(p["content"].text, p["encoding"].text, url, sha, size))
        == Err(Blobs.UnsupportedEncoding("Unrecognized encoding: utf-8"))
  {
    TextContentParams(m, text);
    assert "utf-8"[0] != Blobs.Base64Tag[0];
    assert Blobs.UnrecognizedPrefix + "utf-8" == "Unrecognized encoding: utf-8";
  }

  /** The part of `s` before its first '/'. */
  function BeforeSlash(s: string): string
  {
    if s == [] || s[0] == '/' then [] else [s[0]] + BeforeSlash(s[1..])
  }

  lemma {:induction false} BeforeSlashOf(x: string, rest: string)
    requires '/' !in x
    ensures BeforeSlash(x + "/" + rest) == x
  {
    if x != [] {
      assert (x + "/" + rest)[1..] == x[1..] + "/" + rest;
      BeforeSlashOf(x[1..], rest);
    }
  }

  /** The blob collection path determines owner and repository name when neither contains '/'. */
  lemma BlobsPathInjective(o1: string, n1: string, o2: string, n2: string)
    requires '/' !in o1 && '/' !in o2 && '/' !in n1 && '/' !in n2
    requires BlobsPath(o1, n1) == BlobsPath(o2, n2)
    ensures o1 == o2 && n1 == n2
  {
    var tail := "git/blobs";
    var p := BlobsPath(o1, n1);
    assert p[7..] == o1 + "/" + (n1 + "/" + tail);
    assert p[7..] == o2 + "/" + (n2 + "/" + tail);
    BeforeSlashOf(o1, n1 + "/" + tail);
    BeforeSlashOf(o2, n2 + "/" + tail);
    assert p[8 + |o1|..] == n1 + "/" + tail;
    assert p[8 + |o2|..] == n2 + "/" + tail;
    BeforeSlashOf(n1, tail);
    BeforeSlashOf(n2, tail);
  }

  /** `textContent("hello")` then `create()` on a fresh builder for acme/widgets. */
  method TextBlobScenario(tails: string -> string) returns (r: Request)
    ensures r == Request("POST", "/repos/acme/widgets/git/blobs",
      map["content" := Text("hello"), "encoding" := Text("utf-8")])
  {
    var b := new BlobBuilder(Repositories.Repository("acme", "widgets", tails));
    var self := b.TextContent("hello");
    r := b.Create();
    assert BlobsPath("acme", "widgets") == "/repos/acme/widgets/git/blobs";
  }
}
