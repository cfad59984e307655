# Blobs, hooks and deployments of a GitHub API client

This project models four classes of a Java client for the GitHub REST API:

- **GHBlob**: a Git blob as the service returns it. `read()` decodes the
  content when its encoding tag is exactly `"base64"` and refuses any other
  tag with the message `"Unrecognized encoding: " + tag`.
- **GHBlobBuilder**: builds a blob-creation request. `textContent` records
  the text with the tag `"utf-8"`. `binaryContent` records the Base64
  encoding of the bytes with the tag `"base64"`. `create()` POSTs to
  `/repos/<owner>/<name>/git/blobs`.
- **GHHook**: a webhook. `getEvents()` turns the raw event names into a set
  of event types. `"*"` stands for ALL. Any other name is upper-cased and
  looked up, and an unknown name fails. `ping()` POSTs to the hook's
  route + `/pings`, and `delete()` sends DELETE to the hook's route.
- **GHDeploymentBuilder**: builds a deployment-creation request from seven
  chainable setters and sends it to the repository's `deployments` tail.

The Base64 text these classes exchange follows section 4 of RFC 4648. It
is modelled as a pair of functions proved mutually inverse.

The request builder the classes write into (`Requester`) is modelled as a
class. It holds a parameter map, an optional HTTP method and a target.
Dispatch returns a `Request` value (method, path, parameters) instead of
performing network I/O. A sequence of parameter writes is given meaning by
`Requests.ApplyAll`: the last write to a key wins. Every builder setter is
proved to update the parameter map accordingly.

Modules:

| file | module | contents |
|---|---|---|
| Wrappers.dfy | Wrappers | `Option`, `Result` |
| Base64.dfy | Base64 | alphabet, `Encode`, `Decode`, the shape and round-trip lemmas |
| Requests.dfy | Requests | parameter values, `Request`, parameter writes, the `Requester` class |
| Repositories.dfy | Repositories | the owning repository as the builders see it |
| Blob.dfy | Blobs | `Blob`, `Read` |
| BlobBuilder.dfy | BlobBuilders | the `BlobBuilder` class |
| Hook.dfy | Hooks | `Event`, `Hook`, `Normalize`, `GetEvents`, `Ping`, `Delete` |
| DeploymentBuilder.dfy | Deployments | `Setting`, the `DeploymentBuilder` class |

## Model

| member | source | states |
|---|---|---|
| Base64.Encode | src/main/java/org/kohsuke/github/GHBlobBuilder.java:40 | `encodeBase64String` without line breaks; it has no contract of its own and is specified by EncodeLength, EncodeShape, EncodeSingleLine, DecodeIffEncode and EncodeExample |
| Base64.Decode | src/main/java/org/kohsuke/github/GHBlob.java:76 | the decoding `Base64InputStream` performs, restricted to canonical padded text; specified by DecodeEncode, EncodeDecode and DecodeIffEncode |
| Base64.CharOfValueOf | src/main/java/org/kohsuke/github/GHBlobBuilder.java:40 | the 64-symbol alphabet is a bijection: a character decodes to a value exactly when that value encodes to the character |
| Base64.EncodeLength | src/main/java/org/kohsuke/github/GHBlobBuilder.java:40 | the encoding of n bytes has 4 * ceil(n / 3) characters |
| Base64.EncodeShape | src/main/java/org/kohsuke/github/GHBlobBuilder.java:40 | the encoding is alphabet characters followed by exactly (3 - n mod 3) mod 3 pad characters |
| Base64.EncodeSingleLine | src/main/java/org/kohsuke/github/GHBlobBuilder.java:40 | the encoding holds no line break (no CR, no LF) |
| Base64.DecodeEncode | src/main/java/org/kohsuke/github/GHBlob.java:76 | decoding the encoding of any byte sequence gives back that sequence |
| Base64.EncodeDecode | src/main/java/org/kohsuke/github/GHBlob.java:76 | whatever the decoder accepts is the encoding of the bytes it returns |
| Base64.DecodeIffEncode | src/main/java/org/kohsuke/github/GHBlob.java:76 | a text decodes to some bytes if and only if it is the encoding of those bytes |
| Base64.EncodeExample | src/main/java/org/kohsuke/github/GHBlobBuilder.java:40 | the bytes 0x00 0xFF encode to "AP8=" and decode back |
| Blobs.Blob | src/main/java/org/kohsuke/github/GHBlob.java:20-66 | the blob's fields; `getContent`, `getEncoding`, `getSha` and `getSize` are its destructors and return the fields unchanged |
| Blobs.Read | src/main/java/org/kohsuke/github/GHBlob.java:73-83 | the tag is compared exactly with "base64". A success returns bytes whose encoding is the content. Every content that encodes some bytes is read successfully. Content tagged "base64" that is not such an encoding fails with MalformedContent. Any other tag fails with "Unrecognized encoding: " + tag |
| Blobs.UnsupportedMessageNamesTag | src/main/java/org/kohsuke/github/GHBlob.java:82 | the refusal message is the fixed prefix followed by the offending tag |
| Blobs.TagIsCaseSensitive | src/main/java/org/kohsuke/github/GHBlob.java:74 | "BASE64" is refused |
| Requests.Requester.constructor | src/main/java/org/kohsuke/github/GHBlobBuilder.java:16 | a new requester has no parameters, no method and no target |
| Requests.Requester.With | src/main/java/org/kohsuke/github/GHDeploymentBuilder.java:46 | one write applied to the parameters; method and target unchanged |
| Requests.Requester.Method | src/main/java/org/kohsuke/github/GHHook.java:77 | the method becomes the given one; parameters and target unchanged |
| Requests.Requester.To | src/main/java/org/kohsuke/github/GHBlobBuilder.java:58 | dispatch returns the effective method, the given path and the parameters written so far |
| Requests.LastWriteWins | src/main/java/org/kohsuke/github/GHDeploymentBuilder.java:45-120 | after a sequence of writes, a key holds its last written value, or its old value when never written |
| Requests.ApplyAllKeys | src/main/java/org/kohsuke/github/GHDeploymentBuilder.java:45-120 | writes add exactly the written keys to the parameter map |
| Requests.ApplyAllConcat | src/main/java/org/kohsuke/github/GHDeploymentBuilder.java:45-120 | applying two write sequences in turn equals applying their concatenation |
| Requests.WritesCommute | src/main/java/org/kohsuke/github/GHDeploymentBuilder.java:45-120 | write sequences on disjoint keys give the same parameters in either order |
| Requests.LaterWritesOverride | src/main/java/org/kohsuke/github/GHBlobBuilder.java:26-44 | writes whose keys are all rewritten later have no effect |
| Requests.DistinctWritesOrderFree | src/main/java/org/kohsuke/github/GHDeploymentBuilder.java:45-120 | permuted write sequences with distinct keys give the same parameters |
| BlobBuilders.BlobBuilder.constructor | src/main/java/org/kohsuke/github/GHBlobBuilder.java:14-17 | keeps the repository and starts a fresh, empty requester |
| BlobBuilders.BlobBuilder.TextContent | src/main/java/org/kohsuke/github/GHBlobBuilder.java:26-30 | writes content := text then encoding := "utf-8" and returns the same builder |
| BlobBuilders.BlobBuilder.BinaryContent | src/main/java/org/kohsuke/github/GHBlobBuilder.java:39-44 | writes content := Base64 of the bytes then encoding := "base64" and returns the same builder |
| BlobBuilders.BlobBuilder.Create | src/main/java/org/kohsuke/github/GHBlobBuilder.java:57-59 | a POST to /repos/<owner>/<name>/git/blobs carrying the parameters written so far |
| BlobBuilders.ContentWritesKeys | src/main/java/org/kohsuke/github/GHBlobBuilder.java:26-44 | both content setters write exactly the keys "content" and "encoding" |
| BlobBuilders.LastContentSetterWins | src/main/java/org/kohsuke/github/GHBlobBuilder.java:26-44 | after any content setter, an earlier content setter, with any text or bytes of its own, leaves no trace |
| BlobBuilders.TextContentParams | src/main/java/org/kohsuke/github/GHBlobBuilder.java:26-30 | after textContent the content is the text verbatim, the tag is "utf-8" and other keys are unchanged |
| BlobBuilders.BinaryContentParams | src/main/java/org/kohsuke/github/GHBlobBuilder.java:39-44 | after binaryContent the content is the Base64 text of the bytes, 4 * ceil(n / 3) long, the tag is "base64" and other keys are unchanged |
| BlobBuilders.BinaryContentReadsBack | src/main/java/org/kohsuke/github/GHBlobBuilder.java:39-44 | a blob carrying the recorded content and tag reads back to exactly the bytes given to binaryContent |
| BlobBuilders.TextContentUnreadable | src/main/java/org/kohsuke/github/GHBlobBuilder.java:26-30 | a blob carrying the recorded text content is refused by read() with its "utf-8" tag named |
| BlobBuilders.BlobsPath | src/main/java/org/kohsuke/github/GHBlobBuilder.java:46-48 | `getApiTail()`: "/repos/" + owner + "/" + name + "/git/blobs"; specified by BlobsPathInjective and used in the contract of BlobBuilder.Create |
| BlobBuilders.BlobsPathInjective | src/main/java/org/kohsuke/github/GHBlobBuilder.java:46-48 | different owner/name pairs without '/' give different blob paths |
| BlobBuilders.TextBlobScenario | src/main/java/org/kohsuke/github/GHBlobBuilder.java:26-59 | textContent("hello") then create on repository acme/widgets sends POST /repos/acme/widgets/git/blobs with exactly content "hello" and encoding "utf-8" |
| Hooks.Hook | src/main/java/org/kohsuke/github/GHHook.java:21-67 | the hook's fields; `getName`, `isActive` and `getConfig` are its destructors (the map is an immutable value, as the unmodifiable view is) |
| Hooks.Normalize | src/main/java/org/kohsuke/github/GHHook.java:40-49 | the meaning of `getEvents()` as a function; specified by NormalizeMeaning, NormalizeFailure, NormalizeFailureSticks, NormalizeOrderFree and WildcardMeansAll, and GetEvents is proved equal to it |
| Hooks.VocabularyHasNames | src/main/java/org/kohsuke/github/GHHook.java:46 | every event type is found under its own name |
| Hooks.VocabularyOnlyNames | src/main/java/org/kohsuke/github/GHHook.java:46 | every name found is the name of the type it finds |
| Hooks.NormalizeFailureSticks | src/main/java/org/kohsuke/github/GHHook.java:42-47 | once a prefix of the names fails, the whole list fails with the same error |
| Hooks.NormalizeMeaning | src/main/java/org/kohsuke/github/GHHook.java:40-49 | the names succeed if and only if every name stands for an event; the result then holds exactly the events the names stand for |
| Hooks.NormalizeFailure | src/main/java/org/kohsuke/github/GHHook.java:42-47 | a failure names the upper case of the first name that stands for no event |
| Hooks.NormalizeOrderFree | src/main/java/org/kohsuke/github/GHHook.java:40-49 | whether the names succeed, and the resulting set, do not depend on order or repetition; which unknown name is reported does |
| Hooks.WildcardMeansAll | src/main/java/org/kohsuke/github/GHHook.java:43-44 | "*" puts ALL into the result |
| Hooks.NormalizeExamples | src/main/java/org/kohsuke/github/GHHook.java:40-49 | ["push", "*"] gives {PUSH, ALL}; ["push", "bogus"] fails on "BOGUS"; ["all"] gives {ALL}; [] gives {} |
| Hooks.GetEvents | src/main/java/org/kohsuke/github/GHHook.java:40-49 | the loop returns exactly the outcome of `Normalize`, stopping at the first unknown name |
| Hooks.Ping | src/main/java/org/kohsuke/github/GHHook.java:76-78 | a POST to the hook's route + "/pings" with no parameters |
| Hooks.Delete | src/main/java/org/kohsuke/github/GHHook.java:86-88 | a DELETE of the hook's route with no parameters |
| Deployments.SetterKeysDistinct | src/main/java/org/kohsuke/github/GHDeploymentBuilder.java:45-120 | two setters write the same key only if they are the same setter |
| Deployments.SettersOrderFree | src/main/java/org/kohsuke/github/GHDeploymentBuilder.java:45-120 | distinct setters called in any order give the same parameters |
| Deployments.DeploymentBuilder.constructor | src/main/java/org/kohsuke/github/GHDeploymentBuilder.java:20-23 | keeps the repository and starts a fresh, empty requester |
| Deployments.DeploymentBuilder.WithRef | src/main/java/org/kohsuke/github/GHDeploymentBuilder.java:33-36 | as the plain constructor, followed by ref(ref) |
| Deployments.DeploymentBuilder.Ref | src/main/java/org/kohsuke/github/GHDeploymentBuilder.java:45-48 | applies WriteOf(Ref(branch)), the write SettersOrderFree reasons about: sets "ref" to the branch, nothing else changes, returns the same builder |
| Deployments.DeploymentBuilder.Task | src/main/java/org/kohsuke/github/GHDeploymentBuilder.java:57-60 | applies WriteOf(Task(task)): sets "task", nothing else changes, returns the same builder |
| Deployments.DeploymentBuilder.AutoMerge | src/main/java/org/kohsuke/github/GHDeploymentBuilder.java:69-72 | applies WriteOf(AutoMerge(autoMerge)): sets "auto_merge" to the boolean, nothing else changes, returns the same builder |
| Deployments.DeploymentBuilder.RequiredContexts | src/main/java/org/kohsuke/github/GHDeploymentBuilder.java:81-84 | applies WriteOf(RequiredContexts(contexts)): sets "required_contexts" to the list, in order, nothing else changes, returns the same builder |
| Deployments.DeploymentBuilder.Payload | src/main/java/org/kohsuke/github/GHDeploymentBuilder.java:93-96 | applies WriteOf(Payload(payload)): sets "payload", nothing else changes, returns the same builder |
| Deployments.DeploymentBuilder.Environment | src/main/java/org/kohsuke/github/GHDeploymentBuilder.java:105-108 | applies WriteOf(Environment(environment)): sets "environment", nothing else changes, returns the same builder |
| Deployments.DeploymentBuilder.Description | src/main/java/org/kohsuke/github/GHDeploymentBuilder.java:117-120 | applies WriteOf(Description(description)): sets "description", nothing else changes, returns the same builder |
| Deployments.DeploymentBuilder.Create | src/main/java/org/kohsuke/github/GHDeploymentBuilder.java:129-131 | dispatches with the requester's effective method to the repository's "deployments" tail with the parameters written so far |
| Deployments.DeploymentScenario | src/main/java/org/kohsuke/github/GHDeploymentBuilder.java:33-131 | a deployment of a ref with a task and an environment sends a POST carrying exactly those three parameters |

## Left out

- HTTP transport, JSON (de)serialization and `IOException`: dispatch returns the request it would send. No response is parsed into a `GHBlob` or `GHDeployment`.
- `wrap(repo)` after deployment creation (GHDeploymentBuilder.java:130): it attaches the repository to the response entity, which is not modelled.
- `getRoot()`, the client root each `Requester` is built from, and the abstract `getRoot`/`getApiRoute` of hook variants. The API route is a field of `Hook`.
- `GHBlob.getUrl()` (URL parsing) and `GHHook.getHtmlUrl()`, which always returns null. Fields inherited from `GHObject` are not modelled either.
- `Requester` itself is not part of this model. Its behaviour is assumed: a later `with` to the same key replaces the earlier value. When no method was selected, POST is used; the deployment builder's `create()` relies on this to create. `GHDeploymentBuilder.create()` (GHDeploymentBuilder.java:130) selects no method, yet it creates a deployment, so the default must be a creating verb.
- `GHRepository.getApiTailUrl` is not part of this model: it is an uninterpreted function field of `Repository`.
- Parameters with a null value, and null arguments in general (a null content, list or string) are not modelled.
- Blobs.Read: returns the decoded bytes instead of a lazily decoding `InputStream`. Apache Commons Codec's `Base64InputStream` is lenient: it also decodes the URL-safe alphabet ('-' as 62, '_' as 63), skips every other character outside both alphabets (line breaks included), stops at the first '=' and ignores whatever follows it (so "AP8=AAAA" reads as 0x00 0xFF), decodes a final group that lacks its padding, and ignores non-zero pad bits. The model's decoder accepts only canonical padded Base64 and reports anything else as `MalformedContent`. Non-ASCII characters, which `getBytes("US-ASCII")` replaces by '?', also fall under `MalformedContent`.
- BlobBuilders.BlobBuilder.BinaryContent: Java bytes are signed; they are modelled as octets 0..255, the values the encoder sees.
- Blobs.Blob: the `long` size is an unbounded `int`. No relation between size and content is stated, since the service supplies both.
- Hooks.GetEvents: upper-casing covers ASCII letters only. Java's English upper-casing also maps some non-ASCII characters onto ASCII letters, for example U+0131 dotless i to 'I', U+017F long s to 'S', U+00DF 'ß' to "SS" and the ligatures U+FB00 to U+FB06 ('ﬁ' to "FI"). A raw name using them (such as "ißues" for ISSUES) is accepted by the source and refused here.
- Hooks.Event: the event type enumeration carries a representative subset of the service's event names plus ALL. Names outside the subset are treated as unknown.
- `Enum.valueOf` throws `IllegalArgumentException` on an unknown name; the model returns `Err(UnknownEvent(name))` with the upper-cased name.
