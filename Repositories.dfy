/**
  The owning repository, as the builders see it. Its own source is not part
  of this model: only the three lookups the builders make are kept, as
  opaque inputs.
*/
module Repositories {

  datatype Repository = Repository(
    ownerName: string,
    name: string,
    /** `getApiTailUrl(tail)`: the API path of `tail` under this repository. */
    apiTailUrl: string -> string)
}
