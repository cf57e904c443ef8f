/** Container identity as the scanner sees it (internal/docker/docker.go). */
module Docker {
  import opened GoStrings

  /** The fields of Docker's `container.Summary` that the core reads. */
  datatype ContainerSummary = ContainerSummary(id: string, names: seq<string>, image: string, imageId: string)

  /** `docker.ContainerInfo`. */
  datatype ContainerInfo = ContainerInfo(id: string, name: string, image: string, imageId: string, shortId: string)

  const ShortIdLength: nat := 12

  /** `shortID`: the first twelve characters of an id, or the whole id when shorter. */
  function ShortId(id: string): (r: string)
    ensures |id| >= ShortIdLength ==> r == id[..ShortIdLength]
    ensures |id| < ShortIdLength ==> r == id
  {
    if |id| >= ShortIdLength then id[..ShortIdLength] else id
  }

  /** The short id is the prefix of the id whose length is min(12, |id|). */
  lemma ShortIdIsPrefix(id: string)
    ensures |ShortId(id)| == if |id| < ShortIdLength then |id| else ShortIdLength
    ensures ShortId(id) == id[..|ShortId(id)|]
  {
  }

  /** `NewContainerInfo`: copies id, image and image id, strips one leading "/"
      from the first name (or uses "" when there is none) and derives the short id. */
  function NewContainerInfo(c: ContainerSummary): (info: ContainerInfo)
    ensures info.id == c.id && info.image == c.image && info.imageId == c.imageId
    ensures info.shortId == ShortId(c.id)
    ensures c.names == [] ==> info.name == ""
    ensures c.names != [] && c.names[0] != [] && c.names[0][0] == '/' ==> info.name == c.names[0][1..]
    ensures c.names != [] && (c.names[0] == [] || c.names[0][0] != '/') ==> info.name == c.names[0]
  {
    var name := if |c.names| > 0 then TrimPrefix(c.names[0], "/") else "";
    ContainerInfo(c.id, name, c.image, c.imageId, ShortId(c.id))
  }

  /** At most one slash is stripped: a name "//x" keeps its second slash. */
  lemma NameStripsOneSlash(c: ContainerSummary, rest: string)
    requires c.names != [] && c.names[0] == "/" + rest
    ensures NewContainerInfo(c).name == rest
  {
    assert c.names[0][1..] == rest;
  }
}
