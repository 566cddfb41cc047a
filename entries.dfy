/**
 * The state of a blog entry that extensions change in place: its name and
 * category, its metadata, and the previous/next link attributes set on it.
 */
module Entries {
  import opened Wrappers

  /** A neighbour link: the neighbouring entry (`None` at either end) and the label naming the container. */
  datatype Target = Target(entry: Option<Entry>, container: string)

  /** A `prev_in_*`/`next_in_*` attribute: one neighbour, or a list of them for a multisource. */
  datatype LinkAttr = One(target: Target) | Many(targets: seq<Target>)

  class Entry {
    /** The entry's name below the entries directory. */
    var name: string
    var category: string
    var metadata: map<string, string>
    /** The link attributes, by attribute name. */
    var links: map<string, LinkAttr>

    constructor (name: string)
      ensures this.name == name && category == "" && metadata == map[] && links == map[]
    {
      this.name := name;
      category := "";
      metadata := map[];
      links := map[];
    }
  }
}
