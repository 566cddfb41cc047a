/**
 * The helpers `simpleblog/extensions/__init__.py` gives every extension:
 * named containers of entries (a tag, a category) and the list of links
 * to a set of containers.
 */
module Named {
  import opened Text
  import opened Order
  import opened Core

  /** A container named by the value it groups its entries by. */
  datatype NamedEntries = NamedEntries(name: string, sortkey: string, urlshort: string)

  /**
   * `NamedEntries.__init__`: name and sort key are the given name; the
   * short URL is `/{prefix}/{name}/` when the kind has a (non-empty)
   * prefix and `/{name}/` otherwise.
   */
  function NewNamed(prefix: string, name: string): (c: NamedEntries)
    ensures c.name == name && c.sortkey == name
    ensures prefix != [] ==> c.urlshort == "/" + Join([prefix, name], "/") + "/"
    ensures prefix == [] ==> c.urlshort == "/" + name + "/"
  {
    NamedEntries(name, name, if prefix != [] then "/" + prefix + "/" + name + "/" else "/" + name + "/")
  }

  /** `BlogEntries.urlpath`: the short URL followed by `index`. */
  function EntriesUrlpath(urlshort: string): string {
    urlshort + "index"
  }

  /**
   * The page of a named container in `format` is written to
   * `{prefix}/{name}/index.{format}` below the output directory.
   */
  lemma NamedPageFile(prefix: string, name: string, format: string)
    requires prefix != [] && '/' !in prefix
    requires name != [] && '/' !in name
    requires '/' !in format
    ensures FilePath(EntriesUrlpath(NewNamed(prefix, name).urlshort) + "." + format) == prefix + "/" + name + "/index." + format
  {
    var parts := [prefix, name, "index." + format];
    assert '/' !in "index." + format by {
      assert "index." + format == "index." + format;
      assert forall i :: 0 <= i < |"index."| ==> "index."[i] != '/';
    }
    assert parts[1..] == [name, "index." + format] && parts[1..][1..] == ["index." + format];
    assert Join(parts[1..][1..], "/") == "index." + format;
    assert Join(parts[1..], "/") == name + "/" + ("index." + format);
    assert Join(parts, "/") == prefix + "/" + name + "/index." + format;
    assert "/" + prefix + "/" + name + "/" + "index" + "." + format == "/" + Join(parts, "/");
    FilePathOfUrl(parts);
  }

  /**
   * `BlogExtension.get_links`: the link of every container, ordered by sort
   * key (descending when `reverse`), joined by the separator and a newline.
   */
  function GetLinks<C>(containers: seq<C>, sortkey: C -> seq<int>, reverse: bool, link: C -> string, sep: string): (r: string)
    ensures containers == [] ==> r == ""
    ensures |containers| == 1 ==> r == link(containers[0])
  {
    Join(Links(SortBy(containers, sortkey, reverse), link), sep + Newline)
  }

  function Links<C>(cs: seq<C>, link: C -> string): (r: seq<string>)
    ensures |r| == |cs|
    ensures forall i :: 0 <= i < |cs| ==> r[i] == link(cs[i])
  {
    if cs == [] then [] else [link(cs[0])] + Links(cs[1..], link)
  }

  /** The links are those of a sorted rearrangement of the containers. */
  lemma GetLinksSorted<C>(containers: seq<C>, sortkey: C -> seq<int>, reverse: bool, link: C -> string, sep: string)
    ensures exists s :: multiset(s) == multiset(containers) && SortedBy(s, sortkey, reverse) && GetLinks(containers, sortkey, reverse, link, sep) == Join(Links(s, link), sep + Newline)
  {
    SortBySorted(containers, sortkey, reverse);
    var s := SortBy(containers, sortkey, reverse);
    assert multiset(s) == multiset(containers) && SortedBy(s, sortkey, reverse);
  }

  /** The containers as sources of pages in the `html` format, in order. */
  function HtmlSources<C, S>(cs: seq<C>, asSource: C -> S): (r: seq<(S, string)>)
    ensures |r| == |cs|
    ensures forall i :: 0 <= i < |cs| ==> r[i] == (asSource(cs[i]), "html")
  {
    if cs == [] then [] else [(asSource(cs[0]), "html")] + HtmlSources(cs[1..], asSource)
  }

  /** A container's sort key: its name, compared as a string. */
  function NameKey(c: NamedEntries): seq<int> {
    StrKey(c.sortkey)
  }

  /** The names of a set, each once, in the order the set yields them. */
  method Enumerate(names: set<string>) returns (order: seq<string>)
    ensures |order| == |names|
    ensures forall n :: n in order <==> n in names
    ensures Distinct(order)
  {
    var todo := names;
    order := [];
    while todo != {}
      invariant todo <= names
      invariant |order| + |todo| == |names|
      invariant forall n :: n in order <==> n in names - todo
      invariant Distinct(order)
      decreases |todo|
    {
      var n :| n in todo;
      assert n !in order;
      order := order + [n];
      todo := todo - {n};
    }
  }

  /**
   * The `blog_mod_sources` shared by tags and categories: one container per
   * name (in the order the set of names yields them), the links to all of
   * them stored in the blog's metadata under `linksKey`, and the containers
   * appended to the sources in the `html` format.
   */
  method AddNamedSources<S>(blog: Blog, names: set<string>, prefix: string, sources: seq<(S, string)>,
                            asSource: NamedEntries -> S, link: NamedEntries -> string, sep: string, linksKey: string)
    returns (r: seq<(S, string)>, order: seq<string>, all: seq<NamedEntries>)
    modifies blog
    ensures forall n :: n in order <==> n in names
    ensures Distinct(order)
    ensures |all| == |order|
    ensures forall i :: 0 <= i < |order| ==> all[i] == NewNamed(prefix, order[i])
    ensures r == sources + HtmlSources(all, asSource)
    ensures blog.metadata == old(blog.metadata)[linksKey := GetLinks(all, NameKey, false, link, sep)]
  {
    order := Enumerate(names);
    all := seq(|order|, i requires 0 <= i < |order| => NewNamed(prefix, order[i]));
    blog.metadata := blog.metadata[linksKey := GetLinks(all, NameKey, false, link, sep)];
    r := sources + HtmlSources(all, asSource);
  }
}
