/**
 * Categories (`simpleblog/extensions/categories.py`): entries may live in
 * subdirectories of the entries directory; the subdirectory is the
 * entry's category, and each category gets a page of its entries.
 */
module Categories {
  import opened Text
  import opened Core
  import opened Named
  import opened Entries

  /** `make_category_link(category)`: a link to the category's page at its unprefixed short URL. */
  function MakeCategoryLink(category: string): (r: string)
    ensures r == "<a href=\"" + NewNamed("", category).urlshort + "\" title=\"Category\">" + category + "</a>"
  {
    "<a href=\"/" + category + "/\" title=\"Category\">" + category + "</a>"
  }

  /** The `categorylink` metadata: the category's link, or `(None)` for an entry at the root. */
  function CategoryLink(category: string): (r: string)
    ensures category != [] ==> r == MakeCategoryLink(category)
    ensures category == [] ==> r == "(None)"
  {
    if category != [] then MakeCategoryLink(category) else "(None)"
  }

  /**
   * `entry_post_init`: the entry's name is split at its last path
   * separator into category and name, and `categorylink` is added to its
   * metadata; nothing else changes.
   */
  method EntryPostInit(e: Entry)
    modifies e
    ensures (e.category, e.name) == PathSplit(old(e.name))
    ensures e.metadata == old(e.metadata)["categorylink" := CategoryLink(e.category)]
    ensures e.links == old(e.links)
  {
    var parts := PathSplit(e.name);
    e.category, e.name := parts.0, parts.1;
    e.metadata := e.metadata["categorylink" := CategoryLink(e.category)];
  }

  /** `entry_mod_attrs`: the template attributes gain `category`. */
  function EntryModAttrs(attrs: map<string, string>, category: string): (r: map<string, string>)
    ensures r.Keys == attrs.Keys + {"category"}
    ensures r["category"] == category
    ensures forall k :: k in attrs && k != "category" ==> r[k] == attrs[k]
  {
    attrs["category" := category]
  }

  /** `BlogCategory._get_entries`: the entries whose category is the category's name, in blog order. */
  function CategoryEntries<E>(entries: seq<E>, categoryOf: E -> string, name: string): (r: seq<E>)
    ensures forall i :: 0 <= i < |r| ==> categoryOf(r[i]) == name && r[i] in entries
    ensures forall i :: 0 <= i < |entries| && categoryOf(entries[i]) == name ==> entries[i] in r
  {
    Filter(entries, (e: E) => categoryOf(e) == name)
  }

  /**
   * The entries of the subdirectories, as (subdirectory, name) pairs: every
   * subdirectory in order, and within it every entry its listing gives.
   */
  function SubdirEntries(subdirs: seq<string>, entriesDir: string, listing: string -> seq<string>): (r: seq<(string, string)>)
    ensures forall i :: 0 <= i < |r| ==> r[i].0 in subdirs && r[i].1 in listing(PathJoin(entriesDir, r[i].0))
  {
    if subdirs == [] then []
    else
      var names := listing(PathJoin(entriesDir, subdirs[0]));
      seq(|names|, j requires 0 <= j < |names| => (subdirs[0], names[j])) + SubdirEntries(subdirs[1..], entriesDir, listing)
  }

  /** The entry names `blog_mod_all_entries` creates: subdirectory and name joined. */
  function SubdirEntryNames(pairs: seq<(string, string)>): (r: seq<string>)
    ensures |r| == |pairs|
    ensures forall i :: 0 <= i < |pairs| ==> r[i] == PathJoin(pairs[i].0, pairs[i].1)
  {
    seq(|pairs|, i requires 0 <= i < |pairs| => PathJoin(pairs[i].0, pairs[i].1))
  }

  /**
   * `blog_mod_all_entries`: the existing entries first, then one new entry
   * per subdirectory entry, named `subdir/name`.
   */
  function ModAllEntries<E>(allEntries: seq<E>, subdirs: seq<string>, entriesDir: string,
                            listing: string -> seq<string>, newEntry: string -> E): (r: seq<E>)
    ensures |r| >= |allEntries| && r[..|allEntries|] == allEntries
    ensures var names := SubdirEntryNames(SubdirEntries(subdirs, entriesDir, listing));
      |r| == |allEntries| + |names| && forall i :: 0 <= i < |names| ==> r[|allEntries| + i] == newEntry(names[i])
  {
    var names := SubdirEntryNames(SubdirEntries(subdirs, entriesDir, listing));
    allEntries + seq(|names|, i requires 0 <= i < |names| => newEntry(names[i]))
  }

  /**
   * The entries `blog_mod_all_entries` adds come back from `entry_post_init`
   * with their subdirectory as category and their file name as name, when
   * subdirectory names do not end in a slash and file names hold none.
   */
  lemma SubdirEntryCategory(subdirs: seq<string>, entriesDir: string, listing: string -> seq<string>, i: nat)
    requires forall d :: d in subdirs ==> d != [] && d[|d| - 1] != '/'
    requires forall d, n :: d in subdirs && n in listing(PathJoin(entriesDir, d)) ==> '/' !in n
    requires i < |SubdirEntries(subdirs, entriesDir, listing)|
    ensures var p := SubdirEntries(subdirs, entriesDir, listing)[i];
      PathSplit(SubdirEntryNames(SubdirEntries(subdirs, entriesDir, listing))[i]) == p && p.0 in subdirs
  {
    var p := SubdirEntries(subdirs, entriesDir, listing)[i];
    PathSplitJoin(p.0, p.1);
  }

  /** An entry at the root of the entries directory has the empty category and keeps its name. */
  lemma RootEntryCategory(name: string)
    requires '/' !in name
    ensures PathSplit(name) == ("", name)
    ensures CategoryLink(PathSplit(name).0) == "(None)"
  {
    PathSplitBase(name);
  }

  /**
   * `blog_mod_sources`: one category page per subdirectory, the links to
   * all of them as the blog's `category_links`, and the pages appended to
   * the sources in the `html` format.
   */
  method ModSources<S>(blog: Blog, subdirs: seq<string>, prefix: string, sources: seq<(S, string)>,
                       asSource: NamedEntries -> S, link: NamedEntries -> string, sep: string)
    returns (r: seq<(S, string)>, categoryNames: seq<string>, allCategories: seq<NamedEntries>)
    modifies blog
    ensures forall n :: n in categoryNames <==> n in subdirs
    ensures Distinct(categoryNames)
    ensures |allCategories| == |categoryNames|
    ensures forall i :: 0 <= i < |categoryNames| ==> allCategories[i] == NewNamed(prefix, categoryNames[i])
    ensures r == sources + HtmlSources(allCategories, asSource)
    ensures blog.metadata == old(blog.metadata)["category_links" := GetLinks(allCategories, NameKey, false, link, sep)]
  {
    var names := set d | d in subdirs;
    r, categoryNames, allCategories := AddNamedSources(blog, names, prefix, sources, asSource, link, sep, "category_links");
  }
}
