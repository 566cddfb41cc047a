/**
 * Tags (`simpleblog/extensions/tags.py`): the comma-separated tag set of an
 * entry, its string form in the tags cache, and one tag page per tag used.
 */
module Tags {
  import opened Wrappers
  import opened Text
  import opened Order
  import opened Core
  import opened Named
  import Caching

  /** `config.get('tags_file', "tags")`. */
  function TagsFile(config: map<string, string>): (f: string)
    ensures "tags_file" !in config ==> f == "tags"
    ensures "tags_file" in config ==> f == config["tags_file"]
  {
    if "tags_file" in config then config["tags_file"] else "tags"
  }

  /** `makelink(name, prefix)`: a link to the page of the tag, labelled with the tag. */
  function MakeLink(name: string, prefix: string): (r: string)
    ensures r == "<a href=\"" + NewNamed(prefix, name).urlshort + "\">" + name + "</a>"
  {
    var href := if prefix != [] then prefix + "/" + name else name;
    "<a href=\"/" + href + "/\">" + name + "</a>"
  }

  // ---------------------------------------------------------------------
  // Tagset

  /** `Tagset(s)`: the comma-separated pieces of `s`, stripped, as a set. */
  function Tagset(s: string): (r: set<string>)
    ensures r != {}
    ensures forall t :: t in r ==> Stripped(t) && ',' !in t
  {
    var pieces := SplitOn(s, ',');
    SplitOnJoin(s, ',');
    var r := set p | p in pieces :: Strip(p);
    assert pieces[0] in pieces;
    assert Strip(pieces[0]) in r;
    forall p | p in pieces ensures Stripped(Strip(p)) && ',' !in Strip(p) {
      StripStripped(p);
      StripChars(p);
    }
    r
  }

  /** `str(Tagset)`: the tags in sorted order, joined by commas. */
  function TagsetStr(tags: set<string>): string {
    Join(SortedStrings(tags), ",")
  }

  /** The tag set of an empty string is not empty: it holds the empty tag. */
  lemma EmptyStringTagset()
    ensures Tagset("") == {""}
    ensures |Tagset("")| == 1
  {
    assert SplitOn("", ',') == [""];
    StripStripped("");
  }

  /**
   * A non-empty set of stripped, comma-free tags is given back by parsing
   * its string form.
   */
  lemma TagsetRoundTrip(tags: set<string>)
    requires tags != {}
    requires forall t :: t in tags ==> Stripped(t) && ',' !in t
    ensures Tagset(TagsetStr(tags)) == tags
  {
    var sorted := SortedStrings(tags);
    forall i | 0 <= i < |sorted| ensures ',' !in sorted[i] {
      assert sorted[i] in tags;
    }
    JoinSplitOn(sorted, ',');
    assert SplitOn(TagsetStr(tags), ',') == sorted;
    forall t | t in sorted ensures Strip(t) == t {
      StripStripped(t);
    }
    assert Tagset(TagsetStr(tags)) == set p | p in sorted :: Strip(p);
  }

  /** The string form is canonical: reparsing it gives the same tag set, whatever the input. */
  lemma TagsetCanonical(s: string)
    ensures Tagset(TagsetStr(Tagset(s))) == Tagset(s)
  {
    TagsetRoundTrip(Tagset(s));
  }

  // ---------------------------------------------------------------------
  // the tag pages

  /** `BlogTag._get_entries`: the entries carrying the tag, in blog order. */
  function TagEntries<E>(entries: seq<E>, tagsOf: E -> set<string>, name: string): (r: seq<E>)
    ensures forall i :: 0 <= i < |r| ==> name in tagsOf(r[i]) && r[i] in entries
    ensures forall i :: 0 <= i < |entries| && name in tagsOf(entries[i]) ==> entries[i] in r
  {
    Filter(entries, (e: E) => name in tagsOf(e))
  }

  /** `blog.tag_names`: every tag of every entry. */
  function TagNames<E>(entries: seq<E>, tagsOf: E -> set<string>): set<string> {
    set i, t | 0 <= i < |entries| && t in tagsOf(entries[i]) :: t
  }

  /** Every tag of an entry has a tag page, and the entry is listed on it. */
  lemma EveryTagHasPage<E>(entries: seq<E>, tagsOf: E -> set<string>, i: nat, t: string)
    requires i < |entries| && t in tagsOf(entries[i])
    ensures t in TagNames(entries, tagsOf)
    ensures entries[i] in TagEntries(entries, tagsOf, t)
  {
  }

  /** The tag links of an entry: one link per tag in sorted order, joined by a comma and a newline. */
  function TagLinks(tags: set<string>, prefix: string): string {
    Join(Links(SortedStrings(tags), (n: string) => MakeLink(n, prefix)), "," + Newline)
  }

  /** `entry_post_init`: the entry's metadata gains `taglinks`, nothing else changes. */
  function EntryPostInit(metadata: map<string, string>, tags: set<string>, prefix: string): (r: map<string, string>)
    ensures r.Keys == metadata.Keys + {"taglinks"}
    ensures r["taglinks"] == TagLinks(tags, prefix)
    ensures forall k :: k in metadata && k != "taglinks" ==> r[k] == metadata[k]
  {
    metadata["taglinks" := TagLinks(tags, prefix)]
  }

  /** `entry_mod_attrs`: the template attributes gain `tags`, the string form of the tag set. */
  function EntryModAttrs(attrs: map<string, string>, tags: set<string>): (r: map<string, string>)
    ensures r.Keys == attrs.Keys + {"tags"}
    ensures r["tags"] == TagsetStr(tags)
    ensures forall k :: k in attrs && k != "tags" ==> r[k] == attrs[k]
  {
    attrs["tags" := TagsetStr(tags)]
  }

  /**
   * `blog_mod_sources`: `tag_names` is every tag used; one tag page per
   * name, the links to all of them as the blog's `tag_links`, and the
   * pages appended to the sources in the `html` format.
   */
  method ModSources<E, S>(blog: Blog, entries: seq<E>, tagsOf: E -> set<string>, prefix: string,
                          sources: seq<(S, string)>, asSource: NamedEntries -> S, link: NamedEntries -> string, sep: string)
    returns (r: seq<(S, string)>, tagNames: seq<string>, allTags: seq<NamedEntries>)
    modifies blog
    ensures forall n :: n in tagNames <==> n in TagNames(entries, tagsOf)
    ensures Distinct(tagNames)
    ensures |allTags| == |tagNames|
    ensures forall i :: 0 <= i < |tagNames| ==> allTags[i] == NewNamed(prefix, tagNames[i])
    ensures r == sources + HtmlSources(allTags, asSource)
    ensures blog.metadata == old(blog.metadata)["tag_links" := GetLinks(allTags, NameKey, false, link, sep)]
  {
    r, tagNames, allTags := AddNamedSources(blog, TagNames(entries, tagsOf), prefix, sources, asSource, link, sep, "tag_links");
  }

  // ---------------------------------------------------------------------
  // the tags cache

  /**
   * The tags cache: plain columns, with `Tagset` as its `objtype`; the
   * wrapped property's tag string is read into a tag set before it is
   * stored, so converting the computed value changes nothing.
   */
  function TagsFormat(): (fmt: Caching.Format<set<string>>)
    ensures !fmt.reverse && fmt.objtype.Some?
  {
    Caching.Format(false, Some(Caching.Objtype((s: string) => Ok(Tagset(s)), (v: set<string>) => Ok(v))), Tagset, TagsetStr)
  }

  /** An entry without tags is cached as `"{key} \n"`, a line the cache cannot read back. */
  lemma TaglessEntryUnreadable(key: string)
    requires key != [] && NoSpace(key)
    ensures Caching.LineOf(key, Tagset(""), TagsFormat()) == key + " \n"
    ensures Caching.ParseLine(Caching.LineOf(key, Tagset(""), TagsFormat()), TagsFormat()).Err?
  {
    EmptyStringTagset();
    assert SortedStrings({""}) == [""];
    Caching.EmptyValueUnreadable(key, TagsFormat());
  }

  lemma {:induction false} NoSpaceJoin(parts: seq<string>, sep: string)
    requires NoSpace(sep)
    requires forall i :: 0 <= i < |parts| ==> NoSpace(parts[i])
    ensures NoSpace(Join(parts, sep))
    decreases |parts|
  {
    if |parts| > 1 {
      NoSpaceJoin(parts[1..], sep);
      var rest := Join(parts[1..], sep);
      var all := parts[0] + sep + rest;
      forall j | 0 <= j < |all| ensures !IsSpace(all[j]) {
        if j < |parts[0]| {
          assert all[j] == parts[0][j];
        } else if j < |parts[0]| + |sep| {
          assert all[j] == sep[j - |parts[0]|];
        } else {
          assert all[j] == rest[j - |parts[0]| - |sep|];
        }
      }
    }
  }

  /** The text written for a non-empty set of non-empty, space-free tags is one non-empty token. */
  lemma TagsetToken(tags: set<string>)
    requires tags != {}
    requires forall t :: t in tags ==> t != [] && NoSpace(t)
    ensures TagsetStr(tags) != [] && NoSpace(TagsetStr(tags))
  {
    var sorted := SortedStrings(tags);
    forall i | 0 <= i < |sorted| ensures NoSpace(sorted[i]) {
      assert sorted[i] in tags;
    }
    NoSpaceJoin(sorted, ",");
    var t :| t in tags;
    assert t in sorted;
    if |sorted| == 1 {
      assert sorted[0] != [];
    }
  }

  /** A tag set of non-empty tags without whitespace or commas survives the cache. */
  lemma TagsLineReloads(key: string, tags: set<string>)
    requires key != [] && NoSpace(key)
    requires tags != {}
    requires forall t :: t in tags ==> t != [] && NoSpace(t) && ',' !in t
    ensures Caching.ParseLine(Caching.LineOf(key, tags, TagsFormat()), TagsFormat()) == Ok((key, tags))
  {
    TagsetToken(tags);
    forall t | t in tags ensures Stripped(t) {
    }
    TagsetRoundTrip(tags);
    Caching.ParseLineOf(key, tags, TagsFormat());
  }

  /**
   * A tag with a space inside, `"a b"`, is cached as a line of three tokens;
   * reading it back keeps only the first word as the tag.
   */
  lemma SpacedTagTruncated(key: string, a: string, b: string)
    requires key != [] && NoSpace(key) && a != [] && NoSpace(a) && ',' !in a && b != [] && NoSpace(b)
    ensures Caching.ParseLine(Caching.LineOf(key, {a + " " + b}, TagsFormat()), TagsFormat()) == Ok((key, {a}))
  {
    assert SortedStrings({a + " " + b}) == [a + " " + b];
    assert Caching.LineOf(key, {a + " " + b}, TagsFormat()) == key + " " + a + " " + b + "\n";
    Caching.ExtraTokens(key, a, b, TagsFormat());
    forall i | 0 <= i < |a| ensures !IsSpace(a[i]) {
    }
    assert Stripped(a);
    TagsetRoundTrip({a});
    assert SortedStrings({a}) == [a];
  }
}
