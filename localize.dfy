/**
 * Localization (`simpleblog/extensions/localize.py`): the blog's `locale`
 * defaults to one built from its language, country and character set.
 */
module Localize {
  import opened Wrappers
  import opened Core

  /** `"{language}_{country}.{charset}"`. */
  function DefaultLocale(language: string, country: string, charset: string): (r: string)
    ensures |r| == |language| + |country| + |charset| + 2
    ensures r[..|language|] == language && r[|language|] == '_'
    ensures r[|r| - |charset|..] == charset && r[|r| - |charset| - 1] == '.'
  {
    language + "_" + country + "." + charset
  }

  /**
   * `blog_post_init`: `setdefault('locale', ...)`. The default is built
   * first, so a missing `language`, `country` or `charset` raises
   * `KeyError` even when `locale` is set; otherwise an existing `locale`
   * stays and nothing but `locale` can change.
   */
  method BlogPostInit(blog: Blog) returns (err: Option<string>)
    modifies blog
    ensures err.Some? <==> !({"language", "country", "charset"} <= old(blog.metadata).Keys)
    ensures err.Some? ==> blog.metadata == old(blog.metadata)
    ensures err.None? ==> blog.metadata.Keys == old(blog.metadata).Keys + {"locale"}
    ensures err.None? ==> forall k :: k in old(blog.metadata) ==> blog.metadata[k] == old(blog.metadata)[k]
    ensures err.None? && "locale" !in old(blog.metadata) ==>
      blog.metadata["locale"] == DefaultLocale(old(blog.metadata)["language"], old(blog.metadata)["country"], old(blog.metadata)["charset"])
  {
    var m := blog.metadata;
    if "language" !in m {
      return Some("KeyError: 'language'");
    }
    if "country" !in m {
      return Some("KeyError: 'country'");
    }
    if "charset" !in m {
      return Some("KeyError: 'charset'");
    }
    var locale := DefaultLocale(m["language"], m["country"], m["charset"]);
    if "locale" !in m {
      blog.metadata := m["locale" := locale];
    }
    return None;
  }
}
