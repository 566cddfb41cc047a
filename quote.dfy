/**
 * Quoting (`simpleblog/extensions/quote.py`): every URL in the blog's
 * metadata gets a quoted, absolute companion under `{key}_quoted`.
 */
module Quote {
  import opened Wrappers
  import opened Text
  import opened Core

  /** `blog_mod_required_metadata`: `root_url` becomes required. */
  function RequiredMetadata(data: set<string>): (r: set<string>)
    ensures "root_url" in r && data <= r && r - data <= {"root_url"}
  {
    data + {"root_url"}
  }

  /** The metadata keys holding URLs (`suffixed_items(..., '_url', full=True)`). */
  predicate IsUrlKey(k: string) {
    EndsWith(k, "_url")
  }

  function QuotedKey(k: string): string {
    k + "_quoted"
  }

  lemma QuotedKeyInjective(a: string, b: string)
    requires QuotedKey(a) == QuotedKey(b)
    ensures a == b
  {
    assert a == QuotedKey(a)[..|a|];
  }

  /** A quoted key is never itself a URL key. */
  lemma QuotedKeyNotUrl(k: string)
    ensures !IsUrlKey(QuotedKey(k))
  {
    assert QuotedKey(k)[|QuotedKey(k)| - 4..] == "oted";
  }

  /**
   * The quoted companion of a URL: `root_url` joined with `/index.html`,
   * any other URL joined onto `root_url`, then quoted.
   */
  function QuotedUrl(m: map<string, string>, k: string, urljoin: (string, string) -> string, quote: string -> string): string
    requires k in m && "root_url" in m
  {
    quote(if k == "root_url" then urljoin(m[k], "/index.html") else urljoin(m["root_url"], m[k]))
  }

  /** A URL key that still needs a quoted companion. */
  predicate Unquoted(m: map<string, string>, k: string) {
    k in m && IsUrlKey(k) && QuotedKey(k) !in m
  }

  /**
   * `blog_post_init`: for each URL key in turn (in set order) whose quoted
   * key is absent, the quoted key is added. Reading `root_url` for another
   * URL raises `KeyError` when the blog has none; the keys added before
   * that stay added.
   */
  method BlogPostInit(blog: Blog, urljoin: (string, string) -> string, quote: string -> string) returns (err: Option<string>)
    modifies blog
    ensures err.Some? <==> "root_url" !in old(blog.metadata) && exists k :: Unquoted(old(blog.metadata), k)
    ensures forall k :: k in old(blog.metadata) ==> k in blog.metadata && blog.metadata[k] == old(blog.metadata)[k]
    ensures err.None? ==> Added(old(blog.metadata), blog.metadata, (set k | k in old(blog.metadata) && IsUrlKey(k)), urljoin, quote)
  {
    var m := blog.metadata;
    ghost var m0 := m;
    var urlkeys := set k | k in m && IsUrlKey(k);
    var todo := urlkeys;
    while todo != {}
      invariant Progress(m0, m, urlkeys, todo, urljoin, quote)
      decreases todo
    {
      var k :| k in todo;
      var newkey := QuotedKey(k);
      AddedHas(m0, m, urlkeys - todo, urljoin, quote, k);
      if newkey !in m && k != "root_url" && "root_url" !in m {
        assert Unquoted(m0, k);
        blog.metadata := m;
        return Some("KeyError: 'root_url'");
      }
      ghost var m1 := m;
      if newkey !in m {
        var url := quote(if k == "root_url" then urljoin(m[k], "/index.html") else urljoin(m["root_url"], m[k]));
        m := m[newkey := url];
      }
      Advance(m0, m1, urlkeys, todo, urljoin, quote, k);
      todo := todo - {k};
    }
    Finish(m0, m, urlkeys, urljoin, quote);
    blog.metadata := m;
    return None;
  }

  /** The loop of `BlogPostInit` with the keys in `todo` still to visit. */
  ghost predicate Progress(m0: map<string, string>, m: map<string, string>, urlkeys: set<string>, todo: set<string>,
                           urljoin: (string, string) -> string, quote: string -> string) {
    && urlkeys == (set k | k in m0 && IsUrlKey(k))
    && todo <= urlkeys
    && Added(m0, m, urlkeys - todo, urljoin, quote)
    && ("root_url" !in m0 ==> forall k :: k in urlkeys - todo ==> !Unquoted(m0, k))
  }

  /** One turn of the loop for a key that does not raise. */
  lemma Advance(m0: map<string, string>, m: map<string, string>, urlkeys: set<string>, todo: set<string>,
                urljoin: (string, string) -> string, quote: string -> string, k: string)
    requires Progress(m0, m, urlkeys, todo, urljoin, quote) && k in todo
    requires QuotedKey(k) in m || k == "root_url" || "root_url" in m
    ensures QuotedKey(k) in m ==> Progress(m0, m, urlkeys, todo - {k}, urljoin, quote)
    ensures QuotedKey(k) !in m ==> k in m && "root_url" in m
    ensures QuotedKey(k) !in m ==>
      var url := quote(if k == "root_url" then urljoin(m[k], "/index.html") else urljoin(m["root_url"], m[k]));
      Progress(m0, m[QuotedKey(k) := url], urlkeys, todo - {k}, urljoin, quote)
  {
    var done := urlkeys - todo;
    assert done + {k} == urlkeys - (todo - {k});
    AddedHas(m0, m, done, urljoin, quote, k);
    if QuotedKey(k) in m {
      AddedSkip(m0, m, done, urljoin, quote, k);
    } else {
      AddedStep(m0, m, done, urljoin, quote, k);
    }
  }

  /** After the loop: every URL key was visited, so none raised. */
  lemma Finish(m0: map<string, string>, m: map<string, string>, urlkeys: set<string>,
               urljoin: (string, string) -> string, quote: string -> string)
    requires Progress(m0, m, urlkeys, {}, urljoin, quote)
    ensures !("root_url" !in m0 && exists k :: Unquoted(m0, k))
    ensures forall k :: k in m0 ==> k in m && m[k] == m0[k]
    ensures Added(m0, m, (set k | k in m0 && IsUrlKey(k)), urljoin, quote)
  {
    assert urlkeys - {} == urlkeys;
  }

  /**
   * `m` is `m0` with the quoted keys of the URL keys in `done` added: the
   * companions of unquoted keys with their quoted URL, the others as they
   * were.
   */
  ghost predicate Added(m0: map<string, string>, m: map<string, string>, done: set<string>,
                        urljoin: (string, string) -> string, quote: string -> string) {
    && m.Keys == m0.Keys + (set k | k in done :: QuotedKey(k))
    && (forall k :: k in m0 ==> m[k] == m0[k])
    && (forall k :: k in done && Unquoted(m0, k) ==> "root_url" in m0 && m[QuotedKey(k)] == QuotedUrl(m0, k, urljoin, quote))
  }

  /** Before its turn, the quoted key of `k` is in the map exactly when it was at the start. */
  lemma AddedHas(m0: map<string, string>, m: map<string, string>, done: set<string>,
                 urljoin: (string, string) -> string, quote: string -> string, k: string)
    requires Added(m0, m, done, urljoin, quote) && k !in done && k in m0
    ensures QuotedKey(k) in m <==> QuotedKey(k) in m0
    ensures m[k] == m0[k] && ("root_url" in m <==> "root_url" in m0)
    ensures "root_url" in m0 ==> m["root_url"] == m0["root_url"]
  {
    if QuotedKey(k) in m && QuotedKey(k) !in m0 {
      var j :| j in done && QuotedKey(j) == QuotedKey(k);
      QuotedKeyInjective(j, k);
    }
    if "root_url" in m && "root_url" !in m0 {
      var j :| j in done && QuotedKey(j) == "root_url";
      QuotedKeyNotUrl(j);
    }
  }

  /** A URL key whose quoted key is already there adds nothing. */
  lemma AddedSkip(m0: map<string, string>, m: map<string, string>, done: set<string>,
                  urljoin: (string, string) -> string, quote: string -> string, k: string)
    requires Added(m0, m, done, urljoin, quote) && k !in done && k in m0 && QuotedKey(k) in m
    ensures Added(m0, m, done + {k}, urljoin, quote)
    ensures !Unquoted(m0, k)
  {
    AddedHas(m0, m, done, urljoin, quote, k);
    assert (set j | j in done + {k} :: QuotedKey(j)) == (set j | j in done :: QuotedKey(j)) + {QuotedKey(k)};
  }

  lemma AddedStep(m0: map<string, string>, m: map<string, string>, done: set<string>,
                  urljoin: (string, string) -> string, quote: string -> string, k: string)
    requires Added(m0, m, done, urljoin, quote) && k !in done && Unquoted(m0, k) && QuotedKey(k) !in m
    requires "root_url" in m0
    ensures Added(m0, m[QuotedKey(k) := QuotedUrl(m0, k, urljoin, quote)], done + {k}, urljoin, quote)
  {
    var m' := m[QuotedKey(k) := QuotedUrl(m0, k, urljoin, quote)];
    assert (set j | j in done + {k} :: QuotedKey(j)) == (set j | j in done :: QuotedKey(j)) + {QuotedKey(k)};
    forall j | j in done && Unquoted(m0, j) ensures m'[QuotedKey(j)] == m[QuotedKey(j)] {
      if QuotedKey(j) == QuotedKey(k) { QuotedKeyInjective(j, k); }
    }
  }
}
