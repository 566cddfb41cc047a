# simpleblog3 in Dafny

A model of the core of simpleblog3, Peter Donis's static blog generator, together with proofs about it. The model covers:

- **The extension mechanism.** It covers `check_extensions`, the `extendable` class decorator with its `get`/`mod`/`post_init` hooks, the registry `extension_types`/`extension_map` that a `BlogExtension` joins when it is constructed, and the loader of extension sub-modules (`sub.py` and `ext.py`).
- **The entry cache.** The `BlogCache` object reads its file when first asked, answers lookups and writes the whole sorted file back when it learns a new value. The `cached` decorator keeps one cache per name.
- **The blog core.** Entries, the entry containers (`BlogEntries`, `BlogIndex`, `NamedEntries`), the parameter maps of entries, pages and the `Blog` itself.
- **The bundled extensions.** These are archives, categories, copyright, feed, folding, grouping, indexes, links, localize, paginate, quote, render_markdown, tags, timestamps and title.
- **`setuputils.py`.** This is the helper that turns a `setup.py` variable map into `setup()` keywords: long description extraction, classifier generation, package root handling and autodiscovery.

The model's shape follows the source:

- Pure computations (formatting, parsing, sorting, grouping) are Dafny functions, with lemmas stating what they promise.
- Objects whose attributes the source updates in place (the registry, the extension loader, caches, pagination state, the variable map of `setup_vars`) are classes. Their methods are proved equal to those functions.
- The file system, templates, clocks and Python's import machinery are parameters, in the form of maps or functions supplied by the caller.

The modules are:

| Dafny module | source |
|---|---|
| `Dispatch`, `Registry`, `Loader` | `simpleblog/__init__.py` (extension plumbing), `simpleblog/extensions/__init__.py`, `simpleblog/sub.py`, `simpleblog/ext.py` |
| `Caching` | `simpleblog/caching.py` |
| `Core`, `Named` | `simpleblog/__init__.py` (entries, containers, pages, blog), `simpleblog/extensions/__init__.py` (`NamedEntries`, `get_links`) |
| `Timestamps`, `Tags`, `Params`, `Folding`, `Title`, `Entries`, `Categories`, `Grouping`, `RenderMarkdown`, `Copyright`, `Quote`, `Localize`, `Paginate`, `Feed`, `Links`, `Archives`, `Indexes` | the extension of the same name under `simpleblog/extensions/` |
| `SetupText`, `SetupVars` | `setuputils.py` |
| `Wrappers`, `Text`, `Order` | helpers: `Option`/`Result`, string searching and splitting, and a stable sort with its proofs |

Where the code and its documentation disagree, the model follows the code:

- `BlogCache.cache` opens its file unconditionally. A missing cache file is therefore an error, not an empty cache, and `Caching.Lookup` returns it as one.

## Model

| member | source | states |
|---|---|---|
| Dispatch.CheckExtensions | simpleblog/__init__.py:249-264 | Running the extensions of a type with a hook key yields exactly the specification `Check`. In the get phase it stops at the first extension that supplies a value. In the modifying phase every hook's result is fed to the next. |
| Dispatch.WithHook | simpleblog/__init__.py:253-255 | Only extensions that define the hook are kept, in order, and no more than were given. |
| Dispatch.SkipsExtensionsWithoutHook | simpleblog/__init__.py:253-255 | Extensions whose hook attribute is missing change neither the instance nor the result. |
| Dispatch.FirstSupplierWins | simpleblog/__init__.py:258-263 | In the get phase, the first extension that defines the hook and answers with a value decides the result, and later extensions are not consulted. |
| Dispatch.CheckAppend | simpleblog/__init__.py:253-263 | Running `a + b` is running `a` and then `b`, except that the get phase ends inside `a` once `a` supplies a value. |
| Dispatch.NoReturnRunsEveryHook | simpleblog/__init__.py:256-257 | With the `noreturn` marker every extension that has the hook is called, in order, and the result stays `noreturn`. |
| Dispatch.HookKey | simpleblog/__init__.py:296-297 | A hook key starts with `{etype}_` and ends with `_{name}`. |
| Dispatch.ExtendedAttr | simpleblog/__init__.py:294-313 | The extended method equals the specification `Extended`: get hooks, then the base implementation, then mod hooks. The base implementation runs exactly when no get hook supplied a value. |
| Dispatch.NoExtensionsIsBase | simpleblog/__init__.py:299-311 | With no extensions, an extended attribute returns its base implementation's value. |
| Dispatch.ExtensionType | simpleblog/__init__.py:352-356 | The extension type is the lower-cased class name, less its first four characters when the name is longer than `blog`. |
| Dispatch.ConstructRunsPostInit | simpleblog/__init__.py:362-371 | Constructing an extendable object runs the original constructor and then every `{etype}_post_init` hook, in registration order. |
| Dispatch.BlogPrefixDropped | simpleblog/__init__.py:352-355 | `Blog` followed by a non-empty rest has the lower-cased rest as its type. |
| Dispatch.EntryType | simpleblog/__init__.py:352-356 | `BlogEntry` has type `entry`. |
| Dispatch.PageType | simpleblog/__init__.py:352-356 | `BlogPage` has type `page`. |
| Dispatch.BlogType | simpleblog/__init__.py:352-356 | `Blog` keeps its whole lower-cased name, `blog`. |
| Registry.Relayer | simpleblog/extensions/__init__.py:75-84 | If an extension declares `{etype}_mixin`, a new class is built on top of the current one, with the mixin first and tagged with the extension type. Otherwise the class is unchanged. |
| Registry.FirstDefining | simpleblog/extensions/__init__.py:82-83 | Attribute lookup on the layered class finds the first layer that defines the name, and no earlier layer defines it. |
| Registry.NewestMixinFirst | simpleblog/extensions/__init__.py:80-84 | After a mixin is layered on, a method the mixin defines resolves to the mixin. Any other method resolves as it did before. |
| Registry.MixinAloneDoesNotRegister | simpleblog/extensions/__init__.py:70-74 | An extension whose only prefixed attribute is its mixin is not added to the extension map. |
| Registry.HookKeyEnding | simpleblog/extensions/__init__.py:70-73 | A hook key for a name not ending in `mixin` does not end in `mixin`. |
| Registry.HookRegisters | simpleblog/extensions/__init__.py:70-74 | Defining any hook of a type registers the extension for that type. |
| Registry.Registry.constructor | simpleblog/__init__.py:240-242 | Both registries start empty. |
| Registry.Registry.Declare | simpleblog/__init__.py:352-357 | Decorating a class records it under its extension type and leaves the extension map unchanged. |
| Registry.Registry.RegisterFor | simpleblog/extensions/__init__.py:68-84 | For one type, the extension is appended to that type's list exactly when it defines a hook, and its mixin (if any) is layered onto the type's class. |
| Registry.Registry.Register | simpleblog/extensions/__init__.py:62-87 | Constructing an extension relayers every known type. It appends the extension to exactly the lists of the types it hooks, after the existing entries. The set of types does not change. |
| Registry.Registry.RegisterNext | simpleblog/extensions/__init__.py:68-84 | Handling one more type layers its mixin and appends the extension to that type's list if it has a hook. Handled types are done and the rest are untouched. |
| Registry.RelayeredStep | simpleblog/extensions/__init__.py:75-84 | Relayering one more type keeps the type set and moves that type to the done side. |
| Registry.JoinedStep | simpleblog/extensions/__init__.py:68-74 | Appending the extension for one more type keeps the other lists and extends the handled ones. |
| Loader.NormalName | simpleblog/sub.py:18 | Dashes become underscores. The length and every other character are kept. |
| Loader.FoundModule | simpleblog/sub.py:19-30 | A user module in the extension directory takes precedence. Otherwise the bundled `simpleblog.{subtype}s.{name}` is used, if it exists. |
| Loader.LoadSubmodule | simpleblog/sub.py:17-34 | Loading yields the `not found` error, the `no ... in ... module` error, or the module with its first subclass, with the source's messages. |
| Loader.NotFoundMessage | simpleblog/sub.py:26-30 | A name found neither among user modules nor among bundled ones gives `{subtype} {name} not found!`. |
| Loader.ResolveAll | simpleblog/sub.py:42-45 | Resolving a list of names yields at most one module per name. |
| Loader.ResolveAllInOrder | simpleblog/sub.py:42-45 | Names are loaded in order. Every name is loaded exactly when there is no error. Each loaded item is that name's `load_submodule` result. An error is the first failing name's error. |
| Loader.MixinsOf | simpleblog/extensions/__init__.py:76-84 | The mixins of a run of extensions are at most one per extension. |
| Loader.RelayerAllStacks | simpleblog/extensions/__init__.py:76-84 | After several extensions are constructed, a type's class is their mixins, newest first, layered on the original. |
| Loader.RegisterOneMore | simpleblog/ext.py:29-30 | Constructing one more extension appends to the extension lists and layers onto the classes, after the earlier ones. |
| Loader.ExtensionLoader.constructor | simpleblog/ext.py:23 | No configuration is bound and no extension is loaded. |
| Loader.ExtensionLoader.Load | simpleblog/ext.py:20-30 | `load` binds the configuration and constructs one extension per resolved module, in order, each bound to its module: a module's `extension` is the one made at its last resolution. It stops with the loader's error at the first name that fails. The registries end up relayered and extended by exactly the constructed extensions. The `extension` bindings gain exactly the resolved modules' paths, and every module this call did not resolve keeps its old binding. |
| Loader.ExtensionLoader.LoadAll | simpleblog/ext.py:24-30 | The loop stops with the loader's error at the first failing name. The extensions before it are constructed in order, bound to their modules (the last one made for a module wins) and registered. The bindings returned are the given ones plus exactly the resolved paths, with every other binding unchanged (`Rebound`). |
| Loader.ExtensionLoader.RegisterNext | simpleblog/ext.py:29-30 | Constructing one more extension adds its effect on the registries after the earlier ones. |
| Loader.ResolvedAt | simpleblog/sub.py:42-45 | The `i`-th name loads exactly when the resolution got past it. On success it gives the `i`-th module. On failure its error is the one reported, and resolution stopped there. |
| Loader.ResolvedAll | simpleblog/sub.py:42-45 | When every name was resolved, there is no error. |
| Loader.ReboundStep | simpleblog/ext.py:29-30 | Binding one more module adds its path to the keys and leaves every binding outside the resolved paths as it was. |
| Loader.InstantiatedStep | simpleblog/ext.py:29-30 | Constructing and binding one more module keeps the constructed extensions in step with the resolved modules, and makes the new extension the one bound to its module. |
| Loader.ImportFrom | simpleblog/extensions/categories.py:16-17 | A `from ... import` succeeds exactly when every name is defined. Otherwise it fails naming an undefined one. |
| Loader.ExtensionImportsFail | simpleblog/extensions/categories.py:16-17 | As written, exactly categories, feed, folding, links, render_markdown, tags and timezone fail to import from `simpleblog.extensions`. |
| Loader.CategoriesImportMessage | simpleblog/extensions/categories.py:16-17 | The categories import fails on `get_links`. |
| Loader.NotFoundExtension | simpleblog/sub.py:17-30 | A hyphen-free extension name that no user module shadows and that is missing from the importable modules is reported as `extension <name> not found!`. |
| Loader.FailedImportNotFound | simpleblog/sub.py:26-30 | As written, such an extension is reported as `extension ... not found!` unless a user module takes precedence. |
| Loader.ExtensionImportsResolve | simpleblog/extensions/categories.py:16-17 | With the intended imports, every built-in extension imports and the loader sees all of them. |
| Caching.Reversed | simpleblog/caching.py:44-46 | Reversing keeps the length and mirrors the positions. |
| Caching.ParseLine | simpleblog/caching.py:44-57 | A line yields a pair only when it has at least two tokens, and exactly two without an object type. |
| Caching.ParseLineOf | simpleblog/caching.py:56-64 | A line written by `save` reads back as the same key and value. |
| Caching.LineOfInjective | simpleblog/caching.py:64 | Different keys are written as different lines. |
| Caching.LoadEncoded | simpleblog/caching.py:41-66 | A file whose lines encode a cache reloads to exactly that cache. |
| Caching.LoadLinesSnoc | simpleblog/caching.py:56-58 | Loading one more line adds its pair over the earlier ones. It fails if that line or an earlier one fails. |
| Caching.SplitThree | simpleblog/caching.py:56 | `split()` of three space-free words separated by spaces gives the three words. |
| Caching.LaterLineWins | simpleblog/caching.py:56-58 | When two lines give the same key, the later one's value wins, as in `dict()`. |
| Caching.EmptyValueUnreadable | simpleblog/caching.py:56-57 | A line with a key and no value makes loading fail. |
| Caching.ExtraTokens | simpleblog/caching.py:44-57 | With no object type, a three-token line makes loading fail. With an object type, only the first (or, reversed, the last) two tokens are used. |
| Caching.EncodesDropLast | simpleblog/caching.py:60-64 | Removing the last written line of a cache file encodes the cache without that key. |
| Caching.SortKeepsLists | simpleblog/caching.py:64 | Sorting the lines still lists each cache entry exactly once. |
| Caching.SavedReloads | simpleblog/caching.py:41-66 | After `save`, loading the file gives back the saved cache. This is the intended `save`: the code as written raises before writing (see Findings). |
| Caching.Lookup | simpleblog/caching.py:78-94 | The intended lookup. A load error is returned with the memo unchanged. On a hit, the cached value is returned, the function is not called, and the memo is the loaded map. On a miss, the function is called and its converted value is returned. The memo is then the loaded map with the key set to that value, or the loaded map unchanged when the conversion fails. |
| Caching.LookupMemoised | simpleblog/caching.py:85-87 | Once a lookup succeeds, asking again returns the same value without calling the function. |
| Caching.LookupAsWritten | simpleblog/caching.py:85-94 | As written, a hit returns the cached value, and a miss whose value converts fails with the `iteritems` `AttributeError`. The value is still stored in the memo. |
| Caching.MissFailsThenHits | simpleblog/caching.py:61-66 | As written, a miss fails and the next call for the same key returns the value the failed call computed, without calling the function. |
| Caching.FirstMissAsWritten | simpleblog/caching.py:61 | With an empty plain cache file, the first lookup fails as written and returns the value as intended. |
| Caching.BlogCache.constructor | simpleblog/caching.py:26-38 | A new cache remembers its name, file name and format, and has not loaded yet. |
| Caching.BlogCache.Cache | simpleblog/caching.py:40-58 | The `cache` property loads once and then keeps the loaded map. |
| Caching.BlogCache.Save | simpleblog/caching.py:60-66 | `save` rewrites the file with the sorted lines of the cache and changes nothing else. |
| Caching.BlogCache.Collect | simpleblog/caching.py:61-64 | One `key value` line per item, holding each item's line. The lines are distinct when every value can be written. |
| Caching.BlogCache.Get | simpleblog/caching.py:85-94 | The intended cached lookup equals `Lookup`. The file is rewritten exactly when a new value was computed. |
| Caching.CacheDir | simpleblog/caching.py:32-34 | The configured `cache_dir`, else the entries directory. |
| Caching.CacheMap.constructor | simpleblog/caching.py:69 | No cache objects exist yet. |
| Caching.CacheMap.Cached | simpleblog/caching.py:72-96 | A cache object is created once per name and reused. The lookup goes through that cache, and no other cache changes. |
| Core.PrefixedKeys | simpleblog/__init__.py:698-705 | Every key of the mapping appears with the prefix and keeps its value, and every result key is a prefixed original key. |
| Core.PrefixedKeysSize | simpleblog/__init__.py:698-705 | Prefixing loses no entry: the result has as many keys as the original. |
| Core.PrefixedKeysRemove | simpleblog/__init__.py:698-705 | Taking a key out of the mapping takes exactly its prefixed key out of the result. |
| Core.PrefixedKeysInverse | simpleblog/__init__.py:698-705 | Stripping the prefix from the result gives the original mapping back. |
| Core.SourceIndex | simpleblog/__init__.py:665-669 | `-1` for an empty list. Otherwise the container's first position, or a `ValueError` when it is absent. |
| Core.Neighbours | simpleblog/__init__.py:671-681 | The next source of the container at position `i` is at `i + 1`, and none at the end. The previous source is at `i - 1`, and none at the start. |
| Core.PrevOfNext | simpleblog/__init__.py:671-681 | In a list without repeats, the previous source of a container's next source is the container itself. |
| Core.Blog.constructor | simpleblog/__init__.py:842-846 | The blog starts with the metadata loaded from the blog file. |
| Core.Blog.CheckRequired | simpleblog/__init__.py:847-849 | There is no error exactly when every required key is present. An error names a missing required key with the source's message. |
| Core.Blog.FillDefaults | simpleblog/__init__.py:850-851 | The new metadata is the old one with `setdefault` applied to each default item in the dictionary's order. |
| Core.SetDefaultsKeys | simpleblog/__init__.py:850-851 | After the defaults the keys are the loaded keys plus the default keys, and no others. |
| Core.SetDefaultsExtends | simpleblog/__init__.py:850-851 | A key that was loaded keeps its loaded value. |
| Core.SetDefaultsPrefix | simpleblog/__init__.py:850-851 | Each later default only adds keys to the metadata as it stood before it. |
| Core.SetDefaultsFirstWins | simpleblog/__init__.py:850-851 | A default key that was not loaded gets its template filled in from the metadata as it stood at its own step. |
| Core.NewPage | simpleblog/__init__.py:736-746 | A page takes its title and heading from the source. An entry is the page's only entry, and a container gives its entries. The URL path is the source's with `.{format}` appended. |
| Core.JoinPathsPlain | simpleblog/__init__.py:749-752 | Joining non-empty, slash-free parts as paths is joining them with `/`, and the result does not end in `/`. |
| Core.FilePathOfUrl | simpleblog/__init__.py:749-752 | A page whose URL path is `/` followed by names is written at the same path, relative. |
| Core.SourceLinks | simpleblog/__init__.py:783-791 | Both links are empty without a link source. Otherwise each is the link to the next (previous) source, or empty when there is none. |
| Named.NewNamed | simpleblog/extensions/__init__.py:40-46 | Name and sort key are the given name. The short URL is `/{prefix}/{name}/` with a prefix and `/{name}/` without. |
| Named.NamedPageFile | simpleblog/extensions/__init__.py:40-46 | The page of a named container in a format is written to `{prefix}/{name}/index.{format}`. |
| Named.GetLinks | simpleblog/extensions/__init__.py:92-99 | No containers give the empty string, and one container gives just its link. |
| Named.GetLinksSorted | simpleblog/extensions/__init__.py:92-99 | The result joins, with the separator and a newline, the links of a rearrangement of the containers sorted by sort key (descending when reversed). |
| Named.AddNamedSources | simpleblog/extensions/tags.py:122-144 | One container per name, each name once. Their links are stored under the links key, changing no other metadata. Their `html` pages are appended to the sources. This is shared by tags and categories. |
| Timestamps.MakeDateTime | simpleblog/extensions/timestamps.py:58 | `datetime(*fields)` succeeds exactly when three to seven fields are given and they form a valid date and time. It then holds those fields. |
| Timestamps.Assemble | simpleblog/extensions/timestamps.py:58 | Each given field lands in its position, and missing time fields are zero. |
| Timestamps.ParseInts | simpleblog/extensions/timestamps.py:58 | `map(int, parts)` succeeds exactly when every part is an integer, and then gives their values in order. |
| Timestamps.Shown | simpleblog/extensions/timestamps.py:68-71 | The string shows year to minute, plus the second when seconds are cached. |
| Timestamps.Truncated | simpleblog/extensions/timestamps.py:67-72 | What survives a trip through the string: the fields up to the minute, the second only when cached, and no microseconds. |
| Timestamps.StrParts | simpleblog/extensions/timestamps.py:67-72 | Splitting the string on `-` gives the shown fields, each formatted with at least two digits. |
| Timestamps.StrRoundTrip | simpleblog/extensions/timestamps.py:56-72 | With the intended string test, reading back the string of a timestamp gives the timestamp truncated to what was shown. |
| Timestamps.StrIsToken | simpleblog/extensions/timestamps.py:67-72 | The string is non-empty and has no space, so it is a single cache-file token. |
| Timestamps.Trichotomy | simpleblog/extensions/timestamps.py:74-86 | Timestamps and datetimes compare by their fields, lexicographically, and exactly one of `<`, `==` and `>` holds. |
| Timestamps.ForeignRaises | simpleblog/extensions/timestamps.py:74-86 | Comparing with anything that is neither a timestamp nor a datetime raises. |
| Timestamps.NewTimestamp | simpleblog/extensions/timestamps.py:48-60 | A float is converted by the configured clock. A string is parsed as `ParseTimestamp` gives it. Anything else raises `ValueError`. |
| Timestamps.ConstructedRoundTrip | simpleblog/extensions/timestamps.py:56-72 | With the intended string test, `Timestamp(str(ts))` gives the time stamp truncated to what the string shows, whatever the clock. |
| Timestamps.NewTimestampAsWritten | simpleblog/extensions/timestamps.py:48-60 | As written, a float gives the intended result, and every other argument raises the `basestring` `NameError`. |
| Timestamps.TimestampsFile | simpleblog/extensions/timestamps.py:89 | The configured `timestamps_file`, else `timestamps`. |
| Timestamps.TimestampFormat | simpleblog/extensions/timestamps.py:94-96 | The timestamps cache is stored reversed, and a token read from it goes through the `Timestamp` constructor, whatever the clock. |
| Timestamps.TimestampLine | simpleblog/extensions/timestamps.py:94-96 | A cached timestamp is written as `{timestamp} {key}`. With the intended string test it reads back as the key with the truncated timestamp. |
| Timestamps.TimestampStorable | simpleblog/extensions/timestamps.py:94-96 | With the intended string test, a timestamp survives the cache exactly when it is already truncated. |
| Timestamps.CachedLineUnreadable | simpleblog/extensions/timestamps.py:56-96 | As written, every cached timestamp line fails to read back with the `NameError`, and so does any cache file holding it. |
| Tags.TagsFile | simpleblog/extensions/tags.py:18 | The configured `tags_file`, else `tags`. |
| Tags.MakeLink | simpleblog/extensions/tags.py:21-26 | A tag link points at the short URL of that tag's container. |
| Tags.Tagset | simpleblog/extensions/tags.py:39-40 | A tag set is never empty, and its tags are stripped and contain no comma. |
| Tags.EmptyStringTagset | simpleblog/extensions/tags.py:39-40 | An empty tag string gives the set holding one empty tag. |
| Tags.TagsetRoundTrip | simpleblog/extensions/tags.py:39-43 | Parsing the string of a non-empty set of stripped, comma-free tags gives the set back. |
| Tags.TagsetCanonical | simpleblog/extensions/tags.py:39-43 | String then parse is the identity on parsed tag sets. |
| Tags.TagEntries | simpleblog/extensions/tags.py:68-71 | A tag's entries are exactly the blog's entries carrying the tag, in order. |
| Tags.EveryTagHasPage | simpleblog/extensions/tags.py:124-133 | Every tag of every entry gets a container, which lists that entry. |
| Tags.EntryPostInit | simpleblog/extensions/tags.py:109-114 | Only `taglinks` is set, to the sorted tag links. |
| Tags.EntryModAttrs | simpleblog/extensions/tags.py:116-120 | Only `tags` is set, to the tag set's string. |
| Tags.ModSources | simpleblog/extensions/tags.py:122-144 | One `BlogTag` per distinct tag of all entries. `tag_links` holds their links, and their `html` pages are appended to the sources. |
| Tags.TagsFormat | simpleblog/extensions/tags.py:93-95 | The tags cache is not reversed and has `Tagset` as its object type. |
| Tags.TaglessEntryUnreadable | simpleblog/extensions/tags.py:93-98 | An entry without tags is cached as a line with an empty value, which cannot be read back. |
| Tags.TagsLineReloads | simpleblog/extensions/tags.py:93-98 | A tag set of non-empty, space-free tags is cached as a line that reads back to the same set. |
| Tags.TagsetToken | simpleblog/extensions/tags.py:39-43 | The string of a non-empty tag set of space-free tags is one non-empty, space-free word. |
| Tags.SpacedTagTruncated | simpleblog/extensions/tags.py:93-98 | A tag containing a space reads back as only its first word. |
| Folding.FoldMarker | simpleblog/extensions/folding.py:29-33 | The marker is the fold symbol, followed by a newline unless inline. |
| Folding.Fold | simpleblog/extensions/folding.py:35-43 | An empty marker raises the `ValueError` of `split`. Otherwise folding happens exactly when the marker occurs. The short text is what precedes its first occurrence. The text is the raw text with that one marker removed. Without the marker the text is unchanged. |
| Folding.FoldOf | simpleblog/extensions/folding.py:35-43 | A text `short + marker + rest` whose first marker is that one folds into `short` and `short + rest`. |
| Folding.FoldEntry.constructor | simpleblog/extensions/folding.py:21-27 | The fold settings are stored, and nothing is loaded yet. |
| Folding.FoldEntry.DoLoad | simpleblog/extensions/folding.py:35-43 | Loading stores the short text and returns the folded text as `Fold` gives them. On an error nothing is stored. |
| Folding.FoldEntry.ShortTemplate | simpleblog/extensions/folding.py:55-59 | The `short` template is given exactly for the short formats. Any other format raises. |
| Folding.MaxIndexFull | simpleblog/extensions/folding.py:71-76 | `max_index_full` is `max_full_entries - 1`, and never below zero. |
| Folding.UseShortEntry | simpleblog/extensions/folding.py:84-89 | `force_short` forces the short form. Otherwise the index is compared with `max_index_full`, and a missing index raises. |
| Folding.ShortFromMaxFull | simpleblog/extensions/folding.py:71-89 | Without `force_short`, the entry at index `i` is short exactly when `i >= max_full_entries` (and `i >= 1` when that is below one). |
| Folding.EntryGetBody | simpleblog/extensions/folding.py:91-98 | The short template is filled with the rendered short text and the permalink exactly when the entry is to be short and has a short form. Otherwise there is no result, and errors come only from `use_short_entry`. |
| Folding.PageModEntryParams | simpleblog/extensions/folding.py:78-82 | Only `index` is added. It is the entry's first position among the page's entries, and an entry not on the page raises. |
| Title.TitlesFile | simpleblog/extensions/title.py:20 | The configured `titles_file`, else `titles`. |
| Title.SplitTitle | simpleblog/extensions/title.py:30-36 | An empty separator raises the `ValueError` of `split`. Without the separator the title is empty and the text unchanged. With it, the title is what precedes the first separator and the text is what follows. |
| Title.TitleLineSplit | simpleblog/extensions/title.py:30-36 | With the default newline separator, a first line without newlines is the title and the rest is the text. |
| Title.TitleEntry.constructor | simpleblog/extensions/title.py:25-28 | The separator and the format flag are stored, with an empty title. |
| Title.TitleEntry.DoLoad | simpleblog/extensions/title.py:30-36 | Loading stores the title and returns the text as `SplitTitle` gives them. On an error the title is unchanged. |
| Title.TitleEntry.FormatTitle | simpleblog/extensions/title.py:45-49 | The intended formatting. A non-empty title is rewritten by every substitution, in order, when `title_format` is set. Otherwise it is kept. The stored title is the returned one. |
| Title.FormatAsWritten | simpleblog/extensions/title.py:38-49 | As written, a call with a non-empty title and `title_format` set raises `TypeError` while pairs remain, and uses one pair up. Otherwise the title is returned unchanged. |
| Title.FormatNeverAppliesAsWritten | simpleblog/extensions/title.py:38-49 | As written, the first two calls on a non-empty title raise and the third returns the title unformatted. |
| Title.TitleEntry.FormatTitleAsWritten | simpleblog/extensions/title.py:38-49 | In place, the same as `FormatAsWritten`. The stored title never changes. |
| Title.TitleFormat | simpleblog/extensions/title.py:51-53 | The titles cache is plain: not reversed and without an object type. |
| Title.TitleLineReloads | simpleblog/extensions/title.py:51-56 | A one-word title is cached as a line that reads back to the same title. |
| Title.SpacedTitleUnreadable | simpleblog/extensions/title.py:51-56 | A title with a space is cached as a line with three tokens, which cannot be read back. |
| Title.UntitledUnreadable | simpleblog/extensions/title.py:30-56 | An entry without a title separator caches an empty title, which cannot be read back. |
| Entries.Entry.constructor | simpleblog/__init__.py:414-417 | A new entry has its name, no category, no metadata and no links. |
| Categories.MakeCategoryLink | simpleblog/extensions/categories.py:37-38 | The link points at `/{category}/`, the short URL of an unprefixed container, whatever the categories prefix. |
| Categories.CategoryLink | simpleblog/extensions/categories.py:50-53 | A category gives its link, and no category gives `(None)`. |
| Categories.EntryPostInit | simpleblog/extensions/categories.py:45-56 | The entry's name is split into category and name, and only `categorylink` is set in its metadata. |
| Categories.EntryModAttrs | simpleblog/extensions/categories.py:58-62 | Only `category` is set, to the entry's category. |
| Categories.CategoryEntries | simpleblog/extensions/categories.py:31-34 | A category's entries are exactly the blog's entries in that category, in order. |
| Categories.SubdirEntries | simpleblog/extensions/categories.py:67-71 | Every pair found is a subdirectory with a name listed in it. |
| Categories.SubdirEntryNames | simpleblog/extensions/categories.py:67-71 | Each entry name is the subdirectory joined with the listed name. |
| Categories.ModAllEntries | simpleblog/extensions/categories.py:64-71 | The root entries are kept first, followed by one entry per name found in the subdirectories, in order. |
| Categories.SubdirEntryCategory | simpleblog/extensions/categories.py:45-71 | An entry found in a subdirectory gets that subdirectory as its category and the listed name as its name. |
| Categories.RootEntryCategory | simpleblog/extensions/categories.py:45-53 | An entry in the root directory has no category and the link `(None)`. |
| Categories.ModSources | simpleblog/extensions/categories.py:73-89 | One `BlogCategory` per subdirectory. `category_links` holds their links, and their `html` pages are appended to the sources. |
| Grouping.Runs | simpleblog/extensions/grouping.py:44-46 | `groupby` cuts the entries into non-empty runs of equal key. Adjacent runs have different keys, and concatenating the runs gives the entries back. |
| Grouping.JoinFirstRun | simpleblog/extensions/grouping.py:44-46 | An element with the first run's key joins that run, and the runs stay grouped. |
| Grouping.NewFirstRun | simpleblog/extensions/grouping.py:44-46 | An element with a different key opens a run of its own, and the runs stay grouped. |
| Grouping.HeadParams | simpleblog/extensions/grouping.py:47-50 | The head and foot parameters hold the group key and, under its own name, the group index. |
| Grouping.GroupParams | simpleblog/extensions/grouping.py:52-58 | An entry's parameters gain `groupindex` and `groupkey`. Everything else is kept. |
| Grouping.EntryLines | simpleblog/extensions/grouping.py:56-59 | Each entry of a run is formatted with its parameters updated by the group's. |
| Grouping.SectionsLength | simpleblog/extensions/grouping.py:44-60 | Sections emit one head and one foot per run plus one line per entry. |
| Grouping.GroupedLength | simpleblog/extensions/grouping.py:42-60 | The grouped output has one line per entry plus two per group. |
| Grouping.FormatEntries | simpleblog/extensions/grouping.py:42-64 | A group format gives the grouped output. Any other format gives the ungrouped entries. |
| Grouping.EmitSection | simpleblog/extensions/grouping.py:51-60 | One run is emitted as its head, its entries and its foot. |
| RenderMarkdown.Shown | simpleblog/extensions/render_markdown.py:42-50 | Each line is kept or indented by two spaces. |
| RenderMarkdown.PrettyPrint | simpleblog/extensions/render_markdown.py:33-58 | The loop's output equals the specification `PrettyUpTo` of all lines. |
| RenderMarkdown.Render | simpleblog/extensions/render_markdown.py:24-58 | Without pretty printing the HTML is returned as is. With it, the HTML's lines pretty-printed are rejoined with newlines. |
| RenderMarkdown.PrettyPrefix | simpleblog/extensions/render_markdown.py:37-57 | Later lines only append: the output for a prefix of the lines is a prefix of the output. |
| RenderMarkdown.EveryLineOnce | simpleblog/extensions/render_markdown.py:37-57 | Every input line appears once, in order, possibly indented, and after a blank line exactly when the previous line ended a block. |
| RenderMarkdown.OnlyBlanksAdded | simpleblog/extensions/render_markdown.py:38-41 | Every output line that is not an input line is an inserted blank line. |
| RenderMarkdown.QuoteSpan | simpleblog/extensions/render_markdown.py:42-49 | A line is inside a blockquote exactly when an earlier line opened one that no line since has closed. |
| RenderMarkdown.InQuoteOpened | simpleblog/extensions/render_markdown.py:42-49 | Being inside a blockquote means one was opened and not yet closed. |
| RenderMarkdown.StaysInQuote | simpleblog/extensions/render_markdown.py:42-49 | A blockquote opened and not yet closed is still open. |
| RenderMarkdown.OneLineBlockquote | simpleblog/extensions/render_markdown.py:42-49 | A line that both opens and closes a blockquote still sets the flag, so the next line is indented. |
| RenderMarkdown.NoMarkupUnchanged | simpleblog/extensions/render_markdown.py:37-57 | Lines without blockquotes or block ends are passed through unchanged. |
| RenderMarkdown.NeverInQuote | simpleblog/extensions/render_markdown.py:42-49 | When no line opens a blockquote, no line is inside one. |
| RenderMarkdown.PlainHtmlUnchanged | simpleblog/extensions/render_markdown.py:33-58 | HTML without blockquotes or block ends is returned unchanged by pretty printing. |
| Copyright.MinYear | simpleblog/extensions/copyright.py:31-33 | The smallest entry year. |
| Copyright.MaxYear | simpleblog/extensions/copyright.py:35-37 | The largest entry year. |
| Copyright.StartYear | simpleblog/extensions/copyright.py:40 | A configured start year is used. Otherwise the earliest entry year, and `min` of no years raises. |
| Copyright.EndYear | simpleblog/extensions/copyright.py:41 | A configured end year is used. Otherwise the latest entry year, and `max` of no years raises. |
| Copyright.YearSpecReads | simpleblog/extensions/copyright.py:44 | The year spec reads back as `start-end` when start is before end, and as the single start year otherwise. |
| Copyright.DefaultMetadata | simpleblog/extensions/copyright.py:39-50 | `copyright` and `copyright_display` are filled from the templates with the year spec added to the data, and nothing else changes. It fails exactly when a year must be computed and the blog has no entries. |
| Copyright.ComputedSpan | simpleblog/extensions/copyright.py:31-44 | Computed years give start no later than end, and equal years only when all entries share the year. |
| Quote.RequiredMetadata | simpleblog/extensions/quote.py:22-26 | `root_url` is added to the required keys, and nothing else is. |
| Quote.QuotedKeyInjective | simpleblog/extensions/quote.py:30-32 | Different URL keys get different quoted keys. |
| Quote.QuotedKeyNotUrl | simpleblog/extensions/quote.py:29-32 | A quoted key does not end in `_url`, so it is not itself quoted. |
| Quote.BlogPostInit | simpleblog/extensions/quote.py:28-39 | Existing metadata is never changed. Every `_url` key whose quoted twin was absent gets one, joined against `root_url`, or against `/index.html` for `root_url` itself. The only error is a missing `root_url` when some key needs it. |
| Quote.AddedHas | simpleblog/extensions/quote.py:31-39 | Keys not yet processed and `root_url` are as they were. |
| Quote.AddedStep | simpleblog/extensions/quote.py:31-39 | Processing one more unquoted key keeps the loop invariant. |
| Quote.AddedSkip | simpleblog/extensions/quote.py:31-32 | A key whose quoted key already exists is passed over, and no quoted key is added for it. |
| Quote.Advance | simpleblog/extensions/quote.py:31-39 | One loop turn either skips a key that is already quoted or computes its quoted URL from `root_url`. |
| Quote.Finish | simpleblog/extensions/quote.py:28-39 | A loop that finishes never met an unquoted key while `root_url` was missing. Existing metadata is unchanged, and every URL key has its quoted key. |
| Localize.DefaultLocale | simpleblog/extensions/localize.py:20-24 | The locale is `{language}_{country}.{charset}`. |
| Localize.BlogPostInit | simpleblog/extensions/localize.py:18-26 | A missing language, country or charset raises and changes nothing. Otherwise only `locale` is added, if it was absent, with the default locale. |
| Paginate.DefaultConfig | simpleblog/extensions/paginate.py:28-35 | The defaults: ten entries per page, no page number on the first page, `html` only, forced short entries, and no source links. |
| Paginate.NumPages | simpleblog/extensions/paginate.py:17-21 | The page count is the ceiling of entries over page size: enough pages for all entries, the last page non-empty, and zero pages only for zero entries. |
| Paginate.Slice | simpleblog/extensions/paginate.py:57-58 | Python slicing: the elements from `a` up to `b` that exist, clamped to the list. |
| Paginate.NewPageEntries | simpleblog/extensions/paginate.py:37-55 | A page covers `[pagenum * max, pagenum * max + max)` of its source's entries and keeps its source's short URL. The first page keeps the source's title and heading unless page numbers are wanted there. Other pages fill the templates with the one-based page number. |
| Paginate.WindowsPrefix | simpleblog/extensions/paginate.py:57-58 | The first `count` pages together hold the first `count * max` entries. |
| Paginate.PagesPartition | simpleblog/extensions/paginate.py:17-58 | The pages of a source together hold exactly its entries, in order. Each page holds between one and `max` entries. |
| Paginate.PageStartInside | simpleblog/extensions/paginate.py:17-21 | Every page starts at an existing entry. |
| Paginate.MakeUrlpath | simpleblog/extensions/paginate.py:60-67 | A link to page zero from another page is the bare short URL. Page zero itself is `index`, and page `n > 0` is `index{n}`. |
| Paginate.PageUrlpathsDistinct | simpleblog/extensions/paginate.py:60-75 | Different pages of a source have different URL paths. |
| Paginate.PageLink | simpleblog/extensions/paginate.py:83-88 | A link back to page zero has no format suffix. Links to later pages carry `.{format}`. |
| Paginate.MakePagelinks | simpleblog/extensions/paginate.py:77-90 | The newer link exists exactly after the first page, and the older link exactly before the last. Each points at the adjacent page. |
| Paginate.PagelinksReachNeighbours | simpleblog/extensions/paginate.py:60-90 | The newer and older links of page `k` point at the URL paths of pages `k - 1` and `k + 1`, with the source's short URL for the first page. |
| Paginate.PageGetLinkSource | simpleblog/extensions/paginate.py:107-110 | A page of a paginated source links through its original source. Other pages give no result. |
| Paginate.PageModEntryParams | simpleblog/extensions/paginate.py:112-123 | `force_short` is set exactly on pages after the first, when forcing is configured. Nothing else changes. |
| Paginate.PageLinksLine | simpleblog/extensions/paginate.py:139-141 | The line is empty exactly when every link is empty. Otherwise it is the non-empty links in order, joined by the separator, with a newline. |
| Paginate.PageModAttrs | simpleblog/extensions/paginate.py:125-145 | Exactly `page_links`, `page_link_newer` and `page_link_older` are set. The newer and older links are the page links, or empty for an unpaginated source. `page_links` is the links line of newer then older, framed by the next and previous source links when those are included. Missing source links raise only when they are included. |
| Paginate.Expand | simpleblog/extensions/paginate.py:147-164 | A source that paginates becomes its pages, numbered from zero and at least two of them. Any other source is kept as it is, and the format is kept. |
| Paginate.BlogModSources | simpleblog/extensions/paginate.py:155-165 | The loop builds exactly `ExpandAll` of the sources. |
| Paginate.ExpandAllOriginals | simpleblog/extensions/paginate.py:155-165 | Mapping every first page back to its original source, and dropping later pages, gives the old sources list. |
| Paginate.OriginalsExpand | simpleblog/extensions/paginate.py:157-164 | One source's expansion maps back to that source. |
| Paginate.OriginalsAppend | simpleblog/extensions/paginate.py:155-165 | The original sources of two lists of sources are those of each, in order. |
| Paginate.NothingPaginated | simpleblog/extensions/paginate.py:147-164 | When no source paginates, the sources are unchanged. |
| Feed.ArgParts | simpleblog/extensions/feed.py:70-80 | Each archive argument is shown padded to two characters. With month names, the month is shown by name. |
| Feed.ArgstrRoundTrip | simpleblog/extensions/feed.py:70-80 | Without month names, splitting the argument string on its separator gives back every argument. |
| Feed.ArgsUrlshort | simpleblog/extensions/feed.py:92-99 | Archive short URLs are `/{y}/{m}/` with feed directories, and `/{y}-{m}` without. |
| Feed.EntryMatch | simpleblog/extensions/feed.py:82-85 | An entry matches when the leading (year, month, day) fields of its timestamp equal the arguments. |
| Feed.FeedEntriesOf | simpleblog/extensions/feed.py:87-90 | A feed's entries are exactly the matching entries, in order. |
| Feed.ArchiveLevel | simpleblog/extensions/feed.py:327-328 | `year`, `month` and `day` select one, two or three fields. Any other value raises. |
| Feed.GroupKeys | simpleblog/extensions/feed.py:329-336 | The `groupby` keys: one per run, so adjacent keys differ. Every element's key appears and nothing else does. |
| Feed.GroupKeysAscending | simpleblog/extensions/feed.py:329-336 | The keys of a sorted sequence are strictly ascending. |
| Feed.ArchiveFeedArgsAscending | simpleblog/extensions/feed.py:325-336 | The archive arguments are strictly ascending. |
| Feed.ArchiveFeedArgsCover | simpleblog/extensions/feed.py:325-336 | Every timestamp's key is an argument, and every argument is some timestamp's key. |
| Feed.AscendingDistinct | simpleblog/extensions/feed.py:329-336 | Strictly ascending arguments are pairwise different. |
| Feed.ArchiveFeedArgsSpec | simpleblog/extensions/feed.py:325-336 | The archive arguments are strictly ascending and of the chosen length. Exactly the timestamps' prefixes appear, and there are no more of them than timestamps. |
| Feed.KeysFewer | simpleblog/extensions/feed.py:329-336 | There are never more keys than elements. |
| Feed.NewFeedEntries | simpleblog/extensions/feed.py:57-68 | The arguments' first position in the list is found, or it raises. The assertion fails unless the current feed is exactly the last. The previous arguments exist after the first position. The next arguments exist only before the last two positions. |
| Feed.FirstIndexOfAscending | simpleblog/extensions/feed.py:61 | In a strictly ascending list, each element is found at its own position. |
| Feed.ArchiveAt | simpleblog/extensions/feed.py:343-346 | Every argument but the last opens an archive feed at its own position. |
| Feed.CurrentFeedEntries | simpleblog/extensions/feed.py:338-341 | The current feed is the last arguments and has no next archive. It has a previous archive exactly when there are two or more. No archive arguments at all raises. |
| Feed.LinkedArchivesExist | simpleblog/extensions/feed.py:65-66 | The previous and next archives a feed links to are archive feeds, never the current one. |
| Feed.ArchiveCurrent | simpleblog/extensions/feed.py:105-110 | An archive links to the current feed, and the current feed links to nothing. |
| Feed.ArchiveRel | simpleblog/extensions/feed.py:112-123 | A prev or next link exists exactly when those arguments exist and are non-empty, and it points at their archive. |
| Feed.ArchiveItems | simpleblog/extensions/feed.py:126-138 | The four candidate elements, in order: the marker, the current link, the prev link and the next link. |
| Feed.ArchiveElements | simpleblog/extensions/feed.py:125-140 | The elements are the non-empty archive items joined by newlines and framed by newlines. They reduce to two newlines exactly when every item is empty. |
| Feed.CurrentFeedElements | simpleblog/extensions/feed.py:101-140 | The current feed's elements are just the link to the previous archive. |
| Feed.OnlyPrevElement | simpleblog/extensions/feed.py:125-140 | A current feed with only a previous archive shows just the prev link, framed by newlines. |
| Feed.Weekday | simpleblog/extensions/feed.py:166 | A weekday is in `0..6`. |
| Feed.WeekdayAnchor | simpleblog/extensions/feed.py:166 | 2013-01-01 is a Tuesday (weekday 1). |
| Feed.NextDayWeekday | simpleblog/extensions/feed.py:166 | The next day of the same month is the next weekday. |
| Feed.AtomFields | simpleblog/extensions/feed.py:161-173 | An Atom timestamp is 20 characters, `YYYY-MM-DDTHH:MM:00Z`, with each field reading back. |
| Feed.FixedFields | simpleblog/extensions/feed.py:161-173 | In an Atom timestamp, each field sits at its fixed position. |
| Feed.FourDigits | simpleblog/extensions/feed.py:161-173 | A four-digit year prints as four characters. |
| Feed.RssFormat | simpleblog/extensions/feed.py:159-169 | An RSS timestamp starts with the weekday name and ends with ` GMT`. |
| Feed.RssFields | simpleblog/extensions/feed.py:159-169 | For a four-digit year, the text is the weekday name, `, `, the two-digit day, the month name, the year, and `hh:mm GMT`. Each number reads back as the field it shows. |
| Feed.TimestampUtc | simpleblog/extensions/feed.py:182-187 | With UTC timestamps, the fields up to the second are kept and the microseconds dropped. |
| Feed.Latest | simpleblog/extensions/feed.py:277 | `max` of the entries' UTC timestamps is one of them and is no earlier than any of them. |
| Feed.LinkRun | simpleblog/extensions/feed.py:222 | The regular expression's character class matches the longest run of letters, digits, `-`, `/` and `.`. |
| Feed.RunOf | simpleblog/extensions/feed.py:222 | A link path of allowed characters followed by a quote is matched exactly up to the quote. |
| Feed.FixupNoLinks | simpleblog/extensions/feed.py:225-232 | HTML without a relative link opening is unchanged. |
| Feed.FixupKeeps | simpleblog/extensions/feed.py:225-232 | The same, stated for every input. |
| Feed.FixupLink | simpleblog/extensions/feed.py:222-232 | A relative link gets the root URL prefixed, and scanning resumes after it. |
| Feed.FeedFormats | simpleblog/extensions/feed.py:205-207 | The feed formats are the index formats that are `rss` or `atom`. |
| Feed.ArchiveFeedFormats | simpleblog/extensions/feed.py:209-211 | The archive feed formats are the index formats that are `atom`, a subset of the feed formats. |
| Feed.EntryModBody | simpleblog/extensions/feed.py:247-250 | Outside the feed formats the body is unchanged, and so is a body without relative links. |
| Feed.DefaultTemplates | simpleblog/extensions/feed.py:239-245 | The id templates default to `{cachekey}` and the category templates to `entries`. |
| Feed.EntryModAttrs | simpleblog/extensions/feed.py:252-273 | It raises exactly when a feed format is produced and one of `root_url`, `author` or `email` is missing from the metadata. On success the keys are the entry's own plus the id, category and timestamp keys of the feed formats produced. |
| Feed.EntryModAttrsKeeps | simpleblog/extensions/feed.py:252-273 | Attributes other than the feed keys keep their values. |
| Feed.EntryModAttrsValues | simpleblog/extensions/feed.py:255-258 | With a feed format, `root_url`, `author` and `email` are copied from the metadata. |
| Feed.EntryModAttrsStamps | simpleblog/extensions/feed.py:259-273 | The RSS and Atom timestamps are stored under `timestamp_rss` and `timestamp_atom` when those formats are produced. |
| Feed.RssLanguage | simpleblog/extensions/feed.py:289-295 | The language, followed by `-` and the lower-cased country when there is one. A missing language raises. |
| Feed.PageModAttrs | simpleblog/extensions/feed.py:275-300 | Non-feed pages are unchanged. A feed page raises exactly when it has no entries, or is RSS and has no language. Only the feed keys of its format are added, and other attributes are kept. An Atom page gains the latest timestamp in Atom form. An RSS page gains it in RSS form, together with the RSS language. An archived format gains the archive elements. |
| Feed.RequiredMetadata | simpleblog/extensions/feed.py:302-310 | `root_url`, `author` and `email` are always added to the required keys, and `language` when RSS is produced. |
| Feed.DefaultMetadata | simpleblog/extensions/feed.py:312-323 | The RSS and Atom titles and URLs are set for the formats produced, and nothing else changes. |
| Feed.FeedUrlsAreCurrent | simpleblog/extensions/feed.py:30 | The current feed of a format lives at `/index.{format}`. |
| Feed.IndexEntries | simpleblog/extensions/feed.py:348-351 | With archive feeds and an archive format, the index is the current feed over the last arguments, and there must be some. Otherwise the index is not replaced. |
| Feed.ArchiveSources | simpleblog/extensions/feed.py:370-374 | One source per pair of feed and format, each an archive of a listed feed in a listed format. |
| Feed.ArchiveSourcesHas | simpleblog/extensions/feed.py:370-374 | Every pair of a listed feed and a listed format is among the sources. |
| Feed.Archives | simpleblog/extensions/feed.py:368-372 | One archive feed for every argument before the last, each opened at its own position. |
| Feed.ArchivesListed | simpleblog/extensions/feed.py:368-374 | Every such archive is listed in every archive format. |
| Feed.KeptSources | simpleblog/extensions/feed.py:353-376 | The given sources are kept, in order. |
| Feed.FeedSourcesSpec | simpleblog/extensions/feed.py:353-376 | Without archive feeds the sources are unchanged. With them, the call raises exactly for an unknown level. The given sources always come first. |
| Feed.FeedSourcesArchives | simpleblog/extensions/feed.py:366-374 | With archive feeds, one archive per argument but the last and per format follows the given sources. |
| Feed.FeedLinks | simpleblog/extensions/feed.py:355-366 | The RSS link, the Atom link, or both joined by a newline, for the formats produced. |
| Feed.BlogModSources | simpleblog/extensions/feed.py:353-376 | `feed_links` is set and the old sources are kept first. With archive feeds, one source is appended per earlier argument and archive format. A bad archive level raises. |
| Links.DefaultConfig | simpleblog/extensions/links.py:22-31 | The defaults: `&nbsp;` between links, links shown on entry pages only, and non-empty title templates. |
| Links.TemplatesFor | simpleblog/extensions/links.py:40-44 | A prefix starting with `p` selects the previous-link templates, and any other the next-link templates. |
| Links.GetEntrylink | simpleblog/extensions/links.py:37-52 | Without a neighbour the link is the bare content. With one, it is an anchor to the neighbour's permalink, carrying a title exactly when the title template gives a non-empty title. |
| Links.EntrylinkList | simpleblog/extensions/links.py:58-61 | Each item of a list of targets gives its own entry link, in order. |
| Links.PrevNextLinkList | simpleblog/extensions/links.py:54-62 | A one-item list renders as that item. A longer list renders as its first item, the separator, then the rest. |
| Links.PrevNextAttrs | simpleblog/extensions/links.py:64-74 | One attribute per `prev_in_`/`next_in_` link of the entry, and no other, each rendered with its own prefix. |
| Links.MakeEntrylinks | simpleblog/extensions/links.py:76-80 | Outside the displayed source types the links are empty. Otherwise they are the links template filled with the rendered attributes. |
| Links.EntryModAttrs | simpleblog/extensions/links.py:93-97 | Only `entrylinks` is set. |
| Links.PageModEntryParams | simpleblog/extensions/links.py:99-103 | Only `sourcetype` is set, to the page source's type. |
| Links.PageModAttrs | simpleblog/extensions/links.py:105-113 | Only `page_entrylinks` is set: the entry's links on an entry page, and empty otherwise. |
| Links.Set | simpleblog/extensions/links.py:143-147 | `setattr` on one entry changes that attribute of that entry and nothing else. |
| Links.Neighbours | simpleblog/extensions/links.py:129-141 | Both neighbour links are labelled with the source's property or its type. |
| Links.NeighboursAdjacent | simpleblog/extensions/links.py:129-141 | The entry before (after) in the container is linked as previous (next), swapped for reverse-sorted containers. There is no link at either end. |
| Links.Dedup | simpleblog/extensions/links.py:121 | `groupby` over the sources gives at least one container exactly when there are sources, and the last one is the last source's. |
| Links.Collect | simpleblog/extensions/links.py:152-161 | Collecting succeeds exactly when every name has a single link. It then lists those links in the order of the names. |
| Links.MultiAt | simpleblog/extensions/links.py:152-153 | An entry with no names for a multisource is left unchanged. |
| Links.LinkAtOthers | simpleblog/extensions/links.py:129-147 | Linking one entry of a container leaves every other entry unchanged. |
| Links.LinkAtSelf | simpleblog/extensions/links.py:129-147 | Linking an entry gives it exactly its neighbour links, and keeps its other attributes. |
| Links.LinkUpToOthers | simpleblog/extensions/links.py:129-147 | Entries not yet visited by the loop are unchanged. |
| Links.LinkUpToStep | simpleblog/extensions/links.py:129-147 | One loop turn leaves every other entry's attributes as they were. |
| Links.LaterTurnsKeep | simpleblog/extensions/links.py:129-147 | Turns for other entries leave an entry's attributes as they were. |
| Links.LinkAtSteps | simpleblog/extensions/links.py:129-147 | Linking an entry sets its type links, then its property links. |
| Links.SetTwice | simpleblog/extensions/links.py:143-147 | Two `setattr` calls on one entry set both attributes. |
| Links.NeighbourLinks | simpleblog/extensions/links.py:129-147 | After the loop over a container without repeats, every visited entry holds its neighbour links and keeps its other attributes. |
| Links.NeighbourLinksLast | simpleblog/extensions/links.py:129-147 | The entry just visited holds its neighbour links. |
| Links.MultiAtLists | simpleblog/extensions/links.py:150-161 | A multisource link is the list of the entry's per-name links, by sorted name, for both directions. |
| Links.SetLink | simpleblog/extensions/links.py:143-147 | Setting one attribute on an entry object updates the modelled state by `Set`. |
| Links.SetPair | simpleblog/extensions/links.py:154-161 | Setting both lists on an entry object updates the modelled state by both keys. |
| Links.LinkEntries | simpleblog/extensions/links.py:129-147 | The loop over one container's entries reaches exactly `LinkUpTo` of all of them. |
| Links.LinkMulti | simpleblog/extensions/links.py:151-161 | One multisource of one entry succeeds exactly when `MultiAt` does, and then yields its state. |
| Links.LinkAllSources | simpleblog/extensions/links.py:119-147 | The first loop reaches `LinkSources` of the containers and collects exactly their multisources. |
| Links.LinkRun | simpleblog/extensions/links.py:119-147 | Linking one more source is the same as extending the linked state with it. It reports the source's multisource when its type is linked and it has one. |
| Links.LinkSourcesSnoc | simpleblog/extensions/links.py:119-127 | A source of a linked type has its entries linked on top of the earlier sources' links. Any other source changes nothing. |
| Links.DedupStep | simpleblog/extensions/links.py:121 | A source joins the deduplicated list exactly when it differs from the one before it. |
| Links.LinkEntryMulti | simpleblog/extensions/links.py:150-161 | The loop over one entry's multisources succeeds exactly when `MultiAll` does, and then yields its state. |
| Links.BlogModSources | simpleblog/extensions/links.py:115-163 | The sources are returned unchanged. Every multisource is visited. The entries end up exactly as the specification links them, and a missing per-name link raises. |
| Links.MultisourcesSnoc | simpleblog/extensions/links.py:123-125 | A linked container with a multisource adds it to the set, and no other container adds anything. |
| Links.MultiAllStops | simpleblog/extensions/links.py:151-161 | An error for one multisource ends the loop with that error. |
| Links.MultiLinksStops | simpleblog/extensions/links.py:150-161 | An error for one entry ends the loop with that error. |
| Archives.DefaultConfig | simpleblog/extensions/archives.py:24-31 | The defaults: no prefix, numeric months, and the `{year}`, `{year}-{monthkey}` and `{year}-{monthkey}-{daykey}` title templates. |
| Archives.Fmt02Int | simpleblog/extensions/archives.py:57 | `{:02d}` of a number below 100 has two characters. |
| Archives.Fmt02IntRoundTrip | simpleblog/extensions/archives.py:57 | `{:02d}` of a non-negative number reads back as that number. |
| Archives.MonthKey | simpleblog/extensions/archives.py:53-62 | No month gives an empty key. Otherwise the key is the two-digit month, or its short or long name when month names are configured. |
| Archives.NewArchive | simpleblog/extensions/archives.py:49-81 | An archive's sort key is `(year,)`, `(year, month)` or `(year, month, day)`, with the matching title template. Its short URL is `/{year}/[{monthkey}/[{daykey}/]]`, after the prefix when there is one. |
| Archives.ParseAll | simpleblog/extensions/archives.py:69-77 | Parsing URL segments gives one number per segment. |
| Archives.ParseAllOf | simpleblog/extensions/archives.py:69-77 | Segments that each read as a number parse to those numbers. |
| Archives.ParseJoined | simpleblog/extensions/archives.py:69-77 | A short URL of numeric segments parses back to them. |
| Archives.BareUrlshortParts | simpleblog/extensions/archives.py:66-78 | The unprefixed short URL is the URL parts joined by `/` between slashes. |
| Archives.UrlshortRoundTrip | simpleblog/extensions/archives.py:49-81 | Without a prefix or month names, an archive's short URL parses back to its sort key. |
| Archives.PrefixedUrlshort | simpleblog/extensions/archives.py:80-81 | The prefix is put before the unprefixed short URL. |
| Archives.UrlshortsDistinct | simpleblog/extensions/archives.py:49-81 | With numeric months, archives with different sort keys have different short URLs. |
| Archives.KeyOf | simpleblog/extensions/archives.py:121-127 | An entry's bucket key is the year, the (year, month) or the (year, month, day) of its timestamp. |
| Archives.AddTo | simpleblog/extensions/archives.py:129-131 | Appending to a `defaultdict(list)` bucket creates the bucket if needed and appends the entry there, changing no other bucket. New keys are remembered in insertion order. |
| Archives.KeysOf | simpleblog/extensions/archives.py:129-131 | The keys of the entries, in order. |
| Archives.BucketedKeys | simpleblog/extensions/archives.py:117-131 | The buckets are exactly the keys of the entries, each once. |
| Archives.BucketedLists | simpleblog/extensions/archives.py:117-131 | A bucket holds exactly the entries with its key, in order. |
| Archives.LookupBucketed | simpleblog/extensions/archives.py:117-131 | Looking up a key in the buckets gives that key's bucket. |
| Archives.BucketOfFilter | simpleblog/extensions/archives.py:117-131 | A key's bucket is the entries with that key, in order. |
| Archives.FirstUses | simpleblog/extensions/archives.py:137-158 | The distinct keys in order of first use: each key once, and every key. |
| Archives.FirstUsesOrder | simpleblog/extensions/archives.py:137-158 | Keys appear in the order of their first use. |
| Archives.BucketOrder | simpleblog/extensions/archives.py:117-158 | The dictionary yields its keys in order of their first use by the entries. |
| Archives.ArchivesOf | simpleblog/extensions/archives.py:137-158 | One archive per bucket key, in order. |
| Archives.Gathered | simpleblog/extensions/archives.py:121-131 | Every bucket key has the length of its kind. |
| Archives.GatheredSnoc | simpleblog/extensions/archives.py:129-131 | One more entry adds to its bucket exactly when that kind is enabled. |
| Archives.CollectArchives | simpleblog/extensions/archives.py:133-161 | All archives are the enabled kinds in year, month, day order. The archive links are the kinds that are both enabled and linked. |
| Archives.FillBuckets | simpleblog/extensions/archives.py:117-131 | The loop fills exactly the enabled kinds' buckets. |
| Archives.BlogModSources | simpleblog/extensions/archives.py:115-172 | The buckets, the archives and `archive_links` (sorted by sort key, descending) are as specified. The archives' `html` pages are appended to the sources. |
| Archives.ArchiveEntriesExact | simpleblog/extensions/archives.py:83-88 | An archive's entries are exactly the blog's entries in its period, in order, and never none. |
| Archives.KeyWitness | simpleblog/extensions/archives.py:129-131 | Every bucket key comes from some entry. |
| Archives.KeyArchive | simpleblog/extensions/archives.py:83-88 | The archive of an entry's period looks up that period's bucket. |
| Archives.SiblingArchivesSpec | simpleblog/extensions/archives.py:90-99 | The sibling sources are exactly the matching archives, sorted by sort key. |
| Archives.SiblingsIncludeParent | simpleblog/extensions/archives.py:90-99 | As the predicates are written, a month archive's siblings include its year's archive, and a day archive's include its month's archive. Year archives are siblings of every year archive and of no month archive. |
| Indexes.Placeholder | simpleblog/extensions/indexes.py:28-31 | A placeholder is the name in braces. |
| Indexes.Fill | simpleblog/extensions/indexes.py:47-56 | A template without braces is returned unchanged. |
| Indexes.FillLeading | simpleblog/extensions/indexes.py:47-56 | A leading placeholder is replaced by the value, and filling goes on after it. |
| Indexes.FillOnly | simpleblog/extensions/indexes.py:80-84 | A template that is just the placeholder gives the value. |
| Indexes.DefaultConfig | simpleblog/extensions/indexes.py:27-36 | The defaults: `{link}`, `{heading}`, `{label} Index`, no suffix and `<br>`. |
| Indexes.KindWord | simpleblog/extensions/indexes.py:43-46 | The three index kinds are named `key`, `alpha` and `chrono`. |
| Indexes.NewIndexPage | simpleblog/extensions/indexes.py:38-56 | An index page is at `/index-{kind}.{format}`. Its heading fills the heading template with the kind's label, and its title fills the title template with the heading. |
| Indexes.DefaultHeadings | simpleblog/extensions/indexes.py:30-56 | With the defaults, the heading is `{label} Index` and the title equals the heading. |
| Indexes.KindOfWord | simpleblog/extensions/indexes.py:43-46 | Reading a kind word gives the kind it names. |
| Indexes.ParseUrlpath | simpleblog/extensions/indexes.py:43-46 | A parsed URL path is `/index-{kind}.{format}` of the result. |
| Indexes.UrlpathRoundTrip | simpleblog/extensions/indexes.py:43-46 | An index page's URL path parses back to its format and kind. |
| Indexes.UrlpathsDistinct | simpleblog/extensions/indexes.py:43-46 | Different (format, kind) pairs give different URL paths. |
| Indexes.AlphaTitle | simpleblog/extensions/indexes.py:20 | The alphabetical sort key keeps only letters and spaces, and a title of only letters and spaces is its own key. |
| Indexes.AlphaTitleKeeps | simpleblog/extensions/indexes.py:20 | Removing the other characters keeps a title made only of letters and spaces. |
| Indexes.Suffix | simpleblog/extensions/indexes.py:67-76 | Key indexes and an empty suffix template give no suffix. Otherwise the suffix template is rendered for the entry. |
| Indexes.IndexLink | simpleblog/extensions/indexes.py:80-83 | With the default link template, a link is an anchor to the entry's URL path in the page's format, labelled with the cache key or the title, followed by the suffix. |
| Indexes.IndexLinks | simpleblog/extensions/indexes.py:79-85 | One link per entry, in order. |
| Indexes.NoEntriesOrder | simpleblog/extensions/indexes.py:62-86 | The links are those of a rearrangement of all entries: ascending cache key for key indexes, ascending letters-only title for alphabetical indexes, descending timestamp for chronological ones. They are joined by the separator and a newline. |
| Indexes.NoEntriesSmall | simpleblog/extensions/indexes.py:78-85 | No entries give an empty list of links, and one entry gives just its link. |
| Indexes.DefaultFlags | simpleblog/extensions/indexes.py:93-100 | The default is a chronological index only, in `html`. |
| Indexes.LinkIndexAlphas | simpleblog/extensions/indexes.py:102-111 | Exactly the wanted kinds, each once, in key, chrono, alpha order. |
| Indexes.IndexPagesCover | simpleblog/extensions/indexes.py:113-118 | One page for every format and kind, and nothing else. |
| Indexes.IndexPagesNext | simpleblog/extensions/indexes.py:113-118 | Each more format adds its row of pages, one per letter. |
| Indexes.IndexPagesDistinctUrls | simpleblog/extensions/indexes.py:113-118 | The index pages have pairwise different URL paths. |
| Indexes.IndexPagesPairs | simpleblog/extensions/indexes.py:113-118 | No (format, kind) pair appears twice. |
| Indexes.BlogModPages | simpleblog/extensions/indexes.py:113-119 | Every configured format, each once, paired with every wanted kind, is appended to the pages. |
| Indexes.Pages | simpleblog/extensions/indexes.py:114-118 | One page per index page description, in order. |
| SetupText.Times | setuputils.py:109 | Repeating a one-character string `n` times gives `n` copies of that character. |
| SetupText.Chomp | setuputils.py:107-108 | One trailing newline is removed, if there is one. |
| SetupText.Underline | setuputils.py:97-109 | The underline is as long as the line without its newline, made of the underline character, and ends in a newline. |
| SetupText.UnderlineNewline | setuputils.py:97-109 | A line with or without its trailing newline gets the same underline. |
| SetupText.SplitLines | setuputils.py:70 | No line produced by `splitlines` contains a newline. |
| SetupText.SplitLinesTerminated | setuputils.py:68-70 | Re-terminating the lines of a text gives the text back, with a final newline added when it lacked one. |
| SetupText.HeaderLines | setuputils.py:65-72 | No template gives no header lines. Otherwise the header lines, concatenated, are the formatted template with every line terminated. |
| SetupText.RstOfLine | setuputils.py:130-135 | A `### ` line loses its prefix and is followed by its `~` underline. Any other line is copied. |
| SetupText.RstOfLinesAppend | setuputils.py:129-135 | Converting lines one by one: the conversion of a concatenation is the concatenation of the conversions. |
| SetupText.RstOfLinesNext | setuputils.py:129-135 | Converting one more line appends its conversion. |
| SetupText.RstOfLinesLength | setuputils.py:129-135 | The output has one line per input line plus one per heading. |
| SetupText.RstOfPlainLines | setuputils.py:129-135 | Lines without level-3 headings are copied unchanged. |
| SetupText.HeadingUnderlined | setuputils.py:130-135 | `### title` becomes `title` followed by as many `~` as the title is long. |
| SetupText.RstFromMd | setuputils.py:115-137 | A negative start line is an error, as in `islice`. Otherwise the output is the header lines followed by the converted lines from the start line on. |
| SetupText.AppendAllRst | setuputils.py:129-135 | The loop appends exactly the conversion of the remaining lines. |
| SetupText.AppendRst | setuputils.py:130-135 | One step appends the conversion of one line. |
| SetupText.DropUntil | setuputils.py:197-200 | `dropwhile` keeps a suffix that starts at the first line beginning with the spec, and drops no line that begins with it. |
| SetupText.TakeUntil | setuputils.py:204-207 | `takewhile` keeps the prefix before the first line beginning with the spec. |
| SetupText.Slice | setuputils.py:192-193 | `islice(lines, start, stop)` is the window from the start up to the stop, clamped to the list. |
| SetupText.Description | setuputils.py:192-211 | Without specs all lines are kept. The result is always a window of the lines: it starts at a start-spec line and contains no end-spec line. |
| SetupText.DescriptionBetween | setuputils.py:168-211 | The lines from the first start-spec line up to, but not including, the next end-spec line. |
| SetupText.DropPrefix | setuputils.py:197-200 | Lines before the first start-spec line are dropped. |
| SetupText.TakeBody | setuputils.py:204-207 | Lines before the first end-spec line are kept. |
| SetupText.DirToPackage | setuputils.py:440-441 | Separators (the POSIX `os.sep`, `/`) become dots, keeping the length. |
| SetupText.DirToPackageRoundTrip | setuputils.py:440-441 | For directory names without dots, turning dots back into separators restores the name. |
| SetupText.DataSpec | setuputils.py:683-690 | Package data items are split at their last `/` into directory and file pattern. Together they give the package path and the item. |
| SetupText.PackageLines | setuputils.py:684-693 | One `recursive-include` line per item of a package, in order. |
| SetupText.Manifest.constructor | setuputils.py:763 | The manifest lines start as given. |
| SetupText.Manifest.AddPackageDataLines | setuputils.py:673-693 | Every package, each once, contributes its lines after the existing ones. |
| SetupText.Manifest.AddPackagesLines | setuputils.py:673-693 | The loop over packages appends, in order, the lines of each package. |
| SetupText.Manifest.AddPackageLines | setuputils.py:683-693 | The loop over one package's items appends one line per item. |
| SetupText.DataSpecCases | setuputils.py:683-690 | An item with a slash is split at its last slash, and the directory is put after the package path. An item without one is taken as a file pattern in the package directory. |
| SetupText.Manifest.AddDataDirsLines | setuputils.py:696-703 | One `recursive-include {dir} *.*` line per data directory is appended. |
| SetupText.Manifest.AddDataFilesLines | setuputils.py:706-713 | One `include` line per data file of every entry is appended. |
| SetupText.Manifest.AddScriptsLines | setuputils.py:716-723 | One `include` line per script is appended. |
| SetupText.PackageDataLineReads | setuputils.py:683-693 | Each package data line is `recursive-include {dir} {pattern}`, where the pattern has no `/` and the two rejoin to the item's path. |
| SetupText.DataFilesLinesCount | setuputils.py:706-713 | There is one line per data file. |
| SetupVars.Or | setuputils.py:184-187 | Python's `or`: the first value when truthy, else the second. |
| SetupVars.Get | setuputils.py:184-187 | `dict.get`: the value, or `None` when the key is missing. |
| SetupVars.AsIndex | setuputils.py:192-193 | `None` or a non-negative integer is accepted as an `islice` bound. |
| SetupVars.CutBy | setuputils.py:196-209 | No spec keeps the lines. A string spec drops or takes while lines do not start with it. Any other spec raises, but only once some line is compared with it. |
| SetupVars.LongDescription | setuputils.py:168-211 | Line bounds that `islice` rejects make the description fail. |
| SetupVars.LongDescriptionPicks | setuputils.py:184-211 | Arguments take precedence over setup vars. With valid bounds and string specs, the description is the lines sliced, then cut at the start spec and the end spec, joined. |
| SetupVars.PypiUrl | setuputils.py:214-217 | The URL is `http://pypi.org/project/` followed by the name, and a missing name raises. |
| SetupVars.Provides | setuputils.py:220-227 | `["{name} ({version})"]` with a version and `[name]` without. A missing name raises. |
| SetupVars.ProvidesReads | setuputils.py:220-227 | The provided string splits back into the name and the version. |
| SetupVars.Converted | setuputils.py:258-259 | A string becomes its stripped lines, and anything else is unchanged. |
| SetupVars.ConvertedIdempotent | setuputils.py:258-259 | Converting twice is converting once. |
| SetupVars.ConvertedLines | setuputils.py:258-259 | A converted string's lines, re-terminated, give the stripped string back. |
| SetupVars.ConvertAll | setuputils.py:251-259 | Exactly the listed names are converted, whatever their order, and no key is added or removed. |
| SetupVars.ConvertAllSnoc | setuputils.py:252-259 | Each loop step converts one more name, if it is a string. |
| SetupVars.Chars | setuputils.py:251-252 | Iterating a string of list names gives its characters. |
| SetupVars.PythonIsLanguage | setuputils.py:271-272 | Appending the Python classifier gives a language classifier. |
| SetupVars.ExtendsKeeps | setuputils.py:270-272 | Appending keeps earlier classifiers and any language classifier. |
| SetupVars.GrowKeeps | setuputils.py:375-384 | Growing classifiers keeps their items and a language classifier. |
| SetupVars.AppendedGrows | setuputils.py:340 | `setdefault(...).append` creates or extends the list, changing only `classifiers`. On a non-list it raises and changes nothing. |
| SetupVars.PythonStepAddsLanguage | setuputils.py:262-272 | The Python classifier is appended exactly when no language classifier is present. Afterwards one is, and nothing else changes. |
| SetupVars.FirstEndingWith | setuputils.py:369-372 | The first trove line ending with the status, or none. |
| SetupVars.Keywords | setuputils.py:877-880 | Exactly the distutils keywords among the variables are kept, with their values. |
| SetupVars.LicenseStepMoves | setuputils.py:326-343 | A mapped license becomes its classifier and is deleted. Other licenses change nothing. Unhashable licenses and non-list classifiers raise. |
| SetupVars.DevStatus | setuputils.py:369-372 | The matched trove line exists. |
| SetupVars.DevStatusStepAppends | setuputils.py:357-372 | The first trove line ending with the status is appended. No match changes nothing, and a non-string status raises. |
| SetupVars.SortClassifiers | setuputils.py:384 | `sorted` gives a sorted list that keeps the language classifier. A list is permuted, and a dict gives its keys. |
| SetupVars.LanguageSurvives | setuputils.py:384 | A permutation keeps the language classifier. |
| SetupVars.LanguageOfKeys | setuputils.py:384 | Sorting a dict keeps a language key. |
| SetupVars.SortedStringsSorted | setuputils.py:384 | Sorted keys are in order. |
| SetupVars.ClassifiersStep | setuputils.py:375-384 | After `add_classifiers`, the classifiers are a sorted list with a language classifier. |
| SetupVars.SortKeeps | setuputils.py:384 | Sorting keeps every classifier. |
| SetupVars.KeptAfterLicense | setuputils.py:375-384 | A classifier present after the license step survives to the end. |
| SetupVars.ClassifiersStepDevStatus | setuputils.py:357-384 | A matching development status's trove line ends up in the classifiers. |
| SetupVars.ClassifiersStepFrame | setuputils.py:375-384 | Only `classifiers` and `license` change. |
| SetupVars.ClassifiersStepKeepsOther | setuputils.py:375-384 | Any variable other than `classifiers` and `license` is kept. |
| SetupVars.AfterLicenseLanguage | setuputils.py:381-382 | After the Python and license steps succeed, the classifiers hold a language classifier. |
| SetupVars.AfterLicenseFrame | setuputils.py:381-382 | The first two steps change only `classifiers` and `license`, and they keep `dev_status`. |
| SetupVars.AfterLicenseKeeps | setuputils.py:381-382 | Classifiers present before stay in the list. |
| SetupVars.AfterLicensePython | setuputils.py:381-382 | Without a language classifier, the Python classifier is in the list after the license step. |
| SetupVars.AfterLicenseMoves | setuputils.py:381-382 | A mapped license has been moved into the classifiers and deleted. |
| SetupVars.AfterDevStatusGrows | setuputils.py:381-383 | When the status step succeeds, so did the earlier steps, and the status step only adds classifiers. |
| SetupVars.AfterDevStatusLanguage | setuputils.py:381-383 | After the status step the language classifier is still there. |
| SetupVars.AfterDevStatusPicks | setuputils.py:381-383 | A matching status's trove line is in the classifiers. |
| SetupVars.AfterDevStatusFrame | setuputils.py:381-383 | The three steps change only `classifiers` and `license`. |
| SetupVars.ClassifiersStepPython | setuputils.py:375-384 | When no language was named, the sorted classifiers hold the Python classifier. |
| SetupVars.ClassifiersStepLicense | setuputils.py:375-384 | A mapped license ends up in the sorted classifiers, and `license` is gone. |
| SetupVars.ClassifiersStepKeeps | setuputils.py:375-384 | Classifiers given by the caller are all still in the sorted list. |
| SetupVars.ClassifiersStepDescribed | setuputils.py:375-384 | The classifier steps keep `name`, `long_description` and `url`. |
| SetupVars.DiscoveryStepKeys | setuputils.py:655-670 | The six discovery steps fill exactly the discovered keys, and none of them is `package_dir`. |
| SetupVars.PrepareVars | setuputils.py:868-871 | The variables become `PrepareSteps` of the old ones, stopping at the first error. On success the name, description and URL are set. |
| SetupVars.Autodiscover | setuputils.py:868-872 | The variables become `AutodiscoverSteps` of the old ones. On success they are described and hold every discovered key. |
| SetupVars.PackageRootStep | setuputils.py:387-412 | The root from `package_dir`, unchanged. A non-dict `package_dir` raises. An error changes nothing. |
| SetupVars.PackageRootStable | setuputils.py:401-412 | Asking again after the setdefault gives the same root and changes nothing more. |
| SetupVars.PackageRootKeeps | setuputils.py:401-412 | Only `package_dir` may change, and only when `package_root` is set. |
| SetupVars.VarsStepAdds | setuputils.py:230-237 | `long_description` and `url` are filled in when absent, from the readme and the name. It fails exactly when one of them is needed and cannot be computed. |
| SetupVars.DiscoveredFills | setuputils.py:432-437 | An `add_*` step fills its key when absent, from the scan. Only its key and `package_dir` change. It raises only through `package_root`. |
| SetupVars.DiscoverSteps | setuputils.py:655-670 | An error comes from a step that uses the package root. |
| SetupVars.DiscoverStepsKeeps | setuputils.py:655-670 | On success every step's key is present, and existing keys other than `package_dir` are kept. |
| SetupVars.DiscoverAllSets | setuputils.py:655-670 | `autodiscover_all` sets `py_modules`, `packages`, `package_data`, `ext_modules`, `data_files` and `scripts`, and keeps the rest. |
| SetupVars.FirstEndingWithIs | setuputils.py:369-372 | The first match is found at its position. |
| SetupVars.FirstEndingWithNone | setuputils.py:369-372 | No match is found when no line ends with the status. |
| SetupVars.VarMap.constructor | setuputils.py:863 | The working copy holds the given variables. |
| SetupVars.VarMap.ConvertLists | setuputils.py:241-259 | `listnames` is taken from the variables or defaulted. Unusable `listnames` raise. Otherwise exactly the listed string variables are converted, as `ConvertStep` states. |
| SetupVars.VarMap.ConvertNamed | setuputils.py:252-259 | The loop converts exactly the listed names. |
| SetupVars.VarMap.AddClassifierPython | setuputils.py:262-272 | In place, the same as `PythonStep`. |
| SetupVars.VarMap.AppendClassifier | setuputils.py:340 | In place, the same as `Appended`. |
| SetupVars.VarMap.AddClassifierLicense | setuputils.py:326-343 | In place, the same as `LicenseStep`. |
| SetupVars.VarMap.AddClassifierDevStatus | setuputils.py:357-372 | The loop over the trove, in place, gives the same as `DevStatusStep`. |
| SetupVars.VarMap.AddClassifiers | setuputils.py:375-384 | In place, the same as `ClassifiersStep`. |
| SetupVars.VarMap.PackageRoot | setuputils.py:387-412 | In place, the same as `PackageRootStep`. |
| SetupVars.VarMap.AddVars | setuputils.py:230-237 | In place, the same as `VarsStep`. |
| SetupVars.VarMap.AddDiscovered | setuputils.py:432-437 | In place, the same as `Discovered`. |
| SetupVars.VarMap.AutodiscoverAll | setuputils.py:655-670 | The six `add_*` calls in order give `DiscoverSteps` of the discovery steps. |
| SetupVars.KeywordsKeep | setuputils.py:877-880 | Filtering to keywords keeps the name, the descriptions, the classifiers and the discovered keys. |
| SetupVars.PreparedDescribed | setuputils.py:868-871 | With a name, the prepared variables are described and their classifiers are sorted and name a language. |
| SetupVars.VarsStepListNames | setuputils.py:230-259 | `add_vars` does not change which names `convert_lists` converts. |
| SetupVars.ConvertedKeeps | setuputils.py:230-259 | A variable that is not listed comes through `convert_lists` as `add_vars` left it. |
| SetupVars.PreparedKeeps | setuputils.py:868-871 | A variable that is not listed and is not `classifiers` or `license` comes through the preparing steps as `add_vars` left it. |
| SetupVars.AddedPassThrough | setuputils.py:829-880 | A variable that is not listed and is not `classifiers`, `license` or `package_dir` reaches the end of autodiscovery, and its keyword the result, as `add_vars` left it. |
| SetupVars.DeclaredPassThrough | setuputils.py:829-880 | A variable that is not listed, not `classifiers`, `license` or `package_dir` reaches the end of autodiscovery unchanged, and so does its keyword, such as `version`. |
| SetupVars.DescriptionPassThrough | setuputils.py:230-237 | A missing `long_description` ends up as the one extracted from the README, and a missing `url` as the PyPI one, unless they are listed. |
| SetupVars.SetupVars | setuputils.py:829-880 | A missing name raises `ValueError`. Without autodiscovery the result is the keyword filter. With it, the result is the keyword filter of `AutodiscoverSteps`, or its first error. It also holds `long_description`, `url`, sorted classifiers with a language classifier, and every discovered keyword. Only distutils keywords are returned. |

## Left out

- **I/O and the host program.** The file system, YAML/JSON blog files, template files, HTTP serving, publishing and the command line are not part of this model. Files appear as maps from names to lines, and the directory scans of `setuputils.py` as a scan result supplied by the caller.
- **Python's class machinery.** Metaclasses, `shared_property` and the synthesis of classes by `Extended` are not modelled. A live type is its list of mixin layers, newest first, and method lookup is the first layer that defines the method.
- **`as_extended` decorators.** The decorators `as_extended` wraps an extended method in (`cached_property`, `cached_method` and the like) are not modelled. A cached attribute is computed once per instance by construction of the model, and the memoisation itself is not modelled.
- **Libraries whose code is not shown.** These are parameters of the functions that use them:
  - `markdown()`;
  - `urljoin` and `quote_plus`;
  - `str.format` on user templates, except the one named placeholder that `Indexes.Fill` substitutes (see the `Indexes.Fill` line below);
  - plib's `split_string` (so the tags `_do_load`, `simpleblog/extensions/tags.py:81-91`, is left out);
  - localized weekday and month names;
  - the regular expressions of title formatting.
- **Clocks and time zones.** `os.path.getmtime`, `datetime.fromtimestamp` and the local-to-UTC conversion of `timestamp_utc` are left out. Time stamps are records of integers, and the conversion is a parameter.
- **Set iteration order.** The order in which Python iterates a set of tag names, category names or formats is a nondeterministic choice, and the proved properties hold for every order.
- **Core.Blog.FillDefaults:** a template is a function that cannot fail. In Python every template is formatted before `setdefault`, even for a key already present, so a template naming an absent key raises `KeyError`; that error is not modelled.
- **Paginate.NumPages:** requires a positive `page_max_entries`. The `ZeroDivisionError` of a zero maximum and the rounding of a negative one are not modelled.
- **Feed.Fixup:** the `fixup_relative_links` regular expression is modelled as a left-to-right scanner over the `<a href="/` openings.
- **Links:** an attribute holding a nested list of link lists is not modelled. Neither is the state an entry is left in when setting its attributes raises halfway.
- **Archives:** month names are a parameter, as with the feed.
- **`NamedEntries.prev_next_suffix`:** this is the container's `name`, which `Named.NewNamed` already states. It has no member of its own.
- **`BlogConfigUser.template_basename`** and the template lookup around it (`simpleblog/__init__.py:218-237`) are template-file I/O.
- **SetupText.SplitLines:** splits only at `"\n"`. Python's `splitlines` also splits at `"\r"`, `"\r\n"` and other line boundaries.
- **`setup_vars` copy.** `setup_vars` works on a shallow copy. The model returns a new map, so it does not capture that the caller's own `classifiers` list and `package_dir` dict are mutated through the copy.
- **Manifest file I/O.** `make_manifest_in`, `force_manifest_in` and `_add_lines` read and write `MANIFEST.in.in` and `MANIFEST.in`. Only the line builders `_add_*_lines` are modelled.
- **Other setuputils helpers.** `convert_rst`, `convert_md_to_rst` (file loops) and `current_date` (a clock) are not modelled.
- **Autodiscovery scans.** `autodiscover_modules`, `autodiscover_packages`, `autodiscover_package_data`, `autodiscover_extensions`, `autodiscover_datafiles` and `autodiscover_scripts` walk the file system. Their results are a parameter, and errors raised inside them are not modelled.
- **Setup variable values.** A setup variable holds one of six kinds of value: none, a string, an integer, a list of strings, a dict of strings and an opaque object. Tuples used as line specs or development statuses are not modelled. Neither is `repr` escaping, and `str()` of a non-empty dict is a placeholder.
- **Indexes.Fill:** substitutes one named `{name}` placeholder and copies every other character. It does not model `str.format`'s `{{` and `}}` escapes, format specs such as `{name:>10}`, or the `KeyError` or `IndexError` that any other field raises.
- **Newlines.** `Text.Newline` is `"\n"`. The source uses `os.linesep` (`simpleblog/__init__.py:87`, `setuputils.py:69`), which is `"\r\n"` on Windows. The model fixes the POSIX value.
- SetupText.DirToPackage: replaces `/`, the POSIX value of `os.sep`. On Windows `dir_to_package` (`setuputils.py:440-441`) replaces the backslash instead, which the model does not capture.
- **Text.Lower and Text.Capitalize:** map only ASCII letters. Python's `str.lower` and `str.capitalize` use full Unicode case mapping.
- **Imports from `simpleblog`.** `simpleblog/extensions/__init__.py:16-18` imports `universal_newline`, and `simpleblog/extensions/title.py:15` and `simpleblog/extensions/timestamps.py:17` import `BlogMixin`, from `simpleblog`. `simpleblog/__init__.py` does not define them itself, and only its wildcard import from plib could supply them. The model assumes these imports resolve.
- Caching.SavedReloads: models the intended `save`; as written `save` raises on `iteritems` before writing (see Findings).
- Caching.Lookup: models the intended `save`; as written `save` raises on `iteritems` before writing (see Findings).
- Caching.BlogCache.Get: models the intended `save`; as written `save` raises on `iteritems` before writing (see Findings).
- Caching.BlogCache.Save: models the intended `save`; as written `save` raises on `iteritems` before writing (see Findings).
- Caching.CacheMap.Cached: models the intended `save`; as written `save` raises on `iteritems` before writing (see Findings).
- Timestamps.NewTimestamp: models the intended string test; as written reading a string raises on `basestring` (see Findings).
- Timestamps.StrRoundTrip: models the intended string test; as written reading a string raises on `basestring` (see Findings).
- Timestamps.TimestampLine: models the intended string test; as written reading a string raises on `basestring` (see Findings).
- Timestamps.TimestampStorable: models the intended string test; as written reading a string raises on `basestring` (see Findings).
- Title.TitleEntry.FormatTitle: models the intended substitutions; as written `title_rexps` raises `TypeError` (see Findings).
- Categories.ModSources: models the intended extension; as written its module fails to import, as do those of feed, folding, links, render_markdown, tags and timezone (see Findings).
- SetupText.Manifest.AddPackageDataLines: a Python dict iterates in insertion order, but the model's dicts are maps, so the package order is any order listing each package once. `SetupText.Manifest.AddPackagesLines` takes the order explicitly.
- Links.DefaultConfig: the `link_sourcetypes` default (`{blog: None}`, `simpleblog/extensions/links.py:87-91`) is not a field of the configuration. The source types it names are the `linked` parameter of `Links.BlogModSources`.
- **Files not part of this model:** `setup.py`, `simpleblog/run.py`, `simpleblog/commands/` and `simpleblog/extensions/timezone.py`.

## Findings

| source | as written | input that shows it | evidently intended | confidence | as-written member | corrected member |
|---|---|---|---|---|---|---|
| simpleblog/caching.py:61 | `save` calls `self.cache.iteritems()`, which a Python 3 `dict` lacks, so it raises `AttributeError` after the new value is stored in memory and before the file is written | any lookup that misses, such as key `k` in an empty cache file | `items()`: the value is returned and the sorted cache file is rewritten | high, not executed | Caching.LookupAsWritten, Caching.MissFailsThenHits, Caching.FirstMissAsWritten | Caching.Lookup, Caching.BlogCache.Get, Caching.SavedReloads |
| simpleblog/extensions/timestamps.py:56 | `isinstance(data, basestring)` names a builtin Python 3 lacks, so reading a string raises `NameError` | any timestamp cache line, such as `2020-01-02-03-04 entry` | `str`: the string is parsed back into a timestamp | high, not executed | Timestamps.NewTimestampAsWritten, Timestamps.CachedLineUnreadable | Timestamps.NewTimestamp, Timestamps.StrRoundTrip, Timestamps.TimestampLine |
| simpleblog/extensions/title.py:38-48 | `map(re.compile, pairs)` compiles each `(pattern, repl)` tuple, which raises `TypeError`; the lazy `map` loses one pair per failed call and is empty after two | any non-empty title with `title_format` set | compile each pattern and substitute its replacement, in order | high, not executed | Title.FormatAsWritten, Title.FormatNeverAppliesAsWritten, Title.TitleEntry.FormatTitleAsWritten | Title.TitleEntry.FormatTitle |
| simpleblog/extensions/categories.py:16-17 | imports `get_links` from `simpleblog.extensions`, which does not define it, so the import fails and the loader reports `extension categories not found!` | the extension name `categories` | import the links helper from where it is defined | high, not executed | Loader.ExtensionImportsFail, Loader.CategoriesImportMessage, Loader.FailedImportNotFound | Loader.ExtensionImportsResolve, Categories.ModSources |
| simpleblog/extensions/feed.py:20 | imports `BlogMixin` and `EntryMixin` from `simpleblog.extensions`, which defines neither; so do folding.py:16, links.py:17, render_markdown.py:14, tags.py:15 and timezone.py:18 for `EntryMixin` | the extension names `feed`, `folding`, `links`, `render_markdown`, `tags`, `timezone` | the mixins are importable from the extensions package | high, not executed | Loader.ExtensionImportsFail, Loader.FailedImportNotFound | Loader.ExtensionImportsResolve |
