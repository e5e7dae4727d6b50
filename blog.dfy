/** The blog listing: a search box that filters the published posts by title or tag,
    case-insensitively; the first two tags of each post as coloured chips; and a
    message when nothing matches. */
module Blog {
  import opened Js
  import opened Subsequences

  datatype Author = Author(name: string, avatar: string, role: string)

  /** A published post, as the post store hands it over. */
  datatype BlogPost = BlogPost(
    id: int,
    title: string,
    excerpt: string,
    content: string,
    date: string,
    category: string,
    imageUrl: string,
    tags: seq<string>,
    readTime: string,
    author: Author)

  // ---------------------------------------------------------------------------
  // Search
  // ---------------------------------------------------------------------------

  /** Some tag of the post, lower-cased, contains `needle`: `tags.some(...)`. */
  predicate SomeTagIncludes(tags: seq<string>, needle: string)
  {
    exists j :: 0 <= j < |tags| && Includes(ToLowerCase(tags[j]), needle)
  }

  /** The search predicate: the lower-cased title, or some lower-cased tag, contains
      the lower-cased search term. */
  predicate MatchesSearch(post: BlogPost, searchTerm: string): (b: bool)
    ensures b <==> ((exists i :: OccursAt(ToLowerCase(post.title), ToLowerCase(searchTerm), i))
                    || (exists j, i :: 0 <= j < |post.tags| && OccursAt(ToLowerCase(post.tags[j]), ToLowerCase(searchTerm), i)))
  {
    var needle := ToLowerCase(searchTerm);
    Includes(ToLowerCase(post.title), needle) || SomeTagIncludes(post.tags, needle)
  }

  /** `filteredPosts`: the posts that match the term, in store order; nothing is added,
      a post is kept exactly when it matches, and as often as the store holds it. */
  function FilteredPosts(posts: seq<BlogPost>, searchTerm: string): (r: seq<BlogPost>)
    ensures IsSubsequence(r, posts)
    ensures forall p :: p in r <==> p in posts && MatchesSearch(p, searchTerm)
    ensures forall p :: multiset(r)[p] == if MatchesSearch(p, searchTerm) then multiset(posts)[p] else 0
  {
    if posts == [] then
      []
    else
      assert posts == [posts[0]] + posts[1..];
      if MatchesSearch(posts[0], searchTerm) then [posts[0]] + FilteredPosts(posts[1..], searchTerm)
      else FilteredPosts(posts[1..], searchTerm)
  }

  /** The no-results message is shown exactly when no post matches. */
  predicate NoResults(posts: seq<BlogPost>, searchTerm: string): (b: bool)
    ensures b <==> forall p :: p in posts ==> !MatchesSearch(p, searchTerm)
  {
    var r := FilteredPosts(posts, searchTerm);
    assert r != [] ==> r[0] in r;
    |r| == 0
  }

  /** Every post matches the empty term, so an empty search box shows every post. */
  lemma {:induction false} EmptySearchKeepsAll(posts: seq<BlogPost>)
    ensures FilteredPosts(posts, "") == posts
  {
    if posts != [] {
      assert ToLowerCase("") == "";
      IncludesEmpty(ToLowerCase(posts[0].title));
      EmptySearchKeepsAll(posts[1..]);
      assert posts == [posts[0]] + posts[1..];
    }
  }

  /** A post that matches a longer term matches every prefix of it. */
  lemma LongerTermMatchesLess(post: BlogPost, searchTerm: string, more: string)
    requires MatchesSearch(post, searchTerm + more)
    ensures MatchesSearch(post, searchTerm)
  {
    ToLowerCaseAppend(searchTerm, more);
    var needle, longer := ToLowerCase(searchTerm), ToLowerCase(searchTerm) + ToLowerCase(more);
    if Includes(ToLowerCase(post.title), longer) {
      IncludesPrefix(ToLowerCase(post.title), needle, ToLowerCase(more));
    } else {
      var j :| 0 <= j < |post.tags| && Includes(ToLowerCase(post.tags[j]), longer);
      IncludesPrefix(ToLowerCase(post.tags[j]), needle, ToLowerCase(more));
    }
  }

  /** Typing more characters only narrows the result: searching for `searchTerm + more`
      is searching within the result for `searchTerm`. */
  lemma {:induction false} RefiningNarrows(posts: seq<BlogPost>, searchTerm: string, more: string)
    ensures FilteredPosts(posts, searchTerm + more) == FilteredPosts(FilteredPosts(posts, searchTerm), searchTerm + more)
  {
    if posts != [] {
      RefiningNarrows(posts[1..], searchTerm, more);
      var rest := FilteredPosts(posts[1..], searchTerm);
      if MatchesSearch(posts[0], searchTerm + more) {
        LongerTermMatchesLess(posts[0], searchTerm, more);
        assert ([posts[0]] + rest)[1..] == rest;
      } else if MatchesSearch(posts[0], searchTerm) {
        var kept := [posts[0]] + rest;
        assert kept[0] == posts[0] && kept[1..] == rest;
        assert FilteredPosts(kept, searchTerm + more) == FilteredPosts(rest, searchTerm + more);
      }
    }
  }

  /** Hence the result for a longer term is a subsequence of the result for its prefix. */
  lemma RefiningIsSubsequence(posts: seq<BlogPost>, searchTerm: string, more: string)
    ensures IsSubsequence(FilteredPosts(posts, searchTerm + more), FilteredPosts(posts, searchTerm))
  {
    RefiningNarrows(posts, searchTerm, more);
  }

  /** The case of the search term does not matter. */
  lemma SearchIgnoresCase(posts: seq<BlogPost>, searchTerm: string)
    ensures FilteredPosts(posts, ToLowerCase(searchTerm)) == FilteredPosts(posts, searchTerm)
  {
    ToLowerCaseIdempotent(searchTerm);
  }

  // ---------------------------------------------------------------------------
  // Tag chips
  // ---------------------------------------------------------------------------

  /** The four class names a chip is styled with. */
  datatype Colors = Colors(bg: string, text: string, darkBg: string, darkText: string)

  /** `techColors`: the technologies with their own chip colours. */
  const TechColors: map<string, Colors> := map[
    "React" := Colors("bg-blue-100", "text-blue-600", "dark:bg-blue-900/30", "dark:text-blue-400"),
    "TypeScript" := Colors("bg-blue-100", "text-blue-700", "dark:bg-blue-900/30", "dark:text-blue-300"),
    "Node.js" := Colors("bg-green-100", "text-green-700", "dark:bg-green-900/30", "dark:text-green-400"),
    "Express" := Colors("bg-gray-100", "text-gray-700", "dark:bg-gray-800", "dark:text-gray-300"),
    "Docker" := Colors("bg-blue-100", "text-blue-600", "dark:bg-blue-900/30", "dark:text-blue-400"),
    "Git" := Colors("bg-orange-100", "text-orange-700", "dark:bg-orange-900/30", "dark:text-orange-400"),
    "CSS" := Colors("bg-blue-100", "text-blue-600", "dark:bg-blue-900/30", "dark:text-blue-400"),
    "Tailwind" := Colors("bg-cyan-100", "text-cyan-700", "dark:bg-cyan-900/30", "dark:text-cyan-400"),
    "Redux" := Colors("bg-purple-100", "text-purple-700", "dark:bg-purple-900/30", "dark:text-purple-400")
  ]

  /** `defaultColors`: the colours of every other tag. */
  const DefaultColors := Colors("bg-gray-100", "text-gray-700", "dark:bg-gray-800", "dark:text-gray-300")

  /** The property names every plain JavaScript object inherits from `Object.prototype`.
      Indexing `techColors` with one of them finds the inherited member. */
  const ObjectPrototypeKeys: set<string> := {
    "constructor", "__proto__", "__defineGetter__", "__defineSetter__",
    "__lookupGetter__", "__lookupSetter__", "hasOwnProperty", "isPrototypeOf",
    "propertyIsEnumerable", "toLocaleString", "toString", "valueOf"
  }

  /** The classes a template literal gets from an inherited member: none of them has a
      `bg`, `text`, `darkBg` or `darkText` property, so each reads `undefined`. */
  const UndefinedColors := Colors("undefined", "undefined", "undefined", "undefined")

  /** A chip style the component defines: a table entry or the default. */
  predicate DefinedColors(c: Colors)
  {
    c in TechColors.Values || c == DefaultColors
  }

  /** `techColors[tag] || defaultColors` as written: an inherited member is truthy, so
      for those keys the default is not used. */
  function ColorsAsWritten(tag: string): (c: Colors)
    ensures tag in TechColors ==> c == TechColors[tag]
    ensures tag !in TechColors && tag in ObjectPrototypeKeys ==> c == UndefinedColors
    ensures tag !in TechColors && tag !in ObjectPrototypeKeys ==> c == DefaultColors
  {
    if tag in TechColors then TechColors[tag]
    else if tag in ObjectPrototypeKeys then UndefinedColors
    else DefaultColors
  }

  /** The tag `constructor` is styled with four `undefined` class names. */
  lemma ConstructorTagIsUnstyled()
    ensures ColorsAsWritten("constructor") == UndefinedColors
    ensures !DefinedColors(ColorsAsWritten("constructor"))
  {
    assert "constructor" !in TechColors;
  }

  /** The lookup as intended, consulting only the table's own keys: a tag's entry when
      it is a key, the default colours otherwise, and so always a defined style. */
  function ColorsFor(tag: string): (c: Colors)
    ensures tag in TechColors ==> c == TechColors[tag]
    ensures tag !in TechColors ==> c == DefaultColors
    ensures DefinedColors(c)
  {
    if tag in TechColors then TechColors[tag] else DefaultColors
  }

  /** The two lookups agree on every tag that does not name an inherited member. */
  lemma LookupsAgreeOnOwnKeys(tag: string)
    requires tag !in ObjectPrototypeKeys
    ensures ColorsAsWritten(tag) == ColorsFor(tag)
  {
  }

  /** One chip: the tag text and its colours. */
  datatype Chip = Chip(tag: string, colors: Colors)

  /** `tags.slice(0, 2).map(...)`: at most two chips, for the first tags in their
      order, each coloured by `ColorsFor`. */
  function TagChips(tags: seq<string>): (chips: seq<Chip>)
    ensures |chips| == (if |tags| < 2 then |tags| else 2)
    ensures forall i :: 0 <= i < |chips| ==> chips[i] == Chip(tags[i], ColorsFor(tags[i]))
  {
    var shown := tags[..if |tags| < 2 then |tags| else 2];
    seq(|shown|, i requires 0 <= i < |shown| => Chip(shown[i], ColorsFor(shown[i])))
  }
}
