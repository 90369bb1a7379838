/**
  How `getInputStreamFromUriString` turns the source URI string into a
  readable stream: a classification of the string into one of four ways of
  opening it, and the opening itself against abstract platform facilities.
 */
module UriResolver {
  import opened Platform

  const ContentPrefix := "content"
  const FileScheme := "file://"
  const AssetPrefix := "file:///android_asset/"
  /** The part of an asset URI's path removed before asking the asset store:
      `/android_asset/`, 15 characters. */
  const AssetPathPrefixLength := 15

  /** The way a source string is opened. */
  datatype Source =
    | Content(uri: string)          // the content resolver, on the string as given
    | Asset(relPath: string)        // the bundled asset store
    | ContentThenPath(uri: string)  // the content resolver, falling back to the real filesystem path
    | PlainPath(path: string)       // a literal filesystem path

  /** The string with everything from its first `?` onward removed. */
  function StripQuery(s: string): (r: string)
    ensures StartsWith(s, r)
    ensures '?' !in r
    ensures '?' !in s ==> r == s
    ensures '?' in s ==> s[|r|] == '?'
  {
    var question := IndexOf(s, '?');
    if question > -1 then s[..question] else s
  }

  /** `Uri.parse(t).getPath()` for a `file://` URI: the text after the scheme. */
  function UriPath(t: string): string
    requires StartsWith(t, FileScheme)
  {
    t[|FileScheme|..]
  }

  /** The decision procedure of `getInputStreamFromUriString`. */
  function Classify(s: string): (r: Source)
    ensures r.Content? <==> StartsWith(s, ContentPrefix)
    ensures r.PlainPath? <==> !StartsWith(s, ContentPrefix) && !StartsWith(s, FileScheme)
    ensures r.Asset? <==> StartsWith(s, FileScheme) && StartsWith(StripQuery(s), AssetPrefix)
    ensures r.Content? ==> r.uri == s
    ensures r.PlainPath? ==> r.path == s
    ensures r.Asset? ==> AssetPrefix + r.relPath == StripQuery(s)
    ensures r.ContentThenPath? ==> r.uri == StripQuery(s) && StartsWith(r.uri, FileScheme)
  {
    if StartsWith(s, ContentPrefix) then Content(s)
    else if StartsWith(s, FileScheme) then
      var t := StripQuery(s);
      assert t[..|FileScheme|] == s[..|FileScheme|];
      if StartsWith(t, AssetPrefix) then Asset(UriPath(t)[AssetPathPrefixLength..])
      else ContentThenPath(t)
    else PlainPath(s)
  }

  /** The string a classification stands for: the inverse of `Classify`. */
  function ToUri(c: Source): string
  {
    match c
    case Content(u) => u
    case Asset(p) => AssetPrefix + p
    case ContentThenPath(u) => u
    case PlainPath(p) => p
  }

  /** The classifications `Classify` can produce. */
  predicate WellFormed(c: Source)
  {
    match c
    case Content(u) => StartsWith(u, ContentPrefix)
    case Asset(p) => '?' !in p
    case ContentThenPath(u) => StartsWith(u, FileScheme) && '?' !in u && !StartsWith(u, AssetPrefix)
    case PlainPath(p) => !StartsWith(p, ContentPrefix) && !StartsWith(p, FileScheme)
  }

  /** The string the opening actually works from: a `file://` string loses its
      query, every other string is kept as is. */
  function Canonical(s: string): string
  {
    if StartsWith(s, FileScheme) then StripQuery(s) else s
  }

  lemma ClassifyIsWellFormed(s: string)
    ensures WellFormed(Classify(s))
  {
  }

  /** Classifying the string a classification stands for gives it back. */
  lemma ClassifyToUri(c: Source)
    requires WellFormed(c)
    ensures Classify(ToUri(c)) == c
  {
  }

  /** The string a source is classified as stands for is its canonical form:
      the classification keeps everything but a `file://` query. */
  lemma ToUriClassify(s: string)
    ensures ToUri(Classify(s)) == Canonical(s)
  {
  }

  /** A `file://` string is classified exactly as its query-free prefix is:
      nothing after the first `?` influences the choice. */
  lemma QueryIsIgnored(s: string)
    requires StartsWith(s, FileScheme)
    ensures Classify(s) == Classify(StripQuery(s))
  {
  }

  /** The platform facilities a source is opened with. */
  datatype Env<S> = Env(
    content: string -> Attempt<S>,   // ContentResolver.openInputStream
    asset: string -> Attempt<S>,     // AssetManager.open
    realPath: string -> Attempt<S>,  // FileInputStream on FileHelper.getRealPathFromURI
    file: string -> Attempt<S>)      // FileInputStream on a literal path

  /** A first attempt, and a second one that is made only when the first
      threw or yielded null. */
  function Fallback<S>(first: Attempt<S>, second: Attempt<S>): (r: Attempt<S>)
    ensures first.Ok? ==> r == first
    ensures !first.Ok? ==> r == second
  {
    if first.Ok? then first else second
  }

  /** `getInputStreamFromUriString(src)`; a null `src` fails on its first
      dereference. */
  function Resolve<S>(src: Option<string>, env: Env<S>): (r: Attempt<S>)
    ensures src.None? ==> r == Threw(NullDeref)
    ensures src.Some? && StartsWith(src.value, ContentPrefix) ==> r == env.content(src.value)
    ensures src.Some? && Classify(src.value).PlainPath? ==> r == env.file(src.value)
    ensures src.Some? && StartsWith(src.value, FileScheme) && StartsWith(StripQuery(src.value), AssetPrefix) ==>
              r == env.asset(StripQuery(src.value)[|AssetPrefix|..])
    ensures src.Some? && StartsWith(src.value, FileScheme) && !StartsWith(StripQuery(src.value), AssetPrefix) ==>
              var u := StripQuery(src.value);
              && (env.content(u).Ok? ==> r == env.content(u))
              && (!env.content(u).Ok? ==> r == env.realPath(u))
  {
    match src
    case None => Threw(NullDeref)
    case Some(s) =>
      match Classify(s)
      case Content(u) => env.content(u)
      case Asset(p) => env.asset(p)
      case ContentThenPath(u) => Fallback(env.content(u), env.realPath(u))
      case PlainPath(p) => env.file(p)
  }

  /** Any string that starts with the bare token `content` goes to the
      content resolver untouched, `://` or not, query and all. This restates
      the `content` clauses of `Classify` and `Resolve` as one property. */
  lemma ContentOpenedAsIs<S>(s: string, env: Env<S>)
    requires StartsWith(s, ContentPrefix)
    ensures Classify(s) == Content(s)
    ensures Resolve(Some(s), env) == env.content(s)
  {
  }

  /** A `file:///android_asset/` string, once stripped of its query, is read
      from the asset store under the path after `/android_asset/`. This
      restates the asset clause of `Resolve` as a property of its own. */
  lemma AssetOpenedByRelativePath<S>(s: string, env: Env<S>)
    requires StartsWith(s, FileScheme)
    requires StartsWith(StripQuery(s), AssetPrefix)
    ensures Resolve(Some(s), env) == env.asset(StripQuery(s)[|AssetPrefix|..])
  {
  }

  /** Any other `file://` string: the filesystem path is opened if and only if
      the content resolver threw or yielded null, and only that second
      attempt's failure is reported. This restates the content-then-path
      clause of `Resolve` as a property of its own. */
  lemma FileUriFallsBackToPath<S>(s: string, env: Env<S>)
    requires StartsWith(s, FileScheme)
    requires !StartsWith(StripQuery(s), AssetPrefix)
    ensures var u := StripQuery(s);
      && (env.content(u).Ok? ==> Resolve(Some(s), env) == env.content(u))
      && (!env.content(u).Ok? ==> Resolve(Some(s), env) == env.realPath(u))
  {
  }
}
