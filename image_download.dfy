/**
 The filename logic of `download_image` in download_supabase_images.py.
 The HTTP exchange is an input (`Fetch`), as is whether writing the file
 succeeds; `str.isalnum` is an abstract character predicate.  The path of
 the URL follows `urllib.parse.urlparse`, its extension `os.path.splitext`
 on POSIX paths.
 */
module ImageDownload {
  import opened Wrappers

  const AllowedExtensions: seq<string> := [".jpg", ".jpeg", ".png", ".webp"]
  const DefaultExtension: string := ".jpg"
  /** How many characters of the product name go into the filename. */
  const NameLimit: nat := 30
  /** The punctuation kept in a filename besides alphanumerics. */
  const NameExtras: string := "._-"

  predicate StartsWith(s: string, prefix: string)
  {
    |prefix| <= |s| && s[..|prefix|] == prefix
  }

  /** `sub in s` on strings. */
  predicate Contains(s: string, sub: string)
    decreases |s|
  {
    StartsWith(s, sub) || (|s| > 0 && Contains(s[1..], sub))
  }

  /** The first position in `s` of a character of `cs`, or |s| when there is none. */
  function FindAny(s: string, cs: set<char>): (i: nat)
    ensures i <= |s|
    ensures i < |s| ==> s[i] in cs
    ensures forall j :: 0 <= j < i ==> s[j] !in cs
  {
    if |s| == 0 || s[0] in cs then 0 else 1 + FindAny(s[1..], cs)
  }

  /** `s.find(c)`, with |s| for "not found". */
  function Find(s: string, c: char): (i: nat)
    ensures i <= |s|
    ensures i < |s| ==> s[i] == c
    ensures forall j :: 0 <= j < i ==> s[j] != c
  {
    FindAny(s, {c})
  }

  /** `s.rfind(c)`: the last position of `c`, or -1. */
  function RFind(s: string, c: char): (i: int)
    ensures -1 <= i < |s|
    ensures i >= 0 ==> s[i] == c
    ensures forall j :: i < j < |s| ==> s[j] != c
  {
    if |s| == 0 then -1
    else if s[|s| - 1] == c then |s| - 1
    else RFind(s[..|s| - 1], c)
  }

  function LowerChar(c: char): char
  {
    if 'A' <= c <= 'Z' then (c as int + 32) as char else c
  }

  /** `s.lower()` on ASCII letters. */
  function AsciiLower(s: string): (r: string)
    ensures |r| == |s|
    ensures forall i :: 0 <= i < |s| ==> r[i] == LowerChar(s[i])
  {
    if |s| == 0 then [] else AsciiLower(s[..|s| - 1]) + [LowerChar(s[|s| - 1])]
  }

  predicate IsAsciiLetter(c: char)
  {
    'a' <= c <= 'z' || 'A' <= c <= 'Z'
  }

  /** The characters a URL scheme may hold. */
  predicate IsSchemeChar(c: char)
  {
    IsAsciiLetter(c) || '0' <= c <= '9' || c == '+' || c == '-' || c == '.'
  }

  /** The tab and line-break characters `urlsplit` deletes from a URL before splitting it. */
  predicate IsUnsafe(c: char)
  {
    c == '\t' || c == '\r' || c == '\n'
  }

  function RemoveUnsafe(s: string): (r: string)
    ensures |r| <= |s|
    ensures forall i :: 0 <= i < |r| ==> !IsUnsafe(r[i])
    ensures (forall i :: 0 <= i < |s| ==> !IsUnsafe(s[i])) ==> r == s
  {
    if |s| == 0 then []
    else RemoveUnsafe(s[..|s| - 1]) + (if IsUnsafe(s[|s| - 1]) then [] else [s[|s| - 1]])
  }

  /** The schemes whose last path segment `urlparse` splits at ';'. */
  const UsesParams: set<string> := {"", "ftp", "hdl", "prospero", "http", "imap", "https", "shttp",
                                    "rtsp", "rtsps", "rtspu", "sip", "sips", "mms", "sftp", "tel"}

  /** The path without the `;params` of its last segment. */
  function DropParams(p: string): (r: string)
    ensures StartsWith(p, r)
    ensures ';' !in p ==> r == p
    ensures |r| < |p| ==> p[|r|] == ';' && '/' !in p[|r|..]
    ensures ';' !in r[RFind(r, '/') + 1..]
  {
    var start := if '/' in p then RFind(p, '/') else 0;
    var k := Find(p[start..], ';');
    var r := p[..start + k];
    assert '/' in p ==> RFind(r, '/') == start by {
      if '/' in p {
        assert k > 0;
        RFindLast(r, '/', start);
      }
    }
    assert '/' !in p ==> RFind(r, '/') == -1 by {
      if '/' !in p {
        RFindAbsent(r, '/');
      }
    }
    r
  }

  /** The position `rfind` reports is the one after which `c` no longer occurs. */
  lemma RFindLast(s: string, c: char, i: nat)
    requires i < |s| && s[i] == c
    requires forall j :: i < j < |s| ==> s[j] != c
    ensures RFind(s, c) == i
  {
  }

  lemma RFindAbsent(s: string, c: char)
    requires c !in s
    ensures RFind(s, c) == -1
  {
  }

  /**
   A URL split at its scheme: the lower-cased scheme and what follows the
   ':', or "" and the whole URL when no valid scheme precedes the first ':'.
   */
  function SplitScheme(u: string): (string, string)
  {
    var colon := Find(u, ':');
    if 0 < colon < |u| && IsAsciiLetter(u[0]) && forall j :: 0 <= j < colon ==> IsSchemeChar(u[j])
    then (AsciiLower(u[..colon]), u[colon + 1..])
    else ("", u)
  }

  /** After a leading "//", the netloc up to the first '/', '?' or '#', and the rest. */
  function SplitNetloc(rest: string): (string, string)
  {
    if StartsWith(rest, "//") then
      var stop := 2 + FindAny(rest[2..], {'/', '?', '#'});
      (rest[2..stop], rest[stop..])
    else ("", rest)
  }

  /** What precedes the fragment ('#') and then the query ('?'). */
  function StripQueryAndFragment(s: string): string
  {
    var noFragment := s[..Find(s, '#')];
    noFragment[..Find(noFragment, '?')]
  }

  /**
   `urlparse(url).path`, or None where `urlparse` raises ValueError (a
   netloc with one square bracket but not the other).
   */
  function UrlPath(url: string): (r: Option<string>)
  {
    var schemeAndRest := SplitScheme(RemoveUnsafe(url));
    var netlocAndRest := SplitNetloc(schemeAndRest.1);
    var netloc := netlocAndRest.0;
    if ('[' in netloc) != (']' in netloc) then None
    else
      var path := StripQueryAndFragment(netlocAndRest.1);
      Some(if schemeAndRest.0 in UsesParams then DropParams(path) else path)
  }

  /** A plain `scheme://host/path?query` URL has `/path` as its path. */
  lemma PathOfPlainUrl(scheme: string, host: string, path: string, query: string)
    requires scheme == "http" || scheme == "https"
    requires forall c :: c in host ==> c != '/' && c != '?' && c != '#' && c != '[' && c != ']' && !IsUnsafe(c)
    requires |path| > 0 && path[0] == '/'
    requires forall c :: c in path ==> c != '?' && c != '#' && c != ';' && !IsUnsafe(c)
    requires forall c :: c in query ==> !IsUnsafe(c)
    ensures UrlPath(scheme + "://" + host + path + "?" + query) == Some(path)
  {
    var tail := path + "?" + query;
    var rest := "//" + host + tail;
    var url := scheme + ":" + rest;
    assert url == scheme + "://" + host + path + "?" + query;
    PlainUrlIsSafe(scheme, host, path, query);
    SplitSchemeOfPlain(scheme, rest);
    SplitNetlocOfPlain(host, tail);
    StripQueryOfPlain(path, query);
    assert SplitScheme(RemoveUnsafe(url)) == (scheme, rest);
    assert '[' !in host && ']' !in host;
    assert ';' !in path;
    assert DropParams(path) == path;
    assert scheme in UsesParams;
  }

  lemma PlainUrlIsSafe(scheme: string, host: string, path: string, query: string)
    requires scheme == "http" || scheme == "https"
    requires forall c :: c in host ==> !IsUnsafe(c)
    requires forall c :: c in path ==> !IsUnsafe(c)
    requires forall c :: c in query ==> !IsUnsafe(c)
    ensures RemoveUnsafe(scheme + "://" + host + path + "?" + query) == scheme + "://" + host + path + "?" + query
  {
    var url := scheme + "://" + host + path + "?" + query;
    forall i | 0 <= i < |url|
      ensures !IsUnsafe(url[i])
    {
      if i >= |scheme| + 3 + |host| + |path| + 1 {
        assert url[i] in query;
      } else if i >= |scheme| + 3 + |host| + |path| {
        assert url[i] == '?';
      } else if i >= |scheme| + 3 + |host| {
        assert url[i] in path;
      } else if i >= |scheme| + 3 {
        assert url[i] in host;
      }
    }
  }

  lemma SplitSchemeOfPlain(scheme: string, rest: string)
    requires scheme == "http" || scheme == "https"
    ensures SplitScheme(scheme + ":" + rest) == (scheme, rest)
  {
    var u := scheme + ":" + rest;
    assert Find(u, ':') == |scheme| by {
      assert u[|scheme|] == ':';
      forall j | 0 <= j < |scheme|
        ensures u[j] != ':'
      {
        assert u[j] == scheme[j];
      }
    }
    assert u[..|scheme|] == scheme;
    assert u[|scheme| + 1..] == rest;
    assert IsAsciiLetter(u[0]);
    forall j | 0 <= j < |scheme|
      ensures IsSchemeChar(u[j])
    {
      assert u[j] == scheme[j];
    }
    assert AsciiLower(scheme) == scheme;
  }

  lemma SplitNetlocOfPlain(host: string, tail: string)
    requires forall c :: c in host ==> c != '/' && c != '?' && c != '#'
    requires |tail| > 0 && tail[0] == '/'
    ensures SplitNetloc("//" + host + tail) == (host, tail)
  {
    var rest := "//" + host + tail;
    assert StartsWith(rest, "//");
    var after := rest[2..];
    assert after == host + tail;
    assert FindAny(after, {'/', '?', '#'}) == |host| by {
      assert after[|host|] == '/';
      forall j | 0 <= j < |host|
        ensures after[j] !in {'/', '?', '#'}
      {
        assert after[j] in host;
      }
    }
    assert rest[2..2 + |host|] == host;
    assert rest[2 + |host|..] == tail;
  }

  lemma StripQueryOfPlain(path: string, query: string)
    requires forall c :: c in path ==> c != '?' && c != '#'
    ensures StripQueryAndFragment(path + "?" + query) == path
  {
    var s := path + "?" + query;
    var k := Find(s, '#');
    assert k >= |path| by {
      forall j | 0 <= j < |path|
        ensures s[j] != '#'
      {
        assert s[j] in path;
      }
    }
    var noFragment := s[..k];
    assert Find(noFragment, '?') == |path| by {
      assert noFragment[|path|] == '?';
      forall j | 0 <= j < |path|
        ensures noFragment[j] != '?'
      {
        assert noFragment[j] in path;
      }
    }
    assert noFragment[..|path|] == path;
  }

  /**
   `os.path.splitext(p)[1]`: from the last '.' of the last path segment,
   unless every character before that dot in the segment is a dot too.
   */
  function Extension(p: string): (e: string)
    ensures e == "" || (e[0] == '.' && '/' !in e)
    ensures |e| <= |p| && e == p[|p| - |e|..]
    ensures e != "" ==> '.' !in e[1..] && exists j :: RFind(p, '/') < j < |p| - |e| && p[j] != '.'
    ensures e == "" ==> forall j :: RFind(p, '/') < j < RFind(p, '.') ==> p[j] == '.'
  {
    var sep := RFind(p, '/');
    var dot := RFind(p, '.');
    if dot > sep && exists j :: sep < j < dot && p[j] != '.' then p[dot..] else ""
  }

  /**
   A file `stem.ext` in the last path segment has extension `.ext` as soon as
   the stem holds a character other than '.', whatever dots it holds besides:
   `a.b.png` and `.a.png` both give `.png`.
   */
  lemma ExtensionOfNamedFile(dir: string, stem: string, ext: string)
    requires '/' !in stem && exists j :: 0 <= j < |stem| && stem[j] != '.'
    requires '/' !in ext && '.' !in ext
    ensures Extension(dir + "/" + stem + "." + ext) == "." + ext
  {
    var p := dir + "/" + stem + "." + ext;
    var dot := |dir| + 1 + |stem|;
    assert p[dot] == '.';
    forall j | dot < j < |p|
      ensures p[j] != '.' && p[j] != '/'
    {
      assert p[j] in ext;
    }
    assert RFind(p, '.') == dot;
    var sep := RFind(p, '/');
    assert p[|dir|] == '/';
    forall j | |dir| < j <= dot
      ensures p[j] != '/'
    {
      if j < dot {
        assert p[j] in stem;
      }
    }
    assert sep == |dir|;
    var w :| 0 <= w < |stem| && stem[w] != '.';
    assert p[sep + 1 + w] == stem[w];
    assert p[dot..] == "." + ext;
  }

  /** A last path segment without any '.' has no extension. */
  lemma ExtensionOfPlainName(dir: string, name: string)
    requires '/' !in name && '.' !in name
    ensures Extension(dir + "/" + name) == ""
  {
    var p := dir + "/" + name;
    assert p[|dir|] == '/';
    forall j | |dir| < j < |p|
      ensures p[j] != '/' && p[j] != '.'
    {
      assert p[j] in name;
    }
    assert RFind(p, '/') == |dir|;
  }

  /** A last segment made of dots and then `.ext` (a hidden file such as `.png`) has no extension. */
  lemma ExtensionOfDotFile(dir: string, dots: string, ext: string)
    requires forall c :: c in dots ==> c == '.'
    requires '/' !in ext && '.' !in ext
    ensures Extension(dir + "/" + dots + "." + ext) == ""
  {
    var p := dir + "/" + dots + "." + ext;
    var dot := |dir| + 1 + |dots|;
    assert p[dot] == '.';
    forall j | dot < j < |p|
      ensures p[j] != '.' && p[j] != '/'
    {
      assert p[j] in ext;
    }
    assert RFind(p, '.') == dot;
    assert p[|dir|] == '/';
    forall j | |dir| < j < dot
      ensures p[j] == '.'
    {
      assert p[j] in dots;
    }
    assert RFind(p, '/') == |dir|;
  }

  /** The extension the file is saved with: the URL's own when whitelisted, else ".jpg". */
  function ChosenExtension(path: string): (e: string)
    ensures e in AllowedExtensions
    ensures AsciiLower(Extension(path)) in AllowedExtensions ==> e == AsciiLower(Extension(path))
    ensures AsciiLower(Extension(path)) !in AllowedExtensions ==> e == DefaultExtension
  {
    var ext := AsciiLower(Extension(path));
    if ext !in AllowedExtensions then DefaultExtension else ext
  }

  predicate Allowed(c: char, isAlnum: char -> bool)
  {
    isAlnum(c) || c in NameExtras
  }

  /** Each character kept when allowed and replaced by '_' otherwise. */
  function Sanitize(s: string, isAlnum: char -> bool): (r: string)
    ensures |r| == |s|
    ensures forall i :: 0 <= i < |s| ==> r[i] == (if Allowed(s[i], isAlnum) then s[i] else '_')
  {
    if |s| == 0 then []
    else Sanitize(s[..|s| - 1], isAlnum) + [if Allowed(s[|s| - 1], isAlnum) then s[|s| - 1] else '_']
  }

  /** `safe_name`: the first 30 characters of the name, made filename-safe. */
  function SafeName(name: string, isAlnum: char -> bool): (r: string)
    ensures |r| == if |name| < NameLimit then |name| else NameLimit
    ensures forall i :: 0 <= i < |r| ==> Allowed(r[i], isAlnum)
    ensures forall i :: 0 <= i < |r| ==> Allowed(name[i], isAlnum) ==> r[i] == name[i]
    ensures forall i :: 0 <= i < |r| ==> !Allowed(name[i], isAlnum) ==> r[i] == '_'
  {
    Sanitize(if |name| <= NameLimit then name else name[..NameLimit], isAlnum)
  }

  /** Sanitising a sanitised name changes nothing. */
  lemma SafeNameIdempotent(name: string, isAlnum: char -> bool)
    ensures SafeName(SafeName(name, isAlnum), isAlnum) == SafeName(name, isAlnum)
  {
    var once := SafeName(name, isAlnum);
    var twice := SafeName(once, isAlnum);
    assert |twice| == |once|;
    forall i | 0 <= i < |once|
      ensures twice[i] == once[i]
    {
      assert Allowed(once[i], isAlnum);
    }
  }

  /** `f"{product_id}_{safe_name}{ext}"`. */
  function Filename(productId: string, safeName: string, ext: string): string
  {
    productId + "_" + safeName + ext
  }

  /** The filename cannot leave the image directory: it holds no '/' when the id holds none. */
  lemma FilenameStaysInDirectory(productId: string, name: string, isAlnum: char -> bool, path: string)
    requires '/' !in productId && !isAlnum('/')
    ensures '/' !in Filename(productId, SafeName(name, isAlnum), ChosenExtension(path))
  {
    var f := Filename(productId, SafeName(name, isAlnum), ChosenExtension(path));
    var safe := SafeName(name, isAlnum);
    var ext := ChosenExtension(path);
    assert '/' !in ext;
    forall i | 0 <= i < |f|
      ensures f[i] != '/'
    {
      if i < |productId| {
        assert f[i] == productId[i];
      } else if i == |productId| {
        assert f[i] == '_';
      } else if i < |productId| + 1 + |safe| {
        assert f[i] == safe[i - |productId| - 1];
        assert Allowed(safe[i - |productId| - 1], isAlnum);
      } else {
        assert f[i] == ext[i - |productId| - 1 - |safe|];
      }
    }
  }

  /** The HTTP exchange `requests.get` performs: it raised, or a response arrived. */
  datatype Fetch = Raised | Response(status: int, contentType: Option<string>)

  /** `response.headers.get('content-type', '')`. */
  function ContentType(f: Fetch): string
    requires f.Response?
  {
    if f.contentType.Some? then f.contentType.value else ""
  }

  /**
   `download_image`: None for an empty or non-"http" URL (without
   fetching), for an exception, a status other than 200 or a content type
   without "image"; otherwise the filename the image is written to.
   */
  function DownloadImage(photo: string, productId: string, productName: string, isAlnum: char -> bool,
                         fetch: Fetch, written: bool): (r: Option<string>)
    ensures !StartsWith(photo, "http") ==> r == None
    ensures fetch.Raised? ==> r == None
    ensures fetch.Response? && (fetch.status != 200 || !Contains(ContentType(fetch), "image")) ==> r == None
    ensures r.Some? <==>
      StartsWith(photo, "http") && fetch.Response? && fetch.status == 200
      && Contains(ContentType(fetch), "image") && UrlPath(photo).Some? && written
    ensures r.Some? ==>
      r.value == Filename(productId, SafeName(productName, isAlnum), ChosenExtension(UrlPath(photo).value))
  {
    if |photo| == 0 || !StartsWith(photo, "http") then None
    else match fetch
      case Raised => None
      case Response(status, _) =>
        if status == 200 && Contains(ContentType(fetch), "image") then
          match UrlPath(photo)
          case None => None
          case Some(path) =>
            if written then Some(Filename(productId, SafeName(productName, isAlnum), ChosenExtension(path)))
            else None
        else None
  }

  /** A URL that is not fetched yields None whatever the server would have answered. */
  lemma SkippedUrlIgnoresFetch(photo: string, productId: string, productName: string, isAlnum: char -> bool,
                               f1: Fetch, f2: Fetch, w1: bool, w2: bool)
    requires !StartsWith(photo, "http")
    ensures DownloadImage(photo, productId, productName, isAlnum, f1, w1)
         == DownloadImage(photo, productId, productName, isAlnum, f2, w2) == None
  {
  }
}
