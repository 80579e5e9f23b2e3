/**
 * The string logic of the admin page script: reading a cookie out of the
 * `document.cookie` text (`name=value` pairs separated by `;`, the cookie
 * header shape of section 5.4 of RFC 6265) and building the language-switch
 * target URL after removing an `en`/`es` prefix from the current path.
 */
module AdminScript {
  import opened Wrappers
  import opened Text
  import opened Seqs

  // ---------------------------------------------------------------------
  // String.prototype.split, join, substring and trim
  // ---------------------------------------------------------------------

  /** `s.split(sep)` for a one-character separator: never empty, `"".split(sep) == [""]`. */
  function Split(s: string, sep: char): (parts: seq<string>)
    ensures |parts| >= 1
    ensures forall i :: 0 <= i < |parts| ==> sep !in parts[i]
  {
    if s == [] then [[]]
    else
      var tail := Split(s[1..], sep);
      if s[0] == sep then [[]] + tail else [[s[0]] + tail[0]] + tail[1..]
  }

  /** `parts.join(sep)`; `[].join(sep) == ""`. */
  function Join(parts: seq<string>, sep: char): string {
    if parts == [] then []
    else if |parts| == 1 then parts[0]
    else parts[0] + [sep] + Join(parts[1..], sep)
  }

  /** Joining the pieces of a split gives back the text. */
  lemma {:induction false} JoinSplit(s: string, sep: char)
    ensures Join(Split(s, sep), sep) == s
  {
    if s != [] {
      JoinSplit(s[1..], sep);
      var tail := Split(s[1..], sep);
      if s[0] != sep {
        if |tail| == 1 {
          assert s == [s[0]] + tail[0];
        } else {
          assert tail == [tail[0]] + tail[1..];
          assert Join(tail, sep) == tail[0] + [sep] + Join(tail[1..], sep);
          assert s == [s[0]] + s[1..];
        }
      } else {
        assert s == [sep] + s[1..];
      }
    }
  }

  /** Splitting the join of separator-free pieces gives the pieces back. */
  lemma {:induction false} SplitJoin(parts: seq<string>, sep: char)
    requires |parts| >= 1
    requires forall i :: 0 <= i < |parts| ==> sep !in parts[i]
    ensures Split(Join(parts, sep), sep) == parts
  {
    if |parts| == 1 {
      SplitNoSeparator(parts[0], sep);
    } else {
      SplitJoin(parts[1..], sep);
      SplitAtSeparator(parts[0], sep, Join(parts[1..], sep));
      assert parts == [parts[0]] + parts[1..];
    }
  }

  /** A text without the separator splits into itself. */
  lemma {:induction false} SplitNoSeparator(a: string, sep: char)
    requires sep !in a
    ensures Split(a, sep) == [a]
  {
    if a != [] {
      SplitNoSeparator(a[1..], sep);
      assert a == [a[0]] + a[1..];
    }
  }

  /** The first piece of a split runs up to the first separator. */
  lemma {:induction false} SplitAtSeparator(a: string, sep: char, b: string)
    requires sep !in a
    ensures Split(a + [sep] + b, sep) == [a] + Split(b, sep)
  {
    if a == [] {
      assert a + [sep] + b == [sep] + b;
      assert ([sep] + b)[1..] == b;
    } else {
      assert (a + [sep] + b)[1..] == a[1..] + [sep] + b;
      SplitAtSeparator(a[1..], sep, b);
      assert a == [a[0]] + a[1..];
    }
  }

  /** The first piece of a split, and the text after it. */
  lemma {:induction false} SplitHead(s: string, sep: char) returns (rest: string)
    ensures sep !in Split(s, sep)[0]
    ensures s == Split(s, sep)[0] || s == Split(s, sep)[0] + [sep] + rest
    ensures s == Split(s, sep)[0] ==> |Split(s, sep)| == 1
    ensures s != Split(s, sep)[0] ==> Split(s, sep) == [Split(s, sep)[0]] + Split(rest, sep)
  {
    var head := Split(s, sep)[0];
    var k := 0;
    while k < |s| && s[k] != sep
      invariant k <= |s|
      invariant sep !in s[..k]
    {
      k := k + 1;
    }
    if k == |s| {
      assert s[..k] == s;
      SplitNoSeparator(s, sep);
      rest := [];
    } else {
      rest := s[k + 1..];
      assert s == s[..k] + [sep] + rest;
      SplitAtSeparator(s[..k], sep, rest);
    }
  }

  /** `s.substring(0, n)`: the whole text when it is shorter than `n`. */
  function Prefix(s: string, n: nat): (r: string)
    ensures |r| <= n && StartsWith(s, r)
  {
    if n <= |s| then s[..n] else s
  }

  /** The characters `String.prototype.trim` removes: ECMAScript white space and line terminators. */
  predicate IsSpace(c: char) {
    || c == '\t' || c == '\n' || c == '\U{B}' || c == '\U{C}' || c == '\r' || c == ' '
    || c == '\U{A0}' || c == '\U{1680}' || ('\U{2000}' <= c <= '\U{200A}')
    || c == '\U{2028}' || c == '\U{2029}' || c == '\U{202F}' || c == '\U{205F}'
    || c == '\U{3000}' || c == '\U{FEFF}'
  }

  predicate AllSpace(s: string) {
    forall i :: 0 <= i < |s| ==> IsSpace(s[i])
  }

  /** `s` without its leading white space. */
  function TrimStart(s: string): (r: string)
    ensures |r| <= |s|
  {
    if s != [] && IsSpace(s[0]) then TrimStart(s[1..]) else s
  }

  /** `s` without its trailing white space. */
  function TrimEnd(s: string): (r: string)
    ensures |r| <= |s|
  {
    if s != [] && IsSpace(s[|s| - 1]) then TrimEnd(s[..|s| - 1]) else s
  }

  /** `s.trim()`. */
  function Trim(s: string): string {
    TrimEnd(TrimStart(s))
  }

  /** `TrimStart` drops exactly the leading white space: what it keeps is a suffix that starts with no space. */
  lemma {:induction false} TrimStartShape(s: string)
    ensures TrimStart(s) == s[|s| - |TrimStart(s)|..]
    ensures AllSpace(s[..|s| - |TrimStart(s)|])
    ensures TrimStart(s) != [] ==> !IsSpace(TrimStart(s)[0])
  {
    if s != [] && IsSpace(s[0]) {
      TrimStartShape(s[1..]);
      assert s[..|s| - |TrimStart(s)|] == [s[0]] + s[1..][..|s| - 1 - |TrimStart(s)|];
    }
  }

  /** `TrimEnd` drops exactly the trailing white space: what it keeps is a prefix that ends with no space. */
  lemma {:induction false} TrimEndShape(s: string)
    ensures TrimEnd(s) == s[..|TrimEnd(s)|]
    ensures AllSpace(s[|TrimEnd(s)|..])
    ensures TrimEnd(s) != [] ==> !IsSpace(TrimEnd(s)[|TrimEnd(s)| - 1])
  {
    if s != [] && IsSpace(s[|s| - 1]) {
      TrimEndShape(s[..|s| - 1]);
      assert s[|TrimEnd(s)|..] == s[..|s| - 1][|TrimEnd(s)|..] + [s[|s| - 1]];
    }
  }

  /**
   * `s.trim()` is the part of `s` between its leading and its trailing white
   * space, and it neither starts nor ends with white space.
   */
  lemma TrimShape(s: string) returns (k: nat)
    ensures k + |Trim(s)| <= |s| && Trim(s) == s[k..k + |Trim(s)|]
    ensures AllSpace(s[..k]) && AllSpace(s[k + |Trim(s)|..])
    ensures Trim(s) != [] ==> !IsSpace(Trim(s)[0]) && !IsSpace(Trim(s)[|Trim(s)| - 1])
  {
    var t := TrimStart(s);
    var r := Trim(s);
    TrimStartShape(s);
    TrimEndShape(t);
    k := |s| - |t|;
    assert s[k..k + |r|] == t[..|r|];
    assert s[k + |r|..] == t[|r|..];
  }

  /** A text that neither starts nor ends with white space is its own trim. */
  lemma TrimUnpadded(s: string)
    requires s != [] && !IsSpace(s[0]) && !IsSpace(s[|s| - 1])
    ensures Trim(s) == s
  {
  }

  lemma {:induction false} TrimStartAllSpace(w: string)
    requires AllSpace(w)
    ensures TrimStart(w) == []
  {
    if w != [] {
      TrimStartAllSpace(w[1..]);
    }
  }

  lemma {:induction false} TrimStartSkipsSpace(w: string, p: string)
    requires AllSpace(w)
    ensures TrimStart(w + p) == TrimStart(p)
  {
    if w != [] {
      assert (w + p)[1..] == w[1..] + p;
      TrimStartSkipsSpace(w[1..], p);
    } else {
      assert w + p == p;
    }
  }

  lemma {:induction false} TrimEndSkipsSpace(p: string, w: string)
    requires AllSpace(w)
    ensures TrimEnd(p + w) == TrimEnd(p)
  {
    if w != [] {
      assert (p + w)[..|p + w| - 1] == p + w[..|w| - 1];
      TrimEndSkipsSpace(p, w[..|w| - 1]);
    } else {
      assert p + w == p;
    }
  }

  /** Trailing text after a non-space character survives `TrimStart`. */
  lemma {:induction false} TrimStartKeepsSuffix(p: string, w: string)
    requires !AllSpace(p)
    ensures TrimStart(p + w) == TrimStart(p) + w
  {
    assert p != [];
    assert (p + w)[0] == p[0];
    if IsSpace(p[0]) {
      assert (p + w)[1..] == p[1..] + w;
      assert !AllSpace(p[1..]) by {
        var i :| 0 <= i < |p| && !IsSpace(p[i]);
        assert p[1..][i - 1] == p[i];
      }
      TrimStartKeepsSuffix(p[1..], w);
    }
  }

  /** White space around a `;`-separated pair does not change its trimmed text. */
  lemma PaddingIgnored(w1: string, p: string, w2: string)
    requires AllSpace(w1) && AllSpace(w2)
    ensures Trim(w1 + p + w2) == Trim(p)
  {
    assert w1 + p + w2 == w1 + (p + w2);
    TrimStartSkipsSpace(w1, p + w2);
    if AllSpace(p) {
      assert AllSpace(p + w2);
      TrimStartAllSpace(p + w2);
      TrimStartAllSpace(p);
    } else {
      TrimStartKeepsSuffix(p, w2);
      TrimEndSkipsSpace(TrimStart(p), w2);
    }
  }

  // ---------------------------------------------------------------------
  // getCookie
  // ---------------------------------------------------------------------

  /** `cookie.substring(0, name.length + 1) === (name + '=')` for the trimmed pair. */
  predicate PairMatches(pair: string, name: string) {
    Prefix(Trim(pair), |name| + 1) == name + "="
  }

  /** The text after `name=` in a pair that matches. */
  function PairValue(pair: string, name: string): string
    requires PairMatches(pair, name)
  {
    Trim(pair)[|name| + 1..]
  }

  /** Index of the first pair that matches `name`, searching from `from`. */
  function FirstMatch(pairs: seq<string>, name: string, from: nat): (r: Option<nat>)
    requires from <= |pairs|
    ensures r.Some? ==> from <= r.value < |pairs| && PairMatches(pairs[r.value], name)
    ensures r.Some? ==> forall j :: from <= j < r.value ==> !PairMatches(pairs[j], name)
    ensures r.None? ==> forall j :: from <= j < |pairs| ==> !PairMatches(pairs[j], name)
  {
    FirstIndex(pairs, pair => PairMatches(pair, name), from)
  }

  /**
   * What `getCookie(name)` returns for the cookie text `cookie`: `null` for an
   * empty text, otherwise the decoded value of the first pair that matches.
   * `decode` stands for `decodeURIComponent`, which this model leaves unspecified.
   */
  function CookieValue(cookie: string, name: string, decode: string -> string): (r: Option<string>)
    ensures r.None? <==> cookie == [] || forall i :: 0 <= i < |Split(cookie, ';')| ==> !PairMatches(Split(cookie, ';')[i], name)
    ensures r.Some? ==> exists i :: 0 <= i < |Split(cookie, ';')| && PairMatches(Split(cookie, ';')[i], name)
                                   && (forall j :: 0 <= j < i ==> !PairMatches(Split(cookie, ';')[j], name))
                                   && r.value == decode(PairValue(Split(cookie, ';')[i], name))
  {
    if cookie == [] then None
    else
      var pairs := Split(cookie, ';');
      match FirstMatch(pairs, name, 0)
      case None => None
      case Some(i) => Some(decode(PairValue(pairs[i], name)))
  }

  /** `getCookie`: a loop over the split pairs that stops at the first match. */
  method GetCookie(cookie: string, name: string, decode: string -> string) returns (cookieValue: Option<string>)
    ensures cookie == [] ==> cookieValue == None
    ensures cookieValue == CookieValue(cookie, name, decode)
  {
    cookieValue := None;
    if cookie != [] {
      var cookies := Split(cookie, ';');
      var i := 0;
      while i < |cookies|
        invariant 0 <= i <= |cookies|
        invariant cookieValue == None
        invariant FirstMatch(cookies, name, 0) == FirstMatch(cookies, name, i)
      {
        var c := Trim(cookies[i]);
        if Prefix(c, |name| + 1) == name + "=" {
          cookieValue := Some(decode(c[|name| + 1..]));
          break;
        }
        i := i + 1;
      }
    }
  }

  /** A pair matches exactly when its trimmed text starts with `name=`. */
  lemma PairMatchesIsPrefix(pair: string, name: string)
    ensures PairMatches(pair, name) <==> StartsWith(Trim(pair), name + "=")
  {
  }

  /**
   * The first matching pair decides the result; any later pair with the same
   * name is ignored.
   */
  lemma FirstPairWins(cookie: string, name: string, decode: string -> string, i: nat)
    requires cookie != []
    requires i < |Split(cookie, ';')|
    requires PairMatches(Split(cookie, ';')[i], name)
    requires forall j :: 0 <= j < i ==> !PairMatches(Split(cookie, ';')[j], name)
    ensures CookieValue(cookie, name, decode) == Some(decode(PairValue(Split(cookie, ';')[i], name)))
  {
    var r := FirstMatch(Split(cookie, ';'), name, 0);
    assert r.Some?;
  }

  /**
   * A cookie whose name only extends the requested one (`csrftokenX=...` when
   * `csrftoken` is asked for) never matches, since `=` is part of the
   * compared prefix and a cookie name holds no `=`.
   */
  lemma LongerNameNeverMatches(name: string, extra: string, value: string, pair: string)
    requires extra != [] && '=' !in extra
    requires Trim(pair) == name + extra + "=" + value
    ensures !PairMatches(pair, name)
  {
    var t := Trim(pair);
    assert t[|name|] == extra[0] != '=';
    assert (name + "=")[|name|] == '=';
  }

  /** Changing the white space around each pair leaves the cookie value unchanged. */
  lemma SpacingDoesNotMatter(a: string, b: string, name: string, decode: string -> string)
    requires |Split(a, ';')| == |Split(b, ';')|
    requires forall i :: 0 <= i < |Split(a, ';')| ==> Trim(Split(a, ';')[i]) == Trim(Split(b, ';')[i])
    ensures CookieValue(a, name, decode) == CookieValue(b, name, decode)
  {
    var pa, pb := Split(a, ';'), Split(b, ';');
    SameTrimSameMatch(pa, pb, name, 0);
    if a == [] || b == [] {
      // An empty cookie string splits into one empty pair, which matches no name.
      var empty := if a == [] then pa else pb;
      assert empty == [[]];
      assert Trim([]) == [];
      assert !PairMatches(empty[0], name);
    }
  }

  lemma {:induction false} SameTrimSameMatch(pa: seq<string>, pb: seq<string>, name: string, from: nat)
    requires |pa| == |pb| && from <= |pa|
    requires forall i :: 0 <= i < |pa| ==> Trim(pa[i]) == Trim(pb[i])
    ensures FirstMatch(pa, name, from) == FirstMatch(pb, name, from)
    decreases |pa| - from
  {
    if from < |pa| {
      SameTrimSameMatch(pa, pb, name, from + 1);
    }
  }

  /** An example: in `a=1;a=2` the first pair wins. */
  lemma ExampleFirstOfDuplicates(decode: string -> string)
    ensures CookieValue("a=1;a=2", "a", decode) == Some(decode("1"))
  {
    var pairs := Split("a=1;a=2", ';');
    assert pairs[0] == "a=1" by {
      assert "a=1;a=2" == "a=1" + [';'] + "a=2";
      SplitAtSeparator("a=1", ';', "a=2");
    }
    assert Trim(pairs[0]) == "a=1" by {
      TrimUnpadded("a=1");
    }
    assert PairMatches(pairs[0], "a") && PairValue(pairs[0], "a") == "1";
    FirstPairWins("a=1;a=2", "a", decode, 0);
  }

  // ---------------------------------------------------------------------
  // Language prefix
  // ---------------------------------------------------------------------

  /** The codes of the language selector. */
  const LanguageCodes: seq<string> := ["en", "es"]

  /** `path` is `/code` or starts with `/code/`. */
  predicate HasLanguageSegment(path: string, code: string) {
    && StartsWith(path, "/" + code)
    && (|path| == |code| + 1 || path[|code| + 1] == '/')
  }

  /** The path with its leading `/code` segment dropped; `/` when nothing is left. */
  function AfterLanguageSegment(path: string, code: string): (r: string)
    requires HasLanguageSegment(path, code)
    ensures |r| >= 1 && r[0] == '/'
  {
    if |path| == |code| + 1 then "/" else path[|code| + 1..]
  }

  /**
   * The normalisation of `window.location.pathname`: drop the second piece of
   * the `/`-split when it is a language code, then make sure of a leading `/`.
   */
  method CurrentPath(pathname: string) returns (currentPath: string)
    ensures |currentPath| >= 1 && currentPath[0] == '/'
    ensures forall code :: code in LanguageCodes && StartsWith(pathname, "/") && HasLanguageSegment(pathname, code) ==>
              currentPath == AfterLanguageSegment(pathname, code)
    ensures StartsWith(pathname, "/") && (forall code :: code in LanguageCodes ==> !HasLanguageSegment(pathname, code)) ==>
              currentPath == pathname
  {
    currentPath := pathname;
    var pathParts := Split(currentPath, '/');
    if |pathParts| > 1 && pathParts[1] in LanguageCodes {
      currentPath := "/" + Join(pathParts[2..], '/');
    }
    if !StartsWith(currentPath, "/") {
      currentPath := "/" + currentPath;
    }
    if StartsWith(pathname, "/") {
      SlashPathParts(pathname);
    }
  }

  /** A path starting with `/` splits into an empty piece and the pieces of the rest. */
  lemma SplitSlashPath(path: string)
    requires StartsWith(path, "/")
    ensures Split(path, '/') == [[]] + Split(path[1..], '/')
  {
    assert path == [] + ['/'] + path[1..];
    SplitAtSeparator([], '/', path[1..]);
  }

  /**
   * For a text `body` and a code without `/`, the first piece of the split is
   * the code exactly when `body` is the code or starts with the code and `/`;
   * the pieces after it then rejoin to what follows the code.
   */
  lemma FirstPieceIsCode(body: string, code: string)
    requires '/' !in code
    ensures Split(body, '/')[0] == code <==> StartsWith(body, code) && (|body| == |code| || body[|code|] == '/')
    ensures Split(body, '/')[0] == code && |body| > |code| ==>
              |Split(body, '/')| > 1 && "/" + Join(Split(body, '/')[1..], '/') == body[|code|..]
    ensures Split(body, '/')[0] == code && |body| == |code| ==> |Split(body, '/')| == 1
  {
    var rest := SplitHead(body, '/');
    var head := Split(body, '/')[0];
    if body == head {
      assert |Split(body, '/')| == 1;
    } else {
      assert body == head + "/" + rest;
      assert body[|head|] == '/';
      assert body[|head|..] == "/" + rest;
      assert Split(body, '/')[1..] == Split(rest, '/');
      JoinSplit(rest, '/');
    }
  }

  /**
   * For a path starting with `/`, the second piece of the split is a language
   * code exactly when the path has that language segment, and then rejoining
   * the pieces after it gives `AfterLanguageSegment`.
   */
  lemma SlashPathCode(path: string, code: string)
    requires StartsWith(path, "/") && '/' !in code
    ensures |Split(path, '/')| > 1 && Split(path, '/')[1] == code <==> HasLanguageSegment(path, code)
    ensures HasLanguageSegment(path, code) ==>
              "/" + Join(Split(path, '/')[2..], '/') == AfterLanguageSegment(path, code)
  {
    SplitSlashPath(path);
    var body := path[1..];
    FirstPieceIsCode(body, code);
    assert Split(path, '/')[1] == Split(body, '/')[0];
    assert Split(path, '/')[2..] == Split(body, '/')[1..];
    if StartsWith(body, code) {
      assert path[..|code| + 1] == "/" + code;
    }
    if StartsWith(path, "/" + code) {
      assert body[..|code|] == code;
    }
  }

  lemma SlashPathParts(path: string)
    requires StartsWith(path, "/")
    ensures forall code :: code in LanguageCodes ==>
              (|Split(path, '/')| > 1 && Split(path, '/')[1] == code <==> HasLanguageSegment(path, code))
    ensures forall code :: code in LanguageCodes && HasLanguageSegment(path, code) ==>
              "/" + Join(Split(path, '/')[2..], '/') == AfterLanguageSegment(path, code)
  {
    SlashPathCode(path, "en");
    SlashPathCode(path, "es");
  }

  /** `getTargetUrl(code)`: `/code/` for the root path, `/code` followed by the path otherwise. */
  function TargetUrl(currentPath: string, code: string): (url: string)
    ensures StartsWith(url, "/" + code)
    ensures currentPath == "/" ==> url == "/" + code + "/"
    ensures StartsWith(currentPath, "/") ==> url == "/" + code + currentPath
  {
    if currentPath == "/" then "/" + code + "/" else "/" + code + currentPath
  }

  /** A target URL for a language code carries that code as its language segment. */
  lemma TargetUrlSegment(currentPath: string, code: string)
    requires StartsWith(currentPath, "/")
    ensures HasLanguageSegment(TargetUrl(currentPath, code), code)
    ensures AfterLanguageSegment(TargetUrl(currentPath, code), code) == currentPath
  {
    var url := TargetUrl(currentPath, code);
    assert url[..|code| + 1] == "/" + code;
    assert url[|code| + 1] == '/';
    if currentPath == "/" {
      assert url[|code| + 1..] == "/";
    } else {
      assert url[|code| + 1..] == currentPath;
    }
  }

  /**
   * Switching to `en` or `es` and then normalising the target URL on the next
   * page gives back the path the switch started from.
   */
  method LanguageSwitchRoundTrip(currentPath: string, code: string) returns (back: string)
    requires StartsWith(currentPath, "/")
    requires code in LanguageCodes
    ensures back == currentPath
  {
    TargetUrlSegment(currentPath, code);
    back := CurrentPath(TargetUrl(currentPath, code));
  }
}
