/** The two pure parts of CodeLoader: turning whatever a user typed as a
    GitHub address into a URL git can clone, and keeping the loaded files of
    one language. Scanning and cloning are file-system and process I/O and
    are not part of this model; the loaded files are an input. */
module CodeLoader {
  import opened Text

  // ---------------------------------------------------------------------
  // _normalize_github_url
  // ---------------------------------------------------------------------

  /** The three tails the normaliser cuts off with re.sub:
      '/tree/<x>...', '/blob/<x>...' and '/pulls...', '/issues...' and the
      other repository pages. */
  datatype Tail = TreeTail | BlobTail | PageTail

  /** The repository pages whose tails are cut off. */
  predicate PageWordAt(s: string, i: nat)
    requires i <= |s|
  {
    var t := s[i..];
    StartsWith(t, "pulls") || StartsWith(t, "issues") || StartsWith(t, "actions")
    || StartsWith(t, "wiki") || StartsWith(t, "projects") || StartsWith(t, "releases")
    || StartsWith(t, "tags") || StartsWith(t, "commits")
  }

  /** The tail's regular expression matches from position i of s. Each
      pattern ends in `.*$`, which then takes the rest of the text. */
  predicate MatchAt(t: Tail, s: string, i: nat) {
    match t
    case TreeTail => i + 6 < |s| && s[i..i + 6] == "/tree/" && s[i + 6] != '/'
    case BlobTail => i + 6 < |s| && s[i..i + 6] == "/blob/" && s[i + 6] != '/'
    case PageTail => i < |s| && s[i] == '/' && PageWordAt(s, i + 1)
  }

  predicate NoMatch(t: Tail, s: string) {
    forall i :: 0 <= i < |s| ==> !MatchAt(t, s, i)
  }

  /** The leftmost position from i on where the tail matches, or |s|. */
  function FirstMatch(t: Tail, s: string, i: nat): (j: nat)
    requires i <= |s|
    ensures i <= j <= |s|
    ensures j < |s| ==> MatchAt(t, s, j)
    ensures forall k :: i <= k < j ==> !MatchAt(t, s, k)
    decreases |s| - i
  {
    if i == |s| then |s| else if MatchAt(t, s, i) then i else FirstMatch(t, s, i + 1)
  }

  /** re.sub(pattern, '', s): the leftmost match runs to the end of the
      text, so everything from it on goes and no second match is left. */
  function CutTail(t: Tail, s: string): (r: string)
    ensures StartsWith(s, r)
  {
    s[..FirstMatch(t, s, 0)]
  }

  /** A match inside a prefix is a match in the whole text. */
  lemma MatchInPrefix(t: Tail, s: string, n: nat, i: nat)
    requires n <= |s| && MatchAt(t, s[..n], i)
    ensures MatchAt(t, s, i)
  {
    var p := s[..n];
    match t
    case TreeTail => assert p[i..i + 6] == s[i..i + 6];
    case BlobTail => assert p[i..i + 6] == s[i..i + 6];
    case PageTail =>
      var a, b := p[i + 1..], s[i + 1..];
      assert a == b[..|a|];
      forall w: string | StartsWith(a, w) ensures StartsWith(b, w) {
        assert b[..|w|] == a[..|w|];
      }
  }

  /** Cutting leaves no match of the tail, keeps a text that has none, and
      cuts only texts that have one. */
  lemma CutTailSpec(t: Tail, s: string)
    ensures NoMatch(t, CutTail(t, s))
    ensures CutTail(t, s) == s <==> NoMatch(t, s)
  {
    var j := FirstMatch(t, s, 0);
    forall i | 0 <= i < j ensures !MatchAt(t, s[..j], i) {
      if MatchAt(t, s[..j], i) {
        MatchInPrefix(t, s, j, i);
      }
    }
  }

  /** Cutting one tail keeps the absence of another. */
  lemma CutKeepsNoMatch(t: Tail, u: Tail, s: string)
    requires NoMatch(u, s)
    ensures NoMatch(u, CutTail(t, s))
  {
    var j := FirstMatch(t, s, 0);
    forall i | 0 <= i < j ensures !MatchAt(u, s[..j], i) {
      if MatchAt(u, s[..j], i) {
        MatchInPrefix(u, s, j, i);
      }
    }
  }

  /** The URL after trimming, removing trailing slashes and adding the
      scheme to a bare 'github.com...' address. */
  function Prepared(url: string): string {
    WithScheme(StripRightChar(Strip(url), '/'))
  }

  function WithScheme(u: string): string {
    if StartsWith(u, "github.com") then "https://" + u else u
  }

  /** The prepared URL with the three tails cut off in turn. */
  function Stem(url: string): string {
    CutTail(PageTail, CutTail(BlobTail, CutTail(TreeTail, Prepared(url))))
  }

  /** The last step: '.git' is added to an https URL that lacks it. */
  function WithGitSuffix(u: string): (r: string)
    ensures StartsWith(r, "https://") ==> EndsWith(r, ".git")
    ensures StartsWith(u, "https://") && !EndsWith(u, ".git") ==> r == u + ".git"
    ensures !(StartsWith(u, "https://") && !EndsWith(u, ".git")) ==> r == u
  {
    if StartsWith(u, "https://") && !EndsWith(u, ".git") then
      var r := u + ".git";
      assert r[..8] == u[..8];
      assert r[|r| - 4..] == ".git";
      r
    else u
  }

  /** _normalize_github_url. */
  function NormalizeGithubUrl(url: string): (r: string)
    ensures StartsWith(Strip(url), "git@") ==> r == Strip(url)
    ensures StartsWith(r, "https://") ==> EndsWith(r, ".git")
  {
    var u := Strip(url);
    if StartsWith(u, "git@") then
      assert !StartsWith(u, "https://") by { assert u[0] == 'g'; }
      u
    else WithGitSuffix(Stem(url))
  }

  /** Every non-SSH result is the stem, with '.git' added when it is an
      https URL without it; the stem is a prefix of the prepared URL with no
      tree, blob or page tail left, and is the whole prepared URL when it
      had none of them. */
  lemma NormalizeShape(url: string)
    requires !StartsWith(Strip(url), "git@")
    ensures NormalizeGithubUrl(url) == Stem(url) || NormalizeGithubUrl(url) == Stem(url) + ".git"
    ensures StartsWith(Prepared(url), Stem(url))
    ensures NoMatch(TreeTail, Stem(url)) && NoMatch(BlobTail, Stem(url)) && NoMatch(PageTail, Stem(url))
    ensures NoMatch(TreeTail, Prepared(url)) && NoMatch(BlobTail, Prepared(url)) && NoMatch(PageTail, Prepared(url))
            ==> Stem(url) == Prepared(url)
  {
    var u2 := Prepared(url);
    var u3 := CutTail(TreeTail, u2);
    var u4 := CutTail(BlobTail, u3);
    CutTailSpec(TreeTail, u2);
    CutTailSpec(BlobTail, u3);
    CutTailSpec(PageTail, u4);
    CutKeepsNoMatch(BlobTail, TreeTail, u3);
    CutKeepsNoMatch(PageTail, TreeTail, u4);
    CutKeepsNoMatch(PageTail, BlobTail, u4);
    StartsWithTrans(u2, u3, u4);
    StartsWithTrans(u2, u4, Stem(url));
  }

  lemma StartsWithTrans(a: string, b: string, c: string)
    requires StartsWith(a, b) && StartsWith(b, c)
    ensures StartsWith(a, c)
  {
    assert a[..|c|] == a[..|b|][..|c|];
  }

  /** Every repository page name starts with one of these letters. */
  lemma PageWordFirst(s: string, i: nat)
    requires i < |s| && PageWordAt(s, i)
    ensures s[i] in "piawrtc"
  {
    var t := s[i..];
    assert t[0] == s[i];
  }

  /** No tail matches inside the first 18 characters of a URL that starts
      with 'https://github.com'. */
  lemma NoMatchInHost(t: Tail, s: string, i: nat)
    requires StartsWith(s, "https://github.com") && i < 18
    ensures !MatchAt(t, s, i)
  {
    var host := "https://github.com";
    assert s[..18] == host;
    assert s[i] == host[i] by {
      assert s[..18][i] == s[i];
    }
    HostSlashes(i);
    if i == 6 || i == 7 {
      assert s[i + 1] == '/' || s[i + 1] == 'g' by {
        assert s[..18][i + 1] == s[i + 1];
      }
      if i + 6 < |s| {
        var w := s[i..i + 6];
        assert w[1] == s[i + 1];
        assert w != "/tree/" && w != "/blob/" by {
          assert "/tree/"[1] == 't' && "/blob/"[1] == 'b';
        }
      }
      if t == PageTail && PageWordAt(s, i + 1) {
        PageWordFirst(s, i + 1);
      }
    } else {
      assert s[i] != '/';
      if i + 6 < |s| {
        assert s[i..i + 6][0] == s[i];
      }
    }
  }

  /** The only slashes in 'https://github.com' are the two after the
      scheme, and the characters after them are '/' and 'g'. */
  lemma HostSlashes(i: nat)
    requires i < 18
    ensures "https://github.com"[i] == '/' <==> i == 6 || i == 7
    ensures i == 6 || i == 7 ==> "https://github.com"[i + 1] == '/' || "https://github.com"[i + 1] == 'g'
  {
  }

  /** Cutting a tail keeps a 'https://github.com' start. */
  lemma CutKeepsHost(t: Tail, s: string)
    requires StartsWith(s, "https://github.com")
    ensures StartsWith(CutTail(t, s), "https://github.com")
  {
    var j := FirstMatch(t, s, 0);
    if j < 18 {
      NoMatchInHost(t, s, j);
    }
    assert s[..j][..18] == s[..18];
  }

  /** Removing trailing slashes keeps a prefix that does not end in one. */
  lemma SlashTrimKeeps(u: string, p: string)
    requires StartsWith(u, p) && |p| > 0 && p[|p| - 1] != '/'
    ensures StartsWith(StripRightChar(u, '/'), p)
  {
    var u1 := StripRightChar(u, '/');
    assert u[|p| - 1] != '/';
    assert u1[..|p|] == u[..|p|];
  }

  lemma SchemeAdded(u: string)
    requires StartsWith(u, "github.com")
    ensures StartsWith(WithScheme(u), "https://github.com")
  {
    assert ("https://" + u)[..18] == "https://" + u[..10];
  }

  /** Trimming slashes and adding the scheme keeps a 'github.com' start. */
  lemma PreparedHost(url: string)
    requires StartsWith(Strip(url), "github.com")
    ensures StartsWith(Prepared(url), "https://github.com")
  {
    var u := Strip(url);
    SlashTrimKeeps(u, "github.com");
    SchemeAdded(StripRightChar(u, '/'));
  }

  /** A bare 'github.com...' address gains the https scheme. */
  lemma GithubGainsScheme(url: string)
    requires StartsWith(Strip(url), "github.com")
    ensures StartsWith(NormalizeGithubUrl(url), "https://github.com")
  {
    PreparedHost(url);
    var u2 := Prepared(url);
    var u3 := CutTail(TreeTail, u2);
    var u4 := CutTail(BlobTail, u3);
    CutKeepsHost(TreeTail, u2);
    CutKeepsHost(BlobTail, u3);
    CutKeepsHost(PageTail, u4);
    NotSsh(Strip(url));
    GitSuffixKeepsStart(Stem(url), "https://github.com");
  }

  lemma NotSsh(u: string)
    requires StartsWith(u, "github.com")
    ensures !StartsWith(u, "git@")
  {
    assert u[3] == 'h';
  }

  lemma GitSuffixKeepsStart(u: string, p: string)
    requires StartsWith(u, p)
    ensures StartsWith(WithGitSuffix(u), p)
  {
    assert (u + ".git")[..|p|] == u[..|p|];
  }

  /** An https URL ending in '.git', with no surrounding space and none of
      the tails, comes back unchanged. */
  lemma CloneUrlUnchanged(url: string)
    requires Strip(url) == url
    requires StartsWith(url, "https://") && EndsWith(url, ".git")
    requires NoMatch(TreeTail, url) && NoMatch(BlobTail, url) && NoMatch(PageTail, url)
    ensures NormalizeGithubUrl(url) == url
  {
    assert url[|url| - 1] == 't';
    assert StripRightChar(url, '/') == url;
    assert !StartsWith(url, "github.com") by { assert url[0] == 'h'; }
    assert Prepared(url) == url;
    CutTailSpec(TreeTail, url);
    CutTailSpec(BlobTail, url);
    CutTailSpec(PageTail, url);
  }

  // ---------------------------------------------------------------------
  // filter_by_language
  // ---------------------------------------------------------------------

  /** One entry of the scanned file list. */
  datatype LoadedFile = LoadedFile(
    path: string, relativePath: string, name: string, extension: string,
    size: nat, lines: nat, content: string)

  /** filter_by_language's table of extensions per language. */
  const LanguageExtensions: map<string, seq<string>> := map[
    "python" := [".py"],
    "javascript" := [".js", ".jsx"],
    "java" := [".java"],
    "cpp" := [".cpp", ".h", ".hpp"],
    "c" := [".c", ".h"]]

  /** The extensions kept for a language name, whatever its case; an
      unknown language falls back to Python's. */
  function TargetExtensions(language: string): (r: seq<string>)
    ensures LowerAscii(language) !in LanguageExtensions ==> r == [".py"]
    ensures LowerAscii(language) in LanguageExtensions ==> r == LanguageExtensions[LowerAscii(language)]
  {
    var l := LowerAscii(language);
    if l in LanguageExtensions then LanguageExtensions[l] else [".py"]
  }

  /** filter_by_language: the files whose extension is one of the
      language's, in their order. */
  function FilterByLanguage(files: seq<LoadedFile>, language: string): (r: seq<LoadedFile>)
    ensures |r| <= |files|
    ensures forall f :: f in r <==> f in files && f.extension in TargetExtensions(language)
    decreases |files|
  {
    if |files| == 0 then []
    else
      var init, last := files[..|files| - 1], files[|files| - 1];
      assert forall f :: f in files <==> f in init || f == last;
      FilterByLanguage(init, language) + (if last.extension in TargetExtensions(language) then [last] else [])
  }

  /** The filter keeps the order of the files: filtering a concatenation
      concatenates the filtered parts. */
  lemma {:induction false} FilterAppend(a: seq<LoadedFile>, b: seq<LoadedFile>, language: string)
    ensures FilterByLanguage(a + b, language) == FilterByLanguage(a, language) + FilterByLanguage(b, language)
    decreases |b|
  {
    if |b| == 0 {
      assert a + b == a;
    } else {
      var b0 := b[..|b| - 1];
      assert (a + b)[..|a + b| - 1] == a + b0;
      assert (a + b)[|a + b| - 1] == b[|b| - 1];
      FilterAppend(a, b0, language);
    }
  }

  lemma LowerAsciiIdempotent(s: string)
    ensures LowerAscii(LowerAscii(s)) == LowerAscii(s)
  {
  }

  /** The language name is case-insensitive, and the default 'python'
      keeps exactly the '.py' files. */
  lemma LanguageNames(language: string, f: LoadedFile, files: seq<LoadedFile>)
    ensures TargetExtensions(LowerAscii(language)) == TargetExtensions(language)
    ensures f in FilterByLanguage(files, "python") <==> f in files && f.extension == ".py"
  {
    LowerAsciiIdempotent(language);
    assert LowerAscii("python") == "python";
  }
}
