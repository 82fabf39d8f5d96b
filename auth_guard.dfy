/**
 * The page check of auth-guard.js (lines 6-14):
 *
 *   currentPage = window.location.pathname.split('/').pop() || 'index.html'
 *   protected   = PROTECTED_PAGES.includes(currentPage)
 *
 * The path name is a parameter instead of being read from `window.location`.
 */
module AuthGuard {

  /** The pages that require authentication. */
  const PROTECTED_PAGES: seq<string> := ["admin.html"]

  /** The page assumed when the path ends in '/' or is empty. */
  const DEFAULT_PAGE: string := "index.html"

  /** `s.split('/')`: the pieces between the separators, always at least one. */
  function Split(s: string): (pieces: seq<string>)
    ensures |pieces| >= 1
  {
    if s == [] then [[]]
    else
      var rest := Split(s[1..]);
      if s[0] == '/' then [[]] + rest
      else [[s[0]] + rest[0]] + rest[1..]
  }

  /** `pieces.join('/')`. */
  function Join(pieces: seq<string>): string
    requires |pieces| >= 1
  {
    if |pieces| == 1 then pieces[0] else pieces[0] + "/" + Join(pieces[1..])
  }

  /** Splitting on '/' loses nothing: joining the pieces gives back the path. */
  lemma {:induction false} JoinSplit(s: string)
    ensures Join(Split(s)) == s
  {
    if s != [] {
      JoinSplit(s[1..]);
      var rest := Split(s[1..]);
      if s[0] == '/' {
        assert Join(Split(s)) == [] + "/" + Join(rest);
      } else if |rest| == 1 {
        assert Join(Split(s)) == [s[0]] + rest[0];
      } else {
        assert Split(s)[1..] == rest[1..];
        assert Join(Split(s)) == ([s[0]] + rest[0]) + "/" + Join(rest[1..]);
      }
    }
  }

  /** The path splits into a single piece exactly when it contains no '/'. */
  lemma {:induction false} SinglePieceIffNoSlash(s: string)
    ensures |Split(s)| == 1 <==> '/' !in s
  {
    if s != [] {
      SinglePieceIffNoSlash(s[1..]);
      assert s == [s[0]] + s[1..];
    }
  }

  /** Splitting distributes over a separator: the pieces on either side of it are kept. */
  lemma {:induction false} SplitAtSlash(a: string, b: string)
    ensures Split(a + "/" + b) == Split(a) + Split(b)
  {
    if a == [] {
      assert a + "/" + b == "/" + b;
      assert ("/" + b)[1..] == b;
    } else {
      var s := a + "/" + b;
      assert s[0] == a[0];
      assert s[1..] == a[1..] + "/" + b;
      SplitAtSlash(a[1..], b);
    }
  }

  /**
   * The last piece of a split is the longest tail of the string without a
   * '/': it is a suffix, holds no '/', and is preceded by a '/' unless it is
   * the whole string.
   */
  lemma {:induction false} LastPieceIsTail(s: string)
    ensures var seg := Split(s)[|Split(s)| - 1];
            && |seg| <= |s| && s[|s| - |seg|..] == seg && '/' !in seg
            && (|seg| < |s| ==> s[|s| - |seg| - 1] == '/')
  {
    if s != [] {
      var rest := Split(s[1..]);
      var tail := rest[|rest| - 1];
      LastPieceIsTail(s[1..]);
      assert s[1..][|s| - 1 - |tail|..] == s[|s| - |tail|..];
      if s[0] == '/' {
        assert Split(s)[|Split(s)| - 1] == tail;
      } else if |rest| == 1 {
        SinglePieceIffNoSlash(s[1..]);
        assert tail == s[1..];
        assert Split(s) == [[s[0]] + tail];
        assert [s[0]] + s[1..] == s;
      } else {
        assert Split(s)[|Split(s)| - 1] == tail;
        if |tail| == |s| - 1 {
          assert tail == s[1..];
          SinglePieceIffNoSlash(s[1..]);
          assert false;
        }
        assert s[1..][|s| - 1 - |tail| - 1] == s[|s| - |tail| - 1];
      }
    }
  }

  /** `split('/').pop()`: the text after the last '/', or the whole path when it has none. */
  function LastSegment(path: string): (seg: string)
    ensures |seg| <= |path| && path[|path| - |seg|..] == seg
    ensures '/' !in seg
    ensures |seg| < |path| ==> path[|path| - |seg| - 1] == '/'
  {
    LastPieceIsTail(path);
    var pieces := Split(path);
    pieces[|pieces| - 1]
  }

  /** A path with no '/' is its own last segment. */
  lemma NoSlashIsWhole(path: string)
    requires '/' !in path
    ensures LastSegment(path) == path
  {
    SinglePieceIffNoSlash(path);
    JoinSplit(path);
  }

  /** The last segment is the text after the last '/' of the path. */
  lemma AfterLastSlash(path: string, k: nat)
    requires k < |path| && path[k] == '/' && '/' !in path[k + 1..]
    ensures LastSegment(path) == path[k + 1..]
  {
    assert path == path[..k] + "/" + path[k + 1..];
    SplitAtSlash(path[..k], path[k + 1..]);
    NoSlashIsWhole(path[k + 1..]);
  }

  /** Everything up to the last '/' is ignored. */
  lemma OnlyLastSegmentMatters(dir: string, name: string)
    ensures LastSegment(dir + "/" + name) == LastSegment(name)
  {
    SplitAtSlash(dir, name);
  }

  /** `split('/').pop() || 'index.html'`: an empty last segment means the index page. */
  function CurrentPage(path: string): (page: string)
    ensures page != ""
    ensures LastSegment(path) != "" ==> page == LastSegment(path)
    ensures LastSegment(path) == "" ==> page == DEFAULT_PAGE
  {
    var last := LastSegment(path);
    if last == "" then DEFAULT_PAGE else last
  }

  /** `isProtectedPage`: exact, case-sensitive membership in PROTECTED_PAGES. */
  function IsProtectedPage(path: string): (protected: bool)
    ensures protected <==> LastSegment(path) == "admin.html"
  {
    CurrentPage(path) in PROTECTED_PAGES
  }

  /** Paths naming the same page after their last '/' get the same answer. */
  lemma ProtectionIgnoresDirectories(dir: string, name: string)
    ensures IsProtectedPage(dir + "/" + name) == IsProtectedPage(name)
  {
    OnlyLastSegmentMatters(dir, name);
  }

  /** The site root and the empty path both mean the public index page. */
  lemma RootIsIndex()
    ensures CurrentPage("/") == "index.html" && !IsProtectedPage("/")
    ensures CurrentPage("") == "index.html" && !IsProtectedPage("")
  {
    assert Split("") == [[]];
    assert Split("/") == [[], []];
  }

  /** A top-level page is judged by its own name. */
  lemma TopLevelPage(name: string)
    requires name != "" && '/' !in name
    ensures CurrentPage("/" + name) == name
    ensures IsProtectedPage("/" + name) <==> name == "admin.html"
  {
    var path := "/" + name;
    assert path == "" + "/" + name;
    OnlyLastSegmentMatters("", name);
    NoSlashIsWhole(name);
    assert LastSegment(path) == name;
  }

  /** A page in a directory is judged by its own name. */
  lemma NestedPage(dir: string, name: string)
    requires '/' !in name
    ensures IsProtectedPage(dir + "/" + name) <==> name == "admin.html"
  {
    OnlyLastSegmentMatters(dir, name);
    NoSlashIsWhole(name);
  }

  /** "/index.html" is public. */
  lemma IndexIsPublic()
    ensures !IsProtectedPage("/index.html")
  {
    TopLevelPage("index.html");
  }

  /** "/admin.html" is protected. */
  lemma AdminIsProtected()
    ensures IsProtectedPage("/admin.html")
  {
    TopLevelPage("admin.html");
  }

  /** "/a/b/admin.html" is protected like "/admin.html". */
  lemma NestedAdminIsProtected()
    ensures IsProtectedPage("/a/b/admin.html")
  {
    NestedPage("/a/b", "admin.html");
    assert "/a/b" + "/" + "admin.html" == "/a/b/admin.html";
  }

  /** Matching is case-sensitive: "/Admin.html" is public. */
  lemma CaseMatters()
    ensures !IsProtectedPage("/Admin.html")
  {
    TopLevelPage("Admin.html");
  }

  /** Matching is exact: "/admin.html.bak" is public. */
  lemma SuffixMatters()
    ensures !IsProtectedPage("/admin.html.bak")
  {
    TopLevelPage("admin.html.bak");
  }
}
