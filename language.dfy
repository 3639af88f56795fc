/**
 * The language resolver of src/utils/language.ts: the site serves Greek at
 * `/...` and English at `/en/...`; these total string functions detect the
 * language of a path and rewrite a path between the two variants.
 */
module Language {
  import opened Text

  datatype Lang = El | En

  /** The default language when a path carries no English prefix. */
  const DefaultLanguage: Lang := El

  const EnPrefix: string := "/en"

  /** `getLanguageFromPath`: English exactly when the path starts with `/en`. */
  function GetLanguageFromPath(pathname: string): (l: Lang)
    ensures l == En <==> StartsWith(pathname, EnPrefix)
    ensures l == El <==> !StartsWith(pathname, EnPrefix)
  {
    if StartsWith(pathname, EnPrefix) then En else El
  }

  /** `addLanguageToPath`: Greek leaves the path alone; English prefixes `/en` onto the path with a leading `/` ensured. */
  function AddLanguageToPath(path: string, language: Lang): (r: string)
    ensures language == El ==> r == path
    ensures language == En && StartsWith(path, "/") ==> r == EnPrefix + path
    ensures language == En && !StartsWith(path, "/") ==> r == "/en/" + path
    ensures language == En ==> StartsWith(r, "/en/")
  {
    if language == El then path
    else
      var normalizedPath := if StartsWith(path, "/") then path else "/" + path;
      EnPrefix + normalizedPath
  }

  /** `removeLanguageFromPath`: drops the first three characters iff they are `/en`. */
  function RemoveLanguageFromPath(path: string): (r: string)
    ensures StartsWith(path, EnPrefix) ==> |r| == |path| - 3 && path == EnPrefix + r
    ensures !StartsWith(path, EnPrefix) ==> r == path
  {
    if StartsWith(path, EnPrefix) then path[3..] else path
  }

  /** `switchLanguage`: strip any English prefix, special-case the root `/`, then add the target's prefix. */
  function SwitchLanguage(pathname: string, targetLanguage: Lang): string
  {
    var currentPath := RemoveLanguageFromPath(pathname);
    if currentPath == "/" then (if targetLanguage == En then "/en" else "/")
    else AddLanguageToPath(currentPath, targetLanguage)
  }

  /** `getLanguagePrefix` */
  function GetLanguagePrefix(language: Lang): string
  {
    if language == En then "/en" else ""
  }

  lemma StartsWithConcat(a: string, b: string)
    ensures StartsWith(a + b, a)
  {
    assert (a + b)[..|a|] == a;
  }

  /** A path that begins with `/en`, such as `/english`, is read as English. */
  lemma EnglishWordIsEnglish()
    ensures GetLanguageFromPath("/english") == En
    ensures GetLanguageFromPath("/en") == En
    ensures GetLanguageFromPath("/") == El
    ensures GetLanguageFromPath("") == El
  {
    assert "/english"[..3] == "/en";
  }

  /** Round trip: removing the prefix that was just added gives the path with its leading `/` ensured. */
  lemma RemoveAfterAdd(p: string)
    ensures StartsWith(p, "/") ==> RemoveLanguageFromPath(AddLanguageToPath(p, En)) == p
    ensures !StartsWith(p, "/") ==> RemoveLanguageFromPath(AddLanguageToPath(p, En)) == "/" + p
  {
    var q := AddLanguageToPath(p, En);
    StartsWithConcat(EnPrefix, q[3..]);
    assert q == EnPrefix + q[3..];
  }

  /** Adding a language equals prepending its prefix, for every path that starts with `/`. */
  lemma AddIsPrefix(p: string, l: Lang)
    requires StartsWith(p, "/")
    ensures AddLanguageToPath(p, l) == GetLanguagePrefix(l) + p
  {
    if l == El {
      assert "" + p == p;
    }
  }

  /** The root rule: `/` and `/en/` both strip to `/` and switch to `/en` or `/`. */
  lemma SwitchRoot(l: Lang)
    ensures SwitchLanguage("/", l) == (if l == En then "/en" else "/")
    ensures SwitchLanguage("/en/", l) == (if l == En then "/en" else "/")
  {
    assert !StartsWith("/", EnPrefix);
    assert "/en/"[..3] == EnPrefix;
    assert "/en/"[3..] == "/";
  }

  /** A Greek path `p` (starts with `/`, not with `/en`, not the root) and its English twin `/en`+`p` switch into each other, and switching is idempotent on them. */
  lemma SwitchOrdinaryPath(p: string)
    requires StartsWith(p, "/") && !StartsWith(p, EnPrefix) && p != "/"
    ensures SwitchLanguage(p, En) == EnPrefix + p
    ensures SwitchLanguage(p, El) == p
    ensures SwitchLanguage(EnPrefix + p, El) == p
    ensures SwitchLanguage(EnPrefix + p, En) == EnPrefix + p
    ensures SwitchLanguage(SwitchLanguage(p, En), En) == SwitchLanguage(p, En)
    ensures SwitchLanguage(SwitchLanguage(p, El), El) == SwitchLanguage(p, El)
  {
    var q := EnPrefix + p;
    StartsWithConcat(EnPrefix, p);
    assert q[3..] == p;
  }

  /** On the bare `/en` the root rule is missed: English gives `/en/`, Greek gives the empty string, and switching to English is not idempotent. */
  lemma SwitchBareEnPrefix()
    ensures SwitchLanguage("/en", En) == "/en/"
    ensures SwitchLanguage("/en/", En) == "/en"
    ensures SwitchLanguage("/en", El) == ""
    ensures SwitchLanguage(SwitchLanguage("/en", En), En) != SwitchLanguage("/en", En)
  {
    assert "/en"[..3] == EnPrefix;
    assert "/en"[3..] == "";
    assert !StartsWith("", "/");
    assert "/en/"[..3] == EnPrefix;
    assert "/en/"[3..] == "/";
  }

  /**
   * The as-written `switchLanguage` is not idempotent on the root: `/`
   * switches to `/en`, which switches again to `/en/`.
   */
  lemma SwitchRootNotIdempotent()
    ensures SwitchLanguage("/", En) == "/en"
    ensures SwitchLanguage(SwitchLanguage("/", En), En) == "/en/"
  {
    SwitchRoot(En);
    SwitchBareEnPrefix();
  }

  /**
   * The evidently intended `switchLanguage`: the stripped path `""` (from
   * `/en` or `""`) is a root as well as `/`.
   */
  function SwitchLanguageFixed(pathname: string, targetLanguage: Lang): (r: string)
    ensures r != ""
    ensures targetLanguage == En ==> StartsWith(r, EnPrefix)
    ensures RemoveLanguageFromPath(pathname) != "" ==> r == SwitchLanguage(pathname, targetLanguage)
  {
    var currentPath := RemoveLanguageFromPath(pathname);
    if currentPath == "/" || currentPath == "" then (if targetLanguage == En then "/en" else "/")
    else
      var r := AddLanguageToPath(currentPath, targetLanguage);
      assert r != "" by {
        if targetLanguage == El { assert r == currentPath; }
      }
      assert targetLanguage == En ==> r[..3] == EnPrefix by {
        if targetLanguage == En { assert StartsWith(r, "/en/"); }
      }
      r
  }

  /** The corrected switch to English is idempotent on every path. */
  lemma SwitchFixedIdempotentEn(p: string)
    ensures SwitchLanguageFixed(SwitchLanguageFixed(p, En), En) == SwitchLanguageFixed(p, En)
  {
    var c := RemoveLanguageFromPath(p);
    var r := SwitchLanguageFixed(p, En);
    if c == "/" || c == "" {
      assert r == "/en";
      assert "/en"[..3] == EnPrefix;
      assert RemoveLanguageFromPath(r) == "";
    } else {
      var n := if StartsWith(c, "/") then c else "/" + c;
      assert r == EnPrefix + n;
      StartsWithConcat(EnPrefix, n);
      assert r[3..] == n;
      assert RemoveLanguageFromPath(r) == n;
      assert StartsWith(n, "/") by {
        if !StartsWith(c, "/") { assert ("/" + c)[..1] == "/"; }
      }
      assert n != "/" by {
        if !StartsWith(c, "/") { assert |n| == |c| + 1; }
      }
      assert n != "";
    }
  }

  /** The corrected switch treats `/en` as the English root and sends it to `/` in Greek. */
  lemma SwitchFixedBareEnPrefix()
    ensures SwitchLanguageFixed("/en", El) == "/"
    ensures SwitchLanguageFixed("/en", En) == "/en"
    ensures SwitchLanguageFixed("/", En) == "/en"
  {
    assert "/en"[..3] == EnPrefix;
    assert "/en"[3..] == "";
    assert !StartsWith("/", EnPrefix);
  }
}
