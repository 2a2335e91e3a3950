/** The site's base path, as the build configuration derives it: the configured
    base (or the repository name) wrapped in single slashes. */
module ViteConfig {

  import opened Wrappers

  /** The base used when no base is configured in the environment. */
  const DefaultBase: string := "game-hub"

  /** `base.replace(/^\/|\/$/g, "")`: one leading and one trailing slash removed,
      when present. */
  function StripSlashes(base: string): (r: string)
    ensures |r| <= |base|
    ensures base == "/" ==> r == ""
    ensures base != "/" ==>
      base == (if |base| > 0 && base[0] == '/' then "/" else "") + r
              + (if |base| > 0 && base[|base| - 1] == '/' then "/" else "")
  {
    var a := if |base| > 0 && base[0] == '/' then base[1..] else base;
    if |a| > 0 && a[|a| - 1] == '/' then a[..|a| - 1] else a
  }

  /** `normalizeBase`: the empty base and "/" become "/"; anything else is
      stripped of one slash at each end and wrapped in slashes again. */
  function NormalizeBase(base: string): (r: string)
    ensures base == "" || base == "/" ==> r == "/"
    ensures base != "" && base != "/" ==> |r| >= 2 && r[0] == '/' && r[|r| - 1] == '/'
    ensures base != "" && base != "/" ==>
      var lead := if base[0] == '/' then "/" else "";
      var trail := if base[|base| - 1] == '/' then "/" else "";
      base == lead + r[1..|r| - 1] + trail
  {
    if base == "" || base == "/" then "/"
    else
      var r := "/" + StripSlashes(base) + "/";
      assert r[1..|r| - 1] == StripSlashes(base);
      r
  }

  /** Normalising twice is normalising once. */
  lemma NormalizeBaseIdempotent(base: string)
    ensures NormalizeBase(NormalizeBase(base)) == NormalizeBase(base)
  {
    var r := NormalizeBase(base);
    if base != "" && base != "/" {
      var inner := r[1..|r| - 1];
      assert r == "/" + inner + "/";
      assert StripSlashes(r) == inner by {
        assert r[1..] == inner + "/";
        assert (inner + "/")[..|inner|] == inner;
      }
    }
  }

  /** The default base becomes "/game-hub/". */
  lemma DefaultBaseNormalized()
    ensures NormalizeBase(DefaultBase) == "/game-hub/"
  {
    assert StripSlashes(DefaultBase) == DefaultBase;
  }

  /** Only one slash is removed at each end; inner slashes are kept. */
  lemma DoubleSlashesKept()
    ensures NormalizeBase("//a//") == "//a//"
  {
    var a := "//a//"[1..];
    assert a == "/a//";
    assert a[..|a| - 1] == "/a/";
    assert StripSlashes("//a//") == "/a/";
  }

  /** The configured base: the environment's value when set (even if empty),
      otherwise the repository name. */
  function ConfiguredBase(env: Option<string>): (base: string)
    ensures env.None? ==> base == "/game-hub/"
    ensures env == Some("") ==> base == "/"
    ensures |base| > 0 && base[0] == '/' && base[|base| - 1] == '/'
  {
    DefaultBaseNormalized();
    NormalizeBase(env.GetOr(DefaultBase))
  }
}
