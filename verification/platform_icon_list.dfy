/** The row of platform icons on a game card: each parent platform whose slug
    has an icon gets one, in the order listed; other platforms are skipped. */
module PlatformIconList {

  import opened Wrappers
  import opened Rawg

  datatype Icon = Windows | PlayStation | Xbox | Apple | Android | Linux | Steam

  /** `PLATFORM_ICON_MAP`. */
  const IconMap: map<string, Icon> := map[
    "pc" := Windows,
    "playstation" := PlayStation,
    "xbox" := Xbox,
    "ios" := Apple,
    "android" := Android,
    "linux" := Linux,
    "mac" := Apple,
    "nintendo" := Xbox,
    "web" := Steam
  ]

  /** The slugs that have an icon. */
  lemma IconMapKeys()
    ensures IconMap.Keys == {"pc", "playstation", "xbox", "ios", "android", "linux", "mac", "nintendo", "web"}
  {
  }

  /** Apple covers both iOS and macOS, Nintendo borrows the Xbox icon and the web
      the Steam icon. */
  lemma SharedIcons()
    ensures IconMap["ios"] == IconMap["mac"] == Apple
    ensures IconMap["nintendo"] == IconMap["xbox"] == Xbox
    ensures IconMap["web"] == Steam
  {
  }

  /** One rendered icon: keyed by the platform id, with its name as tooltip. */
  datatype IconEntry = IconEntry(key: int, tooltip: string, icon: Icon)

  predicate HasIcon(p: Platform) {
    p.slug in IconMap
  }

  /** The icons for a list of platforms, unknown slugs skipped. */
  function IconsOf(platforms: seq<Platform>): (icons: seq<IconEntry>)
    ensures |icons| <= |platforms|
    ensures forall e :: e in icons ==> exists p :: p in platforms && HasIcon(p) && e == IconEntry(p.id, p.name, IconMap[p.slug])
  {
    if |platforms| == 0 then []
    else
      var p := platforms[0];
      (if HasIcon(p) then [IconEntry(p.id, p.name, IconMap[p.slug])] else []) + IconsOf(platforms[1..])
  }

  /** The icons of two lists side by side are the icons of their concatenation:
      icons keep the order of the platforms. */
  lemma {:induction false} IconsOfConcat(a: seq<Platform>, b: seq<Platform>)
    ensures IconsOf(a + b) == IconsOf(a) + IconsOf(b)
  {
    if |a| == 0 {
      assert a + b == b;
    } else {
      assert (a + b)[1..] == a[1..] + b;
      IconsOfConcat(a[1..], b);
    }
  }

  /** A single platform yields its icon, or nothing for an unknown slug. */
  lemma IconsOfSingle(p: Platform)
    ensures IconsOf([p]) == if HasIcon(p) then [IconEntry(p.id, p.name, IconMap[p.slug])] else []
  {
    assert [p][1..] == [];
  }

  /** The positions of the platforms that have an icon. */
  function KnownPositions(platforms: seq<Platform>): set<int> {
    set i | 0 <= i < |platforms| && HasIcon(platforms[i])
  }

  /** There are as many icons as platforms with a known slug. */
  lemma {:induction false} IconCount(platforms: seq<Platform>)
    ensures |IconsOf(platforms)| == |KnownPositions(platforms)|
  {
    var n := |platforms|;
    if n == 0 {
      assert KnownPositions(platforms) == {};
    } else {
      var init := platforms[..n - 1];
      var last := platforms[n - 1];
      assert platforms == init + [last];
      IconsOfConcat(init, [last]);
      IconsOfSingle(last);
      IconCount(init);
      var known := KnownPositions(init);
      assert n - 1 !in known;
      if HasIcon(last) {
        assert KnownPositions(platforms) == known + {n - 1};
      } else {
        assert KnownPositions(platforms) == known;
      }
    }
  }

  /** The component: nothing at all for an absent or empty list; otherwise the
      icons of the known platforms (possibly none). */
  function PlatformIcons(platforms: Option<seq<Platform>>): (r: Option<seq<IconEntry>>)
    ensures r.None? <==> platforms.None? || |platforms.value| == 0
    ensures r.Some? ==> r.value == IconsOf(platforms.value)
  {
    if platforms.None? || |platforms.value| == 0 then None else Some(IconsOf(platforms.value))
  }
}
