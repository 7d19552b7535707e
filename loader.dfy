/**
 * The page loader's pure route-name rules (which page a hash, a link or a
 * pathname names) and its rule that a carousel container is given at most
 * one carousel instance.
 */
module Loader {
  import opened Values
  import opened Carousels

  const Home: string := "home"

  /** `hash.replace(/^#\/?/, '')`: drops one leading '#' and then at most one '/'. */
  function StripHash(hash: string): (raw: string)
    ensures |raw| <= |hash| && raw == hash[|hash| - |raw|..]
    ensures hash[..|hash| - |raw|] == "" || hash[..|hash| - |raw|] == "#" || hash[..|hash| - |raw|] == "#/"
    ensures hash[..|hash| - |raw|] == "" <==> !(|hash| > 0 && hash[0] == '#')
    ensures hash[..|hash| - |raw|] == "#" ==> !(|hash| > 1 && hash[1] == '/')
  {
    if |hash| > 0 && hash[0] == '#' then
      if |hash| > 1 && hash[1] == '/' then hash[2..] else hash[1..]
    else hash
  }

  /** The page a hash names when the hash changes: the stripped hash, or "home" when nothing is left. */
  function HashToPage(hash: string): (name: string)
    ensures name != ""
    ensures StripHash(hash) != "" ==> name == StripHash(hash)
    ensures StripHash(hash) == "" ==> name == Home
  {
    var raw := StripHash(hash);
    if raw != "" then raw else Home
  }

  /** The hash a click on a link with `data-page` sets: "" for no page or "home", the page if it starts with '#', else '#' + page. */
  function LinkHash(page: string): (hash: string)
    ensures hash == "" <==> page == "" || page == Home
    ensures hash != "" ==> |hash| >= |page| && hash[0] == '#' && hash[|hash| - |page|..] == page
    ensures hash != "" ==> page != "" && |hash| == |page| + (if page[0] == '#' then 0 else 1)
  {
    if page == "" || page == Home then ""
    else if page[0] == '#' then page
    else "#" + page
  }

  /** `k` slashes. */
  function Slashes(k: nat): (s: string)
    ensures |s| == k
  {
    if k == 0 then "" else "/" + Slashes(k - 1)
  }

  /** Drops every leading '/': what is left follows a run of slashes and does not start with one. */
  function TrimLeadingSlashes(s: string): (r: string)
    ensures |r| <= |s| && s == Slashes(|s| - |r|) + r
    ensures r == "" || r[0] != '/'
  {
    if s != "" && s[0] == '/' then
      var r := TrimLeadingSlashes(s[1..]);
      assert s == "/" + s[1..];
      r
    else
      assert s == Slashes(0) + s;
      s
  }

  /** Drops every trailing '/': what is left precedes a run of slashes and does not end with one. */
  function TrimTrailingSlashes(s: string): (r: string)
    ensures |r| <= |s| && s == r + Slashes(|s| - |r|)
    ensures r == "" || r[|r| - 1] != '/'
  {
    if s != "" && s[|s| - 1] == '/' then
      var r := TrimTrailingSlashes(s[..|s| - 1]);
      SlashesAppend(|s| - 1 - |r|);
      assert s == s[..|s| - 1] + "/";
      r
    else
      assert s == s + Slashes(0);
      s
  }

  lemma {:induction false} SlashesAt(k: nat, j: nat)
    requires j < k
    ensures Slashes(k)[j] == '/'
  {
    if j > 0 {
      SlashesAt(k - 1, j - 1);
    }
  }

  lemma {:induction false} SlashesAppend(k: nat)
    ensures Slashes(k) + "/" == Slashes(k + 1)
  {
    if k > 0 {
      SlashesAppend(k - 1);
      assert Slashes(k) + "/" == "/" + (Slashes(k - 1) + "/");
    }
  }

  /** `s.split('/')[0]`: the longest prefix of `s` without a '/'. */
  function FirstSegment(s: string): (r: string)
    ensures |r| <= |s| && r == s[..|r|]
    ensures '/' !in r
    ensures |r| < |s| ==> s[|r|] == '/'
  {
    if s == "" || s[0] == '/' then "" else [s[0]] + FirstSegment(s[1..])
  }

  /** A page name that a pathname can give: non-empty, without '/', '.' or ':'. */
  predicate PlainName(w: string)
  {
    w != "" && '/' !in w && '.' !in w && ':' !in w
  }

  /**
   * The page a pathname names: leading and trailing slashes are trimmed; an
   * empty path or "index.html" is "home"; otherwise the first '/'-segment,
   * unless that segment holds a '.' or a ':', which gives "home" again.
   */
  function PathToPage(pathname: string): (name: string)
    ensures PlainName(name)
  {
    var rawPath := TrimTrailingSlashes(TrimLeadingSlashes(pathname));
    if rawPath != "" && rawPath != "index.html" then
      var first := FirstSegment(rawPath);
      if '.' !in first && ':' !in first then
        (if first != "" then first else Home)
      else Home
    else Home
  }

  /** The page loaded first: the stripped hash when it is not empty, otherwise the page the pathname names. */
  function InitialPage(hash: string, pathname: string): (name: string)
    ensures name != ""
    ensures StripHash(hash) != "" ==> name == HashToPage(hash)
    ensures StripHash(hash) == "" ==> name == PathToPage(pathname) && PlainName(name)
  {
    var rawHash := StripHash(hash);
    if rawHash != "" then rawHash else PathToPage(pathname)
  }

  /** A link to a page, followed by the hash change it causes, loads that page ("home" for no page). */
  lemma {:induction false} LinkRoundTrip(page: string)
    requires page == "" || (page[0] != '#' && page[0] != '/')
    ensures HashToPage(LinkHash(page)) == if page == "" then Home else page
  {
    if page != "" && page != Home {
      assert LinkHash(page) == "#" + page;
      assert ("#" + page)[1..] == page;
    }
  }

  lemma {:induction false} TrimSlashesBefore(k: nat, t: string)
    requires t == "" || t[0] != '/'
    ensures TrimLeadingSlashes(Slashes(k) + t) == t
  {
    if k == 0 {
      assert Slashes(k) + t == t;
    } else {
      var s := Slashes(k) + t;
      var s' := Slashes(k - 1) + t;
      assert s == "/" + s';
      assert s[0] == '/' && s[1..] == s';
      TrimSlashesBefore(k - 1, t);
    }
  }

  /** A segment `w` with no '/' heads any string that continues with nothing or with a '/'. */
  lemma FirstSegmentOf(w: string, rest: string)
    requires '/' !in w && (rest == "" || rest[0] == '/')
    ensures FirstSegment(w + rest) == w
  {
    var s := w + rest;
    var r := FirstSegment(s);
    forall j | 0 <= j < |w|
      ensures s[j] != '/'
    {
      assert s[j] == w[j] && w[j] in w;
    }
    forall j | 0 <= j < |r|
      ensures s[j] != '/'
    {
      assert s[j] == r[j] && r[j] in r;
    }
    assert |s| > |w| ==> s[|w|] == '/';
    assert |r| == |w|;
  }

  /**
   * Trimming the slashes around a path that starts, after `k` slashes, with
   * a segment `w` followed by nothing or by more segments leaves a path
   * whose first segment is `w`.
   */
  lemma {:induction false} TrimmedPathHead(k: nat, w: string, rest: string)
    requires w != "" && '/' !in w && (rest == "" || rest[0] == '/')
    ensures TrimTrailingSlashes(TrimLeadingSlashes(Slashes(k) + w + rest)) != ""
    ensures FirstSegment(TrimTrailingSlashes(TrimLeadingSlashes(Slashes(k) + w + rest))) == w
  {
    assert Slashes(k) + w + rest == Slashes(k) + (w + rest);
    assert (w + rest)[0] == w[0] && w[0] in w;
    TrimSlashesBefore(k, w + rest);
    TrailingSlashesAfterHead(w, rest);
  }

  lemma TrailingSlashesAfterHead(w: string, rest: string)
    requires w != "" && '/' !in w && (rest == "" || rest[0] == '/')
    ensures TrimTrailingSlashes(w + rest) != ""
    ensures FirstSegment(TrimTrailingSlashes(w + rest)) == w
  {
    var s := w + rest;
    var t := TrimTrailingSlashes(s);
    assert s == t + Slashes(|s| - |t|);
    forall j | |t| <= j < |s|
      ensures s[j] == '/'
    {
      SlashesAt(|s| - |t|, j - |t|);
    }
    assert s[|w| - 1] != '/' by {
      assert s[|w| - 1] == w[|w| - 1] && w[|w| - 1] in w;
    }
    assert |t| >= |w|;
    var tail := rest[..|t| - |w|];
    assert t == s[..|t|];
    assert t == w + tail;
    FirstSegmentOf(w, tail);
  }

  /**
   * Any path whose first segment is a plain name, after any number of
   * leading slashes and followed by nothing or by more segments, names the
   * page of its first segment.
   */
  lemma {:induction false} PathNamesFirstSegment(k: nat, w: string, rest: string)
    requires PlainName(w) && (rest == "" || rest[0] == '/')
    ensures PathToPage(Slashes(k) + w + rest) == w
  {
    TrimmedPathHead(k, w, rest);
    PathOfPlainHead(Slashes(k) + w + rest, w);
  }

  lemma PathOfPlainHead(pathname: string, w: string)
    requires PlainName(w)
    requires TrimTrailingSlashes(TrimLeadingSlashes(pathname)) != ""
    requires FirstSegment(TrimTrailingSlashes(TrimLeadingSlashes(pathname))) == w
    ensures PathToPage(pathname) == w
  {
    IndexHtmlIsOneSegment();
  }

  /** "index.html" is a single segment, and it holds a '.'. */
  lemma IndexHtmlIsOneSegment()
    ensures FirstSegment("index.html") == "index.html"
    ensures '.' in "index.html"
  {
    var index := "index.html";
    FirstSegmentOf(index, "");
    assert index + "" == index;
    assert index[5] == '.';
  }

  /** A path of nothing but slashes (the site root) names "home". */
  lemma {:induction false} RootIsHome(k: nat)
    ensures PathToPage(Slashes(k)) == Home
  {
    TrimSlashesBefore(k, "");
    assert Slashes(k) + "" == Slashes(k);
  }

  /** A first segment holding a '.' or a ':' (a file name, a drive or scheme) names "home". */
  lemma {:induction false} DottedSegmentIsHome(k: nat, w: string, rest: string)
    requires w != "" && '/' !in w && ('.' in w || ':' in w) && (rest == "" || rest[0] == '/')
    ensures PathToPage(Slashes(k) + w + rest) == Home
  {
    TrimmedPathHead(k, w, rest);
  }

  /** The options the loader constructs each carousel with. */
  const LoaderOptions: UserOptions :=
    UserOptions(Some(true), Some(3000), None, None, None, None)

  /**
   * Carousels the loader builds autoplay every 3000 ms, with indicators and
   * controls. This records the options written at assets/load.js:25;
   * `InitCarousels` names each new instance by a number and does not build it.
   */
  lemma LoaderConfiguration()
    ensures Configure(LoaderOptions) == Options(true, 3000, true, true, false, None)
  {
  }

  /** The number of containers that have no carousel instance yet. */
  function Unbound(instances: seq<Option<nat>>): (n: nat)
    ensures n <= |instances|
  {
    if instances == [] then 0
    else Unbound(instances[..|instances| - 1]) + (if instances[|instances| - 1].None? then 1 else 0)
  }

  /**
   * The instances after one pass of the loader: a container that has an
   * instance keeps it, and the others get new instances numbered from
   * `firstId` in document order.
   */
  function Bind(instances: seq<Option<nat>>, firstId: nat): (r: seq<Option<nat>>)
    ensures |r| == |instances|
  {
    if instances == [] then []
    else
      var init := instances[..|instances| - 1];
      var last := instances[|instances| - 1];
      Bind(init, firstId) + [if last.Some? then last else Some(firstId + Unbound(init))]
  }

  /** A pass keeps every existing instance and leaves no container without one. */
  lemma {:induction false} BindKeepsAndFills(instances: seq<Option<nat>>, firstId: nat)
    ensures forall i :: 0 <= i < |instances| ==> Bind(instances, firstId)[i].Some?
    ensures forall i :: 0 <= i < |instances| && instances[i].Some? ==> Bind(instances, firstId)[i] == instances[i]
  {
    if instances != [] {
      var init := instances[..|instances| - 1];
      BindKeepsAndFills(init, firstId);
      assert forall i :: 0 <= i < |init| ==> init[i] == instances[i];
    }
  }

  /** A second pass over the same containers changes nothing: initialising a page twice is idempotent. */
  lemma BindIdempotent(instances: seq<Option<nat>>, firstId: nat, secondId: nat)
    ensures Bind(Bind(instances, firstId), secondId) == Bind(instances, firstId)
  {
    var once := Bind(instances, firstId);
    BindKeepsAndFills(instances, firstId);
    BindKeepsAndFills(once, secondId);
  }

  /** A pass creates one instance per container that had none. */
  lemma {:induction false} BindCreates(instances: seq<Option<nat>>, firstId: nat)
    ensures Unbound(Bind(instances, firstId)) == 0
  {
    if instances != [] {
      var init := instances[..|instances| - 1];
      BindCreates(init, firstId);
      var r := Bind(instances, firstId);
      assert r[..|r| - 1] == Bind(init, firstId);
    }
  }

  /** A container that had no instance gets the next number after those given to earlier containers. */
  lemma {:induction false} BindNew(instances: seq<Option<nat>>, firstId: nat, i: nat)
    requires i < |instances| && instances[i].None?
    ensures Bind(instances, firstId)[i] == Some(firstId + Unbound(instances[..i]))
  {
    var init := instances[..|instances| - 1];
    if i < |init| {
      BindNew(init, firstId, i);
      assert init[..i] == instances[..i];
    }
  }

  lemma {:induction false} UnboundGrows(instances: seq<Option<nat>>, i: nat, j: nat)
    requires i < j <= |instances| && instances[i].None?
    ensures Unbound(instances[..i]) < Unbound(instances[..j])
  {
    if j == i + 1 {
      UnboundPrefix(instances, i);
    } else {
      UnboundGrows(instances, i, j - 1);
      UnboundPrefix(instances, j - 1);
    }
  }

  /** New instances are numbered in document order, so no two share a number. */
  lemma BindOrdered(instances: seq<Option<nat>>, firstId: nat, i: nat, j: nat)
    requires i < j < |instances| && instances[i].None? && instances[j].None?
    ensures Bind(instances, firstId)[i].Some? && Bind(instances, firstId)[j].Some?
    ensures Bind(instances, firstId)[i].value < Bind(instances, firstId)[j].value
  {
    BindNew(instances, firstId, i);
    BindNew(instances, firstId, j);
    UnboundGrows(instances, i, j);
  }

  lemma UnboundPrefix(instances: seq<Option<nat>>, i: nat)
    requires i < |instances|
    ensures Unbound(instances[..i + 1]) == Unbound(instances[..i]) + if instances[i].None? then 1 else 0
  {
    assert instances[..i + 1][..i] == instances[..i];
  }

  lemma BindPrefix(instances: seq<Option<nat>>, firstId: nat, i: nat)
    requires i < |instances|
    ensures Bind(instances[..i + 1], firstId) == Bind(instances[..i], firstId) +
      [if instances[i].Some? then instances[i] else Some(firstId + Unbound(instances[..i]))]
  {
    assert instances[..i + 1][..i] == instances[..i];
  }

  /**
   * Visits the carousel containers of a loaded page in order and gives each
   * one that has no instance yet a new one, numbered from `firstId`.
   */
  method InitCarousels(instances: array<Option<nat>>, firstId: nat) returns (created: nat)
    modifies instances
    ensures instances[..] == Bind(old(instances[..]), firstId)
    ensures created == Unbound(old(instances[..]))
  {
    ghost var before := instances[..];
    created := 0;
    var i := 0;
    while i < instances.Length
      invariant 0 <= i <= instances.Length
      invariant created == Unbound(before[..i])
      invariant instances[..i] == Bind(before[..i], firstId)
      invariant instances[i..] == before[i..]
    {
      UnboundPrefix(before, i);
      BindPrefix(before, firstId, i);
      assert instances[i] == before[i];
      if instances[i].None? {
        instances[i] := Some(firstId + created);
        created := created + 1;
      }
      assert instances[..i + 1] == instances[..i] + [instances[i]];
      i := i + 1;
    }
    assert before[..i] == before;
    assert instances[..i] == instances[..];
  }
}
