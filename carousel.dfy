/**
 * The carousel: an ordered list of slides with one active slide, one
 * indicator per original slide, per-video playback state and an autoplay
 * timer that is either running or not.
 */
module Carousels {
  import opened Values
  import opened Slides

  /** The options a caller may pass; None is an option left out. */
  datatype UserOptions = UserOptions(
    autoplay: Option<bool>,
    interval: Option<int>,
    indicators: Option<bool>,
    controls: Option<bool>,
    playVideoOnActive: Option<bool>,
    slides: Option<seq<SlideData>>)

  /** The options in force, after the defaults are filled in. */
  datatype Options = Options(
    autoplay: bool,
    interval: int,
    indicators: bool,
    controls: bool,
    playVideoOnActive: bool,
    slides: Option<seq<SlideData>>)

  /** The options object a caller passes when it passes none. */
  const NoOptions: UserOptions := UserOptions(None, None, None, None, None, None)

  /** The caller's options over the defaults autoplay, an interval of 5000, indicators and controls. */
  function Configure(u: UserOptions): (o: Options)
  {
    Options(
      GetOr(u.autoplay, true),
      GetOr(u.interval, 5000),
      GetOr(u.indicators, true),
      GetOr(u.controls, true),
      GetOr(u.playVideoOnActive, false),
      u.slides)
  }

  /** Without options a carousel autoplays every 5000 ms with indicators and controls, and does not play videos. */
  lemma ConfigureDefaults()
    ensures Configure(NoOptions) == Options(true, 5000, true, true, false, None)
  {
  }

  /** Every option the caller gives wins over its default. */
  lemma ConfigureOverrides(u: UserOptions)
    ensures u.autoplay.Some? ==> Configure(u).autoplay == u.autoplay.value
    ensures u.interval.Some? ==> Configure(u).interval == u.interval.value
    ensures u.indicators.Some? ==> Configure(u).indicators == u.indicators.value
    ensures u.controls.Some? ==> Configure(u).controls == u.controls.value
    ensures u.playVideoOnActive.Some? ==> Configure(u).playVideoOnActive == u.playVideoOnActive.value
    ensures Configure(u).slides == u.slides
  {
  }

  /** The playback state of a video element. */
  datatype Player = Player(paused: bool, time: int)

  /** A paused video at its start. */
  const Rewound: Player := Player(true, 0)

  /** A slide node: its `data-index` tag, whether it has the 'active' class, and its video, if any. */
  datatype SlideNode = SlideNode(tag: Option<int>, active: bool, player: Option<Player>)

  /** An indicator button: its `data-index` tag and whether it has the 'active' class. */
  datatype Indicator = Indicator(tag: int, active: bool)

  /** A slide node found in the container's markup, with the state of its video if it holds one. */
  datatype MarkupSlide = MarkupSlide(attrs: Markup, player: Player)

  /** A carousel container: the slide nodes already in its markup, in document order. */
  datatype Container = Container(markup: seq<MarkupSlide>)

  datatype Error = ContainerRequired

  /** The index `next` moves to: `(c + 1) % n`. */
  function NextIndex(c: nat, n: nat): (r: nat)
    requires n > 0
    ensures r < n
    ensures c < n ==> r == if c + 1 == n then 0 else c + 1
  {
    (c + 1) % n
  }

  /** The index `prev` moves to: `(c - 1 + n) % n`. */
  function PrevIndex(c: nat, n: nat): (r: nat)
    requires n > 0
    ensures r < n
    ensures c < n ==> r == if c == 0 then n - 1 else c - 1
  {
    (c - 1 + n) % n
  }

  /** `prev` undoes `next` and `next` undoes `prev`. */
  lemma NextPrevInverse(c: nat, n: nat)
    requires c < n
    ensures PrevIndex(NextIndex(c, n), n) == c
    ensures NextIndex(PrevIndex(c, n), n) == c
  {
  }

  /** The index after a run of `next` (true) and `prev` (false) commands on `n` slides. */
  function Walk(c: nat, n: nat, moves: seq<bool>): (i: nat)
    requires n > 0
    decreases |moves|
  {
    if moves == [] then c
    else Walk(if moves[0] then NextIndex(c, n) else PrevIndex(c, n), n, moves[1..])
  }

  /** The number of `next` commands minus the number of `prev` commands. */
  function Net(moves: seq<bool>): (d: int)
  {
    if moves == [] then 0 else (if moves[0] then 1 else -1) + Net(moves[1..])
  }

  lemma MulWithin(k: int, n: int)
    requires n > 0 && -n < k * n < n
    ensures k == 0
  {
    assert k >= 1 ==> k * n == n + (k - 1) * n;
    assert k <= -1 ==> k * n == -n + (k + 1) * n;
  }

  lemma ModPlusN(y: int, n: int)
    requires n > 0
    ensures (y + n) % n == y % n
  {
    var d, r := y / n, y % n;
    var d', r' := (y + n) / n, (y + n) % n;
    assert (d' - d - 1) * n == r - r';
    MulWithin(d' - d - 1, n);
  }

  lemma {:induction false} ModAddMultiple(x: int, q: int, n: int)
    requires n > 0
    ensures (x + q * n) % n == x % n
    decreases if q < 0 then -q else q
  {
    if q > 0 {
      ModAddMultiple(x, q - 1, n);
      assert x + q * n == (x + (q - 1) * n) + n;
      ModPlusN(x + (q - 1) * n, n);
    } else if q < 0 {
      ModAddMultiple(x, q + 1, n);
      assert x + (q + 1) * n == (x + q * n) + n;
      ModPlusN(x + q * n, n);
    }
  }

  lemma ModOfMod(x: int, y: int, n: int)
    requires n > 0
    ensures (x % n + y) % n == (x + y) % n
  {
    assert x + y == (x % n + y) + (x / n) * n;
    ModAddMultiple(x % n + y, x / n, n);
  }

  /** From any slide, a run of moves ends on the start plus the net count of moves, modulo `n`. */
  lemma {:induction false} WalkIsModularSum(c: nat, n: nat, moves: seq<bool>)
    requires c < n
    ensures Walk(c, n, moves) == (c + Net(moves)) % n
    decreases moves
  {
    if moves != [] {
      var rest := moves[1..];
      var c' := if moves[0] then NextIndex(c, n) else PrevIndex(c, n);
      assert Walk(c, n, moves) == Walk(c', n, rest);
      WalkIsModularSum(c', n, rest);
      if moves[0] {
        assert c' == (c + 1) % n;
        assert c + Net(moves) == c + 1 + Net(rest);
        ModOfMod(c + 1, Net(rest), n);
      } else {
        assert c' == (c - 1 + n) % n;
        assert c + Net(moves) == c - 1 + Net(rest);
        ModOfMod(c - 1 + n, Net(rest), n);
        ModAddMultiple(c - 1 + Net(rest), 1, n);
        assert c - 1 + n + Net(rest) == c - 1 + Net(rest) + 1 * n;
      }
    }
  }

  /** A node's video after it is paused and rewound; a node without a video keeps none. */
  function Halted(p: Option<Player>): (q: Option<Player>)
  {
    if p.Some? then Some(Rewound) else None
  }

  /**
   * The video of the slide that becomes active: left alone unless videos
   * play when active; then it may start playing from where it is (the play
   * request can be refused, which is ignored).
   */
  ghost predicate ActivePlayer(before: Option<Player>, after: Option<Player>, playOnActive: bool)
  {
    after == before ||
    (playOnActive && before.Some? && after == Some(before.value.(paused := false)))
  }

  /**
   * The node the carousel renders for a slide, as the carousel keeps it:
   * untagged, inactive, and holding a paused video at its start when the
   * slide is a video. `Slides.Rendered` is the same rendered node seen from
   * the other side, as the attributes node normalisation would read back
   * from it; `RenderedNodeHasRenderedVideo` ties the two together.
   */
  function RenderedNode(s: Slide): (node: SlideNode)
    ensures node.tag.None? && !node.active
    ensures node.player.Some? <==> s.kind == Video
  {
    SlideNode(None, false, if s.kind == Video then Some(Rewound) else None)
  }

  /** The node kept for a rendered slide holds a video exactly when the rendered markup does. */
  lemma RenderedNodeHasRenderedVideo(s: Slide)
    ensures RenderedNode(s).player.Some? <==> Rendered(s).video.Some?
  {
  }

  function RenderedNodes(ss: seq<Slide>): (ns: seq<SlideNode>)
    ensures |ns| == |ss|
    ensures forall i :: 0 <= i < |ss| ==> ns[i] == RenderedNode(ss[i])
  {
    seq(|ss|, i requires 0 <= i < |ss| => RenderedNode(ss[i]))
  }

  /** A node found in markup, before indexing. */
  function FoundNode(m: MarkupSlide): (node: SlideNode)
  {
    SlideNode(None, false, if m.attrs.video.Some? then Some(m.player) else None)
  }

  /** The slides a new carousel starts with: its markup's slide nodes, else the `slides` option, else none. */
  function InitialSlides(c: Container, o: Options): (ss: seq<Slide>)
    ensures |c.markup| > 0 ==> |ss| == |c.markup| && forall i :: 0 <= i < |ss| ==> ss[i] == FromNode(c.markup[i].attrs)
    ensures |c.markup| == 0 && o.slides.Some? ==> ss == FromDataAll(o.slides.value)
    ensures |c.markup| == 0 && o.slides.None? ==> ss == []
  {
    if |c.markup| > 0 then seq(|c.markup|, i requires 0 <= i < |c.markup| => FromNode(c.markup[i].attrs))
    else if o.slides.Some? then FromDataAll(o.slides.value)
    else []
  }

  /** The slide nodes a new carousel starts with, before indexing: one per initial slide. */
  function InitialNodes(c: Container, o: Options): (ns: seq<SlideNode>)
    ensures |ns| == |InitialSlides(c, o)|
  {
    if |c.markup| > 0 then seq(|c.markup|, i requires 0 <= i < |c.markup| => FoundNode(c.markup[i]))
    else if o.slides.Some? then RenderedNodes(FromDataAll(o.slides.value))
    else []
  }

  /** `querySelector('button.active')`: the first active indicator. */
  function FirstActive(inds: seq<Indicator>): (r: Option<nat>)
    ensures r.Some? ==> r.value < |inds| && inds[r.value].active
    ensures r.Some? ==> forall j :: 0 <= j < r.value ==> !inds[j].active
    ensures r.None? ==> forall j :: 0 <= j < |inds| ==> !inds[j].active
  {
    if inds == [] then None
    else if inds[0].active then Some(0)
    else match FirstActive(inds[1..])
      case None => None
      case Some(k) => Some(k + 1)
  }

  /** `querySelector('button[data-index="<tag>"]')`: the first indicator with that tag. */
  function FirstTagged(inds: seq<Indicator>, tag: int): (r: Option<nat>)
    ensures r.Some? ==> r.value < |inds| && inds[r.value].tag == tag
    ensures r.Some? ==> forall j :: 0 <= j < r.value ==> inds[j].tag != tag
    ensures r.None? ==> forall j :: 0 <= j < |inds| ==> inds[j].tag != tag
  {
    if inds == [] then None
    else if inds[0].tag == tag then Some(0)
    else match FirstTagged(inds[1..], tag)
      case None => None
      case Some(k) => Some(k + 1)
  }

  /** Among indicators tagged by position, the one tagged `tag` is the one at position `tag`. */
  lemma FirstTaggedByPosition(inds: seq<Indicator>, tag: int)
    requires forall k :: 0 <= k < |inds| ==> inds[k].tag == k
    ensures FirstTagged(inds, tag) == if 0 <= tag < |inds| then Some(tag) else None
  {
    if 0 <= tag < |inds| {
      assert inds[tag].tag == tag;
    }
  }

  /** When only the indicator at `c` may be active, that is the first active one, if it is. */
  lemma FirstActiveOfOne(inds: seq<Indicator>, c: nat)
    requires forall k :: 0 <= k < |inds| && inds[k].active ==> k == c
    ensures FirstActive(inds) == if c < |inds| && inds[c].active then Some(c) else None
  {
    var r := FirstActive(inds);
    if r.Some? {
      assert r.value == c;
    }
  }

  class Carousel {
    var options: Options
    /** The normalised slides, in display order. */
    var slides: seq<Slide>
    /** The slide nodes (`slidesNodes`), in document order. */
    var nodes: seq<SlideNode>
    /** Whether the indicator container was built. */
    var hasIndicatorWrap: bool
    var indicators: seq<Indicator>
    /** The index of the active slide. */
    var current: nat
    /** Whether an autoplay timer is set. */
    var timerRunning: bool
    /** How many autoplay timers have been set so far; a new handle is a new count. */
    var timerStarts: nat

    /**
     * One slide node per slide; `current` names a node unless there is
     * none; no node and no indicator but the one at `current` is active;
     * every tag is its node's or indicator's position; and there are never
     * more indicators than slides.
     */
    ghost predicate Valid()
      reads this
    {
      && |slides| == |nodes|
      && (current == 0 || current < |nodes|)
      && (forall i :: 0 <= i < |nodes| && nodes[i].active ==> i == current)
      && (forall i :: 0 <= i < |nodes| && nodes[i].tag.Some? ==> nodes[i].tag.value == i)
      && |indicators| <= |nodes|
      && (!hasIndicatorWrap ==> indicators == [])
      && (forall k :: 0 <= k < |indicators| ==> indicators[k].tag == k)
      && (forall k :: 0 <= k < |indicators| && indicators[k].active ==> k == current)
    }

    /**
     * The carousel shows slide `index`: it is the current slide, the only
     * active node and the only active indicator (no indicator is active when
     * `index` has none), and every other video is paused and rewound.
     */
    ghost predicate Shows(index: nat)
      reads this
    {
      && index < |nodes|
      && current == index
      && (forall i :: 0 <= i < |nodes| ==> (nodes[i].active <==> i == index))
      && (forall k :: 0 <= k < |indicators| ==> (indicators[k].active <==> k == index))
      && (forall i :: 0 <= i < |nodes| && i != index ==> nodes[i].player == Halted(nodes[i].player))
    }

    /**
     * The effect of `goTo(target)`: nothing at all when `target` is the
     * current slide or names no slide; otherwise the carousel shows
     * `target`, every other video is paused and rewound, the target's video
     * is left alone or asked to play, the tags, slides and options stay, and
     * with autoplay on the timer is restarted.
     */
    twostate predicate Navigated(target: int)
      reads this
    {
      if target == old(current) || !(0 <= target < |old(nodes)|) then
        unchanged(this)
      else
        && Shows(target)
        && slides == old(slides)
        && options == old(options)
        && hasIndicatorWrap == old(hasIndicatorWrap)
        && |nodes| == |old(nodes)|
        && (forall i :: 0 <= i < |nodes| ==> nodes[i].tag == old(nodes[i].tag))
        && (forall i :: 0 <= i < |nodes| && i != target ==> nodes[i].player == Halted(old(nodes[i].player)))
        && ActivePlayer(old(nodes[target].player), nodes[target].player, options.playVideoOnActive)
        && |indicators| == |old(indicators)|
        && (options.autoplay ==> timerRunning && timerStarts == old(timerStarts) + 1)
        && (!options.autoplay ==> timerRunning == old(timerRunning) && timerStarts == old(timerStarts))
    }

    /**
     * Builds a carousel on a container: reads the slides from the markup,
     * else from the `slides` option; tags node i with i and activates node
     * 0; builds one indicator per slide, indicator 0 active, when indicators
     * are on; and starts autoplay when it is on.
     */
    constructor (container: Container, opts: UserOptions)
      ensures Valid()
      ensures options == Configure(opts)
      ensures slides == InitialSlides(container, options)
      ensures current == 0
      ensures |nodes| == |InitialNodes(container, options)|
      ensures forall i :: 0 <= i < |nodes| ==>
        nodes[i] == InitialNodes(container, options)[i].(tag := Some(i), active := i == 0)
      ensures hasIndicatorWrap == options.indicators
      ensures |indicators| == (if options.indicators then |slides| else 0)
      ensures forall k :: 0 <= k < |indicators| ==> indicators[k] == Indicator(k, k == 0)
      ensures timerRunning == options.autoplay
      ensures timerStarts == if options.autoplay then 1 else 0
    {
      options := Configure(opts);
      current := 0;
      timerRunning := false;
      timerStarts := 0;
      var o := Configure(opts);
      var ss := InitialSlides(container, o);
      slides := ss;
      var found := InitialNodes(container, o);
      var tagged: seq<SlideNode> := [];
      var i := 0;
      while i < |found|
        invariant 0 <= i <= |found|
        invariant |tagged| == i
        invariant forall j :: 0 <= j < i ==> tagged[j] == found[j].(tag := Some(j), active := j == 0)
      {
        tagged := tagged + [found[i].(tag := Some(i), active := i == 0)];
        i := i + 1;
      }
      nodes := tagged;
      hasIndicatorWrap := o.indicators;
      var inds: seq<Indicator> := [];
      if o.indicators {
        var k := 0;
        while k < |ss|
          invariant 0 <= k <= |ss|
          invariant |inds| == k
          invariant forall j :: 0 <= j < k ==> inds[j] == Indicator(j, j == 0)
        {
          inds := inds + [Indicator(k, k == 0)];
          k := k + 1;
        }
      }
      indicators := inds;
      new;
      if options.autoplay {
        Play();
      }
    }

    /** Construction fails exactly when there is no container. */
    static method Create(container: Option<Container>, opts: UserOptions) returns (r: Result<Carousel, Error>)
      ensures r.Failure? <==> container.None?
      ensures r.Success? ==> fresh(r.value) && r.value.Valid() && r.value.current == 0
      ensures r.Success? ==> r.value.options == Configure(opts)
      ensures r.Success? ==> r.value.slides == InitialSlides(container.value, r.value.options)
    {
      if container.None? {
        return Failure(ContainerRequired);
      }
      var c := new Carousel(container.value, opts);
      r := Success(c);
    }

    /** Starts the autoplay timer unless one is already set. */
    method Play()
      modifies this`timerRunning, this`timerStarts
      ensures timerRunning
      ensures timerStarts == if old(timerRunning) then old(timerStarts) else old(timerStarts) + 1
    {
      if timerRunning {
        return;
      }
      timerRunning := true;
      timerStarts := timerStarts + 1;
    }

    /** Clears the autoplay timer if one is set. */
    method Pause()
      modifies this`timerRunning
      ensures !timerRunning
    {
      if timerRunning {
        timerRunning := false;
      }
    }

    /** The pointer leaves the container: autoplay resumes only when the autoplay option is on. */
    method MouseLeave()
      modifies this`timerRunning, this`timerStarts
      ensures options.autoplay ==> timerRunning
      ensures !options.autoplay ==> unchanged(this)
      ensures timerStarts == if options.autoplay && !old(timerRunning) then old(timerStarts) + 1 else old(timerStarts)
    {
      if options.autoplay {
        Play();
      }
    }

    /**
     * Pauses and rewinds the video of every slide node except the one at
     * `index`; that one is asked to play when videos play when active.
     */
    method PauseAllVideosExcept(index: int)
      requires Valid()
      modifies this`nodes
      ensures Valid()
      ensures |nodes| == |old(nodes)|
      ensures forall i :: 0 <= i < |nodes| ==>
        nodes[i].tag == old(nodes[i].tag) && nodes[i].active == old(nodes[i].active)
      ensures forall i :: 0 <= i < |nodes| && i != index ==> nodes[i].player == Halted(old(nodes[i].player))
      ensures 0 <= index < |nodes| ==>
        ActivePlayer(old(nodes[index].player), nodes[index].player, options.playVideoOnActive)
    {
      var i := 0;
      while i < |nodes|
        invariant 0 <= i <= |nodes| == |old(nodes)|
        invariant forall j :: i <= j < |nodes| ==> nodes[j] == old(nodes[j])
        invariant forall j :: 0 <= j < i ==>
          nodes[j].tag == old(nodes[j].tag) && nodes[j].active == old(nodes[j].active)
        invariant forall j :: 0 <= j < i && j != index ==> nodes[j].player == Halted(old(nodes[j].player))
        invariant 0 <= index < i ==>
          ActivePlayer(old(nodes[index].player), nodes[index].player, options.playVideoOnActive)
      {
        var node := nodes[i];
        if node.player.Some? {
          if i == index {
            if options.playVideoOnActive {
              var accepted: bool := *;
              if accepted {
                nodes := nodes[i := node.(player := Some(node.player.value.(paused := false)))];
              }
            }
          } else {
            nodes := nodes[i := node.(player := Some(Rewound))];
          }
        }
        i := i + 1;
      }
    }

    /** Makes slide `index` the active one; does nothing when it already is or when there is no such slide. */
    method GoTo(index: int)
      requires Valid()
      modifies this
      ensures Valid()
      ensures Navigated(index)
    {
      if index == current {
        return;
      }
      if !(0 <= index < |nodes|) {
        return;
      }
      SetActive(index);
      PauseAllVideosExcept(index);
      if options.autoplay {
        Pause();
        Play();
      }
    }

    /**
     * The class changes of a move: the old slide node loses 'active' and the
     * new one gains it; the first active indicator loses it and the one
     * tagged `index`, if any, gains it.
     */
    method SetActive(index: nat)
      requires Valid() && index < |nodes| && index != current
      modifies this`nodes, this`indicators, this`current
      ensures Valid()
      ensures current == index
      ensures |nodes| == |old(nodes)|
      ensures forall i :: 0 <= i < |nodes| ==> nodes[i] == old(nodes[i]).(active := i == index)
      ensures |indicators| == |old(indicators)|
      ensures forall k :: 0 <= k < |indicators| ==> indicators[k] == Indicator(k, k == index)
    {
      var ns := nodes[current := nodes[current].(active := false)];
      ns := ns[index := ns[index].(active := true)];
      var inds := indicators;
      if hasIndicatorWrap {
        inds := MoveIndicator(indicators, current, index);
      }
      nodes, indicators, current := ns, inds, index;
    }

    /**
     * The indicator half of a move: the first active indicator loses
     * 'active' and the one tagged `index`, if any, gains it, so that only
     * the indicator at `index` is active (none, when `index` has no
     * indicator).
     */
    static method MoveIndicator(inds: seq<Indicator>, from: nat, index: nat) returns (r: seq<Indicator>)
      requires forall k :: 0 <= k < |inds| ==> inds[k].tag == k
      requires forall k :: 0 <= k < |inds| && inds[k].active ==> k == from
      ensures |r| == |inds|
      ensures forall k :: 0 <= k < |r| ==> r[k] == Indicator(k, k == index)
    {
      r := inds;
      FirstActiveOfOne(r, from);
      var prevBtn := FirstActive(r);
      if prevBtn.Some? {
        r := r[prevBtn.value := r[prevBtn.value].(active := false)];
      }
      assert forall k :: 0 <= k < |r| ==> r[k] == Indicator(k, false);
      FirstTaggedByPosition(r, index);
      var newBtn := FirstTagged(r, index);
      if newBtn.Some? {
        r := r[newBtn.value := r[newBtn.value].(active := true)];
      }
    }

    /** Moves to the following slide, wrapping to the first; does nothing when there are no slides. */
    method Next()
      requires Valid()
      modifies this
      ensures Valid()
      ensures old(|nodes|) == 0 ==> unchanged(this)
      ensures old(|nodes|) > 0 ==> Navigated(NextIndex(old(current), old(|nodes|)))
      ensures old(|nodes|) > 0 ==> current == NextIndex(old(current), old(|nodes|))
    {
      if |nodes| == 0 {
        return;
      }
      GoTo(NextIndex(current, |nodes|));
    }

    /** Moves to the preceding slide, wrapping to the last; does nothing when there are no slides. */
    method Prev()
      requires Valid()
      modifies this
      ensures Valid()
      ensures old(|nodes|) == 0 ==> unchanged(this)
      ensures old(|nodes|) > 0 ==> Navigated(PrevIndex(old(current), old(|nodes|)))
      ensures old(|nodes|) > 0 ==> current == PrevIndex(old(current), old(|nodes|))
    {
      if |nodes| == 0 {
        return;
      }
      GoTo(PrevIndex(current, |nodes|));
    }

    /** An autoplay tick: moves to the following slide, but only while a timer is set. */
    method Tick()
      requires Valid()
      modifies this
      ensures Valid()
      ensures !old(timerRunning) || old(|nodes|) == 0 ==> unchanged(this)
      ensures old(timerRunning) && old(|nodes|) > 0 ==> Navigated(NextIndex(old(current), old(|nodes|)))
    {
      if timerRunning {
        Next();
      }
    }

    /**
     * Normalises each data object, renders its node and appends both, in
     * order; the active slide, the indicators and the timer stay as they are.
     */
    method AddSlides(list: seq<SlideData>)
      requires Valid()
      modifies this`slides, this`nodes
      ensures Valid()
      ensures slides == old(slides) + FromDataAll(list)
      ensures nodes == old(nodes) + RenderedNodes(FromDataAll(list))
    {
      var added: seq<SlideNode> := [];
      var i := 0;
      while i < |list|
        invariant 0 <= i <= |list|
        invariant nodes == old(nodes)
        invariant slides == old(slides) + FromDataAll(list[..i])
        invariant added == RenderedNodes(FromDataAll(list[..i]))
      {
        var normalized := FromData(list[i]);
        assert FromDataAll(list[..i + 1]) == FromDataAll(list[..i]) + [normalized];
        added := added + [RenderedNode(normalized)];
        slides := slides + [normalized];
        i := i + 1;
      }
      assert list[..i] == list;
      assert forall j :: 0 <= j < |added| ==> !added[j].active && added[j].tag.None?;
      nodes := nodes + added;
    }
  }
}
