/**
 * Client code that drives a carousel through typical situations, using
 * nothing but the contracts of its operations.
 */
module Scenarios {
  import opened Values
  import opened Slides
  import opened Carousels

  /** Three image slides with autoplay: `next` walks 0, 1, 2 and wraps back to 0. */
  method ThreeImages()
  {
    var img := SlideData(Some(Image), Some("slide.jpg"), None);
    var c := new Carousel(Container([]), UserOptions(None, Some(5000), None, None, None, Some([img, img, img])));
    assert |c.nodes| == 3;
    assert c.current == 0 && c.nodes[0].active && c.indicators[0].active && c.timerRunning;
    c.Next();
    assert c.current == 1 && c.nodes[1].active && !c.nodes[0].active;
    assert c.indicators[1].active && !c.indicators[0].active;
    c.Next();
    c.Next();
    assert c.current == 0 && c.nodes[0].active && !c.nodes[2].active;
  }

  /** Without slides, navigation does nothing and does not fail. */
  method NoSlides()
  {
    var c := new Carousel(Container([]), NoOptions);
    c.Next();
    c.Prev();
    c.GoTo(0);
    assert c.current == 0 && c.nodes == [] && c.slides == [];
  }

  /** Without a container, construction fails. */
  method NoContainer()
  {
    var r := Carousel.Create(None, NoOptions);
    assert r.Failure?;
  }

  /**
   * Two video slides, videos not played when active: moving to the second
   * leaves its video as it was, and the first is paused and rewound.
   */
  method Videos()
  {
    var clip := MarkupSlide(Markup(None, None, None, None, Some("poster.jpg")), Player(false, 7));
    var c := new Carousel(Container([clip, clip]), UserOptions(Some(false), None, None, None, None, None));
    assert c.slides[0].kind == Video;
    c.Next();
    assert c.current == 1;
    assert c.nodes[1].player == Some(Player(false, 7));
    assert c.nodes[0].player == Some(Rewound);
    assert !c.timerRunning;
  }

  /** Once paused, ticks move nothing; `play` twice sets one timer. */
  method PauseAndPlay()
  {
    var img := SlideData(None, Some("slide.jpg"), None);
    var c := new Carousel(Container([]), UserOptions(None, None, None, None, None, Some([img, img])));
    c.Pause();
    c.Tick();
    assert c.current == 0;
    var started := c.timerStarts;
    c.Play();
    c.Play();
    assert c.timerRunning && c.timerStarts == started + 1;
  }

  /** A slide added later has no indicator: moving to it leaves no indicator active. */
  method AddedSlide()
  {
    var img := SlideData(None, Some("slide.jpg"), None);
    var c := new Carousel(Container([]), UserOptions(None, None, None, None, None, Some([img])));
    c.AddSlides([img]);
    assert |c.nodes| == 2 && |c.indicators| == 1;
    c.GoTo(1);
    assert c.current == 1 && c.nodes[1].active && !c.indicators[0].active;
  }
}
