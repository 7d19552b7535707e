# Carousel and page loader, modelled in Dafny

This project models the core of a small web site's client code: the
`Carousel` widget in `assets/carousel.js` and the route-name rules of the
page loader in `assets/load.js`.

The carousel holds an ordered list of slides (image or video). Each slide
has a slide node in the page, and each node may hold a video. The carousel
keeps the index of the active slide, an "active" class on one slide node
and on one indicator button, and an autoplay timer. The model keeps all of
this as fields of the class `Carousels.Carousel`:

- `slides` are the normalised slide records;
- `nodes` are the slide nodes, each with its `data-index` tag, its
  'active' class and the playback state (paused, current time) of its video;
- `indicators` are the indicator buttons, each with its tag and 'active' class;
- `current` is the active index;
- `timerRunning` says whether an autoplay timer is set;
- `timerStarts` counts the timers set so far, so a restarted timer shows as a new one.

`Valid()` is the invariant every operation keeps:

- there is one node per slide;
- `current` names a node, unless there is none;
- no node and no indicator except the one at `current` is active;
- every tag equals its position.

`GoTo`, `Next`, `Prev` and `Tick` are specified through the two-state
predicate `Navigated`. It says the move does nothing when the target is the
current slide or names no slide. Otherwise the carousel `Shows` the target:
only that node and that indicator are active, and every other video is
paused and rewound. With autoplay on, the timer is restarted.

The two slide-normalisation rules are pure functions in `Slides`. So are
the loader's rules for turning a hash, a link's `data-page` or a pathname
into a page name, in `Loader`. `Loader.InitCarousels` models the loop that
gives each carousel container at most one instance. `Scenarios` holds
client code that drives a carousel through typical situations.

Behaviour of the code worth noting:

- Construction does not pause or rewind any video. Only a move, or the
  transition-end hook, does that.
- The option that plays the active video is read as `playVideoOnActive`.
- `addSlides` renders and appends slide nodes, but adds no indicators and
  tags no new node. After a move to an added slide, no indicator is active
  (`Scenarios.AddedSlide`).
- After `addSlides` on a carousel that had no slides, no slide is active.
  `goTo(0)` then does nothing, because 0 is already `current`.
- With three slides, three calls of `next` from slide 0 wrap around and end
  on slide 0 (`Scenarios.ThreeImages`).

## Model

| member | source | states |
|---|---|---|
| `Slides.FromData` | assets/carousel.js:94-96 | a normalised data slide never has an empty type |
| `Slides.FromNode` | assets/carousel.js:87-92 | a normalised node slide never has an empty type |
| `Slides.Rendered` | assets/carousel.js:98-117 | a rendered node carries no data attributes, and holds a video element exactly for a video slide and an image element otherwise |
| `Slides.NodeSources` | assets/carousel.js:89-90 | a node's src is its data-src, else its image's src, else ""; its poster is its data-poster, else its video's poster, else "" |
| `Slides.FromDataDefaults` | assets/carousel.js:94-96 | a missing or empty type becomes "image" and is never empty; a given src and poster are kept, missing ones become "" |
| `Slides.FromDataIdempotent` | assets/carousel.js:94-96 | normalising an already normalised slide gives the same slide |
| `Slides.NodeWithoutMediaIsData` | assets/carousel.js:87-96 | a node without image or video children is normalised exactly as a data object holding its data attributes |
| `Slides.NodeKind` | assets/carousel.js:88 | a set data-type is the type as given; without one the type is "video" when the node holds a video element and "image" otherwise; so the type is "video" exactly when data-type says so or is unset and a video is present |
| `Slides.RenderedRoundTrip` | assets/carousel.js:87-118 | reading back a rendered node gives an image slide's src, a video slide's poster and type, but not a video slide's src |
| `Slides.FromDataAll` | assets/carousel.js:43 | the data array is normalised element by element, in order, with nothing added or dropped |
| `Carousels.Configure` | assets/carousel.js:26 | the caller's options laid over the defaults; its properties are stated by the two lemmas below |
| `Carousels.ConfigureDefaults` | assets/carousel.js:26 | without options: autoplay on, interval 5000, indicators and controls on, active videos not played |
| `Carousels.ConfigureOverrides` | assets/carousel.js:26 | every option the caller gives wins over its default |
| `Carousels.NextIndex` | assets/carousel.js:164-167 | the next index is below the slide count; it is the following index, or 0 after the last |
| `Carousels.PrevIndex` | assets/carousel.js:168-171 | the previous index is below the slide count; it is the preceding index, or the last before 0 |
| `Carousels.NextPrevInverse` | assets/carousel.js:164-171 | prev undoes next and next undoes prev |
| `Carousels.WalkIsModularSum` | assets/carousel.js:164-171 | any run of next and prev ends on the start plus the net number of moves, modulo the slide count |
| `Carousels.FirstActive` | assets/carousel.js:181 | the query for the active indicator finds the first active one, or reports that none is active |
| `Carousels.FirstTagged` | assets/carousel.js:183 | the query for an indicator by data-index finds the first with that tag, or reports that none has it |
| `Carousels.FirstTaggedByPosition` | assets/carousel.js:79 | when indicator k is tagged k, the query for tag t finds position t exactly when t is a position |
| `Carousels.FirstActiveOfOne` | assets/carousel.js:181-182 | when only the current indicator may be active, the query finds it if it is active and nothing otherwise |
| `Carousels.InitialSlides` | assets/carousel.js:39-47 | when the container holds slide nodes, the slides are those nodes normalised in order; otherwise they are the `slides` option normalised in order, or none |
| `Carousels.RenderedNode` | assets/carousel.js:98-117 | a rendered node is untagged and inactive, and holds a video exactly for a video slide |
| `Carousels.RenderedNodeHasRenderedVideo` | assets/carousel.js:98-117 | the node the carousel keeps for a rendered slide holds a video exactly when the rendered markup does |
| `Carousels.InitialNodes` | assets/carousel.js:39-51 | the carousel starts with one slide node per initial slide |
| `Carousels.RenderedNodes` | assets/carousel.js:98-117 | one rendered node per slide, in order, holding a paused video at its start exactly for video slides |
| `Carousels.Carousel.constructor` | assets/carousel.js:23-85 | slides come from the markup, else from the slides option; node i is tagged i and only node 0 is active; when indicators are on there is one per slide, indicator i is tagged i and only indicator 0 is active; current is 0; the timer is set exactly when autoplay is on |
| `Carousels.Carousel.Create` | assets/carousel.js:24 | construction fails exactly when the container is missing |
| `Carousels.Carousel.Play` | assets/carousel.js:195-198 | afterwards a timer is set; a new timer is started only if none was set |
| `Carousels.Carousel.Pause` | assets/carousel.js:199-204 | afterwards no timer is set, and nothing else changes |
| `Carousels.Carousel.MouseLeave` | assets/carousel.js:134-135 | leaving the container resumes autoplay when the autoplay option is on, and changes nothing otherwise |
| `Carousels.Carousel.PauseAllVideosExcept` | assets/carousel.js:149-162 | every video except the one at the index is paused and rewound; that one is left alone, or asked to play when active videos play |
| `Carousels.Carousel.GoTo` | assets/carousel.js:172-193 | nothing changes when the index is current or names no slide; otherwise only that slide and that indicator are active, current is the index, other videos are paused at 0, and with autoplay the timer is restarted |
| `Carousels.Carousel.SetActive` | assets/carousel.js:177-186 | the old node loses 'active', the new one gains it, and only the indicator at the index stays active |
| `Carousels.Carousel.MoveIndicator` | assets/carousel.js:180-185 | after the move only the indicator at the index is active, or none when the index has no indicator |
| `Carousels.Carousel.Next` | assets/carousel.js:164-167 | with no slides nothing changes; otherwise current becomes (current + 1) mod n with the effect of goTo |
| `Carousels.Carousel.Prev` | assets/carousel.js:168-171 | with no slides nothing changes; otherwise current becomes (current - 1 + n) mod n with the effect of goTo |
| `Carousels.Carousel.Tick` | assets/carousel.js:197 | a tick moves to the next slide only while a timer is set; after pause it changes nothing |
| `Carousels.Carousel.AddSlides` | assets/carousel.js:207-216 | the normalised slides and their rendered nodes are appended in order; current, indicators and timer are untouched |
| `Loader.StripHash` | assets/load.js:49 | the stripped hash is the hash minus one leading '#' and then at most one '/' |
| `Loader.HashToPage` | assets/load.js:48-50 | the page a hash names is the stripped hash when that is not empty, and "home" when it is |
| `Loader.LinkHash` | assets/load.js:40-44 | the hash is empty exactly for an empty page or "home"; otherwise it starts with '#', ends with the page, and is the page itself when that starts with '#' and '#' followed by the page otherwise |
| `Loader.LinkRoundTrip` | assets/load.js:40-50 | following a link to a page that starts with neither '#' nor '/' loads that page, and "home" for an empty page |
| `Loader.TrimLeadingSlashes` | assets/load.js:64 | the result is a suffix without a leading '/', and only slashes were removed |
| `Loader.TrimTrailingSlashes` | assets/load.js:64 | the result is a prefix without a trailing '/', and only slashes were removed |
| `Loader.FirstSegment` | assets/load.js:67 | the result is the longest prefix without a '/' |
| `Loader.PathToPage` | assets/load.js:64-71 | the page a pathname names is never empty and holds no '/', '.' or ':' |
| `Loader.InitialPage` | assets/load.js:58-71 | the first page is the page the hash names when the stripped hash is not empty, else the page the pathname names |
| `Loader.TrimSlashesBefore` | assets/load.js:64 | any number of leading slashes before a path that does not start with '/' are all removed |
| `Loader.FirstSegmentOf` | assets/load.js:67 | a slash-free segment followed by nothing or by '/' is the first segment |
| `Loader.PathNamesFirstSegment` | assets/load.js:64-71 | a path whose first segment is a plain name names that page, whatever slashes surround it and whatever follows |
| `Loader.RootIsHome` | assets/load.js:64-66 | a path made only of slashes names "home" |
| `Loader.DottedSegmentIsHome` | assets/load.js:67-70 | a path whose first segment holds '.' or ':' names "home" |
| `Loader.LoaderConfiguration` | assets/load.js:25 | the options the loader writes give carousels that autoplay every 3000 ms |
| `Loader.Bind` | assets/load.js:21-28 | one pass leaves as many containers as it found |
| `Loader.BindKeepsAndFills` | assets/load.js:25 | after a pass every container has an instance, and one that had an instance keeps it |
| `Loader.BindIdempotent` | assets/load.js:25 | a second pass over the same containers changes nothing |
| `Loader.BindCreates` | assets/load.js:25 | after a pass no container lacks an instance |
| `Loader.BindNew` | assets/load.js:21-28 | a container without an instance gets the first number plus the count of earlier containers that had none |
| `Loader.BindOrdered` | assets/load.js:21-28 | new instances are numbered in document order, so no two share a number |
| `Loader.InitCarousels` | assets/load.js:21-28 | the loop leaves exactly the instances one pass gives, and creates one instance per container that had none |

## Left out

- Rendering of slide nodes, prev/next buttons and indicator buttons, with their classes and ARIA labels (assets/carousel.js:57-69, 98-118): a node or indicator is modelled only by its tag, its 'active' class and its video.
- The controls option has no effect in the model, since the buttons it adds are not modelled.
- Event wiring (assets/carousel.js:120-147) is not modelled. The model keeps only the commands the events issue: clicks call `Prev`, `Next` or `GoTo`; mouse enter calls `Pause`; mouse leave is `MouseLeave`; keys call `Prev` and `Next`; transition end calls `PauseAllVideosExcept(current)`. Attaching and detaching the key listener on focus is not modelled.
- Real timers and the interval: a set timer is a flag, and a tick is a call to `Tick`.
- Carousels.Carousel.PauseAllVideosExcept: the asynchronous `video.play()` and its swallowed rejection are a free choice. The active video either stays as it was or is no longer paused. Setting the time to 0 is taken never to throw.
- `img.src` resolving to an absolute URL is not modelled; the model keeps the attribute value.
- The `node` field of a normalised slide and the `alt` text are not modelled.
- Slides.FromData: option values that are not strings, and falsy non-string values, are not modelled. A field is a string or absent.
- Carousels.Configure: an option passed explicitly as `undefined` is treated as absent. In JavaScript, `Object.assign` would copy the `undefined`.
- Carousels.Carousel.GoTo: indices are integers. A non-integer or NaN index finds no slide in JavaScript, so nothing happens; the model has no such values.
- Carousels.Carousel.AddSlides: the model assumes new nodes come after the existing ones in document order, including when they go into a `.columns-inner` element.
- Loader.InitCarousels: a new instance is named by a number, not built from the container's markup. The loader always builds with `Loader.LoaderOptions`, and construction cannot fail for an existing element.
- In `assets/load.js`, fetching, injecting HTML, focus, `setYear`, the `hashchange` and `DOMContentLoaded` handlers, and the not-found fallback are network and page I/O. Only the string rules and the one-instance guard are modelled.
