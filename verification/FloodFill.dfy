/** The mascot's background remover: a breadth-first flood fill that clears pixels in place. */
module FloodFill {

  datatype Pixel = Pixel(r: int, g: int, b: int, a: int)

  datatype Point = Point(x: int, y: int)

  const CLEAR := Pixel(255, 255, 255, 0)

  predicate IsBackground(p: Pixel) { p.r > 230 && p.g > 230 && p.b > 230 }

  type Image = map<Point, Pixel>

  /** The picture in the array. */
  ghost function Picture(pixels: array2<Pixel>): Image
    reads pixels
  {
    map x, y | 0 <= x < pixels.Length0 && 0 <= y < pixels.Length1 :: Point(x, y) := pixels[x, y]
  }

  ghost function Background(image: Image): set<Point> { set p | p in image && IsBackground(image[p]) }

  predicate Adjacent(p: Point, q: Point) {
    || (p.y == q.y && (q.x == p.x - 1 || q.x == p.x + 1))
    || (p.x == q.x && (q.y == p.y - 1 || q.y == p.y + 1))
  }

  function Corners(width: int, height: int): seq<Point> {
    [Point(0, 0), Point(width - 1, 0), Point(0, height - 1), Point(width - 1, height - 1)]
  }

  /** A chain of neighbouring background pixels. */
  ghost predicate Path(bg: set<Point>, path: seq<Point>) {
    && |path| > 0
    && (forall i :: 0 <= i < |path| ==> path[i] in bg)
    && (forall i :: 0 <= i < |path| - 1 ==> Adjacent(path[i], path[i + 1]))
  }

  ghost predicate PathBetween(bg: set<Point>, path: seq<Point>, from: Point, to: Point) {
    Path(bg, path) && path[0] == from && path[|path| - 1] == to
  }

  /** `p` hangs together with one of the points through background pixels of the original. */
  ghost predicate Connected(bg: set<Point>, starts: seq<Point>, p: Point) {
    exists path, s :: s in starts && PathBetween(bg, path, s, p)
  }

  /* ----- what is to be cleared, in terms of the picture ----- */

  predicate NearWhite(p: Pixel) { 231 <= p.r && 231 <= p.g && 231 <= p.b }

  function Distance(a: int, b: int): nat { if a < b then b - a else a - b }

  /** A walk over near-white pixels, one step up, down, left or right at a time. */
  ghost predicate Walk(image: Image, path: seq<Point>) {
    && (forall i :: 0 <= i < |path| ==> path[i] in image && NearWhite(image[path[i]]))
    && (forall i :: 0 <= i < |path| - 1 ==> Distance(path[i].x, path[i + 1].x) + Distance(path[i].y, path[i + 1].y) == 1)
  }

  predicate IsCorner(p: Point, width: int, height: int) { (p.x == 0 || p.x == width - 1) && (p.y == 0 || p.y == height - 1) }

  /** Some walk leads from a corner to `p`. */
  ghost predicate JoinedToCorner(image: Image, width: int, height: int, p: Point) {
    exists path :: |path| > 0 && IsCorner(path[0], width, height) && path[|path| - 1] == p && Walk(image, path)
  }

  lemma WalkIsPath(image: Image, path: seq<Point>)
    requires |path| > 0
    ensures Walk(image, path) <==> Path(Background(image), path)
  {
  }

  lemma JoinedIsConnected(image: Image, width: int, height: int, p: Point)
    ensures JoinedToCorner(image, width, height, p) <==> Connected(Background(image), Corners(width, height), p)
  {
    if JoinedToCorner(image, width, height, p) {
      var path :| |path| > 0 && IsCorner(path[0], width, height) && path[|path| - 1] == p && Walk(image, path);
      WalkIsPath(image, path);
      var corners := Corners(width, height);
      assert path[0] == corners[0] || path[0] == corners[1] || path[0] == corners[2] || path[0] == corners[3];
      assert PathBetween(Background(image), path, path[0], p);
    }
    if Connected(Background(image), Corners(width, height), p) {
      var path, s :| s in Corners(width, height) && PathBetween(Background(image), path, s, p);
      WalkIsPath(image, path);
    }
  }

  lemma StartConnected(bg: set<Point>, starts: seq<Point>, s: Point)
    requires s in starts && s in bg
    ensures Connected(bg, starts, s)
  {
    assert PathBetween(bg, [s], s, s);
  }

  lemma NeighbourConnected(bg: set<Point>, starts: seq<Point>, p: Point, q: Point)
    requires Connected(bg, starts, p) && q in bg && Adjacent(p, q)
    ensures Connected(bg, starts, q)
  {
    var path, s :| s in starts && PathBetween(bg, path, s, p);
    assert PathBetween(bg, path + [q], s, q);
  }

  /** Every background neighbour of a settled point has been visited. */
  ghost predicate Closed(bg: set<Point>, settled: set<Point>, visited: set<Point>) {
    forall p, q :: p in settled && q in bg && Adjacent(p, q) ==> q in visited
  }

  lemma {:induction false} ClosedHoldsPaths(bg: set<Point>, visited: set<Point>, path: seq<Point>)
    requires Path(bg, path) && path[0] in visited && Closed(bg, visited, visited)
    ensures path[|path| - 1] in visited
    decreases |path|
  {
    if |path| > 1 {
      var shorter := path[..|path| - 1];
      ClosedHoldsPaths(bg, visited, shorter);
      assert Adjacent(path[|path| - 2], path[|path| - 1]);
    }
  }

  /** The picture with the settled points cleared. */
  ghost predicate Cleared(before: Image, after: Image, settled: set<Point>) {
    && after.Keys == before.Keys
    && forall p :: p in before ==> after[p] == if p in settled then CLEAR else before[p]
  }

  lemma ClearingKeepsBackground(before: Image, after: Image, settled: set<Point>)
    requires Cleared(before, after, settled) && settled <= Background(before)
    ensures Background(after) == Background(before)
  {
  }

  function Elements(q: seq<Point>): set<Point> { set p | p in q }

  predicate Distinct(q: seq<Point>) { forall i, j :: 0 <= i < j < |q| ==> q[i] != q[j] }

  /** From one queue and visited set to later ones: the same background neighbours of `p` are added to both. */
  ghost predicate Grows(bg: set<Point>, p: Point, queue: seq<Point>, visited: set<Point>,
                        queue': seq<Point>, visited': set<Point>)
  {
    && visited <= visited'
    && Elements(queue') == Elements(queue) + (visited' - visited)
    && Distinct(queue')
    && (forall q :: q in visited' - visited ==> q in bg && Adjacent(p, q))
    && (visited' == visited ==> queue' == queue)
  }

  lemma GrowsTrans(bg: set<Point>, p: Point, q0: seq<Point>, v0: set<Point>, q1: seq<Point>, v1: set<Point>,
                   q2: seq<Point>, v2: set<Point>)
    requires Grows(bg, p, q0, v0, q1, v1) && Grows(bg, p, q1, v1, q2, v2)
    ensures Grows(bg, p, q0, v0, q2, v2)
  {
  }

  lemma ElementsAppend(q: seq<Point>, p: Point)
    ensures Elements(q + [p]) == Elements(q) + {p}
  {
  }

  /** Look at one neighbour of `p`: visit it if it lies in the picture, is new and is background. */
  method Visit(pixels: array2<Pixel>, ghost p: Point, n: Point, queue: seq<Point>, visited: set<Point>)
    returns (queue': seq<Point>, visited': set<Point>)
    requires Adjacent(p, n) && Distinct(queue) && Elements(queue) <= visited
    ensures Grows(Background(Picture(pixels)), p, queue, visited, queue', visited')
    ensures n in Background(Picture(pixels)) ==> n in visited'
  {
    queue', visited' := queue, visited;
    if 0 <= n.x < pixels.Length0 && 0 <= n.y < pixels.Length1 {
      assert Picture(pixels)[n] == pixels[n.x, n.y];
      if n !in visited && IsBackground(pixels[n.x, n.y]) {
        ElementsAppend(queue, n);
        assert n !in Elements(queue);
        visited' := visited' + {n};
        queue' := queue' + [n];
      }
    }
  }

  /** The four neighbours, in the order of the source. */
  method VisitNeighbours(pixels: array2<Pixel>, p: Point, queue: seq<Point>, visited: set<Point>)
    returns (queue': seq<Point>, visited': set<Point>)
    requires Distinct(queue) && Elements(queue) <= visited
    ensures Grows(Background(Picture(pixels)), p, queue, visited, queue', visited')
    ensures forall n :: n in Background(Picture(pixels)) && Adjacent(p, n) ==> n in visited'
  {
    var q1, v1 := VisitHorizontal(pixels, p, queue, visited);
    queue', visited' := VisitVertical(pixels, p, q1, v1);
    GrowsTrans(Background(Picture(pixels)), p, queue, visited, q1, v1, queue', visited');
    assert forall n :: Adjacent(p, n) ==>
      n in {Point(p.x - 1, p.y), Point(p.x + 1, p.y), Point(p.x, p.y - 1), Point(p.x, p.y + 1)};
  }

  method VisitHorizontal(pixels: array2<Pixel>, p: Point, queue: seq<Point>, visited: set<Point>)
    returns (queue': seq<Point>, visited': set<Point>)
    requires Distinct(queue) && Elements(queue) <= visited
    ensures Grows(Background(Picture(pixels)), p, queue, visited, queue', visited')
    ensures Point(p.x - 1, p.y) in Background(Picture(pixels)) ==> Point(p.x - 1, p.y) in visited'
    ensures Point(p.x + 1, p.y) in Background(Picture(pixels)) ==> Point(p.x + 1, p.y) in visited'
  {
    var q1, v1 := Visit(pixels, p, Point(p.x - 1, p.y), queue, visited);
    queue', visited' := Visit(pixels, p, Point(p.x + 1, p.y), q1, v1);
    GrowsTrans(Background(Picture(pixels)), p, queue, visited, q1, v1, queue', visited');
  }

  method VisitVertical(pixels: array2<Pixel>, p: Point, queue: seq<Point>, visited: set<Point>)
    returns (queue': seq<Point>, visited': set<Point>)
    requires Distinct(queue) && Elements(queue) <= visited
    ensures Grows(Background(Picture(pixels)), p, queue, visited, queue', visited')
    ensures Point(p.x, p.y - 1) in Background(Picture(pixels)) ==> Point(p.x, p.y - 1) in visited'
    ensures Point(p.x, p.y + 1) in Background(Picture(pixels)) ==> Point(p.x, p.y + 1) in visited'
  {
    var q1, v1 := Visit(pixels, p, Point(p.x, p.y - 1), queue, visited);
    queue', visited' := Visit(pixels, p, Point(p.x, p.y + 1), q1, v1);
    GrowsTrans(Background(Picture(pixels)), p, queue, visited, q1, v1, queue', visited');
  }

  /** Everything the fill maintains between two turns of its inner loop. */
  ghost predicate Progress(before: Image, after: Image, starts: seq<Point>, queue: seq<Point>, visited: set<Point>) {
    var bg := Background(before);
    && visited <= bg
    && Elements(queue) <= visited
    && Distinct(queue)
    && (forall p :: p in visited ==> Connected(bg, starts, p))
    && Cleared(before, after, visited - Elements(queue))
    && Closed(bg, visited - Elements(queue), visited)
  }

  lemma PopSettles(queue: seq<Point>, visited: set<Point>)
    requires queue != [] && Distinct(queue) && Elements(queue) <= visited
    ensures visited - Elements(queue[1..]) == (visited - Elements(queue)) + {queue[0]}
    ensures Distinct(queue[1..]) && Elements(queue[1..]) <= visited
  {
  }

  /** Clearing the head of the queue and visiting its neighbours keeps everything in step. */
  lemma TurnProgresses(before: Image, middle: Image, starts: seq<Point>, queue: seq<Point>, visited: set<Point>,
                       queue': seq<Point>, visited': set<Point>, after: Image)
    requires queue != [] && Progress(before, middle, starts, queue, visited)
    requires queue[0] in middle && after == middle[queue[0] := CLEAR]
    requires Grows(Background(before), queue[0], queue[1..], visited, queue', visited')
    requires forall n :: n in Background(before) && Adjacent(queue[0], n) ==> n in visited'
    ensures Progress(before, after, starts, queue', visited')
  {
    var bg, p := Background(before), queue[0];
    PopSettles(queue, visited);
    assert visited' - Elements(queue') == visited - Elements(queue[1..]);
    assert p in Elements(queue);
    forall q | q in visited' ensures Connected(bg, starts, q) {
      if q !in visited { NeighbourConnected(bg, starts, p, q); }
    }
  }

  method Turn(pixels: array2<Pixel>, ghost before: Image, ghost starts: seq<Point>, queue: seq<Point>, visited: set<Point>)
    returns (queue': seq<Point>, visited': set<Point>)
    requires queue != [] && Progress(before, Picture(pixels), starts, queue, visited)
    modifies pixels
    ensures Progress(before, Picture(pixels), starts, queue', visited')
    ensures visited < visited' || (visited' == visited && queue' == queue[1..])
  {
    var p := queue[0];
    assert p in Elements(queue);
    ghost var middle := Picture(pixels);
    assert p in before && p in middle;
    pixels[p.x, p.y] := CLEAR;
    ghost var after := Picture(pixels);
    assert after == middle[p := CLEAR];
    PopSettles(queue, visited);
    assert Cleared(before, after, visited - Elements(queue[1..]));
    ClearingKeepsBackground(before, after, visited - Elements(queue[1..]));
    queue', visited' := VisitNeighbours(pixels, p, queue[1..], visited);
    TurnProgresses(before, middle, starts, queue, visited, queue', visited', after);
  }

  method Fill(pixels: array2<Pixel>, ghost before: Image, ghost starts: seq<Point>, start: Point, visited: set<Point>)
    returns (visited': set<Point>)
    requires Progress(before, Picture(pixels), starts, [], visited)
    requires start in starts && start in Background(before) && start !in visited
    modifies pixels
    ensures Progress(before, Picture(pixels), starts, [], visited')
    ensures start in visited' && visited <= visited'
  {
    var queue := [start];
    visited' := visited + {start};
    StartConnected(Background(before), starts, start);
    assert visited' - Elements(queue) == visited;
    assert Elements([]) == {};
    while queue != []
      invariant Progress(before, Picture(pixels), starts, queue, visited')
      invariant start in visited' && visited <= visited'
      decreases Background(before) - visited', |queue|
    {
      queue, visited' := Turn(pixels, before, starts, queue, visited');
    }
  }

  /** Exactly the near-white pixels joined to a corner through near-white pixels become transparent white. */
  method RemoveBackground(pixels: array2<Pixel>)
    requires pixels.Length0 > 0 && pixels.Length1 > 0
    modifies pixels
    ensures var before, after := old(Picture(pixels)), Picture(pixels);
            && after.Keys == before.Keys
            && forall p :: p in before ==>
                 after[p] == if JoinedToCorner(before, pixels.Length0, pixels.Length1, p) then Pixel(255, 255, 255, 0) else before[p]
  {
    ghost var before := Picture(pixels);
    ghost var bg := Background(before);
    var corners := Corners(pixels.Length0, pixels.Length1);
    var visited: set<Point> := {};
    assert Elements([]) == {};
    for i := 0 to |corners|
      invariant Progress(before, Picture(pixels), corners, [], visited)
      invariant forall k :: 0 <= k < i && corners[k] in bg ==> corners[k] in visited
    {
      var start := corners[i];
      if start in visited { continue; }
      assert start in before && Picture(pixels)[start] == pixels[start.x, start.y];
      ClearingKeepsBackground(before, Picture(pixels), visited - Elements([]));
      if !IsBackground(pixels[start.x, start.y]) { continue; }
      visited := Fill(pixels, before, corners, start, visited);
    }
    assert visited - Elements([]) == visited;
    forall p ensures Connected(bg, corners, p) <==> p in visited {
      if Connected(bg, corners, p) {
        var path, s :| s in corners && PathBetween(bg, path, s, p);
        ClosedHoldsPaths(bg, visited, path);
      }
    }
    forall p { JoinedIsConnected(before, pixels.Length0, pixels.Length1, p); }
  }
}
