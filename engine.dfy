/**
  The sketch's global state as one object, and the steps `setup` and `draw`
  run on it: the classifier and circle at start-up, the flower spawn, the
  headline rotation and placement, the fade-in, and the window resize.
  Time (`millis()`), the random choices, the square root and the line
  height are parameters.
*/
module Engine {
  import opened Options
  import opened Geometry
  import opened Headlines
  import opened Classifier
  import opened Exclusion
  import opened Placement

  const TotalBirths: nat := 57079
  /** 1000 * 60 * 1000 milliseconds. */
  const SimulationDuration: real := 60000000.0
  /** 30 seconds. */
  const HeadlineInterval: real := 30000.0

  /** `splice(i, 1)`: the list without its element at `i`, the others in their order. */
  function RemoveAt<T>(s: seq<T>, i: nat): (r: seq<T>)
    requires i < |s|
    ensures |r| == |s| - 1
    ensures forall j :: 0 <= j < |r| ==> r[j] == if j < i then s[j] else s[j + 1]
    ensures multiset(r) + multiset{s[i]} == multiset(s)
  {
    assert s == s[..i] + [s[i]] + s[i + 1..];
    s[..i] + s[i + 1..]
  }

  class Sketch {
    /** Size of the map images. */
    const mapW: int
    const mapH: int
    const waterPixels: seq<Cell>
    /** The final `minX`, `maxX`, `minY`, `maxY` of `setup`. */
    ghost const bounds: Box
    /** `circleCenterX`, `circleCenterY`, `circleRadius`. */
    const circle: Circle
    const allowedHeadlinePixels: seq<Cell>
    const birthInterval: real
    /** `landPixels` as the classifier left it. */
    ghost const initialLand: seq<Cell>

    /** The canvas size. */
    var width: nat
    var height: nat
    var scaleFactor: real
    var landPixels: seq<Cell>
    var birthsSoFar: nat
    var lastFlowerTime: real
    /** The cells flowers were born at, in order. */
    ghost var births: seq<Cell>
    var headlines: seq<string>
    var shownHeadlines: seq<Headline>
    var lastHeadlineTime: real

    ghost predicate Valid()
      reads this
    {
      && mapW > 0 && mapH > 0
      && RowMajor(initialLand)
      && birthsSoFar <= TotalBirths
      && |births| == birthsSoFar
      && multiset(landPixels) + multiset(births) == multiset(initialLand)
      && (forall i :: 0 <= i < |shownHeadlines| ==> Transparent <= shownHeadlines[i].alpha <= Opaque)
    }

    function CurrentView(): View
      reads this
    {
      View(width, height, mapW, mapH, scaleFactor)
    }

    function Ctx(lineHeight: real, sqrt: real -> real): Context
      reads this
    {
      Context(CurrentView(), circle, allowedHeadlinePixels, lineHeight, sqrt)
    }

    /**
      `setup`, from the loaded mask, the map image size, the window size and
      the two clock readings: `flowerStart` after the classifier,
      `headlineStart` at the end.
    */
    constructor Setup(mask: Mask, mapW: int, mapH: int, windowW: nat, windowH: nat,
                      flowerStart: real, headlineStart: real)
      requires WellFormed(mask) && mapW > 0 && mapH > 0
      ensures Valid()
      ensures this.mapW == mapW && this.mapH == mapH
      ensures landPixels == initialLand == LandCells(mask) && waterPixels == WaterCells(mask)
      ensures IsBoundingBox(bounds, landPixels, mapW, mapH) && circle == CircleOf(bounds)
      ensures allowedHeadlinePixels == Allowed(waterPixels, circle) && RowMajor(allowedHeadlinePixels)
      ensures birthInterval == SimulationDuration / TotalBirths as real
      ensures birthsSoFar == 0 && births == [] && lastFlowerTime == flowerStart
      ensures headlines == [] && shownHeadlines == [] && lastHeadlineTime == headlineStart
      ensures width == windowW && height == windowH && scaleFactor == FitScale(windowW, windowH, mapW, mapH)
    {
      var land, water := ClassifyPixels(mask);
      ClassifiedInRowMajorOrder(mask);
      var b := BoundingBox(land, mapW, mapH);
      var c := CircleOf(b);
      var allowed := FilterAllowed(water, c);
      AllowedKeepsOrder(water, c, (a, b) => Before(a, b));
      this.mapW, this.mapH := mapW, mapH;
      waterPixels := water;
      bounds, circle := b, c;
      allowedHeadlinePixels := allowed;
      birthInterval := SimulationDuration / TotalBirths as real;
      initialLand := land;
      width, height := windowW, windowH;
      scaleFactor := FitScale(windowW, windowH, mapW, mapH);
      landPixels := land;
      birthsSoFar, lastFlowerTime, births := 0, flowerStart, [];
      headlines, shownHeadlines, lastHeadlineTime := [], [], headlineStart;
    }

    /** The guard of the flower-spawn block. */
    predicate SpawnDue(now: real)
      reads this
    {
      birthsSoFar < TotalBirths && now - lastFlowerTime >= birthInterval && |landPixels| > 0
    }

    /** The completion test of `draw`. */
    predicate SimulationComplete()
      reads this
    {
      birthsSoFar >= TotalBirths
    }

    /**
      The flower-spawn block: when due, removes the land cell at `idx`
      (`floor(random(landPixels.length))`), counts the birth and restarts
      the timer; otherwise changes nothing. The guard reads the clock as
      `now`, the restart reads it again as `resetNow`.
    */
    method SpawnFlower(now: real, resetNow: real, idx: nat) returns (born: Option<Cell>)
      requires Valid()
      requires |landPixels| > 0 ==> idx < |landPixels|
      modifies this`landPixels, this`birthsSoFar, this`lastFlowerTime, this`births
      ensures Valid()
      ensures born.Some? == old(SpawnDue(now))
      ensures born.Some? ==>
        && born.value == old(landPixels)[idx]
        && landPixels == RemoveAt(old(landPixels), idx)
        && birthsSoFar == old(birthsSoFar) + 1
        && lastFlowerTime == resetNow
        && births == old(births) + [born.value]
      ensures born.None? ==>
        && landPixels == old(landPixels) && birthsSoFar == old(birthsSoFar)
        && lastFlowerTime == old(lastFlowerTime) && births == old(births)
    {
      born := None;
      if birthsSoFar < TotalBirths && now - lastFlowerTime >= birthInterval && |landPixels| > 0 {
        var p := landPixels[idx];
        born := Some(p);
        landPixels := RemoveAt(landPixels, idx);
        births := births + [p];
        birthsSoFar := birthsSoFar + 1;
        lastFlowerTime := resetNow;
      }
    }

    /** The headline rotation's guard. */
    predicate RotationDue(now: real)
      reads this
    {
      |headlines| > 0 && now - lastHeadlineTime >= HeadlineInterval
    }

    /**
      `addHeadline`: up to 200 attempts, each with one draw; pushes the
      headline of the first acceptable draw. `attempts` is the source's
      counter when the loop ends.
    */
    method AddHeadline(text: string, draws: seq<Draw>, lineHeight: real, sqrt: real -> real)
      returns (placed: bool, attempts: nat)
      requires Valid() && ValidDraws(draws, |allowedHeadlinePixels|)
      modifies this`shownHeadlines
      ensures Valid()
      ensures InPool(draws, Ctx(lineHeight, sqrt))
      ensures PlacementOutcome(Ctx(lineHeight, sqrt), old(shownHeadlines), text, draws, placed, shownHeadlines)
      ensures placed ==> attempts < MaxAttempts && FirstAccepted(Ctx(lineHeight, sqrt), old(shownHeadlines), text, draws, 0) == Some(attempts)
      ensures !placed ==> attempts == MaxAttempts
    {
      ghost var ctx := Ctx(lineHeight, sqrt);
      ghost var before := shownHeadlines;
      ReprojectedIdempotent(before, ctx.view);
      attempts := 0;
      placed := false;
      while attempts < MaxAttempts
        invariant 0 <= attempts <= MaxAttempts
        invariant !placed && Ctx(lineHeight, sqrt) == ctx
        invariant FirstAccepted(ctx, before, text, draws, 0) == FirstAccepted(ctx, before, text, draws, attempts)
        invariant shownHeadlines == before || shownHeadlines == Reprojected(before, ctx.view)
        invariant Valid()
      {
        ghost var current := shownHeadlines;
        assert Reprojected(current, ctx.view) == Reprojected(before, ctx.view);
        var ok := TryPlacement(text, draws[attempts], lineHeight, sqrt);
        if ok {
          placed := true;
          return;
        }
        attempts := attempts + 1;
      }
    }

    /**
      One attempt of `addHeadline` with draw `d`: the anchor, the width
      budget, the size checks, and, if they pass, the overlap check and the
      push. When the size checks fail the shown list is untouched; when they
      pass it is reprojected, and extended if the overlap check passes too.
    */
    method TryPlacement(text: string, d: Draw, lineHeight: real, sqrt: real -> real) returns (ok: bool)
      requires Valid() && d.cell < |allowedHeadlinePixels|
      modifies this`shownHeadlines
      ensures Valid()
      ensures ok <==> Accepts(Ctx(lineHeight, sqrt), old(shownHeadlines), text, d)
      ensures ok ==>
        shownHeadlines == Reprojected(old(shownHeadlines), CurrentView()) + [Tentative(Ctx(lineHeight, sqrt), text, d)]
      ensures !ok ==>
        shownHeadlines == if Fits(Ctx(lineHeight, sqrt), Tentative(Ctx(lineHeight, sqrt), text, d))
                          then Reprojected(old(shownHeadlines), CurrentView()) else old(shownHeadlines)
    {
      var v := CurrentView();
      var ctx := Context(v, circle, allowedHeadlinePixels, lineHeight, sqrt);
      var p := allowedHeadlinePixels[d.cell];
      var px := p.x;
      var py := p.y;

      var screenX := ScreenX(v, px as real);
      var screenY := ScreenY(v, py as real);

      // Distance from the circle limits the width.
      var distanceToCenter := CentreDistance(ctx, screenX, screenY);
      var maxWidth := distanceToCenter - ctx.circle.r * ctx.view.scale - CircleGap;
      maxWidth := Max(maxWidth, MinWidth);
      // The headline stays inside the canvas horizontally and vertically.
      maxWidth := Min(maxWidth, v.width as real - screenX - EdgeMargin);
      var maxHeight := v.height as real - screenY - EdgeMargin;

      assert maxWidth == WidthBudget(ctx, screenX, screenY);
      ghost var t := Tentative(ctx, text, d);
      assert t.w == maxWidth && t.screenY == screenY;
      if maxWidth < MinWidth || maxHeight < MinHeight {
        return false;
      }

      var temp := Headline(text, px, py, screenX, screenY, Transparent, maxWidth, lineHeight, d.font);
      assert temp == t;
      ok := CheckOverlaps(temp);
      if ok {
        shownHeadlines := shownHeadlines + [temp];
      }
    }

    /**
      The overlap loop of one attempt: recompute each shown headline's screen
      position and test it against `temp`.
    */
    method CheckOverlaps(temp: Headline) returns (ok: bool)
      requires Valid()
      modifies this`shownHeadlines
      ensures Valid()
      ensures shownHeadlines == Reprojected(old(shownHeadlines), CurrentView())
      ensures ok <==> ClearOf(temp, shownHeadlines)
    {
      ghost var start := shownHeadlines;
      var v := CurrentView();
      ok := true;
      var i := 0;
      while i < |shownHeadlines|
        invariant 0 <= i <= |shownHeadlines| == |start|
        invariant forall j :: 0 <= j < i ==> shownHeadlines[j] == Reproject(start[j], v)
        invariant forall j :: i <= j < |start| ==> shownHeadlines[j] == start[j]
        invariant ok <==> forall j :: 0 <= j < i ==> !HeadlinesOverlap(temp, shownHeadlines[j])
        invariant Valid() && CurrentView() == v
      {
        var h := shownHeadlines[i];
        h := h.(screenX := ScreenX(v, h.x as real), screenY := ScreenY(v, h.y as real));
        shownHeadlines := shownHeadlines[i := h];
        if HeadlinesOverlap(temp, h) {
          ok := false;
        }
        i := i + 1;
      }
    }

    /**
      `handleHeadlines`: when due, takes the head of the queue, places it
      and restarts the timer whether or not it was placed; otherwise
      changes nothing.
    */
    method HandleHeadlines(now: real, draws: seq<Draw>, lineHeight: real, sqrt: real -> real)
      returns (rotated: bool, placed: bool)
      requires Valid()
      requires RotationDue(now) ==> ValidDraws(draws, |allowedHeadlinePixels|)
      modifies this`headlines, this`shownHeadlines, this`lastHeadlineTime
      ensures Valid()
      ensures rotated == old(RotationDue(now))
      ensures rotated ==>
        && headlines == old(headlines)[1..]
        && lastHeadlineTime == now
        && InPool(draws, Ctx(lineHeight, sqrt))
        && PlacementOutcome(Ctx(lineHeight, sqrt), old(shownHeadlines), old(headlines)[0], draws, placed, shownHeadlines)
      ensures !rotated ==>
        && !placed
        && headlines == old(headlines) && lastHeadlineTime == old(lastHeadlineTime)
        && shownHeadlines == old(shownHeadlines)
    {
      rotated, placed := false, false;
      if |headlines| > 0 && now - lastHeadlineTime >= HeadlineInterval {
        var text := headlines[0];
        headlines := headlines[1..];
        var attempts;
        placed, attempts := AddHeadline(text, draws, lineHeight, sqrt);
        lastHeadlineTime := now;
        rotated := true;
      }
    }

    /**
      The loop of `drawHeadlines` over the shown headlines: recompute each
      screen position and advance each alpha by one fade step.
    */
    method DrawHeadlines()
      requires Valid()
      modifies this`shownHeadlines
      ensures Valid()
      ensures shownHeadlines == Advanced(old(shownHeadlines), CurrentView())
    {
      ghost var before := shownHeadlines;
      var v := CurrentView();
      var i := 0;
      while i < |shownHeadlines|
        invariant 0 <= i <= |shownHeadlines| == |before|
        invariant forall j :: 0 <= j < i ==> shownHeadlines[j] == Advance(before[j], v)
        invariant forall j :: i <= j < |before| ==> shownHeadlines[j] == before[j]
        invariant Valid() && CurrentView() == v
      {
        var h := shownHeadlines[i];
        h := h.(screenX := ScreenX(v, h.x as real), screenY := ScreenY(v, h.y as real));
        h := h.(alpha := if h.alpha + FadeRate <= Opaque then h.alpha + FadeRate else Opaque);
        shownHeadlines := shownHeadlines[i := h];
        i := i + 1;
      }
    }

    /** `windowResized` followed by `updateScale`. */
    method WindowResized(windowW: nat, windowH: nat)
      requires Valid()
      modifies this`width, this`height, this`scaleFactor
      ensures Valid()
      ensures width == windowW && height == windowH
      ensures scaleFactor == FitScale(windowW, windowH, mapW, mapH)
    {
      width, height := windowW, windowH;
      scaleFactor := FitScale(windowW, windowH, mapW, mapH);
    }

    /**
      The success branch of `loadRSS`, given the feed's titles in order:
      they become the queue, and the first is placed at once.
    */
    method ReceiveFeed(titles: seq<string>, draws: seq<Draw>, lineHeight: real, sqrt: real -> real)
      returns (placed: bool)
      requires Valid()
      requires |titles| > 0 ==> ValidDraws(draws, |allowedHeadlinePixels|)
      modifies this`headlines, this`shownHeadlines
      ensures Valid()
      ensures headlines == if |titles| > 0 then titles[1..] else []
      ensures |titles| > 0 ==>
        && InPool(draws, Ctx(lineHeight, sqrt))
        && PlacementOutcome(Ctx(lineHeight, sqrt), old(shownHeadlines), titles[0], draws, placed, shownHeadlines)
      ensures |titles| == 0 ==> !placed && shownHeadlines == old(shownHeadlines)
    {
      headlines := titles;
      placed := false;
      if |headlines| > 0 {
        var text := headlines[0];
        headlines := headlines[1..];
        var attempts;
        placed, attempts := AddHeadline(text, draws, lineHeight, sqrt);
      }
    }

    /**
      One call of `draw`: the flower spawn, the headline rotation, the
      headline renderer, and whether the completion notice is shown. The
      spawn block reads the clock as `spawnNow` and `resetNow`,
      `handleHeadlines` reads it as `headlineNow`.
    */
    method Frame(spawnNow: real, resetNow: real, headlineNow: real, spawnIndex: nat,
                 draws: seq<Draw>, lineHeight: real, sqrt: real -> real)
      returns (born: Option<Cell>, complete: bool)
      requires Valid()
      requires |landPixels| > 0 ==> spawnIndex < |landPixels|
      requires RotationDue(headlineNow) ==> ValidDraws(draws, |allowedHeadlinePixels|)
      modifies this
      ensures Valid()
      ensures born.Some? == old(SpawnDue(spawnNow))
      ensures born.Some? ==>
        && born.value == old(landPixels)[spawnIndex]
        && landPixels == RemoveAt(old(landPixels), spawnIndex)
        && birthsSoFar == old(birthsSoFar) + 1
        && lastFlowerTime == resetNow
        && births == old(births) + [born.value]
      ensures born.None? ==>
        && landPixels == old(landPixels) && birthsSoFar == old(birthsSoFar)
        && lastFlowerTime == old(lastFlowerTime) && births == old(births)
      ensures complete == SimulationComplete()
      ensures headlines == if old(RotationDue(headlineNow)) then old(headlines)[1..] else old(headlines)
      ensures lastHeadlineTime == if old(RotationDue(headlineNow)) then headlineNow else old(lastHeadlineTime)
      ensures shownHeadlines == Advanced(
        old(shownHeadlines) +
          (if old(RotationDue(headlineNow)) then Pushed(Ctx(lineHeight, sqrt), old(shownHeadlines), old(headlines)[0], draws)
           else []),
        CurrentView())
      ensures width == old(width) && height == old(height) && scaleFactor == old(scaleFactor)
    {
      born := SpawnFlower(spawnNow, resetNow, spawnIndex);
      ghost var shown0 := shownHeadlines;
      var rotated, placed := HandleHeadlines(headlineNow, draws, lineHeight, sqrt);
      if rotated {
        RenderedOutcome(Ctx(lineHeight, sqrt), shown0, old(headlines)[0], draws, placed, shownHeadlines);
      }
      DrawHeadlines();
      complete := birthsSoFar >= TotalBirths;
    }

    /**
      With at least 57079 land cells the pool cannot run dry first: until the
      simulation is complete, a flower is born whenever the interval has passed.
    */
    lemma PoolOutlastsBirths(now: real)
      requires Valid() && |initialLand| >= TotalBirths && !SimulationComplete()
      ensures |landPixels| > 0
      ensures now - lastFlowerTime >= birthInterval ==> SpawnDue(now)
    {
      BirthAccounting();
    }

    /**
      Births account for every land cell: each birth removed one cell, so
      births plus remaining land is the classifier's land count, every birth
      is at a land cell, no cell is born twice, and the completion notice
      appears exactly when all 57079 flowers are born.
    */
    lemma BirthAccounting()
      requires Valid()
      ensures birthsSoFar + |landPixels| == |initialLand|
      ensures forall i :: 0 <= i < |births| ==> births[i] in initialLand && births[i] !in landPixels
      ensures forall i, j :: 0 <= i < j < |births| ==> births[i] != births[j]
      ensures SimulationComplete() <==> birthsSoFar == TotalBirths
    {
      assert |multiset(landPixels) + multiset(births)| == |multiset(initialLand)|;
      RowMajorHasNoRepeats(initialLand);
      forall c
        ensures multiset(births)[c] <= 1
      {
        assert multiset(initialLand)[c] == multiset(landPixels)[c] + multiset(births)[c];
      }
      forall i | 0 <= i < |births|
        ensures births[i] in initialLand && births[i] !in landPixels
      {
        var c := births[i];
        assert c in multiset(births);
        assert multiset(initialLand)[c] == multiset(landPixels)[c] + multiset(births)[c];
      }
      forall i, j | 0 <= i < j < |births|
        ensures births[i] != births[j]
      {
        if births[i] == births[j] {
          TwoIndicesTwice(births, i, j);
        }
      }
    }
  }

  lemma {:induction false} RowMajorHasNoRepeats(s: seq<Cell>)
    requires RowMajor(s)
    ensures forall c :: multiset(s)[c] <= 1
  {
    if s != [] {
      var front := s[..|s| - 1];
      var last := s[|s| - 1];
      assert s == front + [last];
      RowMajorHasNoRepeats(front);
      assert last !in front;
    }
  }

  lemma TwoIndicesTwice<T>(s: seq<T>, i: nat, j: nat)
    requires i < j < |s| && s[i] == s[j]
    ensures multiset(s)[s[i]] >= 2
  {
    assert s == s[..j] + [s[j]] + s[j + 1..];
    assert s[i] in s[..j];
  }
}
