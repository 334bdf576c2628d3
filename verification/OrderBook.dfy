/**
 The order-book walk and the depth metrics of radar_v08/microstructure.py. Prices
 and volumes are real numbers; float rounding is not modelled here.
 */
module OrderBook {
  import opened Options

  datatype Level = Level(price: real, volume: real)

  function Notional(l: Level): real { l.price * l.volume }

  // --- the walk ------------------------------------------------------------------------

  // What a walk took: notional, base amount, and whether the size was reached.
  datatype Fill = Fill(usd: real, base: real, full: bool)

  function Walk(levels: seq<Level>, size: real): Fill {
    if levels == [] then Fill(0.0, 0.0, false)
    else
      var l := levels[0];
      if Notional(l) >= size then Fill(size, if l.price > 0.0 then size / l.price else 0.0, true)
      else
        var rest := Walk(levels[1..], size - Notional(l));
        Fill(Notional(l) + rest.usd, l.volume + rest.base, rest.full)
  }

  function AveragePrice(f: Fill): Option<real> { if f.base > 0.0 then Some(f.usd / f.base) else None }

  // _walk_book_for_fill.
  method WalkBookForFill(levels: seq<Level>, size: real) returns (price: Option<real>, full: bool)
    ensures price == AveragePrice(Walk(levels, size)) && full == Walk(levels, size).full
  {
    if levels == [] {
      return None, false;
    }
    var usd, base := 0.0, 0.0;
    for i := 0 to |levels|
      invariant Walk(levels, size)
             == (var rest := Walk(levels[i..], size - usd); Fill(usd + rest.usd, base + rest.base, rest.full))
    {
      var l := levels[i];
      assert levels[i..][0] == l && levels[i..][1..] == levels[i + 1..];
      if usd + Notional(l) >= size {
        var remaining := size - usd;
        base := base + if l.price > 0.0 then remaining / l.price else 0.0;
        usd := usd + remaining;
        return AveragePrice(Fill(usd, base, true)), true;
      }
      usd := usd + Notional(l);
      base := base + l.volume;
    }
    return AveragePrice(Fill(usd, base, false)), false;
  }

  // --- books ---------------------------------------------------------------------------------

  predicate Positive(levels: seq<Level>) { forall i :: 0 <= i < |levels| ==> levels[i].price > 0.0 && levels[i].volume > 0.0 }

  // Best first: asks rise, bids fall.
  datatype Side = Asks | Bids

  predicate NoBetter(side: Side, a: real, b: real) { if side == Asks then a <= b else b <= a }

  predicate BestFirst(side: Side, levels: seq<Level>) {
    forall i, j :: 0 <= i < j < |levels| ==> NoBetter(side, levels[i].price, levels[j].price)
  }

  predicate Book(side: Side, levels: seq<Level>) { Positive(levels) && BestFirst(side, levels) }

  function Total(levels: seq<Level>): real { if levels == [] then 0.0 else Notional(levels[0]) + Total(levels[1..]) }

  // The price of the last level a walk touches.
  function WorstPrice(levels: seq<Level>, size: real): real
    requires levels != []
  {
    if Notional(levels[0]) >= size || |levels| == 1 then levels[0].price
    else WorstPrice(levels[1..], size - Notional(levels[0]))
  }

  lemma Tail(side: Side, levels: seq<Level>)
    requires Book(side, levels) && levels != []
    ensures Book(side, levels[1..]) && Notional(levels[0]) > 0.0 && levels[0].price > 0.0 && levels[0].volume > 0.0
    ensures |levels| > 1 ==> NoBetter(side, levels[0].price, levels[1].price)
  {
    var tail := levels[1..];
    forall i | 0 <= i < |tail| ensures tail[i].price > 0.0 && tail[i].volume > 0.0 {
      assert tail[i] == levels[i + 1];
    }
    forall i, j | 0 <= i < j < |tail| ensures NoBetter(side, tail[i].price, tail[j].price) {
      assert tail[i] == levels[i + 1] && tail[j] == levels[j + 1];
    }
  }

  // --- what a walk takes ----------------------------------------------------------------------

  /** The walk reports a full fill exactly when the book holds the size; it takes the size, or the whole book. */
  lemma {:induction false} FilledIffEnough(side: Side, levels: seq<Level>, size: real)
    requires Book(side, levels) && size > 0.0
    ensures var f := Walk(levels, size);
            && (f.full <==> Total(levels) >= size)
            && f.usd == (if f.full then size else Total(levels))
            && (f.base > 0.0 <==> levels != []) && f.base >= 0.0 && Total(levels) >= 0.0
  {
    if levels != [] {
      Tail(side, levels);
      if Notional(levels[0]) < size {
        FilledIffEnough(side, levels[1..], size - Notional(levels[0]));
      } else {
        TotalPositive(side, levels[1..]);
        Divides(size, levels[0].price);
      }
    }
  }

  lemma {:induction false} TotalPositive(side: Side, levels: seq<Level>)
    requires Book(side, levels)
    ensures Total(levels) >= 0.0
  {
    if levels != [] {
      Tail(side, levels);
      TotalPositive(side, levels[1..]);
    }
  }

  lemma Divides(a: real, p: real)
    requires p > 0.0
    ensures a / p * p == a && (a > 0.0 ==> a / p > 0.0) && (a >= 0.0 ==> a / p >= 0.0)
  {
  }

  lemma Divided(a: real, b: real, q: real)
    requires q > 0.0 && a <= b
    ensures a / q <= b / q && (b / q - a / q) * q == b - a
  {
    Divides(a, q);
    Divides(b, q);
    assert b / q - a / q == (b - a) / q;
    Divides(b - a, q);
  }

  lemma Scales(a: real, b: real, k: real)
    requires a <= b && k >= 0.0
    ensures a * k <= b * k
  {
  }

  // This amount of base for this notional is no better than at price p.
  predicate Costs(side: Side, p: real, base: real, usd: real) { NoBetter(side, p * base, usd) }

  // Taken at price q, no better than at price p.
  lemma WithinLevel(side: Side, p: real, q: real, a: real, b: real)
    requires q > 0.0 && a <= b && NoBetter(side, p, q)
    ensures a / q <= b / q && Costs(side, p, b / q - a / q, b - a)
  {
    Divided(a, b, q);
    var d := b / q - a / q;
    assert q * d == d * q;
    if side == Asks {
      Scales(p, q, d);
    } else {
      Scales(q, p, d);
    }
  }

  lemma NothingCosts(side: Side, p: real)
    ensures Costs(side, p, 0.0, 0.0)
  {
  }

  lemma AddUp(side: Side, p: real, x: real, y: real, u: real, v: real)
    requires Costs(side, p, x, u) && Costs(side, p, y, v)
    ensures Costs(side, p, x + y, u + v)
  {
    assert p * (x + y) == p * x + p * y;
  }

  // A larger walk takes more, and what it takes more costs no better than p if no level does.
  lemma {:induction false} RestCosts(side: Side, levels: seq<Level>, small: real, large: real, p: real)
    requires Book(side, levels) && 0.0 <= small <= large
    requires levels != [] ==> NoBetter(side, p, levels[0].price)
    ensures var f, g := Walk(levels, small), Walk(levels, large);
            f.base <= g.base && Costs(side, p, g.base - f.base, g.usd - f.usd)
  {
    if levels == [] {
      NothingCosts(side, p);
    } else {
      hide Costs;
      var q, n, rest := levels[0].price, Notional(levels[0]), levels[1..];
      Tail(side, levels);
      if n >= large {
        WithinLevel(side, p, q, small, large);
      } else if n >= small {
        var g := Walk(rest, large - n);
        WithinLevel(side, p, q, small, n);
        WholeLevel(levels[0]);
        ZeroWalk(side, rest);
        RestCosts(side, rest, 0.0, large - n, p);
        AddUp(side, p, n / q - small / q, g.base, n - small, g.usd);
      } else {
        RestCosts(side, rest, small - n, large - n, p);
      }
    }
  }

  lemma WholeLevel(l: Level)
    requires l.price > 0.0
    ensures Notional(l) / l.price == l.volume
  {
  }

  lemma ZeroWalk(side: Side, levels: seq<Level>)
    requires Book(side, levels)
    ensures Walk(levels, 0.0).usd == 0.0 && Walk(levels, 0.0).base == 0.0
  {
    if levels != [] {
      Tail(side, levels);
    }
  }

  // --- the average price ------------------------------------------------------------------------

  // Which of two averages, usd / base, is no better, without dividing.
  predicate NoBetterAverage(side: Side, f: Fill, g: Fill) { NoBetter(side, f.usd * g.base, g.usd * f.base) }

  lemma SamePrice(side: Side, q: real, a: real, b: real)
    requires q > 0.0
    ensures NoBetterAverage(side, Fill(a, a / q, true), Fill(b, b / q, true))
  {
    Divides(a, q);
    Divides(b, q);
    var x, y := a / q, b / q;
    assert a == x * q && b == y * q;
    assert (x * q) * y == (y * q) * x;
  }

  lemma FirstLevelIsBest(side: Side, q: real, a: real, g: Fill)
    requires q > 0.0 && a >= 0.0 && Costs(side, q, g.base, g.usd)
    ensures NoBetterAverage(side, Fill(a, a / q, true), g)
  {
    Divides(a, q);
    var x := a / q;
    assert a * g.base == (q * g.base) * x;
    if side == Asks {
      Scales(q * g.base, g.usd, x);
    } else {
      Scales(g.usd, q * g.base, x);
    }
  }

  lemma Expands(a: real, b: real, c: real, d: real)
    ensures (a + b) * (c + d) == a * c + a * d + b * c + b * d
  {
    assert (a + b) * (c + d) == a * (c + d) + b * (c + d);
  }

  lemma Difference(a: real, b: real, k: real)
    ensures (a - b) * k == a * k - b * k
  {
  }

  // What the larger one takes more costs no better than p, for v times as much.
  lemma CostsTimes(side: Side, q: real, base: real, usd: real, v: real)
    requires v > 0.0 && Costs(side, q, base, usd)
    ensures NoBetter(side, (q * v) * base, usd * v)
  {
    if side == Asks {
      Scales(q * base, usd, v);
    } else {
      Scales(usd, q * base, v);
    }
    assert (q * v) * base == (q * base) * v;
  }

  // A shared first level keeps the order.
  lemma SharedLevel(side: Side, l: Level, f: Fill, g: Fill)
    requires l.volume > 0.0 && NoBetterAverage(side, f, g) && Costs(side, l.price, g.base - f.base, g.usd - f.usd)
    ensures NoBetterAverage(side, Fill(Notional(l) + f.usd, l.volume + f.base, f.full), Fill(Notional(l) + g.usd, l.volume + g.base, g.full))
  {
    hide Costs;
    var n, v := Notional(l), l.volume;
    CostsTimes(side, l.price, g.base - f.base, g.usd - f.usd, v);
    hide Notional;
    Expands(n, f.usd, v, g.base);
    Expands(n, g.usd, v, f.base);
    Difference(g.usd, f.usd, v);
    Difference(g.base, f.base, n);
    assert n * (g.base - f.base) == (g.base - f.base) * n;
  }

  lemma {:induction false} LargerIsNoBetter(side: Side, levels: seq<Level>, small: real, large: real)
    requires Book(side, levels) && 0.0 <= small <= large
    ensures NoBetterAverage(side, Walk(levels, small), Walk(levels, large))
  {
    if levels != [] {
      hide NoBetterAverage, Costs, Notional, Positive, BestFirst;
      var l, rest := levels[0], levels[1..];
      var n := Notional(l);
      Tail(side, levels);
      if n >= large {
        SamePrice(side, l.price, small, large);
      } else if n >= small {
        ZeroWalk(side, levels);
        RestCosts(side, levels, 0.0, large, l.price);
        FirstLevelIsBest(side, l.price, small, Walk(levels, large));
      } else {
        LargerIsNoBetter(side, rest, small - n, large - n);
        RestCosts(side, rest, small - n, large - n, l.price);
        SharedLevel(side, l, Walk(rest, small - n), Walk(rest, large - n));
      }
    }
  }

  lemma Averages(side: Side, f: Fill, g: Fill)
    requires f.base > 0.0 && g.base > 0.0 && NoBetterAverage(side, f, g)
    ensures NoBetter(side, f.usd / f.base, g.usd / g.base)
  {
    var x, y, k := f.usd / f.base, g.usd / g.base, f.base * g.base;
    Divides(f.usd, f.base);
    Divides(g.usd, g.base);
    assert f.usd * g.base == x * k;
    assert g.usd * f.base == y * k;
    CancelFactor(x, y, k);
  }

  lemma CancelFactor(x: real, y: real, k: real)
    requires k > 0.0
    ensures x * k <= y * k <==> x <= y
  {
  }

  /** The average fill price never improves as the size grows, whether or not the book can fill it. */
  lemma AverageNeverImproves(side: Side, levels: seq<Level>, small: real, large: real)
    requires Book(side, levels) && levels != [] && 0.0 < small <= large
    ensures var a, b := AveragePrice(Walk(levels, small)), AveragePrice(Walk(levels, large));
            a.Some? && b.Some? && NoBetter(side, a.value, b.value)
  {
    FilledIffEnough(side, levels, small);
    FilledIffEnough(side, levels, large);
    LargerIsNoBetter(side, levels, small, large);
    Averages(side, Walk(levels, small), Walk(levels, large));
  }

  // --- what the walk pays ---------------------------------------------------------------------

  // How much of each level is taken: never more than it holds, and a level only once all before it are gone.
  predicate Takes(levels: seq<Level>, takes: seq<real>) {
    && |takes| == |levels|
    && (forall i :: 0 <= i < |takes| ==> 0.0 <= takes[i] <= levels[i].volume)
    && (forall i, j :: 0 <= i < j < |takes| && takes[j] > 0.0 ==> takes[i] == levels[i].volume)
  }

  function Taken(takes: seq<real>): real { if takes == [] then 0.0 else takes[0] + Taken(takes[1..]) }

  // What the takes cost.
  function Cost(levels: seq<Level>, takes: seq<real>): real
    requires |takes| == |levels|
  {
    if takes == [] then 0.0 else levels[0].price * takes[0] + Cost(levels[1..], takes[1..])
  }

  // Nothing of any level.
  function Untouched(n: nat): (takes: seq<real>)
    ensures |takes| == n && forall i :: 0 <= i < n ==> takes[i] == 0.0
  {
    seq(n, _ => 0.0)
  }

  lemma {:induction false} UntouchedCosts(levels: seq<Level>)
    ensures Taken(Untouched(|levels|)) == 0.0 && Cost(levels, Untouched(|levels|)) == 0.0
  {
    if levels != [] {
      UntouchedCosts(levels[1..]);
      assert Untouched(|levels|)[1..] == Untouched(|levels| - 1);
    }
  }

  lemma OneLevel(levels: seq<Level>, x: real, rest: seq<real>)
    requires levels != [] && |rest| == |levels| - 1
    ensures Taken([x] + rest) == x + Taken(rest) && Cost(levels, [x] + rest) == levels[0].price * x + Cost(levels[1..], rest)
  {
    assert ([x] + rest)[1..] == rest;
  }

  lemma PartOfLevel(l: Level, size: real)
    requires l.price > 0.0 && 0.0 <= size <= Notional(l)
    ensures 0.0 <= size / l.price <= l.volume && l.price * (size / l.price) == size
  {
    Divided(size, Notional(l), l.price);
    WholeLevel(l);
    Divides(size, l.price);
  }

  lemma TakesFirst(levels: seq<Level>, x: real, rest: seq<real>)
    requires levels != [] && Takes(levels[1..], rest) && 0.0 <= x <= levels[0].volume
    requires x == levels[0].volume || rest == Untouched(|levels| - 1)
    ensures Takes(levels, [x] + rest)
  {
    var all := [x] + rest;
    forall i | 0 <= i < |all| ensures 0.0 <= all[i] <= levels[i].volume {
      assert i > 0 ==> all[i] == rest[i - 1] && levels[i] == levels[1..][i - 1];
    }
    forall i, j | 0 <= i < j < |all| && all[j] > 0.0 ensures all[i] == levels[i].volume {
      assert all[j] == rest[j - 1];
      assert i > 0 ==> all[i] == rest[i - 1] && levels[i] == levels[1..][i - 1];
    }
  }

  lemma TakesPart(side: Side, levels: seq<Level>, size: real) returns (takes: seq<real>)
    requires Book(side, levels) && levels != [] && 0.0 <= size <= Notional(levels[0])
    ensures Takes(levels, takes) && Taken(takes) == size / levels[0].price && Cost(levels, takes) == size
  {
    hide Takes, Notional;
    var rest := levels[1..];
    Tail(side, levels);
    PartOfLevel(levels[0], size);
    UntouchedTakes(side, rest);
    UntouchedCosts(rest);
    TakesFirst(levels, size / levels[0].price, Untouched(|rest|));
    OneLevel(levels, size / levels[0].price, Untouched(|rest|));
    takes := [size / levels[0].price] + Untouched(|rest|);
  }

  lemma TakesWhole(side: Side, levels: seq<Level>, more: seq<real>) returns (takes: seq<real>)
    requires Book(side, levels) && levels != [] && Takes(levels[1..], more)
    ensures Takes(levels, takes) && |more| == |levels| - 1
    ensures Taken(takes) == levels[0].volume + Taken(more) && Cost(levels, takes) == Notional(levels[0]) + Cost(levels[1..], more)
  {
    hide Takes;
    Tail(side, levels);
    TakesLong(levels[1..], more);
    TakesFirst(levels, levels[0].volume, more);
    OneLevel(levels, levels[0].volume, more);
    takes := [levels[0].volume] + more;
  }

  // The walk is such a taking.
  lemma {:induction false} WalkTakes(side: Side, levels: seq<Level>, size: real) returns (takes: seq<real>)
    requires Book(side, levels) && size >= 0.0
    ensures Takes(levels, takes) && Taken(takes) == Walk(levels, size).base && Cost(levels, takes) == Walk(levels, size).usd
  {
    hide Takes, Book, Notional, Taken, Cost;
    if levels == [] {
      takes := [];
      NothingTaken();
    } else {
      Tail(side, levels);
      if Notional(levels[0]) >= size {
        takes := TakesPart(side, levels, size);
      } else {
        var more := WalkTakes(side, levels[1..], size - Notional(levels[0]));
        takes := TakesWhole(side, levels, more);
      }
    }
  }

  lemma TakesLong(levels: seq<Level>, takes: seq<real>)
    requires Takes(levels, takes)
    ensures |takes| == |levels|
  {
  }

  lemma NothingTaken()
    ensures Takes([], []) && Taken([]) == 0.0 && Cost([], []) == 0.0
  {
  }

  lemma UntouchedTakes(side: Side, levels: seq<Level>)
    requires Book(side, levels)
    ensures Takes(levels, Untouched(|levels|))
  {
  }

  // The price of taking this size, or the whole book, best level first.
  ghost predicate PriceOf(price: real, levels: seq<Level>, size: real) {
    exists takes: seq<real> :: TakenAt(price, levels, size, takes)
  }

  predicate TakenAt(price: real, levels: seq<Level>, size: real, takes: seq<real>) {
    && Takes(levels, takes) && Taken(takes) > 0.0
    && Cost(levels, takes) == (if Total(levels) >= size then size else Total(levels))
    && price * Taken(takes) == Cost(levels, takes)
  }

  /** The average price times all that is taken, best level first, is the size, or all the book is worth. */
  lemma AverageIsThePrice(side: Side, levels: seq<Level>, size: real)
    requires Book(side, levels) && levels != [] && size > 0.0
    ensures AveragePrice(Walk(levels, size)).Some? && PriceOf(AveragePrice(Walk(levels, size)).value, levels, size)
  {
    hide Takes, Walk, Book, Total, Cost, Taken;
    FilledIffEnough(side, levels, size);
    var f := Walk(levels, size);
    var takes := WalkTakes(side, levels, size);
    TakesLong(levels, takes);
    Divides(f.usd, f.base);
    assert TakenAt(f.usd / f.base, levels, size, takes);
  }

  // This notional for this amount of base is no worse than at price w.
  predicate Within(side: Side, w: real, base: real, usd: real) { NoBetter(side, usd, w * base) }

  lemma AtWorst(side: Side, l: Level, w: real, base: real, usd: real)
    requires l.volume > 0.0 && NoBetter(side, l.price, w) && Within(side, w, base, usd)
    ensures Within(side, w, l.volume + base, Notional(l) + usd)
  {
    var x, y := Notional(l), w * l.volume;
    if side == Asks {
      Scales(l.price, w, l.volume);
      assert x <= y;
    } else {
      Scales(w, l.price, l.volume);
      assert y <= x;
    }
    assert w * (l.volume + base) == y + w * base;
  }

  lemma OnlyLevel(side: Side, q: real, size: real)
    requires q > 0.0
    ensures Within(side, q, size / q, size)
  {
    Divides(size, q);
  }

  lemma {:induction false} WorstBounds(side: Side, levels: seq<Level>, size: real)
    requires Book(side, levels) && levels != [] && size > 0.0
    ensures var f, w := Walk(levels, size), WorstPrice(levels, size);
            NoBetter(side, levels[0].price, w) && w > 0.0 && Within(side, w, f.base, f.usd)
  {
    hide Within, Notional;
    var l, rest, w := levels[0], levels[1..], WorstPrice(levels, size);
    Tail(side, levels);
    if Notional(l) >= size {
      OnlyLevel(side, l.price, size);
    } else if rest == [] {
      NothingWithin(side, w);
      AtWorst(side, l, w, 0.0, 0.0);
    } else {
      var f := Walk(rest, size - Notional(l));
      WorstBounds(side, rest, size - Notional(l));
      AtWorst(side, l, w, f.base, f.usd);
    }
  }

  lemma NothingWithin(side: Side, w: real)
    ensures Within(side, w, 0.0, 0.0)
  {
  }

  lemma BestAverage(side: Side, p: real, f: Fill)
    requires Costs(side, p, f.base, f.usd) && f.base > 0.0
    ensures NoBetter(side, p, f.usd / f.base)
  {
    Divides(f.usd, f.base);
    CancelFactor(p, f.usd / f.base, f.base);
    CancelFactor(f.usd / f.base, p, f.base);
  }

  lemma WorstAverage(side: Side, w: real, f: Fill)
    requires Within(side, w, f.base, f.usd) && f.base > 0.0
    ensures NoBetter(side, f.usd / f.base, w)
  {
    Divides(f.usd, f.base);
    CancelFactor(w, f.usd / f.base, f.base);
    CancelFactor(f.usd / f.base, w, f.base);
  }

  /** The average lies between the best price and the worst one touched. */
  lemma AverageIsBetweenTouched(side: Side, levels: seq<Level>, size: real)
    requires Book(side, levels) && levels != [] && size > 0.0
    ensures var a := AveragePrice(Walk(levels, size));
            && a.Some? && a.value > 0.0
            && NoBetter(side, levels[0].price, a.value) && NoBetter(side, a.value, WorstPrice(levels, size))
  {
    hide Costs, Within, Walk, WorstPrice;
    var f, p, w := Walk(levels, size), levels[0].price, WorstPrice(levels, size);
    FilledIffEnough(side, levels, size);
    WorstBounds(side, levels, size);
    ZeroWalk(side, levels);
    RestCosts(side, levels, 0.0, size, p);
    BestAverage(side, p, f);
    WorstAverage(side, w, f);
  }

  // --- slippage ------------------------------------------------------------------------------------

  function Slippage(side: Side, levels: seq<Level>, size: real): Option<real>
    requires levels != [] && levels[0].price > 0.0
  {
    match AveragePrice(Walk(levels, size))
    case None => None
    case Some(price) =>
      if price == 0.0 then None
      else if side == Asks then Some((price / levels[0].price - 1.0) * 10_000.0)
      else Some((1.0 - price / levels[0].price) * 10_000.0)
  }

  lemma Relative(a: real, b: real, best: real)
    requires best > 0.0 && a <= b
    ensures a / best <= b / best && best / best == 1.0
  {
    Divided(a, b, best);
  }

  /** Slippage is never negative and never falls as the size grows. */
  lemma SlippageGrows(side: Side, levels: seq<Level>, small: real, large: real)
    requires Book(side, levels) && levels != [] && 0.0 < small <= large
    ensures var a, b := Slippage(side, levels, small), Slippage(side, levels, large);
            a.Some? && b.Some? && 0.0 <= a.value <= b.value
  {
    hide Walk, WorstPrice, BestFirst;
    AverageIsBetweenTouched(side, levels, small);
    AverageIsBetweenTouched(side, levels, large);
    AverageNeverImproves(side, levels, small, large);
    var best := levels[0].price;
    var a, b := AveragePrice(Walk(levels, small)).value, AveragePrice(Walk(levels, large)).value;
    if side == Asks {
      Relative(best, a, best);
      Relative(a, b, best);
    } else {
      Relative(a, best, best);
      Relative(b, a, best);
    }
  }

  // --- depth ------------------------------------------------------------------------------------------

  predicate InBand(side: Side, price: real, mid: real, percent: real) {
    if side == Bids then price >= mid * (1.0 - percent / 100.0) else price <= mid * (1.0 + percent / 100.0)
  }

  // The notional of the levels within the band.
  function DepthUsd(side: Side, levels: seq<Level>, mid: real, percent: real): real {
    if levels == [] then 0.0
    else
      var last := levels[|levels| - 1];
      DepthUsd(side, levels[..|levels| - 1], mid, percent) + if InBand(side, last.price, mid, percent) then Notional(last) else 0.0
  }

  // _depth_usd_within_band.
  method DepthUsdWithinBand(side: Side, levels: seq<Level>, mid: real, percent: real) returns (total: real)
    ensures total == if mid <= 0.0 then 0.0 else DepthUsd(side, levels, mid, percent)
  {
    if mid <= 0.0 {
      return 0.0;
    }
    var lower := mid * (1.0 - percent / 100.0);
    var upper := mid * (1.0 + percent / 100.0);
    total := 0.0;
    for i := 0 to |levels|
      invariant total == DepthUsd(side, levels[..i], mid, percent)
    {
      assert levels[..i + 1][..i] == levels[..i];
      if side == Bids && levels[i].price >= lower {
        total := total + Notional(levels[i]);
      } else if side == Asks && levels[i].price <= upper {
        total := total + Notional(levels[i]);
      }
    }
    assert levels[..|levels|] == levels;
  }

  lemma WiderBand(side: Side, price: real, mid: real, narrow: real, wide: real)
    requires mid > 0.0 && narrow <= wide && InBand(side, price, mid, narrow)
    ensures InBand(side, price, mid, wide)
  {
    Scales(1.0 - wide / 100.0, 1.0 - narrow / 100.0, mid);
    Scales(1.0 + narrow / 100.0, 1.0 + wide / 100.0, mid);
  }

  /** A wider band never holds less, and no band a negative amount. */
  lemma {:induction false} DepthGrowsWithTheBand(side: Side, levels: seq<Level>, mid: real, narrow: real, wide: real)
    requires Positive(levels) && mid > 0.0 && narrow <= wide
    ensures 0.0 <= DepthUsd(side, levels, mid, narrow) <= DepthUsd(side, levels, mid, wide)
  {
    if levels != [] {
      hide InBand;
      var last := levels[|levels| - 1];
      DepthGrowsWithTheBand(side, levels[..|levels| - 1], mid, narrow, wide);
      assert Notional(last) > 0.0;
      if InBand(side, last.price, mid, narrow) {
        WiderBand(side, last.price, mid, narrow, wide);
      }
    }
  }

  datatype DepthMetrics = DepthMetrics(
    mid: real, spreadBps: Option<real>, bidDepthHalf: real, askDepthHalf: real, bidDepthOne: real, askDepthOne: real,
    imbalance: Option<real>, slippageBuyBps: Option<real>, slippageSellBps: Option<real>, available: bool)

  function Imbalance(bid: real, ask: real): Option<real> {
    if bid + ask > 0.0 then Some((bid - ask) / (bid + ask)) else None
  }

  // compute_depth_metrics; quality is OK exactly when `available`, else THIN_BOOK.
  function Metrics(bids: seq<Level>, asks: seq<Level>, reference: real): Option<DepthMetrics> {
    if bids == [] || asks == [] then None
    else
      var bestBid, bestAsk := bids[0].price, asks[0].price;
      if bestBid <= 0.0 || bestAsk <= 0.0 || bestAsk < bestBid then None
      else
        var mid := (bestBid + bestAsk) / 2.0;
        var bidOne, askOne := DepthUsd(Bids, bids, mid, 1.0), DepthUsd(Asks, asks, mid, 1.0);
        Some(DepthMetrics(
               mid, Some((bestAsk - bestBid) / mid * 10_000.0),
               DepthUsd(Bids, bids, mid, 0.5), DepthUsd(Asks, asks, mid, 0.5), bidOne, askOne, Imbalance(bidOne, askOne),
               Slippage(Asks, asks, reference), Slippage(Bids, bids, reference),
               Walk(asks, reference).full && Walk(bids, reference).full))
  }

  method ComputeDepthMetrics(bids: seq<Level>, asks: seq<Level>, reference: real) returns (m: Option<DepthMetrics>)
    ensures m == Metrics(bids, asks, reference)
    ensures m.Some? && Book(Bids, bids) && Book(Asks, asks) && reference > 0.0 ==> MetricsSay(bids, asks, reference, m.value)
  {
    hide MetricsSay;
    if Metrics(bids, asks, reference).Some? && Book(Bids, bids) && Book(Asks, asks) && reference > 0.0 {
      MetricsInNumbers(bids, asks, reference);
    }
    if bids == [] || asks == [] {
      return None;
    }
    var bestBid, bestAsk := bids[0].price, asks[0].price;
    if bestBid <= 0.0 || bestAsk <= 0.0 || bestAsk < bestBid {
      return None;
    }
    var mid := (bestBid + bestAsk) / 2.0;
    var bidHalf := DepthUsdWithinBand(Bids, bids, mid, 0.5);
    var askHalf := DepthUsdWithinBand(Asks, asks, mid, 0.5);
    var bidOne := DepthUsdWithinBand(Bids, bids, mid, 1.0);
    var askOne := DepthUsdWithinBand(Asks, asks, mid, 1.0);
    var buyPrice, buyFull := WalkBookForFill(asks, reference);
    var sellPrice, sellFull := WalkBookForFill(bids, reference);
    var buy := if buyPrice.Some? && buyPrice.value != 0.0 then Some((buyPrice.value / bestAsk - 1.0) * 10_000.0) else None;
    var sell := if sellPrice.Some? && sellPrice.value != 0.0 then Some((1.0 - sellPrice.value / bestBid) * 10_000.0) else None;
    m := Some(DepthMetrics(mid, Some((bestAsk - bestBid) / mid * 10_000.0), bidHalf, askHalf, bidOne, askOne,
                           Imbalance(bidOne, askOne), buy, sell, buyFull && sellFull));
  }

  lemma Ratio(a: real, b: real)
    requires a >= 0.0 && b >= 0.0 && a + b > 0.0
    ensures -1.0 <= (a - b) / (a + b) <= 1.0
  {
    var t := a + b;
    var q := (a - b) / t;
    Divides(a - b, t);
    CancelFactor(q, 1.0, t);
    CancelFactor(-1.0, q, t);
  }

  /**
   What the metrics of two well-formed books say: the reference size is available exactly
   when both sides hold it, slippages are never negative, depths grow with the band and
   the imbalance is a share.
   */
  lemma MetricsMean(bids: seq<Level>, asks: seq<Level>, reference: real)
    requires Book(Bids, bids) && Book(Asks, asks) && reference > 0.0
    ensures Metrics(bids, asks, reference).Some? <==> bids != [] && asks != [] && bids[0].price <= asks[0].price
    ensures Metrics(bids, asks, reference).Some? ==>
              var m := Metrics(bids, asks, reference).value;
              && (m.available <==> Total(bids) >= reference && Total(asks) >= reference)
              && m.slippageBuyBps.Some? && m.slippageBuyBps.value >= 0.0
              && m.slippageSellBps.Some? && m.slippageSellBps.value >= 0.0
              && 0.0 <= m.bidDepthHalf <= m.bidDepthOne && 0.0 <= m.askDepthHalf <= m.askDepthOne
              && (m.imbalance.Some? ==> -1.0 <= m.imbalance.value <= 1.0)
              && bids[0].price <= m.mid <= asks[0].price
  {
    hide Walk, DepthUsd, Total, Slippage, BestFirst;
    if Metrics(bids, asks, reference).Some? {
      var m := Metrics(bids, asks, reference).value;
      FilledIffEnough(Bids, bids, reference);
      FilledIffEnough(Asks, asks, reference);
      SlippageGrows(Bids, bids, reference, reference);
      SlippageGrows(Asks, asks, reference, reference);
      DepthGrowsWithTheBand(Bids, bids, m.mid, 0.5, 1.0);
      DepthGrowsWithTheBand(Asks, asks, m.mid, 0.5, 1.0);
      if m.imbalance.Some? {
        Ratio(m.bidDepthOne, m.askDepthOne);
      }
    }
  }

  // --- what the metrics say ----------------------------------------------------------------------

  // A level lies within a percentage of mid on its side.
  predicate Near(side: Side, price: real, mid: real, percent: real) {
    100.0 * (if side == Bids then mid - price else price - mid) <= percent * mid
  }

  // The worth of the levels near mid: the first so many of the book.
  ghost predicate DepthOf(depth: real, side: Side, levels: seq<Level>, mid: real, percent: real) {
    exists k: nat ::
      && k <= |levels| && depth == Total(levels[..k])
      && forall i :: 0 <= i < |levels| ==> (Near(side, levels[i].price, mid, percent) <==> i < k)
  }

  lemma NearIsInBand(side: Side, price: real, mid: real, percent: real)
    ensures Near(side, price, mid, percent) <==> InBand(side, price, mid, percent)
  {
    assert mid * (1.0 - percent / 100.0) == mid - mid * percent / 100.0;
    assert mid * (1.0 + percent / 100.0) == mid + mid * percent / 100.0;
  }

  lemma {:induction false} TotalAppends(levels: seq<Level>, l: Level)
    ensures Total(levels + [l]) == Total(levels) + Notional(l)
  {
    if levels == [] {
      assert [l][1..] == [];
    } else {
      TotalAppends(levels[1..], l);
      assert (levels + [l])[1..] == levels[1..] + [l];
    }
  }

  // A book's levels near mid come first.
  lemma {:induction false} NearComeFirst(side: Side, levels: seq<Level>, mid: real, percent: real) returns (k: nat)
    requires BestFirst(side, levels)
    ensures k <= |levels| && DepthUsd(side, levels, mid, percent) == Total(levels[..k])
    ensures forall i :: 0 <= i < |levels| ==> (Near(side, levels[i].price, mid, percent) <==> i < k)
  {
    if levels == [] {
      k := 0;
    } else {
      hide InBand, Near, Total;
      var n := |levels| - 1;
      var front, last := levels[..n], levels[n];
      k := NearComeFirst(side, front, mid, percent);
      NearIsInBand(side, last.price, mid, percent);
      if Near(side, last.price, mid, percent) {
        forall i | 0 <= i < n ensures Near(side, levels[i].price, mid, percent) {
          BetterIsNear(side, levels[i].price, last.price, mid, percent);
        }
        assert k == n;
        assert levels[..n + 1] == front + [last] && front[..n] == front;
        TotalAppends(front, last);
        k := n + 1;
      } else {
        assert front[..k] == levels[..k];
      }
      forall i | 0 <= i < |levels| ensures Near(side, levels[i].price, mid, percent) <==> i < k {
        assert i < n ==> front[i] == levels[i];
      }
    }
  }

  lemma BetterIsNear(side: Side, price: real, worse: real, mid: real, percent: real)
    requires NoBetter(side, price, worse) && Near(side, worse, mid, percent)
    ensures Near(side, price, mid, percent)
  {
  }

  // Bought so many basis points above the best ask, sold so many below the best bid.
  ghost predicate Slips(bps: real, side: Side, levels: seq<Level>, size: real)
    requires levels != []
  {
    exists price: real :: PriceOf(price, levels, size) && SlipsTo(bps, side, levels[0].price, price)
  }

  predicate SlipsTo(bps: real, side: Side, best: real, price: real) {
    10_000.0 * (if side == Asks then price - best else best - price) == bps * best
  }

  lemma SlippageSlips(side: Side, levels: seq<Level>, size: real)
    requires Book(side, levels) && levels != [] && size > 0.0
    ensures Slippage(side, levels, size).Some? && Slips(Slippage(side, levels, size).value, side, levels, size)
  {
    hide Walk, PriceOf, Book;
    AverageIsThePrice(side, levels, size);
    var price, best := AveragePrice(Walk(levels, size)).value, levels[0].price;
    AverageIsBetweenTouched(side, levels, size);
    assert best > 0.0 by {
      Tail(side, levels);
    }
    Slipped(side, best, price);
  }

  lemma Slipped(side: Side, best: real, price: real)
    requires best > 0.0
    ensures SlipsTo(if side == Asks then (price / best - 1.0) * 10_000.0 else (1.0 - price / best) * 10_000.0, side, best, price)
  {
    var q := price / best;
    Divides(price, best);
    assert (q - 1.0) * 10_000.0 * best == 10_000.0 * (q * best - best);
  }

  // The numbers of the metrics for two books and a reference size.
  ghost predicate MetricsSay(bids: seq<Level>, asks: seq<Level>, reference: real, m: DepthMetrics)
    requires bids != [] && asks != []
  {
    && 2.0 * m.mid == bids[0].price + asks[0].price
    && m.spreadBps.Some? && m.spreadBps.value * m.mid == 10_000.0 * (asks[0].price - bids[0].price)
    && DepthOf(m.bidDepthHalf, Bids, bids, m.mid, 0.5) && DepthOf(m.askDepthHalf, Asks, asks, m.mid, 0.5)
    && DepthOf(m.bidDepthOne, Bids, bids, m.mid, 1.0) && DepthOf(m.askDepthOne, Asks, asks, m.mid, 1.0)
    && (m.imbalance.None? <==> m.bidDepthOne + m.askDepthOne == 0.0)
    && (m.imbalance.Some? ==> m.imbalance.value * (m.bidDepthOne + m.askDepthOne) == m.bidDepthOne - m.askDepthOne)
    && m.slippageBuyBps.Some? && Slips(m.slippageBuyBps.value, Asks, asks, reference)
    && m.slippageSellBps.Some? && Slips(m.slippageSellBps.value, Bids, bids, reference)
  }

  lemma DepthIsOf(side: Side, levels: seq<Level>, mid: real, percent: real)
    requires Book(side, levels)
    ensures DepthOf(DepthUsd(side, levels, mid, percent), side, levels, mid, percent)
  {
    hide Near, Total, DepthUsd, Positive, BestFirst;
    var k := NearComeFirst(side, levels, mid, percent);
  }

  /** The metrics of two books in numbers: mid and spread, the depths near mid, their imbalance, and both slippages. */
  lemma MetricsInNumbers(bids: seq<Level>, asks: seq<Level>, reference: real)
    requires Book(Bids, bids) && Book(Asks, asks) && reference > 0.0 && Metrics(bids, asks, reference).Some?
    ensures MetricsSay(bids, asks, reference, Metrics(bids, asks, reference).value)
  {
    hide Walk, DepthUsd, DepthOf, Slippage, Slips, Book;
    var m := Metrics(bids, asks, reference).value;
    DepthIsOf(Bids, bids, m.mid, 0.5);
    DepthIsOf(Asks, asks, m.mid, 0.5);
    DepthIsOf(Bids, bids, m.mid, 1.0);
    DepthIsOf(Asks, asks, m.mid, 1.0);
    SlippageSlips(Asks, asks, reference);
    SlippageSlips(Bids, bids, reference);
    Spread(asks[0].price - bids[0].price, m.mid);
    assert m.bidDepthOne >= 0.0 && m.askDepthOne >= 0.0 by {
      DepthsPositive(bids, asks, m.mid);
    }
    if m.imbalance.Some? {
      Divides(m.bidDepthOne - m.askDepthOne, m.bidDepthOne + m.askDepthOne);
    }
  }

  lemma DepthsPositive(bids: seq<Level>, asks: seq<Level>, mid: real)
    requires Book(Bids, bids) && Book(Asks, asks) && mid > 0.0
    ensures DepthUsd(Bids, bids, mid, 1.0) >= 0.0 && DepthUsd(Asks, asks, mid, 1.0) >= 0.0
  {
    DepthGrowsWithTheBand(Bids, bids, mid, 1.0, 1.0);
    DepthGrowsWithTheBand(Asks, asks, mid, 1.0, 1.0);
  }

  lemma Spread(width: real, mid: real)
    requires mid > 0.0
    ensures width / mid * 10_000.0 * mid == 10_000.0 * width
  {
    Divides(width, mid);
  }
}
