/** Order book sides kept sorted under deltas. */
module OrderBook {
  import opened Prelude
  import opened StableSort

  datatype Level = Level(price: real, size: real)

  datatype Side = Bid | Ask

  datatype Book = Book(
    bids: seq<Level>, asks: seq<Level>, tickSize: real, minOrderSize: real, lastUpdateMs: int, stableSinceMs: int,
    bestBid: Option<Level>, bestAsk: Option<Level>)

  datatype Delta = Delta(
    side: Side, price: real, size: real, receivedAtMs: int, tickSize: Option<real>, minOrderSize: Option<real>)

  /** A level as received; a field that is not a finite number is None. */
  datatype RawLevel = RawLevel(price: Option<real>, size: Option<real>)

  datatype RawBook = RawBook(bids: seq<RawLevel>, asks: seq<RawLevel>, tickSize: Option<real>,
    minOrderSize: Option<real>)

  /** Best price first. */
  function ByPrice(side: Side): Level -> real {
    (l: Level) => if side.Bid? then 0.0 - l.price else l.price
  }

  function Head(levels: seq<Level>): Option<Level> {
    if levels == [] then None else Some(levels[0])
  }

  function PositiveOr(x: Option<real>, default: real): real {
    if x.Some? && x.value > 0.0 then x.value else default
  }

  // ------------------------------------------------------------------ snapshots

  function Usable(): RawLevel -> bool {
    (r: RawLevel) => r.price.Some? && r.size.Some? && r.size.value > 0.0
  }

  function LevelOf(r: RawLevel): Level {
    Level(r.price.GetOr(0.0), r.size.GetOr(0.0))
  }

  function Parsed(raw: seq<RawLevel>): (r: seq<Level>)
    ensures |r| == |raw| && forall i :: 0 <= i < |raw| ==> r[i] == LevelOf(raw[i])
  {
    seq(|raw|, i requires 0 <= i < |raw| => LevelOf(raw[i]))
  }

  function NormalizedLevels(raw: seq<RawLevel>, side: Side): seq<Level> {
    Sort(ByPrice(side), Parsed(Filter(Usable(), raw)))
  }

  /** A full book from a snapshot; the previous book supplies what is missing. */
  function Normalized(raw: RawBook, now: int, defaultTick: real, defaultMin: real, previous: Option<Book>): Book {
    var bids, asks := NormalizedLevels(raw.bids, Bid), NormalizedLevels(raw.asks, Ask);
    var beforeBid := if previous.Some? then previous.value.bestBid else None;
    var beforeAsk := if previous.Some? then previous.value.bestAsk else None;
    var isStable := beforeBid == Head(bids) && beforeAsk == Head(asks);
    Book(bids, asks,
      PositiveOr(raw.tickSize,
        if previous.Some? && previous.value.tickSize > 0.0 then previous.value.tickSize else defaultTick),
      PositiveOr(raw.minOrderSize,
        if previous.Some? && previous.value.minOrderSize > 0.0 then previous.value.minOrderSize else defaultMin),
      now, if isStable && previous.Some? then previous.value.stableSinceMs else now, Head(bids), Head(asks))
  }

  // ------------------------------------------------------------------ deltas

  /** Index of the first level at this price, or -1. */
  function IndexOf(levels: seq<Level>, price: real): (i: int)
    ensures -1 <= i < |levels|
    ensures i >= 0 ==> levels[i].price == price
    ensures i == -1 ==> forall l :: l in levels ==> l.price != price
  {
    if levels == [] then -1
    else
      var i := IndexOf(levels[..|levels| - 1], price);
      if i >= 0 then i else if levels[|levels| - 1].price == price then |levels| - 1 else -1
  }

  /** The list after the splice, the replacement or the push, before sorting. */
  function Edited(levels: seq<Level>, price: real, size: real): seq<Level> {
    var i := IndexOf(levels, price);
    if size <= 0.0 then if i >= 0 then levels[..i] + levels[i + 1..] else levels
    else if i >= 0 then levels[i := Level(price, size)]
    else levels + [Level(price, size)]
  }

  function Updated(levels: seq<Level>, side: Side, price: real, size: real): seq<Level> {
    Sort(ByPrice(side), Edited(levels, price, size))
  }

  function AfterDelta(book: Book, d: Delta): Book {
    var bids := if d.side.Bid? then Updated(book.bids, Bid, d.price, d.size) else book.bids;
    var asks := if d.side.Ask? then Updated(book.asks, Ask, d.price, d.size) else book.asks;
    var isStable := book.bestBid == Head(bids) && book.bestAsk == Head(asks);
    Book(bids, asks, PositiveOr(d.tickSize, book.tickSize), PositiveOr(d.minOrderSize, book.minOrderSize),
      d.receivedAtMs, if isStable then book.stableSinceMs else d.receivedAtMs, Head(bids), Head(asks))
  }

  function Run(book: Book, deltas: seq<Delta>): Book {
    if deltas == [] then book else AfterDelta(Run(book, deltas[..|deltas| - 1]), deltas[|deltas| - 1])
  }

  // ------------------------------------------------------------------ the reference: a plain map per side

  function Content(levels: seq<Level>): map<real, real> {
    if levels == [] then map[]
    else Content(levels[..|levels| - 1])[levels[|levels| - 1].price := levels[|levels| - 1].size]
  }

  function Put(m: map<real, real>, price: real, size: real): map<real, real> {
    if size <= 0.0 then m - {price} else m[price := size]
  }

  /** The map after the deltas of one side. */
  function MapRun(m: map<real, real>, side: Side, deltas: seq<Delta>): map<real, real> {
    if deltas == [] then m
    else
      var before, d := MapRun(m, side, deltas[..|deltas| - 1]), deltas[|deltas| - 1];
      if d.side == side then Put(before, d.price, d.size) else before
  }

  ghost predicate ValidSide(levels: seq<Level>, side: Side) {
    && Sorted(ByPrice(side), levels)
    && DistinctKeys(ByPrice(side), levels)
    && forall l :: l in levels ==> l.size > 0.0
  }

  ghost predicate Valid(book: Book) {
    && ValidSide(book.bids, Bid) && ValidSide(book.asks, Ask)
    && book.bestBid == Head(book.bids) && book.bestAsk == Head(book.asks)
  }

  // ------------------------------------------------------------------ content and order

  predicate Has(m: map<real, real>, price: real, size: real) {
    price in m && m[price] == size
  }

  lemma SameEntries(a: map<real, real>, b: map<real, real>)
    requires forall p, s :: Has(a, p, s) <==> Has(b, p, s)
    ensures a == b
  {
    forall p
      ensures p in a <==> p in b
      ensures p in a ==> a[p] == b[p]
    {
      if p in a {
        assert Has(a, p, a[p]);
      }
      if p in b {
        assert Has(b, p, b[p]);
      }
    }
  }

  lemma DistinctPrices(levels: seq<Level>, side: Side)
    ensures DistinctKeys(ByPrice(side), levels) <==> forall i, j :: 0 <= i < j < |levels| ==>
      levels[i].price != levels[j].price
  {
    var key := ByPrice(side);
    if DistinctKeys(key, levels) {
      forall i, j | 0 <= i < j < |levels|
        ensures levels[i].price != levels[j].price
      {
        assert key(levels[i]) != key(levels[j]);
      }
    }
  }

  lemma LastIsNew(levels: seq<Level>, side: Side)
    requires levels != [] && DistinctKeys(ByPrice(side), levels)
    ensures forall l :: l in levels[..|levels| - 1] ==> l.price != levels[|levels| - 1].price
  {
    DistinctPrices(levels, side);
    var front := levels[..|levels| - 1];
    forall l | l in front
      ensures l.price != levels[|levels| - 1].price
    {
      var i :| 0 <= i < |front| && front[i] == l;
    }
  }

  lemma ContentPush(levels: seq<Level>, p: real, s: real)
    requires levels != []
    ensures var last := levels[|levels| - 1];
      Has(Content(levels), p, s) <==>
        if p == last.price then s == last.size else Has(Content(levels[..|levels| - 1]), p, s)
  {
  }

  /** The entries of the content are the levels. */
  lemma {:induction false} ContentIs(levels: seq<Level>, side: Side, p: real, s: real)
    requires DistinctKeys(ByPrice(side), levels)
    ensures Has(Content(levels), p, s) <==> Level(p, s) in levels
  {
    if levels != [] {
      var front, last := levels[..|levels| - 1], levels[|levels| - 1];
      ContentIs(front, side, p, s);
      ContentPush(levels, p, s);
      LastIsNew(levels, side);
      assert levels == front + [last];
    }
  }

  /** Lists of distinct prices with the same levels have the same content. */
  lemma SameLevelsSameContent(a: seq<Level>, b: seq<Level>, side: Side)
    requires DistinctKeys(ByPrice(side), a) && DistinctKeys(ByPrice(side), b)
    requires forall l :: l in a <==> l in b
    ensures Content(a) == Content(b)
  {
    forall p, s
      ensures Has(Content(a), p, s) <==> Has(Content(b), p, s)
    {
      ContentIs(a, side, p, s);
      ContentIs(b, side, p, s);
    }
    SameEntries(Content(a), Content(b));
  }

  lemma RemovedMembers(levels: seq<Level>, i: nat, side: Side)
    requires i < |levels| && DistinctKeys(ByPrice(side), levels)
    ensures DistinctKeys(ByPrice(side), levels[..i] + levels[i + 1..])
    ensures forall l :: l in levels[..i] + levels[i + 1..] <==> l in levels && l.price != levels[i].price
  {
    var rest := levels[..i] + levels[i + 1..];
    assert forall k :: 0 <= k < |rest| ==> rest[k] == levels[if k < i then k else k + 1];
    DistinctPrices(levels, side);
    DistinctPrices(rest, side);
    forall l | l in levels && l.price != levels[i].price
      ensures l in rest
    {
      var k :| 0 <= k < |levels| && levels[k] == l;
      assert rest[if k < i then k else k - 1] == l;
    }
  }

  lemma ReplacedMembers(levels: seq<Level>, i: nat, size: real, side: Side)
    requires i < |levels| && DistinctKeys(ByPrice(side), levels)
    ensures var r := levels[i := Level(levels[i].price, size)];
      DistinctKeys(ByPrice(side), r)
      && forall l :: l in r <==> l == Level(levels[i].price, size) || (l in levels && l.price != levels[i].price)
  {
    var r := levels[i := Level(levels[i].price, size)];
    DistinctPrices(levels, side);
    DistinctPrices(r, side);
    assert r[i] == Level(levels[i].price, size);
    forall l | l in levels && l.price != levels[i].price
      ensures l in r
    {
      var k :| 0 <= k < |levels| && levels[k] == l;
      assert r[k] == l;
    }
  }

  /** The edited list holds the other levels, and the new one if its size is positive. */
  lemma EditedMembers(levels: seq<Level>, price: real, size: real, side: Side)
    requires DistinctKeys(ByPrice(side), levels)
    ensures DistinctKeys(ByPrice(side), Edited(levels, price, size))
    ensures forall l :: l in Edited(levels, price, size) <==>
      (l in levels && l.price != price) || (size > 0.0 && l == Level(price, size))
  {
    var i := IndexOf(levels, price);
    if i >= 0 {
      RemovedMembers(levels, i, side);
      ReplacedMembers(levels, i, size, side);
    } else {
      DistinctPrices(levels, side);
      DistinctPrices(levels + [Level(price, size)], side);
      forall k | 0 <= k < |levels|
        ensures levels[k].price != price
      {
        assert levels[k] in levels;
      }
    }
  }

  lemma EditedContent(levels: seq<Level>, price: real, size: real, side: Side)
    requires DistinctKeys(ByPrice(side), levels)
    ensures Content(Edited(levels, price, size)) == Put(Content(levels), price, size)
  {
    EditedMembers(levels, price, size, side);
    var edited := Edited(levels, price, size);
    forall p, s
      ensures Has(Content(edited), p, s) <==> Has(Put(Content(levels), price, size), p, s)
    {
      ContentIs(levels, side, p, s);
      ContentIs(edited, side, p, s);
      PutIs(Content(levels), price, size, p, s);
    }
    SameEntries(Content(edited), Put(Content(levels), price, size));
  }

  lemma PutIs(m: map<real, real>, price: real, size: real, p: real, s: real)
    ensures Has(Put(m, price, size), p, s) <==> (p != price && Has(m, p, s)) || (size > 0.0 && p == price && s == size)
  {
  }

  lemma UpdateKeepsValid(levels: seq<Level>, side: Side, price: real, size: real)
    requires ValidSide(levels, side)
    ensures ValidSide(Updated(levels, side, price, size), side)
    ensures Content(Updated(levels, side, price, size)) == Put(Content(levels), price, size)
  {
    var edited := Edited(levels, price, size);
    EditedMembers(levels, price, size, side);
    EditedContent(levels, price, size, side);
    SortIsSorted(ByPrice(side), edited);
    SortDistinct(ByPrice(side), edited);
    SortMembers(ByPrice(side), edited);
    SameLevelsSameContent(Sort(ByPrice(side), edited), edited, side);
  }

  /** A sorted side is the only one with its content: the map says everything about it. */
  lemma {:induction false} ContentDeterminesSide(a: seq<Level>, b: seq<Level>, side: Side)
    requires ValidSide(a, side) && ValidSide(b, side) && Content(a) == Content(b)
    ensures a == b
    decreases |a|
  {
    hide ValidSide, Content;
    EmptyTogether(a, b);
    if a != [] {
      SameLast(a, b, side);
      FrontIsValid(a, side);
      FrontIsValid(b, side);
      FrontContent(a, side);
      FrontContent(b, side);
      ContentDeterminesSide(a[..|a| - 1], b[..|b| - 1], side);
      assert a == a[..|a| - 1] + [a[|a| - 1]] && b == b[..|b| - 1] + [b[|b| - 1]];
    }
  }

  lemma EmptyTogether(a: seq<Level>, b: seq<Level>)
    requires Content(a) == Content(b)
    ensures a == [] <==> b == []
  {
    EmptyContent(a);
    EmptyContent(b);
  }

  lemma SameLast(a: seq<Level>, b: seq<Level>, side: Side)
    requires ValidSide(a, side) && ValidSide(b, side) && Content(a) == Content(b) && a != [] && b != []
    ensures a[|a| - 1] == b[|b| - 1]
  {
    hide Content;
    var x, y := a[|a| - 1], b[|b| - 1];
    SharedLevel(a, b, side, x);
    SharedLevel(b, a, side, y);
    LastIsLargest(a, side, y);
    LastIsLargest(b, side, x);
    OnePerPrice(b, side, x, y);
  }

  lemma SharedLevel(a: seq<Level>, b: seq<Level>, side: Side, l: Level)
    requires ValidSide(a, side) && ValidSide(b, side) && Content(a) == Content(b) && l in a
    ensures l in b
  {
    ContentIs(a, side, l.price, l.size);
    ContentIs(b, side, l.price, l.size);
  }

  lemma OnePerPrice(levels: seq<Level>, side: Side, x: Level, y: Level)
    requires ValidSide(levels, side) && x in levels && y in levels && x.price == y.price
    ensures x == y
  {
    ContentIs(levels, side, x.price, x.size);
    ContentIs(levels, side, y.price, y.size);
  }

  lemma EmptyContent(levels: seq<Level>)
    ensures levels != [] ==> Content(levels) != map[]
  {
    if levels != [] {
      assert levels[|levels| - 1].price in Content(levels);
    }
  }

  lemma LastIsLargest(levels: seq<Level>, side: Side, l: Level)
    requires Sorted(ByPrice(side), levels) && l in levels
    ensures ByPrice(side)(l) <= ByPrice(side)(levels[|levels| - 1])
  {
    var i :| 0 <= i < |levels| && levels[i] == l;
  }

  lemma FrontIsValid(levels: seq<Level>, side: Side)
    requires levels != [] && ValidSide(levels, side)
    ensures ValidSide(levels[..|levels| - 1], side)
  {
    forall l | l in levels[..|levels| - 1]
      ensures l in levels
    {
    }
  }

  lemma PutThenRemove(m: map<real, real>, p: real, s: real)
    requires p !in m
    ensures m[p := s] - {p} == m
  {
  }

  lemma FrontContent(levels: seq<Level>, side: Side)
    requires levels != [] && ValidSide(levels, side)
    ensures Content(levels[..|levels| - 1]) == Content(levels) - {levels[|levels| - 1].price}
  {
    var front, last := levels[..|levels| - 1], levels[|levels| - 1];
    LastIsNew(levels, side);
    FrontIsValid(levels, side);
    NotPresent(front, side, last.price);
    PutThenRemove(Content(front), last.price, last.size);
  }

  lemma NotPresent(levels: seq<Level>, side: Side, price: real)
    requires ValidSide(levels, side) && forall l :: l in levels ==> l.price != price
    ensures price !in Content(levels)
  {
    if price in Content(levels) {
      ContentIs(levels, side, price, Content(levels)[price]);
    }
  }

  /** The head of a valid side is its best price. */
  lemma BestIsAtHead(levels: seq<Level>, side: Side, price: real)
    requires ValidSide(levels, side) && price in Content(levels)
    ensures levels != []
    ensures if side.Bid? then price <= levels[0].price else levels[0].price <= price
  {
    ContentIs(levels, side, price, Content(levels)[price]);
    var l := Level(price, Content(levels)[price]);
    var i :| 0 <= i < |levels| && levels[i] == l;
    assert ByPrice(side)(levels[0]) <= ByPrice(side)(levels[i]);
  }

  // ------------------------------------------------------------------ runs of deltas

  lemma DeltaKeepsValid(book: Book, d: Delta)
    requires Valid(book)
    ensures Valid(AfterDelta(book, d))
    ensures Content(AfterDelta(book, d).bids) == if d.side.Bid? then Put(Content(book.bids), d.price, d.size)
      else Content(book.bids)
    ensures Content(AfterDelta(book, d).asks) == if d.side.Ask? then Put(Content(book.asks), d.price, d.size)
      else Content(book.asks)
  {
    if d.side.Bid? {
      UpdateKeepsValid(book.bids, Bid, d.price, d.size);
    } else {
      UpdateKeepsValid(book.asks, Ask, d.price, d.size);
    }
  }

  /** Any deltas keep both sides sorted, distinct and positive, with the content of the plain maps. */
  lemma {:induction false} RunsTrackMaps(book: Book, deltas: seq<Delta>)
    requires Valid(book)
    ensures Valid(Run(book, deltas))
    ensures Content(Run(book, deltas).bids) == MapRun(Content(book.bids), Bid, deltas)
    ensures Content(Run(book, deltas).asks) == MapRun(Content(book.asks), Ask, deltas)
  {
    hide Valid, Content, AfterDelta;
    if deltas != [] {
      RunsTrackMaps(book, deltas[..|deltas| - 1]);
      DeltaKeepsValid(Run(book, deltas[..|deltas| - 1]), deltas[|deltas| - 1]);
    }
  }

  function Top(book: Book): (Option<Level>, Option<Level>) {
    (Head(book.bids), Head(book.asks))
  }

  /** Whether delta number `i` changed the top of the book. */
  predicate ChangesTop(book: Book, deltas: seq<Delta>, i: nat)
    requires i < |deltas|
  {
    Top(Run(book, deltas[..i + 1])) != Top(Run(book, deltas[..i]))
  }

  /** `stableSinceMs` is the time of the last delta that changed the top, or the snapshot's if none did. */
  lemma {:induction false} StableSinceLastTopChange(book: Book, deltas: seq<Delta>, from: nat)
    requires Valid(book) && from <= |deltas|
    requires forall i :: from <= i < |deltas| ==> !ChangesTop(book, deltas, i)
    requires from == 0 || ChangesTop(book, deltas, from - 1)
    ensures Run(book, deltas).stableSinceMs == if from == 0 then book.stableSinceMs else deltas[from - 1].receivedAtMs
  {
    hide AfterDelta, Run, ChangesTop, Valid, Content, MapRun;
    if deltas == [] {
      EmptyRun(book);
    } else {
      var n := |deltas| - 1;
      var front := deltas[..n];
      RunsTrackMaps(book, front);
      StableStep(book, deltas);
      if from <= n {
        forall i | from <= i < n
          ensures !ChangesTop(book, front, i)
        {
          FrontChangesTop(book, deltas, i);
        }
        if from > 0 {
          FrontChangesTop(book, deltas, from - 1);
        }
        StableSinceLastTopChange(book, front, from);
      }
    }
  }

  lemma EmptyRun(book: Book)
    ensures Run(book, []) == book
  {
  }

  lemma StableStep(book: Book, deltas: seq<Delta>)
    requires deltas != [] && Valid(Run(book, deltas[..|deltas| - 1]))
    ensures Run(book, deltas).stableSinceMs ==
      if ChangesTop(book, deltas, |deltas| - 1) then deltas[|deltas| - 1].receivedAtMs
      else Run(book, deltas[..|deltas| - 1]).stableSinceMs
  {
    assert deltas[..|deltas| - 1 + 1] == deltas;
    DeltaStability(Run(book, deltas[..|deltas| - 1]), deltas[|deltas| - 1]);
  }

  lemma FrontChangesTop(book: Book, deltas: seq<Delta>, i: nat)
    requires i < |deltas| - 1
    ensures ChangesTop(book, deltas[..|deltas| - 1], i) <==> ChangesTop(book, deltas, i)
  {
    var front := deltas[..|deltas| - 1];
    assert front[..i + 1] == deltas[..i + 1] && front[..i] == deltas[..i];
  }

  lemma DeltaStability(book: Book, d: Delta)
    requires Valid(book)
    ensures AfterDelta(book, d).stableSinceMs == if Top(AfterDelta(book, d)) == Top(book) then book.stableSinceMs
      else d.receivedAtMs
  {
  }

  /** A positive number that is given, or else the one from before. */
  ghost predicate Names(value: real, given: Option<real>, before: real) {
    if given.Some? && given.value > 0.0 then Some(value) == given else value == before
  }

  ghost predicate LeadsWith(levels: seq<Level>, best: Option<Level>) {
    if |levels| == 0 then best == None else best == Some(levels[0])
  }

  /** The side's price-to-size map takes the delta's size at its price, or loses the price if there is no size. */
  ghost predicate Sets(before: seq<Level>, after: seq<Level>, concerned: bool, d: Delta) {
    var was, now := Content(before), Content(after);
    if !concerned then after == before
    else if d.size > 0.0 then now == was[d.price := d.size]
    else now == map p | p in was && p != d.price :: was[p]
  }

  lemma DeltaSets(book: Book, d: Delta)
    requires Valid(book)
    ensures var next := AfterDelta(book, d);
      Sets(book.bids, next.bids, d.side == Bid, d) && Sets(book.asks, next.asks, d.side == Ask, d)
  {
    hide Content, Updated;
    if d.side.Bid? {
      UpdateKeepsValid(book.bids, Bid, d.price, d.size);
    } else {
      UpdateKeepsValid(book.asks, Ask, d.price, d.size);
    }
  }

  /** The raw levels that say just this, with a size to offer. */
  ghost function Saying(raw: seq<RawLevel>, l: Level): set<int> {
    set k | 0 <= k < |raw| && raw[k].price == Some(l.price) && raw[k].size == Some(l.size) && l.size > 0.0
  }

  lemma {:induction false} ParsedCounts(raw: seq<RawLevel>, l: Level)
    ensures multiset(Parsed(Filter(Usable(), raw)))[l] == |Saying(raw, l)|
  {
    if raw != [] {
      var n := |raw| - 1;
      var front, last := raw[..n], raw[n];
      ParsedCounts(front, l);
      var kept := Filter(Usable(), front);
      assert Parsed(kept + [last]) == Parsed(kept) + [LevelOf(last)];
      var more := if last.price == Some(l.price) && last.size == Some(l.size) && l.size > 0.0 then {n} else {};
      assert Saying(raw, l) == Saying(front, l) + more;
    }
  }

  /** The side has each level as often as it is received with a size to offer, the best price first. */
  ghost predicate Lists(levels: seq<Level>, raw: seq<RawLevel>, side: Side) {
    && (forall l :: multiset(levels)[l] == |Saying(raw, l)|)
    && (forall i, j :: 0 <= i < j < |levels| ==>
          if side == Bid then levels[i].price >= levels[j].price else levels[i].price <= levels[j].price)
  }

  lemma NormalizedLists(raw: seq<RawLevel>, side: Side)
    ensures Lists(NormalizedLevels(raw, side), raw, side)
  {
    var parsed, levels := Parsed(Filter(Usable(), raw)), NormalizedLevels(raw, side);
    SortKeepsCounts(ByPrice(side), parsed);
    SortIsSorted(ByPrice(side), parsed);
    forall l
      ensures multiset(levels)[l] == |Saying(raw, l)|
    {
      ParsedCounts(raw, l);
    }
    forall i, j | 0 <= i < j < |levels|
      ensures if side == Bid then levels[i].price >= levels[j].price else levels[i].price <= levels[j].price
    {
      assert ByPrice(side)(levels[i]) <= ByPrice(side)(levels[j]);
    }
  }

  /** What a snapshot makes of a book: its own levels, its own numbers or else the previous or the default ones. */
  lemma SnapshotIs(raw: RawBook, now: int, defaultTick: real, defaultMin: real, previous: Option<Book>)
    ensures var book := Normalized(raw, now, defaultTick, defaultMin, previous);
      && Lists(book.bids, raw.bids, Bid) && Lists(book.asks, raw.asks, Ask)
      && LeadsWith(book.bids, book.bestBid) && LeadsWith(book.asks, book.bestAsk) && book.lastUpdateMs == now
      && (if previous.Some? && previous.value.tickSize > 0.0 then
            Names(book.tickSize, raw.tickSize, previous.value.tickSize)
          else Names(book.tickSize, raw.tickSize, defaultTick))
      && (if previous.Some? && previous.value.minOrderSize > 0.0 then
            Names(book.minOrderSize, raw.minOrderSize, previous.value.minOrderSize)
          else Names(book.minOrderSize, raw.minOrderSize, defaultMin))
      && book.stableSinceMs ==
        if previous.Some? && previous.value.bestBid == book.bestBid && previous.value.bestAsk == book.bestAsk then
          previous.value.stableSinceMs
        else now
  {
    NormalizedLists(raw.bids, Bid);
    NormalizedLists(raw.asks, Ask);
    hide Lists, NormalizedLevels;
  }

  /** A snapshot with distinct prices on each side starts a valid book. */
  lemma SnapshotIsValid(raw: RawBook, now: int, defaultTick: real, defaultMin: real, previous: Option<Book>)
    requires DistinctRaw(raw.bids) && DistinctRaw(raw.asks)
    ensures Valid(Normalized(raw, now, defaultTick, defaultMin, previous))
  {
    NormalizedIsValid(raw.bids, Bid);
    NormalizedIsValid(raw.asks, Ask);
  }

  ghost predicate DistinctRaw(raw: seq<RawLevel>) {
    forall i, j :: 0 <= i < j < |raw| ==> raw[i].price.None? || raw[i].price != raw[j].price
  }

  lemma {:induction false} UsableDistinct(raw: seq<RawLevel>)
    requires DistinctRaw(raw)
    ensures DistinctRaw(Filter(Usable(), raw))
  {
    if raw != [] {
      var front, last := raw[..|raw| - 1], raw[|raw| - 1];
      UsableDistinct(front);
      FilterMembers(Usable(), front);
      var kept := Filter(Usable(), front);
      forall i | 0 <= i < |kept|
        ensures kept[i].price.None? || kept[i].price != last.price
      {
        assert kept[i] in kept;
        var k :| 0 <= k < |front| && front[k] == kept[i];
      }
    }
  }

  lemma NormalizedIsValid(raw: seq<RawLevel>, side: Side)
    requires DistinctRaw(raw)
    ensures ValidSide(NormalizedLevels(raw, side), side)
  {
    UsableDistinct(raw);
    FilterMembers(Usable(), raw);
    var kept := Filter(Usable(), raw);
    var parsed := Parsed(kept);
    forall i, j | 0 <= i < j < |parsed|
      ensures parsed[i].price != parsed[j].price
    {
      assert kept[i] in kept && kept[j] in kept;
    }
    DistinctPrices(parsed, side);
    SortIsSorted(ByPrice(side), parsed);
    SortDistinct(ByPrice(side), parsed);
    SortMembers(ByPrice(side), parsed);
    forall l | l in Sort(ByPrice(side), parsed)
      ensures l.size > 0.0
    {
      var k :| 0 <= k < |parsed| && parsed[k] == l;
      assert kept[k] in kept;
    }
  }

  // ------------------------------------------------------------------ the code

  method FindIndex(levels: seq<Level>, price: real) returns (index: int)
    ensures index == IndexOf(levels, price)
  {
    index := 0;
    while index < |levels|
      invariant 0 <= index <= |levels|
      invariant forall k :: 0 <= k < index ==> levels[k].price != price
    {
      if levels[index].price == price {
        FirstIsIndexOf(levels, price, index);
        return;
      }
      index := index + 1;
    }
    return -1;
  }

  lemma {:induction false} FirstIsIndexOf(levels: seq<Level>, price: real, k: nat)
    requires k < |levels| && levels[k].price == price
    requires forall i :: 0 <= i < k ==> levels[i].price != price
    ensures IndexOf(levels, price) == k
  {
    if k < |levels| - 1 {
      FirstIsIndexOf(levels[..|levels| - 1], price, k);
    }
  }

  method EditLevels(levels: seq<Level>, price: real, size: real) returns (edited: seq<Level>)
    ensures edited == Edited(levels, price, size)
  {
    edited := levels;
    var index := FindIndex(levels, price);
    if size <= 0.0 {
      if index >= 0 {
        edited := edited[..index] + edited[index + 1..];
      }
    } else if index >= 0 {
      edited := edited[index := Level(price, size)];
    } else {
      edited := edited + [Level(price, size)];
    }
  }

  method ApplyOrderBookDelta(book: Book, d: Delta) returns (next: Book)
    ensures next == AfterDelta(book, d)
    ensures Names(next.tickSize, d.tickSize, book.tickSize)
    ensures Names(next.minOrderSize, d.minOrderSize, book.minOrderSize) && next.lastUpdateMs == d.receivedAtMs
    ensures LeadsWith(next.bids, next.bestBid) && LeadsWith(next.asks, next.bestAsk)
    ensures next.stableSinceMs ==
      if next.bestBid == book.bestBid && next.bestAsk == book.bestAsk then book.stableSinceMs else d.receivedAtMs
    ensures Valid(book) ==> Sets(book.bids, next.bids, d.side == Bid, d) && Sets(book.asks, next.asks, d.side == Ask, d)
  {
    if Valid(book) {
      DeltaSets(book, d);
    }
    hide Sort, Edited;
    var bids, asks := book.bids, book.asks;
    if d.side.Bid? {
      bids := EditLevels(bids, d.price, d.size);
      bids := Sort(ByPrice(Bid), bids);
    } else {
      asks := EditLevels(asks, d.price, d.size);
      asks := Sort(ByPrice(Ask), asks);
    }
    var isStable := book.bestBid == Head(bids) && book.bestAsk == Head(asks);
    next := Book(bids, asks, PositiveOr(d.tickSize, book.tickSize), PositiveOr(d.minOrderSize, book.minOrderSize),
      d.receivedAtMs, if isStable then book.stableSinceMs else d.receivedAtMs, Head(bids), Head(asks));
  }
}
