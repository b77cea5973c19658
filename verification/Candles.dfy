/** Candles kept up to date sample by sample, against the samples they summarise and against
    each other. Times are nanoseconds since the epoch in UTC, prices are real numbers. */
module Candles {
  import opened Wrappers
  import Arithmetic

  const HOUR: int := 3_600_000_000_000
  const DAY: int := 86_400_000_000_000
  const INTERVALS: seq<string> := ["1h", "4h", "1d"]

  datatype Price = Price(pair: string, perGram: real, fetchedAt: Time)

  datatype Key = Key(pair: string, interval: string, start: Time)

  datatype Ohlc = Ohlc(open: real, high: real, low: real, close: real)

  datatype Candle = Candle(prices: Ohlc, volume: real, end: Time)

  // ----------------------------------------------------------------------------- buckets

  /** The calendar fields of a time: its day and the hour within that day. */
  function HourOfDay(t: Time): int {
    t % DAY / HOUR
  }

  function MidnightOf(t: Time): Time {
    t / DAY * DAY
  }

  function BucketBounds(t: Time, interval: string): Result<(Time, Time), string> {
    if interval == "1h" then
      var start := MidnightOf(t) + HourOfDay(t) * HOUR;
      Ok((start, start + HOUR))
    else if interval == "4h" then
      var start := MidnightOf(t) + HourOfDay(t) / 4 * 4 * HOUR;
      Ok((start, start + 4 * HOUR))
    else if interval == "1d" then
      Ok((MidnightOf(t), MidnightOf(t) + 24 * HOUR))
    else Err("unsupported interval")
  }

  function Width(interval: string): int {
    if interval == "1h" then HOUR else if interval == "4h" then 4 * HOUR else DAY
  }

  predicate Supported(interval: string) {
    interval == "1h" || interval == "4h" || interval == "1d"
  }

  lemma BucketStart(t: Time, interval: string)
    requires Supported(interval)
    ensures BucketBounds(t, interval) == Ok((t - t % Width(interval), t - t % Width(interval) + Width(interval)))
  {
    var d, rest := t / DAY, t % DAY;
    if interval == "1h" {
      Arithmetic.DivUnique(t, HOUR, 24 * d + HourOfDay(t), rest - HourOfDay(t) * HOUR);
    } else if interval == "4h" {
      var slot := HourOfDay(t) / 4;
      assert slot * 4 <= HourOfDay(t) <= slot * 4 + 3;
      Arithmetic.DivUnique(t, 4 * HOUR, 6 * d + slot, rest - slot * 4 * HOUR);
    } else {
      Arithmetic.DivUnique(t, DAY, d, rest);
    }
  }

  /** The buckets of an interval tile the line of time: each time lies in its own bucket, and a
      bucket contains exactly the times that are given it. */
  lemma BucketsTile(t: Time, u: Time, interval: string)
    requires Supported(interval)
    ensures BucketBounds(t, interval).Ok?
    ensures var (start, end) := BucketBounds(t, interval).value;
            && end == start + Width(interval)
            && start == t - t % Width(interval)
            && (start <= u < end <==> BucketBounds(u, interval) == Ok((start, end)))
  {
    var w := Width(interval);
    BucketStart(t, interval);
    BucketStart(u, interval);
    var start := t - t % w;
    if start <= u < start + w {
      assert start == t / w * w;
      Arithmetic.DivUnique(u, w, t / w, u - start);
    }
  }

  // ------------------------------------------------------------------------ the upsert

  function Max(a: real, b: real): real { if a < b then b else a }

  function Min(a: real, b: real): real { if a < b then a else b }

  function Upserted(candles: map<Key, Candle>, p: Price, interval: string): map<Key, Candle> {
    match BucketBounds(p.fetchedAt, interval)
    case Err(_) => candles
    case Ok((start, end)) =>
      var key := Key(p.pair, interval, start);
      if key in candles then
        var o := candles[key].prices;
        candles[key := candles[key].(prices := Ohlc(o.open, Max(o.high, p.perGram), Min(o.low, p.perGram), p.perGram))]
      else
        candles[key := Candle(Ohlc(p.perGram, p.perGram, p.perGram, p.perGram), 0.0, end)]
  }

  /** A fetched price and the intervals whose upsert went through. */
  datatype Sample = Sample(price: Price, stored: set<string>)

  function Recorded(candles: map<Key, Candle>, s: Sample): map<Key, Candle> {
    RecordedFrom(candles, s, 0)
  }

  function RecordedFrom(candles: map<Key, Candle>, s: Sample, k: nat): map<Key, Candle>
    requires k <= |INTERVALS|
    decreases |INTERVALS| - k
  {
    if k == |INTERVALS| then candles
    else RecordedFrom(if INTERVALS[k] in s.stored then Upserted(candles, s.price, INTERVALS[k]) else candles, s, k + 1)
  }

  class CandleStore {
    var candles: map<Key, Candle>

    method UpsertCandle(p: Price, interval: string, reachable: bool) returns (ok: bool)
      modifies this
      ensures ok <==> reachable && Supported(interval)
      ensures candles == if ok then Upserted(old(candles), p, interval) else old(candles)
    {
      var bounds := BucketBounds(p.fetchedAt, interval);
      if bounds.Err? || !reachable {
        return false;
      }
      var (start, end) := bounds.value;
      var key := Key(p.pair, interval, start);
      if key !in candles {
        candles := candles[key := Candle(Ohlc(p.perGram, p.perGram, p.perGram, p.perGram), 0.0, end)];
      } else {
        var c := candles[key];
        c := c.(prices := c.prices.(high := Max(c.prices.high, p.perGram)));
        c := c.(prices := c.prices.(low := Min(c.prices.low, p.perGram)));
        c := c.(prices := c.prices.(close := p.perGram));
        candles := candles[key := c];
      }
      ok := true;
    }

    /** The candle part of one fetch: every interval in turn, failures only logged. */
    method Record(s: Sample)
      modifies this
      ensures candles == Recorded(old(candles), s)
    {
      for k := 0 to |INTERVALS|
        invariant RecordedFrom(candles, s, k) == Recorded(old(candles), s)
      {
        var ok := UpsertCandle(s.price, INTERVALS[k], INTERVALS[k] in s.stored);
      }
    }
  }

  function RecordedAll(samples: seq<Sample>): map<Key, Candle> {
    if samples == [] then map[]
    else Recorded(RecordedAll(samples[..|samples| - 1]), samples[|samples| - 1])
  }

  // ------------------------------------------------------------- the batch definition

  predicate Counts(s: Sample, pair: string, interval: string, lo: Time, hi: Time) {
    s.price.pair == pair && interval in s.stored && lo <= s.price.fetchedAt < hi
  }

  /** The prices of a pair fetched within [lo, hi) and stored for the interval, in order. */
  function Prices(samples: seq<Sample>, pair: string, interval: string, lo: Time, hi: Time): seq<real> {
    if samples == [] then []
    else
      var last := samples[|samples| - 1];
      Prices(samples[..|samples| - 1], pair, interval, lo, hi)
      + if Counts(last, pair, interval, lo, hi) then [last.price.perGram] else []
  }

  /** First, maximum, minimum and last. */
  predicate Summarises(o: Ohlc, xs: seq<real>) {
    && xs != []
    && o.open == xs[0]
    && o.close == xs[|xs| - 1]
    && o.high in xs && (forall k | 0 <= k < |xs| :: xs[k] <= o.high)
    && o.low in xs && (forall k | 0 <= k < |xs| :: o.low <= xs[k])
  }

  lemma UpsertedKey(candles: map<Key, Candle>, p: Price, interval: string, key: Key)
    requires Supported(interval)
    ensures var (start, end) := BucketBounds(p.fetchedAt, interval).value;
            var next := Upserted(candles, p, interval);
            && (key != Key(p.pair, interval, start) ==> (key in next <==> key in candles))
            && (key != Key(p.pair, interval, start) && key in candles ==> next[key] == candles[key])
            && Key(p.pair, interval, start) in next
  {
  }

  /** The sample is stored for the candle's interval and falls in its bucket. */
  predicate LandsIn(s: Sample, key: Key) {
    && Supported(key.interval)
    && key.interval in s.stored
    && key.pair == s.price.pair
    && BucketBounds(s.price.fetchedAt, key.interval).value.0 == key.start
  }

  /** Recording a sample touches, per stored interval, the one bucket it falls in. */
  lemma RecordedKey(candles: map<Key, Candle>, s: Sample, key: Key)
    requires Supported(key.interval)
    ensures var next := Recorded(candles, s);
            if LandsIn(s, key) then key in next && next[key] == Upserted(candles, s.price, key.interval)[key]
            else (key in next <==> key in candles) && (key in next ==> next[key] == candles[key])
  {
    var c1 := if "1h" in s.stored then Upserted(candles, s.price, "1h") else candles;
    var c2 := if "4h" in s.stored then Upserted(c1, s.price, "4h") else c1;
    var c3 := if "1d" in s.stored then Upserted(c2, s.price, "1d") else c2;
    assert RecordedFrom(c3, s, 3) == c3;
    assert RecordedFrom(c2, s, 2) == c3;
    assert RecordedFrom(c1, s, 1) == c3;
    UpsertedKey(candles, s.price, "1h", key);
    UpsertedKey(c1, s.price, "4h", key);
    UpsertedKey(c2, s.price, "1d", key);
    UpsertedKey(candles, s.price, key.interval, key);
  }

  lemma LandsInCounts(s: Sample, key: Key)
    requires Supported(key.interval) && key.start % Width(key.interval) == 0
    ensures LandsIn(s, key) <==> Counts(s, key.pair, key.interval, key.start, key.start + Width(key.interval))
  {
    BucketsTile(key.start, s.price.fetchedAt, key.interval);
    BucketStart(s.price.fetchedAt, key.interval);
  }

  /** The store holds for a bucket the summary of xs, and nothing exactly if xs is empty. */
  predicate Holds(candles: map<Key, Candle>, key: Key, xs: seq<real>) {
    && (key in candles <==> xs != [])
    && (key in candles ==> Summarises(candles[key].prices, xs) && candles[key].end == key.start + Width(key.interval))
  }

  lemma UpsertedSummary(candles: map<Key, Candle>, s: Sample, key: Key, xs: seq<real>)
    requires Supported(key.interval) && LandsIn(s, key) && Holds(candles, key, xs)
    ensures Holds(Upserted(candles, s.price, key.interval), key, xs + [s.price.perGram])
  {
  }

  /** What the store holds for a bucket is the summary of the bucket's samples in the order they
      came, and it holds a candle exactly if there are any. */
  lemma {:induction false} StoredIsBatch(samples: seq<Sample>, key: Key)
    requires Supported(key.interval) && key.start % Width(key.interval) == 0
    ensures Holds(RecordedAll(samples), key,
                  Prices(samples, key.pair, key.interval, key.start, key.start + Width(key.interval)))
  {
    hide Summarises, Upserted, Recorded, LandsIn, Counts, Width;
    if samples != [] {
      var before, s := samples[..|samples| - 1], samples[|samples| - 1];
      var xs := Prices(before, key.pair, key.interval, key.start, key.start + Width(key.interval));
      StoredIsBatch(before, key);
      RecordedKey(RecordedAll(before), s, key);
      LandsInCounts(s, key);
      if LandsIn(s, key) {
        UpsertedSummary(RecordedAll(before), s, key, xs);
        assert Holds(RecordedAll(samples), key, xs + [s.price.perGram]);
      } else {
        assert xs + [] == xs;
      }
    }
  }

  // ----------------------------------------------------------------------------- roll-up

  predicate InTimeOrder(samples: seq<Sample>) {
    forall i, j | 0 <= i < j < |samples| :: samples[i].price.fetchedAt <= samples[j].price.fetchedAt
  }

  lemma {:induction false} PricesSplit(samples: seq<Sample>, pair: string, interval: string, lo: Time, mid: Time, hi: Time)
    requires InTimeOrder(samples) && lo <= mid <= hi
    ensures Prices(samples, pair, interval, lo, hi)
            == Prices(samples, pair, interval, lo, mid) + Prices(samples, pair, interval, mid, hi)
  {
    if samples != [] {
      var before, s := samples[..|samples| - 1], samples[|samples| - 1];
      PricesSplit(before, pair, interval, lo, mid, hi);
      if s.price.fetchedAt < mid {
        NoneLater(before, pair, interval, mid, hi);
      }
    }
  }

  lemma {:induction false} NoneLater(samples: seq<Sample>, pair: string, interval: string, lo: Time, hi: Time)
    requires forall i | 0 <= i < |samples| :: samples[i].price.fetchedAt < lo
    ensures Prices(samples, pair, interval, lo, hi) == []
  {
    if samples != [] {
      NoneLater(samples[..|samples| - 1], pair, interval, lo, hi);
    }
  }

  /** Two candles side by side, either of which may be missing. */
  function Joined(a: Option<Ohlc>, b: Option<Ohlc>): Option<Ohlc> {
    if a.None? then b
    else if b.None? then a
    else Some(Ohlc(a.value.open, Max(a.value.high, b.value.high), Min(a.value.low, b.value.low), b.value.close))
  }

  function Lookup(candles: map<Key, Candle>, key: Key): Option<Ohlc> {
    if key in candles then Some(candles[key].prices) else None
  }

  /** n consecutive candles of the finer interval from `start` on, rolled into one. */
  function RolledUp(candles: map<Key, Candle>, pair: string, interval: string, start: Time, n: nat): Option<Ohlc> {
    if n == 0 then None
    else Joined(RolledUp(candles, pair, interval, start, n - 1),
                Lookup(candles, Key(pair, interval, start + (n - 1) * Width(interval))))
  }

  predicate OptionSummarises(o: Option<Ohlc>, xs: seq<real>) {
    (o.None? <==> xs == []) && (o.Some? ==> Summarises(o.value, xs))
  }

  lemma JoinedSummarises(a: Option<Ohlc>, xs: seq<real>, b: Option<Ohlc>, ys: seq<real>)
    requires OptionSummarises(a, xs) && OptionSummarises(b, ys)
    ensures OptionSummarises(Joined(a, b), xs + ys)
  {
  }

  lemma LookupSummarises(samples: seq<Sample>, key: Key)
    requires Supported(key.interval) && key.start % Width(key.interval) == 0
    ensures OptionSummarises(Lookup(RecordedAll(samples), key),
                             Prices(samples, key.pair, key.interval, key.start, key.start + Width(key.interval)))
  {
    hide Prices, RecordedAll, Summarises;
    StoredIsBatch(samples, key);
  }

  lemma {:induction false} RolledUpSummarises(samples: seq<Sample>, pair: string, interval: string, start: Time, n: nat)
    requires Supported(interval) && InTimeOrder(samples) && start % Width(interval) == 0
    ensures OptionSummarises(RolledUp(RecordedAll(samples), pair, interval, start, n),
                             Prices(samples, pair, interval, start, start + n * Width(interval)))
  {
    var w := Width(interval);
    hide Prices, RecordedAll, Summarises, OptionSummarises, Lookup, Joined, InTimeOrder;
    if n == 0 {
      NothingWithin(samples, pair, interval, start);
      assert OptionSummarises(None, []) by {
        NothingSummarisesNothing();
      }
    } else {
      var at := start + (n - 1) * w;
      MultipleAligned(start, n - 1, w);
      RolledUpSummarises(samples, pair, interval, start, n - 1);
      LookupSummarises(samples, Key(pair, interval, at));
      assert start + n * w == at + w;
      assert start <= at by {
        assert (n - 1) * w >= 0;
      }
      PricesSplit(samples, pair, interval, start, at, at + w);
      JoinedSummarises(RolledUp(RecordedAll(samples), pair, interval, start, n - 1),
                       Prices(samples, pair, interval, start, at),
                       Lookup(RecordedAll(samples), Key(pair, interval, at)),
                       Prices(samples, pair, interval, at, at + w));
    }
  }

  lemma NothingSummarisesNothing()
    ensures OptionSummarises(None, [])
  {
  }

  lemma {:induction false} MultipleAligned(start: int, n: nat, w: int)
    requires w > 0 && start % w == 0
    ensures (start + n * w) % w == 0
  {
    if n > 0 {
      MultipleAligned(start, n - 1, w);
      assert start + n * w == start + (n - 1) * w + w;
      Arithmetic.DivShift(start + (n - 1) * w, w);
    }
  }

  lemma {:induction false} NothingWithin(samples: seq<Sample>, pair: string, interval: string, at: Time)
    ensures Prices(samples, pair, interval, at, at) == []
  {
    if samples != [] {
      NothingWithin(samples[..|samples| - 1], pair, interval, at);
    }
  }

  lemma {:induction false} SameStoredSamePrices(samples: seq<Sample>, pair: string, fine: string, coarse: string,
                                                lo: Time, hi: Time)
    requires forall i | 0 <= i < |samples| && samples[i].price.pair == pair && lo <= samples[i].price.fetchedAt < hi ::
               (fine in samples[i].stored <==> coarse in samples[i].stored)
    ensures Prices(samples, pair, fine, lo, hi) == Prices(samples, pair, coarse, lo, hi)
  {
    if samples != [] {
      SameStoredSamePrices(samples[..|samples| - 1], pair, fine, coarse, lo, hi);
    }
  }

  /** One candle summarises both, or both are empty. */
  ghost predicate SameSummary(xs: seq<real>, ys: seq<real>) {
    exists o :: OptionSummarises(o, xs) && OptionSummarises(o, ys)
  }

  /** For samples in time order, the finer candles inside a coarser bucket roll up to exactly the
      stored coarser candle, absent ones included, if and only if the prices stored for the two
      intervals within the bucket have the same first, maximum, minimum and last. */
  lemma RollUpAgreesExactly(samples: seq<Sample>, pair: string, fine: string, coarse: string, start: Time, n: nat)
    requires Supported(fine) && Supported(coarse) && Width(coarse) == n * Width(fine)
    requires InTimeOrder(samples) && start % Width(coarse) == 0
    ensures RolledUp(RecordedAll(samples), pair, fine, start, n) == Lookup(RecordedAll(samples), Key(pair, coarse, start))
            <==> SameSummary(Prices(samples, pair, fine, start, start + Width(coarse)),
                             Prices(samples, pair, coarse, start, start + Width(coarse)))
  {
    hide Prices, RecordedAll, Summarises, RolledUp, Lookup, InTimeOrder, OptionSummarises;
    CoarseAligned(start, Width(fine), n);
    RolledUpSummarises(samples, pair, fine, start, n);
    LookupSummarises(samples, Key(pair, coarse, start));
    var rolled, stored := RolledUp(RecordedAll(samples), pair, fine, start, n), Lookup(RecordedAll(samples), Key(pair, coarse, start));
    var xs := Prices(samples, pair, fine, start, start + Width(coarse));
    var ys := Prices(samples, pair, coarse, start, start + Width(coarse));
    assert OptionSummarises(rolled, xs) && OptionSummarises(stored, ys);
    if o :| OptionSummarises(o, xs) && OptionSummarises(o, ys) {
      OptionSummaryUnique(rolled, o, xs);
      OptionSummaryUnique(stored, o, ys);
    }
  }

  /** So they agree as long as no sample of the bucket was stored for one of the two only. */
  lemma RollUpAgrees(samples: seq<Sample>, pair: string, fine: string, coarse: string, start: Time, n: nat)
    requires Supported(fine) && Supported(coarse) && Width(coarse) == n * Width(fine)
    requires InTimeOrder(samples) && start % Width(coarse) == 0
    requires forall i | 0 <= i < |samples| && samples[i].price.pair == pair
                        && start <= samples[i].price.fetchedAt < start + Width(coarse) ::
               (fine in samples[i].stored <==> coarse in samples[i].stored)
    ensures RolledUp(RecordedAll(samples), pair, fine, start, n)
            == Lookup(RecordedAll(samples), Key(pair, coarse, start))
  {
    hide Prices, RecordedAll, Summarises, RolledUp, Lookup, InTimeOrder, OptionSummarises;
    RollUpAgreesExactly(samples, pair, fine, coarse, start, n);
    SameStoredSamePrices(samples, pair, fine, coarse, start, start + Width(coarse));
    LookupSummarises(samples, Key(pair, coarse, start));
    assert SameSummary(Prices(samples, pair, fine, start, start + Width(coarse)),
                       Prices(samples, pair, coarse, start, start + Width(coarse)));
  }

  /** Two fetches within an hour, the second of which fails to update the hour's candle. */
  function HalfStored(pair: string): seq<Sample> {
    [Sample(Price(pair, 1.0, 0), {"1h", "4h", "1d"}), Sample(Price(pair, 2.0, 1), {"4h", "1d"})]
  }

  /** The hours then close at the first price, and the four-hour candle at the second. */
  lemma FailedUpsertDisagrees(pair: string)
    ensures InTimeOrder(HalfStored(pair))
    ensures RolledUp(RecordedAll(HalfStored(pair)), pair, "1h", 0, 4) != Lookup(RecordedAll(HalfStored(pair)), Key(pair, "4h", 0))
  {
    var samples := HalfStored(pair);
    assert samples[..1] == [samples[0]] && samples[..1][..0] == [];
    assert "1h" in samples[0].stored && "4h" in samples[0].stored && "4h" in samples[1].stored;
    assert "1h" !in samples[1].stored;
    assert Prices(samples[..1], pair, "1h", 0, 4 * HOUR) == [] + [1.0];
    assert Prices(samples[..1], pair, "4h", 0, 4 * HOUR) == [] + [1.0];
    assert Prices(samples, pair, "1h", 0, 4 * HOUR) == [1.0];
    assert Prices(samples, pair, "4h", 0, 4 * HOUR) == [1.0, 2.0];
    assert !SameSummary([1.0], [1.0, 2.0]);
    hide RolledUp, RecordedAll, Lookup, Prices;
    RollUpAgreesExactly(samples, pair, "1h", "4h", 0, 4);
  }

  lemma OptionSummaryUnique(a: Option<Ohlc>, b: Option<Ohlc>, xs: seq<real>)
    requires OptionSummarises(a, xs) && OptionSummarises(b, xs)
    ensures a == b
  {
  }

  lemma CoarseAligned(start: Time, w: int, n: nat)
    requires w > 0 && n > 0 && start % (n * w) == 0
    ensures start % w == 0
  {
    var q := start / (n * w);
    assert start == q * (n * w) == q * n * w;
    Arithmetic.DivUnique(start, w, q * n, 0);
  }
}
