/** The card helpers: address truncation, the category prefix, the sign of a
    percentage box, and the price-flash colour driven by the previous price. */
module TokenCard {
  import opened Types
  import opened Js

  // ---------------------------------------------------------------------------
  // truncateAddress

  /** `truncateAddress(address, start, end)`: short addresses come back whole;
      longer ones keep `start` leading characters, "..." and
      `address.slice(-end)`. Since `-0` is `0`, `end == 0` keeps the whole
      address after the dots. */
  function TruncateAddress(address: string, start: nat, end: nat): (r: string)
    ensures |address| <= start + end ==> r == address
    ensures |address| > start + end && end > 0 ==>
              r == address[..start] + "..." + address[|address| - end..] && |r| == start + end + 3
    ensures |address| > start + end && end == 0 ==> r == address[..start] + "..." + address
  {
    if |address| <= start + end then address
    else Slice(address, 0, start) + "..." + SliceFrom(address, -(end as int))
  }

  /** The card shows `truncateAddress(pairAddress, 5, 4).slice(-4)`: always the
      address's own last four characters. */
  lemma TruncatedTailIsAddressTail(address: string)
    ensures SliceFrom(TruncateAddress(address, 5, 4), -4) == SliceFrom(address, -4)
  {
    var r := TruncateAddress(address, 5, 4);
    if |address| > 9 {
      assert r[|r| - 4..] == address[|address| - 4..];
    }
  }

  // ---------------------------------------------------------------------------
  // Category prefix

  /** The ternary chain on the category string: "new-pairs" gives "newPai",
      "final-stretch" gives "finalS", and any other value "migrat". */
  function CategoryPrefix(category: string): (r: string)
    ensures |r| == 6
    ensures category == "new-pairs" ==> r == "newPai"
    ensures category == "final-stretch" ==> r == "finalS"
    ensures category != "new-pairs" && category != "final-stretch" ==> r == "migrat"
  {
    if category == "new-pairs" then "newPai"
    else if category == "final-stretch" then "finalS"
    else "migrat"
  }

  /** The three categories get three different prefixes. */
  lemma CategoryPrefixInjective(a: TokenCategory, b: TokenCategory)
    requires CategoryPrefix(CategoryName(a)) == CategoryPrefix(CategoryName(b))
    ensures a == b
  {
  }

  // ---------------------------------------------------------------------------
  // Percentage boxes

  datatype Tone = Positive | Negative | Neutral

  /** Green for a gain, red for a loss, muted for zero. */
  function BoxTone(change: real): (t: Tone)
    ensures t == Positive <==> change > 0.0
    ensures t == Negative <==> change < 0.0
    ensures t == Neutral <==> change == 0.0
  {
    if change > 0.0 then Positive
    else if change < 0.0 then Negative
    else Neutral
  }

  /** One box per entry of `percentageChanges`, in order. */
  function BoxTones(changes: seq<real>): (r: seq<Tone>)
    ensures |r| == |changes|
    ensures forall i :: 0 <= i < |r| ==> r[i] == BoxTone(changes[i])
  {
    seq(|changes|, i requires 0 <= i < |changes| => BoxTone(changes[i]))
  }

  // ---------------------------------------------------------------------------
  // Price flash

  /** The price colour class: "", "text-green-500" or "text-red-500". */
  datatype PriceColor = Plain | Green | Red

  const FlashMillis := 1000

  /** A card's flash state: the colour, the previous price, and the due times
      of the resets scheduled so far and not yet fired, oldest first. A reset,
      once scheduled, is never cancelled. */
  datatype Flash = Flash(color: PriceColor, prevPrice: real, resets: seq<int>)

  /** The price effect at time `now`: a rise turns the price green and a fall
      red, each scheduling a reset `FlashMillis` later; an unchanged price
      changes nothing. The previous price becomes the current one. */
  function PriceEffect(f: Flash, price: real, now: int): (r: Flash)
    ensures r.prevPrice == price
    ensures price > f.prevPrice ==> r.color == Green
    ensures price < f.prevPrice ==> r.color == Red
    ensures price != f.prevPrice ==> r.resets == f.resets + [now + FlashMillis]
    ensures price == f.prevPrice ==> r == f
  {
    if price > f.prevPrice then Flash(Green, price, f.resets + [now + FlashMillis])
    else if price < f.prevPrice then Flash(Red, price, f.resets + [now + FlashMillis])
    else f.(prevPrice := price)
  }

  /** Setting the previous price re-runs the effect with an equal price: a no-op. */
  lemma PriceEffectSettles(f: Flash, price: real, now: int, later: int)
    ensures PriceEffect(PriceEffect(f, price, now), price, later) == PriceEffect(f, price, now)
  {
  }

  function Pending(resets: seq<int>, now: int): (r: seq<int>)
    ensures forall x :: x in r <==> x in resets && x > now
  {
    if |resets| == 0 then []
    else
      assert forall x :: x in resets <==> x == resets[0] || x in resets[1..];
      (if resets[0] > now then [resets[0]] else []) + Pending(resets[1..], now)
  }

  /** Time advances to `now`: every reset due by then fires and sets the colour
      to "", whichever flash scheduled it. */
  function Tick(f: Flash, now: int): (r: Flash)
    ensures r.prevPrice == f.prevPrice
    ensures (exists i :: 0 <= i < |f.resets| && f.resets[i] <= now) ==> r.color == Plain
    ensures (forall i :: 0 <= i < |f.resets| ==> f.resets[i] > now) ==> r.color == f.color
    ensures forall x :: x in r.resets <==> x in f.resets && x > now
  {
    var due := exists i :: 0 <= i < |f.resets| && f.resets[i] <= now;
    Flash(if due then Plain else f.color, f.prevPrice, Pending(f.resets, now))
  }

  /** A flash fades back to "" once its window has passed. */
  lemma FlashDecays(f: Flash, price: real, now: int)
    requires price != f.prevPrice
    ensures Tick(PriceEffect(f, price, now), now + FlashMillis).color == Plain
  {
    var g := PriceEffect(f, price, now);
    assert g.resets[|g.resets| - 1] == now + FlashMillis;
  }

  /** Earlier resets are not cancelled: after a move at `t1` and an opposite
      move at `t2` within the window, the first reset clears the second flash
      at `t1 + FlashMillis`, while its own reset is still pending. */
  lemma StaleResetCutsNewerFlash(f: Flash, p1: real, t1: int, p2: real, t2: int)
    requires p1 > f.prevPrice && p2 < p1
    requires t1 < t2 < t1 + FlashMillis
    ensures PriceEffect(PriceEffect(f, p1, t1), p2, t2).color == Red
    ensures Tick(PriceEffect(PriceEffect(f, p1, t1), p2, t2), t1 + FlashMillis).color == Plain
    ensures t2 + FlashMillis in Tick(PriceEffect(PriceEffect(f, p1, t1), p2, t2), t1 + FlashMillis).resets
  {
    var g := PriceEffect(PriceEffect(f, p1, t1), p2, t2);
    assert g.resets[|g.resets| - 2] == t1 + FlashMillis;
  }
}
