/**
 * `initializeVirtualStrips`: the 1728 LEDs of six zigzag APA102 strips,
 * 288 each (LEDs 0-143 run up, 144-287 run down), seen as twelve virtual
 * strips of 144 that all run up, left to right. Physical strip 5 is the
 * leftmost, so it becomes virtual strips 0 and 1; within a physical strip
 * the descending second half is the left virtual strip. The pointer table
 * `virtualLeds` is modelled by the index into `leds` each pointer holds.
 */
module VirtualStrips {
  const NUM_APA102_STRIPS: nat := 6
  const LEDS_PER_PHYSICAL_STRIP: nat := 288
  const LEDS_PER_VIRTUAL_STRIP: nat := 144
  const NUM_VIRTUAL_STRIPS: nat := 12
  /** `LEDL`, the length of `leds`. */
  const LED_COUNT: nat := 1728

  /** The index into `leds` that `virtualLeds[v][i]` points at. */
  function LedIndex(v: nat, i: nat): (k: nat)
    requires v < NUM_VIRTUAL_STRIPS && i < LEDS_PER_VIRTUAL_STRIP
    ensures k < LED_COUNT
  {
    var physStrip := NUM_APA102_STRIPS - 1 - v / 2;
    var baseIndex := physStrip * LEDS_PER_PHYSICAL_STRIP;
    if v % 2 == 0 then baseIndex + LEDS_PER_PHYSICAL_STRIP - 1 - i else baseIndex + i
  }

  /** The virtual strip and position that show LED k. */
  function VirtualPosition(k: nat): (r: (nat, nat))
    requires k < LED_COUNT
    ensures r.0 < NUM_VIRTUAL_STRIPS && r.1 < LEDS_PER_VIRTUAL_STRIP
  {
    var physStrip := k / LEDS_PER_PHYSICAL_STRIP;
    var offset := k % LEDS_PER_PHYSICAL_STRIP;
    var virtualBase := (NUM_APA102_STRIPS - 1 - physStrip) * 2;
    if offset >= LEDS_PER_VIRTUAL_STRIP then (virtualBase, LEDS_PER_PHYSICAL_STRIP - 1 - offset)
    else (virtualBase + 1, offset)
  }

  /** Splitting an index into strip and offset. */
  lemma StripAndOffset(p: nat, offset: nat)
    requires offset < LEDS_PER_PHYSICAL_STRIP
    ensures (p * LEDS_PER_PHYSICAL_STRIP + offset) / LEDS_PER_PHYSICAL_STRIP == p
    ensures (p * LEDS_PER_PHYSICAL_STRIP + offset) % LEDS_PER_PHYSICAL_STRIP == offset
  {
  }

  /** Every virtual position is shown by the LED it points at: no two positions share an LED. */
  lemma VirtualRoundTrip(v: nat, i: nat)
    requires v < NUM_VIRTUAL_STRIPS && i < LEDS_PER_VIRTUAL_STRIP
    ensures VirtualPosition(LedIndex(v, i)) == (v, i)
  {
    var p := NUM_APA102_STRIPS - 1 - v / 2;
    if v % 2 == 0 {
      StripAndOffset(p, LEDS_PER_PHYSICAL_STRIP - 1 - i);
    } else {
      StripAndOffset(p, i);
    }
  }

  /** Every LED is pointed at by the virtual position that shows it: no LED is left out. */
  lemma LedRoundTrip(k: nat)
    requires k < LED_COUNT
    ensures var r := VirtualPosition(k); LedIndex(r.0, r.1) == k
  {
    var p := k / LEDS_PER_PHYSICAL_STRIP;
    var offset := k % LEDS_PER_PHYSICAL_STRIP;
    assert k == p * LEDS_PER_PHYSICAL_STRIP + offset;
  }

  /** The mapping is one-to-one. */
  lemma LedIndexInjective(v: nat, i: nat, w: nat, j: nat)
    requires v < NUM_VIRTUAL_STRIPS && i < LEDS_PER_VIRTUAL_STRIP
    requires w < NUM_VIRTUAL_STRIPS && j < LEDS_PER_VIRTUAL_STRIP
    requires LedIndex(v, i) == LedIndex(w, j)
    ensures v == w && i == j
  {
    VirtualRoundTrip(v, i);
    VirtualRoundTrip(w, j);
  }

  /**
   * Every virtual strip runs up: one step along it is one physical LED
   * further along a rising first half, or one LED back along a falling
   * second half.
   */
  lemma VirtualStripsRunUp(v: nat, i: nat)
    requires v < NUM_VIRTUAL_STRIPS && i + 1 < LEDS_PER_VIRTUAL_STRIP
    ensures v % 2 == 0 ==> LedIndex(v, i + 1) + 1 == LedIndex(v, i) && LedIndex(v, i) % LEDS_PER_PHYSICAL_STRIP >= LEDS_PER_VIRTUAL_STRIP
    ensures v % 2 == 1 ==> LedIndex(v, i + 1) == LedIndex(v, i) + 1 && LedIndex(v, i) % LEDS_PER_PHYSICAL_STRIP < LEDS_PER_VIRTUAL_STRIP
  {
    var p := NUM_APA102_STRIPS - 1 - v / 2;
    if v % 2 == 0 {
      StripAndOffset(p, LEDS_PER_PHYSICAL_STRIP - 1 - i);
    } else {
      StripAndOffset(p, i);
    }
  }

  /** `initializeVirtualStrips`: fill the pointer table, two virtual strips per physical strip. */
  method InitializeVirtualStrips(virtualLeds: array2<nat>)
    requires virtualLeds.Length0 == NUM_VIRTUAL_STRIPS && virtualLeds.Length1 == LEDS_PER_VIRTUAL_STRIP
    modifies virtualLeds
    ensures forall v, i :: 0 <= v < NUM_VIRTUAL_STRIPS && 0 <= i < LEDS_PER_VIRTUAL_STRIP ==> virtualLeds[v, i] == LedIndex(v, i)
  {
    var physStrip := 0;
    while physStrip < NUM_APA102_STRIPS
      invariant 0 <= physStrip <= NUM_APA102_STRIPS
      invariant forall v, i :: (NUM_APA102_STRIPS - physStrip) * 2 <= v < NUM_VIRTUAL_STRIPS && 0 <= i < LEDS_PER_VIRTUAL_STRIP ==> virtualLeds[v, i] == LedIndex(v, i)
    {
      var baseIndex := physStrip * LEDS_PER_PHYSICAL_STRIP;
      var virtualBase := (NUM_APA102_STRIPS - 1 - physStrip) * 2;
      FillRow(virtualLeds, virtualBase, baseIndex + LEDS_PER_PHYSICAL_STRIP - 1, -1);
      FillRow(virtualLeds, virtualBase + 1, baseIndex, 1);
      physStrip := physStrip + 1;
    }
  }

  /** One inner loop: `virtualLeds[row][i] = &leds[start + step * i]`. */
  method FillRow(virtualLeds: array2<nat>, row: nat, start: nat, step: int)
    requires row < virtualLeds.Length0 && virtualLeds.Length1 == LEDS_PER_VIRTUAL_STRIP
    requires step == 1 || step == -1
    requires step == -1 ==> start >= LEDS_PER_VIRTUAL_STRIP - 1
    modifies virtualLeds
    ensures forall i :: 0 <= i < LEDS_PER_VIRTUAL_STRIP ==> virtualLeds[row, i] == start + step * i
    ensures forall v, i :: 0 <= v < virtualLeds.Length0 && v != row && 0 <= i < LEDS_PER_VIRTUAL_STRIP ==> virtualLeds[v, i] == old(virtualLeds[v, i])
  {
    var i := 0;
    while i < LEDS_PER_VIRTUAL_STRIP
      invariant 0 <= i <= LEDS_PER_VIRTUAL_STRIP
      invariant forall j :: 0 <= j < i ==> virtualLeds[row, j] == start + step * j
      invariant forall v, j :: 0 <= v < virtualLeds.Length0 && v != row && 0 <= j < LEDS_PER_VIRTUAL_STRIP ==> virtualLeds[v, j] == old(virtualLeds[v, j])
    {
      virtualLeds[row, i] := start + step * i;
      i := i + 1;
    }
  }
}
