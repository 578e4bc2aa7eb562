/** Seeds on which buildLineItems stops with the shipped parameters. */
module ScenarioSeeds {
  import opened Prelude
  import opened Random
  import opened ScenarioPlan
  import opened LineItemBill
  import L = LineItems
  import LineItemLaws
  import LineItemRange

  // -- the words that a seed draws --

  /** Steps that move every state alike. */
  ghost predicate AddsUp(step: bv32 -> bv32, plus: (bv32, bv32) -> bv32) {
    && (forall a :: plus(a, 0) == a)
    && forall a, b {:trigger step(plus(a, b))} :: plus(a, step(b)) == step(plus(a, b))
  }

  lemma {:induction false} AdvancedPlus(step: bv32 -> bv32, plus: (bv32, bv32) -> bv32, seed: bv32, n: nat, k: nat)
    requires AddsUp(step, plus)
    ensures Advanced(step, seed, n + k) == plus(Advanced(step, seed, n), Advanced(step, 0, k))
    decreases k
  {
    if k > 0 {
      AdvancedPlus(step, plus, seed, n, k - 1);
      assert Advanced(step, seed, n + k) == step(Advanced(step, seed, n + (k - 1)));
    }
  }

  lemma AddSwap(a: bv32, b: bv32, c: bv32)
    ensures a + (b + c) == (a + b) + c
  {
  }

  lemma {:induction false} PlusSteps(step: bv32 -> bv32, plus: (bv32, bv32) -> bv32)
    requires forall t :: step(t) == t + 0x6d2b79f5
    requires forall a, b :: plus(a, b) == a + b
    ensures AddsUp(step, plus)
  {
    forall a, b ensures plus(a, step(b)) == step(plus(a, b)) {
      AddSwap(a, b, 0x6d2b79f5);
    }
  }

  function Plus(a: bv32, b: bv32): bv32 {
    a + b
  }

  /** mulberry32 moves its state by sums. */
  lemma {:induction false} StepIsSum()
    ensures AddsUp(Step, Plus)
  {
    PlusSteps(Step, Plus);
  }

  /** The draw of a word w, as an integer. */
  lemma {:induction false} WordScaled(x: real, w: int, n: int, k: int)
    requires x * 4294967296.0 == w as real && k * 0x1_0000_0000 <= w * n < (k + 1) * 0x1_0000_0000
    ensures Scaled(x, n) == k
  {
    assert x * n as real * 4294967296.0 == w as real * n as real == (w * n) as real;
  }

  /** The draw of a word w, as a number of hundredths. */
  lemma {:induction false} WordRounded(x: real, w: int, min: int, max: int, value: int)
    requires x * 4294967296.0 == w as real
    requires (2 * (value - min) - 1) * 0x8000_0000 <= w * (max - min) < (2 * (value - min) + 1) * 0x8000_0000
    ensures Rounded(x, min, max) == value
  {
    var n := max - min;
    assert x * n as real * 4294967296.0 == w as real * n as real == (w * n) as real;
  }

  lemma {:induction false} IntegerDrawn(output: bv32 -> real, seed: bv32, i: nat, state: bv32, w: int, min: int,
                                        max: int, value: int)
    requires Advanced(Step, seed, i + 1) == state && output(state) * 4294967296.0 == w as real
    requires (value - min) * 0x1_0000_0000 <= w * (max - min + 1) < (value - min + 1) * 0x1_0000_0000
    ensures DrawsOf(TapeOf(Step, output, seed)).integer(i, min, max) == value
  {
    WordScaled(output(state), w, max - min + 1, value - min);
    assert DrawnInt(output(state), min, max) == value;
  }

  lemma {:induction false} FloatDrawn(output: bv32 -> real, seed: bv32, i: nat, state: bv32, w: int, min: int,
                                      max: int, value: int)
    requires Advanced(Step, seed, i + 1) == state && output(state) * 4294967296.0 == w as real
    requires (2 * (value - min) - 1) * 0x8000_0000 <= w * (max - min) < (2 * (value - min) + 1) * 0x8000_0000
    ensures DrawsOf(TapeOf(Step, output, seed)).float(i, min, max) == value
  {
    WordRounded(output(state), w, min, max, value);
  }

  function DrawsFrom(seed: bv32): Draws {
    DrawsOf(TapeOf(Step, Output, seed))
  }

  /** How far n draws move the state. */
  function Leap(n: nat): bv32 {
    Advanced(Step, 0, n)
  }

  lemma {:induction false} StateAfter(seed: bv32, n: nat, k: nat, there: bv32, leap: bv32, state: bv32)
    requires Advanced(Step, seed, n) == there && Leap(k) == leap && Plus(there, leap) == state
    ensures Advanced(Step, seed, n + k) == state
  {
    StepIsSum();
    AdvancedPlus(Step, Plus, seed, n, k);
  }

  lemma {:induction false} Leaps()
    ensures Leap(1) == 0x6d2b79f5
    ensures Leap(2) == 0xda56f3ea
    ensures Leap(4) == 0xb4ade7d4
    ensures Leap(8) == 0x695bcfa8
    ensures Leap(10) == 0x43b2c392
    ensures Leap(11) == 0xb0de3d87
    ensures Leap(12) == 0x1e09b77c
    ensures Leap(13) == 0x8b353171
    ensures Leap(14) == 0xf860ab66
    ensures Leap(17) == 0x3fe31945
    ensures Leap(18) == 0xad0e933a
    ensures Leap(23) == 0xcee7f503
    ensures Leap(26) == 0x166a62e2
    ensures Leap(27) == 0x8395dcd7
    ensures Leap(28) == 0xf0c156cc
    ensures Leap(33) == 0x129ab895
    ensures Leap(34) == 0x7fc6328a
    ensures Leap(46) == 0x9dcfea06
    ensures Leap(47) == 0x0afb63fb
    ensures Leap(48) == 0x7826ddf0
    ensures Leap(53) == 0x9a003fb9
  {
    assert Leap(1) == Step(Leap(0));
    StateAfter(0, 1, 1, 0x6d2b79f5, 0x6d2b79f5, 0xda56f3ea);
    StateAfter(0, 2, 2, 0xda56f3ea, 0xda56f3ea, 0xb4ade7d4);
    StateAfter(0, 4, 4, 0xb4ade7d4, 0xb4ade7d4, 0x695bcfa8);
    StateAfter(0, 8, 2, 0x695bcfa8, 0xda56f3ea, 0x43b2c392);
    StateAfter(0, 10, 1, 0x43b2c392, 0x6d2b79f5, 0xb0de3d87);
    StateAfter(0, 11, 1, 0xb0de3d87, 0x6d2b79f5, 0x1e09b77c);
    StateAfter(0, 12, 1, 0x1e09b77c, 0x6d2b79f5, 0x8b353171);
    StateAfter(0, 13, 1, 0x8b353171, 0x6d2b79f5, 0xf860ab66);
    StateAfter(0, 13, 4, 0x8b353171, 0xb4ade7d4, 0x3fe31945);
    StateAfter(0, 17, 1, 0x3fe31945, 0x6d2b79f5, 0xad0e933a);
    StateAfter(0, 13, 10, 0x8b353171, 0x43b2c392, 0xcee7f503);
    StateAfter(0, 13, 13, 0x8b353171, 0x8b353171, 0x166a62e2);
    StateAfter(0, 26, 1, 0x166a62e2, 0x6d2b79f5, 0x8395dcd7);
    StateAfter(0, 27, 1, 0x8395dcd7, 0x6d2b79f5, 0xf0c156cc);
    StateAfter(0, 23, 10, 0xcee7f503, 0x43b2c392, 0x129ab895);
    StateAfter(0, 33, 1, 0x129ab895, 0x6d2b79f5, 0x7fc6328a);
    StateAfter(0, 23, 23, 0xcee7f503, 0xcee7f503, 0x9dcfea06);
    StateAfter(0, 46, 1, 0x9dcfea06, 0x6d2b79f5, 0x0afb63fb);
    StateAfter(0, 47, 1, 0x0afb63fb, 0x6d2b79f5, 0x7826ddf0);
    StateAfter(0, 27, 26, 0x8395dcd7, 0x166a62e2, 0x9a003fb9);
  }

  /** One labor line of 2.43 hours and two parts. */
  ghost predicate OneLine(d: Draws) {
    && d.integer(0, 1, 2) == 1
    && d.float(1, 50, 250) == 243
    && d.integer(9, 0, 2) == 2
    && d.integer(10, 1, 2) == 2
    && d.float(11, 1500, 35000) == 12544
    && d.integer(16, 1, 2) == 2
    && d.float(17, 1500, 35000) == 32151
    && d.float(22, 20000, 90000) == 87576
  }

  lemma {:induction false} Seed24Part1()
    ensures DrawsFrom(24).integer(0, 1, 2) == 1
    ensures DrawsFrom(24).float(1, 50, 250) == 243
    ensures DrawsFrom(24).integer(9, 0, 2) == 2
  {
    Leaps();
    StateAfter(24, 0, 1, 24, 0x6d2b79f5, 0x6d2b7a0d);
    assert Mix(0x6d2b7a0d) == 0x54ff45e2;
    IntegerDrawn(Output, 24, 0, 0x6d2b7a0d, 1426015714, 1, 2, 1);
    StateAfter(24, 0, 2, 24, 0xda56f3ea, 0xda56f402);
    assert Mix(0xda56f402) == 0xf6bec3e3;
    FloatDrawn(Output, 24, 1, 0xda56f402, 4139697123, 50, 250, 243);
    StateAfter(24, 0, 10, 24, 0x43b2c392, 0x43b2c3aa);
    assert Mix(0x43b2c3aa) == 0xc87cb307;
    IntegerDrawn(Output, 24, 9, 0x43b2c3aa, 3363615495, 0, 2, 2);
  }

  lemma {:induction false} Seed24Part2()
    ensures DrawsFrom(24).integer(10, 1, 2) == 2
    ensures DrawsFrom(24).float(11, 1500, 35000) == 12544
    ensures DrawsFrom(24).integer(16, 1, 2) == 2
  {
    Leaps();
    StateAfter(24, 0, 11, 24, 0xb0de3d87, 0xb0de3d9f);
    assert Mix(0xb0de3d9f) == 0xa4d60306;
    IntegerDrawn(Output, 24, 10, 0xb0de3d9f, 2765488902, 1, 2, 2);
    StateAfter(24, 0, 12, 24, 0x1e09b77c, 0x1e09b794);
    assert Mix(0x1e09b794) == 0x5466421a;
    FloatDrawn(Output, 24, 11, 0x1e09b794, 1415987738, 1500, 35000, 12544);
    StateAfter(24, 0, 17, 24, 0x3fe31945, 0x3fe3195d);
    assert Mix(0x3fe3195d) == 0xf005e665;
    IntegerDrawn(Output, 24, 16, 0x3fe3195d, 4026918501, 1, 2, 2);
  }

  lemma {:induction false} Seed24Part3()
    ensures DrawsFrom(24).float(17, 1500, 35000) == 32151
    ensures DrawsFrom(24).float(22, 20000, 90000) == 87576
  {
    Leaps();
    StateAfter(24, 0, 18, 24, 0xad0e933a, 0xad0e9352);
    assert Mix(0xad0e9352) == 0xea39daf7;
    FloatDrawn(Output, 24, 17, 0xad0e9352, 3929660151, 1500, 35000, 32151);
    StateAfter(24, 0, 23, 24, 0xcee7f503, 0xcee7f51b);
    assert Mix(0xcee7f51b) == 0xf72263ee;
    FloatDrawn(Output, 24, 22, 0xcee7f51b, 4146226158, 20000, 90000, 87576);
  }

  lemma {:induction false} Seed24()
    ensures OneLine(DrawsFrom(24))
  {
    Seed24Part1();
    Seed24Part2();
    Seed24Part3();
  }

  /** Three labor lines of 24.68 hours with one, two and one parts. */
  ghost predicate ThreeLines(d: Draws) {
    && d.integer(0, 3, 5) == 3
    && d.float(1, 800, 2500) == 2468
    && d.integer(11, 1, 4) == 1
    && d.integer(12, 1, 2) == 2
    && d.float(13, 1500, 35000) == 28711
    && d.integer(25, 1, 4) == 2
    && d.integer(26, 1, 2) == 2
    && d.float(27, 1500, 35000) == 23912
    && d.integer(32, 1, 2) == 1
    && d.float(33, 1500, 35000) == 24307
    && d.integer(45, 1, 4) == 1
    && d.integer(46, 1, 2) == 2
    && d.float(47, 1500, 35000) == 25111
    && d.float(52, 300000, 800000) == 766031
  }

  lemma {:induction false} Seed34151Part1()
    ensures DrawsFrom(34151).integer(0, 3, 5) == 3
    ensures DrawsFrom(34151).float(1, 800, 2500) == 2468
    ensures DrawsFrom(34151).integer(11, 1, 4) == 1
  {
    Leaps();
    StateAfter(34151, 0, 1, 34151, 0x6d2b79f5, 0x6d2bff5c);
    assert Mix(0x6d2bff5c) == 0x091caf5e;
    IntegerDrawn(Output, 34151, 0, 0x6d2bff5c, 152874846, 3, 5, 3);
    StateAfter(34151, 0, 2, 34151, 0xda56f3ea, 0xda577951);
    assert Mix(0xda577951) == 0xfb372915;
    FloatDrawn(Output, 34151, 1, 0xda577951, 4214696213, 800, 2500, 2468);
    StateAfter(34151, 0, 12, 34151, 0x1e09b77c, 0x1e0a3ce3);
    assert Mix(0x1e0a3ce3) == 0x1ba90af4;
    IntegerDrawn(Output, 34151, 11, 0x1e0a3ce3, 464063220, 1, 4, 1);
  }

  lemma {:induction false} Seed34151Part2()
    ensures DrawsFrom(34151).integer(12, 1, 2) == 2
    ensures DrawsFrom(34151).float(13, 1500, 35000) == 28711
    ensures DrawsFrom(34151).integer(25, 1, 4) == 2
  {
    Leaps();
    StateAfter(34151, 0, 13, 34151, 0x8b353171, 0x8b35b6d8);
    assert Mix(0x8b35b6d8) == 0x8365be56;
    IntegerDrawn(Output, 34151, 12, 0x8b35b6d8, 2204483158, 1, 2, 2);
    StateAfter(34151, 0, 14, 34151, 0xf860ab66, 0xf86130cd);
    assert Mix(0xf86130cd) == 0xcff13043;
    FloatDrawn(Output, 34151, 13, 0xf86130cd, 3488690243, 1500, 35000, 28711);
    StateAfter(34151, 0, 26, 34151, 0x166a62e2, 0x166ae849);
    assert Mix(0x166ae849) == 0x63155e87;
    IntegerDrawn(Output, 34151, 25, 0x166ae849, 1662344839, 1, 4, 2);
  }

  lemma {:induction false} Seed34151Part3()
    ensures DrawsFrom(34151).integer(26, 1, 2) == 2
    ensures DrawsFrom(34151).float(27, 1500, 35000) == 23912
    ensures DrawsFrom(34151).integer(32, 1, 2) == 1
  {
    Leaps();
    StateAfter(34151, 0, 27, 34151, 0x8395dcd7, 0x8396623e);
    assert Mix(0x8396623e) == 0xc1b97501;
    IntegerDrawn(Output, 34151, 26, 0x8396623e, 3250156801, 1, 2, 2);
    StateAfter(34151, 0, 28, 34151, 0xf0c156cc, 0xf0c1dc33);
    assert Mix(0xf0c1dc33) == 0xab44b30c;
    FloatDrawn(Output, 34151, 27, 0xf0c1dc33, 2873406220, 1500, 35000, 23912);
    StateAfter(34151, 0, 33, 34151, 0x129ab895, 0x129b3dfc);
    assert Mix(0x129b3dfc) == 0x7e58a846;
    IntegerDrawn(Output, 34151, 32, 0x129b3dfc, 2119739462, 1, 2, 1);
  }

  lemma {:induction false} Seed34151Part4()
    ensures DrawsFrom(34151).float(33, 1500, 35000) == 24307
    ensures DrawsFrom(34151).integer(45, 1, 4) == 1
    ensures DrawsFrom(34151).integer(46, 1, 2) == 2
  {
    Leaps();
    StateAfter(34151, 0, 34, 34151, 0x7fc6328a, 0x7fc6b7f1);
    assert Mix(0x7fc6b7f1) == 0xae49b795;
    FloatDrawn(Output, 34151, 33, 0x7fc6b7f1, 2924066709, 1500, 35000, 24307);
    StateAfter(34151, 0, 46, 34151, 0x9dcfea06, 0x9dd06f6d);
    assert Mix(0x9dd06f6d) == 0x315316ac;
    IntegerDrawn(Output, 34151, 45, 0x9dd06f6d, 827528876, 1, 4, 1);
    StateAfter(34151, 0, 47, 34151, 0x0afb63fb, 0x0afbe962);
    assert Mix(0x0afbe962) == 0x8a5fc5fd;
    IntegerDrawn(Output, 34151, 46, 0x0afbe962, 2321532413, 1, 2, 2);
  }

  lemma {:induction false} Seed34151Part5()
    ensures DrawsFrom(34151).float(47, 1500, 35000) == 25111
    ensures DrawsFrom(34151).float(52, 300000, 800000) == 766031
  {
    Leaps();
    StateAfter(34151, 0, 48, 34151, 0x7826ddf0, 0x78276357);
    assert Mix(0x78276357) == 0xb46d4f11;
    FloatDrawn(Output, 34151, 47, 0x78276357, 3027062545, 1500, 35000, 25111);
    StateAfter(34151, 0, 53, 34151, 0x9a003fb9, 0x9a00c520);
    assert Mix(0x9a00c520) == 0xee9ba283;
    FloatDrawn(Output, 34151, 52, 0x9a00c520, 4003177091, 300000, 800000, 766031);
  }

  lemma {:induction false} Seed34151()
    ensures ThreeLines(DrawsFrom(34151))
  {
    Seed34151Part1();
    Seed34151Part2();
    Seed34151Part3();
    Seed34151Part4();
    Seed34151Part5();
  }

  // -- their bills --

  lemma {:induction false} OneLineBill(p: Pricing)
    requires p.lineDraws == 7 && p.count(9) == 2 && p.price(10) == 25088 && p.price(16) == 64302
    ensures BillAt(p, 2, 1) == Bill([25088, 64302], 22)
  {
    BillStep(p, 2, 1, 9, 2);
    assert PricesAt(p.price, 16, 1) == [64302];
  }

  lemma {:induction false} ThreeLineBill(p: Pricing)
    requires p.lineDraws == 7 && p.count(11) == 1 && p.count(25) == 2 && p.count(45) == 1
    requires p.price(12) == 57422 && p.price(26) == 47824 && p.price(32) == 24307 && p.price(46) == 50222
    ensures BillAt(p, 4, 3) == Bill([57422, 47824, 24307, 50222], 52)
  {
    BillStep(p, 38, 1, 45, 1);
    assert PricesAt(p.price, 46, 1) == [50222];
    BillStep(p, 18, 2, 25, 2);
    assert PricesAt(p.price, 32, 1) == [24307];
    BillStep(p, 4, 3, 11, 1);
    assert PricesAt(p.price, 12, 1) == [57422];
  }

  lemma {:induction false} SumOfFour(a: int, b: int, c: int, d: int)
    ensures L.Sum([a, b, c]) == a + b + c && L.Sum([a, b, c, d]) == a + b + c + d
  {
    LineItemLaws.SumSnoc([], a);
    LineItemLaws.SumSnoc([a], b);
    LineItemLaws.SumSnoc([a, b], c);
    LineItemLaws.SumSnoc([a, b, c], d);
    assert [] + [a] == [a] && [a] + [b] == [a, b] && [a, b] + [c] == [a, b, c] && [a, b, c] + [d] == [a, b, c, d];
  }

  lemma {:induction false} OneLineStops(d: Draws, params: L.Params)
    requires OneLine(d) && params == ParamsOf(PiiInSemantic)
    ensures Stops(d, 0, params)
  {
    OneLineBill(PricingOf(d, params));
    assert L.Sum([25088]) == 25088;
    assert [25088, 64302][..1] == [25088];
  }

  lemma {:induction false} ThreeLinesStop(d: Draws, params: L.Params)
    requires ThreeLines(d) && params == ParamsOf(MultiLineMajorRepair)
    ensures Stops(d, 0, params)
  {
    ThreeLineBill(PricingOf(d, params));
    SumOfFour(57422, 47824, 24307, 50222);
    assert [57422, 47824, 24307, 50222][..3] == [57422, 47824, 24307];
  }

  // -- the scenarios that stop --

  lemma DrawsFromAreProper(seed: bv32)
    ensures Proper(DrawsFrom(seed))
  {
    var f := TapeOf(Step, Output, seed);
    DrawsFollow(f);
    DrawsAreProper(DrawsOf(f), f);
  }

  /** Whatever the seed and wherever its draws begin, only a scenario whose parts can be dear
      stops. */
  lemma {:induction false} OnlyDearStop(s: Scenario, seed: bv32, i: nat, templates: L.Templates)
    requires L.Built(DrawsFrom(seed), i, ParamsOf(s), templates) == Err(L.OutOfRange)
    ensures Dear(s)
  {
    DrawsFromAreProper(seed);
    ShippedParamsAreValid(s);
    LineItemRange.GivingUpMeans(DrawsFrom(seed), i, ParamsOf(s), templates);
    DearMeetCondition(s);
  }

  /** The seed on which a scenario stops. */
  function StoppingSeed(s: Scenario): bv32 {
    if s == MultiLineMajorRepair then 34151 else 24
  }

  lemma {:induction false} DearDrawsStop(s: Scenario)
    requires Dear(s)
    ensures Stops(DrawsFrom(StoppingSeed(s)), 0, ParamsOf(s))
  {
    if s == MultiLineMajorRepair {
      Seed34151();
      ThreeLinesStop(DrawsFrom(34151), ParamsOf(s));
    } else {
      Seed24();
      OneLineStops(DrawsFrom(24), ParamsOf(s));
    }
  }

  lemma {:induction false} DearStops(s: Scenario, templates: L.Templates)
    requires Dear(s) && LineItemLaws.Filled(templates)
    ensures L.Built(DrawsFrom(StoppingSeed(s)), 0, ParamsOf(s), templates) == Err(L.OutOfRange)
  {
    DrawsFromAreProper(StoppingSeed(s));
    ShippedParamsAreValid(s);
    DearDrawsStop(s);
    StopsIff(DrawsFrom(StoppingSeed(s)), 0, ParamsOf(s), templates);
  }

  /** GEN_RANGE stops the generator, on some seed, for three of the six scenarios. */
  lemma {:induction false} ShippedGiveUp(s: Scenario, templates: L.Templates)
    requires LineItemLaws.Filled(templates)
    ensures
      Dear(s) <==> exists seed: bv32 :: L.Built(DrawsFrom(seed), 0, ParamsOf(s), templates) == Err(L.OutOfRange)
  {
    if Dear(s) {
      DearStops(s, templates);
    }
    forall seed: bv32 | L.Built(DrawsFrom(seed), 0, ParamsOf(s), templates) == Err(L.OutOfRange) ensures Dear(s) {
      OnlyDearStop(s, seed, 0, templates);
    }
  }
}
