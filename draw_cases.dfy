/** The scenes the harness can draw (the `DrawCases` enumeration of main.h)
    and the scene cycle that the space key steps through (`swap_draw_case`). */
module DrawCases {

  /** One constructor per enumerator, in declaration order. */
  datatype DrawCase =
    | SimpleDial          // 0
    | SingleDrawArrays    // 1
    | MultiDrawArrays     // 2
    | SimpleTexture       // 3
    | LongShader          // 4
    | BatchDrawArrays     // 5
    | MultiTexture        // 6, a future case
    | LargeTexture        // 7, a future case
    | NextCase            // 8, the default argument of swap_draw_case
  {
    /** The enumerator's integer value. */
    function Value(): int {
      match this
      case SimpleDial => 0
      case SingleDrawArrays => 1
      case MultiDrawArrays => 2
      case SimpleTexture => 3
      case LongShader => 4
      case BatchDrawArrays => 5
      case MultiTexture => 6
      case LargeTexture => 7
      case NextCase => 8
    }

    /** The six scenes that have a renderer. */
    predicate Selectable() {
      Value() <= 5
    }
  }

  /** The scene chosen by the scene line of the parameter file: the cast of
      the parsed digit to the enumeration, and the switch that sends every
      value without a renderer back to the dial scene. */
  function SceneFromConfig(v: int): (d: DrawCase)
    ensures d.Selectable()
    ensures 0 <= v <= 5 ==> d.Value() == v
    ensures !(0 <= v <= 5) ==> d == SimpleDial
  {
    if v == 1 then SingleDrawArrays
    else if v == 2 then MultiDrawArrays
    else if v == 3 then SimpleTexture
    else if v == 4 then LongShader
    else if v == 5 then BatchDrawArrays
    else SimpleDial
  }

  /** The scene after `d` in the cycle of `swap_draw_case`. */
  function NextScene(d: DrawCase): (r: DrawCase)
    ensures d.Selectable() ==> r.Selectable() && r != d
    ensures !d.Selectable() ==> r == d
  {
    match d
    case SingleDrawArrays => MultiDrawArrays
    case MultiDrawArrays => BatchDrawArrays
    case SimpleTexture => LongShader
    case LongShader => SimpleDial
    case SimpleDial => SingleDrawArrays
    case BatchDrawArrays => SimpleTexture
    case _ => d
  }

  /** `n` presses of the scene key starting at `d`. */
  function Iterate(d: DrawCase, n: nat): DrawCase
    decreases n
  {
    if n == 0 then d else Iterate(NextScene(d), n - 1)
  }

  /** The position of a selectable scene in the cycle that starts at the dial
      scene. */
  function CyclePosition(d: DrawCase): nat
  {
    match d
    case SimpleDial => 0
    case SingleDrawArrays => 1
    case MultiDrawArrays => 2
    case BatchDrawArrays => 3
    case SimpleTexture => 4
    case LongShader => 5
    case _ => 0
  }

  /** From the dial scene, the k-th press reaches the scene at cycle
      position k mod 6. */
  lemma {:induction false} IterateFromDial(k: nat)
    ensures Iterate(SimpleDial, k).Selectable()
    ensures CyclePosition(Iterate(SimpleDial, k)) == k % 6
  {
    if k > 0 {
      IterateFromDial(k - 1);
      IterateSplit(SimpleDial, k - 1, 1);
    }
  }

  /** Pressing n + m times is pressing n times and then m times. */
  lemma {:induction false} IterateSplit(d: DrawCase, n: nat, m: nat)
    ensures Iterate(d, n + m) == Iterate(Iterate(d, n), m)
    decreases n
  {
    if n > 0 {
      IterateSplit(NextScene(d), n - 1, m);
    }
  }

  /** The cycle visits every selectable scene: each one is reached from the
      dial scene after exactly its cycle position many presses. */
  lemma {:induction false} CycleVisitsEveryScene(d: DrawCase)
    requires d.Selectable()
    ensures Iterate(SimpleDial, CyclePosition(d)) == d
  {
    var k := CyclePosition(d);
    IterateFromDial(k);
    var e := Iterate(SimpleDial, k);
    assert CyclePosition(e) == CyclePosition(d);
    assert e == d by {
      match e
      case SimpleDial =>
      case SingleDrawArrays =>
      case MultiDrawArrays =>
      case BatchDrawArrays =>
      case SimpleTexture =>
      case LongShader =>
    }
  }

  /** Six presses bring every selectable scene back, and no fewer do; an
      unknown scene never moves. */
  lemma {:induction false} CycleHasPeriodSix(d: DrawCase, k: nat)
    ensures d.Selectable() ==> (Iterate(d, k) == d <==> k % 6 == 0)
    ensures !d.Selectable() ==> Iterate(d, k) == d
    decreases k
  {
    if d.Selectable() {
      var p := CyclePosition(d);
      CycleVisitsEveryScene(d);
      IterateSplit(SimpleDial, p, k);
      IterateFromDial(p + k);
      var e := Iterate(d, k);
      assert CyclePosition(e) == (p + k) % 6;
      if e == d {
        assert (p + k) % 6 == p;
      }
      if k % 6 == 0 {
        assert (p + k) % 6 == p;
        assert e == d by {
          match e
          case SimpleDial =>
          case SingleDrawArrays =>
          case MultiDrawArrays =>
          case BatchDrawArrays =>
          case SimpleTexture =>
          case LongShader =>
        }
      }
    } else if k > 0 {
      CycleHasPeriodSix(d, k - 1);
      assert Iterate(d, k) == Iterate(NextScene(d), k - 1);
    }
  }
}
