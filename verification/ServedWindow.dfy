/**
  The window a model is served at, derived from the memory budget, against the
  charge the pool makes for it (internal/app/app.go,
  internal/capability/capability.go). Figures are 64-bit and wrap; only the
  saturating operations do not.
*/
module ServedWindow {

  const Max64: int := 0x7fff_ffff_ffff_ffff

  predicate IsInt64(x: int) {
    -Max64 - 1 <= x <= Max64
  }

  function Wrap(x: int): (r: int)
    ensures IsInt64(r) && (IsInt64(x) ==> r == x)
  {
    var low := x % 0x1_0000_0000_0000_0000;
    if low > Max64 then low - 0x1_0000_0000_0000_0000 else low
  }

  /** Division as Go's, towards zero. */
  function Quotient(a: int, b: int): int
    requires b > 0
  {
    if a >= 0 then a / b else -((-a) / b)
  }

  function LoadCost(disk: int): int {
    Wrap(disk + Quotient(disk, 5))
  }

  function MulSaturating(a: int, b: int): int {
    if a <= 0 || b <= 0 then 0
    else if a > Quotient(Max64, b) then Max64
    else Wrap(a * b)
  }

  function AddSaturating(a: int, b: int): int {
    if a > 0 && b > Max64 - a then Max64 else Wrap(a + b)
  }

  /** What the pool charges a model for a window. */
  function LoadCostOf(disk: int, perToken: int, window: int, sequences: int): int {
    var cache := MulSaturating(MulSaturating(perToken, window), sequences);
    if cache <= 0 then LoadCost(disk) else AddSaturating(LoadCost(disk), cache)
  }

  const MinServedWindow: int := 4096

  /** A model as the charge sees it. */
  datatype Model = Model(disk: int, perToken: int, declared: int)

  function Floor(declared: int): int {
    if declared < MinServedWindow then declared else MinServedWindow
  }

  function Flat(disk: int): int {
    if LoadCost(disk) > 0 then LoadCost(disk) else 0
  }

  /** servedWindowAt, for a model whose operator set no window. */
  function Derived(m: Model, sequences: int, budget: int): int {
    if m.declared <= 0 || m.perToken <= 0 then m.declared else
    var each, flat := MulSaturating(m.perToken, sequences), Flat(m.disk);
    if each <= 0 || flat >= budget then Floor(m.declared)
    else
      var window := Quotient(budget - flat, each);
      if window > m.declared then m.declared else if window < Floor(m.declared) then Floor(m.declared) else window
  }

  function Charge(m: Model, window: int, sequences: int): int {
    LoadCostOf(m.disk, m.perToken, window, sequences)
  }

  /** A model of the figures the code can meet: sizes that are not negative. */
  predicate Plausible(m: Model) {
    && 0 <= m.disk && m.disk + m.disk / 5 <= Max64
    && 0 < m.perToken <= Max64 && 0 < m.declared <= Max64
  }

  // --------------------------------------------------- saturating arithmetic

  lemma Product(a: int, b: int)
    requires 0 < a <= Max64 && 0 < b <= Max64
    ensures MulSaturating(a, b) == if a * b > Max64 then Max64 else a * b
  {
    Divides(Max64, b, a);
    assert a * b == b * a;
  }

  lemma NonNegative(a: int, b: int)
    requires a >= 0 && b >= 0
    ensures a * b >= 0
  {
  }

  /** Three figures saturate to the same product in whichever order they are taken. */
  lemma CacheOf(perToken: int, window: int, sequences: int)
    requires 0 < perToken <= Max64 && 0 < window <= Max64 && 0 < sequences <= Max64
    ensures perToken * sequences >= 1
    ensures var product := perToken * sequences * window;
            && MulSaturating(MulSaturating(perToken, window), sequences) == (if product > Max64 then Max64 else product)
            && product >= 1
  {
    Product(perToken, window);
    assert perToken * window * sequences == perToken * sequences * window;
    Product(MulSaturating(perToken, window), sequences);
  }

  /** The whole charge, as a sum that stops at the largest figure there is. */
  lemma ChargeIs(m: Model, window: int, sequences: int)
    requires Plausible(m) && 0 < window <= Max64 && 0 < sequences <= Max64
    ensures var sum := m.disk + m.disk / 5 + m.perToken * sequences * window;
            Charge(m, window, sequences) == if sum > Max64 then Max64 else sum
  {
    CacheOf(m.perToken, window, sequences);
  }

  lemma Ordered(a: int, x: int, y: int)
    requires a >= 0 && x <= y
    ensures a * x <= a * y
  {
    NonNegative(a, y - x);
  }

  // ------------------------------------------------------------- main results

  /**
    Below the largest figure there is, a window's charge is within the budget
    exactly when the window is at most what the derivation divides out.
  */
  lemma FitsExactly(m: Model, window: int, sequences: int, budget: int)
    requires Plausible(m) && 0 < window <= Max64 && 0 < sequences <= Max64 && budget < Max64
    ensures var flat, each := m.disk + m.disk / 5, m.perToken * sequences;
            Charge(m, window, sequences) <= budget <==> flat < budget && window <= (budget - flat) / each
  {
    var flat, each := m.disk + m.disk / 5, m.perToken * sequences;
    ChargeIs(m, window, sequences);
    CacheOf(m.perToken, window, sequences);
    if flat < budget {
      Divides(budget - flat, each, window);
    }
  }

  lemma Divides(room: int, each: int, window: int)
    requires room >= 0 && each > 0
    ensures window <= room / each <==> each * window <= room
  {
    var q := room / each;
    assert each * q <= room < each * (q + 1);
    if window <= q {
      Ordered(each, window, q);
    } else {
      Ordered(each, q + 1, window);
    }
  }

  /** The derived window, without the saturation of its divisor showing. */
  lemma DerivedIs(m: Model, sequences: int, budget: int)
    requires Plausible(m) && 0 < sequences <= Max64 && budget < Max64
    ensures var flat, each, floor := m.disk + m.disk / 5, m.perToken * sequences, Floor(m.declared);
            && each >= 1
            && Derived(m, sequences, budget) ==
               if flat >= budget then floor
               else
                 var window := (budget - flat) / each;
                 if window > m.declared then m.declared else if window < floor then floor else window
  {
    var flat, each := m.disk + m.disk / 5, m.perToken * sequences;
    CacheOf(m.perToken, 1, sequences);
    Product(m.perToken, sequences);
    FlatChargeIsRightExactly(m.disk);
    hide MulSaturating, Flat, Wrap, LoadCost;
    if flat < budget {
      SameWindow(budget - flat, each);
    }
  }

  /** A divisor past the largest figure divides out nothing, and neither does that figure. */
  lemma SameWindow(room: int, each: int)
    requires 0 < room < Max64 && each >= 1
    ensures room / (if each > Max64 then Max64 else each) == room / each >= 0
  {
    Divides(room, each, 1);
    Divides(room, Max64, 1);
  }

  /**
    The derived window's whole charge is within the budget exactly when some
    window of at least the floor would be; it is then the declared window, or
    one token more would not fit.
  */
  lemma TheDerivedWindowFits(m: Model, sequences: int, budget: int)
    requires Plausible(m) && 0 < sequences <= Max64 && budget < Max64
    ensures var w := Derived(m, sequences, budget);
            && Floor(m.declared) <= w <= m.declared
            && (Charge(m, w, sequences) <= budget <==> Charge(m, Floor(m.declared), sequences) <= budget)
            && (Charge(m, w, sequences) <= budget ==> w == m.declared || Charge(m, w + 1, sequences) > budget)
            && (Charge(m, w, sequences) > budget ==> w == Floor(m.declared))
  {
    hide Derived, Charge;
    var w, floor := Derived(m, sequences, budget), Floor(m.declared);
    DerivedIs(m, sequences, budget);
    FitsExactly(m, w, sequences, budget);
    FitsExactly(m, floor, sequences, budget);
    if w < m.declared {
      FitsExactly(m, w + 1, sequences, budget);
    }
  }

  /** With no window declared, or nothing known of the cache, there is nothing to derive; with no room, the floor. */
  lemma NothingToDerive(m: Model, sequences: int, budget: int)
    ensures m.declared <= 0 || m.perToken <= 0 ==> Derived(m, sequences, budget) == m.declared
    ensures m.declared > 0 && m.perToken > 0 && (sequences <= 0 || Flat(m.disk) >= budget) ==>
              Derived(m, sequences, budget) == Floor(m.declared)
    ensures m.perToken <= 0 ==> forall w :: Charge(m, w, sequences) == LoadCost(m.disk)
    ensures Floor(m.declared) <= m.declared && Floor(m.declared) <= 4096
    ensures Floor(m.declared) == m.declared || Floor(m.declared) == 4096
  {
  }

  lemma QuotientFalls(room: int, more: int, each: int, larger: int)
    requires 0 <= room <= more && 0 < each <= larger
    ensures room / larger <= more / each
  {
    var q := room / larger;
    assert larger * q <= room;
    assert q >= 0;
    Ordered(q, each, larger);
    Divides(more, each, q);
  }

  /** Raising the concurrency, or the model's size, never widens it; raising the budget never narrows it. */
  lemma NeverWidens(m: Model, heavier: Model, sequences: int, more: int, budget: int, larger: int)
    requires Plausible(m) && Plausible(heavier) && m.declared == heavier.declared
    requires m.disk <= heavier.disk && m.perToken <= heavier.perToken
    requires 0 < sequences <= more <= Max64 && budget <= larger < Max64
    ensures Derived(heavier, more, budget) <= Derived(m, sequences, larger)
  {
    hide Derived;
    DerivedIs(heavier, more, budget);
    DerivedIs(m, sequences, larger);
    var flat, each := m.disk + m.disk / 5, m.perToken * sequences;
    var flat2, each2 := heavier.disk + heavier.disk / 5, heavier.perToken * more;
    assert each <= each2 by {
      Ordered(m.perToken, sequences, more);
      Ordered(more, m.perToken, heavier.perToken);
    }
    if flat2 < budget {
      QuotientFalls(budget - flat2, larger - flat, each, each2);
    }
  }

  // ------------------------------------------------------ where it stops

  /** The flat charge of a size is right exactly when it does not overflow; past that it is negative. */
  lemma FlatChargeIsRightExactly(disk: int)
    requires 0 <= disk <= Max64
    ensures LoadCost(disk) == disk + disk / 5 <==> disk + disk / 5 <= Max64
    ensures LoadCost(disk) < 0 <==> disk + disk / 5 > Max64
    ensures Flat(disk) == if disk + disk / 5 <= Max64 then disk + disk / 5 else 0
  {
  }

  /**
    Under a budget of the largest figure every window passes, also one whose
    plain sum exceeds the budget: its charge stops at the figure it is held to.
  */
  lemma TheLargestBudgetTakesAnything(m: Model, window: int, sequences: int, budget: int)
    requires Plausible(m) && 0 < window <= Max64 && 0 < sequences <= Max64 && budget == Max64
    ensures var sum := m.disk + m.disk / 5 + m.perToken * sequences * window;
            && Charge(m, window, sequences) <= budget
            && (Charge(m, window, sequences) == sum <==> sum <= budget)
  {
    ChargeIs(m, window, sequences);
  }
}
