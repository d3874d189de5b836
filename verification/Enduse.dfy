/** End uses: how energy and demand are metered, and how end uses are shared out over threads. */
module Enduse {
  import opened Options
  import opened Sync
  import opened Slices
  import MainLoop

  // ---------------------------------------------------------------------------
  // The meter
  // ---------------------------------------------------------------------------

  datatype Complex = Complex(r: real, i: real)

  function Plus(a: Complex, b: Complex): Complex { Complex(a.r + b.r, a.i + b.i) }

  function Times(a: Complex, x: real): Complex { Complex(a.r * x, a.i * x) }

  const Zero: Complex := Complex(0.0, 0.0)

  /** A load shape that is in use: its present load, and when it changes. */
  datatype Shape = Shape(load: real, t2: int)

  /** What the model may change between synchronisations. `reactive` is the reactive power per unit of
      real power that the power factor stands for. */
  datatype Settings = Settings(shape: Option<Shape>, heatLoad: bool, voltageFactor: real,
                               powerFraction: real, currentFraction: real, impedanceFraction: real,
                               reactive: real, heatgainFraction: real,
                               power: Complex, current: Complex, admittance: Complex)

  /** What a meter keeps, apart from heat. */
  datatype Meter = Meter(energy: Complex, total: Complex, demand: Complex, tLast: int)

  datatype PassConfig = PC_PRETOPDOWN | PC_BOTTOMUP | PC_POSTTOPDOWN

  /** What a bottom-up synchronisation finds: a load, unless it leaves the total alone, and whether the
      end use is metered for demand. */
  datatype Load = Load(total: Option<Complex>, electric: bool)

  function LoadOf(c: Settings): Load
  {
    var total :=
      if c.heatLoad then None
      else if c.shape.Some? then
        var p := if c.voltageFactor > 0.0
                 then c.shape.value.load * (c.powerFraction + c.currentFraction + c.impedanceFraction) else 0.0;
        Some(Complex(p, p * c.reactive))
      else if c.voltageFactor > 0.0 then Some(Plus(Plus(c.power, c.current), c.admittance))
      else None;
    Load(total, !c.heatLoad)
  }

  function NewTotal(total: Complex, load: Load): Complex
  {
    if load.total.Some? then load.total.value else total
  }

  /** Heat after a bottom-up synchronisation that left the given total. */
  function NewHeatgain(heatgain: real, total: Complex, c: Settings): real
  {
    if c.heatLoad then (if c.shape.Some? then c.shape.value.load else heatgain) * c.heatgainFraction
    else if c.heatgainFraction > 0.0 then total.r * c.heatgainFraction * 3412.1416
    else heatgain
  }

  /** The parts an end use keeps: its constant power, current and impedance. */
  datatype Parts = Parts(power: Complex, current: Complex, admittance: Complex)

  /** A shape sets them, in proportion to the total; otherwise they are what the model set. */
  function PartsOf(c: Settings, total: Complex): Parts
  {
    if c.shape.Some? && !c.heatLoad
    then Parts(Times(total, c.powerFraction), Times(total, c.currentFraction), Times(total, c.impedanceFraction))
    else Parts(c.power, c.current, c.admittance)
  }

  /** What the fractions add up to. */
  function Fractions(c: Settings): real { c.powerFraction + c.currentFraction + c.impedanceFraction }

  /** After a bottom-up synchronisation of an electric load that has a voltage the parts add up to the total: always
      without a shape, and with one exactly if the fractions add up to one, or to nothing, or there is no load. */
  lemma PartsMakeTotalIff(before: Complex, c: Settings)
    requires !c.heatLoad && c.voltageFactor > 0.0
    ensures var total := NewTotal(before, LoadOf(c));
            var parts := PartsOf(c, total);
            && (c.shape.Some? ==> total.r == c.shape.value.load * Fractions(c) && total.i == total.r * c.reactive)
            && (parts.power.r + parts.current.r + parts.admittance.r == total.r &&
                parts.power.i + parts.current.i + parts.admittance.i == total.i <==>
                c.shape.None? || Fractions(c) == 1.0 || Fractions(c) == 0.0 || c.shape.value.load == 0.0)
  {
    if c.shape.Some? {
      var load := c.shape.value.load;
      var total := NewTotal(before, LoadOf(c));
      assert total == Complex(load * Fractions(c), load * Fractions(c) * c.reactive);
      InProportion(total.r, c.powerFraction, c.currentFraction, c.impedanceFraction);
      InProportion(total.i, c.powerFraction, c.currentFraction, c.impedanceFraction);
      ProductZero(load, Fractions(c));
    }
  }

  /** Shares of x in given proportions add up to x exactly if the proportions add up to one or x is nothing. */
  lemma InProportion(x: real, a: real, b: real, c: real)
    ensures x * a + x * b + x * c == x <==> x == 0.0 || a + b + c == 1.0
  {
    assert x * a + x * b + x * c == x * (a + b + c);
    Unscaled(x, a + b + c);
  }

  lemma ProductZero(a: real, b: real)
    ensures a * b == 0.0 <==> a == 0.0 || b == 0.0
  {
    if a * b == 0.0 && b != 0.0 { assert a == a * b / b; }
  }

  /** Without a voltage a shape makes the total and all parts zero. */
  lemma NoVoltageNoLoad(before: Complex, c: Settings)
    requires !c.heatLoad && c.voltageFactor <= 0.0
    ensures var total := NewTotal(before, LoadOf(c));
            if c.shape.Some? then total == Zero && PartsOf(c, total) == Parts(Zero, Zero, Zero) else total == before
  {
  }

  /** Heat is energy: from a bottom-up synchronisation of an electric load to the next metering, the heat gain over
      the hours between is the heat fraction of the energy metered, in Btu. */
  lemma HeatIsEnergy(m: Meter, heatgain: real, c: Settings, load: Load, t1: int, t2: int)
    requires !c.heatLoad && 0.0 < c.heatgainFraction && 0 < t1
    ensures var then1 := Synced(m, PC_BOTTOMUP, LoadOf(c), t1);
            var then2 := Synced(then1, PC_PRETOPDOWN, load, t2);
            NewHeatgain(heatgain, then1.total, c) * ((t2 - t1) as real / 3600.0) ==
            3412.1416 * c.heatgainFraction * (then2.energy.r - then1.energy.r)
  {
    var total := NewTotal(m.total, LoadOf(c));
    UsedIsProduct(total, t1, t2);
    var h := (t2 - t1) as real / 3600.0;
    assert total.r * c.heatgainFraction * 3412.1416 * h == 3412.1416 * c.heatgainFraction * (total.r * h);
  }

  /** Power per second used from one time to another, in power-hours. */
  function Used(total: Complex, from: int, till: int): Complex
    decreases if from <= till then till - from else from - till
  {
    if from == till then Zero
    else if from < till then Plus(Used(total, from, till - 1), Times(total, 1.0 / 3600.0))
    else Plus(Used(total, from, till + 1), Times(total, -1.0 / 3600.0))
  }

  lemma {:induction false} UsedIsProduct(total: Complex, from: int, till: int)
    ensures Used(total, from, till) == Times(total, (till - from) as real / 3600.0)
    decreases if from <= till then till - from else from - till
  {
    if from == till {
      assert (till - from) as real == 0.0;
    } else {
      var next := if from < till then till - 1 else till + 1;
      UsedIsProduct(total, from, next);
      var d, s := (next - from) as real / 3600.0, if from < till then 1.0 / 3600.0 else -1.0 / 3600.0;
      assert (till - from) as real / 3600.0 == d + s;
      assert total.r * (d + s) == total.r * d + total.r * s;
      assert total.i * (d + s) == total.i * d + total.i * s;
    }
  }

  /** Energy after some hours at a constant power. */
  method Metered(energy: Complex, total: Complex, dt: real, ghost from: int, ghost till: int) returns (r: Complex)
    requires dt == (till - from) as real / 3600.0
    ensures r == Plus(energy, Used(total, from, till))
  {
    UsedIsProduct(total, from, till);
    r := Complex(energy.r + total.r * dt, energy.i + total.i * dt);
  }

  function Synced(m: Meter, pass: PassConfig, load: Load, t1: int): Meter
  {
    match pass
    case PC_PRETOPDOWN =>
      m.(energy := if m.tLast > 0 then Plus(m.energy, Used(m.total, m.tLast, t1)) else m.energy, tLast := t1)
    case PC_BOTTOMUP =>
      var total := NewTotal(m.total, load);
      Meter(m.energy, total, if load.electric && total.r > m.demand.r then total else m.demand, t1)
    case PC_POSTTOPDOWN => m
  }

  class EndUse {
    var energy: Complex
    var total: Complex
    var demand: Complex
    var heatgain: real
    var tLast: int
    var power: Complex
    var current: Complex
    var admittance: Complex

    function View(): Meter
      reads this
    {
      Meter(energy, total, demand, tLast)
    }

    constructor ()
      ensures View() == Meter(Zero, Zero, Zero, 0) && heatgain == 0.0
    {
      energy, total, demand, heatgain, tLast := Zero, Zero, Zero, 0.0, 0;
      power, current, admittance := Zero, Zero, Zero;
    }

    /** Synchronising an end use. A shape also sets its constant power, current and impedance parts. */
    method Sync(pass: PassConfig, c: Settings, t1: int) returns (t2: int)
      requires power == c.power && current == c.current && admittance == c.admittance
      modifies this
      ensures View() == Synced(old(View()), pass, LoadOf(c), t1)
      ensures heatgain == match pass
                          case PC_PRETOPDOWN => if old(tLast) > 0 && t1 > old(tLast) then 0.0 else old(heatgain)
                          case PC_BOTTOMUP => NewHeatgain(old(heatgain), total, c)
                          case PC_POSTTOPDOWN => old(heatgain)
      ensures t2 == if c.shape.Some? then c.shape.value.t2 else TS_NEVER
      ensures Parts(power, current, admittance)
              == if pass.PC_BOTTOMUP? then PartsOf(c, total) else old(Parts(power, current, admittance))
    {
      if pass.PC_PRETOPDOWN? {
        MeterPower(t1);
      } else if pass.PC_BOTTOMUP? {
        FindLoad(c);
        tLast := t1;
      }
      t2 := if c.shape.Some? then c.shape.value.t2 else TS_NEVER;
    }

    method MeterPower(t1: int)
      modifies this`energy, this`heatgain, this`tLast
      ensures tLast == t1
      ensures energy == if old(tLast) > 0 then Plus(old(energy), Used(total, old(tLast), t1)) else old(energy)
      ensures heatgain == if old(tLast) > 0 && t1 > old(tLast) then 0.0 else old(heatgain)
    {
      if tLast > 0 {
        var dt := (t1 - tLast) as real / 3600.0;
        energy := Metered(energy, total, dt, tLast, t1);
        assert dt > 0.0 <==> t1 > tLast;
        if dt > 0.0 { heatgain := 0.0; }
      }
      tLast := t1;
    }

    method FindLoad(c: Settings)
      requires power == c.power && current == c.current && admittance == c.admittance
      modifies this`total, this`demand, this`heatgain, this`power, this`current, this`admittance
      ensures total == NewTotal(old(total), LoadOf(c))
      ensures demand == if LoadOf(c).electric && total.r > old(demand).r then total else old(demand)
      ensures heatgain == NewHeatgain(old(heatgain), total, c)
      ensures Parts(power, current, admittance) == PartsOf(c, total)
    {
      if c.shape.Some? {
        if c.heatLoad {
          heatgain := c.shape.value.load;
        } else {
          var p := if c.voltageFactor > 0.0
                   then c.shape.value.load * (c.powerFraction + c.currentFraction + c.impedanceFraction) else 0.0;
          total := Complex(p, p * c.reactive);
          power, current, admittance :=
            Times(total, c.powerFraction), Times(total, c.currentFraction), Times(total, c.impedanceFraction);
        }
      } else if c.voltageFactor > 0.0 && !c.heatLoad {
        total := Plus(Plus(power, current), admittance);
      }
      if c.heatLoad {
        heatgain := heatgain * c.heatgainFraction;
      } else {
        if total.r > demand.r { demand := total; }
        if c.heatgainFraction > 0.0 { heatgain := total.r * c.heatgainFraction * 3412.1416; }
      }
    }
  }

  // ---------------------------------------------------------------------------
  // Runs
  // ---------------------------------------------------------------------------

  datatype Event = Event(t: int, pass: PassConfig, load: Load)

  function Run(m0: Meter, es: seq<Event>): Meter
  {
    if es == [] then m0
    else var e := es[|es| - 1]; Synced(Run(m0, es[..|es| - 1]), e.pass, e.load, e.t)
  }

  /** Time does not go backward and does not start before zero. */
  ghost predicate Ordered(es: seq<Event>)
  {
    && (forall k :: 0 <= k < |es| ==> 0 <= es[k].t && !es[k].pass.PC_POSTTOPDOWN?)
    && (forall j, k :: 0 <= j < k < |es| ==> es[j].t <= es[k].t)
  }

  function LastTime(es: seq<Event>): int
  {
    if es == [] then 0 else es[|es| - 1].t
  }

  /** The first time after zero, from which energy is metered; zero if there is none yet. */
  function FirstTime(es: seq<Event>): int
  {
    if es == [] then 0
    else if FirstTime(es[..|es| - 1]) > 0 then FirstTime(es[..|es| - 1])
    else es[|es| - 1].t
  }

  /** The power in effect at time x: what the last bottom-up synchronisation not after x left. */
  function PowerAt(m0: Meter, es: seq<Event>, x: int): Complex
  {
    if es == [] then m0.total
    else if es[|es| - 1].t <= x && es[|es| - 1].pass.PC_BOTTOMUP?
    then NewTotal(PowerAt(m0, es[..|es| - 1], x), es[|es| - 1].load)
    else PowerAt(m0, es[..|es| - 1], x)
  }

  /** Power summed over the seconds from `from` to `till`, in power-hours. */
  function Integral(m0: Meter, es: seq<Event>, from: int, till: int): Complex
    decreases till - from
  {
    if till <= from then Zero
    else Plus(Integral(m0, es, from, till - 1), Times(PowerAt(m0, es, till - 1), 1.0 / 3600.0))
  }

  /** What is never metered: the time between the last synchronisation and a bottom-up one. */
  function Skipped(m0: Meter, es: seq<Event>): Complex
  {
    if es == [] then Zero
    else
      var n := |es| - 1;
      Plus(Skipped(m0, es[..n]), SkippedBy(Run(m0, es[..n]), es[n]))
  }

  function SkippedBy(m: Meter, e: Event): Complex
  {
    if e.pass.PC_BOTTOMUP? && m.tLast > 0 then Used(m.total, m.tLast, e.t) else Zero
  }

  /** What an event meters. */
  function MeteredBy(m: Meter, e: Event): Complex
  {
    if e.pass.PC_PRETOPDOWN? && m.tLast > 0 then Used(m.total, m.tLast, e.t) else Zero
  }

  lemma RunLast(m0: Meter, init: seq<Event>, e: Event)
    requires !e.pass.PC_POSTTOPDOWN?
    ensures Run(m0, init + [e]).energy == Plus(Run(m0, init).energy, MeteredBy(Run(m0, init), e))
    ensures Skipped(m0, init + [e]) == Plus(Skipped(m0, init), SkippedBy(Run(m0, init), e))
  {
    var es := init + [e];
    assert es[..|init|] == init && es[|init|] == e;
    PlusZero(Run(m0, init).energy);
  }

  lemma PlusZero(a: Complex)
    ensures Plus(a, Zero) == a
  {
  }

  lemma {:induction false} TimesOf(m0: Meter, es: seq<Event>)
    requires Ordered(es) && m0.tLast == 0
    ensures Run(m0, es).tLast == LastTime(es)
    ensures 0 <= FirstTime(es) <= LastTime(es) && (FirstTime(es) == 0 <==> LastTime(es) == 0)
  {
    if es != [] {
      var n := |es| - 1;
      TimesOf(m0, es[..n]);
      if n > 0 { assert es[n - 1].t <= es[n].t; }
    }
  }

  /** After the last event the power in effect is the total the meter shows. */
  lemma {:induction false} PowerNow(m0: Meter, es: seq<Event>, x: int)
    requires Ordered(es) && LastTime(es) <= x
    ensures PowerAt(m0, es, x) == Run(m0, es).total
  {
    if es != [] {
      var n := |es| - 1;
      if n > 0 { assert es[n - 1].t <= es[n].t; }
      PowerNow(m0, es[..n], x);
    }
  }

  lemma PlusAssoc(a: Complex, b: Complex, c: Complex)
    ensures Plus(Plus(a, b), c) == Plus(a, Plus(b, c))
  {
  }

  lemma {:induction false} IntegralSplit(m0: Meter, es: seq<Event>, from: int, mid: int, till: int)
    requires from <= mid <= till
    ensures Integral(m0, es, from, till) == Plus(Integral(m0, es, from, mid), Integral(m0, es, mid, till))
    decreases till - mid
  {
    if mid < till {
      IntegralSplit(m0, es, from, mid, till - 1);
      var last := Times(PowerAt(m0, es, till - 1), 1.0 / 3600.0);
      PlusAssoc(Integral(m0, es, from, mid), Integral(m0, es, mid, till - 1), last);
    }
  }

  /** Where the power does not change the integral is a rectangle. */
  lemma {:induction false} IntegralConstant(m0: Meter, es: seq<Event>, from: int, till: int, p: Complex)
    requires from <= till && forall x :: from <= x < till ==> PowerAt(m0, es, x) == p
    ensures Integral(m0, es, from, till) == Used(p, from, till)
    decreases till - from
  {
    if from < till {
      IntegralConstant(m0, es, from, till - 1, p);
    }
  }

  /** Events do not change the power in effect before them. */
  lemma {:induction false} IntegralExtends(m0: Meter, es: seq<Event>, e: Event, from: int, till: int)
    requires till <= e.t
    ensures Integral(m0, es + [e], from, till) == Integral(m0, es, from, till)
    decreases till - from
  {
    if from < till {
      IntegralExtends(m0, es, e, from, till - 1);
      assert (es + [e])[..|es|] == es;
    }
  }

  /** Energy metered and skipped make up the integral. */
  ghost predicate Balanced(m0: Meter, es: seq<Event>)
  {
    Plus(Run(m0, es).energy, Skipped(m0, es)) == Plus(m0.energy, Integral(m0, es, FirstTime(es), LastTime(es)))
  }

  /** Metered energy, for any order of passes: the integral of the power in effect since the first
      positive synchronisation time, less the time that bottom-up synchronisations skip. */
  lemma {:induction false} EnergyIsIntegral(m0: Meter, es: seq<Event>)
    requires Ordered(es) && m0.tLast == 0
    ensures Balanced(m0, es)
  {
    if es != [] {
      var n := |es| - 1;
      EnergyIsIntegral(m0, es[..n]);
      assert es == es[..n] + [es[n]];
      if LastTime(es[..n]) > 0 { EnergyGrows(m0, es[..n], es[n]); } else { EnergyStarts(m0, es[..n], es[n]); }
    }
  }

  lemma EnergyStarts(m0: Meter, init: seq<Event>, e: Event)
    requires Ordered(init + [e]) && Ordered(init) && m0.tLast == 0 && LastTime(init) == 0 && Balanced(m0, init)
    ensures Balanced(m0, init + [e])
  {
    var es := init + [e];
    assert es[..|init|] == init && es[|init|] == e;
    TimesOf(m0, init);
    RunLast(m0, init, e);
    assert MeteredBy(Run(m0, init), e) == Zero && SkippedBy(Run(m0, init), e) == Zero;
    PlusZero(Run(m0, init).energy);
    PlusZero(Skipped(m0, init));
    NoTime(m0, es);
    NoTime(m0, init);
  }

  /** Up to the first time there is nothing to integrate. */
  lemma NoTime(m0: Meter, es: seq<Event>)
    requires es == [] || FirstTime(es) == LastTime(es)
    ensures Integral(m0, es, FirstTime(es), LastTime(es)) == Zero
  {
  }

  lemma EnergyGrows(m0: Meter, init: seq<Event>, e: Event)
    requires Ordered(init + [e]) && Ordered(init) && m0.tLast == 0 && LastTime(init) > 0 && Balanced(m0, init)
    ensures Balanced(m0, init + [e])
  {
    var es, m := init + [e], Run(m0, init);
    assert es[..|init|] == init && es[|init|] == e;
    TimesOf(m0, init);
    RunLast(m0, init, e);
    Interval(m0, init, e);
    assert FirstTime(es) == FirstTime(init) && LastTime(es) == e.t;
    Accounts(m.energy, Skipped(m0, init), m0.energy, Integral(m0, init, FirstTime(init), LastTime(init)),
             MeteredBy(m, e), SkippedBy(m, e), Used(m.total, m.tLast, e.t));
  }

  lemma Accounts(energy: Complex, skipped: Complex, before: Complex, integral: Complex,
                 metered: Complex, lost: Complex, used: Complex)
    requires Plus(energy, skipped) == Plus(before, integral)
    requires (metered == used && lost == Zero) || (metered == Zero && lost == used)
    ensures Plus(Plus(energy, metered), Plus(skipped, lost)) == Plus(before, Plus(integral, used))
  {
  }

  /** The integral up to the next event. */
  lemma Interval(m0: Meter, init: seq<Event>, e: Event)
    requires Ordered(init + [e]) && Ordered(init) && m0.tLast == 0 && LastTime(init) > 0
    ensures LastTime(init) <= e.t
    ensures Integral(m0, init + [e], FirstTime(init), e.t) ==
            Plus(Integral(m0, init, FirstTime(init), LastTime(init)), Used(Run(m0, init).total, LastTime(init), e.t))
  {
    var es, p := init + [e], LastTime(init);
    assert es[|init| - 1].t <= es[|init|].t;
    TimesOf(m0, init);
    IntegralSplit(m0, es, FirstTime(init), p, e.t);
    IntegralExtends(m0, init, e, FirstTime(init), p);
    forall x | p <= x < e.t ensures PowerAt(m0, es, x) == Run(m0, init).total { PowerBefore(m0, init, e, x); }
    IntegralConstant(m0, es, p, e.t, Run(m0, init).total);
  }

  lemma PowerBefore(m0: Meter, init: seq<Event>, e: Event, x: int)
    requires Ordered(init) && LastTime(init) <= x < e.t
    ensures PowerAt(m0, init + [e], x) == Run(m0, init).total
  {
    assert (init + [e])[..|init|] == init;
    PowerNow(m0, init, x);
  }

  /** Every bottom-up synchronisation comes at a time that was synchronised before. */
  ghost predicate Proper(es: seq<Event>)
  {
    forall k :: 0 <= k < |es| && es[k].pass.PC_BOTTOMUP? ==> es[k].t == LastTime(es[..k])
  }

  lemma {:induction false} NothingSkipped(m0: Meter, es: seq<Event>)
    requires Ordered(es) && Proper(es) && m0.tLast == 0
    ensures Skipped(m0, es) == Zero
  {
    if es != [] {
      var n := |es| - 1;
      forall k | 0 <= k < n && es[..n][k].pass.PC_BOTTOMUP? ensures es[..n][k].t == LastTime(es[..n][..k]) {
        assert es[..n][..k] == es[..k];
      }
      NothingSkipped(m0, es[..n]);
      TimesOf(m0, es[..n]);
      assert es == es[..n] + [es[n]];
      RunLast(m0, es[..n], es[n]);
      assert SkippedBy(Run(m0, es[..n]), es[n]) == Zero;
      PlusZero(Zero);
    }
  }

  /** If each time step synchronises top-down before bottom-up, energy is exactly the integral of power
      since the first positive time. */
  lemma EnergyExact(m0: Meter, es: seq<Event>)
    requires Ordered(es) && Proper(es) && m0.tLast == 0
    ensures Run(m0, es).energy == Plus(m0.energy, Integral(m0, es, FirstTime(es), LastTime(es)))
  {
    EnergyIsIntegral(m0, es);
    NothingSkipped(m0, es);
  }

  function Bottoms(es: seq<Event>): seq<Event>
  {
    if es == [] then []
    else Bottoms(es[..|es| - 1]) + if es[|es| - 1].pass.PC_BOTTOMUP? then [es[|es| - 1]] else []
  }

  lemma {:induction false} PowerFromBottoms(m0: Meter, es: seq<Event>, x: int)
    ensures PowerAt(m0, es, x) == PowerAt(m0, Bottoms(es), x)
  {
    if es != [] {
      var n := |es| - 1;
      PowerFromBottoms(m0, es[..n], x);
      if es[n].pass.PC_BOTTOMUP? {
        var b := Bottoms(es[..n]);
        assert (b + [es[n]])[..|b|] == b;
      } else {
        assert Bottoms(es[..n]) + [] == Bottoms(es[..n]);
      }
    }
  }

  lemma {:induction false} IntegralFromBottoms(m0: Meter, es: seq<Event>, fs: seq<Event>, from: int, till: int)
    requires Bottoms(es) == Bottoms(fs)
    ensures Integral(m0, es, from, till) == Integral(m0, fs, from, till)
    decreases till - from
  {
    if from < till {
      IntegralFromBottoms(m0, es, fs, from, till - 1);
      PowerFromBottoms(m0, es, till - 1);
      PowerFromBottoms(m0, fs, till - 1);
    }
  }

  /** Extra top-down synchronisations change nothing: two runs with the same bottom-up ones that start
      and end at the same times meter the same energy. */
  lemma ExtraPreChangesNothing(m0: Meter, es: seq<Event>, fs: seq<Event>)
    requires Ordered(es) && Proper(es) && Ordered(fs) && Proper(fs) && m0.tLast == 0
    requires Bottoms(es) == Bottoms(fs) && FirstTime(es) == FirstTime(fs) && LastTime(es) == LastTime(fs)
    ensures Run(m0, es).energy == Run(m0, fs).energy
  {
    EnergyExact(m0, es);
    EnergyExact(m0, fs);
    IntegralFromBottoms(m0, es, fs, FirstTime(es), LastTime(es));
  }

  // ---------------------------------------------------------------------------
  // Demand and heat
  // ---------------------------------------------------------------------------

  /** The electric loads that bottom-up synchronisations found, after the initial demand. */
  function Peaks(m0: Meter, es: seq<Event>): seq<Complex>
  {
    if es == [] then [m0.demand]
    else
      var e := es[|es| - 1];
      Peaks(m0, es[..|es| - 1]) +
      if e.pass.PC_BOTTOMUP? && e.load.electric then [Run(m0, es).total] else []
  }

  /** Demand is one of the totals seen, its real part the largest, and the earliest such. */
  lemma {:induction false} DemandIsMaximum(m0: Meter, es: seq<Event>) returns (k: nat)
    ensures var ps, d := Peaks(m0, es), Run(m0, es).demand;
            && k < |ps| && d == ps[k]
            && (forall j :: 0 <= j < |ps| ==> ps[j].r <= d.r)
            && (forall j :: 0 <= j < k ==> ps[j].r < d.r)
  {
    if es == [] { return 0; }
    var n, e := |es| - 1, es[|es| - 1];
    k := DemandIsMaximum(m0, es[..n]);
    var before := Peaks(m0, es[..n]);
    if e.pass.PC_BOTTOMUP? && e.load.electric && Run(m0, es).total.r > before[k].r {
      k := |before|;
    }
  }

  lemma Unscaled(h: real, f: real)
    ensures h * f == h <==> h == 0.0 || f == 1.0
  {
    assert h * f - h == h * (f - 1.0);
    if f != 1.0 && h != 0.0 { assert h * (f - 1.0) != 0.0; }
  }

  /** A bottom-up synchronisation of a heat load leaves total and demand alone; that of an electric load raises the
      demand to the new total if that is larger, and never lowers it. */
  lemma DemandMeans(m: Meter, c: Settings, t1: int)
    ensures var r := Synced(m, PC_BOTTOMUP, LoadOf(c), t1);
            if c.heatLoad then r.total == m.total && r.demand == m.demand
            else r.demand in {m.demand, r.total} && r.total.r <= r.demand.r && m.demand.r <= r.demand.r
                 && (r.demand != m.demand ==> m.demand.r < r.demand.r)
  {
  }

  /** Synchronising bottom-up twice is the same as once, except that the heat of a heat load without a
      shape shrinks by its fraction each time. */
  lemma BottomUpTwiceIff(m: Meter, heatgain: real, c: Settings, t1: int)
    ensures var once := Synced(m, PC_BOTTOMUP, LoadOf(c), t1);
            var heat := NewHeatgain(heatgain, once.total, c);
            && Synced(once, PC_BOTTOMUP, LoadOf(c), t1) == once
            && (NewHeatgain(heat, once.total, c) == heat <==>
                !c.heatLoad || c.shape.Some? || c.heatgainFraction == 1.0 || heatgain * c.heatgainFraction == 0.0)
  {
    HeatTwice(heatgain, NewTotal(m.total, LoadOf(c)), c);
  }

  lemma HeatTwice(heatgain: real, total: Complex, c: Settings)
    ensures var heat := NewHeatgain(heatgain, total, c);
            NewHeatgain(heat, total, c) == heat <==>
            !c.heatLoad || c.shape.Some? || c.heatgainFraction == 1.0 || heatgain * c.heatgainFraction == 0.0
  {
    if c.heatLoad && c.shape.None? {
      var h, f := heatgain * c.heatgainFraction, c.heatgainFraction;
      assert NewHeatgain(heatgain, total, c) == h;
      assert NewHeatgain(h, total, c) == h * f;
      Unscaled(h, f);
    }
  }

  // ---------------------------------------------------------------------------
  // Threads
  // ---------------------------------------------------------------------------

  /** Threads wanted for n end uses. */
  function Wanted(n: nat, threadCount: nat): nat
  {
    if n < threadCount * 4 then (if n / 4 == 0 then 1 else n / 4) else threadCount
  }

  /** It is the greatest number up to the allowed one that gives every thread four end uses, or else one. */
  lemma WantedIsMost(n: nat, threadCount: nat)
    requires 0 < threadCount
    ensures var t := Wanted(n, threadCount);
            && 1 <= t <= threadCount && (t == 1 || 4 * t <= n)
            && forall k :: 1 <= k <= threadCount && 4 * k <= n ==> k <= t
  {
  }

  lemma DivisionFits(n: nat, items: nat)
    requires 0 < n && 0 < items
    ensures Fits(n, items, n / items + if n / items * items < n then 1 else 0)
  {
    var q := n / items;
    assert n == q * items + n % items;
    if q * items < n {
      ProductStep(q, q, items);
    } else {
      if q == 0 { assert false; }
      ProductStep(q - 1, q - 1, items);
    }
  }

  /** The thread pool's arithmetic: every end use is in exactly one slice, no slice is empty, and there
      may be more threads than were wanted, but only by a quarter. There are more than were allowed
      exactly if there are four end uses or more for each and they do not divide evenly. */
  method SetupThreads(n: nat, threadCount: nat) returns (thread: array<Slice>)
    requires 0 < n && 1 < threadCount
    ensures var t, k := Wanted(n, threadCount), thread.Length;
            && 1 <= t <= threadCount
            && IsSlicing(thread[..], n)
            && k == CeilDiv(n, n / t)
            && t <= k <= t + CeilDiv(t - 1, 4)
            && (k > threadCount <==> 4 * threadCount <= n && n % threadCount != 0)
  {
    var nThreads := threadCount;
    if n < nThreads * 4 { nThreads := n / 4; }
    if nThreads == 0 { nThreads := 1; }
    ghost var wanted := nThreads;
    var items := n / nThreads;
    WantedHasItems(n, threadCount);
    nThreads := n / items;
    if nThreads * items < n { nThreads := nThreads + 1; }
    DivisionFits(n, items);
    FitsIsCeil(n, items, nThreads);
    QuarterMore(n, wanted, nThreads);
    MoreThanAllowedIff(n, threadCount);
    thread := Assign(n, items, nThreads);
  }

  lemma WantedHasItems(n: nat, threadCount: nat)
    requires 0 < n && 1 < threadCount
    ensures var t := Wanted(n, threadCount); 1 <= t <= threadCount && 0 < n / t && (t == 1 || 4 * t <= n)
  {
    var t := Wanted(n, threadCount);
    if t != 1 { FourEach(n, t); }
  }

  lemma FitsIsCeil(n: nat, items: nat, k: nat)
    requires Fits(n, items, k)
    ensures k == CeilDiv(n, items)
  {
    CeilDivFits(n, items);
    var c := CeilDiv(n, items);
    if c < k { ProductStep(c, k - 1, items); } else if k < c { ProductStep(k, c - 1, items); }
  }

  lemma QuarterMore(n: nat, t: nat, k: nat)
    requires 0 < t && (t == 1 || 4 * t <= n) && 0 < n && n / t > 0 && Fits(n, n / t, k)
    ensures t <= k <= t + CeilDiv(t - 1, 4)
  {
    var items := n / t;
    assert n == t * items + n % t;
    if k < t { ProductStep(k, t - 1, items); }
    if t == 1 {
      if k > 1 { ProductStep(1, k - 1, items); }
    } else {
      FourEach(n, t);
      Overflow(n, t, items, k, CeilDiv(t - 1, 4));
    }
  }

  lemma FourEach(n: nat, t: nat)
    requires 0 < t && 4 * t <= n
    ensures 4 <= n / t
  {
  }

  lemma Overflow(n: nat, t: nat, items: nat, k: nat, c: nat)
    requires 0 < t && n < t * items + t && 4 <= items && t - 1 <= 4 * c && Fits(n, items, k)
    ensures k <= t + c
  {
    if k > t + c {
      ProductStep(t + c, k - 1, items);
      assert (t + c) * items == t * items + c * items;
      ProductStep(4, items, c);
    }
  }

  /** The pool has more threads than the modeller allowed exactly if there are at least four end uses
      for each of them and their number is not a multiple of it. */
  lemma MoreThanAllowedIff(n: nat, threadCount: nat)
    requires 0 < n && 1 < threadCount
    ensures var t := Wanted(n, threadCount);
            0 < t && 0 < n / t && (CeilDiv(n, n / t) > threadCount <==> 4 * threadCount <= n && n % threadCount != 0)
  {
    var t := Wanted(n, threadCount);
    WantedHasItems(n, threadCount);
    var items := n / t;
    var k := CeilDiv(n, items);
    CeilDivFits(n, items);
    if 4 * threadCount <= n {
      Leftover(n, threadCount, items, k);
    } else {
      if t != 1 { FourEach(n, t); }
      FewerThanAllowed(n, threadCount, items, k);
    }
  }

  /** With every wanted thread full, anything left over takes another thread. */
  lemma Leftover(n: nat, t: nat, items: nat, k: nat)
    requires 0 < t && items == n / t && Fits(n, items, k)
    ensures k > t <==> n % t != 0
  {
    assert n == t * items + n % t;
    if n % t == 0 {
      if k > t { ProductStep(t, k - 1, items); }
    } else {
      if k <= t { ProductStep(k, t, items); }
    }
  }

  /** Four end uses to a thread, or all of them to one, keep the count down. */
  lemma FewerThanAllowed(n: nat, t: nat, items: nat, k: nat)
    requires n < 4 * t && 1 < t && Fits(n, items, k) && (4 <= items || items == n)
    ensures k <= t
  {
    if k > t {
      if items == n { ProductStep(1, k - 1, items); } else { ProductStep(t, k - 1, items); ProductStep(4, items, t); }
    }
  }

  /** For instance, 29 end uses on 6 threads. */
  lemma MoreThanAllowed()
    ensures Wanted(29, 6) == 6 && CeilDiv(29, 29 / 6) == 8
  {
  }

  // ---------------------------------------------------------------------------
  // The next time an end use changes
  // ---------------------------------------------------------------------------

  /** The loop over a list of end uses, the whole list or a thread's slice of it. */
  method NextChange(answers: seq<Time>) returns (t2: Time)
    ensures MainLoop.Earliest(t2, answers)
  {
    t2 := TS_NEVER;
    for k := 0 to |answers|
      invariant MainLoop.Earliest(t2, answers[..k])
    {
      assert answers[..k + 1] == answers[..k] + [answers[k]];
      if answers[k] < t2 { t2 := answers[k]; }
    }
    assert answers[..|answers|] == answers;
  }

  function SliceOf(answers: seq<Time>, s: Slice): seq<Time>
    requires s.End() <= |answers|
  {
    answers[s.first..s.End()]
  }

  /** The threads' results in the order in which they get hold of the lock. */
  ghost predicate Arrivals(order: seq<nat>, n: nat)
  {
    && (forall i :: 0 <= i < |order| ==> order[i] < n)
    && (forall k :: 0 <= k < n ==> k in order)
  }

  /** The parallel form answers what the sequential one does, whatever the order in which the threads
      finish. */
  lemma ParallelAnswersSame(answers: seq<Time>, ss: seq<Slice>, mins: seq<Time>, order: seq<nat>, merged: Time,
                            alone: Time)
    requires IsSlicing(ss, |answers|) && |mins| == |ss| && Arrivals(order, |ss|)
    requires forall k :: 0 <= k < |ss| ==>
               ss[k].End() <= |answers| && MainLoop.Earliest(mins[k], SliceOf(answers, ss[k]))
    requires MainLoop.Earliest(merged, seq(|order|, i requires 0 <= i < |order| => mins[order[i]]))
    requires MainLoop.Earliest(alone, answers)
    ensures merged == alone
  {
    var arrived := seq(|order|, i requires 0 <= i < |order| => mins[order[i]]);
    forall j | 0 <= j < |answers| ensures merged <= answers[j] {
      CoveredExactlyOnce(ss, |answers|, j);
      var k: nat :| 0 <= k < |ss| && ss[k].Has(j);
      assert k in order;
      var i :| 0 <= i < |order| && order[i] == k;
      assert arrived[i] == mins[k];
      NoLaterThan(answers, ss[k], mins[k], j);
    }
    if merged != TS_NEVER {
      var i :| 0 <= i < |order| && arrived[i] == merged;
      AnswerOf(answers, ss[order[i]], merged);
    }
    MainLoop.EarliestUnique(merged, alone, answers);
  }

  lemma NoLaterThan(answers: seq<Time>, s: Slice, r: Time, j: nat)
    requires s.End() <= |answers| && MainLoop.Earliest(r, SliceOf(answers, s)) && s.Has(j)
    ensures r <= answers[j]
  {
    assert SliceOf(answers, s)[j - s.first] == answers[j];
  }

  lemma AnswerOf(answers: seq<Time>, s: Slice, r: Time)
    requires s.End() <= |answers| && MainLoop.Earliest(r, SliceOf(answers, s)) && r != TS_NEVER
    ensures r in answers
  {
    assert r in SliceOf(answers, s);
  }
}
