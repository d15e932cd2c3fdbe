/**
 * One section of a sun's corona (Flattiverse.Connector/Units/SubComponents/SunSection.cs):
 * a ring segment between two radii and two angles with an energy and an ion output. Every
 * setter first checks the value (error 0x31), then that the section belongs to an editable
 * configuration (error 0x34), and only then assigns.
 */
module Suns {
  import opened Wrappers

  /** A C# `double`: a finite value, an infinity or NaN. */
  datatype Double = Finite(value: real) | PositiveInfinity | NegativeInfinity | NaN

  /** The code of a `GameException`. */
  datatype GameException = GameException(code: int)

  /** A value is out of range. */
  const INVALID_VALUE := 0x31
  /** The section has no configuration to edit. */
  const NOT_EDITABLE := 0x34

  /** The six fields of a section. */
  datatype Section = Section(innerRadius: real, outerRadius: real, angelFrom: real, angelTo: real, energy: real, ions: real)

  /** Every change a caller can make to a section: the six setters, `SetRadii` and `SetAngels`. */
  datatype SectionOp =
    | InnerRadius(value: Double)
    | OuterRadius(value: Double)
    | Radii(inner: Double, outer: Double)
    | AngelFrom(value: Double)
    | AngelTo(value: Double)
    | Angels(from: Double, to: Double)
    | Energy(value: Double)
    | Ions(value: Double)

  /** The common tail of every setter: reject a bad value, then a missing configuration. */
  function Checked(bad: bool, configured: bool, next: Section): (r: Result<Section, GameException>)
    ensures r.Success? <==> !bad && configured
  {
    if bad then Failure(GameException(INVALID_VALUE))
    else if !configured then Failure(GameException(NOT_EDITABLE))
    else Success(next)
  }

  /**
   * The effect of one operation on a section whose configuration is present (`configured`)
   * or null. `Energy` and `Ions` check the incoming value; see `EnergyAsWritten` for the
   * check the source makes.
   */
  function Apply(s: Section, configured: bool, op: SectionOp): (r: Result<Section, GameException>)
    ensures r.Success? ==> configured
    ensures r.Failure? ==> r.error.code == INVALID_VALUE || (r.error.code == NOT_EDITABLE && !configured)
  {
    match op
    case InnerRadius(v) =>
      if !v.Finite? then Checked(true, configured, s)
      else Checked(v.value < 0.0 || v.value >= s.outerRadius, configured, s.(innerRadius := v.value))
    case OuterRadius(v) =>
      if !v.Finite? then Checked(true, configured, s)
      else Checked(v.value > 1000.0 || s.innerRadius >= v.value, configured, s.(outerRadius := v.value))
    case Radii(i, o) =>
      if !i.Finite? || !o.Finite? then Checked(true, configured, s)
      else Checked(i.value < 0.0 || i.value >= o.value || o.value > 2000.0, configured, s.(innerRadius := i.value, outerRadius := o.value))
    case AngelFrom(v) =>
      if !v.Finite? then Checked(true, configured, s)
      else Checked(v.value < 0.0 || v.value >= s.angelTo, configured, s.(angelFrom := v.value))
    case AngelTo(v) =>
      if !v.Finite? then Checked(true, configured, s)
      else Checked(v.value > 360.0 || s.angelFrom >= v.value, configured, s.(angelTo := v.value))
    case Angels(f, t) =>
      if !f.Finite? || !t.Finite? then Checked(true, configured, s)
      else Checked(f.value < 0.0 || f.value >= t.value || t.value > 360.0, configured, s.(angelFrom := f.value, angelTo := t.value))
    case Energy(v) =>
      if !v.Finite? then Checked(true, configured, s)
      else Checked(v.value > 500.0 || v.value < -500.0, configured, s.(energy := v.value))
    case Ions(v) =>
      if !v.Finite? then Checked(true, configured, s)
      else Checked(v.value > 50.0 || v.value < -50.0, configured, s.(ions := v.value))
  }

  /** The section after an operation: the new one, or the old one when the operation threw. */
  function After(s: Section, r: Result<Section, GameException>): Section
  {
    if r.Success? then r.value else s
  }

  /** What the caller sees of an operation: nothing, or the exception it threw. */
  function Thrown(r: Result<Section, GameException>): Outcome<GameException>
  {
    if r.Success? then Pass else Fail(r.error)
  }

  /** The operations `ops` in turn; one that throws leaves the section as it was. */
  function Run(s: Section, configured: bool, ops: seq<SectionOp>): Section
    decreases |ops|
  {
    if ops == [] then s else Run(After(s, Apply(s, configured, ops[0])), configured, ops[1..])
  }

  /** The shape every section should keep: a non-empty ring segment within the limits. */
  ghost predicate Shaped(s: Section)
  {
    && 0.0 <= s.innerRadius < s.outerRadius <= 2000.0
    && 0.0 <= s.angelFrom < s.angelTo <= 360.0
    && -500.0 <= s.energy <= 500.0 && -50.0 <= s.ions <= 50.0
  }

  /** No operation can break the shape of a section. */
  lemma ApplyKeepsShape(s: Section, configured: bool, op: SectionOp)
    requires Shaped(s)
    ensures Shaped(After(s, Apply(s, configured, op)))
  {
  }

  /** No sequence of operations can break the shape of a section. */
  lemma {:induction false} RunKeepsShape(s: Section, configured: bool, ops: seq<SectionOp>)
    requires Shaped(s)
    ensures Shaped(Run(s, configured, ops))
    decreases |ops|
  {
    if ops != [] {
      ApplyKeepsShape(s, configured, ops[0]);
      RunKeepsShape(After(s, Apply(s, configured, ops[0])), configured, ops[1..]);
    }
  }

  /**
   * A failing operation changes nothing. A bad value is reported as 0x31 whether or not
   * the section is editable; 0x34 only comes for a value that passed its check.
   */
  lemma FailureOrder(s: Section, op: SectionOp)
    ensures Apply(s, false, op).Failure?
    ensures Apply(s, true, op).Failure? ==> Apply(s, false, op) == Apply(s, true, op) == Failure(GameException(INVALID_VALUE))
    ensures Apply(s, true, op).Success? ==> Apply(s, false, op) == Failure(GameException(NOT_EDITABLE))
  {
  }

  /**
   * `SetRadii` sets both radii or neither: it succeeds exactly for finite values with
   * `0 <= inner < outer <= 2000` on an editable section.
   */
  lemma RadiiBothOrNeither(s: Section, configured: bool, inner: real, outer: real)
    ensures var r := Apply(s, configured, Radii(Finite(inner), Finite(outer)));
            && (r.Success? <==> configured && 0.0 <= inner < outer <= 2000.0)
            && (r.Success? ==> r.value == s.(innerRadius := inner, outerRadius := outer))
  {
  }

  /**
   * `SetAngels` sets both angles or neither: it succeeds exactly for finite values with
   * `0 <= from < to <= 360` on an editable section.
   */
  lemma AngelsBothOrNeither(s: Section, configured: bool, from: real, to: real)
    ensures var r := Apply(s, configured, Angels(Finite(from), Finite(to)));
            && (r.Success? <==> configured && 0.0 <= from < to <= 360.0)
            && (r.Success? ==> r.value == s.(angelFrom := from, angelTo := to))
  {
  }

  /**
   * The `OuterRadius` setter caps the outer radius at 1000, `SetRadii` at 2000: a value the
   * setter accepts `SetRadii` accepts too, but not the other way round.
   */
  lemma OuterCaps(s: Section, outer: real)
    ensures Apply(s, true, OuterRadius(Finite(outer))).Success? && s.innerRadius >= 0.0 ==>
              Apply(s, true, Radii(Finite(s.innerRadius), Finite(outer))).Success?
    ensures var t := Section(0.0, 1.0, 0.0, 1.0, 0.0, 0.0);
            Apply(t, true, Radii(Finite(0.0), Finite(1500.0))).Success? && Apply(t, true, OuterRadius(Finite(1500.0))).Failure?
  {
  }

  /**
   * The `Energy` setter as the source writes it (SunSection.cs:183): it tests the stored
   * `energy` against the limits instead of the incoming value.
   */
  function EnergyAsWritten(s: Section, configured: bool, v: Double): (r: Result<Section, GameException>)
    ensures r.Success? <==> configured && v.Finite? && -500.0 <= s.energy <= 500.0
    ensures r.Success? ==> r.value == s.(energy := v.value)
  {
    if !v.Finite? then Checked(true, configured, s)
    else Checked(s.energy > 500.0 || s.energy < -500.0, configured, s.(energy := v.value))
  }

  /** The `Ions` setter as the source writes it (SunSection.cs:201): it tests the stored `ions`. */
  function IonsAsWritten(s: Section, configured: bool, v: Double): (r: Result<Section, GameException>)
    ensures r.Success? <==> configured && v.Finite? && -50.0 <= s.ions <= 50.0
    ensures r.Success? ==> r.value == s.(ions := v.value)
  {
    if !v.Finite? then Checked(true, configured, s)
    else Checked(s.ions > 50.0 || s.ions < -50.0, configured, s.(ions := v.value))
  }

  /**
   * As written, an energy of 1000 is accepted on a section with energy 0, and from then on
   * every energy value, even 0, is refused with 0x31: the section is stuck out of range.
   */
  lemma EnergyAsWrittenEscapes()
    ensures var s := Section(0.0, 1.0, 0.0, 1.0, 0.0, 0.0);
            && EnergyAsWritten(s, true, Finite(1000.0)) == Success(s.(energy := 1000.0))
            && EnergyAsWritten(s.(energy := 1000.0), true, Finite(0.0)) == Failure(GameException(INVALID_VALUE))
  {
  }

  /** As written, ions of 60 are accepted on a section with ions 0, then even 0 is refused. */
  lemma IonsAsWrittenEscapes()
    ensures var s := Section(0.0, 1.0, 0.0, 1.0, 0.0, 0.0);
            && IonsAsWritten(s, true, Finite(60.0)) == Success(s.(ions := 60.0))
            && IonsAsWritten(s.(ions := 60.0), true, Finite(0.0)) == Failure(GameException(INVALID_VALUE))
  {
  }

  /**
   * With the value checked, the energy setter accepts exactly the finite values within
   * `[-500, 500]` on an editable section, whatever the stored energy is.
   */
  lemma EnergyChecksValue(s: Section, configured: bool, e: real)
    ensures Apply(s, configured, Energy(Finite(e))).Success? <==> configured && -500.0 <= e <= 500.0
    ensures Apply(s, configured, Energy(Finite(e))).Success? ==> Apply(s, configured, Energy(Finite(e))).value.energy == e
  {
  }

  /**
   * With the value checked, the ions setter accepts exactly the finite values within
   * `[-50, 50]` on an editable section, whatever the stored ions are.
   */
  lemma IonsChecksValue(s: Section, configured: bool, i: real)
    ensures Apply(s, configured, Ions(Finite(i))).Success? <==> configured && -50.0 <= i <= 50.0
    ensures Apply(s, configured, Ions(Finite(i))).Success? ==> Apply(s, configured, Ions(Finite(i))).value.ions == i
  {
  }

  /**
   * A constructor body that assigns through the setters in the order `ops` gives: the first
   * setter that throws ends the construction with its exception.
   */
  function Setup(s: Section, configured: bool, ops: seq<SectionOp>): (r: Result<Section, GameException>)
    ensures ops != [] && r.Success? ==> configured
    ensures r.Failure? ==> r.error.code == INVALID_VALUE || (r.error.code == NOT_EDITABLE && !configured)
    decreases |ops|
  {
    if ops == [] then Success(s)
    else match Apply(s, configured, ops[0])
      case Failure(e) => Failure(e)
      case Success(next) => Setup(next, configured, ops[1..])
  }

  /** `Setup` runs the first setter and, when it passes, the rest from its result. */
  lemma SetupFirst(s: Section, configured: bool, ops: seq<SectionOp>)
    requires ops != []
    ensures var a := Apply(s, configured, ops[0]);
            Setup(s, configured, ops) == if a.Failure? then Failure(a.error) else Setup(a.value, configured, ops[1..])
  {
  }

  /** The fields of a new object before its constructor body runs. */
  const ZERO := Section(0.0, 0.0, 0.0, 0.0, 0.0, 0.0)

  /** A value `PacketReader.Read2U(100)` or `Read2S(100)` yields: the raw integer in hundredths. */
  function Hundredths(n: int): real
  {
    n as real / 100.0
  }

  /** The setters `SunSection(configuration)` runs, in the source's order (SunSection.cs:22-29). */
  function DefaultSettersAsWritten(): seq<SectionOp>
  {
    [InnerRadius(Finite(100.0)), OuterRadius(Finite(130.0)), AngelFrom(Finite(45.0)), AngelTo(Finite(135.0)), Energy(Finite(4.0)), Ions(Finite(0.0))]
  }

  /** The setters `SunSection(configuration, reader)` runs, in the source's order (SunSection.cs:36-42). */
  function ReadSettersAsWritten(inner: uint16, outer: uint16, from: uint16, to: uint16, energy: int16, ions: int16): seq<SectionOp>
  {
    [InnerRadius(Finite(Hundredths(inner))), OuterRadius(Finite(Hundredths(outer))),
     AngelFrom(Finite(Hundredths(from))), AngelTo(Finite(Hundredths(to))),
     Energy(Finite(Hundredths(energy))), Ions(Finite(Hundredths(ions)))]
  }

  /**
   * As written, the default constructor cannot complete: the inner radius 100 is checked
   * against an outer radius that is still 0 and rejected with 0x31.
   */
  lemma DefaultAsWrittenThrows(configured: bool)
    ensures Setup(ZERO, configured, DefaultSettersAsWritten()) == Failure(GameException(INVALID_VALUE))
  {
  }

  /**
   * As written, the reading constructor cannot complete for any packet: every inner radius
   * it reads is at least 0, the outer radius it is checked against.
   */
  lemma ReadAsWrittenThrows(configured: bool, inner: uint16, outer: uint16, from: uint16, to: uint16, energy: int16, ions: int16)
    ensures Setup(ZERO, configured, ReadSettersAsWritten(inner, outer, from, to, energy, ions)) == Failure(GameException(INVALID_VALUE))
  {
  }

  /** The default constructor's setters with only the radii reordered; the angles keep the source's order. */
  function DefaultSettersRadiiFirst(): seq<SectionOp>
  {
    [OuterRadius(Finite(130.0)), InnerRadius(Finite(100.0)), AngelFrom(Finite(45.0)), AngelTo(Finite(135.0)), Energy(Finite(4.0)), Ions(Finite(0.0))]
  }

  /** The reading constructor's setters with only the radii reordered; the angles keep the source's order. */
  function ReadSettersRadiiFirst(inner: uint16, outer: uint16, from: uint16, to: uint16, energy: int16, ions: int16): seq<SectionOp>
  {
    [OuterRadius(Finite(Hundredths(outer))), InnerRadius(Finite(Hundredths(inner))),
     AngelFrom(Finite(Hundredths(from))), AngelTo(Finite(Hundredths(to))),
     Energy(Finite(Hundredths(energy))), Ions(Finite(Hundredths(ions)))]
  }

  /**
   * The source's angle order is a second defect (SunSection.cs:25-26): even with the radii
   * fixed, `AngelFrom = 45` is checked against an `angelTo` that is still 0 and throws 0x31
   * (0x34 comes first when there is no configuration).
   */
  lemma {:induction false} DefaultAnglesAsWrittenThrows(configured: bool)
    ensures Setup(ZERO, configured, DefaultSettersRadiiFirst())
            == Failure(GameException(if configured then INVALID_VALUE else NOT_EDITABLE))
  {
    var ops := DefaultSettersRadiiFirst();
    SetupFirst(ZERO, configured, ops);
    if configured {
      var s1 := ZERO.(outerRadius := 130.0);
      SetupFirst(s1, configured, ops[1..]);
      SetupFirst(s1.(innerRadius := 100.0), configured, ops[2..]);
    }
  }

  /**
   * The same for the reading constructor (SunSection.cs:38-39): with the radii fixed, every
   * packet still fails, at the latest at `AngelFrom`, whose value is at least the 0 of
   * `angelTo`; with a configuration the exception is always 0x31.
   */
  lemma {:induction false} ReadAnglesAsWrittenThrows(configured: bool, inner: uint16, outer: uint16, from: uint16, to: uint16, energy: int16, ions: int16)
    ensures Setup(ZERO, configured, ReadSettersRadiiFirst(inner, outer, from, to, energy, ions)).Failure?
    ensures configured ==> Setup(ZERO, configured, ReadSettersRadiiFirst(inner, outer, from, to, energy, ions)) == Failure(GameException(INVALID_VALUE))
  {
    var ops := ReadSettersRadiiFirst(inner, outer, from, to, energy, ions);
    SetupFirst(ZERO, configured, ops);
    if outer != 0 && configured {
      var s1 := ZERO.(outerRadius := Hundredths(outer));
      SetupFirst(s1, configured, ops[1..]);
      if inner < outer {
        SetupFirst(s1.(innerRadius := Hundredths(inner)), configured, ops[2..]);
      }
    }
  }

  /** The default constructor's setters with `OuterRadius` before `InnerRadius` and `AngelTo` before `AngelFrom`. */
  function DefaultSetters(): seq<SectionOp>
  {
    [OuterRadius(Finite(130.0)), InnerRadius(Finite(100.0)), AngelTo(Finite(135.0)), AngelFrom(Finite(45.0)), Energy(Finite(4.0)), Ions(Finite(0.0))]
  }

  /** The reading constructor's setters with `OuterRadius` before `InnerRadius` and `AngelTo` before `AngelFrom`. */
  function ReadSetters(inner: uint16, outer: uint16, from: uint16, to: uint16, energy: int16, ions: int16): seq<SectionOp>
  {
    [OuterRadius(Finite(Hundredths(outer))), InnerRadius(Finite(Hundredths(inner))),
     AngelTo(Finite(Hundredths(to))), AngelFrom(Finite(Hundredths(from))),
     Energy(Finite(Hundredths(energy))), Ions(Finite(Hundredths(ions)))]
  }

  /** In the corrected order the default constructor yields the documented, well-shaped section. */
  lemma {:induction false} DefaultsConstruct()
    ensures Setup(ZERO, true, DefaultSetters()) == Success(Section(100.0, 130.0, 45.0, 135.0, 4.0, 0.0))
    ensures Shaped(Section(100.0, 130.0, 45.0, 135.0, 4.0, 0.0))
  {
  }

  /**
   * In the corrected order, and with `Ions` checking the value read rather than the stored
   * field, the reading constructor succeeds exactly for an editable section
   * whose radii and angles are ordered, whose angle `to` is at most 360 and whose ions lie
   * within `[-50, 50]`; the result then holds the values read and is well shaped.
   */
  lemma {:induction false} ReadConstructs(configured: bool, inner: uint16, outer: uint16, from: uint16, to: uint16, energy: int16, ions: int16)
    ensures var r := Setup(ZERO, configured, ReadSetters(inner, outer, from, to, energy, ions));
            && (r.Success? <==> configured && inner < outer && from < to && Hundredths(to) <= 360.0 && -50.0 <= Hundredths(ions) <= 50.0)
            && (r.Success? ==> r.value == Section(Hundredths(inner), Hundredths(outer), Hundredths(from), Hundredths(to), Hundredths(energy), Hundredths(ions)))
            && (r.Success? ==> Shaped(r.value))
  {
    var ops := ReadSetters(inner, outer, from, to, energy, ions);
    var s1 := ZERO.(outerRadius := Hundredths(outer));
    var s2 := s1.(innerRadius := Hundredths(inner));
    var s3 := s2.(angelTo := Hundredths(to));
    var s4 := s3.(angelFrom := Hundredths(from));
    var s5 := s4.(energy := Hundredths(energy));
    var s6 := s5.(ions := Hundredths(ions));
    SetupFirst(ZERO, configured, ops);
    if outer == 0 || !configured {
      return;
    }
    assert Apply(ZERO, configured, ops[0]) == Success(s1);
    SetupFirst(s1, configured, ops[1..]);
    if inner >= outer {
      return;
    }
    assert Apply(s1, configured, ops[1]) == Success(s2);
    SetupFirst(s2, configured, ops[2..]);
    if to == 0 || Hundredths(to) > 360.0 {
      return;
    }
    assert Apply(s2, configured, ops[2]) == Success(s3);
    SetupFirst(s3, configured, ops[3..]);
    if from >= to {
      return;
    }
    assert Apply(s3, configured, ops[3]) == Success(s4);
    SetupFirst(s4, configured, ops[4..]);
    assert Apply(s4, configured, ops[4]) == Success(s5);
    SetupFirst(s5, configured, ops[5..]);
    if Hundredths(ions) > 50.0 || Hundredths(ions) < -50.0 {
      return;
    }
    assert Apply(s5, configured, ops[5]) == Success(s6);
    assert ops[6..] == [];
  }

  class SunSection {
    var innerRadius: real
    var outerRadius: real
    var angelFrom: real
    var angelTo: real
    var energy: real
    var ions: real
    /** Whether `Configuration` is not null. */
    const configured: bool

    function View(): Section
      reads this
    {
      Section(innerRadius, outerRadius, angelFrom, angelTo, energy, ions)
    }

    /** A new object before its constructor body runs: every field is 0. */
    constructor Blank(configured: bool)
      ensures View() == ZERO && this.configured == configured
    {
      innerRadius, outerRadius, angelFrom, angelTo, energy, ions := 0.0, 0.0, 0.0, 0.0, 0.0, 0.0;
      this.configured := configured;
    }

    /** The `InnerRadius` setter (SunSection.cs:64-77). */
    method SetInnerRadius(value: Double) returns (r: Outcome<GameException>)
      modifies this`innerRadius
      ensures r == Thrown(Apply(old(View()), configured, InnerRadius(value)))
      ensures View() == After(old(View()), Apply(old(View()), configured, InnerRadius(value)))
    {
      if !value.Finite? || value.value < 0.0 || value.value >= outerRadius {
        return Fail(GameException(INVALID_VALUE));
      }
      if !configured {
        return Fail(GameException(NOT_EDITABLE));
      }
      innerRadius := value.value;
      r := Pass;
    }

    /** The `OuterRadius` setter (SunSection.cs:82-95). */
    method SetOuterRadius(value: Double) returns (r: Outcome<GameException>)
      modifies this`outerRadius
      ensures r == Thrown(Apply(old(View()), configured, OuterRadius(value)))
      ensures View() == After(old(View()), Apply(old(View()), configured, OuterRadius(value)))
    {
      if !value.Finite? || value.value > 1000.0 || innerRadius >= value.value {
        return Fail(GameException(INVALID_VALUE));
      }
      if !configured {
        return Fail(GameException(NOT_EDITABLE));
      }
      outerRadius := value.value;
      r := Pass;
    }

    /** `SetRadii(inner, outer)` (SunSection.cs:103-116). */
    method SetRadii(inner: Double, outer: Double) returns (r: Outcome<GameException>)
      modifies this`innerRadius, this`outerRadius
      ensures r == Thrown(Apply(old(View()), configured, Radii(inner, outer)))
      ensures View() == After(old(View()), Apply(old(View()), configured, Radii(inner, outer)))
    {
      if !inner.Finite? || !outer.Finite? || inner.value < 0.0 || inner.value >= outer.value {
        return Fail(GameException(INVALID_VALUE));
      }
      if outer.value > 2000.0 {
        return Fail(GameException(INVALID_VALUE));
      }
      if !configured {
        return Fail(GameException(NOT_EDITABLE));
      }
      innerRadius, outerRadius := inner.value, outer.value;
      r := Pass;
    }

    /** `SetAngels(from, to)` (SunSection.cs:124-137). */
    method SetAngels(from: Double, to: Double) returns (r: Outcome<GameException>)
      modifies this`angelFrom, this`angelTo
      ensures r == Thrown(Apply(old(View()), configured, Angels(from, to)))
      ensures View() == After(old(View()), Apply(old(View()), configured, Angels(from, to)))
    {
      if !from.Finite? || !to.Finite? || from.value < 0.0 || from.value >= to.value {
        return Fail(GameException(INVALID_VALUE));
      }
      if to.value > 360.0 {
        return Fail(GameException(INVALID_VALUE));
      }
      if !configured {
        return Fail(GameException(NOT_EDITABLE));
      }
      angelFrom, angelTo := from.value, to.value;
      r := Pass;
    }

    /** The `AngelFrom` setter (SunSection.cs:142-155). */
    method SetAngelFrom(value: Double) returns (r: Outcome<GameException>)
      modifies this`angelFrom
      ensures r == Thrown(Apply(old(View()), configured, AngelFrom(value)))
      ensures View() == After(old(View()), Apply(old(View()), configured, AngelFrom(value)))
    {
      if !value.Finite? || value.value < 0.0 || value.value >= angelTo {
        return Fail(GameException(INVALID_VALUE));
      }
      if !configured {
        return Fail(GameException(NOT_EDITABLE));
      }
      angelFrom := value.value;
      r := Pass;
    }

    /** The `AngelTo` setter (SunSection.cs:160-173). */
    method SetAngelTo(value: Double) returns (r: Outcome<GameException>)
      modifies this`angelTo
      ensures r == Thrown(Apply(old(View()), configured, AngelTo(value)))
      ensures View() == After(old(View()), Apply(old(View()), configured, AngelTo(value)))
    {
      if !value.Finite? || value.value > 360.0 || angelFrom >= value.value {
        return Fail(GameException(INVALID_VALUE));
      }
      if !configured {
        return Fail(GameException(NOT_EDITABLE));
      }
      angelTo := value.value;
      r := Pass;
    }

    /** The `Energy` setter (SunSection.cs:178-191), checking the incoming value. */
    method SetEnergy(value: Double) returns (r: Outcome<GameException>)
      modifies this`energy
      ensures r == Thrown(Apply(old(View()), configured, Energy(value)))
      ensures View() == After(old(View()), Apply(old(View()), configured, Energy(value)))
    {
      if !value.Finite? || value.value > 500.0 || value.value < -500.0 {
        return Fail(GameException(INVALID_VALUE));
      }
      if !configured {
        return Fail(GameException(NOT_EDITABLE));
      }
      energy := value.value;
      r := Pass;
    }

    /** The `Ions` setter (SunSection.cs:196-209), checking the incoming value. */
    method SetIons(value: Double) returns (r: Outcome<GameException>)
      modifies this`ions
      ensures r == Thrown(Apply(old(View()), configured, Ions(value)))
      ensures View() == After(old(View()), Apply(old(View()), configured, Ions(value)))
    {
      if !value.Finite? || value.value > 50.0 || value.value < -50.0 {
        return Fail(GameException(INVALID_VALUE));
      }
      if !configured {
        return Fail(GameException(NOT_EDITABLE));
      }
      ions := value.value;
      r := Pass;
    }

    /** One operation, through the setter it names. */
    method Perform(op: SectionOp) returns (r: Outcome<GameException>)
      modifies this`innerRadius, this`outerRadius, this`angelFrom, this`angelTo, this`energy, this`ions
      ensures r == Thrown(Apply(old(View()), configured, op))
      ensures View() == After(old(View()), Apply(old(View()), configured, op))
    {
      match op
      case InnerRadius(v) => r := SetInnerRadius(v);
      case OuterRadius(v) => r := SetOuterRadius(v);
      case Radii(i, o) => r := SetRadii(i, o);
      case AngelFrom(v) => r := SetAngelFrom(v);
      case AngelTo(v) => r := SetAngelTo(v);
      case Angels(f, t) => r := SetAngels(f, t);
      case Energy(v) => r := SetEnergy(v);
      case Ions(v) => r := SetIons(v);
    }

    /**
     * A constructor body: a new section with the given configuration runs the setters
     * `ops` in turn; the first one that throws makes the constructor throw.
     */
    static method Build(configured: bool, ops: seq<SectionOp>) returns (r: Result<SunSection, GameException>)
      ensures r.Success? ==> fresh(r.value) && r.value.configured == configured
      ensures r.Success? ==> Setup(ZERO, configured, ops) == Success(r.value.View())
      ensures r.Failure? ==> Setup(ZERO, configured, ops) == Failure(r.error)
    {
      var section := new SunSection.Blank(configured);
      var i := 0;
      while i < |ops|
        invariant i <= |ops| && fresh(section) && section.configured == configured
        invariant Setup(ZERO, configured, ops) == Setup(section.View(), configured, ops[i..])
      {
        assert ops[i..][0] == ops[i] && ops[i..][1..] == ops[i + 1..];
        var outcome := section.Perform(ops[i]);
        if outcome.Fail? {
          return Failure(outcome.error);
        }
        i := i + 1;
      }
      r := Success(section);
    }
  }
}
