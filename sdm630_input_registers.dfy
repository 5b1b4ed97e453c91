/**
 * The input register table of the SDM630 (sdm630_input_registers.py):
 * read-only measurements, each a 32-bit float at an odd word address.
 */
module InputRegisterTable {
  import opened Wrappers
  import opened Registers
  import opened RegisterList

  // Input register addresses, named after the measurement they hold.
  const PHASE_1_VOLTAGE: int := 1
  const PHASE_2_VOLTAGE: int := 3
  const PHASE_3_VOLTAGE: int := 5
  const PHASE_1_CURRENT: int := 7
  const PHASE_2_CURRENT: int := 9
  const PHASE_3_CURRENT: int := 11
  const PHASE_1_POWER: int := 13
  const PHASE_2_POWER: int := 15
  const PHASE_3_POWER: int := 17
  const PHASE_1_VA: int := 19
  const PHASE_2_VA: int := 21
  const PHASE_3_VA: int := 23
  const PHASE_1_VAR: int := 25
  const PHASE_2_VAR: int := 27
  const PHASE_3_VAR: int := 29
  const PHASE_1_PF: int := 31
  const PHASE_2_PF: int := 33
  const PHASE_3_PF: int := 35
  const PHASE_1_ANGLE: int := 37
  const PHASE_2_ANGLE: int := 39
  const PHASE_3_ANGLE: int := 41
  const AVG_LN_VOLTAGE: int := 43
  const AVG_LINE_CURRENT: int := 47
  const SUM_LINE_CURRENT: int := 49
  const TOTAL_POWER: int := 53
  const TOTAL_VA: int := 57
  const TOTAL_VAR: int := 61
  const TOTAL_PF: int := 63
  const TOTAL_ANGLE: int := 67
  const FREQUENCY: int := 71
  const TOTAL_IMPORT_KWH: int := 73
  const TOTAL_EXPORT_KWH: int := 75
  const TOTAL_IMPORT_KVARH: int := 77
  const TOTAL_EXPORT_KVARH: int := 79
  const TOTAL_VAH: int := 81
  const TOTAL_AH: int := 83
  const TOTAL_POWER_DEMAND: int := 85
  const MAX_TOTAL_POWER_DEMAND: int := 87
  const TOTAL_VA_DEMAND: int := 101
  const MAX_TOTAL_VA_DEMAND: int := 103
  const NEUTRAL_CURRENT_DEMAND: int := 105
  const MAX_NEUTRAL_CURRENT_DEMAND: int := 107

  // The table of `_init_registers`, in source order. Rows that pass a sixth,
  // boolean argument in the source are marked: the register constructor of
  // registers.py takes only five, so that argument is dropped here.

  /** Rows for per-phase voltage, current and power (sdm630_input_registers.py:69-77). */
  function PhaseVoltageCurrentPowerRows(): seq<RegisterRow>
  {
    [
      RegisterRow(PHASE_1_VOLTAGE, 1, "Phase 1 line to neutral volts", "Volts", 237.2),
      RegisterRow(PHASE_2_VOLTAGE, 2, "Phase 2 line to neutral volts", "Volts", 235.1),
      RegisterRow(PHASE_3_VOLTAGE, 3, "Phase 3 line to neutral volts", "Volts", 239.45),
      RegisterRow(PHASE_1_CURRENT, 4, "Phase 1 current", "Amps", 5.1),
      RegisterRow(PHASE_2_CURRENT, 5, "Phase 2 current", "Amps", 5.0),
      RegisterRow(PHASE_3_CURRENT, 6, "Phase 3 current", "Amps", 5.2),
      RegisterRow(PHASE_1_POWER, 7, "Phase 1 power", "Watts", 100.0),  // sixth argument True dropped
      RegisterRow(PHASE_2_POWER, 8, "Phase 2 power", "Watts", 101.0),  // sixth argument True dropped
      RegisterRow(PHASE_3_POWER, 9, "Phase 3 power", "Watts", 99.0)  // sixth argument True dropped
    ]
  }

  /** Rows for per-phase volt amps, reactive power and power factor (sdm630_input_registers.py:78-86). */
  function PhaseVaVarPowerFactorRows(): seq<RegisterRow>
  {
    [
      RegisterRow(PHASE_1_VA, 10, "Phase 1 volt amps", "VA", 110.0),
      RegisterRow(PHASE_2_VA, 11, "Phase 2 volt amps", "VA", 111.0),
      RegisterRow(PHASE_3_VA, 12, "Phase 3 volt amps", "VA", 109.0),
      RegisterRow(PHASE_1_VAR, 13, "Phase 1 reactive power", "VAr", 10.0),  // sixth argument True dropped
      RegisterRow(PHASE_2_VAR, 14, "Phase 2 reactive power", "VAr", 11.0),  // sixth argument True dropped
      RegisterRow(PHASE_3_VAR, 15, "Phase 3 reactive power", "VAr", 9.0),  // sixth argument True dropped
      RegisterRow(PHASE_1_PF, 16, "Phase 1 power factor", "None", 0.98),  // sixth argument True dropped
      RegisterRow(PHASE_2_PF, 17, "Phase 2 power factor", "None", 0.97),  // sixth argument True dropped
      RegisterRow(PHASE_3_PF, 18, "Phase 3 power factor", "None", 0.99)  // sixth argument True dropped
    ]
  }

  /** Rows for phase angles, averages, system totals and frequency (sdm630_input_registers.py:87-98). */
  function AngleAverageAndSystemRows(): seq<RegisterRow>
  {
    [
      RegisterRow(PHASE_1_ANGLE, 19, "Phase 1 phase angle", "Degrees", 1.0),
      RegisterRow(PHASE_2_ANGLE, 20, "Phase 2 phase angle", "Degrees", 2.0),
      RegisterRow(PHASE_3_ANGLE, 21, "Phase 3 phase angle", "Degrees", 3.0),
      RegisterRow(AVG_LN_VOLTAGE, 22, "Average line to neutral volts", "Volts", 230.0),
      RegisterRow(AVG_LINE_CURRENT, 24, "Average line current", "Amps", 5.1),
      RegisterRow(SUM_LINE_CURRENT, 25, "Sum of line currents", "Amps", 15.3),
      RegisterRow(TOTAL_POWER, 27, "Total system power", "Watts", 300.0),  // sixth argument True dropped
      RegisterRow(TOTAL_VA, 29, "Total system volt amps", "VA", 330.0),
      RegisterRow(TOTAL_VAR, 31, "Total system VAr", "VAr", 30.0),  // sixth argument True dropped
      RegisterRow(TOTAL_PF, 32, "Total system power factor", "None", 0.98),  // sixth argument True dropped
      RegisterRow(TOTAL_ANGLE, 34, "Total system phase angle", "Degrees", 2.0),
      RegisterRow(FREQUENCY, 36, "Frequency of supply voltages", "Hz", 50.0)
    ]
  }

  /** Rows for total energy and system demand (sdm630_input_registers.py:99-110). */
  function EnergyAndDemandRows(): seq<RegisterRow>
  {
    [
      RegisterRow(TOTAL_IMPORT_KWH, 37, "Total Import kWh", "kWh", 1000.0),
      RegisterRow(TOTAL_EXPORT_KWH, 38, "Total Export kWh", "kWh", 500.0),
      RegisterRow(TOTAL_IMPORT_KVARH, 39, "Total Import kVArh", "kVArh", 200.0),
      RegisterRow(TOTAL_EXPORT_KVARH, 40, "Total Export kVArh", "kVArh", 100.0),
      RegisterRow(TOTAL_VAH, 41, "Total VAh", "kVAh", 1500.0),
      RegisterRow(TOTAL_AH, 42, "Total Ah", "Ah", 300.0),
      RegisterRow(TOTAL_POWER_DEMAND, 43, "Total system power demand", "W", 320.0),
      RegisterRow(MAX_TOTAL_POWER_DEMAND, 44, "Maximum total system power demand", "VA", 350.0),
      RegisterRow(TOTAL_VA_DEMAND, 51, "Total system VA demand", "VA", 340.0),
      RegisterRow(MAX_TOTAL_VA_DEMAND, 53, "Maximum total system VA demand", "VA", 360.0),
      RegisterRow(NEUTRAL_CURRENT_DEMAND, 53, "Neutral current demand", "Amps", 1.0),
      RegisterRow(MAX_NEUTRAL_CURRENT_DEMAND, 54, "Maximum neutral current demand", "Amps", 1.2)
    ]
  }

  /** Rows for line-to-line voltage, neutral current and per-phase distortion (sdm630_input_registers.py:111-121). */
  function LineVoltageNeutralAndDistortionRows(): seq<RegisterRow>
  {
    [
      RegisterRow(201, 101, "Line 1 to Line 2 volts", "Volts", 400.0),
      RegisterRow(203, 102, "Line 2 to Line 3 volts", "Volts", 400.0),
      RegisterRow(205, 103, "Line 3 to Line 1 volts", "Volts", 400.0),
      RegisterRow(207, 104, "Average line to line volts", "Volts", 400.0),
      RegisterRow(225, 113, "Neutral current", "Amps", 0.2),
      RegisterRow(235, 118, "Phase 1 L/N volts THD", "%", 0.2),
      RegisterRow(237, 119, "Phase 2 L/N volts THD", "%", 0.3),
      RegisterRow(239, 120, "Phase 3 L/N volts THD", "%", 0.4),
      RegisterRow(241, 121, "Phase 1 Current THD", "%", 0.3),
      RegisterRow(243, 122, "Phase 2 Current THD", "%", 0.6),
      RegisterRow(245, 123, "Phase 3 Current THD", "%", 0.3)
    ]
  }

  /** Rows for average distortion and phase current demand (sdm630_input_registers.py:122-129). */
  function AverageDistortionAndCurrentDemandRows(): seq<RegisterRow>
  {
    [
      RegisterRow(249, 125, "Average line to neutral volts THD", "%", 0.2),
      RegisterRow(251, 126, "Average line current THD", "%", 0.4),
      RegisterRow(259, 130, "Phase 1 current demand", "Amps", 0.0),
      RegisterRow(261, 131, "Phase 2 current demand", "Amps", 3.0),
      RegisterRow(263, 132, "Phase 3 current demand", "Amps", 1.0),
      RegisterRow(265, 133, "Maximum phase 1 current demand", "Amps", 13.0),
      RegisterRow(267, 134, "Maximum phase 2 current demand", "Amps", 13.0),
      RegisterRow(269, 135, "Maximum phase 3 current demand", "Amps", 13.0)
    ]
  }

  /** Rows for line-to-line distortion and per-phase import and export energy (sdm630_input_registers.py:130-141). */
  function LineDistortionAndPhaseEnergyRows(): seq<RegisterRow>
  {
    [
      RegisterRow(335, 168, "Line 1 to line 2 volts THD", "%", 0.5),
      RegisterRow(337, 169, "Line 2 to line 3 volts THD", "%", 0.3),
      RegisterRow(339, 170, "Line 3 to line 1 volts THD", "%", 0.4),
      RegisterRow(341, 171, "Average line to line volts THD", "%", 0.3),
      RegisterRow(343, 172, "Total kwh(3)", "kWh", 1348.8),
      RegisterRow(345, 173, "Total kvarh(3)", "kvarh", 125.0),
      RegisterRow(347, 174, "L1 import kwh", "kWh", 420.0),
      RegisterRow(349, 175, "L2 import kwh", "kWh", 370.0),
      RegisterRow(351, 176, "L3 import kWh", "kWh", 580.0),
      RegisterRow(353, 177, "L1 export kWh", "kWh", 1500.0),
      RegisterRow(355, 178, "L2 export kwh", "kWh", 1400.0),
      RegisterRow(357, 179, "L3 export kWh", "kWh", 1300.0)
    ]
  }

  /** Rows for per-phase total energy and reactive energy (sdm630_input_registers.py:142-153). */
  function PhaseTotalEnergyRows(): seq<RegisterRow>
  {
    [
      RegisterRow(359, 180, "L1 total kwh(3)", "kWh", 420.0),
      RegisterRow(361, 181, "L2 total kWh(3)", "kWh", 370.0),
      RegisterRow(363, 182, "L3 total kwh(3)", "kWh", 580.0),
      RegisterRow(365, 183, "L1 import kvarh", "kvarh", 10.0),
      RegisterRow(367, 184, "L2 import kvarh", "kvarh", 13.0),
      RegisterRow(369, 185, "L3 import kvarh", "kvarh", 17.0),
      RegisterRow(371, 186, "L1 export kvarh", "kvarh", 12.0),
      RegisterRow(373, 187, "L2 export kvarh", "kvarh", 16.0),
      RegisterRow(375, 188, "L3 export kvarh", "kvarh", 19.0),
      RegisterRow(377, 189, "L1 total kvarh (3)", "kvarh", 25.0),
      RegisterRow(379, 190, "L2 total kvarh (3)", "kvarh", 27.0),
      RegisterRow(381, 191, "L3 total kvarh (3)", "kvarh", 30.0)
    ]
  }

  /** Every row that `_init_registers` appends, in source order. */
  function InputTable(): seq<RegisterRow>
  {
    PhaseVoltageCurrentPowerRows() + PhaseVaVarPowerFactorRows() + AngleAverageAndSystemRows() +
    EnergyAndDemandRows() + LineVoltageNeutralAndDistortionRows() + AverageDistortionAndCurrentDemandRows() +
    LineDistortionAndPhaseEnergyRows() + PhaseTotalEnergyRows()
  }

  /** Every address of the rows is odd and lies at least two above the one before. */
  ghost predicate RowsLaidOut(rows: seq<RegisterRow>)
  {
    AllOdd(RowAddresses(rows)) && Spaced(RowAddresses(rows))
  }

  /** Two laid-out row lists, the second starting at least two above the first's end, join into one. */
  lemma LayoutConcat(r: seq<RegisterRow>, s: seq<RegisterRow>)
    requires RowsLaidOut(r) && RowsLaidOut(s)
    requires r != [] && s != [] && r[|r| - 1].address + 2 <= s[0].address
    ensures RowsLaidOut(r + s)
  {
    assert RowAddresses(r + s) == RowAddresses(r) + RowAddresses(s);
    SpacedConcat(RowAddresses(r), RowAddresses(s));
  }

  /** The table holds 85 rows; every address is odd and lies at least two above the one before. */
  lemma InputTableLayout()
    ensures |InputTable()| == 85
    ensures AllOdd(RowAddresses(InputTable()))
    ensures Spaced(RowAddresses(InputTable()))
  {
    PhaseVoltageCurrentPowerRowsLayout();
    PhaseVaVarPowerFactorRowsLayout();
    AngleAverageAndSystemRowsLayout();
    EnergyAndDemandRowsLayout();
    LineVoltageNeutralAndDistortionRowsLayout();
    AverageDistortionAndCurrentDemandRowsLayout();
    LineDistortionAndPhaseEnergyRowsLayout();
    PhaseTotalEnergyRowsLayout();
    var rows := PhaseVoltageCurrentPowerRows();
    LayoutConcat(rows, PhaseVaVarPowerFactorRows());
    rows := rows + PhaseVaVarPowerFactorRows();
    LayoutConcat(rows, AngleAverageAndSystemRows());
    rows := rows + AngleAverageAndSystemRows();
    LayoutConcat(rows, EnergyAndDemandRows());
    rows := rows + EnergyAndDemandRows();
    LayoutConcat(rows, LineVoltageNeutralAndDistortionRows());
    rows := rows + LineVoltageNeutralAndDistortionRows();
    LayoutConcat(rows, AverageDistortionAndCurrentDemandRows());
    rows := rows + AverageDistortionAndCurrentDemandRows();
    LayoutConcat(rows, LineDistortionAndPhaseEnergyRows());
    rows := rows + LineDistortionAndPhaseEnergyRows();
    LayoutConcat(rows, PhaseTotalEnergyRows());
    rows := rows + PhaseTotalEnergyRows();
    assert rows == InputTable();
  }

  // The layout of each chunk, checked row by row, with its first and last address.

  lemma PhaseVoltageCurrentPowerRowsLayout()
    ensures RowsLaidOut(PhaseVoltageCurrentPowerRows())
    ensures |PhaseVoltageCurrentPowerRows()| == 9 && PhaseVoltageCurrentPowerRows()[0].address == 1 && PhaseVoltageCurrentPowerRows()[8].address == 17
  {
    var rows := PhaseVoltageCurrentPowerRows();
    assert forall i :: 0 <= i < |rows| ==> rows[i].address % 2 == 1;
    assert forall i :: 0 < i < |rows| ==> rows[i - 1].address + 2 <= rows[i].address;
  }

  lemma PhaseVaVarPowerFactorRowsLayout()
    ensures RowsLaidOut(PhaseVaVarPowerFactorRows())
    ensures |PhaseVaVarPowerFactorRows()| == 9 && PhaseVaVarPowerFactorRows()[0].address == 19 && PhaseVaVarPowerFactorRows()[8].address == 35
  {
    var rows := PhaseVaVarPowerFactorRows();
    assert forall i :: 0 <= i < |rows| ==> rows[i].address % 2 == 1;
    assert forall i :: 0 < i < |rows| ==> rows[i - 1].address + 2 <= rows[i].address;
  }

  lemma AngleAverageAndSystemRowsLayout()
    ensures RowsLaidOut(AngleAverageAndSystemRows())
    ensures |AngleAverageAndSystemRows()| == 12 && AngleAverageAndSystemRows()[0].address == 37 && AngleAverageAndSystemRows()[11].address == 71
  {
    var rows := AngleAverageAndSystemRows();
    assert forall i :: 0 <= i < |rows| ==> rows[i].address % 2 == 1;
    assert forall i :: 0 < i < |rows| ==> rows[i - 1].address + 2 <= rows[i].address;
  }

  lemma EnergyAndDemandRowsLayout()
    ensures RowsLaidOut(EnergyAndDemandRows())
    ensures |EnergyAndDemandRows()| == 12 && EnergyAndDemandRows()[0].address == 73 && EnergyAndDemandRows()[11].address == 107
  {
    var rows := EnergyAndDemandRows();
    assert forall i :: 0 <= i < |rows| ==> rows[i].address % 2 == 1;
    assert forall i :: 0 < i < |rows| ==> rows[i - 1].address + 2 <= rows[i].address;
  }

  lemma LineVoltageNeutralAndDistortionRowsLayout()
    ensures RowsLaidOut(LineVoltageNeutralAndDistortionRows())
    ensures |LineVoltageNeutralAndDistortionRows()| == 11 && LineVoltageNeutralAndDistortionRows()[0].address == 201 && LineVoltageNeutralAndDistortionRows()[10].address == 245
  {
    var rows := LineVoltageNeutralAndDistortionRows();
    assert forall i :: 0 <= i < |rows| ==> rows[i].address % 2 == 1;
    assert forall i :: 0 < i < |rows| ==> rows[i - 1].address + 2 <= rows[i].address;
  }

  lemma AverageDistortionAndCurrentDemandRowsLayout()
    ensures RowsLaidOut(AverageDistortionAndCurrentDemandRows())
    ensures |AverageDistortionAndCurrentDemandRows()| == 8 && AverageDistortionAndCurrentDemandRows()[0].address == 249 && AverageDistortionAndCurrentDemandRows()[7].address == 269
  {
    var rows := AverageDistortionAndCurrentDemandRows();
    assert forall i :: 0 <= i < |rows| ==> rows[i].address % 2 == 1;
    assert forall i :: 0 < i < |rows| ==> rows[i - 1].address + 2 <= rows[i].address;
  }

  lemma LineDistortionAndPhaseEnergyRowsLayout()
    ensures RowsLaidOut(LineDistortionAndPhaseEnergyRows())
    ensures |LineDistortionAndPhaseEnergyRows()| == 12 && LineDistortionAndPhaseEnergyRows()[0].address == 335 && LineDistortionAndPhaseEnergyRows()[11].address == 357
  {
    var rows := LineDistortionAndPhaseEnergyRows();
    assert forall i :: 0 <= i < |rows| ==> rows[i].address % 2 == 1;
    assert forall i :: 0 < i < |rows| ==> rows[i - 1].address + 2 <= rows[i].address;
  }

  lemma PhaseTotalEnergyRowsLayout()
    ensures RowsLaidOut(PhaseTotalEnergyRows())
    ensures |PhaseTotalEnergyRows()| == 12 && PhaseTotalEnergyRows()[0].address == 359 && PhaseTotalEnergyRows()[11].address == 381
  {
    var rows := PhaseTotalEnergyRows();
    assert forall i :: 0 <= i < |rows| ==> rows[i].address % 2 == 1;
    assert forall i :: 0 < i < |rows| ==> rows[i - 1].address + 2 <= rows[i].address;
  }

  /**
   * Parameter numbers do not identify registers: two rows with different
   * addresses both carry parameter number 53.
   */
  lemma ParameterNumbersRepeat()
    ensures exists i, j ::
      && 0 <= i < j < |InputTable()|
      && InputTable()[i].address != InputTable()[j].address
      && InputTable()[i].parameterNumber == InputTable()[j].parameterNumber == 53
  {
    var rows := EnergyAndDemandRows();
    assert rows[9].parameterNumber == 53 == rows[10].parameterNumber;
    assert InputTable()[39] == rows[9] && InputTable()[40] == rows[10];
  }

  /** A register list built row by row from the table has the table's layout. */
  lemma BuiltFromTable(regs: seq<SDM630Register>)
    requires |regs| == |InputTable()|
    requires forall i :: 0 <= i < |regs| ==> RowOf(regs[i]) == InputTable()[i]
    ensures AllOdd(AddressesOf(regs)) && Spaced(AddressesOf(regs))
  {
    InputTableLayout();
    AddressesOfRows(regs);
    assert RowsOf(regs) == InputTable();
  }

  /** The input register list, built from the table at construction. */
  class SDM630InputRegisters {
    var registers: seq<SDM630Register>

    /** The table's layout: every address odd, each at least two above the previous. */
    ghost predicate Valid()
      reads this
    {
      AllOdd(AddressesOf(registers)) && Spaced(AddressesOf(registers))
    }

    /**
     * `_init_registers`: one fresh register per table row, in table order,
     * each holding its example value.
     */
    constructor ()
      ensures Valid()
      ensures |registers| == |InputTable()|
      ensures forall i :: 0 <= i < |registers| ==> RowOf(registers[i]) == InputTable()[i]
      ensures forall i :: 0 <= i < |registers| ==> registers[i].value == registers[i].exampleValue
      ensures forall r :: r in registers ==> fresh(r)
    {
      var regs := NewRegisters(InputTable());
      registers := regs;
      BuiltFromTable(regs);
    }

    /** `get_by_address`: the first register at `address`, or None; changes nothing. */
    method GetByAddress(address: int) returns (found: Option<SDM630Register>)
      ensures found.None? <==> forall i :: 0 <= i < |registers| ==> registers[i].address != address
      ensures found.Some? ==> FirstIndex(registers, address).Some? &&
                              found.value == registers[FirstIndex(registers, address).value]
    {
      found := FindFirst(registers, address);
    }

    /**
     * `update_by_constant`: sets the value of the register at address
     * `constant` and reports whether there was one. No other register, and
     * neither the length nor the order of the list, changes.
     */
    method UpdateByConstant(constant: int, value: real) returns (updated: bool)
      requires Valid()
      modifies set r | r in registers
      ensures registers == old(registers)
      ensures updated <==> exists i :: 0 <= i < |registers| && registers[i].address == constant
      ensures forall i :: 0 <= i < |registers| ==>
        registers[i].value == if registers[i].address == constant then value else old(registers[i].value)
    {
      var reg := GetByAddress(constant);
      if reg.Some? {
        OnlyMatch(registers, FirstIndex(registers, constant).value);
        reg.value.SetValue(value);
        return true;
      }
      return false;
    }
  }
}
