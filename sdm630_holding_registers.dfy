/**
 * The holding register table of the SDM630 (sdm630_holding_registers.py):
 * configuration values a Modbus client may write. Only two are listed.
 */
module HoldingRegisterTable {
  import opened Wrappers
  import opened Registers
  import opened RegisterList

  /** The holding register list, built at construction. */
  class SDM630HoldingRegisters {
    var registers: seq<SDM630Register>

    /** The list is Demand Period at address 2, then System Type at address 10; nothing changes it. */
    ghost predicate Valid()
      reads this
    {
      |registers| == 2 && registers[0].address == 2 && registers[1].address == 10
    }

    /**
     * `_init_registers`: Demand Period (parameter 2, 60.0 minutes) then
     * System Type (parameter 6, 1.0), each holding its example value.
     */
    constructor ()
      ensures Valid()
      ensures registers[0].parameterNumber == 2 && registers[0].exampleValue == 60.0
      ensures registers[1].parameterNumber == 6 && registers[1].exampleValue == 1.0
      ensures registers[0].value == 60.0 && registers[1].value == 1.0
      ensures fresh(registers[0]) && fresh(registers[1])
    {
      registers := [];
      new;
      var demandPeriod := new SDM630Register(2, 2, "Demand Period", "Minutes", 60.0);
      registers := registers + [demandPeriod];
      var systemType := new SDM630Register(10, 6, "System Type", "Type", 1.0);
      registers := registers + [systemType];
    }

    /**
     * `get_by_address`: the first register at `address`, which is None for
     * every address other than 2 and 10; changes nothing.
     */
    method GetByAddress(address: int) returns (found: Option<SDM630Register>)
      requires Valid()
      ensures found.None? <==> FirstIndex(registers, address).None?
      ensures found.Some? ==> found.value == registers[FirstIndex(registers, address).value]
      ensures found.None? <==> address != 2 && address != 10
      ensures found.Some? ==> found.value == registers[if address == 2 then 0 else 1]
    {
      found := FindFirst(registers, address);
    }
  }
}
