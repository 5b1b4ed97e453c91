/**
 * The service that updates input registers by their address constant
 * (input_register_service.py).
 */
module RegisterService {
  import opened Registers
  import opened InputRegisterTable

  class InputRegisterService {
    /** The very table object the service was given; updates are visible through it. */
    const inputRegisters: SDM630InputRegisters

    constructor (inputRegisters: SDM630InputRegisters)
      ensures this.inputRegisters == inputRegisters
    {
      this.inputRegisters := inputRegisters;
    }

    /**
     * `update`: delegates to `update_by_constant` of the wrapped table, so it
     * reports whether a register sits at `registerConstant` and, if so, sets
     * that register's value; no other register changes.
     */
    method Update(registerConstant: int, value: real) returns (updated: bool)
      requires inputRegisters.Valid()
      modifies set r | r in inputRegisters.registers
      ensures inputRegisters.registers == old(inputRegisters.registers)
      ensures updated <==> exists i :: 0 <= i < |inputRegisters.registers| &&
                                      inputRegisters.registers[i].address == registerConstant
      ensures forall i :: 0 <= i < |inputRegisters.registers| ==>
        inputRegisters.registers[i].value ==
          if inputRegisters.registers[i].address == registerConstant then value
          else old(inputRegisters.registers[i].value)
    {
      updated := inputRegisters.UpdateByConstant(registerConstant, value);
    }
  }
}
