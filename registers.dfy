/**
 * The common register object of the SDM630 simulator (registers.py).
 */
module Registers {

  /**
   * One meter register: a 32-bit float measurement that occupies the two
   * 16-bit Modbus words `address` and `address + 1`.
   *
   * Only `value` is ever reassigned after construction (by SetValue), so every
   * other attribute is a constant field: SetValue cannot change it.
   */
  class SDM630Register {
    const address: int
    const parameterNumber: int
    const description: string
    const units: string
    var value: real
    const exampleValue: real

    /** A new register starts out holding its example value, 0.0 when none is given. */
    constructor (address: int, parameterNumber: int, description: string, units: string,
                 exampleValue: real := 0.0)
      ensures this.address == address && this.parameterNumber == parameterNumber
      ensures this.description == description && this.units == units
      ensures this.exampleValue == exampleValue && value == exampleValue
    {
      this.address := address;
      this.parameterNumber := parameterNumber;
      this.description := description;
      this.units := units;
      this.value := exampleValue;
      this.exampleValue := exampleValue;
    }

    /** Overwrites the current value; the constant attributes stay as they were. */
    method SetValue(value: real)
      modifies this
      ensures this.value == value
    {
      this.value := value;
    }

    /** Reads the current value without changing anything. */
    method GetValue() returns (v: real)
      ensures v == value
    {
      v := value;
    }
  }
}
