# SDM630 register simulator: register tables and word projection

This project models the data side of a simulator for the Eastron SDM630
three-phase power meter. The simulator serves the meter's registers over
Modbus. Every measurement is a 32-bit IEEE 754 binary32 float, and it
occupies two consecutive 16-bit register words: the high word at the
register's address `a` and the low word at `a + 1`.

The model covers five source files:

- `registers.py`: one register object. Its `value` is mutable; its address,
  parameter number, description, units and example value are fixed.
  Modelled as the class `Registers.SDM630Register`.
- `sdm630_input_registers.py`: the input register table.
  - 42 named address constants and 85 rows, kept in source order.
  - A first-match lookup by address.
  - `update_by_constant`, which reports whether a register was found.
  - Proved about the rows: every address is odd, each lies at least two
    above the previous one, so the word pairs never overlap.
  - Parameter number 53 appears twice.
- `sdm630_holding_registers.py`: the two-row holding table (addresses 2
  and 10) and its lookup.
- `input_register_service.py`: a service that keeps the very table object it
  was given and delegates `update` to it.
- `modbus_server.py`:
  - the default holding map;
  - `float_to_regs`, which splits a packed float into two big-endian words;
  - the float map manager (`set_float`, `get_float`, `get_all`);
  - the data block. It rebuilds the word map from the float map
    (`_float_map_to_regs`, `_update_regs`). Its `setValues` writes float
    `i` to address `address + 2 * i` and then rebuilds the word map;
  - the module-level wiring of one data block per table.

Modules, one per file:

| Module | File |
|---|---|
| `Wrappers` | `wrappers.dfy` |
| `Registers` | `registers.dfy` |
| `RegisterList` | `register_list.dfy` |
| `InputRegisterTable` | `sdm630_input_registers.dfy` |
| `HoldingRegisterTable` | `sdm630_holding_registers.dfy` |
| `RegisterService` | `input_register_service.dfy` |
| `FloatWords` | `float_words.dfy` |
| `ModbusServer` | `modbus_server.dfy` |

`RegisterList` holds what both tables share:

- the row record;
- the row-by-row construction loop;
- the first-match search, as a loop method `FindFirst` specified by the
  recursive function `FirstIndex`;
- the address layout lemmas.

Most of the source changes state in place, so the model is imperative:

- registers, tables, the service, the float manager and the data block are
  classes;
- their methods carry `modifies` clauses;
- construction, lookup, `ZeroMap`, `_float_map_to_regs` and `setValues` are
  loop methods with invariants.

Each loop method is proved against a specification:

- `FirstIndex` specifies the search;
- `IsWordProjection` specifies the word map;
- `Targets` specifies the writes of `setValues`.

Lemmas then connect those specifications to the properties the source
relies on.

What the code does at its edges, which the model keeps:

- An unknown address is not an error:
  - `get_by_address` returns `None`;
  - `update_by_constant` returns `False`;
  - `get_float` reads `0.0`;
  - `set_float` adds the key.
- The code has no change hook, so the model has none.
- Nothing decodes register words back into floats. `setValues` takes floats
  and stores each one as the float at `address + 2 * i`.
- Twelve input rows pass a sixth argument, `True`
  (`sdm630_input_registers.py` lines 75-77, 81-86, 93 and 95-96). The
  register constructor at `registers.py:6` takes only five arguments. As
  written, the first of these calls (`sdm630_input_registers.py:75`) raises
  `TypeError`, so `SDM630InputRegisters()` never completes. The model
  deliberately corrects this: it drops the sixth argument and constructs
  the full table. A comment marks each such row.

## Model

| member | source | states |
|---|---|---|
| Registers.SDM630Register.constructor | registers.py:6-12 | every attribute is the argument given, and the current value starts at the example value, which is 0.0 when omitted |
| Registers.SDM630Register.SetValue | registers.py:14-15 | the value becomes the argument; address, parameter number, description, units and example value are constants it cannot change |
| Registers.SDM630Register.GetValue | registers.py:17-18 | returns the current value and changes nothing |
| RegisterList.NewRegisters | sdm630_input_registers.py:66-153 | the appends of `_init_registers`: one fresh register per row, in row order, each built from its row and holding its example value |
| RegisterList.FirstIndex | sdm630_input_registers.py:157-161 | the index of the first register with the address: it matches, no earlier register matches, and None exactly when no register matches |
| RegisterList.FindFirst | sdm630_input_registers.py:157-161 | the search loop returns None exactly when no register has the address, and otherwise the register at the first matching index |
| RegisterList.SpacedApart | sdm630_input_registers.py:15-56 | in an address list where each address is at least two above the previous one, addresses `j - i` positions apart differ by at least `2 * (j - i)` |
| RegisterList.SpacedConcat | sdm630_input_registers.py:69-153 | two spaced address lists stay spaced when joined, if the second starts at least two above the end of the first |
| RegisterList.OnlyMatch | sdm630_input_registers.py:163-166 | in a spaced list the first register with a register's address is that register, and no other register shares its address |
| RegisterList.SpacedUnique | sdm630_input_registers.py:15-56 | spaced addresses are pairwise distinct |
| RegisterList.AsDict | modbus_server.py:75 | ASSUMPTION for the undefined `as_dict`: each register's address maps to its current value, and every key is some register's address |
| InputRegisterTable.InputTableLayout | sdm630_input_registers.py:69-153 | the table has 85 rows; every address is odd and at least two above the one before |
| InputRegisterTable.LayoutConcat | sdm630_input_registers.py:69-153 | joining two laid-out row lists keeps the layout when the second starts at least two above the end of the first |
| InputRegisterTable.PhaseVoltageCurrentPowerRowsLayout | sdm630_input_registers.py:69-77 | 9 rows, odd and spaced addresses, from 1 to 17 |
| InputRegisterTable.PhaseVaVarPowerFactorRowsLayout | sdm630_input_registers.py:78-86 | 9 rows, odd and spaced addresses, from 19 to 35 |
| InputRegisterTable.AngleAverageAndSystemRowsLayout | sdm630_input_registers.py:87-98 | 12 rows, odd and spaced addresses, from 37 to 71 |
| InputRegisterTable.EnergyAndDemandRowsLayout | sdm630_input_registers.py:99-110 | 12 rows, odd and spaced addresses, from 73 to 107 |
| InputRegisterTable.LineVoltageNeutralAndDistortionRowsLayout | sdm630_input_registers.py:111-121 | 11 rows, odd and spaced addresses, from 201 to 245 |
| InputRegisterTable.AverageDistortionAndCurrentDemandRowsLayout | sdm630_input_registers.py:122-129 | 8 rows, odd and spaced addresses, from 249 to 269 |
| InputRegisterTable.LineDistortionAndPhaseEnergyRowsLayout | sdm630_input_registers.py:130-141 | 12 rows, odd and spaced addresses, from 335 to 357 |
| InputRegisterTable.PhaseTotalEnergyRowsLayout | sdm630_input_registers.py:142-153 | 12 rows, odd and spaced addresses, from 359 to 381 |
| InputRegisterTable.ParameterNumbersRepeat | sdm630_input_registers.py:108-109 | two rows at different addresses both carry parameter number 53, so parameter numbers do not identify registers |
| InputRegisterTable.BuiltFromTable | sdm630_input_registers.py:66-153 | registers built row by row from the table have odd, spaced addresses |
| InputRegisterTable.SDM630InputRegisters.constructor | sdm630_input_registers.py:62-64 | the list holds one fresh register per table row, in source order, each at its example value, and the layout invariant holds |
| InputRegisterTable.SDM630InputRegisters.GetByAddress | sdm630_input_registers.py:157-161 | None exactly when no register has the address, otherwise the first register that has it; changes nothing |
| InputRegisterTable.SDM630InputRegisters.UpdateByConstant | sdm630_input_registers.py:163-168 | returns true exactly when a register has the address; that register's value becomes the new value, every other register keeps its value, and the list itself (length and order) is unchanged |
| HoldingRegisterTable.SDM630HoldingRegisters.constructor | sdm630_holding_registers.py:18-25 | exactly two registers, at addresses 2 then 10, with parameter numbers 2 and 6 and values 60.0 and 1.0 |
| HoldingRegisterTable.SDM630HoldingRegisters.GetByAddress | sdm630_holding_registers.py:29-33 | the first register at the address; None exactly for addresses other than 2 and 10; changes nothing |
| RegisterService.InputRegisterService.constructor | input_register_service.py:12-13 | keeps a reference to the very table object it was given |
| RegisterService.InputRegisterService.Update | input_register_service.py:15-17 | same contract as `update_by_constant` on the shared table: true exactly when a register has the address, only that register changes |
| FloatWords.FromBytesBig | modbus_server.py:33 | `int.from_bytes(..., 'big')`: the number fits in as many bytes as were read, and its lowest byte is the last byte read |
| FloatWords.TwoBytes | modbus_server.py:33 | two bytes read big-endian are `b0 * 256 + b1`, a 16-bit word |
| FloatWords.FourBytes | modbus_server.py:33 | four bytes read big-endian are the base-256 number with the first byte most significant, below 2^32 |
| FloatWords.PackBig | modbus_server.py:32 | the packed form of a 32-bit pattern is four bytes that read back big-endian as the pattern |
| FloatWords.PackFromBytes | modbus_server.py:32-33 | the other direction: packing the number four bytes stand for gives those bytes back |
| FloatWords.FloatToRegs | modbus_server.py:30-33 | exactly two words, high word first, with `hi * 65536 + lo` equal to the value's binary32 pattern |
| FloatWords.FloatToRegsInjective | modbus_server.py:30-33 | two values get the same word pair exactly when their bit patterns agree |
| FloatWords.FloatToRegsWords | modbus_server.py:30-33 | the pair is the pattern's quotient and remainder by 65536 |
| ModbusServer.DefaultHoldingAddressesAt | modbus_server.py:27 | the literal list has 40 entries: 2, then `8 + 2 * i` at position `i` |
| ModbusServer.DefaultHoldingAddressesForm | modbus_server.py:27 | an address is in the list exactly when it is 2 or an even number from 10 through 86 |
| ModbusServer.ZeroMap | modbus_server.py:27-28 | the loop's map has exactly the listed addresses as keys, each mapped to 0.0 |
| ModbusServer.DefaultHoldingRegisters | modbus_server.py:23-28 | keys are exactly 2 and the even addresses 10 through 86, all even, every value 0.0 |
| ModbusServer.FloatAt | modbus_server.py:45 | `reg_map.get(addr, 0.0)`: a stored value reads as itself, and a nonzero reading means the address is a key |
| ModbusServer.FloatAtStore | modbus_server.py:40-45 | a stored value reads back, a store leaves every other reading alone, and a missing key reads 0.0 |
| ModbusServer.SDM630RegisterManager.constructor | modbus_server.py:37-38 | the manager holds the given map |
| ModbusServer.SDM630RegisterManager.SetFloat | modbus_server.py:40-42 | the map is updated at the address, adding it when new; the address then reads the value and every other address reads as before |
| ModbusServer.SDM630RegisterManager.GetFloat | modbus_server.py:44-45 | the reading `FloatAt` gives: the stored value, or 0.0 when the address is not a key; changes nothing |
| ModbusServer.SDM630RegisterManager.GetAll | modbus_server.py:47-48 | the whole map; changes nothing |
| ModbusServer.ExactProjection | modbus_server.py:56-61 | reference word map: both words of every float present, every word from a float, the high word at each key and the low word one above where no key sits |
| ModbusServer.ExactIsProjection | modbus_server.py:56-61 | the reference word map satisfies the projection invariant, adjacent keys or not |
| ModbusServer.ProjectionDeterminate | modbus_server.py:58-60 | with no adjacent keys, any two projections of one float map are equal, so the dictionary iteration order cannot matter |
| ModbusServer.SameWordAt | modbus_server.py:58-60 | with no adjacent keys, a word of one projection is present with the same value in any other |
| ModbusServer.ProjectionIsExact | modbus_server.py:56-61 | with no adjacent keys, every projection is the reference word map |
| ModbusServer.ProjectionUnique | modbus_server.py:56-61 | with no adjacent keys, a word map is a projection exactly when it is the reference word map |
| ModbusServer.ProjectionWordsAt | modbus_server.py:58-60 | with no adjacent keys, each float's high word sits at its key and its low word at the key plus one |
| ModbusServer.ProjectionExtend | modbus_server.py:59-60 | writing one more float's two words keeps the word map a projection of the floats written so far |
| ModbusServer.FloatMapToRegs | modbus_server.py:56-61 | the loop over the float map, in any visiting order, builds a projection of the whole map |
| ModbusServer.Targets | modbus_server.py:65-66 | the writes of `setValues`: value `i` at `address + 2 * i`, every value kept, and exactly those addresses written |
| ModbusServer.OverlayWrite | modbus_server.py:66 | one more write onto the overlaid map is a write into the overlay |
| ModbusServer.WritesKept | modbus_server.py:63-66 | after the writes every written value reads back at its address, and every other address keeps its key status and its reading |
| ModbusServer.SDM630DataBlock.constructor | modbus_server.py:51-54 | keeps the manager and builds a word map that is a projection of the manager's floats |
| ModbusServer.SDM630DataBlock.UpdateRegs | modbus_server.py:69-71 | the word map is rebuilt from the whole current float map |
| ModbusServer.SDM630DataBlock.SetValues | modbus_server.py:63-67 | the float map becomes the old map overlaid with the writes; each value reads back at its address; other addresses are unchanged; the word map is rebuilt as a projection of the new floats |
| ModbusServer.ServerDataBlocks | modbus_server.py:74-84 | two fresh blocks over two distinct fresh managers, both using the given encoding and both consistent; the input block's keys are exactly the table's addresses, each holding its row's example value, and every row's words appear at its address; the holding block holds 60.0 at 2 and 1.0 at 10, with words at 2, 3, 10 and 11 |
| ModbusServer.InputDataBlock | modbus_server.py:74-75 | a fresh block and manager with the given encoding; the float keys are exactly the table's addresses, each holding its row's example value, and each row's example value appears as its two words |
| ModbusServer.HoldingDataBlock | modbus_server.py:76-77 | a fresh block and manager with the given encoding; the floats are 60.0 at 2 and 1.0 at 10, and the words are exactly their four words |
| ModbusServer.SnapshotOfRows | modbus_server.py:75 | the snapshot of freshly built registers has the row addresses as keys, all odd, each mapped to its row's example value |
| ModbusServer.RowWords | modbus_server.py:84 | rows whose values the float map holds get their two words in any projection of it |
| ModbusServer.HoldingSnapshot | modbus_server.py:77 | the holding snapshot is the map {2: 60.0, 10: 1.0} |
| ModbusServer.HoldingWords | modbus_server.py:83 | any projection of the holding snapshot is exactly the four words of 60.0 and 1.0 at 2, 3, 10 and 11 |

## Left out

- Floating point: values are `real`. Python floats are doubles, and the binary32 rounding inside `struct.pack('>f', ...)` is floating-point numerics. It is a caller-supplied total function `encode` (IEEE 754-2008, section 3.4). `struct.pack` raises `OverflowError` for values outside the binary32 range; that error is not modelled.
- `SDM630Registers` and `as_dict`: `registers.py` defines neither. Yet `sdm630_input_registers.py:9` and `sdm630_holding_registers.py:9` import `SDM630Registers`, which as written is an `ImportError`. `modbus_server.py:75` and `modbus_server.py:77` call `as_dict`. `AsDict` is an assumed snapshot, built when the manager is created. Whether the server's float map aliases the register objects, so that later `update_by_constant` calls would reach it, is not modelled.
- `AsDict`: requires distinct addresses, because a snapshot of duplicate addresses is not determined. Both tables are proved to meet this requirement.
- Dictionary iteration order: `FloatMapToRegs` visits keys in an order left open. Where two float keys are adjacent, `IsWordProjection` allows either float's word at the shared address. The word map is pinned down only for maps with no adjacent keys. The default holding map and both table snapshots are such maps.
- Sharing of the manager's `reg_map` dictionary with its creator: the model keeps the map as a value field of the manager.
- `SetValues`: its contract says the word map is a projection of the new floats (`Consistent`). That the word map equals `ExactProjection` is a separate lemma, `ProjectionIsExact`, for maps without adjacent keys.
- `set_float` called directly does not refresh the words of a data block, and the model does not either. Only `setValues` and construction rebuild them.
- pymodbus: `ModbusSparseDataBlock` and `super().__init__`, the slave and server contexts, device identification, the TCP server and its RTU framer (modbus_server.py:5-8, 79-100) are library and I/O code. The data block's `values` is a plain field.
- `SDM630_HOLDING_REGISTERS` is built but never used by the server. It is modelled on its own.
- `sensor.py` and `__init__.py`: host-platform glue with no logic of its own.
- The `__package__` import switches in every file only choose an import path.
- Description and unit strings are kept as data; nothing is proved about them.
- The 85 appends of the input table are modelled as a loop over the row table, `NewRegisters`. Each row is the same five constructor arguments.
- The commented usage example in `input_register_service.py` is not code.
