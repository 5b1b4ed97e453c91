/**
 * What the two register tables (sdm630_input_registers.py and
 * sdm630_holding_registers.py) have in common: a list of registers searched
 * front to back for the first one with a given address, the rows the lists
 * are built from, and the address layout that keeps the word pairs of
 * different registers apart.
 */
module RegisterList {
  import opened Wrappers
  import opened Registers

  /** The arguments of one `SDM630Register(...)` call in a register table. */
  datatype RegisterRow = RegisterRow(
    address: int,
    parameterNumber: int,
    description: string,
    units: string,
    exampleValue: real)

  /** The row a register was constructed from (its constant attributes). */
  function RowOf(r: SDM630Register): RegisterRow
  {
    RegisterRow(r.address, r.parameterNumber, r.description, r.units, r.exampleValue)
  }

  /** The rows a list of registers was constructed from, in list order. */
  function RowsOf(regs: seq<SDM630Register>): (rows: seq<RegisterRow>)
    ensures |rows| == |regs|
    ensures forall i :: 0 <= i < |regs| ==> rows[i] == RowOf(regs[i])
  {
    seq(|regs|, i requires 0 <= i < |regs| => RowOf(regs[i]))
  }

  /** The addresses of a list of registers, in list order. */
  function AddressesOf(regs: seq<SDM630Register>): (addrs: seq<int>)
    ensures |addrs| == |regs|
    ensures forall i :: 0 <= i < |regs| ==> addrs[i] == regs[i].address
  {
    seq(|regs|, i requires 0 <= i < |regs| => regs[i].address)
  }

  /** The addresses of a list of rows, in list order. */
  function RowAddresses(rows: seq<RegisterRow>): (addrs: seq<int>)
    ensures |addrs| == |rows|
    ensures forall i :: 0 <= i < |rows| ==> addrs[i] == rows[i].address
  {
    seq(|rows|, i requires 0 <= i < |rows| => rows[i].address)
  }

  /** The addresses of registers are the addresses of the rows they were constructed from. */
  lemma AddressesOfRows(regs: seq<SDM630Register>)
    ensures AddressesOf(regs) == RowAddresses(RowsOf(regs))
  {
    assert forall i :: 0 <= i < |regs| ==> RowsOf(regs)[i].address == regs[i].address;
  }

  /**
   * The appends of `_init_registers`: one fresh register per row, in row
   * order, each holding its row's example value.
   */
  method NewRegisters(rows: seq<RegisterRow>) returns (regs: seq<SDM630Register>)
    ensures |regs| == |rows|
    ensures forall i :: 0 <= i < |rows| ==> RowOf(regs[i]) == rows[i] && regs[i].value == rows[i].exampleValue
    ensures forall r :: r in regs ==> fresh(r)
  {
    regs := [];
    for k := 0 to |rows|
      invariant |regs| == k
      invariant forall i :: 0 <= i < k ==> RowOf(regs[i]) == rows[i] && regs[i].value == rows[i].exampleValue
      invariant forall r :: r in regs ==> fresh(r)
    {
      var row := rows[k];
      var r := new SDM630Register(row.address, row.parameterNumber, row.description, row.units, row.exampleValue);
      regs := regs + [r];
    }
  }

  // ---------------------------------------------------------------------------
  // Address layout

  /**
   * Each address lies at least two above the previous one, so the word pairs
   * [a, a + 1] of the list never overlap.
   */
  ghost predicate Spaced(addrs: seq<int>)
  {
    forall i :: 0 < i < |addrs| ==> addrs[i - 1] + 2 <= addrs[i]
  }

  /** Every address is odd. */
  ghost predicate AllOdd(addrs: seq<int>)
  {
    forall i :: 0 <= i < |addrs| ==> addrs[i] % 2 == 1
  }

  /** Any two addresses of a spaced list are at least two words apart per step between them. */
  lemma {:induction false} SpacedApart(addrs: seq<int>, i: nat, j: nat)
    requires Spaced(addrs) && i < j < |addrs|
    ensures addrs[i] + 2 * (j - i) <= addrs[j]
    decreases j - i
  {
    if i + 1 < j {
      SpacedApart(addrs, i, j - 1);
    }
  }

  /** Two spaced lists joined, the second starting at least two above the first's end, stay spaced. */
  lemma SpacedConcat(s: seq<int>, t: seq<int>)
    requires Spaced(s) && Spaced(t)
    requires s != [] && t != [] ==> s[|s| - 1] + 2 <= t[0]
    ensures Spaced(s + t)
  {
    forall i | 0 < i < |s + t|
      ensures (s + t)[i - 1] + 2 <= (s + t)[i]
    {
      if i == |s| {
        assert (s + t)[i - 1] == s[|s| - 1] && (s + t)[i] == t[0];
      } else if i > |s| {
        assert (s + t)[i - 1] == t[i - 1 - |s|] && (s + t)[i] == t[i - |s|];
      }
    }
  }

  // ---------------------------------------------------------------------------
  // Lookup by address

  /** Index of the first register in `regs` whose address is `address`, None when there is none. */
  function FirstIndex(regs: seq<SDM630Register>, address: int): (r: Option<nat>)
    ensures r.Some? ==> r.value < |regs| && regs[r.value].address == address
    ensures r.Some? ==> forall j :: 0 <= j < r.value ==> regs[j].address != address
    ensures r.None? <==> forall j :: 0 <= j < |regs| ==> regs[j].address != address
  {
    if |regs| == 0 then None
    else if regs[0].address == address then Some(0)
    else match FirstIndex(regs[1..], address)
      case None => None
      case Some(k) => Some(k + 1)
  }

  /**
   * The search loop of `get_by_address`: the first register whose address
   * matches, or None when no register has that address. Reads only.
   */
  method FindFirst(regs: seq<SDM630Register>, address: int) returns (found: Option<SDM630Register>)
    ensures found.None? <==> FirstIndex(regs, address).None?
    ensures found.Some? ==> found.value == regs[FirstIndex(regs, address).value]
  {
    var i := 0;
    while i < |regs|
      invariant 0 <= i <= |regs|
      invariant forall j :: 0 <= j < i ==> regs[j].address != address
    {
      if regs[i].address == address {
        return Some(regs[i]);
      }
      i := i + 1;
    }
    return None;
  }

  /** In a list with spaced addresses the first register with an address is the only one. */
  lemma OnlyMatch(regs: seq<SDM630Register>, i: nat)
    requires Spaced(AddressesOf(regs)) && i < |regs|
    ensures FirstIndex(regs, regs[i].address) == Some(i)
    ensures forall j :: 0 <= j < |regs| && j != i ==> regs[j].address != regs[i].address
  {
    var addrs := AddressesOf(regs);
    forall j | 0 <= j < |regs| && j != i
      ensures regs[j].address != regs[i].address
    {
      if j < i { SpacedApart(addrs, j, i); } else { SpacedApart(addrs, i, j); }
    }
  }

  // ---------------------------------------------------------------------------
  // The snapshot handed to the Modbus server

  /** No two registers of the list share an address. */
  ghost predicate UniqueAddresses(regs: seq<SDM630Register>)
  {
    forall i, j :: 0 <= i < j < |regs| ==> regs[i].address != regs[j].address
  }

  /** Spaced addresses are pairwise distinct. */
  lemma SpacedUnique(regs: seq<SDM630Register>)
    requires Spaced(AddressesOf(regs))
    ensures UniqueAddresses(regs)
  {
    forall i, j | 0 <= i < j < |regs|
      ensures regs[i].address != regs[j].address
    {
      SpacedApart(AddressesOf(regs), i, j);
    }
  }

  /**
   * ASSUMPTION. `as_dict()` belongs to the base class `SDM630Registers`,
   * whose definition is not part of this model. It is taken to return a
   * snapshot dictionary from each register's address to its current value.
   */
  function AsDict(regs: seq<SDM630Register>): (m: map<int, real>)
    requires UniqueAddresses(regs)
    reads set r | r in regs
    ensures forall i :: 0 <= i < |regs| ==> regs[i].address in m && m[regs[i].address] == regs[i].value
    ensures forall a :: a in m ==> exists i :: 0 <= i < |regs| && regs[i].address == a
  {
    map r | r in regs :: r.address := r.value
  }
}
