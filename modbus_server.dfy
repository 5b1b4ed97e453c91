/**
 * The data side of the Modbus server (modbus_server.py): the default holding
 * map, the float map behind each data block, and the projection of that
 * float map onto 16-bit register words, each float at address `a` occupying
 * the high word at `a` and the low word at `a + 1`.
 */
module ModbusServer {
  import opened Registers
  import opened RegisterList
  import opened InputRegisterTable
  import opened HoldingRegisterTable
  import opened FloatWords

  // ---------------------------------------------------------------------------
  // The default holding map

  /** The address list the default holding map is filled from, in source order. */
  const DEFAULT_HOLDING_ADDRESSES: seq<int> :=
    [2, 10, 12, 14, 16, 18, 20, 22, 24, 26, 28, 30, 32, 34, 36, 38, 40, 42, 44, 46,
     48, 50, 52, 54, 56, 58, 60, 62, 64, 66, 68, 70, 72, 74, 76, 78, 80, 82, 84, 86]

  /** Position `i` of the list holds address 2 for `i == 0` and `8 + 2 * i` after it. */
  lemma DefaultHoldingAddressesAt()
    ensures |DEFAULT_HOLDING_ADDRESSES| == 40
    ensures forall i :: 0 <= i < 40 ==> DEFAULT_HOLDING_ADDRESSES[i] == if i == 0 then 2 else 8 + 2 * i
  {
  }

  /** The list is address 2 followed by the even addresses 10 through 86. */
  lemma DefaultHoldingAddressesForm()
    ensures forall a :: a in DEFAULT_HOLDING_ADDRESSES <==> a == 2 || (10 <= a <= 86 && a % 2 == 0)
  {
    DefaultHoldingAddressesAt();
    forall a | a == 2 || (10 <= a <= 86 && a % 2 == 0)
      ensures a in DEFAULT_HOLDING_ADDRESSES
    {
      var i := if a == 2 then 0 else (a - 8) / 2;
      assert DEFAULT_HOLDING_ADDRESSES[i] == a;
    }
  }

  /** A map from every address of a list to 0.0. */
  method ZeroMap(addrs: seq<int>) returns (m: map<int, real>)
    ensures forall a :: a in m <==> a in addrs
    ensures forall a :: a in m ==> m[a] == 0.0
  {
    m := map[];
    for k := 0 to |addrs|
      invariant forall a :: a in m <==> a in addrs[..k]
      invariant forall a :: a in m ==> m[a] == 0.0
    {
      assert addrs[..k + 1] == addrs[..k] + [addrs[k]];
      m := m[addrs[k] := 0.0];
    }
    assert addrs[..|addrs|] == addrs;
  }

  /**
   * `SDM630_HOLDING_REGISTERS`: every listed address mapped to 0.0, so the
   * keys are 2 and the even addresses 10 through 86 and nothing else.
   */
  method DefaultHoldingRegisters() returns (m: map<int, real>)
    ensures forall a :: a in m <==> a == 2 || (10 <= a <= 86 && a % 2 == 0)
    ensures forall a :: a in m ==> a % 2 == 0 && m[a] == 0.0
  {
    m := ZeroMap(DEFAULT_HOLDING_ADDRESSES);
    DefaultHoldingAddressesForm();
  }

  // ---------------------------------------------------------------------------
  // The float map

  /** `reg_map.get(addr, 0.0)`: the stored value, 0.0 for an address that is not a key. */
  function FloatAt(m: map<int, real>, addr: int): (v: real)
    ensures addr in m ==> v == m[addr]
    ensures v != 0.0 ==> addr in m
  {
    if addr in m then m[addr] else 0.0
  }

  /** A stored value reads back, and storing at one address leaves every other reading alone. */
  lemma FloatAtStore(m: map<int, real>, addr: int, value: real, other: int)
    ensures FloatAt(m[addr := value], addr) == value
    ensures other != addr ==> FloatAt(m[addr := value], other) == FloatAt(m, other)
    ensures addr !in m ==> FloatAt(m, addr) == 0.0
  {
  }

  /** The address-to-float dictionary behind one data block. */
  class SDM630RegisterManager {
    var regMap: map<int, real>

    constructor (regMap: map<int, real>)
      ensures this.regMap == regMap
    {
      this.regMap := regMap;
    }

    /** `set_float`: stores `value` at `addr`, adding the key when it is new. */
    method SetFloat(addr: int, value: real)
      modifies this
      ensures regMap == old(regMap)[addr := value]
      ensures FloatAt(regMap, addr) == value
      ensures forall a :: a != addr ==> FloatAt(regMap, a) == FloatAt(old(regMap), a)
    {
      regMap := regMap[addr := value];
    }

    /** `get_float`: the value stored at `addr`, or 0.0 when there is none. */
    method GetFloat(addr: int) returns (value: real)
      ensures value == FloatAt(regMap, addr)
    {
      value := if addr in regMap then regMap[addr] else 0.0;
    }

    /** `get_all`: the whole map. */
    method GetAll() returns (m: map<int, real>)
      ensures m == regMap
    {
      m := regMap;
    }
  }

  // ---------------------------------------------------------------------------
  // Projection of a float map onto register words

  /**
   * Word `w` at address `a` comes from the float map: it is the high word of
   * the float at `a` or the low word of the float at `a - 1`.
   */
  ghost predicate WordFrom(encode: Binary32Encoding, floats: map<int, real>, a: int, w: Word)
  {
    (a in floats && w == HighWord(encode, floats[a])) ||
    (a - 1 in floats && w == LowWord(encode, floats[a - 1]))
  }

  /**
   * `words` is what `_float_map_to_regs` can build from `floats`: both words
   * of every float are present, and every word present comes from the float
   * map. When two keys are adjacent, the word between them belongs to
   * whichever float the dictionary iteration visits last; both are allowed.
   */
  ghost predicate IsWordProjection(encode: Binary32Encoding, floats: map<int, real>, words: map<int, Word>)
  {
    (forall k {:trigger k in floats} :: k in floats ==> k in words && k + 1 in words) &&
    (forall a {:trigger words[a]} :: a in words ==> WordFrom(encode, floats, a, words[a]))
  }

  /** No key is directly followed by another, so the word pairs of the keys never overlap. */
  ghost predicate NoAdjacentKeys(floats: map<int, real>)
  {
    forall j, k :: j in floats && k in floats ==> k != j + 1
  }

  /**
   * The word map of a float map: the high word of each float at its own
   * address, its low word at the next one. Where two keys are adjacent the
   * high word of the upper key is kept.
   */
  function ExactProjection(encode: Binary32Encoding, floats: map<int, real>): (words: map<int, Word>)
    ensures forall k {:trigger k in floats} :: k in floats ==> k in words && k + 1 in words
    ensures forall a {:trigger words[a]} :: a in words ==> a in floats || a - 1 in floats
    ensures forall a {:trigger words[a]} :: a in floats ==> words[a] == HighWord(encode, floats[a])
    ensures forall a {:trigger words[a]} :: a !in floats && a - 1 in floats ==> words[a] == LowWord(encode, floats[a - 1])
  {
    var domain := floats.Keys + set k | k in floats :: k + 1;
    map a | a in domain ::
      if a in floats then HighWord(encode, floats[a]) else LowWord(encode, floats[a - 1])
  }

  /** The exact word map is a projection of its float map, adjacent keys or not. */
  lemma ExactIsProjection(encode: Binary32Encoding, floats: map<int, real>)
    ensures IsWordProjection(encode, floats, ExactProjection(encode, floats))
  {
    var exact := ExactProjection(encode, floats);
    forall a | a in exact
      ensures WordFrom(encode, floats, a, exact[a])
    {
    }
  }

  /**
   * With no adjacent keys the projection is determined: any two projections
   * of the same float map are the same word map, so the dictionary order
   * cannot matter.
   */
  lemma ProjectionDeterminate(encode: Binary32Encoding, floats: map<int, real>, w1: map<int, Word>, w2: map<int, Word>)
    requires NoAdjacentKeys(floats)
    requires IsWordProjection(encode, floats, w1) && IsWordProjection(encode, floats, w2)
    ensures w1 == w2
  {
    forall a | a in w1
      ensures a in w2 && w1[a] == w2[a]
    {
      SameWordAt(encode, floats, w1, w2, a);
    }
    forall a | a in w2
      ensures a in w1
    {
      SameWordAt(encode, floats, w2, w1, a);
    }
    MapsAgree(w1, w2);
  }

  /** A word of one projection is the same word in any other, when no keys are adjacent. */
  lemma SameWordAt(encode: Binary32Encoding, floats: map<int, real>, w1: map<int, Word>, w2: map<int, Word>, a: int)
    requires NoAdjacentKeys(floats)
    requires IsWordProjection(encode, floats, w1) && IsWordProjection(encode, floats, w2)
    requires a in w1
    ensures a in w2 && w2[a] == w1[a]
  {
    assert WordFrom(encode, floats, a, w1[a]);
    if a in floats {
      ProjectionWordsAt(encode, floats, w1, a);
      ProjectionWordsAt(encode, floats, w2, a);
    } else {
      var k := a - 1;
      assert k + 1 == a;
      ProjectionWordsAt(encode, floats, w1, k);
      ProjectionWordsAt(encode, floats, w2, k);
    }
  }

  /** Two word maps with the same keys and the same word at each key are equal. */
  lemma MapsAgree(m1: map<int, Word>, m2: map<int, Word>)
    requires forall a :: a in m1 ==> a in m2 && m1[a] == m2[a]
    requires forall a :: a in m2 ==> a in m1
    ensures m1 == m2
  {
    forall a | a in m1.Keys + m2.Keys ensures a in m1.Keys && a in m2.Keys { }
    assert m1.Keys == m2.Keys;
    forall a | a in m1.Keys ensures m1[a] == m2[a] { }
  }

  /**
   * With no adjacent keys the projection is the exact word map, whatever
   * order the keys were visited in.
   */
  lemma ProjectionIsExact(encode: Binary32Encoding, floats: map<int, real>, words: map<int, Word>)
    requires NoAdjacentKeys(floats)
    requires IsWordProjection(encode, floats, words)
    ensures words == ExactProjection(encode, floats)
  {
    ExactIsProjection(encode, floats);
    ProjectionDeterminate(encode, floats, words, ExactProjection(encode, floats));
  }

  /**
   * Both directions together: with no adjacent keys, a word map is a
   * projection of the float map exactly when it is the exact one.
   */
  lemma ProjectionUnique(encode: Binary32Encoding, floats: map<int, real>, words: map<int, Word>)
    requires NoAdjacentKeys(floats)
    ensures IsWordProjection(encode, floats, words) <==> words == ExactProjection(encode, floats)
  {
    if IsWordProjection(encode, floats, words) {
      ProjectionIsExact(encode, floats, words);
    }
    if words == ExactProjection(encode, floats) {
      ExactIsProjection(encode, floats);
    }
  }

  /** Writing one more float's two words keeps the word map a projection of the floats written so far. */
  lemma ProjectionExtend(encode: Binary32Encoding, done: map<int, real>, words: map<int, Word>, addr: int, v: real)
    requires IsWordProjection(encode, done, words)
    ensures IsWordProjection(encode, done[addr := v],
                             words[addr := HighWord(encode, v)][addr + 1 := LowWord(encode, v)])
  {
    var done', words' := done[addr := v], words[addr := HighWord(encode, v)][addr + 1 := LowWord(encode, v)];
    forall a | a in words'
      ensures WordFrom(encode, done', a, words'[a])
    {
      if a != addr && a != addr + 1 {
        assert WordFrom(encode, done, a, words[a]);
      }
    }
  }

  /** A set of addresses without members is empty. */
  lemma EmptyWithoutMembers(keys: set<int>)
    requires forall x :: x !in keys
    ensures keys == {}
  {
    var none: set<int> := {};
    assert forall x :: x in keys <==> x in none;
    assert keys == none;
  }

  /** A non-empty set of addresses has a member to visit next. */
  lemma HasMember(keys: set<int>)
    requires keys != {}
    ensures exists x :: x in keys
  {
    if forall x :: x !in keys {
      EmptyWithoutMembers(keys);
      assert false;
    }
  }

  /**
   * `_float_map_to_regs`: walks the float map one key at a time, in an order
   * this model leaves open, writing the high word at the key and the low word
   * at the key plus one.
   */
  method FloatMapToRegs(encode: Binary32Encoding, floats: map<int, real>) returns (words: map<int, Word>)
    ensures IsWordProjection(encode, floats, words)
  {
    words := map[];
    var pending := floats.Keys;
    ghost var done: map<int, real> := map[];
    while pending != {}
      invariant pending <= floats.Keys
      invariant forall k :: k in floats ==> (k in done <==> k !in pending)
      invariant forall k :: k in done ==> k in floats && done[k] == floats[k]
      invariant IsWordProjection(encode, done, words)
      decreases |pending|
    {
      HasMember(pending);
      var addr :| addr in pending;
      var w := FloatToRegs(encode, floats[addr]);
      FloatToRegsWords(encode, floats[addr]);
      ProjectionExtend(encode, done, words, addr, floats[addr]);
      words := words[addr := w[0]];
      words := words[addr + 1 := w[1]];
      done := done[addr := floats[addr]];
      pending := pending - {addr};
    }
    assert pending == {};
    forall k | k in floats
      ensures k in done
    {
      assert k !in pending;
    }
    assert forall k :: k in done <==> k in floats;
    assert done.Keys == floats.Keys;
    assert forall k :: k in done ==> done[k] == floats[k];
    assert done == floats;
  }

  // ---------------------------------------------------------------------------
  // Writes of `setValues`

  /** `k` is `address + 2 * i` for some index `i` below `n`. */
  predicate IsTarget(address: int, n: nat, k: int)
  {
    address <= k && (k - address) % 2 == 0 && (k - address) / 2 < n
  }

  /**
   * The writes of `setValues(address, vs)` made in index order into an empty
   * map: value `vs[i]` at address `address + 2 * i`. The addresses are
   * distinct, so every value is kept and none overwrites another, and no
   * other address is written.
   */
  function Targets(address: int, vs: seq<real>): (t: map<int, real>)
    ensures forall i :: 0 <= i < |vs| ==> address + 2 * i in t && t[address + 2 * i] == vs[i]
    ensures forall k :: k in t ==> IsTarget(address, |vs|, k)
    ensures forall k :: IsTarget(address, |vs|, k) ==> k in t
  {
    if vs == [] then map[]
    else
      var n := |vs| - 1;
      var t := Targets(address, vs[..n])[address + 2 * n := vs[n]];
      assert forall i :: 0 <= i < n ==> vs[..n][i] == vs[i];
      assert forall k :: IsTarget(address, |vs|, k) ==> k in t by {
        forall k | IsTarget(address, |vs|, k)
          ensures k in t
        {
          var i := (k - address) / 2;
          assert k == address + 2 * i;
          if i < n {
            assert vs[..n][i] == vs[i];
          }
        }
      }
      t
  }

  /** Writing into an overlay is writing into its upper map. */
  lemma OverlayWrite(m: map<int, real>, t: map<int, real>, k: int, v: real)
    ensures (m + t)[k := v] == m + t[k := v]
  {
    var lhs, rhs := (m + t)[k := v], m + t[k := v];
    assert lhs.Keys == rhs.Keys;
    assert forall a :: a in lhs ==> lhs[a] == rhs[a];
  }

  /**
   * After the writes of `setValues` every written value reads back at its
   * address, and every other address reads as before.
   */
  lemma WritesKept(m: map<int, real>, address: int, vals: seq<real>)
    ensures forall i :: 0 <= i < |vals| ==> FloatAt(m + Targets(address, vals), address + 2 * i) == vals[i]
    ensures forall k :: !IsTarget(address, |vals|, k) ==>
      (k in m + Targets(address, vals) <==> k in m) &&
      FloatAt(m + Targets(address, vals), k) == FloatAt(m, k)
  {
    var t := Targets(address, vals);
    forall i | 0 <= i < |vals|
      ensures FloatAt(m + t, address + 2 * i) == vals[i]
    {
      assert address + 2 * i in t;
    }
    forall k | !IsTarget(address, |vals|, k)
      ensures (k in m + t <==> k in m) && FloatAt(m + t, k) == FloatAt(m, k)
    {
      assert k !in t;
    }
  }

  // ---------------------------------------------------------------------------
  // The data block

  /**
   * One Modbus data block: a float manager and the word map rebuilt from it.
   * `encode` stands for the binary32 packing of `struct.pack`.
   */
  class SDM630DataBlock {
    const regManager: SDM630RegisterManager
    const encode: Binary32Encoding
    var values: map<int, Word>

    /** The word map is a projection of the manager's current float map. */
    ghost predicate Consistent()
      reads this, regManager
    {
      IsWordProjection(encode, regManager.regMap, values)
    }

    /** `__init__`: keeps the manager and builds the word map from its floats. */
    constructor (regManager: SDM630RegisterManager, encode: Binary32Encoding)
      ensures this.regManager == regManager && this.encode == encode
      ensures Consistent()
    {
      this.regManager := regManager;
      this.encode := encode;
      new;
      var floats := regManager.GetAll();
      values := FloatMapToRegs(encode, floats);
    }

    /** `_update_regs`: replaces the word map by one rebuilt from the whole float map. */
    method UpdateRegs()
      modifies this
      ensures Consistent()
    {
      var floats := regManager.GetAll();
      values := FloatMapToRegs(encode, floats);
    }

    /**
     * `setValues`: writes `vals[i]` to float address `address + 2 * i`, in
     * index order, then rebuilds the word map. Every written value is kept,
     * every other float is as it was, and the words match the new floats.
     */
    method SetValues(address: int, vals: seq<real>)
      modifies this, regManager
      ensures regManager.regMap == old(regManager.regMap) + Targets(address, vals)
      ensures forall i :: 0 <= i < |vals| ==> FloatAt(regManager.regMap, address + 2 * i) == vals[i]
      ensures forall k :: !IsTarget(address, |vals|, k) ==>
        (k in regManager.regMap <==> k in old(regManager.regMap)) &&
        FloatAt(regManager.regMap, k) == FloatAt(old(regManager.regMap), k)
      ensures Consistent()
    {
      for i := 0 to |vals|
        invariant regManager.regMap == old(regManager.regMap) + Targets(address, vals[..i])
      {
        assert vals[..i + 1][..i] == vals[..i];
        OverlayWrite(old(regManager.regMap), Targets(address, vals[..i]), address + 2 * i, vals[i]);
        regManager.SetFloat(address + 2 * i, vals[i]);
      }
      assert vals[..|vals|] == vals;
      WritesKept(old(regManager.regMap), address, vals);
      UpdateRegs();
    }
  }

  // ---------------------------------------------------------------------------
  // The server's two data blocks

  /** Keys of one parity are never adjacent. */
  lemma SameParityApart(floats: map<int, real>, parity: int)
    requires forall k :: k in floats ==> k % 2 == parity
    ensures NoAdjacentKeys(floats)
  {
  }

  /** The keys of a float map are exactly the addresses of the rows. */
  ghost predicate KeysAreRowAddresses(floats: map<int, real>, rows: seq<RegisterRow>)
  {
    forall a :: a in floats <==> exists i :: 0 <= i < |rows| && rows[i].address == a
  }

  /** Each row's address holds that row's example value in the float map. */
  ghost predicate RowsHaveValues(floats: map<int, real>, rows: seq<RegisterRow>)
  {
    forall i :: 0 <= i < |rows| ==> rows[i].address in floats && floats[rows[i].address] == rows[i].exampleValue
  }

  /**
   * Each row's example value appears in the word map as its high word at the
   * row's address and its low word at the next address.
   */
  ghost predicate RowsHaveWords(encode: Binary32Encoding, rows: seq<RegisterRow>, words: map<int, Word>)
  {
    forall i :: 0 <= i < |rows| ==>
      rows[i].address in words && rows[i].address + 1 in words &&
      words[rows[i].address] == HighWord(encode, rows[i].exampleValue) &&
      words[rows[i].address + 1] == LowWord(encode, rows[i].exampleValue)
  }

  /**
   * The module-level wiring: the input and the holding table, a manager over
   * the `as_dict()` snapshot of each, and a data block over each manager
   * (`hr` for the holding, `ir` for the input table). Every register's
   * example value appears as its high word at its address and its low word
   * at the next one.
   */
  method ServerDataBlocks(encode: Binary32Encoding) returns (ir: SDM630DataBlock, hr: SDM630DataBlock)
    ensures fresh(ir) && fresh(ir.regManager) && fresh(hr) && fresh(hr.regManager)
    ensures ir.regManager != hr.regManager
    ensures ir.encode == encode && hr.encode == encode
    ensures ir.Consistent() && hr.Consistent()
    ensures KeysAreRowAddresses(ir.regManager.regMap, InputTable())
    ensures RowsHaveValues(ir.regManager.regMap, InputTable())
    ensures RowsHaveWords(encode, InputTable(), ir.values)
    ensures hr.regManager.regMap == map[2 := 60.0, 10 := 1.0]
    ensures hr.values == map[2 := HighWord(encode, 60.0), 3 := LowWord(encode, 60.0),
                             10 := HighWord(encode, 1.0), 11 := LowWord(encode, 1.0)]
  {
    hr := HoldingDataBlock(encode);
    ir := InputDataBlock(encode);
  }

  /** modbus_server.py:74-75 and 84: the input table, its manager and its data block. */
  method InputDataBlock(encode: Binary32Encoding) returns (ir: SDM630DataBlock)
    ensures fresh(ir) && fresh(ir.regManager)
    ensures ir.encode == encode
    ensures ir.Consistent()
    ensures KeysAreRowAddresses(ir.regManager.regMap, InputTable())
    ensures RowsHaveValues(ir.regManager.regMap, InputTable())
    ensures RowsHaveWords(encode, InputTable(), ir.values)
  {
    var inputRegistersObj := new SDM630InputRegisters();
    SpacedUnique(inputRegistersObj.registers);
    SnapshotOfRows(InputTable(), inputRegistersObj.registers);
    var inputRegManager := new SDM630RegisterManager(AsDict(inputRegistersObj.registers));
    ir := new SDM630DataBlock(inputRegManager, encode);
    SameParityApart(inputRegManager.regMap, 1);
    RowWords(encode, InputTable(), inputRegManager.regMap, ir.values);
  }

  /** modbus_server.py:76-77 and 83: the holding table, its manager and its data block. */
  method HoldingDataBlock(encode: Binary32Encoding) returns (hr: SDM630DataBlock)
    ensures fresh(hr) && fresh(hr.regManager)
    ensures hr.encode == encode
    ensures hr.Consistent()
    ensures hr.regManager.regMap == map[2 := 60.0, 10 := 1.0]
    ensures hr.values == map[2 := HighWord(encode, 60.0), 3 := LowWord(encode, 60.0),
                             10 := HighWord(encode, 1.0), 11 := LowWord(encode, 1.0)]
  {
    var holdingRegistersObj := new SDM630HoldingRegisters();
    HoldingSnapshot(holdingRegistersObj);
    var holdingRegManager := new SDM630RegisterManager(AsDict(holdingRegistersObj.registers));
    hr := new SDM630DataBlock(holdingRegManager, encode);
    HoldingWords(encode, hr.values);
  }

  /**
   * With no adjacent keys, each float's two words sit at its address and the
   * next one, whatever the iteration order was.
   */
  lemma ProjectionWordsAt(encode: Binary32Encoding, floats: map<int, real>, words: map<int, Word>, k: int)
    requires NoAdjacentKeys(floats) && IsWordProjection(encode, floats, words)
    requires k in floats
    ensures k in words && words[k] == HighWord(encode, floats[k])
    ensures k + 1 in words && words[k + 1] == LowWord(encode, floats[k])
  {
    assert WordFrom(encode, floats, k, words[k]);
    assert WordFrom(encode, floats, k + 1, words[k + 1]);
  }

  /**
   * The `as_dict()` snapshot of registers built from rows with odd
   * addresses, each register still at its example value: its keys are the
   * row addresses, all odd, and each row's address maps to its example value.
   */
  lemma SnapshotOfRows(rows: seq<RegisterRow>, regs: seq<SDM630Register>)
    requires |regs| == |rows| && AllOdd(AddressesOf(regs)) && UniqueAddresses(regs)
    requires forall i :: 0 <= i < |regs| ==> RowOf(regs[i]) == rows[i]
    requires forall i :: 0 <= i < |regs| ==> regs[i].value == regs[i].exampleValue
    ensures KeysAreRowAddresses(AsDict(regs), rows)
    ensures forall k :: k in AsDict(regs) ==> k % 2 == 1
    ensures RowsHaveValues(AsDict(regs), rows)
  {
    var floats := AsDict(regs);
    var addrs := AddressesOf(regs);
    forall a | a in floats
      ensures a % 2 == 1 && exists i :: 0 <= i < |rows| && rows[i].address == a
    {
      var i :| 0 <= i < |regs| && regs[i].address == a;
      assert addrs[i] == a && RowOf(regs[i]) == rows[i];
    }
    forall i | 0 <= i < |rows|
      ensures rows[i].address in floats && floats[rows[i].address] == rows[i].exampleValue
    {
      assert RowOf(regs[i]) == rows[i];
    }
  }

  /** Rows whose example values the float map holds get their words in any projection of it. */
  lemma RowWords(encode: Binary32Encoding, rows: seq<RegisterRow>, floats: map<int, real>, words: map<int, Word>)
    requires NoAdjacentKeys(floats) && IsWordProjection(encode, floats, words)
    requires RowsHaveValues(floats, rows)
    ensures RowsHaveWords(encode, rows, words)
  {
    forall i | 0 <= i < |rows|
      ensures rows[i].address in words && rows[i].address + 1 in words &&
        words[rows[i].address] == HighWord(encode, rows[i].exampleValue) &&
        words[rows[i].address + 1] == LowWord(encode, rows[i].exampleValue)
    {
      ProjectionWordsAt(encode, floats, words, rows[i].address);
    }
  }

  /** The holding snapshot: 60.0 at address 2 and 1.0 at address 10. */
  lemma HoldingSnapshot(table: SDM630HoldingRegisters)
    requires table.Valid()
    requires table.registers[0].value == 60.0 && table.registers[1].value == 1.0
    ensures UniqueAddresses(table.registers)
    ensures AsDict(table.registers) == map[2 := 60.0, 10 := 1.0]
  {
    var floats := AsDict(table.registers);
    assert floats.Keys == {2, 10};
  }

  /** The holding words: 60.0 at addresses 2 and 3, 1.0 at 10 and 11. */
  lemma HoldingWords(encode: Binary32Encoding, words: map<int, Word>)
    requires IsWordProjection(encode, map[2 := 60.0, 10 := 1.0], words)
    ensures words == map[2 := HighWord(encode, 60.0), 3 := LowWord(encode, 60.0),
                         10 := HighWord(encode, 1.0), 11 := LowWord(encode, 1.0)]
  {
    var floats := map[2 := 60.0, 10 := 1.0];
    SameParityApart(floats, 0);
    ProjectionWordsAt(encode, floats, words, 2);
    ProjectionWordsAt(encode, floats, words, 10);
    forall a | a in words
      ensures a in {2, 3, 10, 11}
    {
      assert WordFrom(encode, floats, a, words[a]);
    }
  }
}
