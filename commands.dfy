/** The firmware's command registry: five statically initialised entries,
    a query and a set form of OUT and DIR and a query form of INP. */
module Commands {
  import opened CmdProcTypes
  import opened CmdProcSpec

  const COMMAND_INP_QUERY: nat := 0
  const COMMAND_OUT_QUERY: nat := 1
  const COMMAND_OUT_SET: nat := 2
  const COMMAND_DIR_QUERY: nat := 3
  const COMMAND_DIR_SET: nat := 4

  const Table: seq<CmdSpec> := [
    CmdSpec(COMMAND_INP_QUERY, Query, "INP", [ArgUInt8], []),
    CmdSpec(COMMAND_OUT_QUERY, Query, "OUT", [ArgUInt8], []),
    CmdSpec(COMMAND_OUT_SET, Set, "OUT", [ArgUInt8], [ArgUInt8]),
    CmdSpec(COMMAND_DIR_QUERY, Query, "DIR", [ArgUInt8], []),
    CmdSpec(COMMAND_DIR_SET, Set, "DIR", [ArgUInt8], [ArgUInt8])
  ]

  /** Five entries, each fitting the fixed-size record: no entry declares
      more arguments than CMDPROC_MAX_N_LEFTARGS / RIGHTARGS = 1. */
  lemma TableFits()
    ensures |Table| == 5
    ensures RegistryFits(Table)
    ensures forall i :: 0 <= i < |Table| ==>
              |Table[i].leftArgTypes| <= MAX_N_LEFTARGS && |Table[i].rightArgTypes| <= MAX_N_RIGHTARGS
  {
  }

  /** No two entries share (mnemonic, shape). */
  lemma TableKeysDistinct()
    ensures forall a, b :: 0 <= a < b < |Table| ==>
              !(Table[a].mnem == Table[b].mnem && Table[a].cmdType == Table[b].cmdType)
  {
  }

  /** Every entry declares exactly one UInt8 left argument; query entries
      declare no right argument and set entries one UInt8 right argument. */
  lemma TableArgumentContracts()
    ensures forall i :: 0 <= i < |Table| ==> Table[i].leftArgTypes == [ArgUInt8]
    ensures forall i :: 0 <= i < |Table| && Table[i].cmdType == Query ==> Table[i].rightArgTypes == []
    ensures forall i :: 0 <= i < |Table| && Table[i].cmdType == Set ==> Table[i].rightArgTypes == [ArgUInt8]
  {
  }

  /** Lookup in this table does not depend on entry order: the index found
      for a key is the one entry carrying that key. */
  lemma TableLookupIsUnique(mnem: string, t: CmdType, j: nat)
    requires j < |Table| && SpecMatches(Table[j], mnem, t)
    ensures FindSpec(Table, mnem, t) == j
  {
    TableKeysDistinct();
    TableFits();
    FindSpecUnique(Table, mnem, t, j);
  }

  /** Only INP (query), OUT and DIR (query and set) are registered: every
      Do-shaped lookup and every other mnemonic, IDN, TLS and TCP among
      them, is not found. */
  lemma TableKeys(mnem: string, t: CmdType)
    requires |mnem| <= MNEM_MAX_LEN
    ensures FindSpec(Table, mnem, t) >= 0 <==>
              (mnem == "INP" && t == Query) ||
              ((mnem == "OUT" || mnem == "DIR") && (t == Query || t == Set))
  {
    forall i | 0 <= i < |Table| ensures Truncate(Table[i].mnem, MNEM_MAX_LEN) == Table[i].mnem { }
    assert Truncate(mnem, MNEM_MAX_LEN) == mnem;
    var r := FindSpec(Table, mnem, t);
    if r >= 0 {
      assert mnem == Table[r].mnem && t == Table[r].cmdType;
      assert r == 0 || r == 1 || r == 2 || r == 3 || r == 4;
    } else {
      assert !SpecMatches(Table[0], mnem, t) && !SpecMatches(Table[1], mnem, t);
      assert !SpecMatches(Table[2], mnem, t) && !SpecMatches(Table[3], mnem, t);
      assert !SpecMatches(Table[4], mnem, t);
    }
  }
}
