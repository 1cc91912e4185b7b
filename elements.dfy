/**
 * The periodic table used by the IXA molecule store (ixa_mol.c:49-63): entry 0 is the
 * empty string, entries 1..118 are the elements hydrogen..oganesson and entry 119 is
 * the placeholder "Zz".
 */
module PeriodicTable {
  import opened Common

  /** Element symbols of atomic numbers 1 .. 119, in order. */
  const Symbols: seq<string> :=
    ["H", "He"] +
    ["Li", "Be", "B", "C", "N", "O", "F", "Ne"] +
    ["Na", "Mg", "Al", "Si", "P", "S", "Cl", "Ar"] +
    ["K", "Ca", "Sc", "Ti", "V", "Cr", "Mn", "Fe", "Co"] +
    ["Ni", "Cu", "Zn", "Ga", "Ge", "As", "Se", "Br", "Kr"] +
    ["Rb", "Sr", "Y", "Zr", "Nb", "Mo", "Tc", "Ru", "Rh"] +
    ["Pd", "Ag", "Cd", "In", "Sn", "Sb", "Te", "I", "Xe"] +
    ["Cs", "Ba", "La"] +
    ["Ce", "Pr", "Nd", "Pm", "Sm", "Eu", "Gd"] +
    ["Tb", "Dy", "Ho", "Er", "Tm", "Yb", "Lu"] +
    ["Hf", "Ta", "W", "Re", "Os", "Ir", "Pt", "Au"] +
    ["Hg", "Tl", "Pb", "Bi", "Po", "At", "Rn"] +
    ["Fr", "Ra", "Ac"] +
    ["Th", "Pa", "U", "Np", "Pu", "Am", "Cm"] +
    ["Bk", "Cf", "Es", "Fm", "Md", "No"] +
    ["Lr", "Rf", "Db", "Sg", "Bh", "Hs", "Mt", "Ds"] +
    ["Rg", "Cn", "Nh", "Fl", "Mc", "Lv", "Ts", "Og"] +
    ["Zz"]

  /** The C array: an empty entry 0 followed by the symbols, so that Elements[k] is atomic number k. */
  const Elements: seq<string> := [""] + Symbols

  /** sizeof(Elements) / sizeof(Elements[0]): atomic numbers accepted are 1 .. TableSize - 1. */
  const TableSize: nat := 120

  /** TableSize is the length of the table, so atomic numbers 1 .. 119 are accepted. */
  lemma TableSizeValue()
    ensures |Elements| == TableSize
  {
  }

  /** Whether `sym` is one of the table entries 1 .. TableSize - 1. */
  predicate InTable(sym: string) {
    exists k :: 1 <= k < |Elements| && Elements[k] == sym
  }

  /** The first index at or after `k` of `table` holding `sym`, or |table| when there is none. */
  function FirstIndexFrom(table: seq<string>, sym: string, k: nat): (r: nat)
    requires k <= |table|
    ensures k <= r <= |table|
    ensures r < |table| ==> table[r] == sym
    ensures forall j :: k <= j < r ==> table[j] != sym
    decreases |table| - k
  {
    if k == |table| then k
    else if table[k] == sym then k
    else FirstIndexFrom(table, sym, k + 1)
  }

  /**
   * The lookup inside IXA_MOL_SetAtomElement (ixa_mol.c:603-618): scan the table from
   * entry 1 for `symbol`, then fall back to hydrogen for "D" and "T".
   */
  method LookupElement(symbol: string) returns (n: Option<nat>)
    ensures n == ElementNumber(symbol)
    ensures n.Some? ==> 1 <= n.value < TableSize
  {
    var k := 1;
    while k < |Elements|
      invariant 1 <= k <= |Elements|
      invariant FirstIndexFrom(Elements, symbol, 1) == FirstIndexFrom(Elements, symbol, k)
    {
      if symbol == Elements[k] {
        return Some(k);
      }
      k := k + 1;
    }
    if symbol == "D" || symbol == "T" {
      return Some(1);
    }
    return None;
  }

  /**
   * The atomic number IXA_MOL_SetAtomElement assigns for symbol `sym` (ixa_mol.c:603-618):
   * the first index k >= 1 whose table entry equals `sym`, else 1 for the hydrogen
   * isotope aliases "D" and "T", else None (the symbol is not recognised).
   */
  function ElementNumber(sym: string): (r: Option<nat>)
    ensures r.Some? <==> InTable(sym) || sym == "D" || sym == "T"
    ensures r.Some? ==> 1 <= r.value < TableSize && (Elements[r.value] == sym || (sym in {"D", "T"} && r.value == 1))
  {
    ScanFindsTableEntries(sym);
    var k := FirstIndexFrom(Elements, sym, 1);
    if k < |Elements| then Some(k)
    else if sym == "D" || sym == "T" then Some(1)
    else None
  }

  /** The scan from entry 1 stops inside the table exactly for the symbols the table holds. */
  lemma ScanFindsTableEntries(sym: string)
    ensures FirstIndexFrom(Elements, sym, 1) < |Elements| <==> InTable(sym)
  {
    var k := FirstIndexFrom(Elements, sym, 1);
    if InTable(sym) {
      var j :| 1 <= j < |Elements| && Elements[j] == sym;
      assert k <= j;
    }
  }

  /** The scan takes the FIRST matching entry, so no smaller atomic number carries the same symbol. */
  lemma ElementNumberIsFirst(sym: string, j: nat)
    requires ElementNumber(sym).Some? && 1 <= j < ElementNumber(sym).value
    ensures Elements[j] != sym
  {
  }

  /** Every table entry is found again by the scan: symbol -> number -> symbol round trip. */
  lemma SymbolOfNumberRoundTrip(k: nat)
    requires 1 <= k < TableSize
    ensures ElementNumber(Elements[k]).Some?
    ensures Elements[ElementNumber(Elements[k]).value] == Elements[k]
  {
  }

  /** A symbol missing from the table is not found by the scan. */
  lemma NotInTableNotFound(sym: string)
    requires sym !in Elements
    ensures FirstIndexFrom(Elements, sym, 1) == |Elements|
  {
    var k := FirstIndexFrom(Elements, sym, 1);
  }

  /** Deuterium is not a table entry; it falls back to atomic number 1 (ixa_mol.c:612-616). */
  lemma DeuteriumIsHydrogen()
    ensures ElementNumber("D") == Some(1)
  {
    assert "D" !in Elements;
    NotInTableNotFound("D");
  }

  /** Tritium is not a table entry; it falls back to atomic number 1 (ixa_mol.c:612-616). */
  lemma TritiumIsHydrogen()
    ensures ElementNumber("T") == Some(1)
  {
    assert "T" !in Elements;
    NotInTableNotFound("T");
  }
}
