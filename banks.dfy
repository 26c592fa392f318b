/** The banking directory: commercial and merchant banks, building
    societies and credit unions, and bank branches by parish. Every
    operation reads the bank list `banks` or branch list `branches` it is
    given, the module's tuples of rows. */
module Banks {
  import opened Wrappers
  import opened Strings
  import opened Lookups

  datatype BankType = Commercial | Merchant | BuildingSociety | CreditUnion

  datatype Bank = Bank(
    id: string,
    name: string,
    abbreviation: string,
    kind: BankType,
    swift: Option<string>,
    website: Option<string>)

  datatype Branch = Branch(name: string, bankId: string, parish: string, address: Option<string>)

  // ---------------------------------------------------------------------
  // Lookup by id or name
  // ---------------------------------------------------------------------

  /** A bank answers to `needle` when its id is `needle` as stored, or its
      lower-cased name is `needle`. */
  predicate Answers(needle: string, b: Bank)
  {
    b.id == needle || Lower(b.name) == needle
  }

  /** What `get_bank(id_or_name)` returns: the first bank answering to the
      lower-cased argument. */
  function BankNamed(banks: seq<Bank>, idOrName: string): (r: Option<Bank>)
  {
    First(banks, b => Answers(Lower(idOrName), b))
  }

  /** `get_bank(id_or_name)`: the loop that returns on the first bank whose
      id, or lower-cased name, is the lower-cased argument. */
  method GetBank(banks: seq<Bank>, idOrName: string) returns (r: Option<Bank>)
    ensures r == BankNamed(banks, idOrName)
    ensures r.Some? ==> r.value in banks && (r.value.id == Lower(idOrName) || Lower(r.value.name) == Lower(idOrName))
    ensures r.None? <==> forall b :: b in banks ==> b.id != Lower(idOrName) && Lower(b.name) != Lower(idOrName)
  {
    var needle := Lower(idOrName);
    var k := 0;
    while k < |banks|
      invariant k <= |banks|
      invariant forall j :: 0 <= j < k ==> !Answers(needle, banks[j])
    {
      if banks[k].id == needle || Lower(banks[k].name) == needle {
        FirstAt(banks, b => Answers(needle, b), k);
        return Some(banks[k]);
      }
      k := k + 1;
    }
    FirstNone(banks, b => Answers(needle, b));
    return None;
  }

  /** The lookup ignores the case of its argument: asking in any case gives
      the same bank as asking in lower case. */
  lemma BankNamedIgnoresCase(banks: seq<Bank>, a: string, b: string)
    requires Lower(a) == Lower(b)
    ensures BankNamed(banks, a) == BankNamed(banks, b)
    ensures BankNamed(banks, Lower(a)) == BankNamed(banks, a)
  {
    LowerIdempotent(a);
  }

  /** A bank listed before every other bank answering to the same needle is
      the one returned. */
  lemma FirstAnsweringBankWins(banks: seq<Bank>, idOrName: string, i: nat)
    requires i < |banks| && Answers(Lower(idOrName), banks[i])
    requires forall k :: 0 <= k < i ==> !Answers(Lower(idOrName), banks[k])
    ensures BankNamed(banks, idOrName) == Some(banks[i])
  {
    FirstAt(banks, b => Answers(Lower(idOrName), b), i);
  }

  /** `get_swift_code(bank_id)`: the SWIFT code of the bank `get_bank`
      finds. An unknown bank and a bank without a code both give None. */
  function GetSwiftCode(banks: seq<Bank>, bankId: string): (r: Option<string>)
    ensures r.Some? <==> exists b :: b in banks && Answers(Lower(bankId), b) && BankNamed(banks, bankId) == Some(b) && b.swift.Some?
    ensures BankNamed(banks, bankId).None? ==> r.None?
    ensures BankNamed(banks, bankId).Some? ==> r == BankNamed(banks, bankId).value.swift
    ensures r.Some? ==> exists b :: b in banks && Answers(Lower(bankId), b) && b.swift == r
  {
    match BankNamed(banks, bankId)
    case None => None
    case Some(bank) => bank.swift
  }

  // ---------------------------------------------------------------------
  // Filters
  // ---------------------------------------------------------------------

  predicate OfType(t: BankType, b: Bank)
  {
    b.kind == t
  }

  /** `get_banks_by_type(bank_type)`. */
  function GetBanksByType(banks: seq<Bank>, t: BankType): (r: seq<Bank>)
    ensures forall b :: b in r <==> b in banks && b.kind == t
  {
    Filter(banks, b => OfType(t, b))
  }

  /** `get_commercial_banks()`: the commercial banks, in directory order. */
  function GetCommercialBanks(banks: seq<Bank>): (r: seq<Bank>)
    ensures r == GetBanksByType(banks, Commercial)
    ensures forall b :: b in r <==> b in banks && b.kind == Commercial
  {
    GetBanksByType(banks, Commercial)
  }

  /** Every bank has exactly one of the four types: the four type lists
      together are as long as the directory. */
  lemma {:induction false} TypesPartitionBanks(banks: seq<Bank>)
    ensures |GetBanksByType(banks, Commercial)| + |GetBanksByType(banks, Merchant)|
      + |GetBanksByType(banks, BuildingSociety)| + |GetBanksByType(banks, CreditUnion)| == |banks|
  {
    if banks != [] {
      TypesPartitionBanks(banks[1..]);
    }
  }

  predicate OfBank(bid: string, b: Branch)
  {
    b.bankId == bid
  }

  /** `get_bank_branches(bank_id)`: the branches whose stored bank id is the
      lower-cased argument, in directory order. */
  function GetBankBranches(branches: seq<Branch>, bankId: string): (r: seq<Branch>)
    ensures forall b :: b in r <==> b in branches && b.bankId == Lower(bankId)
  {
    Filter(branches, b => OfBank(Lower(bankId), b))
  }

  predicate InParish(key: string, b: Branch)
  {
    Lower(b.parish) == key
  }

  /** `get_branches_by_parish(parish)`: the branches whose lower-cased parish
      is the lower-cased argument, in directory order. */
  function GetBranchesByParish(branches: seq<Branch>, parish: string): (r: seq<Branch>)
    ensures forall b :: b in r <==> b in branches && Lower(b.parish) == Lower(parish)
  {
    Filter(branches, b => InParish(Lower(parish), b))
  }

  /** The branches of a bank in a parish are the same whichever filter is
      applied first. */
  lemma BranchFiltersCommute(branches: seq<Branch>, bankId: string, parish: string)
    ensures Filter(GetBankBranches(branches, bankId), b => InParish(Lower(parish), b))
      == Filter(GetBranchesByParish(branches, parish), b => OfBank(Lower(bankId), b))
  {
    var byBank := b => OfBank(Lower(bankId), b);
    var byParish := b => InParish(Lower(parish), b);
    var both := b => OfBank(Lower(bankId), b) && InParish(Lower(parish), b);
    FilterFilter(branches, byBank, byParish, both);
    FilterFilter(branches, byParish, byBank, b => InParish(Lower(parish), b) && OfBank(Lower(bankId), b));
    FilterExtensional(branches, b => InParish(Lower(parish), b) && OfBank(Lower(bankId), b), both);
  }

  // ---------------------------------------------------------------------
  // Search
  // ---------------------------------------------------------------------

  /** A bank matches a lower-cased needle through its lower-cased name, its
      lower-cased abbreviation, or its id as stored. */
  predicate Matches(needle: string, b: Bank)
  {
    Contains(Lower(b.name), needle) || Contains(Lower(b.abbreviation), needle) || Contains(b.id, needle)
  }

  /** `search_banks(query)`. */
  function SearchBanks(banks: seq<Bank>, query: string): (r: seq<Bank>)
    ensures forall b :: b in r <==> b in banks && Matches(Lower(query), b)
  {
    Filter(banks, b => Matches(Lower(query), b))
  }

  /** A bank that `get_bank` finds is among the results of searching for the
      same text. */
  lemma FoundBankIsSearched(banks: seq<Bank>, idOrName: string)
    requires BankNamed(banks, idOrName).Some?
    ensures BankNamed(banks, idOrName).value in SearchBanks(banks, idOrName)
  {
    ContainsSelf(Lower(idOrName));
  }
}
