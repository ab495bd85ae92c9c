/**
 * The compatibility check of the parts API (scraper/pcpartpicker/api/main.py,
 * with the records of scraper/pcpartpicker/api/models.py). The database is
 * two tables given as sequences of rows; a name query is "the row with the
 * smallest id whose name contains the query, ignoring case".
 */
module Compatibility {
  import opened Wrappers
  import opened Text

  /** ComponentTypes. */
  datatype PartKind = Cpu | Motherboard | Memory | CpuCooler | VideoCard | Case | PowerSupply | Storage

  /** Components: one entry of the request body. */
  datatype Component = Component(kind: PartKind, name: string)

  /** The columns of the memory table the check reads. */
  datatype MemoryRow = MemoryRow(id: int, name: Option<string>, speed: Option<string>)

  /** The columns of the motherboard table the check reads. */
  datatype MotherboardRow = MotherboardRow(id: int, name: Option<string>, memoryType: Option<string>)

  /** CompatibilityCheckResponse. */
  datatype CompatibilityResponse = CompatibilityResponse(compatible: bool, message: Option<string>)

  /** Truthiness of an optional string column. */
  predicate Given(s: Option<string>) {
    s.Some? && s.value != ""
  }

  /** `col(name).icontains(query)`: a NULL name never matches. */
  predicate NameMatches(name: Option<string>, query: string) {
    name.Some? && Contains(Lower(name.value), Lower(query))
  }

  /** The first row, by ascending id, that `ok` accepts. */
  function FirstById<R>(rows: seq<R>, id: R -> int, ok: R -> bool): (r: Option<R>)
    ensures r.Some? ==> r.value in rows && ok(r.value)
    ensures r.Some? ==> forall x :: x in rows && ok(x) ==> id(r.value) <= id(x)
    ensures r.None? <==> forall x :: x in rows ==> !ok(x)
    decreases |rows|
  {
    if rows == [] then None
    else
      var rest := FirstById(rows[1..], id, ok);
      if !ok(rows[0]) then rest
      else if rest.Some? && id(rest.value) < id(rows[0]) then rest
      else Some(rows[0])
  }

  /** The query for one memory name: the first matching memory row, if any. */
  function FindMemory(table: seq<MemoryRow>, query: string): Option<MemoryRow> {
    FirstById(table, (m: MemoryRow) => m.id, (m: MemoryRow) => NameMatches(m.name, query))
  }

  /** The query for one motherboard name. */
  function FindMotherboard(table: seq<MotherboardRow>, query: string): Option<MotherboardRow> {
    FirstById(table, (b: MotherboardRow) => b.id, (b: MotherboardRow) => NameMatches(b.name, query))
  }

  /** The names of the requested components of one kind, as a set. */
  function Requested(components: seq<Component>, kind: PartKind): set<string> {
    set i | 0 <= i < |components| && components[i].kind == kind :: components[i].name
  }

  /** The memory rows the requested names resolve to. */
  function ResolvedMemories(table: seq<MemoryRow>, names: set<string>): set<MemoryRow> {
    set q | q in names && FindMemory(table, q).Some? :: FindMemory(table, q).value
  }

  function ResolvedMotherboards(table: seq<MotherboardRow>, names: set<string>): set<MotherboardRow> {
    set q | q in names && FindMotherboard(table, q).Some? :: FindMotherboard(table, q).value
  }

  /** `memory.speed[:4] if memory.speed else None`. */
  function MemoryType(m: MemoryRow): (t: Option<string>)
    ensures t.Some? <==> Given(m.speed)
    ensures t.Some? ==> t.value != "" && IsPrefix(t.value, m.speed.value)
    ensures t.Some? ==> |t.value| == if |m.speed.value| < 4 then |m.speed.value| else 4
  {
    if Given(m.speed) then Some(Take(m.speed.value, 4)) else None
  }

  /** Both types are known and they differ. */
  predicate Mismatch(m: MemoryRow, b: MotherboardRow) {
    Given(b.memoryType) && MemoryType(m).Some? && b.memoryType.value != MemoryType(m).value
  }

  function MismatchMessage(boardType: string, memoryType: string): string {
    "Incompatible memory type: Motherboard requires " + boardType + ", but memory is " + memoryType + "."
  }

  /** Some requested memory and some requested motherboard disagree on the memory type. */
  predicate Incompatible(components: seq<Component>, memories: seq<MemoryRow>, boards: seq<MotherboardRow>) {
    exists m, b :: m in ResolvedMemories(memories, Requested(components, Memory))
                && b in ResolvedMotherboards(boards, Requested(components, Motherboard))
                && Mismatch(m, b)
  }

  /** The rows found for a set of memory names, one query per name (in the set's own order). */
  method QueryMemories(table: seq<MemoryRow>, names: set<string>) returns (rows: seq<MemoryRow>)
    ensures forall m :: m in rows <==> m in ResolvedMemories(table, names)
  {
    rows := [];
    var left := names;
    while left != {}
      invariant left <= names
      invariant forall m :: m in rows <==> m in ResolvedMemories(table, names - left)
      decreases left
    {
      var q :| q in left;
      var row := FindMemory(table, q);
      if row.Some? {
        rows := rows + [row.value];
      }
      left := left - {q};
    }
  }

  method QueryMotherboards(table: seq<MotherboardRow>, names: set<string>) returns (rows: seq<MotherboardRow>)
    ensures forall b :: b in rows <==> b in ResolvedMotherboards(table, names)
  {
    rows := [];
    var left := names;
    while left != {}
      invariant left <= names
      invariant forall b :: b in rows <==> b in ResolvedMotherboards(table, names - left)
      decreases left
    {
      var q :| q in left;
      var row := FindMotherboard(table, q);
      if row.Some? {
        rows := rows + [row.value];
      }
      left := left - {q};
    }
  }

  /**
   * check_compatibility: collect the memory and motherboard names, resolve
   * each, and answer incompatible at the first pair whose types differ.
   */
  method CheckCompatibility(components: seq<Component>, memories: seq<MemoryRow>, boards: seq<MotherboardRow>)
    returns (resp: CompatibilityResponse)
    ensures resp.compatible <==> !Incompatible(components, memories, boards)
    ensures resp.compatible ==> resp.message == None
    ensures !resp.compatible ==>
              exists m, b :: m in ResolvedMemories(memories, Requested(components, Memory))
                          && b in ResolvedMotherboards(boards, Requested(components, Motherboard))
                          && Mismatch(m, b)
                          && resp.message == Some(MismatchMessage(b.memoryType.value, MemoryType(m).value))
  {
    var rams: set<string> := {};
    var motherboards: set<string> := {};
    for i := 0 to |components|
      invariant rams == Requested(components[..i], Memory)
      invariant motherboards == Requested(components[..i], Motherboard)
    {
      RequestedSnoc(components[..i], components[i], Memory);
      RequestedSnoc(components[..i], components[i], Motherboard);
      assert components[..i + 1] == components[..i] + [components[i]];
      if components[i].kind == Memory {
        rams := rams + {components[i].name};
      } else if components[i].kind == Motherboard {
        motherboards := motherboards + {components[i].name};
      }
    }
    assert components[..|components|] == components;
    var ramRows := QueryMemories(memories, rams);
    var boardRows := QueryMotherboards(boards, motherboards);
    for i := 0 to |ramRows|
      invariant forall a, b :: 0 <= a < i && 0 <= b < |boardRows| ==> !Mismatch(ramRows[a], boardRows[b])
    {
      var memoryType := MemoryType(ramRows[i]);
      for j := 0 to |boardRows|
        invariant forall b :: 0 <= b < j ==> !Mismatch(ramRows[i], boardRows[b])
      {
        var board := boardRows[j];
        if Given(board.memoryType) && memoryType.Some? {
          if board.memoryType.value != memoryType.value {
            assert ramRows[i] in ResolvedMemories(memories, rams);
            assert board in ResolvedMotherboards(boards, motherboards);
            assert Mismatch(ramRows[i], board);
            return CompatibilityResponse(false, Some(MismatchMessage(board.memoryType.value, memoryType.value)));
          }
        }
      }
    }
    forall m, b | m in ResolvedMemories(memories, rams) && b in ResolvedMotherboards(boards, motherboards)
      ensures !Mismatch(m, b)
    {
      var a :| 0 <= a < |ramRows| && ramRows[a] == m;
      var c :| 0 <= c < |boardRows| && boardRows[c] == b;
    }
    return CompatibilityResponse(true, None);
  }

  lemma RequestedSnoc(components: seq<Component>, c: Component, kind: PartKind)
    ensures Requested(components + [c], kind)
            == Requested(components, kind) + (if c.kind == kind then {c.name} else {})
  {
    var s := components + [c];
    assert forall i :: 0 <= i < |components| ==> s[i] == components[i];
    assert s[|components|] == c;
  }

  // ---------------------------------------------------------------------
  // Properties
  // ---------------------------------------------------------------------

  /** Only memory and motherboard entries matter: adding any other part changes nothing. */
  lemma OtherPartsIgnored(components: seq<Component>, c: Component, memories: seq<MemoryRow>, boards: seq<MotherboardRow>)
    requires c.kind != Memory && c.kind != Motherboard
    ensures Incompatible(components + [c], memories, boards) == Incompatible(components, memories, boards)
  {
    RequestedSnoc(components, c, Memory);
    RequestedSnoc(components, c, Motherboard);
  }

  /** A name requested twice is queried once: repeating an entry changes nothing. */
  lemma RepeatedNameIgnored(components: seq<Component>, k: nat, memories: seq<MemoryRow>, boards: seq<MotherboardRow>)
    requires k < |components|
    ensures Incompatible(components + [components[k]], memories, boards) == Incompatible(components, memories, boards)
  {
    RequestedSnoc(components, components[k], Memory);
    RequestedSnoc(components, components[k], Motherboard);
    assert components[k].kind == Memory ==> components[k].name in Requested(components, Memory);
    assert components[k].kind == Motherboard ==> components[k].name in Requested(components, Motherboard);
  }

  /** A pair with a missing type on either side never makes the build incompatible. */
  lemma MissingTypeNeverConflicts(m: MemoryRow, b: MotherboardRow)
    requires !Given(m.speed) || !Given(b.memoryType)
    ensures !Mismatch(m, b)
  {
  }

  /** The memory type is the first four characters of the speed, so "DDR5-6000" is a DDR5 module. */
  lemma MemoryTypeOfSpeed(m: MemoryRow, kind: string, rest: string)
    requires |kind| == 4 && m.speed == Some(kind + rest)
    ensures MemoryType(m) == Some(kind)
  {
    assert (kind + rest)[..4] == kind;
  }

  /** With no motherboard in the request, every build is compatible. */
  lemma NoMotherboardCompatible(components: seq<Component>, memories: seq<MemoryRow>, boards: seq<MotherboardRow>)
    requires forall i :: 0 <= i < |components| ==> components[i].kind != Motherboard
    ensures !Incompatible(components, memories, boards)
  {
    assert Requested(components, Motherboard) == {};
  }
}
