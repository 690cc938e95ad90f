/**
 * The IR button platform of localtuya: dynamic allocation of a button's
 * data-point id over the device's shared list of entity configurations, and
 * the construction of the IR "press" command written to the device.
 */
module Button {
  import opened Wrappers

  /** Control mode carried by every press command. */
  const ControlMode: string := "send_ir"
  /** Data point every press command is written to. */
  const PressDp: int := 201
  /** Ids below this value are placeholders; ids at or above it are final. */
  const DynamicDp: int := 1000

  /**
   * One entity configuration record of the device. The id is kept as the
   * integer localtuya obtains with int(); the IR codes are optional,
   * since localtuya reads them with dict.get.
   */
  datatype EntityConfig = EntityConfig(
    id: int,
    irHead: Option<string>,
    irKey1: Option<string>,
    deviceClass: Option<string>)

  /** Why setting up a button fails. */
  datatype SetupError =
    | NoEntities                    // max() over an empty list raises
    | MissingEntityConfig(id: int)  // no record carries the placeholder id

  /** Outcome of an allocation: the entity list afterwards and the button's id. */
  datatype Allocation = Allocation(entities: seq<EntityConfig>, id: int)

  /** The command payload; json.dumps of it is what the device receives. */
  datatype Command = Command(
    control: string,
    head: Option<string>,
    key1: Option<string>,
    commandType: int,
    delay: int)

  /** A single set_dp call: a payload and the data point it is written to. */
  datatype DpWrite = DpWrite(payload: Command, dp: int)

  /** An id still waiting for a dynamic data point. */
  predicate IsPlaceholder(id: int): (r: bool)
    ensures r <==> id < DynamicDp
  {
    id < DynamicDp
  }

  /** The ids of the records, in order (the list comprehension of the allocator). */
  function Ids(entities: seq<EntityConfig>): (r: seq<int>)
    ensures |r| == |entities|
    ensures forall i :: 0 <= i < |entities| ==> r[i] == entities[i].id
  {
    if |entities| == 0 then [] else [entities[0].id] + Ids(entities[1..])
  }

  /** The largest element of a non-empty list, as Python's max() returns it. */
  function MaxOf(s: seq<int>): (m: int)
    requires |s| > 0
    ensures m in s
    ensures forall i :: 0 <= i < |s| ==> s[i] <= m
  {
    if |s| == 1 then s[0]
    else
      var rest := MaxOf(s[1..]);
      if s[0] >= rest then s[0] else rest
  }

  /**
   * The id handed to a placeholder: one more than the largest id present,
   * but never below DynamicDp. It is the least such value.
   */
  function NextDynamicId(entities: seq<EntityConfig>): (r: int)
    requires |entities| > 0
    ensures r >= DynamicDp
    ensures forall i :: 0 <= i < |entities| ==> entities[i].id < r
    ensures r == DynamicDp || r - 1 in Ids(entities)
  {
    var m := MaxOf(Ids(entities));
    if m + 1 >= DynamicDp then m + 1 else DynamicDp
  }

  /** The index of the first record whose id is the given one (the record get_entity_config returns). */
  function FindEntity(entities: seq<EntityConfig>, id: int): (r: Option<nat>)
    ensures r.Some? ==> r.value < |entities| && entities[r.value].id == id
    ensures r.Some? ==> forall j :: 0 <= j < r.value ==> entities[j].id != id
    ensures r.None? <==> forall j :: 0 <= j < |entities| ==> entities[j].id != id
  {
    if |entities| == 0 then None
    else if entities[0].id == id then Some(0)
    else
      match FindEntity(entities[1..], id)
      case None => None
      case Some(k) => Some(k + 1)
  }

  /** All records carry pairwise different ids. */
  predicate DistinctIds(entities: seq<EntityConfig>) {
    forall i, j :: 0 <= i < j < |entities| ==> entities[i].id != entities[j].id
  }

  /**
   * The allocation step of a button's construction: a final id leaves the
   * list alone; a placeholder is replaced, in the record that carries it,
   * by NextDynamicId. The max is taken before the record is looked up, so
   * an empty list fails first.
   */
  function Allocate(entities: seq<EntityConfig>, buttonId: int): (r: Result<Allocation, SetupError>)
    ensures r.Err? <==> IsPlaceholder(buttonId) && FindEntity(entities, buttonId).None?
    ensures r.Err? ==> r.error == if |entities| == 0 then NoEntities else MissingEntityConfig(buttonId)
    ensures r.Ok? ==> |r.value.entities| == |entities|
  {
    if !IsPlaceholder(buttonId) then Ok(Allocation(entities, buttonId))
    else if |entities| == 0 then Err(NoEntities)
    else
      var next := NextDynamicId(entities);
      match FindEntity(entities, buttonId)
      case None => Err(MissingEntityConfig(buttonId))
      case Some(k) => Ok(Allocation(entities[k := entities[k].(id := next)], next))
  }

  /** A final id is kept and the list is left exactly as it was. */
  lemma FinalIdUnchanged(entities: seq<EntityConfig>, buttonId: int)
    requires !IsPlaceholder(buttonId)
    ensures Allocate(entities, buttonId) == Ok(Allocation(entities, buttonId))
  {
  }

  /**
   * A placeholder whose record exists is given max(max(ids) + 1, DynamicDp),
   * which is final and larger than every id present before.
   */
  lemma PlaceholderGetsFreshId(entities: seq<EntityConfig>, buttonId: int)
    requires IsPlaceholder(buttonId) && FindEntity(entities, buttonId).Some?
    ensures Allocate(entities, buttonId).Ok?
    ensures var a := Allocate(entities, buttonId).value;
      a.id == (if MaxOf(Ids(entities)) + 1 >= DynamicDp then MaxOf(Ids(entities)) + 1 else DynamicDp)
      && !IsPlaceholder(a.id)
      && forall i :: 0 <= i < |entities| ==> entities[i].id < a.id
  {
  }

  /**
   * Only the id field of the record that held the placeholder changes; its
   * other fields, the length and every other record stay as they were.
   */
  lemma OnlyPlaceholderRecordChanges(entities: seq<EntityConfig>, buttonId: int)
    requires IsPlaceholder(buttonId) && FindEntity(entities, buttonId).Some?
    ensures var k := FindEntity(entities, buttonId).value;
      var a := Allocate(entities, buttonId).value;
      |a.entities| == |entities|
      && a.entities[k] == entities[k].(id := a.id)
      && forall j :: 0 <= j < |entities| && j != k ==> a.entities[j] == entities[j]
  {
  }

  /** Allocation keeps the ids of a device pairwise distinct. */
  lemma AllocatePreservesDistinctIds(entities: seq<EntityConfig>, buttonId: int)
    requires DistinctIds(entities)
    requires Allocate(entities, buttonId).Ok?
    ensures DistinctIds(Allocate(entities, buttonId).value.entities)
  {
  }

  /** Running the allocation again with the id it produced changes nothing. */
  lemma AllocateIdempotent(entities: seq<EntityConfig>, buttonId: int)
    requires Allocate(entities, buttonId).Ok?
    ensures var a := Allocate(entities, buttonId).value;
      Allocate(a.entities, a.id) == Ok(a)
  {
  }

  /**
   * Two placeholder buttons of one device constructed one after the other:
   * the second sees the first one's write, so both succeed and the second
   * id is strictly larger than the first.
   */
  lemma SequentialPlaceholdersDistinct(entities: seq<EntityConfig>, first: int, second: int)
    requires IsPlaceholder(first) && IsPlaceholder(second) && first != second
    requires FindEntity(entities, first).Some? && FindEntity(entities, second).Some?
    ensures Allocate(entities, first).Ok?
    ensures var a := Allocate(entities, first).value;
      Allocate(a.entities, second).Ok?
      && Allocate(a.entities, second).value.id > a.id
  {
    var k1 := FindEntity(entities, first).value;
    var k2 := FindEntity(entities, second).value;
    var a := Allocate(entities, first).value;
    assert k1 != k2;
    assert a.entities[k2] == entities[k2];
    assert FindEntity(a.entities, second).Some?;
    assert a.entities[k1].id == a.id;
  }

  /**
   * The same holds when two records carry the same placeholder: the first
   * allocation rewrites the first of them, the second allocation finds the
   * other one and gives it a strictly larger id.
   */
  lemma RepeatedPlaceholderDistinct(entities: seq<EntityConfig>, i: nat, j: nat, p: int)
    requires i < j < |entities|
    requires entities[i].id == p && entities[j].id == p && IsPlaceholder(p)
    ensures Allocate(entities, p).Ok?
    ensures var a := Allocate(entities, p).value;
      Allocate(a.entities, p).Ok?
      && Allocate(a.entities, p).value.id > a.id
  {
    var k := FindEntity(entities, p).value;
    var a := Allocate(entities, p).value;
    assert k <= i;
    assert a.entities[j] == entities[j];
    assert FindEntity(a.entities, p).Some?;
    assert a.entities[k].id == a.id;
  }

  /** A device with ids 5, 1001 and a placeholder 2: the placeholder becomes 1002. */
  lemma AllocateExample()
    ensures var e := [EntityConfig(5, None, None, None), EntityConfig(1001, None, None, None),
                      EntityConfig(2, Some("AB12"), Some("CD34"), None)];
      Allocate(e, 2) == Ok(Allocation(e[2 := e[2].(id := 1002)], 1002))
  {
  }

  /** The press command for the given IR codes: always send_ir on data point PressDp. */
  function PressCommand(head: Option<string>, key1: Option<string>): (w: DpWrite)
    ensures w.dp == PressDp
    ensures w.payload.control == ControlMode
    ensures w.payload.commandType == 0 && w.payload.delay == 0
    ensures w.payload.head == head && w.payload.key1 == key1
  {
    DpWrite(Command(ControlMode, head, key1, 0, 0), PressDp)
  }

  /** Two press commands are equal exactly when their IR codes are. */
  lemma PressCommandDeterminedByCodes(h1: Option<string>, k1: Option<string>, h2: Option<string>, k2: Option<string>)
    ensures PressCommand(h1, k1) == PressCommand(h2, k2) <==> h1 == h2 && k1 == k2
  {
  }

  /** The configuration entry of one device: its shared, mutable list of entity records. */
  class ConfigEntry {
    var entities: seq<EntityConfig>

    constructor (entities: seq<EntityConfig>)
      ensures this.entities == entities
    {
      this.entities := entities;
    }

    /**
     * Resolves a button id in place: on success the list is the one
     * Allocate describes and the returned id is the button's; on failure
     * the list is untouched.
     */
    method AssignDynamicId(buttonId: int) returns (r: Result<int, SetupError>)
      modifies this
      ensures var spec := Allocate(old(entities), buttonId);
        match spec
        case Ok(a) => r == Ok(a.id) && entities == a.entities
        case Err(e) => r == Err(e) && entities == old(entities)
    {
      var id := buttonId;
      if IsPlaceholder(id) {
        if |entities| == 0 {
          return Err(NoEntities);
        }
        var next := NextDynamicId(entities);
        var found := FindEntity(entities, id);
        if found.None? {
          return Err(MissingEntityConfig(id));
        }
        var k := found.value;
        entities := entities[k := entities[k].(id := next)];
        id := next;
      }
      r := Ok(id);
    }
  }

  /** A constructed IR button: its resolved id, its record and the IR codes read from it. */
  class LocalTuyaButton {
    const id: int
    const config: EntityConfig
    const head: Option<string>
    const key1: Option<string>

    /**
     * Builds a button from its (possibly placeholder) id. The record must
     * exist: otherwise localtuya raises and no button is built.
     */
    constructor (entry: ConfigEntry, buttonId: int)
      requires FindEntity(entry.entities, buttonId).Some?
      modifies entry
      ensures Allocate(old(entry.entities), buttonId).Ok?
      ensures var a := Allocate(old(entry.entities), buttonId).value;
        entry.entities == a.entities && id == a.id
      ensures !IsPlaceholder(id)
      ensures FindEntity(entry.entities, id).Some?
        && config == entry.entities[FindEntity(entry.entities, id).value]
      ensures head == config.irHead && key1 == config.irKey1
    {
      var r := entry.AssignDynamicId(buttonId);
      var resolved := r.value;
      var k := FindEntity(entry.entities, resolved);
      assert k.Some? by {
        if IsPlaceholder(buttonId) {
          var j := FindEntity(old(entry.entities), buttonId).value;
          assert entry.entities[j].id == resolved;
        }
      }
      id := resolved;
      config := entry.entities[k.value];
      head := entry.entities[k.value].irHead;
      key1 := entry.entities[k.value].irKey1;
    }

    /** The button never reports itself unavailable. */
    function Available(): (r: bool)
      ensures r
    {
      true
    }

    /** The single write a press performs. It does not depend on the button's id. */
    method Press() returns (w: DpWrite)
      ensures w.dp == PressDp
      ensures w.payload == Command(ControlMode, head, key1, 0, 0)
    {
      w := PressCommand(head, key1);
    }
  }
}
