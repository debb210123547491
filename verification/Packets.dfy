/** Packets and the modules they carry (network/packet/packet.go). */
module Packets {
  import opened Streams

  const ID_LENGTH := 2
  const MAX_PAYLOAD := 0xffff
  const MAX_MODULES := 0xff

  datatype Metadata = Metadata(encoding: byte, compression: byte, encryption: byte)

  type ModuleId = seq<byte>

  datatype Module = Module(id: ModuleId, size: nat, payload: seq<byte>)

  /** What `NewModule` guarantees of a module it builds. */
  predicate WellBuilt(m: Module) {
    |m.id| == ID_LENGTH && 1 <= |m.payload| <= MAX_PAYLOAD && m.size == |m.payload|
  }

  function NewModule(id: ModuleId, payload: seq<byte>): (r: Option<Module>)
    ensures r.Some? <==> |id| == 2 && 1 <= |payload| <= 65535
    ensures r.Some? ==> WellBuilt(r.value) && r.value == Module(id, |payload|, payload)
  {
    if |id| != ID_LENGTH || |payload| < 1 || |payload| > MAX_PAYLOAD then None
    else Some(Module(id, |payload|, payload))
  }

  /** The module map that inserting `ms` in order produces. */
  function ToMap(ms: seq<Module>): map<ModuleId, Module> {
    if ms == [] then map[]
    else ToMap(ms[..|ms| - 1])[ms[|ms| - 1].id := ms[|ms| - 1]]
  }

  predicate DistinctIds(ms: seq<Module>) {
    forall i, j :: 0 <= i < j < |ms| ==> ms[i].id != ms[j].id
  }

  /** `order` visits every module of the map once. */
  predicate IsOrdering(order: seq<Module>, modules: map<ModuleId, Module>) {
    DistinctIds(order) && ToMap(order) == modules
  }

  lemma {:induction false} ToMapHas(ms: seq<Module>, i: nat)
    requires i < |ms|
    ensures ms[i].id in ToMap(ms)
    ensures DistinctIds(ms) ==> ToMap(ms)[ms[i].id] == ms[i]
  {
    var init := ms[..|ms| - 1];
    if i < |init| {
      ToMapHas(init, i);
      assert init[i] == ms[i];
    }
  }

  lemma {:induction false} ToMapFrom(ms: seq<Module>, id: ModuleId)
    requires id in ToMap(ms)
    ensures ToMap(ms)[id] in ms && ToMap(ms)[id].id == id
  {
    if id != ms[|ms| - 1].id {
      ToMapFrom(ms[..|ms| - 1], id);
    }
  }

  lemma ToMapExtend(ms: seq<Module>, m: Module)
    ensures ToMap(ms + [m]) == ToMap(ms)[m.id := m]
    ensures DistinctIds(ms) && m.id !in ToMap(ms) ==> DistinctIds(ms + [m])
  {
    assert (ms + [m])[..|ms + [m]| - 1] == ms;
    forall i | 0 <= i < |ms|
      ensures ms[i].id in ToMap(ms)
    {
      ToMapHas(ms, i);
    }
  }

  lemma {:induction false} ToMapSize(ms: seq<Module>)
    requires DistinctIds(ms)
    ensures |ToMap(ms)| == |ms|
  {
    if ms != [] {
      var init, last := ms[..|ms| - 1], ms[|ms| - 1];
      ToMapSize(init);
      if last.id in ToMap(init) {
        ToMapFrom(init, last.id);
        assert false;
      }
    }
  }

  class Packet {
    var meta: Metadata
    var modules: map<ModuleId, Module>

    /** Every module is filed under its own identifier. */
    ghost predicate Keyed() reads this {
      forall id :: id in modules ==> modules[id].id == id
    }

    ghost predicate Built() reads this {
      Keyed() && forall id :: id in modules ==> WellBuilt(modules[id])
    }

    constructor ()
      ensures modules == map[] && Built()
    {
      meta, modules := Metadata(0, 0, 0), map[];
    }

    method AddModule(id: ModuleId, payload: seq<byte>) returns (m: Option<Module>)
      modifies this`modules
      ensures old(Built()) ==> Built()
      ensures m == if id in old(modules) then None else NewModule(id, payload)
      ensures modules == if m.Some? then old(modules)[id := m.value] else old(modules)
    {
      if id in modules {
        return None;
      }
      m := NewModule(id, payload);
      if m.Some? {
        modules := modules[id := m.value];
      }
    }

    method DelModule(id: ModuleId)
      modifies this`modules
      ensures old(Built()) ==> Built()
      ensures modules == old(modules) - {id}
    {
      modules := modules - {id};
    }

    method GetModule(id: ModuleId) returns (m: Option<Module>)
      ensures m.Some? <==> id in modules
      ensures m.Some? ==> m.value == modules[id]
    {
      m := if id in modules then Some(modules[id]) else None;
    }
  }
}
