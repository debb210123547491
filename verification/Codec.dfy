/** The packet format and its encoder and decoder
    (network/packet/encoder.go, network/packet/decoder.go). */
module Codec {
  import opened Streams
  import opened Tags
  import opened Packets

  // ----- The format: what the encoder writes -----

  function SizeBytes(size: nat): seq<byte> {
    [(size / 0x100) % 0x100, size % 0x100]
  }

  function SizeOf(sz: seq<byte>): nat
    requires |sz| == 2
  {
    sz[0] as int * 0x100 + sz[1] as int
  }

  function EncodeModule(t: TagSet, m: Module): seq<byte> {
    t.moduleOpening + m.id + t.separator + SizeBytes(m.size) + t.separator
    + m.payload + t.moduleClosing
  }

  function EncodeModules(t: TagSet, ms: seq<Module>): seq<byte> {
    if ms == [] then [] else EncodeModules(t, ms[..|ms| - 1]) + EncodeModule(t, ms[|ms| - 1])
  }

  function EncodeHeader(t: TagSet, meta: Metadata): seq<byte> {
    t.packetOpening + [meta.encoding] + t.separator + [meta.compression] + t.separator
    + [meta.encryption] + t.separator
  }

  /** The encoding of a packet whose modules are visited in the order `ms`. */
  function EncodePacket(t: TagSet, meta: Metadata, ms: seq<Module>): seq<byte> {
    EncodeHeader(t, meta) + [|ms| % 0x100] + EncodeModules(t, ms) + t.packetClosing
  }

  /** One more module of the map: what the encoder's loop keeps. */
  lemma EncodeExtend(t: TagSet, modules: map<ModuleId, Module>, left: set<ModuleId>,
    order: seq<Module>, id: ModuleId)
    requires id in left && left <= modules.Keys && modules[id].id == id
    requires IsOrdering(order, modules - left)
    ensures IsOrdering(order + [modules[id]], modules - (left - {id}))
    ensures EncodeModules(t, order + [modules[id]]) ==
            EncodeModules(t, order) + EncodeModule(t, modules[id])
  {
    ToMapExtend(order, modules[id]);
    assert modules - (left - {id}) == (modules - left)[id := modules[id]];
    assert (order + [modules[id]])[..|order|] == order;
  }

  lemma Reassociate(o: seq<byte>, a: seq<byte>, b: seq<byte>, c: seq<byte>, d: seq<byte>)
    ensures o + a + b + c + d == o + (a + b + c + d)
  {
  }

  class Encoder {
    const t: TagSet
    const w: Writer

    constructor (w: Writer, t: TagSet)
      ensures this.w == w && this.t == t
    {
      this.w, this.t := w, t;
    }

    method EncodeOne(m: Module) returns (ok: bool)
      modifies w
      ensures ok <==> |m.id| == 2
      ensures ok ==> w.out == old(w.out) + EncodeModule(t, m)
      ensures old(w.out) <= w.out
    {
      w.Write(t.moduleOpening);
      if |m.id| != ID_LENGTH {
        return false;
      }
      w.Write(m.id);
      w.Write(t.separator);
      w.Write(SizeBytes(m.size));
      w.Write(t.separator);
      w.Write(m.payload);
      w.Write(t.moduleClosing);
      ok := true;
    }

    method WriteHeader(meta: Metadata)
      modifies w
      ensures w.out == old(w.out) + EncodeHeader(t, meta)
    {
      w.Write(t.packetOpening);
      w.Write([meta.encoding]);
      w.Write(t.separator);
      w.Write([meta.compression]);
      w.Write(t.separator);
      w.Write([meta.encryption]);
      w.Write(t.separator);
    }

    /** The loop over the module map. */
    method EncodeAll(p: Packet) returns (ok: bool, ghost order: seq<Module>)
      requires p.Keyed()
      modifies w
      ensures ok <==> forall id :: id in p.modules ==> |id| == 2
      ensures ok ==> IsOrdering(order, p.modules)
      ensures ok ==> w.out == old(w.out) + EncodeModules(t, order)
      ensures old(w.out) <= w.out
    {
      hide EncodeModule;
      order := [];
      var left := p.modules.Keys;
      while left != {}
        invariant left <= p.modules.Keys
        invariant IsOrdering(order, p.modules - left)
        invariant w.out == old(w.out) + EncodeModules(t, order)
        invariant forall id :: id in p.modules.Keys - left ==> |id| == ID_LENGTH
      {
        var id :| id in left;
        var m := p.modules[id];
        ok := EncodeOne(m);
        if !ok {
          return false, order;
        }
        EncodeExtend(t, p.modules, left, order, id);
        left := left - {id};
        order := order + [m];
      }
      ok := true;
    }

    /** Writes `p`. The modules come in the order in which the map happens to be
        traversed, which is returned as `order`. */
    method Encode(p: Packet) returns (ok: bool, ghost order: seq<Module>)
      requires p.Keyed()
      modifies w
      ensures ok <==>
        1 <= |p.modules| <= 255 && forall id :: id in p.modules ==> |id| == 2
      ensures ok ==>
        IsOrdering(order, p.modules) && w.out == old(w.out) + EncodePacket(t, p.meta, order)
      ensures old(w.out) <= w.out
    {
      hide EncodeHeader, EncodeModules, ToMap, DistinctIds;
      order := [];
      WriteHeader(p.meta);
      var mn := |p.modules|;
      if mn < 1 || mn > MAX_MODULES {
        return false, order;
      }
      w.Write([mn]);
      ok, order := EncodeAll(p);
      if ok {
        ToMapSize(order);
        w.Write(t.packetClosing);
        Reassociate(old(w.out), EncodeHeader(t, p.meta), [mn], EncodeModules(t, order), t.packetClosing);
      }
    }
  }

  // ----- The decoder on values -----

  /** Passes a tag that the decoder insists on: `err == io.EOF` and nothing else. */
  function ExpectTag(tag: seq<byte>, size: nat, s: seq<byte>): Result<seq<byte>> {
    if ScanTag(tag, size, s) == EndOfFile then Ok(AfterTag(tag, size, s)) else Fail
  }

  /** Passes a separator of the packet header: a full buffer is no error there. */
  function SkipTag(tag: seq<byte>, size: nat, s: seq<byte>): Result<seq<byte>> {
    if ScanTag(tag, size, s) != Unexpected then Ok(AfterTag(tag, size, s)) else Fail
  }

  function DecodeModule(t: TagSet, s: seq<byte>): (r: Result<(Module, seq<byte>)>)
    ensures r.Ok? ==> |r.value.1| <= |s|
  {
    var s :- ExpectTag(t.moduleOpening, 2, s);
    var (id, s) :- Take(s, ID_LENGTH);
    var s :- ExpectTag(t.separator, 2, s);
    var (sz, s) :- Take(s, 2);
    var s :- ExpectTag(t.separator, 2, s);
    var size := SizeOf(sz);
    var (payload, s) :- Take(s, size);
    var s :- ExpectTag(t.moduleClosing, size, s);
    Ok((Module(id, size, payload), s))
  }

  function DecodeModules(t: TagSet, n: nat, s: seq<byte>): (r: Result<(seq<Module>, seq<byte>)>)
    ensures r.Ok? ==> |r.value.0| == n && |r.value.1| <= |s|
  {
    if n == 0 then Ok(([], s))
    else
      var (m, s) :- DecodeModule(t, s);
      var (ms, s) :- DecodeModules(t, n - 1, s);
      Ok(([m] + ms, s))
  }

  datatype Decoded = Decoded(meta: Metadata, modules: seq<Module>, rest: seq<byte>)

  function DecodeHeader(t: TagSet, s: seq<byte>): (r: Result<(Metadata, seq<byte>)>)
    ensures r.Ok? ==> |r.value.1| <= |s|
  {
    var s :- ExpectTag(t.packetOpening, 4, s);
    var (e, s) :- Take(s, 1);
    var s :- SkipTag(t.separator, 1, s);
    var (c, s) :- Take(s, 1);
    var s :- SkipTag(t.separator, 1, s);
    var (x, s) :- Take(s, 1);
    var s :- SkipTag(t.separator, 1, s);
    Ok((Metadata(e[0], c[0], x[0]), s))
  }

  /** The packet at the front of `s`, its modules in reading order, and what follows. */
  function DecodePacket(t: TagSet, s: seq<byte>): (r: Result<Decoded>)
    ensures r.Ok? ==> |r.value.rest| < |s| && |r.value.modules| <= 255
  {
    var (meta, s) :- DecodeHeader(t, s);
    var (mn, s) :- Take(s, 1);
    var (ms, s) :- DecodeModules(t, mn[0], s);
    var s :- ExpectTag(t.packetClosing, 4, s);
    Ok(Decoded(meta, ms, s))
  }

  /** Joins modules already read to the outcome of reading the others. */
  ghost function After(done: seq<Module>, r: Result<(seq<Module>, seq<byte>)>)
    : Result<(seq<Module>, seq<byte>)>
  {
    if r.Ok? then Ok((done + r.value.0, r.value.1)) else Fail
  }

  lemma AfterNone(r: Result<(seq<Module>, seq<byte>)>)
    ensures After([], r) == r
  {
    if r.Ok? {
      assert [] + r.value.0 == r.value.0;
    }
  }

  lemma AfterOne(t: TagSet, done: seq<Module>, n: nat, s: seq<byte>)
    requires n > 0
    ensures DecodeModule(t, s).Fail? ==> After(done, DecodeModules(t, n, s)).Fail?
    ensures DecodeModule(t, s).Ok? ==>
      var (m, s') := DecodeModule(t, s).value;
      After(done, DecodeModules(t, n, s)) == After(done + [m], DecodeModules(t, n - 1, s'))
  {
    if DecodeModule(t, s).Ok? {
      var (m, s') := DecodeModule(t, s).value;
      var r := DecodeModules(t, n - 1, s');
      if r.Ok? {
        assert done + ([m] + r.value.0) == (done + [m]) + r.value.0;
      }
    }
  }

  lemma AfterEnd(t: TagSet, done: seq<Module>, s: seq<byte>)
    ensures After(done, DecodeModules(t, 0, s)) == Ok((done, s))
  {
    assert done + [] == done;
  }

  class Decoder {
    const t: TagSet
    const r: Reader

    constructor (r: Reader, t: TagSet)
      ensures this.r == r && this.t == t
    {
      this.r, this.t := r, t;
    }

    method Expect(tr: TagReader, size: nat) returns (ok: bool)
      requires tr.Valid() && tr.cur == 0 && tr.r == r
      modifies tr, r
      ensures ok <==> ExpectTag(tr.tagRaw, size, old(r.rest)).Ok?
      ensures ok ==> ExpectTag(tr.tagRaw, size, old(r.rest)) == Ok(r.rest)
    {
      assert tr.tagRaw[0..] == tr.tagRaw;
      var _, err := tr.Read(size);
      ok := err == EndOfFile;
    }

    method Skip(tr: TagReader, size: nat) returns (ok: bool)
      requires tr.Valid() && tr.cur == 0 && tr.r == r
      modifies tr, r
      ensures ok <==> SkipTag(tr.tagRaw, size, old(r.rest)).Ok?
      ensures ok ==> SkipTag(tr.tagRaw, size, old(r.rest)) == Ok(r.rest)
      ensures ok ==> tr.Valid() && tr.cur == 0
    {
      assert tr.tagRaw[0..] == tr.tagRaw;
      var _, err := tr.Read(size);
      ok := err == NoError || err == EndOfFile;
      tr.Flush();
    }

    method DecodeOne() returns (got: Result<Module>)
      modifies r
      ensures got.Ok? <==> DecodeModule(t, old(r.rest)).Ok?
      ensures got.Ok? ==> DecodeModule(t, old(r.rest)) == Ok((got.value, r.rest))
    {
      var sr := new TagReader(r, t.separator);
      var otr := new TagReader(r, t.moduleOpening);
      var ctr := new TagReader(r, t.moduleClosing);
      var ok := Expect(otr, 2);
      if !ok { return Fail; }
      var id :- r.ReadFull(ID_LENGTH);
      ok := Expect(sr, 2);
      if !ok { return Fail; }
      sr.Flush();
      var sz :- r.ReadFull(2);
      var size := SizeOf(sz);
      ok := Expect(sr, 2);
      if !ok { return Fail; }
      var payload :- r.ReadFull(size);
      ok := Expect(ctr, size);
      if !ok { return Fail; }
      got := Ok(Module(id, size, payload));
    }

    method ReadHeader() returns (got: Result<Metadata>)
      modifies r
      ensures got.Ok? <==> DecodeHeader(t, old(r.rest)).Ok?
      ensures got.Ok? ==> DecodeHeader(t, old(r.rest)) == Ok((got.value, r.rest))
    {
      var str := new TagReader(r, t.separator);
      var otr := new TagReader(r, t.packetOpening);
      var ok := Expect(otr, 4);
      if !ok { return Fail; }
      var e :- r.ReadFull(1);
      ok := Skip(str, 1);
      if !ok { return Fail; }
      var c :- r.ReadFull(1);
      ok := Skip(str, 1);
      if !ok { return Fail; }
      var x :- r.ReadFull(1);
      ok := Skip(str, 1);
      if !ok { return Fail; }
      got := Ok(Metadata(e[0], c[0], x[0]));
    }

    /** The loop over the `mn` modules that the header announces. */
    method DecodeAll(mn: nat, p: Packet) returns (ok: bool)
      modifies r, p`modules
      ensures ok <==> DecodeModules(t, mn, old(r.rest)).Ok?
      ensures ok ==>
        var (ms, rest) := DecodeModules(t, mn, old(r.rest)).value;
        r.rest == rest && p.modules == old(p.modules) + ToMap(ms)
    {
      hide DecodeModules, After, DecodeModule;
      ghost var start := r.rest;
      ghost var done: seq<Module> := [];
      AfterNone(DecodeModules(t, mn, start));
      for i := 0 to mn
        invariant |done| == i
        invariant DecodeModules(t, mn, start) == After(done, DecodeModules(t, mn - i, r.rest))
        invariant p.modules == old(p.modules) + ToMap(done)
      {
        AfterOne(t, done, mn - i, r.rest);
        var m := DecodeOne();
        if m.Fail? { return false; }
        p.modules := p.modules[m.value.id := m.value];
        ToMapExtend(done, m.value);
        done := done + [m.value];
      }
      AfterEnd(t, done, r.rest);
      ok := true;
    }

    /** Fills `p` with the packet at the front of the stream. */
    method Decode(p: Packet) returns (ok: bool)
      modifies r, p
      ensures ok <==> DecodePacket(t, old(r.rest)).Ok?
      ensures ok ==>
        var d := DecodePacket(t, old(r.rest)).value;
        && r.rest == d.rest
        && p.meta == d.meta
        && p.modules == old(p.modules) + ToMap(d.modules)
    {
      var ctr := new TagReader(r, t.packetClosing);
      var meta := ReadHeader();
      if meta.Fail? { return false; }
      p.meta := meta.value;
      var mn := r.ReadFull(1);
      if mn.Fail? { return false; }
      ok := DecodeAll(mn.value[0], p);
      if ok {
        ok := Expect(ctr, 4);
      }
    }
  }
}
