/** Connections that carry packets (network/network.go). */
module Connections {
  import opened Streams
  import opened Tags
  import opened Packets
  import opened Codec
  import opened CodecTheorems

  /** The tags of the booster protocol: `>`, `<`, `[`, `]` and `:`. */
  const PROTOCOL_TAGS := TagSet([62], [60], [91], [93], [58])

  /** `p` is the packet that `s` describes. */
  ghost predicate Carries(p: Packet, s: Sent) reads p {
    p.meta == s.meta && p.modules == ToMap(s.modules)
  }

  class Conn {
    const pe: Encoder
    const pd: Decoder
    var running: bool
    var err: bool

    constructor (r: Reader, w: Writer, t: TagSet)
      ensures !running && !err
      ensures pe.t == pd.t == t && pe.w == w && pd.r == r
    {
      pe := new Encoder(w, t);
      pd := new Decoder(r, t);
      running, err := false, false;
    }

    method Send(p: Packet) returns (ok: bool, ghost order: seq<Module>)
      requires p.Keyed()
      modifies pe.w
      ensures ok <==>
        1 <= |p.modules| <= 255 && forall id :: id in p.modules ==> |id| == 2
      ensures ok ==>
        IsOrdering(order, p.modules) && pe.w.out == old(pe.w.out) + EncodePacket(pe.t, p.meta, order)
    {
      hide EncodePacket;
      ok, order := pe.Encode(p);
    }

    method Recv() returns (p: Packet?)
      modifies this`running, pd.r
      ensures running == old(running)
      ensures old(running) ==> p == null && pd.r.rest == old(pd.r.rest)
      ensures !old(running) ==> (p != null <==> DecodePacket(pd.t, old(pd.r.rest)).Ok?)
      ensures p != null ==>
        var d := DecodePacket(pd.t, old(pd.r.rest)).value;
        fresh(p) && Carries(p, Sent(d.meta, d.modules)) && pd.r.rest == d.rest
    {
      hide DecodePacket;
      if running {
        return null;
      }
      running := true;
      var q := new Packet();
      var ok := pd.Decode(q);
      running := false;
      p := null;
      if ok {
        assert map[] + q.modules == q.modules;
        p := q;
      }
    }

    /** The packets sent down the channel until decoding fails. As in the source, the flag
        that marks the connection as running is cleared as soon as the consumer has been
        started, so it does not keep anybody else from reading. */
    method Consume() returns (started: bool, got: seq<Packet>)
      modifies this, pd.r
      ensures started == !old(running) && running == old(running)
      ensures started ==> err && |got| == |Consumed(pd.t, old(pd.r.rest))|
      ensures started ==> forall i :: 0 <= i < |got| ==>
        fresh(got[i]) && Carries(got[i], Consumed(pd.t, old(pd.r.rest))[i])
    {
      hide DecodePacket, Consumed, ToMap;
      got := [];
      if running {
        return false, got;
      }
      running := true;
      running := false;
      ghost var all := Consumed(pd.t, pd.r.rest);
      while true
        invariant |got| <= |all| && all[|got|..] == Consumed(pd.t, pd.r.rest)
        invariant forall i :: 0 <= i < |got| ==> fresh(got[i]) && Carries(got[i], all[i])
        invariant !running
        decreases |pd.r.rest|
      {
        DecodeProgress(pd.t, pd.r.rest);
        var p := new Packet();
        var ok := pd.Decode(p);
        if !ok {
          err := true;
          return true, got;
        }
        assert map[] + p.modules == p.modules;
        assert all[|got|..][1..] == all[|got| + 1..];
        got := got + [p];
      }
    }
  }

  lemma DecodeProgress(t: TagSet, s: seq<byte>)
    ensures var d := DecodePacket(t, s);
      if d.Fail? then Consumed(t, s) == []
      else
        && |d.value.rest| < |s|
        && |Consumed(t, s)| > 0
        && Consumed(t, s)[0] == Sent(d.value.meta, d.value.modules)
        && Consumed(t, s)[1..] == Consumed(t, d.value.rest)
  {
  }

  /** With the tags of the protocol every packet that an encoder takes comes back from any stream,
      and a connection that carries such packets and nothing else delivers just them. */
  lemma ProtocolCarriesAll(ps: seq<Sent>)
    requires forall i :: 0 <= i < |ps| ==> Encodable(ps[i].modules)
    ensures forall meta, ms, r :: Encodable(ms) ==> RoundTrips(PROTOCOL_TAGS, meta, ms, r)
    ensures Consumed(PROTOCOL_TAGS, EncodeStream(PROTOCOL_TAGS, ps)) == ps
  {
    TagSetsThatRoundTrip(PROTOCOL_TAGS);
    var s := EncodeStream(PROTOCOL_TAGS, ps);
    assert s + [] == s;
    StreamFraming(PROTOCOL_TAGS, ps, []);
    NothingConsumed(PROTOCOL_TAGS);
  }

  /** What a packet looks like on the wire, byte by byte: `>`, three bytes with `:` after each,
      the number of modules, for each module `[`, its identifier, the two bytes of its size, high
      byte first, and its payload with `:` between them, and `]`; and `<`. */
  function Wire(meta: Metadata, ms: seq<Module>): seq<byte>
    requires |ms| <= 255
  {
    [62, meta.encoding, 58, meta.compression, 58, meta.encryption, 58, |ms|] + WireModules(ms) + [60]
  }

  function WireModules(ms: seq<Module>): seq<byte> {
    if ms == [] then []
    else
      var m := ms[|ms| - 1];
      WireModules(ms[..|ms| - 1]) +
      [91] + m.id + [58, |m.payload| / 256 % 256, |m.payload| % 256, 58] + m.payload + [93]
  }

  lemma ModuleOnTheWire(m: Module)
    requires m.size == |m.payload|
    ensures EncodeModule(PROTOCOL_TAGS, m) ==
      [91] + m.id + [58, |m.payload| / 256 % 256, |m.payload| % 256, 58] + m.payload + [93]
  {
  }

  lemma {:induction false} ModulesOnTheWire(ms: seq<Module>)
    requires forall i :: 0 <= i < |ms| ==> ms[i].size == |ms[i].payload|
    ensures EncodeModules(PROTOCOL_TAGS, ms) == WireModules(ms)
  {
    if ms != [] {
      var last := ms[|ms| - 1];
      ModulesOnTheWire(ms[..|ms| - 1]);
      ModuleOnTheWire(last);
      var a := [91] + last.id + [58, |last.payload| / 256 % 256, |last.payload| % 256, 58] + last.payload + [93];
      hide EncodeModule;
      assert WireModules(ms) == WireModules(ms[..|ms| - 1]) + a;
    }
  }

  lemma PacketOnTheWire(meta: Metadata, ms: seq<Module>)
    requires Encodable(ms)
    ensures 1 <= |ms| <= 255 && EncodePacket(PROTOCOL_TAGS, meta, ms) == Wire(meta, ms)
  {
    ModulesOnTheWire(ms);
    var h := EncodeHeader(PROTOCOL_TAGS, meta);
    assert h == [62, meta.encoding, 58, meta.compression, 58, meta.encryption, 58];
    assert h + [|ms|] == [62, meta.encoding, 58, meta.compression, 58, meta.encryption, 58, |ms|];
    hide EncodeHeader, EncodeModules, WireModules;
  }

  lemma Flat(h: seq<byte>, id: seq<byte>, size: seq<byte>, payload: seq<byte>)
    ensures h + ([91] + id + size + payload + [93]) + [60] == (h + [91]) + id + size + payload + [93, 60]
  {
  }

  lemma OneModule(m: Module)
    requires 1 <= |m.payload| <= 65535
    ensures WireModules([m]) == [91] + m.id + [58, |m.payload| / 256, |m.payload| % 256, 58] + m.payload + [93]
  {
    assert [m][..0] == [];
    assert |m.payload| / 256 % 256 == |m.payload| / 256;
    var a := [91] + m.id + [58, |m.payload| / 256, |m.payload| % 256, 58] + m.payload + [93];
    assert [] + a == a;
  }

  /** Every packet of the encoder has that form, and a packet with one module is this string. */
  lemma OnTheWire(meta: Metadata, ms: seq<Module>)
    requires Encodable(ms)
    ensures 1 <= |ms| <= 255 && EncodePacket(PROTOCOL_TAGS, meta, ms) == Wire(meta, ms)
    ensures |ms| == 1 ==> var m := ms[0];
      && |m.id| == 2 && 1 <= |m.payload| <= 65535 && NewModule(m.id, m.payload) == Some(m)
      && EncodePacket(PROTOCOL_TAGS, meta, ms) ==
           [62, meta.encoding, 58, meta.compression, 58, meta.encryption, 58, 1, 91] + m.id
           + [58, |m.payload| / 256, |m.payload| % 256, 58] + m.payload + [93, 60]
  {
    PacketOnTheWire(meta, ms);
    if |ms| == 1 {
      var m := ms[0];
      assert ms == [m];
      OneModule(m);
      var h := [62, meta.encoding, 58, meta.compression, 58, meta.encryption, 58, 1];
      Flat(h, m.id, [58, |m.payload| / 256, |m.payload| % 256, 58], m.payload);
      assert h + [91] == [62, meta.encoding, 58, meta.compression, 58, meta.encryption, 58, 1, 91];
      hide EncodePacket, WireModules;
    }
  }

  /** The identifiers of the protocol, HE and PA, are taken, and others of that length; a module
      with the three bytes 1, 2, 3 under HE is on the wire as the last line says. */
  lemma ProtocolModules(meta: Metadata)
    ensures var m := Module([72, 69], 3, [1, 2, 3]);
      && NewModule([72, 69], [1, 2, 3]) == Some(m) && NewModule([80, 65], [1]).Some?
      && NewModule([72], [1]) == None && NewModule([72, 69, 65], [1]) == None && NewModule([72, 69], []) == None
      && EncodePacket(PROTOCOL_TAGS, meta, [m]) ==
           [62, meta.encoding, 58, meta.compression, 58, meta.encryption, 58, 1,
            91, 72, 69, 58, 0, 3, 58, 1, 2, 3, 93, 60]
  {
    OnTheWire(meta, [Module([72, 69], 3, [1, 2, 3])]);
  }
}
