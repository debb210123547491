/** What the packet format guarantees: exact acceptance, and from it the round trip,
    the truncations that go unnoticed, and the framing of a stream of packets. */
module CodecTheorems {
  import opened Streams
  import opened Tags
  import opened Packets
  import opened Codec

  // ----- Encodings in front of a continuation -----

  function ModuleThen(t: TagSet, m: Module, x: seq<byte>): seq<byte> {
    t.moduleOpening + (m.id + (t.separator + (SizeBytes(m.size) + (t.separator + (m.payload + x)))))
  }

  /** The modules `ms` up to the payload of the last one, and then `x`. */
  function ModulesThen(t: TagSet, ms: seq<Module>, x: seq<byte>): seq<byte> {
    if ms == [] then x
    else if |ms| == 1 then ModuleThen(t, ms[0], x)
    else ModuleThen(t, ms[0], t.moduleClosing + ModulesThen(t, ms[1..], x))
  }

  function HeaderThen(t: TagSet, meta: Metadata, x: seq<byte>): seq<byte> {
    t.packetOpening + ([meta.encoding] + (t.separator + ([meta.compression] + (t.separator
    + ([meta.encryption] + (t.separator + x))))))
  }

  /** A packet up to its last payload, and then `x`. */
  function FrameThen(t: TagSet, meta: Metadata, ms: seq<Module>, x: seq<byte>): seq<byte>
    requires |ms| <= MAX_MODULES
  {
    HeaderThen(t, meta, [|ms|] + ModulesThen(t, ms, x))
  }

  /** The tags that close the packet after its last payload. */
  function Closing(t: TagSet, ms: seq<Module>): seq<byte> {
    if ms == [] then t.packetClosing else t.moduleClosing + t.packetClosing
  }

  /** Nothing at all has to follow the last separator. */
  predicate Hollow(t: TagSet, ms: seq<Module>) {
    ms != [] && t.moduleClosing == [] && ms[|ms| - 1].payload == []
  }

  /** What may be missing at the end of a packet when the stream has ended. */
  function MayMiss(t: TagSet, ms: seq<Module>): seq<byte> {
    (if Hollow(t, ms) then t.separator else []) + Closing(t, ms)
  }

  // ----- The limits the decoder's buffers set -----

  /** The tags fit the buffers they are read through. */
  predicate TagsFit(t: TagSet) {
    && |t.packetOpening| <= 4
    && |t.packetClosing| <= 4
    && |t.separator| <= 1
    && |t.moduleOpening| <= 2
  }

  /** A module that can be read: as `NewModule` builds it, or with an empty payload. */
  predicate Readable(m: Module) {
    |m.id| == ID_LENGTH && m.size == |m.payload| <= MAX_PAYLOAD
  }

  /** And whose closing tag fits the buffer that its payload was read into. */
  predicate ModuleFits(t: TagSet, m: Module) {
    Readable(m) && |t.moduleClosing| <= |m.payload|
  }

  predicate ModulesFit(t: TagSet, ms: seq<Module>) {
    |ms| <= MAX_MODULES && forall i :: 0 <= i < |ms| ==> ModuleFits(t, ms[i])
  }

  // ----- One module -----

  lemma TagPassed(tag: seq<byte>, size: nat, s: seq<byte>)
    requires |tag| <= size && ExpectTag(tag, size, s).Ok?
    requires ExpectTag(tag, size, s).value != []
    ensures s == tag + ExpectTag(tag, size, s).value
  {
    ScanTagExact(tag, size, s, AfterTag(tag, size, s));
  }

  lemma TagPasses(tag: seq<byte>, size: nat, s: seq<byte>)
    requires |tag| <= size
    ensures ExpectTag(tag, size, tag + s) == Ok(s)
  {
    ScanTagExact(tag, size, tag + s, s);
  }

  /** A tag that does not fit its buffer is passed only where the stream ends. */
  lemma TagEnds(tag: seq<byte>, size: nat, s: seq<byte>)
    requires ExpectTag(tag, size, s).Ok?
    ensures TailOk(tag, s, ExpectTag(tag, size, s).value)
  {
    if |tag| <= size {
      ScanTagExact(tag, size, s, AfterTag(tag, size, s));
    }
  }

  lemma SizeRoundTrip(size: nat)
    requires size <= MAX_PAYLOAD
    ensures SizeOf(SizeBytes(size)) == size
  {
  }

  lemma SizeBack(sz: seq<byte>)
    requires |sz| == 2
    ensures SizeOf(sz) <= MAX_PAYLOAD && SizeBytes(SizeOf(sz)) == sz
  {
    assert SizeOf(sz) / 0x100 == sz[0];
  }

  /** A module up to its size bytes, and then `x`. */
  function SizedThen(t: TagSet, id: seq<byte>, size: nat, x: seq<byte>): seq<byte> {
    t.moduleOpening + (id + (t.separator + (SizeBytes(size) + x)))
  }

  /** The first half of what `DecodeModule` reads. */
  lemma SizeForward(t: TagSet, s: seq<byte>)
    requires TagsFit(t) && DecodeModule(t, s).Ok?
    ensures var s1 := ExpectTag(t.moduleOpening, 2, s).value;
      var (id, s2) := Take(s1, ID_LENGTH).value;
      var (sz, s4) := Take(ExpectTag(t.separator, 2, s2).value, 2).value;
      |sz| == 2 && s == SizedThen(t, id, SizeOf(sz), s4)
  {
    var s1 := ExpectTag(t.moduleOpening, 2, s).value;
    var (id, s2) := Take(s1, ID_LENGTH).value;
    TagPassed(t.moduleOpening, 2, s);
    var (sz, s4) := Take(ExpectTag(t.separator, 2, s2).value, 2).value;
    TagPassed(t.separator, 2, s2);
    SizeBack(sz);
  }

  /** Whatever decodes to a module is that module, with a closing tag that is there or was cut
      off. If there is no closing tag and no payload, the last separator `z` can be missing
      instead. */
  lemma ModuleForward(t: TagSet, s: seq<byte>) returns (x: seq<byte>, z: seq<byte>)
    requires TagsFit(t) && DecodeModule(t, s).Ok?
    ensures var (m, r) := DecodeModule(t, s).value;
      && s + z == ModuleThen(t, m, x)
      && (z == [] ==> TailOk(t.moduleClosing, x, r))
      && (z != [] ==> z == t.separator && x == [] && r == [] && Hollow(t, [m]))
  {
    hide ExpectTag, TailOk, SizeOf, SizeBytes;
    SizeForward(t, s);
    var s1 := ExpectTag(t.moduleOpening, 2, s).value;
    var (id, s2) := Take(s1, ID_LENGTH).value;
    var (sz, s4) := Take(ExpectTag(t.separator, 2, s2).value, 2).value;
    var s5 := ExpectTag(t.separator, 2, s4).value;
    var (payload, s6) := Take(s5, SizeOf(sz)).value;
    SeparatorEnds(t.separator, s4);
    TagEnds(t.moduleClosing, SizeOf(sz), s6);
    x := s6;
    if s4 == t.separator + s5 {
      z := [];
      assert s + z == s;
    } else {
      z := t.separator;
      assert s4 == [] && payload == [];
      NoTagInNoBuffer(t.moduleClosing);
      assert SizedThen(t, id, SizeOf(sz), s4) + z == SizedThen(t, id, SizeOf(sz), z);
      assert payload + x == [] && z + [] == z;
    }
  }

  /** A separator of at most one byte is there or, where the stream ends, is not. */
  lemma SeparatorEnds(sep: seq<byte>, s: seq<byte>)
    requires |sep| <= 1 && ExpectTag(sep, 2, s).Ok?
    ensures var r := ExpectTag(sep, 2, s).value; s == sep + r || (s == [] && r == [] && sep != [])
  {
    TagEnds(sep, 2, s);
  }

  lemma NoTagInNoBuffer(tag: seq<byte>)
    ensures ExpectTag(tag, 0, []).Ok? ==> tag == []
  {
  }

  /** Up to its closing tag, a module that was encoded is read back. */
  lemma ModuleThenDecodes(t: TagSet, m: Module, x: seq<byte>)
    requires |t.moduleOpening| <= 2 && |t.separator| <= 1 && Readable(m)
    ensures DecodeModule(t, ModuleThen(t, m, x)) ==
      var c := ExpectTag(t.moduleClosing, m.size, x); if c.Ok? then Ok((m, c.value)) else Fail
  {
    var s5 := m.payload + x;
    var s4 := t.separator + s5;
    var s3 := SizeBytes(m.size) + s4;
    var s2 := t.separator + s3;
    var s1 := m.id + s2;
    TagPasses(t.moduleOpening, 2, s1);
    assert Take(s1, ID_LENGTH) == Ok((m.id, s2));
    TagPasses(t.separator, 2, s3);
    assert Take(s3, 2) == Ok((SizeBytes(m.size), s4));
    TagPasses(t.separator, 2, s5);
    SizeRoundTrip(m.size);
    assert Take(s5, m.size) == Ok((m.payload, x));
  }

  lemma ModuleBackward(t: TagSet, m: Module, x: seq<byte>, r: seq<byte>)
    requires TagsFit(t) && ModuleFits(t, m) && TailOk(t.moduleClosing, x, r)
    ensures DecodeModule(t, ModuleThen(t, m, x)) == Ok((m, r))
  {
    hide DecodeModule, ModuleThen;
    ModuleThenDecodes(t, m, x);
    ScanTagExact(t.moduleClosing, m.size, x, r);
  }

  lemma NoModuleInNothing(t: TagSet)
    ensures DecodeModule(t, []).Fail?
  {
  }

  // ----- The modules of a packet -----

  lemma {:induction false} ModulesForward(t: TagSet, n: nat, s: seq<byte>) returns (x: seq<byte>, z: seq<byte>)
    requires TagsFit(t) && DecodeModules(t, n, s).Ok?
    ensures var (ms, r) := DecodeModules(t, n, s).value;
      && s + z == ModulesThen(t, ms, x)
      && (z == [] ==> if n == 0 then x == r else TailOk(t.moduleClosing, x, r))
      && (z != [] ==> z == t.separator && x == [] && r == [] && Hollow(t, ms))
  {
    hide DecodeModule, ModuleThen;
    if n == 0 {
      x, z := s, [];
    } else {
      var (m, s1) := DecodeModule(t, s).value;
      var (ms, r) := DecodeModules(t, n - 1, s1).value;
      assert ([m] + ms)[0] == m && ([m] + ms)[1..] == ms;
      var y, w := ModuleForward(t, s);
      if n == 1 {
        assert [m] + ms == [m];
        x, z := y, w;
      } else {
        NoModuleInNothing(t);
        assert w == [] && s + w == s && y == t.moduleClosing + s1;
        x, z := ModulesForward(t, n - 1, s1);
        ModuleThenAppends(t, m, y, z);
        assert y + z == t.moduleClosing + (s1 + z);
      }
    }
  }

  lemma ModuleThenAppends(t: TagSet, m: Module, x: seq<byte>, y: seq<byte>)
    ensures ModuleThen(t, m, x) + y == ModuleThen(t, m, x + y)
  {
  }

  lemma {:induction false} ModulesBackward(t: TagSet, ms: seq<Module>, x: seq<byte>, r: seq<byte>)
    requires TagsFit(t) && ModulesFit(t, ms)
    requires if ms == [] then x == r else TailOk(t.moduleClosing, x, r)
    ensures DecodeModules(t, |ms|, ModulesThen(t, ms, x)) == Ok((ms, r))
  {
    hide DecodeModule, ModuleThen;
    if |ms| == 1 {
      ModuleBackward(t, ms[0], x, r);
      assert [ms[0]] + [] == ms;
      assert DecodeModules(t, 0, r) == Ok(([], r));
    } else if ms != [] {
      var y := ModulesThen(t, ms[1..], x);
      ModuleBackward(t, ms[0], t.moduleClosing + y, y);
      ModulesBackward(t, ms[1..], x, r);
      assert [ms[0]] + ms[1..] == ms;
    }
  }

  // ----- The header -----

  lemma SeparatorSkipped(sep: seq<byte>, s: seq<byte>)
    requires |sep| <= 1
    ensures SkipTag(sep, 1, s) == ExpectTag(sep, 1, s)
  {
  }

  /** One byte of the header and the separator after it. */
  lemma FieldForward(sep: seq<byte>, s: seq<byte>)
    requires |sep| <= 1 && s != []
    requires SkipTag(sep, 1, s[1..]).Ok? && SkipTag(sep, 1, s[1..]).value != []
    ensures s == [s[0]] + (sep + SkipTag(sep, 1, s[1..]).value)
  {
    TagPassed(sep, 1, s[1..]);
  }

  lemma HeaderForward(t: TagSet, s: seq<byte>)
    requires TagsFit(t) && DecodeHeader(t, s).Ok? && DecodeHeader(t, s).value.1 != []
    ensures var (meta, r) := DecodeHeader(t, s).value; s == HeaderThen(t, meta, r)
  {
    hide SkipTag;
    var s1 := ExpectTag(t.packetOpening, 4, s).value;
    TagPassed(t.packetOpening, 4, s);
    var s3 := SkipTag(t.separator, 1, s1[1..]).value;
    FieldForward(t.separator, s1);
    var s5 := SkipTag(t.separator, 1, s3[1..]).value;
    FieldForward(t.separator, s3);
    FieldForward(t.separator, s5);
  }

  lemma HeaderBackward(t: TagSet, meta: Metadata, r: seq<byte>)
    requires |t.packetOpening| <= 4 && |t.separator| <= 1
    ensures DecodeHeader(t, HeaderThen(t, meta, r)) == Ok((meta, r))
  {
    var s5 := [meta.encryption] + (t.separator + r);
    var s3 := [meta.compression] + (t.separator + s5);
    var s1 := [meta.encoding] + (t.separator + s3);
    TagPasses(t.packetOpening, 4, s1);
    assert Take(s1, 1) == Ok(([meta.encoding], t.separator + s3));
    SeparatorSkipped(t.separator, t.separator + s3);
    TagPasses(t.separator, 1, s3);
    assert Take(s3, 1) == Ok(([meta.compression], t.separator + s5));
    SeparatorSkipped(t.separator, t.separator + s5);
    TagPasses(t.separator, 1, s5);
    assert Take(s5, 1) == Ok(([meta.encryption], t.separator + r));
    SeparatorSkipped(t.separator, t.separator + r);
    TagPasses(t.separator, 1, r);
  }

  // ----- The packet -----

  lemma PacketForward(t: TagSet, s: seq<byte>) returns (x: seq<byte>, z: seq<byte>)
    requires TagsFit(t) && DecodePacket(t, s).Ok?
    ensures var d := DecodePacket(t, s).value;
      && s + z == FrameThen(t, d.meta, d.modules, x)
      && (z == [] ==> TailOk(Closing(t, d.modules), x, d.rest))
      && (z != [] ==> z == t.separator && x == [] && d.rest == [] && Hollow(t, d.modules))
  {
    hide DecodeHeader, DecodeModules, HeaderThen, ModulesThen;
    var (meta, s1) := DecodeHeader(t, s).value;
    var (mn, s2) := Take(s1, 1).value;
    var (ms, s3) := DecodeModules(t, mn[0], s2).value;
    HeaderForward(t, s);
    x, z := ModulesForward(t, mn[0], s2);
    assert mn == [mn[0]] == [|ms|];
    assert s1 + z == [|ms|] + (s2 + z);
    HeaderThenAppends(t, meta, s1, z);
    var r := ExpectTag(t.packetClosing, 4, s3).value;
    ScanTagExact(t.packetClosing, 4, s3, r);
    TailOkJoins(t.moduleClosing, t.packetClosing, x, r);
  }

  lemma HeaderThenAppends(t: TagSet, meta: Metadata, x: seq<byte>, y: seq<byte>)
    ensures HeaderThen(t, meta, x) + y == HeaderThen(t, meta, x + y)
  {
  }

  lemma PacketBackward(t: TagSet, meta: Metadata, ms: seq<Module>, x: seq<byte>, r: seq<byte>)
    requires TagsFit(t) && ModulesFit(t, ms) && TailOk(Closing(t, ms), x, r)
    ensures DecodePacket(t, FrameThen(t, meta, ms, x)) == Ok(Decoded(meta, ms, r))
  {
    hide DecodeHeader, DecodeModules, HeaderThen, ModulesThen;
    TailOkJoins(t.moduleClosing, t.packetClosing, x, r);
    var m :| (if ms == [] then x == m else TailOk(t.moduleClosing, x, m)) && TailOk(t.packetClosing, m, r);
    var s2 := ModulesThen(t, ms, x);
    HeaderBackward(t, meta, [|ms|] + s2);
    assert Take([|ms|] + s2, 1) == Ok(([|ms|], s2));
    ModulesBackward(t, ms, x, m);
    ScanTagExact(t.packetClosing, 4, m, r);
  }

  // ----- What the encoder writes is such a frame -----

  lemma ModuleIsThen(t: TagSet, m: Module, x: seq<byte>)
    ensures EncodeModule(t, m) + x == ModuleThen(t, m, t.moduleClosing + x)
  {
  }

  lemma {:induction false} ModulesThenSnoc(t: TagSet, ms: seq<Module>, m: Module, x: seq<byte>)
    ensures ModulesThen(t, ms + [m], x) ==
      if ms == [] then ModuleThen(t, m, x)
      else ModulesThen(t, ms, t.moduleClosing + ModuleThen(t, m, x))
  {
    hide ModuleThen;
    if ms != [] {
      assert (ms + [m])[1..] == ms[1..] + [m];
      ModulesThenSnoc(t, ms[1..], m, x);
    }
  }

  lemma {:induction false} ModulesAreThen(t: TagSet, ms: seq<Module>, x: seq<byte>)
    ensures EncodeModules(t, ms) + x ==
      ModulesThen(t, ms, if ms == [] then x else t.moduleClosing + x)
  {
    hide ModuleThen, EncodeModule;
    if ms != [] {
      var init, last := ms[..|ms| - 1], ms[|ms| - 1];
      var e := EncodeModule(t, last);
      assert init + [last] == ms;
      ModulesAreThen(t, init, e + x);
      assert (EncodeModules(t, init) + e) + x == EncodeModules(t, init) + (e + x);
      ModuleIsThen(t, last, x);
      ModulesThenSnoc(t, init, last, t.moduleClosing + x);
    }
  }

  lemma HeaderIsThen(t: TagSet, meta: Metadata, x: seq<byte>)
    ensures EncodeHeader(t, meta) + x == HeaderThen(t, meta, x)
  {
  }

  lemma PacketIsFrame(t: TagSet, meta: Metadata, ms: seq<Module>, x: seq<byte>)
    requires |ms| <= MAX_MODULES
    ensures EncodePacket(t, meta, ms) + x == FrameThen(t, meta, ms, Closing(t, ms) + x)
  {
    hide EncodeHeader, EncodeModules, HeaderThen, ModulesThen;
    var h, e := EncodeHeader(t, meta), EncodeModules(t, ms);
    assert |ms| % 0x100 == |ms|;
    assert (h + [|ms|] + e + t.packetClosing) + x == h + ([|ms|] + (e + (t.packetClosing + x)));
    ModulesAreThen(t, ms, t.packetClosing + x);
    assert t.moduleClosing + (t.packetClosing + x) == (t.moduleClosing + t.packetClosing) + x;
    HeaderIsThen(t, meta, [|ms|] + (e + (t.packetClosing + x)));
  }

  lemma {:induction false} ModulesThenSplits(t: TagSet, ms: seq<Module>, x: seq<byte>)
    ensures ModulesThen(t, ms, x) == ModulesThen(t, ms, []) + x
  {
    if |ms| > 1 {
      ModulesThenSplits(t, ms[1..], x);
      var y := ModulesThen(t, ms[1..], []);
      ModuleThenSplits(t, ms[0], t.moduleClosing + y);
      ModuleThenSplits(t, ms[0], t.moduleClosing + (y + x));
    } else if |ms| == 1 {
      ModuleThenSplits(t, ms[0], x);
    }
  }

  lemma ModuleThenSplits(t: TagSet, m: Module, x: seq<byte>)
    ensures ModuleThen(t, m, x) == ModuleThen(t, m, []) + x
  {
  }

  lemma FrameSplits(t: TagSet, meta: Metadata, ms: seq<Module>, x: seq<byte>)
    requires |ms| <= MAX_MODULES
    ensures FrameThen(t, meta, ms, x) == FrameThen(t, meta, ms, []) + x
  {
    hide EncodeHeader, ModulesThen;
    ModulesThenSplits(t, ms, x);
    var y := ModulesThen(t, ms, []);
    HeaderIsThen(t, meta, [|ms|] + (y + x));
    HeaderIsThen(t, meta, [|ms|] + y);
    assert EncodeHeader(t, meta) + ([|ms|] + (y + x)) == EncodeHeader(t, meta) + ([|ms|] + y) + x;
  }

  // ----- Exact acceptance -----

  /** `s` is the encoding of the packet, followed by `r`, or it ends within the tags that
      close the packet. */
  predicate Encodes(t: TagSet, meta: Metadata, ms: seq<Module>, s: seq<byte>, r: seq<byte>) {
    var e := EncodePacket(t, meta, ms);
    s == e + r || (r == [] && s <= e && |e| <= |s| + |MayMiss(t, ms)|)
  }

  /** Whatever is accepted re-encodes, in reading order, to the bytes consumed, unless the
      stream ended inside the closing tags, or before the separator in front of them if there
      is nothing in between. No input is excluded, not even one that repeats an identifier. */
  lemma AcceptedReencodes(t: TagSet, s: seq<byte>)
    requires TagsFit(t) && DecodePacket(t, s).Ok?
    ensures var d := DecodePacket(t, s).value; Encodes(t, d.meta, d.modules, s, d.rest)
  {
    hide EncodePacket, DecodePacket, FrameThen;
    var d := DecodePacket(t, s).value;
    var c, f := Closing(t, d.modules), FrameThen(t, d.meta, d.modules, []);
    EncodedIsFrame(t, d.meta, d.modules);
    var x, z := PacketForward(t, s);
    FrameSplits(t, d.meta, d.modules, x);
    if z != [] {
      assert f + [] == f;
    } else if x == c + d.rest {
      assert s + z == s && f + (c + d.rest) == (f + c) + d.rest;
    } else {
      assert s + z == s;
    }
  }

  lemma EncodedIsFrame(t: TagSet, meta: Metadata, ms: seq<Module>)
    requires |ms| <= MAX_MODULES
    ensures EncodePacket(t, meta, ms) == FrameThen(t, meta, ms, []) + Closing(t, ms)
  {
    hide EncodePacket, FrameThen;
    var e, c := EncodePacket(t, meta, ms), Closing(t, ms);
    PacketIsFrame(t, meta, ms, []);
    FrameSplits(t, meta, ms, c);
    assert e == e + [] && c == c + [];
  }

  // ----- Nothing between the last separator and the end -----

  /** The size bytes of an empty payload, and then nothing. */
  lemma SizeThenNothing(size: nat)
    requires size <= MAX_PAYLOAD
    ensures Take(SizeBytes(size), 2) == Ok((SizeBytes(size), [])) && SizeOf(SizeBytes(size)) == size
  {
    SizeRoundTrip(size);
    assert SizeBytes(size)[..2] == SizeBytes(size) && SizeBytes(size)[2..] == [];
  }

  lemma NothingExpected(tag: seq<byte>, size: nat)
    requires tag == [] || size > 0
    ensures ExpectTag(tag, size, []) == Ok([])
  {
  }

  lemma HollowModule(t: TagSet, m: Module) returns (s: seq<byte>)
    requires TagsFit(t) && Readable(m) && Hollow(t, [m])
    ensures ModuleThen(t, m, []) == s + t.separator && DecodeModule(t, s) == Ok((m, []))
  {
    hide ExpectTag, SizeOf, SizeBytes;
    var s4 := SizeBytes(m.size);
    var s2 := t.separator + s4;
    s := t.moduleOpening + (m.id + s2);
    assert m.payload + [] == [] && t.separator + [] == t.separator;
    TagPasses(t.moduleOpening, 2, m.id + s2);
    assert Take(m.id + s2, ID_LENGTH) == Ok((m.id, s2));
    TagPasses(t.separator, 2, s4);
    SizeThenNothing(m.size);
    NothingExpected(t.separator, 2);
    NothingExpected(t.moduleClosing, 0);
    assert Take([], 0) == Ok(([], []));
  }

  lemma {:induction false} HollowModules(t: TagSet, ms: seq<Module>) returns (s: seq<byte>)
    requires TagsFit(t) && ModulesFit(t, ms) && Hollow(t, ms)
    ensures ModulesThen(t, ms, []) == s + t.separator && DecodeModules(t, |ms|, s) == Ok((ms, []))
  {
    hide DecodeModule, ModuleThen;
    if |ms| == 1 {
      assert ms == [ms[0]];
      s := HollowModule(t, ms[0]);
      assert DecodeModules(t, 0, []) == Ok(([], [])) && [ms[0]] + [] == ms;
    } else {
      var y := HollowModules(t, ms[1..]);
      s := ModuleThen(t, ms[0], y);
      ModuleThenAppends(t, ms[0], y, t.separator);
      assert t.moduleClosing + (y + t.separator) == y + t.separator;
      assert y == t.moduleClosing + y;
      ModuleBackward(t, ms[0], y, y);
      assert [ms[0]] + ms[1..] == ms;
    }
  }

  lemma HollowPacket(t: TagSet, meta: Metadata, ms: seq<Module>) returns (s: seq<byte>)
    requires TagsFit(t) && ModulesFit(t, ms) && Hollow(t, ms)
    ensures FrameThen(t, meta, ms, []) == s + t.separator && DecodePacket(t, s) == Ok(Decoded(meta, ms, []))
  {
    hide DecodeHeader, DecodeModules, HeaderThen, ModulesThen;
    var y := HollowModules(t, ms);
    var s1 := [|ms|] + y;
    s := HeaderThen(t, meta, s1);
    assert s1 + t.separator == [|ms|] + (y + t.separator);
    HeaderThenAppends(t, meta, s1, t.separator);
    HeaderBackward(t, meta, s1);
    assert Take(s1, 1) == Ok(([|ms|], y));
    assert ExpectTag(t.packetClosing, 4, []) == Ok([]);
  }

  /** The decoder accepts exactly the encodings, and those encodings of which nothing but
      (part of) the last module's and the packet's closing tags is missing because the
      stream ended. */
  lemma AcceptedExactly(t: TagSet, s: seq<byte>, meta: Metadata, ms: seq<Module>, r: seq<byte>)
    requires TagsFit(t) && ModulesFit(t, ms)
    ensures DecodePacket(t, s) == Ok(Decoded(meta, ms, r)) <==> Encodes(t, meta, ms, s, r)
  {
    hide EncodePacket, DecodePacket, FrameThen;
    if DecodePacket(t, s) == Ok(Decoded(meta, ms, r)) {
      AcceptedReencodes(t, s);
    } else if Encodes(t, meta, ms, s, r) {
      EncodingsAccepted(t, s, meta, ms, r);
    }
  }

  lemma EncodingsAccepted(t: TagSet, s: seq<byte>, meta: Metadata, ms: seq<Module>, r: seq<byte>)
    requires TagsFit(t) && ModulesFit(t, ms) && Encodes(t, meta, ms, s, r)
    ensures DecodePacket(t, s) == Ok(Decoded(meta, ms, r))
  {
    hide EncodePacket, DecodePacket, FrameThen;
    var e, c, f := EncodePacket(t, meta, ms), Closing(t, ms), FrameThen(t, meta, ms, []);
    EncodedIsFrame(t, meta, ms);
    if s == e + r {
      PacketIsFrame(t, meta, ms, r);
      PacketBackward(t, meta, ms, c + r, r);
    } else if |s| >= |f| {
      var x := c[..|s| - |f|];
      assert s == f + x;
      FrameSplits(t, meta, ms, x);
      PacketBackward(t, meta, ms, x, r);
    } else {
      var y := HollowPacket(t, meta, ms);
      assert s == e[..|s|] && |s| == |y| && y == e[..|s|];
    }
  }

  // ----- Round trip -----

  /** A packet the encoder takes: 1 to 255 modules, each built by `NewModule`, no
      identifier twice. */
  predicate Encodable(ms: seq<Module>) {
    && 1 <= |ms| <= MAX_MODULES
    && DistinctIds(ms)
    && forall i :: 0 <= i < |ms| ==> WellBuilt(ms[i])
  }

  predicate RoundTrips(t: TagSet, meta: Metadata, ms: seq<Module>, r: seq<byte>) {
    DecodePacket(t, EncodePacket(t, meta, ms) + r) == Ok(Decoded(meta, ms, r))
  }

  /** Whatever order the map is traversed in, decoding gives back the metadata and the
      module map, and leaves exactly what followed. */
  lemma PacketRoundTrip(t: TagSet, meta: Metadata, modules: map<ModuleId, Module>,
    order: seq<Module>, r: seq<byte>)
    requires TagsFit(t) && ModulesFit(t, order) && IsOrdering(order, modules)
    ensures RoundTrips(t, meta, order, r)
    ensures ToMap(DecodePacket(t, EncodePacket(t, meta, order) + r).value.modules) == modules
  {
    AcceptedExactly(t, EncodePacket(t, meta, order) + r, meta, order, r);
  }

  /** A tag set carries every encodable packet exactly when its tags fit the buffers of
      the decoder and its module closing tag fits a payload of one byte. */
  lemma TagSetsThatRoundTrip(t: TagSet)
    ensures (forall meta, ms, r :: Encodable(ms) ==> RoundTrips(t, meta, ms, r)) <==>
            && |t.packetOpening| <= 4 && |t.packetClosing| <= 4 && |t.separator| <= 1
            && |t.moduleOpening| <= 2 && |t.moduleClosing| <= 1
  {
    hide EncodePacket, DecodePacket;
    if TagsFit(t) && |t.moduleClosing| <= 1 {
      forall meta, ms, r | Encodable(ms)
        ensures RoundTrips(t, meta, ms, r)
      {
        AcceptedExactly(t, EncodePacket(t, meta, ms) + r, meta, ms, r);
      }
    } else {
      var compression: byte := if |t.separator| > 1 && t.separator[1] == 0 then 1 else 0;
      var meta := Metadata(0, compression, 0);
      var ms := [Module([0, 0], 1, [0])];
      assert Encodable(ms);
      TagsThatDoNotFit(t, meta, ms);
    }
  }

  /** The header's one-byte buffer takes the second byte of a longer separator for the
      field that should follow it. */
  lemma LongSeparator(t: TagSet, meta: Metadata, x: seq<byte>)
    requires |t.packetOpening| <= 4 && |t.separator| > 1
    ensures var h := DecodeHeader(t, HeaderThen(t, meta, x));
      h.Ok? ==> h.value.0.compression == t.separator[1]
  {
    var s2 := t.separator + ([meta.compression] + (t.separator + ([meta.encryption] + (t.separator + x))));
    TagPasses(t.packetOpening, 4, [meta.encoding] + s2);
    assert Take([meta.encoding] + s2, 1) == Ok(([meta.encoding], s2));
    assert t.separator[..1] <= s2 && s2[1] == t.separator[1];
    assert SkipTag(t.separator, 1, s2) == Ok(s2[1..]);
    assert Take(s2[1..], 1).value.0 == [t.separator[1]];
  }

  lemma LongTag(tag: seq<byte>, size: nat, x: seq<byte>)
    requires |tag| > size
    ensures ExpectTag(tag, size, tag + x).Fail?
  {
    assert tag[..size] <= tag + x;
  }

  lemma TagsThatDoNotFit(t: TagSet, meta: Metadata, ms: seq<Module>)
    requires |ms| == 1 && WellBuilt(ms[0]) && |ms[0].payload| == 1
    requires |t.separator| > 1 ==> meta.compression != t.separator[1]
    requires !(TagsFit(t) && |t.moduleClosing| <= 1)
    ensures !RoundTrips(t, meta, ms, [])
  {
    hide EncodePacket, DecodeHeader, DecodeModule, ModuleThen, ExpectTag;
    var m := ms[0];
    var x := t.moduleClosing + (t.packetClosing + []);
    assert Closing(t, ms) + [] == x;
    PacketIsFrame(t, meta, ms, []);
    var rest := [|ms|] + ModulesThen(t, ms, x);
    if |t.packetOpening| > 4 {
      FrameHeaderFails(t, meta, rest);
    } else if |t.separator| > 1 {
      LongSeparator(t, meta, rest);
    } else {
      HeaderBackward(t, meta, rest);
      assert Take(rest, 1) == Ok(([1], ModuleThen(t, m, x)));
      if |t.moduleOpening| > 2 {
        OpeningFails(t, m, x);
      } else {
        ModuleThenDecodes(t, m, x);
        if |t.moduleClosing| > 1 {
          LongTag(t.moduleClosing, 1, t.packetClosing + []);
        } else {
          TagPasses(t.moduleClosing, 1, t.packetClosing + []);
          LongTag(t.packetClosing, 4, []);
          assert DecodeModules(t, 0, t.packetClosing + []) == Ok(([], t.packetClosing + []));
        }
      }
    }
  }

  lemma FrameHeaderFails(t: TagSet, meta: Metadata, x: seq<byte>)
    requires |t.packetOpening| > 4
    ensures DecodeHeader(t, HeaderThen(t, meta, x)).Fail?
  {
    HeaderIsThen(t, meta, x);
    assert t.packetOpening[..4] <= HeaderThen(t, meta, x);
  }

  lemma OpeningFails(t: TagSet, m: Module, x: seq<byte>)
    requires |t.moduleOpening| > 2
    ensures DecodeModule(t, ModuleThen(t, m, x)).Fail?
  {
    assert t.moduleOpening[..2] <= ModuleThen(t, m, x);
  }

  // ----- Truncation -----

  lemma TagGrows(tag: seq<byte>, size: nat, s: seq<byte>, y: seq<byte>)
    requires ExpectTag(tag, size, s).Ok? && ExpectTag(tag, size, s).value != []
    ensures ExpectTag(tag, size, s + y) == Ok(ExpectTag(tag, size, s).value + y)
  {
    var n := |tag|;
    assert (s + y)[n..] == s[n..] + y;
  }

  lemma SeparatorGrows(tag: seq<byte>, s: seq<byte>, y: seq<byte>)
    requires SkipTag(tag, 1, s).Ok? && SkipTag(tag, 1, s).value != []
    ensures SkipTag(tag, 1, s + y) == Ok(SkipTag(tag, 1, s).value + y)
  {
    var n := if |tag| <= 1 then |tag| else 1;
    assert (s + y)[n..] == s[n..] + y;
  }

  lemma TakeGrows(s: seq<byte>, n: nat, y: seq<byte>)
    requires n <= |s|
    ensures Take(s + y, n) == Ok((s[..n], s[n..] + y))
  {
    assert (s + y)[..n] == s[..n];
    assert (s + y)[n..] == s[n..] + y;
  }

  lemma HeaderGrows(t: TagSet, s: seq<byte>, y: seq<byte>)
    requires DecodeHeader(t, s).Ok? && DecodeHeader(t, s).value.1 != []
    ensures var (meta, r) := DecodeHeader(t, s).value;
      DecodeHeader(t, s + y) == Ok((meta, r + y))
  {
    hide ExpectTag, SkipTag;
    var s1 := ExpectTag(t.packetOpening, 4, s).value;
    TagGrows(t.packetOpening, 4, s, y);
    TakeGrows(s1, 1, y);
    var s3 := SkipTag(t.separator, 1, s1[1..]).value;
    SeparatorGrows(t.separator, s1[1..], y);
    TakeGrows(s3, 1, y);
    var s5 := SkipTag(t.separator, 1, s3[1..]).value;
    SeparatorGrows(t.separator, s3[1..], y);
    TakeGrows(s5, 1, y);
    SeparatorGrows(t.separator, s5[1..], y);
  }

  lemma TagOfNothing(tag: seq<byte>, size: nat)
    ensures ExpectTag(tag, size, []).Ok? ==> ExpectTag(tag, size, []).value == []
  {
  }

  /** More bytes cannot turn a module that was read into another one. */
  lemma ModuleGrows(t: TagSet, s: seq<byte>, y: seq<byte>)
    requires DecodeModule(t, s).Ok?
    ensures var (m, r) := DecodeModule(t, s).value;
      var g := DecodeModule(t, s + y);
      g.Ok? ==> g.value.0 == m && (r != [] ==> g.value.1 == r + y)
  {
    hide ExpectTag;
    var s1 := ExpectTag(t.moduleOpening, 2, s).value;
    TagGrows(t.moduleOpening, 2, s, y);
    TakeGrows(s1, 2, y);
    var s3 := ExpectTag(t.separator, 2, s1[2..]).value;
    TagGrows(t.separator, 2, s1[2..], y);
    TakeGrows(s3, 2, y);
    var s5 := ExpectTag(t.separator, 2, s3[2..]).value;
    var size := SizeOf(s3[..2]);
    if s5 != [] {
      TagGrows(t.separator, 2, s3[2..], y);
      TakeGrows(s5, size, y);
      var s7 := ExpectTag(t.moduleClosing, size, s5[size..]).value;
      if s7 != [] {
        TagGrows(t.moduleClosing, size, s5[size..], y);
      }
    } else {
      TagOfNothing(t.moduleClosing, size);
    }
  }

  lemma {:induction false} ModulesGrow(t: TagSet, n: nat, s: seq<byte>, y: seq<byte>)
    requires DecodeModules(t, n, s).Ok?
    ensures var (ms, r) := DecodeModules(t, n, s).value;
      var g := DecodeModules(t, n, s + y);
      g.Ok? ==> g.value.0 == ms && (n > 0 && r != [] ==> g.value.1 == r + y)
  {
    hide DecodeModule;
    if n > 0 {
      ModuleGrows(t, s, y);
      if n > 1 && DecodeModule(t, s + y).Ok? {
        NoModuleInNothing(t);
        ModulesGrow(t, n - 1, DecodeModule(t, s).value.1, y);
      }
    }
  }

  /** More bytes cannot turn a packet that was read into another one. */
  lemma PacketGrows(t: TagSet, s: seq<byte>, y: seq<byte>)
    requires DecodePacket(t, s).Ok?
    ensures var d := DecodePacket(t, s).value;
      var g := DecodePacket(t, s + y);
      g.Ok? ==> g.value.meta == d.meta && g.value.modules == d.modules
  {
    hide DecodeHeader, DecodeModules, ExpectTag;
    var (meta, s1) := DecodeHeader(t, s).value;
    HeaderGrows(t, s, y);
    TakeGrows(s1, 1, y);
    ModulesGrow(t, s1[0], s1[1..], y);
  }

  /** A prefix of an encoding decodes exactly when nothing but (part of) the last module's
      and the packet's closing tags is cut off, and then it decodes to the same packet. */
  lemma TruncationExact(t: TagSet, meta: Metadata, ms: seq<Module>, k: nat)
    requires TagsFit(t) && ModulesFit(t, ms) && k <= |EncodePacket(t, meta, ms)|
    ensures var e := EncodePacket(t, meta, ms);
      && (DecodePacket(t, e[..k]).Ok? <==> |e| - |MayMiss(t, ms)| <= k)
      && (DecodePacket(t, e[..k]).Ok? ==> DecodePacket(t, e[..k]) == Ok(Decoded(meta, ms, [])))
  {
    hide EncodePacket, DecodePacket;
    var e := EncodePacket(t, meta, ms);
    AcceptedExactly(t, e, meta, ms, []);
    assert e + [] == e == e[..k] + e[k..];
    AcceptedExactly(t, e[..k], meta, ms, []);
    if DecodePacket(t, e[..k]).Ok? {
      PacketGrows(t, e[..k], e[k..]);
      var r := DecodePacket(t, e[..k]).value.rest;
      AcceptedExactly(t, e[..k], meta, ms, r);
    }
  }

  // ----- Framing -----

  /** Encodings cannot be confused with each other, whatever follows them. */
  lemma UniqueFraming(t: TagSet, meta: Metadata, ms: seq<Module>, r: seq<byte>,
    meta': Metadata, ms': seq<Module>, r': seq<byte>)
    requires TagsFit(t) && ModulesFit(t, ms) && ModulesFit(t, ms')
    requires EncodePacket(t, meta, ms) + r == EncodePacket(t, meta', ms') + r'
    ensures meta == meta' && ms == ms' && r == r'
  {
    AcceptedExactly(t, EncodePacket(t, meta, ms) + r, meta, ms, r);
    AcceptedExactly(t, EncodePacket(t, meta, ms) + r, meta', ms', r');
  }

  datatype Sent = Sent(meta: Metadata, modules: seq<Module>)

  /** The packets that a consumer of the stream gets before the first failure. */
  function Consumed(t: TagSet, s: seq<byte>): seq<Sent>
    decreases |s|
  {
    var d := DecodePacket(t, s);
    if d.Fail? then []
    else [Sent(d.value.meta, d.value.modules)] + Consumed(t, d.value.rest)
  }

  function EncodeStream(t: TagSet, ps: seq<Sent>): seq<byte> {
    if ps == [] then []
    else EncodePacket(t, ps[0].meta, ps[0].modules) + EncodeStream(t, ps[1..])
  }

  /** A consumer gets the packets that were sent, in order, and then whatever the rest of
      the stream holds. */
  lemma {:induction false} StreamFraming(t: TagSet, ps: seq<Sent>, r: seq<byte>)
    requires TagsFit(t) && forall i :: 0 <= i < |ps| ==> ModulesFit(t, ps[i].modules)
    ensures Consumed(t, EncodeStream(t, ps) + r) == ps + Consumed(t, r)
    decreases |ps|
  {
    hide EncodePacket, DecodePacket;
    if ps == [] {
      assert [] + r == r;
    } else {
      var p, e := ps[0], EncodePacket(t, ps[0].meta, ps[0].modules);
      var y := EncodeStream(t, ps[1..]) + r;
      assert EncodeStream(t, ps) + r == e + y;
      AcceptedExactly(t, e + y, p.meta, p.modules, y);
      StreamFraming(t, ps[1..], r);
      assert [p] + (ps[1..] + Consumed(t, r)) == ps + Consumed(t, r);
    }
  }

  lemma NothingConsumed(t: TagSet)
    ensures Consumed(t, []) == []
  {
  }
}
