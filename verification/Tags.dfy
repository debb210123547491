/** The tags that delimit packets and modules (network/packet/tag.go). */
module Tags {
  import opened Streams

  datatype TagSet = TagSet(
    packetOpening: seq<byte>,
    packetClosing: seq<byte>,
    moduleOpening: seq<byte>,
    moduleClosing: seq<byte>,
    separator: seq<byte>)

  /** What `TagReader.Read` reports. `EndOfFile` stands both for "the tag is complete"
      and for "the stream ended"; `NoError` says that the buffer filled up first. */
  datatype ReadError = NoError | EndOfFile | Unexpected

  /** The outcome of reading `tag` through a buffer of `size` bytes, by comparison with
      the stream as a whole. */
  function ScanTag(tag: seq<byte>, size: nat, s: seq<byte>): ReadError {
    var want := if |tag| <= size then tag else tag[..size];
    if want <= s then
      if |tag| <= size then EndOfFile else NoError
    else if s <= want then EndOfFile
    else Unexpected
  }

  /** What is left of the stream when no mismatch was found. */
  function AfterTag(tag: seq<byte>, size: nat, s: seq<byte>): seq<byte> {
    var n := if |tag| <= size then |tag| else size;
    if n <= |s| then s[n..] else []
  }

  class TagReader {
    const tagRaw: seq<byte>
    const r: Reader
    var cur: nat

    ghost predicate Valid() reads this { cur <= |tagRaw| }

    constructor (r: Reader, tag: seq<byte>)
      ensures Valid() && cur == 0 && this.r == r && tagRaw == tag
    {
      this.r, tagRaw, cur := r, tag, 0;
    }

    method Flush()
      modifies this
      ensures Valid() && cur == 0
    {
      cur := 0;
    }

    /** Reads through a buffer of `size` bytes; `n` of them are filled. */
    method Read(size: nat) returns (n: nat, err: ReadError)
      requires Valid()
      modifies this, r
      ensures Valid() && n <= size
      ensures err == ScanTag(tagRaw[old(cur)..], size, old(r.rest))
      ensures n <= |old(r.rest)| && r.rest == old(r.rest)[n..]
      ensures err != Unexpected ==>
        r.rest == AfterTag(tagRaw[old(cur)..], size, old(r.rest)) && cur == old(cur) + n
    {
      ghost var start := cur;
      ghost var s := r.rest;
      n := 0;
      while true
        invariant n <= size && n <= |s|
        invariant Valid() && cur == start + n
        invariant r.rest == s[n..]
        invariant s[..n] == tagRaw[start..cur]
        decreases size - n
      {
        if cur == |tagRaw| {
          assert tagRaw[start..] == tagRaw[start..cur] == s[..n];
          return n, EndOfFile;
        }
        if n == size {
          assert tagRaw[start..][..size] == tagRaw[start..cur];
          return n, NoError;
        }
        var b := r.ReadByte();
        if b == None {
          assert s == s[..n] && tagRaw[start..][..n] == tagRaw[start..cur];
          return n, EndOfFile;
        }
        n := n + 1;
        if b.value != tagRaw[cur] {
          assert s[n - 1] != tagRaw[start..][n - 1];
          return n, Unexpected;
        }
        assert s[..n] == s[..n - 1] + [b.value];
        cur := cur + 1;
        assert tagRaw[start..cur] == tagRaw[start..cur - 1] + [b.value];
      }
    }
  }

  /** Accepts the rest `r` of stream `s` after `tag`: either the tag is there in full, or
      the stream ends before the tag does. */
  ghost predicate TailOk(tag: seq<byte>, s: seq<byte>, r: seq<byte>) {
    s == tag + r || (r == [] && s <= tag)
  }

  /** A tag that fits the buffer is passed exactly when it is there in full or cut short
      by the end of the stream. */
  lemma ScanTagExact(tag: seq<byte>, size: nat, s: seq<byte>, r: seq<byte>)
    requires |tag| <= size
    ensures ScanTag(tag, size, s) == EndOfFile && AfterTag(tag, size, s) == r <==> TailOk(tag, s, r)
  {
    if tag <= s {
      assert s == tag + s[|tag|..];
      if s == tag + r {
        assert r == s[|tag|..];
      }
    }
  }

  /** Two tags in a row behave as one. */
  lemma TailOkJoins(a: seq<byte>, b: seq<byte>, s: seq<byte>, r: seq<byte>)
    ensures TailOk(a + b, s, r) <==> exists m :: TailOk(a, s, m) && TailOk(b, m, r)
  {
    if TailOk(a + b, s, r) {
      if s == a + b + r {
        assert s == a + (b + r);
        assert TailOk(a, s, b + r) && TailOk(b, b + r, r);
      } else if |s| <= |a| {
        assert TailOk(a, s, []) && TailOk(b, [], r);
      } else {
        assert s == a + s[|a|..];
        assert TailOk(a, s, s[|a|..]) && TailOk(b, s[|a|..], r);
      }
    }
    forall m | TailOk(a, s, m) && TailOk(b, m, r)
      ensures TailOk(a + b, s, r)
    {
      if s == a + m && m == b + r {
        assert s == a + b + r;
      }
    }
  }
}
