/** What an accepted block stream must look like: the converse of reading back what was written. */
module KdbxBlocks {
  import opened Wrappers
  import opened Bytes
  import opened KdbxFrame

  /** Blocks of the given data under consecutive indices, and the empty block that ends them. */
  function Blocks(mac: Mac, index: nat, chunks: seq<seq<byte>>): seq<byte>
    decreases |chunks|
  {
    if chunks == [] then BlockBytes(mac, index, [])
    else BlockBytes(mac, index, chunks[0]) + Blocks(mac, index + 1, chunks[1..])
  }

  function Joined(chunks: seq<seq<byte>>): seq<byte> {
    if chunks == [] then [] else chunks[0] + Joined(chunks[1..])
  }

  function Cut(text: seq<byte>, size: nat): seq<seq<byte>>
    requires size >= 1
    decreases |text|
  {
    if text == [] then [] else if |text| <= size then [text] else [text[..size]] + Cut(text[size..], size)
  }

  predicate NoneEmpty(chunks: seq<seq<byte>>) {
    forall c | c in chunks :: c != []
  }

  /** One block in the terms of its bytes. */
  lemma BlockAt(mac: Mac, b: seq<byte>, p: nat, index: nat, got: seq<byte>) returns (data: seq<byte>)
    requires ReadBlocks(mac, b, p, index, got).Success?
    ensures At(b, p, BlockBytes(mac, index, data)) && |BlockBytes(mac, index, data)| == 36 + |data|
    ensures TakeAt(b, p, 32) == Success(mac(index, data))
    ensures UintAt(b, p + 32, 4) == Success(|data|) && TakeAt(b, p + 36, |data|) == Success(data)
    ensures ReadBlocks(mac, b, p, index, got)
         == if data == [] then Success((got, p + 36)) else ReadBlocks(mac, b, p + 36 + |data|, index + 1, got + data)
  {
    hide Le, FromLe;
    var tag := TakeAt(b, p, 32).value;
    var prefix := TakeAt(b, p + 32, 4).value;
    var len := UintAt(b, p + 32, 4).value;
    data := TakeAt(b, p + 36, len).value;
    FromLeRoundTrip(prefix);
    assert b[p..p + 36 + len] == tag + prefix + data;
  }

  lemma JoinBlocks(b: seq<byte>, p: nat, x: seq<byte>, y: seq<byte>)
    requires At(b, p, x) && At(b, p + |x|, y)
    ensures At(b, p, x + y)
  {
    assert b[p..p + |x| + |y|] == b[p..p + |x|] + b[p + |x|..p + |x| + |y|];
  }

  /** Whatever bytes are accepted are non-empty blocks tagged with consecutive indices, then an empty one;
      the text is what they hold, in order. */
  lemma {:induction false} AcceptedIsTagged(mac: Mac, b: seq<byte>, p: nat, index: nat, got: seq<byte>)
    returns (chunks: seq<seq<byte>>)
    requires ReadBlocks(mac, b, p, index, got).Success?
    ensures NoneEmpty(chunks) && At(b, p, Blocks(mac, index, chunks))
    ensures ReadBlocks(mac, b, p, index, got) == Success((got + Joined(chunks), p + |Blocks(mac, index, chunks)|))
    decreases |b| - p
  {
    hide ReadBlocks, BlockBytes, At, TakeAt, UintAt;
    var data := BlockAt(mac, b, p, index, got);
    if data == [] {
      chunks := [];
      assert got + [] == got;
    } else {
      AtFits(b, p, BlockBytes(mac, index, data));
      var more := AcceptedIsTagged(mac, b, p + 36 + |data|, index + 1, got + data);
      chunks := [data] + more;
      assert chunks[1..] == more;
      JoinBlocks(b, p, BlockBytes(mac, index, data), Blocks(mac, index + 1, more));
      assert got + (data + Joined(more)) == got + data + Joined(more);
    }
  }

  lemma AtFits(b: seq<byte>, p: nat, x: seq<byte>)
    requires At(b, p, x)
    ensures p + |x| <= |b|
  {
  }

  /** The tags standing in a stream, by its framing alone. */
  function TagsIn(b: seq<byte>, p: nat): seq<seq<byte>>
    decreases |b| - p
  {
    match (TakeAt(b, p, 32), UintAt(b, p + 32, 4))
    case (Success(tag), Success(len)) =>
      if len == 0 || TakeAt(b, p + 36, len).Failure? then [tag] else [tag] + TagsIn(b, p + 36 + len)
    case _ => []
  }

  /** What the `i`-th block of a sealed stream holds; the last one holds nothing. */
  function Held(chunks: seq<seq<byte>>, i: nat): seq<byte> {
    if i < |chunks| then chunks[i] else []
  }

  /** Every tag in the stream is one the writer made for these chunks. */
  predicate NoneForged(mac: Mac, chunks: seq<seq<byte>>, tags: seq<seq<byte>>) {
    forall t | t in tags :: exists i: nat | i <= |chunks| :: t == mac(i, Held(chunks, i))
  }

  /** Nothing that stands in `b` has, at an index the writer used, the tag of one of the writer's blocks
      without being that block. */
  ghost predicate Distinguished(mac: Mac, chunks: seq<seq<byte>>, b: seq<byte>) {
    forall i: nat, k: nat, q: nat, d: seq<byte> |
      i <= |chunks| && k <= |chunks| && At(b, q, d) && mac(k, d) == mac(i, Held(chunks, i)) ::
      k == i && d == Held(chunks, i)
  }

  lemma FewerTags(mac: Mac, chunks: seq<seq<byte>>, first: seq<byte>, rest: seq<seq<byte>>)
    requires NoneForged(mac, chunks, [first] + rest)
    ensures NoneForged(mac, chunks, rest)
  {
    forall t | t in rest
      ensures exists i: nat | i <= |chunks| :: t == mac(i, Held(chunks, i))
    {
      assert t in [first] + rest;
    }
  }

  lemma TakenStands(b: seq<byte>, p: nat, data: seq<byte>)
    requires TakeAt(b, p, |data|) == Success(data)
    ensures At(b, p, data)
  {
  }

  lemma {:induction false} RestIsSealed(mac: Mac, b: seq<byte>, p: nat, index: nat, got: seq<byte>,
                                        chunks: seq<seq<byte>>)
    requires ReadBlocks(mac, b, p, index, got).Success? && index <= |chunks| && NoneEmpty(chunks)
    requires Distinguished(mac, chunks, b) && NoneForged(mac, chunks, TagsIn(b, p))
    ensures At(b, p, Blocks(mac, index, chunks[index..]))
    ensures ReadBlocks(mac, b, p, index, got)
         == Success((got + Joined(chunks[index..]), p + |Blocks(mac, index, chunks[index..])|))
    decreases |b| - p
  {
    hide ReadBlocks, BlockBytes, At, TakeAt, UintAt;
    var data := BlockAt(mac, b, p, index, got);
    assert mac(index, data) in TagsIn(b, p);
    var i: nat :| i <= |chunks| && mac(index, data) == mac(i, Held(chunks, i));
    assert At(b, p + 36, data) by { TakenStands(b, p + 36, data); }
    assert data == Held(chunks, index);
    if index == |chunks| {
      assert chunks[index..] == [] && got + [] == got;
    } else {
      assert data in chunks;
      var rest := chunks[index..];
      assert rest[0] == data && rest[1..] == chunks[index + 1..];
      AtFits(b, p, BlockBytes(mac, index, data));
      assert TagsIn(b, p) == [mac(index, data)] + TagsIn(b, p + 36 + |data|);
      FewerTags(mac, chunks, mac(index, data), TagsIn(b, p + 36 + |data|));
      RestIsSealed(mac, b, p + 36 + |data|, index + 1, got + data, chunks);
      JoinBlocks(b, p, BlockBytes(mac, index, data), Blocks(mac, index + 1, rest[1..]));
      assert got + (data + Joined(rest[1..])) == got + data + Joined(rest[1..]);
    }
  }

  /** From the writer's tags only the writer's stream can be made: whatever is accepted and carries no
      forged tag is all of the sealed blocks, in order. Dropped, repeated, reordered or cut-off blocks are
      refused. */
  lemma OnlyTheSealedStream(mac: Mac, b: seq<byte>, p: nat, text: seq<byte>, size: nat)
    requires size >= 1 && Distinguished(mac, Cut(text, size), b) && NoneForged(mac, Cut(text, size), TagsIn(b, p))
    requires ReadBlocks(mac, b, p, 0, []).Success?
    ensures At(b, p, BlockStream(mac, 0, text, size))
    ensures ReadBlocks(mac, b, p, 0, []) == Success((text, p + |BlockStream(mac, 0, text, size)|))
  {
    hide ReadBlocks, TagsIn;
    var chunks := Cut(text, size);
    CutJoins(mac, 0, text, size);
    assert chunks[0..] == chunks && [] + text == text;
    RestIsSealed(mac, b, p, 0, [], chunks);
  }

  lemma {:induction false} CutJoins(mac: Mac, index: nat, text: seq<byte>, size: nat)
    requires size >= 1
    ensures NoneEmpty(Cut(text, size)) && Joined(Cut(text, size)) == text
    ensures Blocks(mac, index, Cut(text, size)) == BlockStream(mac, index, text, size)
    decreases |text|
  {
    hide BlockBytes;
    if text != [] {
      var n := if |text| <= size then |text| else size;
      BlockStreamStep(mac, index, text, size, n);
      CutJoins(mac, index + 1, text[n..], size);
      assert text[..n] + text[n..] == text;
      if |text| <= size {
        assert text[n..] == [] && Cut(text, size)[1..] == Cut([], size);
      } else {
        assert Cut(text, size)[1..] == Cut(text[n..], size);
      }
    }
  }
}
