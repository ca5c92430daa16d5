/** The voice worklet's framer: audio arrives in frames of any length and leaves in blocks of
    960 samples. */
module AudioFramer {
  const BLOCK := 960

  /** A sample; its arithmetic plays no part. */
  type Sample = real

  function Concat(blocks: seq<seq<Sample>>): seq<Sample> {
    if blocks == [] then [] else Concat(blocks[..|blocks| - 1]) + blocks[|blocks| - 1]
  }

  lemma {:induction false} ConcatLength(blocks: seq<seq<Sample>>)
    requires forall b :: b in blocks ==> |b| == BLOCK
    ensures |Concat(blocks)| == BLOCK * |blocks|
  {
    if blocks != [] {
      ConcatLength(blocks[..|blocks| - 1]);
    }
  }

  lemma {:induction false} BlockAt(blocks: seq<seq<Sample>>, k: nat)
    requires forall b :: b in blocks ==> |b| == BLOCK
    requires k < |blocks|
    ensures 960 * (k + 1) <= |Concat(blocks)|
    ensures blocks[k] == Concat(blocks)[960 * k..960 * (k + 1)]
  {
    var front := blocks[..|blocks| - 1];
    ConcatLength(front);
    ConcatLength(blocks);
    if k < |front| {
      BlockAt(front, k);
      assert Concat(blocks)[..|Concat(front)|] == Concat(front);
      assert Concat(blocks)[BLOCK * k..BLOCK * (k + 1)] == Concat(front)[BLOCK * k..BLOCK * (k + 1)];
    }
  }

  /** Blocks and remainder are determined by the input alone: however it was cut into
      frames, the k-th block is its k-th run of 960 samples. */
  lemma FramingIgnoresCuts(a: seq<seq<Sample>>, rest: seq<Sample>, b: seq<seq<Sample>>, left: seq<Sample>)
    requires (forall x :: x in a ==> |x| == BLOCK) && |rest| < BLOCK
    requires (forall x :: x in b ==> |x| == BLOCK) && |left| < BLOCK
    requires Concat(a) + rest == Concat(b) + left
    ensures a == b && rest == left
  {
    ConcatLength(a);
    ConcatLength(b);
    assert |a| == |b|;
    var all := Concat(a) + rest;
    assert all[|Concat(a)|..] == rest && all[|Concat(b)|..] == left;
    forall k: nat | k < |a| ensures a[k] == b[k] {
      BlockAt(a, k);
      BlockAt(b, k);
      assert all[..|Concat(a)|] == Concat(a) && all[..|Concat(b)|] == Concat(b);
    }
  }

  class NativeVoiceProcessor {
    var buffer: array<Sample>
    var offset: nat
    ghost var posted: seq<array<Sample>>
    ghost var contents: seq<seq<Sample>>
    ghost var received: seq<Sample>

    /** Every posted array still holds what it held when posted, and nothing of the input is
        missing or out of order. */
    ghost predicate Valid()
      reads this, buffer, posted
    {
      && buffer.Length == BLOCK && offset < BLOCK
      && |contents| == |posted|
      && (forall i :: 0 <= i < |posted| ==>
          posted[i] != buffer && posted[i].Length == BLOCK && posted[i][..] == contents[i])
      && Concat(contents) + buffer[..offset] == received
    }

    constructor ()
      ensures Valid() && posted == [] && received == [] && fresh(buffer)
    {
      buffer, offset := new Sample[BLOCK], 0;
      posted, contents, received := [], [], [];
    }

    /** Hands over a full buffer and goes on with a new one. */
    method Post()
      requires buffer.Length == BLOCK && offset == BLOCK && |contents| == |posted|
      requires forall i :: 0 <= i < |posted| ==>
                posted[i] != buffer && posted[i].Length == BLOCK && posted[i][..] == contents[i]
      requires Concat(contents) + buffer[..] == received
      modifies this`buffer, this`offset, this`posted, this`contents
      ensures Valid() && fresh(buffer) && received == old(received)
      ensures posted == old(posted) + [old(buffer)] && contents == old(contents) + [old(buffer[..])]
    {
      posted, contents := posted + [buffer], contents + [buffer[..]];
      assert contents[..|contents| - 1] == old(contents);
      buffer, offset := new Sample[BLOCK], 0;
      assert Concat(contents) + buffer[..0] == received;
    }

    method Copy(input: seq<Sample>, source: nat, count: nat)
      requires Valid() && source + count <= |input| && offset + count <= BLOCK
      modifies buffer, this`offset, this`received
      ensures offset == old(offset) + count && received == old(received) + input[source..source + count]
      ensures forall i :: 0 <= i < |posted| ==>
                posted[i] != buffer && posted[i].Length == BLOCK && posted[i][..] == contents[i]
      ensures Concat(contents) + buffer[..offset] == received
    {
      ghost var filled := buffer[..offset];
      for k := 0 to count
        modifies buffer
        invariant buffer.Length == BLOCK && buffer[..offset + k] == filled + input[source..source + k]
        invariant forall i :: 0 <= i < |posted| ==> posted[i][..] == contents[i]
      {
        buffer[offset + k] := input[source + k];
        assert buffer[..offset + k + 1] == buffer[..offset + k] + [input[source + k]];
        assert input[source..source + k + 1] == input[source..source + k] + [input[source + k]];
      }
      offset := offset + count;
      received := received + input[source..source + count];
    }

    /** `missing` is an input without a channel. Blocks are only ever added, and none posted before
        is touched again. */
    method Process(input: seq<Sample>, missing: bool)
      requires Valid()
      modifies this, buffer
      ensures Valid() && (buffer == old(buffer) || fresh(buffer))
      ensures received == if missing then old(received) else old(received) + input
      ensures old(posted) <= posted && old(contents) <= contents
      ensures offset < 960 && forall i :: 0 <= i < |posted| ==> posted[i].Length == 960
    {
      if missing {
        return;
      }
      var source := 0;
      while source < |input|
        invariant source <= |input| && Valid()
        invariant buffer == old(buffer) || fresh(buffer)
        invariant received == old(received) + input[..source]
        invariant old(posted) <= posted && old(contents) <= contents
        decreases |input| - source
      {
        var count := if |input| - source < buffer.Length - offset then |input| - source else buffer.Length - offset;
        Copy(input, source, count);
        assert input[..source] + input[source..source + count] == input[..source + count];
        source := source + count;
        if offset == buffer.Length {
          assert buffer[..offset] == buffer[..];
          Post();
        }
      }
      assert input[..source] == input;
    }
  }
}
