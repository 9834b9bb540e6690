/** The codec input that reads bytes out of a sequence of shards. */
module ShardInput {
  import opened Options

  type Byte(==, !new, 0)

  datatype ReadResult = Ok | TooBig

  function Concat(shards: seq<seq<Byte>>): seq<Byte> {
    if shards == [] then [] else shards[0] + Concat(shards[1..])
  }

  type Cursor = Option<(seq<Byte>, nat)>

  /** What is left of the shard being read. */
  function Rest(c: Cursor): seq<Byte> {
    if c.Some? && c.value.1 <= |c.value.0| then c.value.0[c.value.1..] else []
  }

  class ShardInput {
    var remainingLen: nat
    /** The shards the iterator has not yielded yet. */
    var shards: seq<seq<Byte>>
    /** The shard being read and the position in it. */
    var curShard: Cursor

    constructor (shards: seq<seq<Byte>>)
      ensures Valid() && Unread() == Concat(shards)
    {
      this.shards, this.curShard, this.remainingLen := shards, None, |Concat(shards)|;
    }

    /** The bytes not read yet. */
    function Unread(): seq<Byte>
      reads this`shards, this`curShard
    {
      Rest(curShard) + Concat(shards)
    }

    /** What is announced as remaining is what is left. */
    ghost predicate Valid()
      reads this
    {
      remainingLen == |Unread()|
    }

    /** Shards not used up yet. */
    function ShardsLeft(): nat
      reads this`shards, this`curShard
    {
      |shards| + if curShard.Some? then 1 else 0
    }

    /** Takes the current shard, or the next one from the iterator. */
    method TakeShard() returns (c: Cursor)
      modifies this`shards, this`curShard
      ensures curShard.None?
      ensures c.None? ==> old(Unread()) == []
      ensures c.Some? ==> ShardsLeft() + 1 == old(ShardsLeft())
      ensures Rest(c) + Concat(shards) == old(Unread())
    {
      c := curShard;
      curShard := None;
      if c.None? && shards != [] {
        c := Some((shards[0], 0));
        shards := shards[1..];
      }
    }

    /** Moves bytes from the shard to `into` at `at`, as many as both have room for. */
    method Fill(into: array<Byte>, at: nat, shard: seq<Byte>, from: nat) returns (writeLen: nat)
      requires at < into.Length && from < |shard|
      modifies into, this`curShard
      ensures 1 <= writeLen <= |shard| - from && at + writeLen <= into.Length
      ensures at + writeLen == into.Length || from + writeLen == |shard|
      ensures curShard == Some((shard, from + writeLen))
      ensures into[..] == old(into[..])[..at] + shard[from..from + writeLen] + old(into[..])[at + writeLen..]
    {
      writeLen := if into.Length - at < |shard| - from then into.Length - at else |shard| - from;
      CopyInto(into, at, shard[from..from + writeLen]);
      curShard := Some((shard, from + writeLen));
    }

    /** One pass of the loop: some bytes, an empty shard skipped, or the end of the input. */
    method ReadSome(into: array<Byte>, at: nat, ghost all: seq<Byte>, ghost before: seq<Byte>)
      returns (n: nat, ended: bool)
      requires at < into.Length && Midway(all, before, at, into[..], Unread())
      modifies this`shards, this`curShard, into
      ensures at + n <= into.Length
      ensures Midway(all, before, at + n, into[..], Unread())
      ensures ended ==> Unread() == []
      ensures !ended ==> ShardsLeft() < old(ShardsLeft()) || (ShardsLeft() == old(ShardsLeft()) && n > 0)
    {
      n, ended := 0, false;
      var c := TakeShard();
      if c.None? {
        ended := true;
      } else {
        var (activeShard, inShard) := c.value;
        if inShard < |activeShard| {
          n := Fill(into, at, activeShard, inShard);
          assert Unread() == activeShard[inShard + n..] + Concat(shards);
          AfterFill(all, before, at, old(into[..]), into[..], activeShard, inShard, n, Concat(shards));
        }
      }
    }

    /** The loop: fills `into` until it is full or the input ends. */
    method ReadLoop(into: array<Byte>) returns (readBytes: nat)
      modifies this`shards, this`curShard, into
      ensures Midway(old(Unread()), old(into[..]), readBytes, into[..], Unread())
      ensures readBytes < into.Length ==> Unread() == []
    {
      ghost var all, before := Unread(), into[..];
      readBytes := 0;
      Start(all, before);
      while readBytes < into.Length
        invariant readBytes <= into.Length && Midway(all, before, readBytes, into[..], Unread())
        decreases ShardsLeft(), into.Length - readBytes
      {
        var n, ended := ReadSome(into, readBytes, all, before);
        readBytes := readBytes + n;
        if ended {
          return;
        }
      }
    }

    /**
     A read fails exactly when too few bytes are left. If it succeeds it yields the next bytes of the concatenated
     shards; if it fails it has used them all up.
     */
    method Read(into: array<Byte>) returns (r: ReadResult)
      requires Valid()
      modifies this, into
      ensures Valid()
      ensures r.Ok? <==> into.Length <= |old(Unread())|
      ensures r.Ok? ==> into[..] == old(Unread())[..into.Length] && Unread() == old(Unread())[into.Length..]
      ensures r.TooBig? ==>
                Unread() == [] && into[..] == old(Unread()) + old(into[..])[|old(Unread())|..]
    {
      var readBytes := ReadLoop(into);
      Finish(old(Unread()), old(into[..]), readBytes, into[..], Unread());
      remainingLen := remainingLen - readBytes;
      r := if readBytes == into.Length then Ok else TooBig;
    }

    /** A read into a new buffer. */
    method ReadBytes(len: nat) returns (r: Option<seq<Byte>>)
      requires Valid()
      modifies this
      ensures Valid()
      ensures r.Some? <==> len <= |old(Unread())|
      ensures r.Some? ==> r.value == old(Unread())[..len] && Unread() == old(Unread())[len..]
      ensures r.None? ==> Unread() == []
    {
      var into := new Byte[len];
      var result := Read(into);
      r := if result.Ok? then Some(into[..]) else None;
    }

    /**
     One read after the other. They yield consecutive slices of the concatenated shards, and the first to fail is the
     first whose length, with those before it, is more than there was.
     */
    method ReadAll(lens: seq<nat>) returns (out: seq<seq<Byte>>)
      requires Valid()
      modifies this
      ensures Valid() && |out| <= |lens| && Sum(lens[..|out|]) <= |old(Unread())|
      ensures out == Slices(old(Unread()), lens[..|out|])
      ensures if |out| < |lens| then Sum(lens[..|out| + 1]) > |old(Unread())| && Unread() == []
              else Unread() == old(Unread())[Sum(lens[..|out|])..]
    {
      ghost var all := Unread();
      out := [];
      for i := 0 to |lens|
        invariant Valid() && |out| == i && ReadSoFar(all, lens[..i], out, Unread())
      {
        NextSlice(all, lens, i);
        var r := ReadBytes(lens[i]);
        if r.None? {
          return;
        }
        out := out + [r.value];
      }
    }
  }

  lemma Start(all: seq<Byte>, before: seq<Byte>)
    ensures Midway(all, before, 0, before, all)
  {
  }

  lemma Finish(all: seq<Byte>, before: seq<Byte>, at: nat, into: seq<Byte>, unread: seq<Byte>)
    requires Midway(all, before, at, into, unread)
    ensures |unread| == |all| - at && unread == all[at..]
    ensures at == |into| ==> into == all[..at]
    ensures unread == [] ==> into == all + before[at..]
  {
  }

  /** The first `at` bytes have been copied and the others are still to come. */
  ghost predicate Midway(all: seq<Byte>, before: seq<Byte>, at: nat, into: seq<Byte>, unread: seq<Byte>) {
    && at <= |into| == |before|
    && into[..at] + unread == all
    && into[at..] == before[at..]
  }

  /** The bookkeeping of one fill, on values. */
  lemma AfterFill(all: seq<Byte>, before: seq<Byte>, at: nat, was: seq<Byte>, now: seq<Byte>,
                  shard: seq<Byte>, from: nat, n: nat, later: seq<Byte>)
    requires from + n <= |shard| && at + n <= |before| && Midway(all, before, at, was, shard[from..] + later)
    requires now == was[..at] + shard[from..from + n] + was[at + n..]
    ensures Midway(all, before, at + n, now, shard[from + n..] + later)
  {
  }

  method CopyInto(into: array<Byte>, at: nat, bytes: seq<Byte>)
    requires at + |bytes| <= into.Length
    modifies into
    ensures into[..] == old(into[..])[..at] + bytes + old(into[..])[at + |bytes|..]
  {
    ghost var was := into[..];
    for i := 0 to |bytes|
      invariant into[..] == was[..at] + bytes[..i] + was[at + i..]
    {
      into[at + i] := bytes[i];
    }
    assert bytes[..|bytes|] == bytes;
  }

  function Sum(lens: seq<nat>): nat {
    if lens == [] then 0 else Sum(lens[..|lens| - 1]) + lens[|lens| - 1]
  }

  /** What successful reads of the given lengths yield from the stream: one slice after the other. */
  function Slices(stream: seq<Byte>, lens: seq<nat>): seq<seq<Byte>>
    requires Sum(lens) <= |stream|
    decreases |lens|
  {
    if lens == [] then []
    else
      var before := lens[..|lens| - 1];
      Slices(stream, before) + [stream[Sum(before)..Sum(lens)]]
  }

  lemma {:induction false} ConcatSnoc(shards: seq<seq<Byte>>, shard: seq<Byte>)
    ensures Concat(shards + [shard]) == Concat(shards) + shard
  {
    if shards == [] {
    } else {
      assert (shards + [shard])[1..] == shards[1..] + [shard];
      ConcatSnoc(shards[1..], shard);
    }
  }

  /** Put together, the slices are the beginning of the stream. */
  lemma {:induction false} SlicesAreConsecutive(stream: seq<Byte>, lens: seq<nat>)
    requires Sum(lens) <= |stream|
    ensures Concat(Slices(stream, lens)) == stream[..Sum(lens)]
    decreases |lens|
  {
    if lens == [] {
    } else {
      var before := lens[..|lens| - 1];
      SlicesAreConsecutive(stream, before);
      ConcatSnoc(Slices(stream, before), stream[Sum(before)..Sum(lens)]);
    }
  }

  /** The reads so far yielded these slices and left this much. */
  ghost predicate ReadSoFar(stream: seq<Byte>, lens: seq<nat>, out: seq<seq<Byte>>, left: seq<Byte>) {
    Sum(lens) <= |stream| && out == Slices(stream, lens) && left == stream[Sum(lens)..]
  }

  /** What one more read adds, and what is left after it. */
  lemma NextSlice(stream: seq<Byte>, lens: seq<nat>, i: nat)
    requires i < |lens| && Sum(lens[..i]) <= |stream|
    ensures Sum(lens[..i + 1]) == Sum(lens[..i]) + lens[i]
    ensures var left := stream[Sum(lens[..i])..];
            lens[i] <= |left| ==>
              && Slices(stream, lens[..i + 1]) == Slices(stream, lens[..i]) + [left[..lens[i]]]
              && left[lens[i]..] == stream[Sum(lens[..i + 1])..]
  {
    var left := stream[Sum(lens[..i])..];
    assert lens[..i + 1][..i] == lens[..i];
    if lens[i] <= |left| {
      assert stream[Sum(lens[..i])..Sum(lens[..i + 1])] == left[..lens[i]];
    }
  }
}
