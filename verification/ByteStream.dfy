/** The io.Reader and io.Writer a codec works against: bytes arrive in arbitrary
    fragments, and a writer takes as much as it likes of what it is given. */
module ByteStream {
  import opened Bytes
  import opened Sequences

  datatype FullRead = Full(bytes: seq<byte>) | Eof | UnexpectedEof

  /** io.ReadFull on a stream that still holds `s`. */
  function ReadFullOf(s: seq<byte>, n: nat): (r: (FullRead, seq<byte>))
  {
    if |s| >= n then (Full(s[..n]), s[n..])
    else (if s == [] then Eof else UnexpectedEof, [])
  }

  class Reader {
    var chunks: seq<seq<byte>>

    function Rest(): (r: seq<byte>)
      reads this
    {
      Flatten(chunks)
    }

    constructor (chunks: seq<seq<byte>>)
      ensures this.chunks == chunks
    {
      this.chunks := chunks;
    }

    /** One Read call: part of the next fragment, possibly nothing of it. */
    method Read(room: nat) returns (got: seq<byte>, eof: bool)
      modifies this
      ensures eof <==> old(chunks) == []
      ensures |got| <= room && got + Rest() == old(Rest())
      ensures !eof && room > 0 ==> |chunks| + |Rest()| < old(|chunks| + |Rest()|)
      ensures eof ==> got == [] && chunks == []
    {
      if chunks == [] {
        return [], true;
      }
      var head := chunks[0];
      if |head| <= room {
        chunks := chunks[1..];
        return head, false;
      }
      chunks := [head[room..]] + chunks[1..];
      assert head == head[..room] + head[room..];
      Assoc(head[..room], head[room..], Flatten(old(chunks)[1..]));
      return head[..room], false;
    }

    /** However the stream is cut, ReadFull yields its first `n` bytes. */
    method ReadFull(n: nat) returns (r: FullRead)
      modifies this
      ensures (r, Rest()) == ReadFullOf(old(Rest()), n)
    {
      ghost var all := Rest();
      var buffer := [];
      while |buffer| < n
        invariant |buffer| <= n && buffer + Rest() == all
        decreases |chunks| + |Rest()|
      {
        var got, eof := Read(n - |buffer|);
        if eof {
          assert buffer + [] == buffer;
          return if buffer == [] then Eof else UnexpectedEof;
        }
        Assoc(buffer, got, Rest());
        buffer := buffer + got;
      }
      assert all[..n] == buffer && all[n..] == Rest();
      return Full(buffer);
    }
  }

  /** `plan` says how many bytes each Write call takes and whether it then fails;
      past its end every call fails. */
  class Writer {
    var out: seq<byte>
    var plan: seq<(nat, bool)>

    /** The next `n` calls all succeed and take something. */
    predicate Willing(n: nat)
      reads this
    {
      n <= |plan| && forall i | 0 <= i < n :: plan[i].0 > 0 && !plan[i].1
    }

    constructor (plan: seq<(nat, bool)>)
      ensures out == [] && this.plan == plan
    {
      out, this.plan := [], plan;
    }

    method Write(value: seq<byte>) returns (count: nat, failed: bool)
      modifies this
      ensures count <= |value| && out == old(out) + value[..count]
      ensures if old(plan) == [] then failed && plan == [] && count == 0
              else plan == old(plan)[1..] && failed == old(plan)[0].1 &&
                   count == if old(plan)[0].0 < |value| then old(plan)[0].0 else |value|
    {
      if plan == [] {
        assert value[..0] == [];
        return 0, true;
      }
      var (take, fail) := plan[0];
      plan := plan[1..];
      count := if take < |value| then take else |value|;
      out := out + value[..count];
      return count, fail;
    }

    /** The whole value, or a start of it when the writer gives up.  A writer that
        takes nothing ends the loop; one that takes something of every call gets
        everything. */
    method WriteAll(value: seq<byte>) returns (ok: bool)
      modifies this
      ensures ok ==> out == old(out) + value
      ensures old(out) <= out <= old(out) + value
      ensures old(Willing(|value|)) ==> ok
      ensures forall n: nat | |value| <= n && old(Willing(n)) :: ok && Willing(n - |value|)
    {
      var left := value;
      while |left| > 0
        invariant |left| <= |value| && left == value[|value| - |left|..]
        invariant out == old(out) + value[..|value| - |left|]
        invariant forall n: nat | |value| <= n && old(Willing(n)) :: Willing(n - (|value| - |left|))
        decreases |left|
      {
        var count, failed := Write(left);
        assert value[..|value| - |left|] + left[..count] == value[..|value| - |left| + count];
        left := left[count..];
        if failed || count == 0 {
          return false;
        }
      }
      return true;
    }
  }
}
