/** The pipes of kernel/pipe.c. Each method is what one process does between acquiring pi->lock and releasing
    it or going to sleep, so that sequences of calls are the interleavings of readers, writers and closers.
    Which bytes of user memory can be copied and when a kill is noticed are parameters. */
module Pipe {
  const PIPESIZE := 512
  const WRAP := 0x1_0000_0000   // nread and nwrite are 32-bit counters

  /** How a stretch of pipewrite or piperead ends. */
  datatype Outcome = Slept | Returned(value: int)

  // ----------------------------------------------------------------- counters

  function Wrapped(c: nat): nat { c % WRAP }

  lemma NextCount(c: nat)
    ensures (Wrapped(c) + 1) % WRAP == Wrapped(c + 1) && Wrapped(c) % PIPESIZE == c % PIPESIZE
  {
    SameSlot(c);
  }

  /** PIPESIZE divides 2^32, so a wrapped counter selects the same place. */
  lemma SameSlot(c: nat)
    ensures Wrapped(c) % PIPESIZE == c % PIPESIZE
  {
    var q := c / WRAP;
    assert c == PIPESIZE * (q * 0x80_0000) + Wrapped(c);
  }

  /** The tests for an empty and a full pipe are right across wraparound. */
  lemma Tests(r: nat, w: nat)
    requires r <= w <= r + PIPESIZE
    ensures Wrapped(r) == Wrapped(w) <==> r == w
    ensures Wrapped(w) == (Wrapped(r) + PIPESIZE) % WRAP <==> w == r + PIPESIZE
  {
  }

  /** The ring holds the bytes that have been accepted and not consumed. */
  ghost predicate Ring(data: seq<int>, accepted: seq<int>, r: nat) {
    && |data| == PIPESIZE && r <= |accepted| <= r + PIPESIZE
    && forall k {:trigger accepted[k]} :: r <= k < |accepted| ==> data[k % PIPESIZE] == accepted[k]
  }

  lemma RingPut(data: seq<int>, accepted: seq<int>, r: nat, ch: int)
    requires Ring(data, accepted, r) && |accepted| < r + PIPESIZE
    ensures Ring(data[|accepted| % PIPESIZE := ch], accepted + [ch], r)
  {
    var data', accepted' := data[|accepted| % PIPESIZE := ch], accepted + [ch];
    forall k {:trigger accepted'[k]} | r <= k < |accepted'| ensures data'[k % PIPESIZE] == accepted'[k] {
      if k < |accepted| {
        assert accepted'[k] == accepted[k] && k % PIPESIZE != |accepted| % PIPESIZE;
      }
    }
  }

  lemma RingGet(data: seq<int>, accepted: seq<int>, r: nat)
    requires Ring(data, accepted, r) && r < |accepted|
    ensures data[r % PIPESIZE] == accepted[r] && Ring(data, accepted, r + 1)
  {
    var ch := accepted[r];
  }

  /** A sleeping reader has nothing to read, and a sleeping writer no room. */
  ghost predicate Rested(accepted: seq<int>, consumed: seq<int>, readopen: bool, writeopen: bool, readers: set<int>,
      writers: set<int>) {
    && (readers != {} ==> |accepted| == |consumed| && writeopen)
    && (writers != {} ==> |accepted| == |consumed| + PIPESIZE && readopen)
  }

  class PipeBuffer {
    const data: array<int>
    var nread: nat
    var nwrite: nat
    var readopen: bool
    var writeopen: bool
    var readers: set<int>    // the processes asleep on &pi->nread
    var writers: set<int>    // the processes asleep on &pi->nwrite

    ghost var accepted: seq<int>   // every byte ever put into the pipe
    ghost var consumed: seq<int>   // every byte ever taken out

    ghost predicate Valid()
      reads this, data
    {
      && data.Length == PIPESIZE && Ring(data[..], accepted, |consumed|) && consumed <= accepted
      && nread == Wrapped(|consumed|) && nwrite == Wrapped(|accepted|)
    }

    ghost predicate Quiet()
      reads this
    {
      Rested(accepted, consumed, readopen, writeopen, readers, writers)
    }

    /** pipealloc. */
    constructor ()
      ensures Valid() && Quiet() && fresh(data) && accepted == consumed == [] && readopen && writeopen
              && readers == writers == {}
    {
      data := new int[PIPESIZE](i => 0);
      nread, nwrite, readopen, writeopen, readers, writers := 0, 0, true, true, {}, {};
      accepted, consumed := [], [];
    }

    /** pi->data[pi->nwrite++ % PIPESIZE] = ch */
    method Put(ch: int)
      requires Valid() && |accepted| < |consumed| + PIPESIZE
      modifies this`nwrite, this`accepted, data
      ensures Valid() && accepted == old(accepted) + [ch]
    {
      RingPut(data[..], accepted, |consumed|, ch);
      NextCount(|accepted|);
      ghost var was := data[..];
      data[nwrite % PIPESIZE] := ch;
      assert data[..] == was[|accepted| % PIPESIZE := ch];
      nwrite := (nwrite + 1) % WRAP;
      accepted := accepted + [ch];
    }

    /** ch = pi->data[pi->nread++ % PIPESIZE] */
    method Get() returns (ch: int)
      requires Valid() && |consumed| < |accepted|
      modifies this`nread, this`consumed
      ensures Valid() && ch == accepted[|old(consumed)|] && consumed == old(consumed) + [ch]
    {
      RingGet(data[..], accepted, |consumed|);
      NextCount(|consumed|);
      ch := data[nread % PIPESIZE];
      nread := (nread + 1) % WRAP;
      consumed := consumed + [ch];
      assert consumed == accepted[..|consumed|];
    }

    /** pipewrite by process p, from byte i on, until it returns or sleeps. The first `can` bytes of the source can
        be copied, and p is seen to be killed from byte `kill` on. It fails exactly if there is no reader or the kill
        comes before anything else ends the stretch, and sleeps exactly if it fills the pipe first. No sleeper is left
        without cause, unless a reader sleeps and the kill comes after the first byte and before the writer gets to
        return or sleep. */
    method Write(p: int, src: seq<int>, i: nat, can: nat, kill: nat) returns (out: Outcome, i': nat)
      requires Valid() && i <= |src| && p !in writers && p !in readers
      modifies this`nwrite, this`accepted, this`readers, this`writers, data
      ensures Valid() && i <= i' <= |src| && accepted == old(accepted) + src[i..i']
              && (i < i' ==> i' <= can && i' <= kill)
      ensures var room := PIPESIZE - (|old(accepted)| - |consumed|);
              && (out == Returned(-1) <==>
                    i < |src| && (!readopen || kill <= i || (kill < |src| && kill <= can && kill - i <= room)))
              && (out.Slept? <==>
                    readopen && i + room < |src| && i + room < kill && (room == 0 || i + room <= can))
      ensures out.Slept? ==>
                i' < |src| && |accepted| == |consumed| + PIPESIZE && readers == {} && writers == old(writers) + {p}
      ensures out == Returned(-1) ==>
                readers == old(readers) && writers == old(writers) && i' < |src|
                && if readopen then kill <= i' else i' == i
      ensures out.Returned? && out.value != -1 ==>
                out.value == i' && (i' == |src| || can <= i') && readers == {} && writers == old(writers)
      ensures old(Quiet()) ==>
                (Quiet() <==>
                    !(readopen && old(readers) != {} && i < kill < |src| && kill <= can && kill <= i + PIPESIZE))
    {
      i' := i;
      assert src[i..i'] == [];
      while i' < |src|
        invariant Valid() && i <= i' <= |src| && accepted == old(accepted) + src[i..i']
                  && (i < i' ==> i' <= can && i' <= kill)
        invariant readers == old(readers) && writers == old(writers)
        invariant |accepted| == |old(accepted)| + (i' - i)
        invariant i < i' ==> readopen && |old(accepted)| < |consumed| + PIPESIZE
      {
        if !readopen || kill <= i' {
          return Returned(-1), i';
        }
        Tests(|consumed|, |accepted|);
        if nwrite == (nread + PIPESIZE) % WRAP {
          readers := {};
          writers := writers + {p};
          return Slept, i';
        }
        if can <= i' {
          break;
        }
        Put(src[i']);
        assert src[i..i' + 1] == src[i..i'] + [src[i']];
        i' := i' + 1;
      }
      readers := {};
      out := Returned(i');
    }

    /** piperead by process p, until it returns or sleeps; the first `can` bytes of the destination can be copied to.
        What it copies out is what it takes out, but for a last byte that it could not copy; there is one exactly if
        the destination ends before the bytes wanted and those there do. It stops early only at such a byte or when the
        pipe is empty. */
    method Read(p: int, n: nat, can: nat, killed: bool) returns (out: Outcome, dst: seq<int>)
      requires Valid() && p !in writers && p !in readers
      modifies this`nread, this`consumed, this`readers, this`writers
      ensures Valid() && |dst| <= n && |dst| <= can
      ensures var empty := |accepted| == |old(consumed)| && writeopen;
              (out.Slept? <==> empty && !killed) && (out == Returned(-1) <==> empty && killed)
      ensures out.Slept? ==>
                dst == [] && consumed == old(consumed) && readers == old(readers) + {p} && writers == old(writers)
      ensures out == Returned(-1) ==>
                dst == [] && consumed == old(consumed) && readers == old(readers) && writers == old(writers)
      ensures out.Returned? && out.value != -1 ==> out.value == |dst| && readers == old(readers) && writers == {}
      ensures out.Returned? && out.value != -1 ==>
                || (consumed == old(consumed) + dst && (|dst| == n || consumed == accepted))
                || (|dst| == can < n && exists ch :: consumed == old(consumed) + dst + [ch])
      ensures out.Returned? && out.value != -1 ==>
                (consumed == old(consumed) + dst <==> !(can < n && can < |accepted| - |old(consumed)|))
      ensures old(Quiet()) ==> Quiet()
    {
      dst := [];
      Tests(|consumed|, |accepted|);
      if nread == nwrite && writeopen {
        if killed {
          return Returned(-1), [];
        }
        readers := readers + {p};
        return Slept, [];
      }
      while |dst| < n
        invariant Valid() && |dst| <= n && |dst| <= can && consumed == old(consumed) + dst && readers == old(readers)
                  && writers == old(writers)
        invariant dst != [] ==> |old(accepted)| != |old(consumed)|
      {
        Tests(|consumed|, |accepted|);
        if nread == nwrite {
          break;
        }
        var ch := Get();
        if can <= |dst| {
          assert consumed == old(consumed) + dst + [ch];
          break;
        }
        dst := dst + [ch];
      }
      writers := {};
      out := Returned(|dst|);
    }

    /** pipeclose; true if the pipe is freed. */
    method Close(writable: bool) returns (gone: bool)
      requires Valid()
      modifies this`readopen, this`writeopen, this`readers, this`writers
      ensures Valid() && (gone <==> !readopen && !writeopen)
      ensures if writable then !writeopen && readopen == old(readopen) && readers == {} && writers == old(writers)
              else !readopen && writeopen == old(writeopen) && writers == {} && readers == old(readers)
      ensures old(Quiet()) ==> Quiet()
    {
      if writable {
        writeopen := false;
        readers := {};
      } else {
        readopen := false;
        writers := {};
      }
      gone := !readopen && !writeopen;
    }

    /** kkill makes a sleeping process runnable. */
    method Kill(p: int)
      requires Valid()
      modifies this`readers, this`writers
      ensures Valid() && readers == old(readers) - {p} && writers == old(writers) - {p}
      ensures old(Quiet()) ==> Quiet()
    {
      readers, writers := readers - {p}, writers - {p};
    }
  }

  /** A run in which a sleeper is forgotten: process 1 sleeps on the empty pipe, process 2 puts in a byte and is
      killed before its second one. */
  method KilledWriter(ch: int) returns (pipe: PipeBuffer)
    ensures fresh(pipe) && pipe.Valid() && !pipe.Quiet() && pipe.readers == {1} && pipe.accepted == [ch]
            && pipe.consumed == []
  {
    pipe := new PipeBuffer();
    var out, dst := pipe.Read(1, 1, 1, false);
    var i;
    out, i := pipe.Write(2, [ch, ch], 0, 2, 1);
    assert [ch, ch][0..1] == [ch];
    assert 1 in pipe.readers;
  }

  /** A run in which a byte is lost: it is consumed, but the reader gets nothing and returns 0. */
  method LostByte(ch: int) returns (pipe: PipeBuffer, out: Outcome, dst: seq<int>)
    ensures fresh(pipe) && pipe.Valid() && out == Returned(0) && dst == [] && pipe.accepted == pipe.consumed == [ch]
  {
    pipe := new PipeBuffer();
    var i;
    out, i := pipe.Write(1, [ch], 0, 1, 1);
    assert [ch][0..1] == [ch];
    out, dst := pipe.Read(2, 1, 0, false);
  }
}
