/** Files stored through the guest agent, block by block from one buffer (Upload of pkg/guestagent/guestagent.go). */
module GuestUpload {

  const BLOCK := 192 * 1024

  type Byte = bv8

  datatype End = More | Eof | Broken

  /** The reader of the body: it hands out what is left in pieces of its own choosing. */
  class Reader {
    const body: seq<Byte>
    const steady: bool  // if so, there are no errors, and every piece has something until the end is reported
    var taken: nat

    ghost predicate Valid()
      reads this
    {
      taken <= |body|
    }

    constructor (body: seq<Byte>, steady: bool)
      ensures Valid() && this.body == body && this.steady == steady && taken == 0
    {
      this.body, this.steady, taken := body, steady, 0;
    }

    /** Overwrites the front of the buffer. The end may come with the last bytes or after them; errors come any time. */
    method Read(buf: array<Byte>) returns (n: nat, end: End)
      requires Valid()
      modifies this`taken, buf
      ensures Valid() && n <= buf.Length && taken == old(taken) + n
      ensures buf[..n] == body[old(taken)..taken]
      ensures end.Eof? ==> taken == |body|
      ensures steady && buf.Length > 0 ==> !end.Broken? && (n > 0 || end.Eof?)
    {
      var size: int := *;
      n := if 0 <= size <= buf.Length && size <= |body| - taken then size else 0;
      if steady && n == 0 && taken < |body| && buf.Length > 0 { n := 1; }
      for i := 0 to n
        invariant taken == old(taken) && buf[..i] == body[taken..taken + i]
      {
        buf[i] := body[taken + i];
        assert buf[..i + 1] == buf[..i] + [body[taken + i]];
      }
      taken := taken + n;
      var broken: bool := *;
      var more: bool := *;
      end := if broken && !steady then Broken else if taken < |body| || (more && (n > 0 || !steady)) then More else Eof;
    }
  }

  /** What is asked of the guest for a file. */
  datatype Request = OpenFile | WriteBlock(block: seq<Byte>) | FlushFile | CloseFile

  /** The guest's side of one file. A call that reports failure may have been executed, a write in part. */
  class GuestFile {
    const faulty: bool      // if not, every call succeeds and a write takes all of its block
    var content: seq<Byte>
    var durable: seq<Byte>  // as of the last flush
    var open: bool
    ghost var asked: seq<Request>

    method Open() returns (ok: bool)
      modifies this
      ensures ok ==> open && content == [] && durable == old(durable)
      ensures !ok ==> durable == old(durable) && (content == old(content) || content == [])
      ensures asked == old(asked) + [OpenFile] && (!faulty ==> ok)
    {
      var executed: bool := *;
      ok := *;
      ok := ok || !faulty;
      if ok || executed { open, content := true, []; }
      asked := asked + [OpenFile];
    }

    /** `count` is how many bytes the guest says it took. */
    method Write(block: seq<Byte>) returns (ok: bool, count: nat)
      requires open
      modifies this`content, this`asked
      ensures old(content) <= content <= old(content) + block
      ensures ok ==> count <= |block| && content == old(content) + block[..count]
      ensures asked == old(asked) + [WriteBlock(block)] && (!faulty ==> ok && count == |block|)
    {
      var size: int := *;
      count := if 0 <= size <= |block| then size else 0;
      if !faulty { count := |block|; }
      content := content + block[..count];
      ok := *;
      ok := ok || !faulty;
      asked := asked + [WriteBlock(block)];
    }

    method Flush() returns (ok: bool)
      requires open
      modifies this`durable, this`asked
      ensures ok ==> durable == content
      ensures asked == old(asked) + [FlushFile] && (!faulty ==> ok)
    {
      var executed: bool := *;
      ok := *;
      ok := ok || !faulty;
      if ok || executed { durable := content; }
      asked := asked + [FlushFile];
    }

    method Close() returns (ok: bool)
      modifies this`open, this`asked
      ensures ok ==> !open
      ensures asked == old(asked) + [CloseFile] && (!faulty ==> ok)
    {
      var executed: bool := *;
      ok := *;
      ok := ok || !faulty;
      if ok || executed { open := false; }
      asked := asked + [CloseFile];
    }
  }

  /** From request `b` on there are writes of at most a block each, and at most a flush behind them. */
  ghost predicate Sends(asked: seq<Request>, b: nat, e: nat) {
    && b <= e <= |asked|
    && (forall k :: b <= k < e - 1 ==> asked[k].WriteBlock?)
    && (forall k :: b <= k < e ==> asked[k].FlushFile? || (asked[k].WriteBlock? && 0 < |asked[k].block| <= BLOCK))
  }

  /**
   Upload. Success means that the guest has the whole body, flushed, and closed the file; after a failure the file
   holds some beginning of it. `patience` bounds how many pieces the context leaves time for.
   */
  method Upload(file: GuestFile, body: Reader, patience: nat) returns (ok: bool, began: bool)
    requires body.Valid() && body.taken == 0
    modifies file, body
    ensures ok ==> began && file.content == file.durable == body.body && !file.open
    ensures began ==> file.content <= body.body
    ensures !began ==> !ok && (file.content == old(file.content) || file.content == [])
    // One open, the blocks, a flush behind them only, and whatever happened one close.
    ensures old(file.asked) < file.asked && file.asked[|old(file.asked)|] == OpenFile
    ensures !began ==> |file.asked| == |old(file.asked)| + 1
    ensures began ==>
      && |file.asked| >= |old(file.asked)| + 2 && file.asked[|file.asked| - 1] == CloseFile
      && Sends(file.asked, |old(file.asked)| + 1, |file.asked| - 1)
    ensures !file.faulty ==> began
    ensures !file.faulty && body.steady && patience > |body.body| ==> ok
  {
    began := file.Open();
    if !began { return false, false; }
    ok := Copy(file, body, patience);
    var closed := file.Close();
    ok := ok && closed;
  }

  /** Sends block after block from the same buffer, then flushes; the first short or failed write ends it. */
  method Copy(file: GuestFile, body: Reader, patience: nat) returns (ok: bool)
    requires file.open && file.content == [] && body.Valid() && body.taken == 0
    modifies file`content, file`durable, file`asked, body
    ensures ok ==> file.content == file.durable == body.body
    ensures file.content <= body.body
    ensures old(file.asked) <= file.asked && Sends(file.asked, |old(file.asked)|, |file.asked|)
    ensures !file.faulty && body.steady && patience > |body.body| ==> ok
  {
    var buf := new Byte[BLOCK];
    var left := patience;
    while left > 0
      invariant body.Valid() && file.content == body.body[..body.taken]
      invariant old(file.asked) <= file.asked
      invariant forall k :: |old(file.asked)| <= k < |file.asked| ==>
        file.asked[k].WriteBlock? && 0 < |file.asked[k].block| <= BLOCK
      invariant !file.faulty && body.steady && patience > |body.body| ==> left > |body.body| - body.taken
    {
      left := left - 1;
      ghost var from := body.taken;
      var n, end := body.Read(buf);
      ghost var upto := body.taken;
      assert body.body[..from] + body.body[from..upto] == body.body[..upto];
      if n > 0 {
        var written, count := file.Write(buf[..n]);
        if !written || count != n {
          assert file.content <= body.body[..upto];
          return false;
        }
        assert buf[..n][..count] == buf[..n];
      }
      if end.Eof? {
        assert body.body[..upto] == body.body;
        ok := file.Flush();
        return;
      }
      if end.Broken? { return false; }
    }
    ok := false;  // the caller's context ends
  }
}
