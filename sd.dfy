/** sd.c: the older SD driver. It frames the same commands as diskio.c and
    reads the same responses, but keeps its loop counter and response
    registers in module globals, and its sdInit uses do-while loops with a
    post-decremented counter. Every exchange is specified by the same
    functions as diskio.c's. */
module SdLegacy {
  import opened ByteOrder
  import opened Spi
  import DiskIo

  /** The driver's globals `i`, `resp8b` and `resp16`, and the bus it uses. */
  class Sd {
    const bus: Bus
    var i: Byte
    var resp8b: Byte
    var resp16: U16

    constructor (b: Bus)
      ensures bus == b && i == 0 && resp8b == 0 && resp16 == 0
    {
      bus := b;
      i := 0;
      resp8b := 0;
      resp16 := 0;
    }

    /** sdCommand: the same eight bytes as diskio.c's. */
    method SdCommand(cmd: Byte, paramx: U16, paramy: U16)
      modifies bus
      ensures bus.sent == old(bus.sent) + DiskIo.CommandFrame(cmd, paramx, paramy)
      ensures !bus.selected && bus.prescale == old(bus.prescale)
    {
      DiskIo.SdCommand(bus, cmd, paramx, paramy);
    }

    /** sdResp8b over the globals: `i` is left at the index of the answer
        returned, or at 8 when all eight were idle. */
    method SdResp8b() returns (r: Byte)
      modifies this`i, this`resp8b, bus
      ensures var rep := DiskIo.Resp8b(bus.card, |old(bus.sent)|);
        r == rep.value && resp8b == r && bus.sent == old(bus.sent) + Idle(rep.pings)
        && i == (if r != IDLE then rep.pings - 1 else 8)
      ensures bus.selected == (r != IDLE) && bus.prescale == old(bus.prescale)
    {
      ghost var at := |bus.sent|;
      bus.Select();
      i := 0;
      resp8b := IDLE;
      while i < 8
        invariant 0 <= i <= 8 && bus.sent == old(bus.sent) + Idle(i as nat)
        invariant bus.selected && bus.prescale == old(bus.prescale)
        invariant forall p :: at <= p < at + i ==> Answer(bus.card, p) == IDLE
        invariant resp8b == IDLE
      {
        resp8b := bus.Send(IDLE);
        IdleSplit(i as nat, 1);
        if resp8b != IDLE {
          DiskIo.RespFromFirst(bus.card, at, 0, i as nat);
          return resp8b;
        }
        i := i + 1;
      }
      DiskIo.RespFromFirst(bus.card, at, 0, 7);
      bus.Unselect();
      return resp8b;
    }

    /** sdResp16b: the word is kept in the global resp16. */
    method SdResp16b() returns (w: U16)
      modifies this`i, this`resp8b, this`resp16, bus
      ensures w == DiskIo.Resp16b(bus.card, |old(bus.sent)|) && resp16 == w
      ensures bus.sent == old(bus.sent) + Idle(DiskIo.Resp8b(bus.card, |old(bus.sent)|).pings) + [IDLE]
      ensures !bus.selected && bus.prescale == old(bus.prescale)
    {
      bus.Select();
      var hi := SdResp8b();
      resp16 := hi * TWO8;
      bus.Select();
      var lo := bus.Send(IDLE);
      resp16 := resp16 + lo;
      bus.Unselect();
      return resp16;
    }

    method SdState() returns (r: int)
      modifies this`i, this`resp8b, this`resp16, bus
      ensures var f := old(bus.sent) + DiskIo.CommandFrame(13, 0, 0);
        r == DiskIo.StateCode(DiskIo.Resp16b(bus.card, |f|))
        && bus.sent == f + Idle(DiskIo.Resp8b(bus.card, |f|).pings) + [IDLE]
      ensures !bus.selected && bus.prescale == old(bus.prescale)
    {
      SdCommand(13, 0, 0);
      var value := SdResp16b();
      if value == 0 {
        return 1;
      }
      return -1;
    }

    /** `do { sdCommand(cmd, 0, 0); resp = sdResp8b(); } while (goal not met
        && i--);` with i starting at `count`: the body runs once, then once
        more for each of the values count, ..., 1 the counter passes, so it
        is the retry loop of diskio.c with count + 1 attempts, entered with
        an answer that does not meet the goal. */
    method RetryDoWhile(cmd: Byte, g: DiskIo.Goal, ghost resp0: Byte, count: int) returns (resp: Byte)
      requires DiskIo.Continues(g, resp0) && 0 <= count < 0x8000
      modifies this`i, this`resp8b, bus
      ensures var p := DiskIo.Retry(bus.card, cmd, old(bus.sent), resp0, count + 1, g);
        resp == p.resp && bus.sent == p.log && bus.selected == (resp != IDLE)
      ensures bus.prescale == old(bus.prescale)
    {
      ghost var p0 := DiskIo.Retry(bus.card, cmd, bus.sent, resp0, count + 1, g);
      var k: int := count;
      SdCommand(cmd, 0, 0);
      resp := SdResp8b();
      while true
        invariant 0 <= k <= count
        invariant var p := DiskIo.Retry(bus.card, cmd, bus.sent, resp, k, g);
          p.resp == p0.resp && p.log == p0.log
        invariant bus.selected == (resp != IDLE) && bus.prescale == old(bus.prescale)
        decreases k
      {
        if !DiskIo.Continues(g, resp) {
          break;
        }
        var was := k;
        k := k - 1;
        if was == 0 {
          break;
        }
        SdCommand(cmd, 0, 0);
        resp := SdResp8b();
      }
    }

    /** sdInit: CMD0 up to 101 times until the answer is 1, then CMD1 up to
        32001 times while the answer stays 1; the codes are diskio.c's. */
    method SdInit() returns (r: int)
      modifies this`i, this`resp8b, bus
      ensures var run := DiskIo.InitSpec(bus.card, old(bus.sent), 101, 32001);
        r == run.code && bus.sent == run.log && bus.selected == (run.last != IDLE)
      ensures bus.prescale == old(bus.prescale)
    {
      ghost var p := DiskIo.Retry(bus.card, 0, bus.sent, 0, 101, DiskIo.Until(1));
      var resp := RetryDoWhile(0, DiskIo.Until(1), 0, 100);
      assert p.tries > 0;
      if resp != 1 {
        if resp == IDLE {
          return -1;
        }
        return -2;
      }
      ghost var q := DiskIo.Retry(bus.card, 1, p.log, 1, 32001, DiskIo.While(1));
      resp := RetryDoWhile(1, DiskIo.While(1), 1, 32000);
      assert q.tries > 0;
      if resp != 0 {
        return -3;
      }
      return 0;
    }
  }

  /** Without a card the older sdInit sends CMD0 101 times where
      diskio.c's sends it 100 times: the post-decremented do-while counter
      allows one attempt more. */
  lemma OneMoreReset(log: seq<Byte>)
    ensures DiskIo.InitSpec([], log, 101, 32001).cmd0s == 101
    ensures DiskIo.InitSpec([], log, 100, 32000).cmd0s == 100
    ensures |DiskIo.InitSpec([], log, 101, 32001).log| == |DiskIo.InitSpec([], log, 100, 32000).log| + 16
  {
    DiskIo.NoCard(log, 101, 32001);
    DiskIo.NoCard(log, 100, 32000);
  }
}
