/** diskio.c: the SD card in SPI mode, driven one byte at a time over the bus
    of spi.c. Each exchange is specified by a function of the card's answer
    stream and of the transfer count at its start: what the driver sends,
    what it returns, and where the stream is left. */
module DiskIo {
  import opened ByteOrder
  import opened Spi
  import FatTypes

  /** CMDREAD: READ_SINGLE_BLOCK. */
  const CMDREAD: Byte := 17
  /** The start token in front of a data block. */
  const START_BLOCK: Byte := 0xFE

  datatype DResult = RES_OK | RES_ERROR | RES_NOTRDY | RES_PARERR

  /* ---------------- Command frames ---------------- */

  /** `0x40 | cmd`: the start and transmission bits in front of the command
      index (section 7.3.1.1 of the SD Physical Layer Simplified
      Specification). */
  function CommandToken(cmd: Byte): (t: Byte)
    ensures cmd < 64 ==> t == 0x40 + cmd
    ensures t == BitOr(0x40, cmd)
  {
    assert Pow2(6) == 64 && Pow2(8) == 256;
    BitOrBelow(0x40, cmd, 8);
    BitOrHighBit(6, cmd);
    BitOr(0x40, cmd)
  }

  /** sdCommand: the eight bytes it sends. */
  function CommandFrame(cmd: Byte, paramx: U16, paramy: U16): (f: seq<Byte>)
    ensures |f| == 8
  {
    [IDLE, CommandToken(cmd), paramx / TWO8, paramx % TWO8,
     paramy / TWO8, paramy % TWO8, 0x95, IDLE]
  }

  /** The four argument bytes of a frame are the 32-bit argument
      paramx * 2^16 + paramy, most significant byte first. */
  lemma FrameArgument(cmd: Byte, paramx: U16, paramy: U16)
    ensures var f := CommandFrame(cmd, paramx, paramy);
      f[0] == IDLE && f[6] == 0x95 && f[7] == IDLE
      && ((f[2] * TWO8 + f[3]) * TWO8 + f[4]) * TWO8 + f[5] == paramx * TWO16 + paramy
  {
    var f := CommandFrame(cmd, paramx, paramy);
    assert f[2] * TWO8 + f[3] == paramx;
    assert f[4] * TWO8 + f[5] == paramy;
  }

  /** The byte address disk_readp sends: 512 * sector in 32-bit arithmetic. */
  function Place(sector: U32): U32
  {
    U32Of(512 * sector)
  }

  /** The CMD17 frame carries Place(sector) as its argument, and for a
      sector below 2^23 that is the exact byte address. */
  lemma ReadAddress(sector: U32)
    ensures var f := CommandFrame(CMDREAD, Place(sector) / TWO16, Place(sector) % TWO16);
      f[1] == 0x51
      && ((f[2] * TWO8 + f[3]) * TWO8 + f[4]) * TWO8 + f[5] == Place(sector)
    ensures sector < 0x80_0000 ==> Place(sector) == 512 * sector
  {
    FrameArgument(CMDREAD, Place(sector) / TWO16, Place(sector) % TWO16);
  }

  method SdCommand(bus: Bus, cmd: Byte, paramx: U16, paramy: U16)
    modifies bus
    ensures bus.sent == old(bus.sent) + CommandFrame(cmd, paramx, paramy)
    ensures !bus.selected && bus.prescale == old(bus.prescale)
  {
    bus.Select();
    var echo := bus.Send(IDLE);
    echo := bus.Send(CommandToken(cmd));
    echo := bus.Send(paramx / TWO8);
    echo := bus.Send(paramx % TWO8);
    echo := bus.Send(paramy / TWO8);
    echo := bus.Send(paramy % TWO8);
    echo := bus.Send(0x95);
    echo := bus.Send(IDLE);
    bus.Unselect();
  }

  /* ---------------- Responses ---------------- */

  /** An R1 response: how many transfers it took and the byte returned. */
  datatype Reply = Reply(pings: nat, value: Byte)

  /** sdResp8b: up to eight transfers, stopping at the first byte that is
      not idle; if all eight are idle the answer is the idle byte. */
  function Resp8b(card: seq<Byte>, at: nat): (r: Reply)
    ensures 1 <= r.pings <= 8
  {
    RespFrom(card, at, 0)
  }

  function RespFrom(card: seq<Byte>, at: nat, k: nat): (r: Reply)
    requires k < 8
    ensures k + 1 <= r.pings <= 8
    decreases 8 - k, at
  {
    if Answer(card, at + k) != IDLE || k == 7 then Reply(k + 1, Answer(card, at + k))
    else RespFrom(card, at, k + 1)
  }

  /** The reply is the first answer that is not idle among the next eight,
      and the answers skipped before it were all idle; an idle reply means
      all eight were idle. */
  lemma Resp8bMeaning(card: seq<Byte>, at: nat)
    ensures var r := Resp8b(card, at);
      r.value == Answer(card, at + r.pings - 1)
      && (forall p :: at <= p < at + r.pings - 1 ==> Answer(card, p) == IDLE)
      && (r.value == IDLE ==> r.pings == 8)
  {
    RespFromMeaning(card, at, 0);
  }

  lemma {:induction false} RespFromMeaning(card: seq<Byte>, at: nat, k: nat)
    requires k < 8
    ensures var r := RespFrom(card, at, k);
      r.value == Answer(card, at + r.pings - 1)
      && (forall p :: at + k <= p < at + r.pings - 1 ==> Answer(card, p) == IDLE)
      && (r.value == IDLE ==> r.pings == 8)
    decreases 8 - k
  {
    if !(Answer(card, at + k) != IDLE || k == 7) {
      RespFromMeaning(card, at, k + 1);
    }
  }

  /** Conversely, when answers k..i-1 are idle and answer i is not (or i is
      the last of the eight), the scan from k ends at i. */
  lemma {:induction false} RespFromFirst(card: seq<Byte>, at: nat, k: nat, i: nat)
    requires k <= i < 8
    requires forall p :: at + k <= p < at + i ==> Answer(card, p) == IDLE
    requires Answer(card, at + i) != IDLE || i == 7
    ensures RespFrom(card, at, k) == Reply(i + 1, Answer(card, at + i))
    decreases i - k
  {
    if k < i {
      assert Answer(card, at + k) == IDLE;
      RespFromFirst(card, at, k + 1, i);
    }
  }

  /** sdResp8b. The card stays selected after a non-idle answer; only the
      all-idle path deselects it. */
  method SdResp8b(bus: Bus) returns (resp8b: Byte)
    modifies bus
    ensures var r := Resp8b(bus.card, |old(bus.sent)|);
      resp8b == r.value && bus.sent == old(bus.sent) + Idle(r.pings)
    ensures bus.selected == (resp8b != IDLE) && bus.prescale == old(bus.prescale)
  {
    ghost var at := |bus.sent|;
    bus.Select();
    var i := 0;
    resp8b := IDLE;
    while i < 8
      invariant 0 <= i <= 8 && bus.sent == old(bus.sent) + Idle(i)
      invariant bus.selected && bus.prescale == old(bus.prescale)
      invariant forall p :: at <= p < at + i ==> Answer(bus.card, p) == IDLE
      invariant resp8b == IDLE
    {
      resp8b := bus.Send(IDLE);
      IdleSplit(i, 1);
      if resp8b != IDLE {
        RespFromFirst(bus.card, at, 0, i);
        return;
      }
      i := i + 1;
    }
    RespFromFirst(bus.card, at, 0, 7);
    bus.Unselect();
  }

  /** sdResp16b: the R1 byte, then one more byte; the word is their
      big-endian pair. */
  function Resp16b(card: seq<Byte>, at: nat): (w: U16)
  {
    var hi := Resp8b(card, at);
    hi.value * TWO8 + Answer(card, at + hi.pings)
  }

  /** The 16-bit status word splits back into the R1 byte and the byte
      after it, so it is zero exactly when both are. */
  lemma Resp16bBytes(card: seq<Byte>, at: nat)
    ensures var hi := Resp8b(card, at);
      Resp16b(card, at) / TWO8 == hi.value && Resp16b(card, at) % TWO8 == Answer(card, at + hi.pings)
      && (Resp16b(card, at) == 0 <==> hi.value == 0 && Answer(card, at + hi.pings) == 0)
  {
    var hi := Resp8b(card, at);
    DivModUnique(Resp16b(card, at), TWO8, hi.value, Answer(card, at + hi.pings));
  }

  method SdResp16b(bus: Bus) returns (resp16: U16)
    modifies bus
    ensures resp16 == Resp16b(bus.card, |old(bus.sent)|)
    ensures bus.sent == old(bus.sent) + Idle(Resp8b(bus.card, |old(bus.sent)|).pings) + [IDLE]
    ensures !bus.selected && bus.prescale == old(bus.prescale)
  {
    bus.Select();
    var hi := SdResp8b(bus);
    // `(hi << 8) & 0xff00` keeps hi in the high byte; its low byte is zero,
    // so or-ing in the next byte adds it.
    resp16 := hi * TWO8;
    bus.Select();
    var lo := bus.Send(IDLE);
    resp16 := resp16 + lo;
    bus.Unselect();
  }

  /** sdState's code for a CMD13 status word: 1 when it is zero, -1
      otherwise. */
  function StateCode(word: U16): (r: int)
    ensures r == 1 <==> word == 0
    ensures r == 1 || r == -1
  {
    if word == 0 then 1 else -1
  }

  method SdState(bus: Bus) returns (r: int)
    modifies bus
    ensures var f := old(bus.sent) + CommandFrame(13, 0, 0);
      r == StateCode(Resp16b(bus.card, |f|))
      && bus.sent == f + Idle(Resp8b(bus.card, |f|).pings) + [IDLE]
    ensures !bus.selected && bus.prescale == old(bus.prescale)
  {
    SdCommand(bus, 13, 0, 0);
    var value := SdResp16b(bus);
    if value == 0 {
      return 1;
    }
    return -1;
  }

  /* ---------------- Retry loops ---------------- */

  /** The condition a retry loop keeps going on: the answer is not yet the
      wanted one, or the answer is still the busy one. */
  datatype Goal = Until(want: Byte) | While(busy: Byte)

  predicate Continues(g: Goal, resp: Byte)
  {
    match g
    case Until(want) => resp != want
    case While(busy) => resp == busy
  }

  /** A run of a retry loop: the last answer, the bus log after it, the
      number of commands sent. */
  datatype Poll = Poll(resp: Byte, log: seq<Byte>, tries: nat)

  /** `while (goal not met && i > 0) { sdCommand(cmd, 0, 0); resp =
      sdResp8b(); i--; }`, from bus log `log` with answer `resp` and `n`
      attempts left. */
  function Retry(card: seq<Byte>, cmd: Byte, log: seq<Byte>, resp: Byte, n: nat, g: Goal): (p: Poll)
    ensures p.tries <= n
    ensures p.tries < n ==> !Continues(g, p.resp)
    ensures p.tries == 0 ==> p.resp == resp && p.log == log
    ensures p.tries > 0 ==> |p.log| > |log|
    decreases n, |log|
  {
    if !Continues(g, resp) || n == 0 then Poll(resp, log, 0)
    else
      var f := log + CommandFrame(cmd, 0, 0);
      var r := Resp8b(card, |f|);
      var rest := Retry(card, cmd, f + Idle(r.pings), r.value, n - 1, g);
      rest.(tries := rest.tries + 1)
  }

  /** What sdInit does: its code, its last answer (which decides whether the
      card is left selected), the bus log after it and how many CMD0 and CMD1
      commands it sends. `resets` and `inits` are the attempt budgets. */
  datatype InitRun = InitRun(code: int, last: Byte, log: seq<Byte>, cmd0s: nat, cmd1s: nat)

  function InitSpec(card: seq<Byte>, log: seq<Byte>, resets: nat, inits: nat): InitRun
  {
    var p := Retry(card, 0, log, 0, resets, Until(1));
    if p.resp != 1 then InitRun(if p.resp == IDLE then -1 else -2, p.resp, p.log, p.tries, 0)
    else
      var q := Retry(card, 1, p.log, 1, inits, While(1));
      InitRun(if q.resp != 0 then -3 else 0, q.resp, q.log, p.tries, q.tries)
  }

  /** sdInit's codes: -1 when CMD0 never got the idle-state answer 1 and the
      last answer was silence, -2 for another answer, -3 when CMD1 did not
      reach 0, and 0 then. At most `resets` CMD0 and `inits` CMD1 commands
      are sent, and CMD1 only after CMD0 was answered with 1. */
  lemma InitCodes(card: seq<Byte>, log: seq<Byte>, resets: nat, inits: nat)
    requires resets > 0 && inits > 0
    ensures var r := InitSpec(card, log, resets, inits);
      1 <= r.cmd0s <= resets && r.cmd1s <= inits
      && (r.code == -1 <==> r.cmd1s == 0 && r.last == IDLE)
      && (r.code == -2 <==> r.cmd1s == 0 && r.last != IDLE && r.last != 1)
      && (r.code == -3 <==> r.cmd1s > 0 && r.last != 0)
      && (r.code == 0 <==> r.cmd1s > 0 && r.last == 0)
      && (r.cmd1s < inits && r.cmd1s > 0 ==> r.last != 1)
  {
    var p := Retry(card, 0, log, 0, resets, Until(1));
    if p.resp == 1 {
      assert p.tries > 0;
      var q := Retry(card, 1, p.log, 1, inits, While(1));
      assert q.tries > 0;
    }
  }

  /** One of sdInit's retry loops: the command is sent, and its answer
      read, while the goal is not met and attempts remain. */
  method RetryLoop(bus: Bus, cmd: Byte, resp0: Byte, n: nat, g: Goal) returns (resp: Byte)
    modifies bus
    ensures var p := Retry(bus.card, cmd, old(bus.sent), resp0, n, g);
      resp == p.resp && bus.sent == p.log
      && (p.tries > 0 ==> bus.selected == (resp != IDLE))
      && (p.tries == 0 ==> bus.selected == old(bus.selected))
    ensures bus.prescale == old(bus.prescale)
  {
    ghost var p0 := Retry(bus.card, cmd, bus.sent, resp0, n, g);
    var i := n;
    resp := resp0;
    while Continues(g, resp) && i > 0
      invariant 0 <= i <= n && (i == n ==> resp == resp0 && bus.sent == old(bus.sent))
      invariant var p := Retry(bus.card, cmd, bus.sent, resp, i, g);
        p.resp == p0.resp && p.log == p0.log && p0.tries == p.tries + (n - i)
      invariant i < n ==> bus.selected == (resp != IDLE)
      invariant i == n ==> bus.selected == old(bus.selected)
      invariant bus.prescale == old(bus.prescale)
    {
      SdCommand(bus, cmd, 0, 0);
      resp := SdResp8b(bus);
      i := i - 1;
    }
  }

  /** sdInit: up to 100 CMD0 (GO_IDLE_STATE) until the answer is 1, then up
      to 32000 CMD1 (SEND_OP_COND) while the answer stays 1. */
  method SdInit(bus: Bus) returns (r: int)
    modifies bus
    ensures var run := InitSpec(bus.card, old(bus.sent), 100, 32000);
      r == run.code && bus.sent == run.log && bus.selected == (run.last != IDLE)
    ensures bus.prescale == old(bus.prescale)
  {
    ghost var p := Retry(bus.card, 0, bus.sent, 0, 100, Until(1));
    var resp := RetryLoop(bus, 0, 0, 100, Until(1));
    assert p.tries > 0;
    if 1 != resp {
      if IDLE == resp {
        return -1;
      }
      return -2;
    }
    ghost var q := Retry(bus.card, 1, p.log, 1, 32000, While(1));
    resp := RetryLoop(bus, 1, resp, 32000, While(1));
    assert q.tries > 0;
    if resp != 0 {
      return -3;
    }
    return 0;
  }

  /** A card that never answers: every attempt is the frame and eight idle
      bytes, and all `n` attempts are used. */
  lemma {:induction false} RetrySilent(cmd: Byte, log: seq<Byte>, resp: Byte, n: nat)
    requires resp != 1
    ensures var p := Retry([], cmd, log, resp, n, Until(1));
      p.tries == n && |p.log| == |log| + 16 * n && (n > 0 ==> p.resp == IDLE)
    decreases n
  {
    if n > 0 {
      var f := log + CommandFrame(cmd, 0, 0);
      RespFromFirst([], |f|, 0, 7);
      assert Resp8b([], |f|) == Reply(8, IDLE);
      RetrySilent(cmd, f + Idle(8), IDLE, n - 1);
    }
  }

  /** Without a card, sdInit gives up with -1 after exactly `resets` CMD0
      commands and never sends CMD1. */
  lemma NoCard(log: seq<Byte>, resets: nat, inits: nat)
    requires resets > 0
    ensures var r := InitSpec([], log, resets, inits);
      r.code == -1 && r.cmd0s == resets && r.cmd1s == 0 && |r.log| == |log| + 16 * resets
  {
    RetrySilent(0, log, 0, resets);
  }

  /* ---------------- disk_initialize ---------------- */

  /** What disk_initialize does: its status, the bus log after it, and the
      chip select and prescale it leaves. */
  datatype InitDisk = InitDisk(status: Byte, log: seq<Byte>, selected: bool, prescale: Byte)

  function DiskInitSpec(card: seq<Byte>, log: seq<Byte>): InitDisk
  {
    var i := InitSpec(card, log + Idle(21), 100, 32000);
    if i.code < 0 then InitDisk(FatTypes.STA_NOINIT, i.log, i.last != IDLE, 254)
    else
      var f := i.log + CommandFrame(13, 0, 0);
      var after := f + Idle(Resp8b(card, |f|).pings) + [IDLE];
      if StateCode(Resp16b(card, |f|)) < 0 then InitDisk(FatTypes.STA_NOREADY, after, false, 254)
      else InitDisk(0, after, false, Prescale(8))
  }

  method DiskInitialize(bus: Bus) returns (st: Byte)
    modifies bus
    ensures var d := DiskInitSpec(bus.card, old(bus.sent));
      st == d.status && bus.sent == d.log && bus.selected == d.selected && bus.prescale == d.prescale
  {
    bus.Init();
    var r := SdInit(bus);
    if r < 0 {
      return FatTypes.STA_NOINIT;
    }
    r := SdState(bus);
    if r < 0 {
      return FatTypes.STA_NOREADY;
    }
    bus.SetSpeed(8);
    return 0;
  }

  /** Every status disk_initialize returns is 0, STA_NOINIT or STA_NOREADY,
      and it has the STA_NOINIT bit, which is what pf_mount tests, exactly
      when it is not 0. Initialisation succeeds only when sdInit returned 0
      and the CMD13 status word was 0, and it then leaves the fastest
      prescale, 64: the requested 8 is raised to the minimum. */
  lemma DiskStatus(card: seq<Byte>, log: seq<Byte>)
    ensures var d := DiskInitSpec(card, log);
      var i := InitSpec(card, log + Idle(21), 100, 32000);
      (d.status == 0 || d.status == FatTypes.STA_NOINIT || d.status == FatTypes.STA_NOREADY)
      && (BitAnd(d.status, FatTypes.STA_NOINIT) != 0 <==> d.status != 0)
      && (d.status == 0 <==>
            i.code == 0 && Resp16b(card, |i.log + CommandFrame(13, 0, 0)|) == 0)
      && (d.status == 0 ==> d.prescale == 64)
  {
    InitCodes(card, log + Idle(21), 100, 32000);
    PrescaleRange(8);
    assert BitAnd(3, 1) == 1;
  }

  /* ---------------- disk_readp ---------------- */

  /** The number of bytes the data loop clocks after skipping sofs:
      `512 - sofs` compared with a 32-bit counter. */
  function Span(sofs: U16): (n: U32)
    ensures sofs <= 512 ==> n == 512 - sofs
  {
    U32Of(512 - sofs)
  }

  /** The number of those bytes stored into the destination. */
  function Stored(sofs: U16, count: U16): (n: nat)
    ensures n <= count && n <= Span(sofs)
    ensures n == count || n == Span(sofs)
  {
    if count < Span(sofs) then count else Span(sofs)
  }

  /** n consecutive answers of the card from transfer `at` on. */
  function Window(card: seq<Byte>, at: nat, n: nat): (w: seq<Byte>)
    ensures |w| == n && forall k :: 0 <= k < n ==> w[k] == Answer(card, at + k)
  {
    seq<Byte>(n, (k: nat) => Answer(card, at + k))
  }

  /** A run of the start-token wait: the token seen, the bus log after it,
      the number of reads. */
  datatype Wait = Wait(token: Byte, log: seq<Byte>, tries: nat)

  /** `while (firstblock == 0xff && fb_timeout > 0) { firstblock =
      sdResp8b(); fb_timeout--; }` from the token fb. */
  function TokenPoll(card: seq<Byte>, log: seq<Byte>, fb: Byte, timeout: nat): (w: Wait)
    ensures w.tries <= timeout
    ensures w.tries < timeout ==> w.token != IDLE
    ensures w.tries == 0 ==> w.token == fb && w.log == log
    decreases timeout, |log|
  {
    if fb != IDLE || timeout == 0 then Wait(fb, log, 0)
    else
      var r := Resp8b(card, |log|);
      var rest := TokenPoll(card, log + Idle(r.pings), r.value, timeout - 1);
      rest.(tries := rest.tries + 1)
  }

  method WaitStartBlock(bus: Bus, fb0: Byte, timeout: nat) returns (fb: Byte)
    modifies bus
    ensures var w := TokenPoll(bus.card, old(bus.sent), fb0, timeout);
      fb == w.token && bus.sent == w.log
      && (w.tries > 0 ==> bus.selected == (fb != IDLE))
      && (w.tries == 0 ==> bus.selected == old(bus.selected))
    ensures bus.prescale == old(bus.prescale)
  {
    ghost var w0 := TokenPoll(bus.card, bus.sent, fb0, timeout);
    var left := timeout;
    fb := fb0;
    while fb == IDLE && left > 0
      invariant 0 <= left <= timeout && (left == timeout ==> fb == fb0 && bus.sent == old(bus.sent))
      invariant var w := TokenPoll(bus.card, bus.sent, fb, left);
        w.token == w0.token && w.log == w0.log && w0.tries == w.tries + (timeout - left)
      invariant left < timeout ==> bus.selected == (fb != IDLE)
      invariant left == timeout ==> bus.selected == old(bus.selected)
      invariant bus.prescale == old(bus.prescale)
    {
      fb := SdResp8b(bus);
      left := left - 1;
    }
  }

  /** What disk_readp does: its result, the bus log after it, the bytes it
      stores at dest and whether the card is left selected. `fb0` is the
      value firstblock starts with. */
  datatype ReadRun = ReadRun(res: DResult, log: seq<Byte>, data: seq<Byte>, selected: bool)

  function ReadSpec(card: seq<Byte>, log: seq<Byte>, sector: U32, sofs: U16, count: U16, fb0: Byte): (run: ReadRun)
    ensures run.res == RES_OK || run.res == RES_ERROR
    ensures run.res == RES_OK ==> |run.data| == Stored(sofs, count) && !run.selected
    ensures run.res == RES_ERROR ==> run.data == []
  {
    var place := Place(sector);
    var f := log + CommandFrame(CMDREAD, place / TWO16, place % TWO16);
    var c := Resp8b(card, |f|);
    var w := TokenPoll(card, f + Idle(c.pings), fb0, 0xFFFF);
    if c.value != 0 || w.token != START_BLOCK then
      ReadRun(RES_ERROR, w.log, [], if w.tries > 0 then w.token != IDLE else c.value != IDLE)
    else
      ReadRun(RES_OK, w.log + Idle(sofs) + Idle(Span(sofs)) + [IDLE] + [IDLE],
              Window(card, |w.log| + sofs, Stored(sofs, count)), false)
  }

  /** The block transfer after the start token: sofs bytes skipped, the
      rest of the block clocked with its first `count` bytes stored, then
      the two CRC bytes. */
  method ReceiveBlock(bus: Bus, dest: array<Byte>, sofs: U16, count: U16)
    requires dest.Length >= Stored(sofs, count)
    modifies bus, dest
    ensures bus.sent == old(bus.sent) + Idle(sofs) + Idle(Span(sofs)) + [IDLE] + [IDLE]
    ensures !bus.selected && bus.prescale == old(bus.prescale)
    ensures forall k :: 0 <= k < dest.Length ==>
      dest[k] == if k < Stored(sofs, count) then Answer(bus.card, |old(bus.sent)| + sofs + k) else old(dest[k])
  {
    bus.Select();
    ghost var s0 := bus.sent;
    var i: nat := 0;
    while i < sofs
      invariant i <= sofs && bus.sent == s0 + Idle(i)
      invariant bus.selected && bus.prescale == old(bus.prescale)
      modifies bus
    {
      var echo := bus.Send(IDLE);
      IdleSplit(i, 1);
      i := i + 1;
    }
    ghost var s1 := bus.sent;
    i := 0;
    while i < Span(sofs)
      invariant i <= Span(sofs) && bus.sent == s1 + Idle(i)
      invariant bus.selected && bus.prescale == old(bus.prescale)
      invariant forall k :: 0 <= k < dest.Length ==>
        dest[k] == if k < i && k < count then Answer(bus.card, |s1| + k) else old(dest[k])
    {
      var c := bus.Send(IDLE);
      if i < count {
        dest[i] := c;
      }
      IdleSplit(i, 1);
      i := i + 1;
    }
    var echo := bus.Send(IDLE);
    echo := bus.Send(IDLE);
    bus.Unselect();
  }

  /** disk_readp with firstblock starting at 0xFF, so that the wait for the
      start token runs. */
  method DiskReadp(bus: Bus, dest: array<Byte>, sector: U32, sofs: U16, count: U16) returns (res: DResult)
    requires dest.Length >= Stored(sofs, count)
    modifies bus, dest
    ensures var run := ReadSpec(bus.card, old(bus.sent), sector, sofs, count, IDLE);
      res == run.res && bus.sent == run.log && bus.selected == run.selected
      && forall k :: 0 <= k < dest.Length ==> dest[k] == if k < |run.data| then run.data[k] else old(dest[k])
    ensures bus.prescale == Prescale(8)
  {
    bus.SetSpeed(8);
    var cardresp: Byte := 0;
    var firstblock: Byte := IDLE;
    var place := U32Of(512 * sector);
    SdCommand(bus, CMDREAD, place / TWO16, place % TWO16);
    cardresp := SdResp8b(bus);
    firstblock := WaitStartBlock(bus, firstblock, 0xFFFF);
    if cardresp != 0 || firstblock != START_BLOCK {
      return RES_ERROR;
    }
    ReceiveBlock(bus, dest, sofs, count);
    return RES_OK;
  }

  /** disk_readp as written: firstblock starts at 0, so the wait loop never
      runs and the start-token test always fails; the block transfer after
      it is unreachable and nothing is stored at dest. */
  method DiskReadpAsWritten(bus: Bus, sector: U32, sofs: U16, count: U16) returns (res: DResult)
    modifies bus
    ensures var run := ReadSpec(bus.card, old(bus.sent), sector, sofs, count, 0);
      res == run.res && bus.sent == run.log && bus.selected == run.selected
    ensures bus.prescale == Prescale(8)
  {
    bus.SetSpeed(8);
    var cardresp: Byte := 0;
    var firstblock: Byte := 0;
    var place := U32Of(512 * sector);
    SdCommand(bus, CMDREAD, place / TWO16, place % TWO16);
    cardresp := SdResp8b(bus);
    firstblock := WaitStartBlock(bus, firstblock, 0xFFFF);
    if cardresp != 0 || firstblock != START_BLOCK {
      res := RES_ERROR;
    } else {
      assert false;
      res := RES_OK;
    }
  }

  /** Whatever the card answers, disk_readp as written fails: it reads no
      token after the R1 byte and stores nothing. */
  lemma AsWrittenAlwaysFails(card: seq<Byte>, log: seq<Byte>, sector: U32, sofs: U16, count: U16)
    ensures var run := ReadSpec(card, log, sector, sofs, count, 0);
      var place := Place(sector);
      var f := log + CommandFrame(CMDREAD, place / TWO16, place % TWO16);
      run.res == RES_ERROR && run.data == [] && run.log == f + Idle(Resp8b(card, |f|).pings)
  {
  }

  /** A card that answers CMD17 with R1 = 0 at once, then the start token,
      then the 512 bytes of a block: the corrected disk_readp returns RES_OK
      with exactly the `count` bytes at offset sofs, and the whole exchange
      is the 8-byte frame, the R1 and token reads, the block and its CRC. */
  lemma ReadsBlock(card: seq<Byte>, log: seq<Byte>, sector: U32, sofs: U16, count: U16, block: seq<Byte>)
    requires |block| == 512 && sofs + count <= 512
    requires Answer(card, |log| + 8) == 0 && Answer(card, |log| + 9) == START_BLOCK
    requires forall k :: 0 <= k < 512 ==> Answer(card, |log| + 10 + k) == block[k]
    ensures var run := ReadSpec(card, log, sector, sofs, count, IDLE);
      run.res == RES_OK && run.data == block[sofs..sofs + count] && !run.selected
      && |run.log| == |log| + 524
  {
    var place := Place(sector);
    var f := log + CommandFrame(CMDREAD, place / TWO16, place % TWO16);
    RespFromFirst(card, |f|, 0, 0);
    var l2 := f + Idle(1);
    RespFromFirst(card, |l2|, 0, 0);
    assert TokenPoll(card, l2, IDLE, 0xFFFF) == Wait(START_BLOCK, l2 + Idle(1), 1);
    var run := ReadSpec(card, log, sector, sofs, count, IDLE);
    forall k | 0 <= k < count
      ensures run.data[k] == block[sofs + k]
    {
      assert run.data[k] == Answer(card, |log| + 10 + (sofs + k));
    }
  }

  /** The same card holding sector `sector` of a disk: the corrected
      disk_readp reads what the abstract partial-sector read returns. */
  lemma ReadsSector(card: seq<Byte>, log: seq<Byte>, disk: FatTypes.Disk, sector: U32, sofs: U16, count: U16)
    requires sector < |disk| && sofs + count <= 512
    requires Answer(card, |log| + 8) == 0 && Answer(card, |log| + 9) == START_BLOCK
    requires forall k :: 0 <= k < 512 ==> Answer(card, |log| + 10 + k) == disk[sector][k]
    ensures var run := ReadSpec(card, log, sector, sofs, count, IDLE);
      run.res == RES_OK && FatTypes.DiskReadp(disk, sector, sofs, count) == FatTypes.Some(run.data)
  {
    ReadsBlock(card, log, sector, sofs, count, disk[sector]);
  }
}
