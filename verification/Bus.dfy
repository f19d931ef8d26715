/** The BME280 chip as the driver meets it: one bus transaction at a time. */
module Bus {
  import opened Registers

  /** What the world does around bus transaction number n.
      - settles: the running forced conversion has ended by now
      - fails: the transfer is reported as -1
      - lands: a write reported as failed has reached the chip all the same
      - honoured: a config write outside sleep mode is obeyed (the datasheet only says it may be ignored)
      - garbage, junk: what the receive buffer holds after a failed read of one byte, of several bytes
      - data: the contents of the eight measurement registers from 0xF7 */
  datatype Tick = Tick(settles: bool, fails: bool, lands: bool, honoured: bool,
                       garbage: bv8, junk: nat -> byte, data: Frame)

  type byte = x: int | 0 <= x < 256

  type Frame = f: seq<byte> | |f| == 8 witness [0, 0, 0, 0, 0, 0, 0, 0]

  /** The calibration bytes burnt into the chip: 26 from 0x88, and 7 from 0xE1. */
  datatype Nvm = Nvm(low: seq<byte>, high: seq<byte>)
  {
    predicate Valid() { |low| == 26 && |high| == 7 }
  }

  const CALIB_LOW_REG: int := 0x88
  const CALIB_HIGH_REG: int := 0xE1

  type Env = nat -> Tick

  /** From transaction `now` on, every transfer succeeds. */
  ghost predicate Reliable(env: Env, now: nat) {
    forall n: nat :: n >= now ==> !env(n).fails
  }

  /** The chip's registers, the humidity oversampling in effect, the number of transactions so far,
      and how many config writes arrived while the chip was not asleep. */
  datatype World = World(hum: bv8, meas: bv8, config: bv8, latched: bv8, now: nat, rogue: nat)

  predicate Asleep(w: World) {
    ModeOf(w.meas) == SLEEP_MODE
  }

  predicate IsForced(mode: bv8) {
    mode == 1 || mode == 2
  }

  /** Time passes up to transaction `w.now`: a forced conversion may end and drop the mode to sleep. */
  function Settle(env: Env, w: World): World {
    if env(w.now).settles && IsForced(ModeOf(w.meas))
    then w.(meas := Slept(w.meas))
    else w
  }

  /** The chip obeys one register write. */
  function Obey(w: World, honoured: bool, addr: int, v: bv8): World {
    if addr == RST_REG then
      if v == SOFT_RESET_CODE then w.(hum := 0, meas := 0, config := 0, latched := 0) else w
    else if addr == CTRL_HUM_REG then w.(hum := v)
    else if addr == CTRL_MEAS_REG then w.(meas := v, latched := LatchOf(w.hum))
    else if addr == CONFIG_REG then
      var w' := if Asleep(w) || honoured then w.(config := v) else w;
      if Asleep(w) then w' else w'.(rogue := w.rogue + 1)
    else w
  }

  function Status(t: Tick): (rc: int)
    ensures -1 <= rc <= 0
  {
    if t.fails then -1 else 0
  }

  /** How many of the first n transactions fail. */
  function Failures(env: Env, n: nat): nat {
    if n == 0 then 0 else Failures(env, n - 1) + if env(n - 1).fails then 1 else 0
  }

  function AfterWrite(env: Env, w: World, addr: int, v: bv8): World {
    var t := env(w.now);
    var w1 := Settle(env, w);
    var w2 := if t.fails && !t.lands then w1 else Obey(w1, t.honoured, addr, v);
    w2.(now := w.now + 1)
  }

  /** The world after any read: reading changes no register. */
  function AfterRead(env: Env, w: World): World {
    Settle(env, w).(now := w.now + 1)
  }

  function Peek(w: World, addr: int): bv8 {
    if addr == CTRL_HUM_REG then w.hum
    else if addr == CTRL_MEAS_REG then w.meas
    else if addr == CONFIG_REG then w.config
    else 0
  }

  function ReadValue(env: Env, w: World, addr: int): bv8 {
    if env(w.now).fails then env(w.now).garbage else Peek(Settle(env, w), addr)
  }

  /** What a read of several bytes delivers in transaction n, the registers holding `mem`. */
  function Received(env: Env, n: nat, mem: seq<byte>): (r: seq<byte>)
    ensures |r| == |mem|
  {
    if env(n).fails then seq(|mem|, i requires 0 <= i => env(n).junk(i)) else mem
  }

  /** The chip on its bus.  `env` fixes, before the run, everything the outside world will do. */
  class Chip {
    const env: Env
    const nvm: Nvm
    var w: World

    /** How many transactions have failed so far. */
    ghost function Failed(): nat
      reads this
    {
      Failures(env, w.now)
    }

    /** The last transaction was number n, and its status is rc. */
    ghost predicate Reports(n: nat, rc: int)
      reads this
    {
      w.now == n + 1 && rc == Status(env(n)) && -1 <= rc <= 0 && Failed() == Failures(env, n) - rc
    }

    constructor (env: Env, nvm: Nvm, w: World)
      ensures this.env == env && this.nvm == nvm && this.w == w
    {
      this.env, this.nvm, this.w := env, nvm, w;
    }

    method Write(addr: int, v: bv8) returns (rc: int)
      modifies this
      ensures w == AfterWrite(env, old(w), addr, v) && Reports(old(w.now), rc)
    {
      rc := Status(env(w.now));
      w := AfterWrite(env, w, addr, v);
    }

    method Read(addr: int) returns (rc: int, v: bv8)
      modifies this
      ensures w == AfterRead(env, old(w)) && Reports(old(w.now), rc)
      ensures v == ReadValue(env, old(w), addr)
    {
      rc, v := Status(env(w.now)), ReadValue(env, w, addr);
      w := AfterRead(env, w);
    }

    /** The bytes in the registers from `addr`, at the time of the next transaction. */
    function Memory(addr: int, len: nat): seq<byte>
      requires nvm.Valid() && Readable(addr, len)
      reads this
    {
      if addr == CALIB_LOW_REG then nvm.low
      else if addr == CALIB_HIGH_REG then nvm.high
      else env(w.now).data[addr - DATA_REG..addr - DATA_REG + len]
    }

    predicate Readable(addr: int, len: nat) {
      || (addr == CALIB_LOW_REG && len == 26)
      || (addr == CALIB_HIGH_REG && len == 7)
      || (DATA_REG <= addr && addr + len <= DATA_REG + 8)
    }

    method ReadBlock(addr: int, buf: array<byte>, len: nat) returns (rc: int)
      requires nvm.Valid() && Readable(addr, len) && len <= buf.Length
      modifies this, buf
      ensures w == AfterRead(env, old(w)) && Reports(old(w.now), rc)
      ensures buf[..len] == Received(env, old(w.now), old(Memory(addr, len)))
      ensures buf[len..] == old(buf[len..])
    {
      hide Received, Settle;
      var bytes := Received(env, w.now, Memory(addr, len));
      rc := Status(env(w.now));
      w := AfterRead(env, w);
      for i := 0 to len
        invariant buf[..i] == bytes[..i]
        invariant buf[len..] == old(buf[len..])
        modifies buf
      {
        buf[i] := bytes[i];
      }
    }
  }
}
