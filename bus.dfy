/** The transport under the driver: the device file of an I2C adapter with a BME280 behind it.
    It stands in for `::open`, `::ioctl(I2C_SLAVE)`, `::close` and the SMBus transfers made by
    `access` (source/bme280.cpp:137-149, 281-318). Every call is appended to `log`; the call
    with log index i fails when i is in `faults`, and a transfer or close also fails on a
    negative handle (EBADF). */
module Bus {
  import opened Errors
  import opened Machine
  import opened Defs

  /** One call on the device file. */
  datatype Op =
    | OpenCall
    | BindCall(address: UInt16)
    | CloseCall
    | WriteCall(register: Byte, value: Byte)
    | ReadCall(register: Byte)
    | BlockReadCall(register: Byte, length: Byte)

  /** n consecutive registers from `register` on, wrapping at the end of the register space. */
  function RegisterBlock(regs: seq<Byte>, register: Byte, n: nat): (data: seq<Byte>)
    requires |regs| == 256
    ensures |data| == n
    ensures forall i :: 0 <= i < n ==> data[i] == regs[(register + i) % 256]
  {
    seq(n, i requires 0 <= i < n => regs[(register + i) % 256])
  }

  class I2cBus {
    /** The register file of the sensor, indexed by register address. */
    const regs: array<Byte>
    /** The answers the status register has still to give before it rests at regs[STATUS]. */
    var script: seq<Byte>
    /** Every call made so far, in order. */
    var log: seq<Op>
    /** Log indices of the calls that fail. */
    const faults: set<nat>
    /** The handle a successful open returns. */
    const fd: nat
    /** The byte count the adapter reports for block reads; None: the count requested. */
    const blockReply: Option<Byte>

    predicate Valid() {
      regs.Length == 256
    }

    constructor (registers: seq<Byte>, script: seq<Byte>, faults: set<nat>, fd: nat, blockReply: Option<Byte>)
      requires |registers| == 256
      ensures Valid() && fresh(regs)
      ensures regs[..] == registers && this.script == script && log == []
      ensures this.faults == faults && this.fd == fd && this.blockReply == blockReply
    {
      regs := new Byte[256](i requires 0 <= i < 256 => registers[i]);
      this.script := script;
      log := [];
      this.faults := faults;
      this.fd := fd;
      this.blockReply := blockReply;
    }

    /** Whether a transfer on handle h with log index i fails. */
    predicate Fails(h: int, i: nat) {
      h < 0 || i in faults
    }

    /** How many of n consecutive transfers from log index `at` succeed before the first
        failure. */
    function Succeeding(h: int, at: nat, n: nat): (r: nat)
      ensures r <= n
      ensures r < n ==> Fails(h, at + r)
      decreases n
    {
      if n == 0 || Fails(h, at) then 0 else 1 + Succeeding(h, at + 1, n - 1)
    }

    /** How many of n consecutive transfers are attempted: up to and including the first that
        fails. */
    function Attempted(h: int, at: nat, n: nat): (r: nat)
      ensures Succeeding(h, at, n) <= r <= n
      ensures r == n <==> Succeeding(h, at, n) >= n - 1
    {
      var s := Succeeding(h, at, n);
      if s == n then n else s + 1
    }

    /** m + n consecutive transfers all succeed when the first m do and then the next n do;
        otherwise the first failure is among the first m or among the next n. */
    lemma {:induction false} SucceedingSplit(h: int, at: nat, m: nat, n: nat)
      ensures Succeeding(h, at, m + n) ==
                if Succeeding(h, at, m) < m then Succeeding(h, at, m) else m + Succeeding(h, at + m, n)
      ensures Attempted(h, at, m + n) ==
                if Succeeding(h, at, m) < m then Attempted(h, at, m) else m + Attempted(h, at + m, n)
      decreases m
    {
      if m != 0 && !Fails(h, at) {
        SucceedingSplit(h, at + 1, m - 1, n);
      }
    }

    /** The byte count reported for a block read of `length` bytes. */
    function Reply(length: Byte): Byte
    {
      match blockReply
      case None => length
      case Some(n) => n
    }

    /** `::open(device, O_RDWR)`: the new handle, or -1 when the call fails. */
    method OpenFile() returns (h: int)
      modifies this
      ensures log == old(log) + [OpenCall]
      ensures h == if |old(log)| in faults then -1 else fd
      ensures script == old(script)
    {
      h := if |log| in faults then -1 else fd;
      log := log + [OpenCall];
    }

    /** `::ioctl(h, I2C_SLAVE, address)`. */
    method Bind(h: int, address: UInt16) returns (ok: bool)
      modifies this
      ensures log == old(log) + [BindCall(address)]
      ensures ok <==> !Fails(h, |old(log)|)
      ensures script == old(script)
    {
      ok := !Fails(h, |log|);
      log := log + [BindCall(address)];
    }

    /** `::close(h)`. */
    method CloseFile(h: int) returns (ok: bool)
      modifies this
      ensures log == old(log) + [CloseCall]
      ensures ok <==> !Fails(h, |old(log)|)
      ensures script == old(script)
    {
      ok := !Fails(h, |log|);
      log := log + [CloseCall];
    }

    /** An SMBus byte-data write: on success the register takes the value. */
    method Write(h: int, register: Byte, value: Byte) returns (ok: bool)
      requires Valid()
      modifies this, regs
      ensures log == old(log) + [WriteCall(register, value)]
      ensures ok <==> !Fails(h, |old(log)|)
      ensures regs[..] == if ok then old(regs[..])[register := value] else old(regs[..])
      ensures script == old(script)
    {
      ok := !Fails(h, |log|);
      if ok {
        regs[register] := value;
      }
      log := log + [WriteCall(register, value)];
    }

    /** An SMBus byte-data read. A successful read of the status register takes the next
        scripted answer, if any; any other read gives the register's value. */
    method Read(h: int, register: Byte) returns (value: Byte, ok: bool)
      requires Valid()
      modifies this
      ensures log == old(log) + [ReadCall(register)]
      ensures ok <==> !Fails(h, |old(log)|)
      ensures ok && register == STATUS && old(script) != [] ==>
        value == old(script)[0] && script == old(script)[1..]
      ensures ok && register == STATUS && old(script) == [] ==>
        value == regs[register] && script == []
      ensures ok && register != STATUS ==> value == regs[register] && script == old(script)
      ensures !ok ==> script == old(script)
    {
      ok := !Fails(h, |log|);
      value := 0;
      if ok {
        if register == STATUS && script != [] {
          value := script[0];
          script := script[1..];
        } else {
          value := regs[register];
        }
      }
      log := log + [ReadCall(register)];
    }

    /** An SMBus I2C-block read: the adapter reports a byte count and that many consecutive
        registers, wrapping at the end of the register space. */
    method ReadBlock(h: int, register: Byte, length: Byte) returns (data: seq<Byte>, ok: bool)
      requires Valid()
      modifies this
      ensures log == old(log) + [BlockReadCall(register, length)]
      ensures ok <==> !Fails(h, |old(log)|)
      ensures ok ==> data == RegisterBlock(regs[..], register, Reply(length))
      ensures script == old(script)
    {
      ok := !Fails(h, |log|);
      data := [];
      if ok {
        data := RegisterBlock(regs[..], register, Reply(length));
      }
      log := log + [BlockReadCall(register, length)];
    }
  }
}
