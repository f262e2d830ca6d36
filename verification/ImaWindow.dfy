/** The host-to-EC window of ugreen/ug_201x.c: a control port, four address ports and a data
    port, through which a byte of the embedded controller's 32-bit address space is reached. */
module ImaWindow {
  import opened Words

  const IMA_CTRL: nat := 0x01
  const IMA_ADDR: nat := 0x04
  const IMA_DATA: nat := 0x08

  type Mem = map<u32, u8>

  /** Byte `i` of a 32-bit word, counting from the low end. */
  function ByteOf(w: u32, i: nat): u8
    requires i < 4
  {
    (if i == 0 then w else if i == 1 then w / 0x100 else if i == 2 then w / 0x1_0000 else w / 0x100_0000) % 0x100
  }

  /** The address that four port bytes stand for, low byte first. */
  function WordOf(b: seq<u8>): u32
    requires |b| == 4
  {
    b[0] as int + b[1] as int * 0x100 + b[2] as int * 0x1_0000 + b[3] as int * 0x100_0000
  }

  lemma BytesOfWord(w: u32)
    ensures WordOf([ByteOf(w, 0), ByteOf(w, 1), ByteOf(w, 2), ByteOf(w, 3)]) == w
  {
    var q1, q2, q3 := w / 0x100, w / 0x1_0000, w / 0x100_0000;
    assert q2 == q1 / 0x100 && q3 == q2 / 0x100 && q3 < 0x100;
    assert w == q1 * 0x100 + w % 0x100;
    assert q1 == q2 * 0x100 + q1 % 0x100;
    assert q2 == q3 * 0x100 + q2 % 0x100;
  }

  /** Port numbers wrap at 16 bits. */
  function Port(base: u16, offset: nat): u16 {
    (base + offset) % 0x1_0000
  }

  /** The address ports after a write to `port`. */
  function Latch(addr: seq<u8>, base: u16, value: u8, port: u16): (r: seq<u8>)
    requires |addr| == 4
    ensures |r| == 4
    ensures forall i :: 0 <= i < 4 ==> r[i] == if port == Port(base, IMA_ADDR + i) then value else addr[i]
  {
    [if port == Port(base, IMA_ADDR) then value else addr[0],
     if port == Port(base, IMA_ADDR + 1) then value else addr[1],
     if port == Port(base, IMA_ADDR + 2) then value else addr[2],
     if port == Port(base, IMA_ADDR + 3) then value else addr[3]]
  }

  /** One access to a port of the window. */
  datatype PortAccess = Out(port: u16, value: u8) | In(port: u16)

  /** The accesses that point the window at a register: stepping off at port 1, then the address
      at ports 7 to 4, top byte first. */
  function Pointing(base: u16, reg: u32): seq<PortAccess> {
    [Out((base + 1) % 0x1_0000, 0),
     Out((base + 7) % 0x1_0000, reg / 0x100_0000 % 256),
     Out((base + 6) % 0x1_0000, reg / 0x1_0000 % 256),
     Out((base + 5) % 0x1_0000, reg / 0x100 % 256),
     Out((base + 4) % 0x1_0000, reg % 256)]
  }

  /** The controller's side: a data access goes to the address in the four address ports, and
      steps the address afterwards if the control port asks for it. */
  class Device {
    const base: u16
    var ctrl: u8
    var addr: seq<u8>
    var mem: Mem
    var log: seq<PortAccess>

    ghost predicate Valid()
      reads this
    {
      |addr| == 4
    }

    constructor (base: u16, ctrl: u8, addr: seq<u8>, mem: Mem)
      requires |addr| == 4
      ensures Valid() && this.base == base && this.mem == mem
    {
      this.base, this.ctrl, this.addr, this.mem, this.log := base, ctrl, addr, mem, [];
    }

    method StepAddress()
      requires Valid()
      modifies `addr
      ensures Valid() && (ctrl == 0 ==> addr == old(addr))
    {
      if ctrl != 0 {
        var w: u32 := (WordOf(addr) + 1) % 0x1_0000_0000;
        addr := [ByteOf(w, 0), ByteOf(w, 1), ByteOf(w, 2), ByteOf(w, 3)];
      }
    }

    method Outb(value: u8, port: u16)
      requires Valid()
      modifies this
      ensures Valid() && log == old(log) + [Out(port, value)]
      ensures ctrl == if port == Port(base, IMA_CTRL) then value else old(ctrl)
      ensures mem == if port == Port(base, IMA_DATA) then old(mem)[WordOf(old(addr)) := value] else old(mem)
      ensures port != Port(base, IMA_DATA) || old(ctrl) == 0 ==>
                forall i :: 0 <= i < 4 ==> addr[i] == if port == Port(base, IMA_ADDR + i) then value else old(addr)[i]
    {
      log := log + [Out(port, value)];
      if port == Port(base, IMA_CTRL) {
        ctrl := value;
      } else if port == Port(base, IMA_DATA) {
        mem := mem[WordOf(addr) := value];
        StepAddress();
      } else {
        addr := Latch(addr, base, value, port);
      }
    }

    method Inb(port: u16) returns (value: u8)
      requires Valid()
      modifies `addr, `log
      ensures Valid() && log == old(log) + [In(port)]
      ensures port == Port(base, IMA_DATA) ==> value == if WordOf(old(addr)) in mem then mem[WordOf(old(addr))] else 0
    {
      log := log + [In(port)];
      value := 0;
      if port == Port(base, IMA_DATA) {
        value := if WordOf(addr) in mem then mem[WordOf(addr)] else 0;
        StepAddress();
      }
    }
  }

  /** Whatever the control and address ports held before, the six port writes change exactly
      one byte: the low byte of `val`, at the address whose four parts were sent. */
  method Host2EcOutb(dev: Device, reg: u32, val: int)
    requires dev.Valid()
    modifies dev
    ensures dev.Valid() && dev.mem == old(dev.mem)[reg := val % 0x100]
    ensures dev.log == old(dev.log) + Pointing(dev.base, reg) + [Out((dev.base + 8) % 0x1_0000, val % 256)]
  {
    AddressByte(dev, reg);
    dev.Outb(val % 0x100, Port(dev.base, IMA_DATA));
  }

  method Host2EcInb(dev: Device, reg: u32) returns (value: u8)
    requires dev.Valid()
    modifies dev
    ensures dev.Valid() && dev.mem == old(dev.mem)
    ensures value == if reg in dev.mem then dev.mem[reg] else 0
    ensures dev.log == old(dev.log) + Pointing(dev.base, reg) + [In((dev.base + 8) % 0x1_0000)]
  {
    AddressByte(dev, reg);
    value := dev.Inb(Port(dev.base, IMA_DATA));
  }

  lemma PortsDiffer(base: u16)
    ensures forall i: nat, j: nat :: i < j < 16 ==> Port(base, i) != Port(base, j)
  {
  }

  /** Turns stepping off and points the window at `reg`, top byte first. */
  method AddressByte(dev: Device, reg: u32)
    requires dev.Valid()
    modifies dev
    ensures dev.Valid() && dev.mem == old(dev.mem) && dev.ctrl == 0 && WordOf(dev.addr) == reg
    ensures dev.log == old(dev.log) + Pointing(dev.base, reg)
  {
    PortsDiffer(dev.base);
    dev.Outb(0x00, Port(dev.base, IMA_CTRL));
    dev.Outb(ByteOf(reg, 3), Port(dev.base, IMA_ADDR + 3));
    dev.Outb(ByteOf(reg, 2), Port(dev.base, IMA_ADDR + 2));
    dev.Outb(ByteOf(reg, 1), Port(dev.base, IMA_ADDR + 1));
    dev.Outb(ByteOf(reg, 0), Port(dev.base, IMA_ADDR));
    BytesOfWord(reg);
    assert dev.addr == [ByteOf(reg, 0), ByteOf(reg, 1), ByteOf(reg, 2), ByteOf(reg, 3)];
  }
}
