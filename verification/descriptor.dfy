/** The USCSI request record handed to the kernel (`struct uscsi_cmd`) and
    the builder that fills it for one command. Buffers are borrowed raw
    regions: the record holds only their addresses and lengths. */
module Descriptor {
  import opened CTypes
  import opened Flags
  import opened Results

  /** ioctl request codes of the USCSI group: the group in the second byte,
      the command number in the first. */
  const USCSIIOC: bv64 := 0x04 << 8
  const USCSICMD: bv64 := USCSIIOC | 201
  const USCSIMAXXFER: bv64 := USCSIIOC | 202

  /** The two request codes have the values the kernel driver expects and
      can never be confused with each other. */
  lemma ControlCodes()
    ensures USCSICMD == 0x4C9
    ensures USCSIMAXXFER == 0x4CA
    ensures USCSICMD != USCSIMAXXFER
  {
  }

  /** A caller's buffer as the kernel sees it: start address and length. */
  datatype Slice = Slice(addr: usize, len: usize)

  /** The request record, field for field. `status`, `resid`, `rqstatus` and
      `rqresid` are written by the kernel; `pathInstance` is never used by
      the binding. */
  datatype UScsiCmd = UScsiCmd(
    flags: Bits,
    status: i16,
    timeout: i16,
    cdb: usize,
    bufaddr: usize,
    buflen: usize,
    resid: usize,
    cdblen: u8,
    rqlen: u8,
    rqstatus: u8,
    rqresid: u8,
    rqbuf: usize,
    pathInstance: u64)

  /** `UScsiCmd::default()`: every field zero. */
  const ZEROED: UScsiCmd := UScsiCmd(0, 0, 0, 0, 0, 0, 0, 0, 0, 0, 0, 0, 0)

  /** The fields the kernel fills in, and the unused path instance, are zero. */
  predicate KernelFieldsClear(cmd: UScsiCmd) {
    && cmd.status == 0
    && cmd.resid == 0
    && cmd.rqstatus == 0
    && cmd.rqresid == 0
    && cmd.pathInstance == 0
  }

  /** The flags `common` submits: a sense buffer switches automatic sense
      retrieval on and changes no other bit; without one the caller's flags
      go through untouched. */
  function SenseFlags(flags: Bits, sense: Option<Slice>): (r: Bits)
    ensures sense.Some? ==> Has(r, RqEnable)
    ensures r & !RQENABLE == flags & !RQENABLE
    ensures sense.None? ==> r == flags
  {
    if sense.Some? then flags | RQENABLE else flags
  }

  /** The record `common` submits for a CDB, a data region given by address
      and length, an optional sense buffer, the caller's flags and a timeout
      in seconds. */
  function CommandFor(cdb: Slice, data: usize, datalen: usize, sense: Option<Slice>,
                      flags: Bits, timeout: u16): (cmd: UScsiCmd)
    ensures cmd.flags == SenseFlags(flags, sense)
    // The sense region, with its length cut to eight bits; zero without one.
    ensures sense.Some? ==> cmd.rqbuf == sense.value.addr && cmd.rqlen == sense.value.len % 0x100
    ensures sense.None? ==> cmd.rqbuf == 0 && cmd.rqlen == 0
    // The CDB region, with its length cut to eight bits, and the data region.
    ensures cmd.cdb == cdb.addr && cmd.cdblen == cdb.len % 0x100
    ensures cmd.bufaddr == data && cmd.buflen == datalen
    // The unsigned timeout survives as a bit pattern in the signed field.
    ensures AsU16(cmd.timeout) == timeout
    ensures timeout < 0x8000 <==> cmd.timeout == timeout
    ensures KernelFieldsClear(cmd)
  {
    var (rqbuf, rqlen) :=
      match sense
      case Some(buf) => (buf.addr, AsU8(buf.len))
      case None => (0, 0);
    AsI16RoundTrip(timeout);
    UScsiCmd(
      flags := SenseFlags(flags, sense),
      status := 0,
      timeout := AsI16(timeout),
      cdb := cdb.addr,
      bufaddr := data,
      buflen := datalen,
      resid := 0,
      cdblen := AsU8(cdb.len),
      rqlen := rqlen,
      rqstatus := 0,
      rqresid := 0,
      rqbuf := rqbuf,
      pathInstance := 0)
  }

  /** When the caller has not asked for automatic sense retrieval, the
      submitted record asks for it exactly when a sense buffer is given. */
  lemma SenseRequestedIffBuffer(cdb: Slice, data: usize, datalen: usize, sense: Option<Slice>,
                                flags: Bits, timeout: u16)
    requires !Has(flags, RqEnable)
    ensures Has(CommandFor(cdb, data, datalen, sense, flags, timeout).flags, RqEnable) <==> sense.Some?
  {
  }

  /** Lengths up to 255 are recorded exactly; longer ones wrap, so a CDB or
      sense buffer is recorded faithfully exactly when it is shorter than 256
      bytes. */
  lemma LengthsRecordedIffShort(cdb: Slice, data: usize, datalen: usize, sense: Option<Slice>,
                                flags: Bits, timeout: u16)
    ensures var cmd := CommandFor(cdb, data, datalen, sense, flags, timeout);
      && (cmd.cdblen == cdb.len <==> cdb.len < 0x100)
      && (sense.Some? ==> (cmd.rqlen == sense.value.len <==> sense.value.len < 0x100))
  {
  }

  /** A 300-byte CDB is recorded with length 44 (300 mod 256), not 255. */
  lemma Cdb300Wraps(addr: usize, data: usize, datalen: usize, sense: Option<Slice>,
                    flags: Bits, timeout: u16)
    ensures CommandFor(Slice(addr, 300), data, datalen, sense, flags, timeout).cdblen == 44
  {
  }

  /** Timeouts of 32768 seconds and more reach the kernel as negative
      numbers, 65536 below the caller's value. */
  lemma LongTimeoutGoesNegative(cdb: Slice, data: usize, datalen: usize, sense: Option<Slice>,
                                flags: Bits, timeout: u16)
    requires 0x8000 <= timeout
    ensures CommandFor(cdb, data, datalen, sense, flags, timeout).timeout == timeout - 0x1_0000 < 0
  {
  }
}
