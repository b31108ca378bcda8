/** The public operations of the binding: `read`, `write`, `reset` and
    `max_xfer`, and the shared submission routine `common`. The ioctl on an
    open device handle is the one thing the binding cannot see into; it is a
    parameter here, a `Device` that answers each request with a return value,
    the memory it wrote back and the thread's last OS error code. */
module Uscsi {
  import opened CTypes
  import Flags
  import opened Results
  import opened Descriptor

  /** The code `std::io::Error::last_os_error()` carries. */
  datatype OsError = OsError(code: int)

  /** A USCSICMD ioctl's answer: its return value, the request record as the
      kernel left it, and the last OS error code afterwards. */
  datatype CommandReply = CommandReply(ret: i32, after: UScsiCmd, lastError: OsError)

  /** A USCSIMAXXFER ioctl's answer: its return value, the 64-bit word as the
      kernel left it, and the last OS error code afterwards. */
  datatype WordReply = WordReply(ret: i32, after: u64, lastError: OsError)

  /** An open device handle as seen through ioctl: one answer per request
      code and request record, one per request code and initial word. */
  datatype Device = Device(
    command: (bv64, UScsiCmd) -> CommandReply,
    word: (bv64, u64) -> WordReply)

  /** `r` is what the binding reports for a USCSICMD reply: success exactly
      when the ioctl returned 0, carrying the data and sense residuals the
      kernel wrote back; otherwise the last OS error and nothing else. */
  predicate Reports(r: Result<(usize, usize), OsError>, reply: CommandReply) {
    && (r.Ok? <==> reply.ret == 0)
    && (r.Ok? ==> r.value == (reply.after.resid, reply.after.rqresid))
    && (r.Err? ==> r.error == reply.lastError)
  }

  /** The `match` on the ioctl's return value in `common`. */
  function CommandOutcome(reply: CommandReply): (r: Result<(usize, usize), OsError>)
    ensures Reports(r, reply)
  {
    if reply.ret == 0 then Ok((reply.after.resid, reply.after.rqresid)) else Err(reply.lastError)
  }

  /** A failed command exposes nothing of the record the kernel left behind,
      and a successful one nothing but its two residual counts. */
  lemma OutcomeDependsOnlyOnReport(a: CommandReply, b: CommandReply)
    requires (a.ret == 0) == (b.ret == 0)
    requires a.ret != 0 ==> a.lastError == b.lastError
    requires a.ret == 0 ==> a.after.resid == b.after.resid && a.after.rqresid == b.after.rqresid
    ensures CommandOutcome(a) == CommandOutcome(b)
  {
  }

  /** `common`: build the record and submit it under USCSICMD. */
  function Common(dev: Device, cdb: Slice, data: usize, datalen: usize, sense: Option<Slice>,
                  flags: Flags.Bits, timeout: u16): (r: Result<(usize, usize), OsError>)
    ensures Reports(r, dev.command(USCSICMD, CommandFor(cdb, data, datalen, sense, flags, timeout)))
  {
    var cmd := CommandFor(cdb, data, datalen, sense, flags, timeout);
    CommandOutcome(dev.command(USCSICMD, cmd))
  }

  /** The record `read` submits: the data region is the caller's buffer and
      the READ bit is forced on. */
  function ReadRequest(cdb: Slice, data: Slice, sense: Option<Slice>, flags: Flags.Bits, timeout: u16): (cmd: UScsiCmd)
    ensures Flags.Has(cmd.flags, Flags.Read)
    ensures cmd.bufaddr == data.addr && cmd.buflen == data.len
  {
    CommandFor(cdb, data.addr, data.len, sense, flags | Flags.READ, timeout)
  }

  /** `read` keeps every bit the caller passed. */
  lemma ReadKeepsCallerFlags(cdb: Slice, data: Slice, sense: Option<Slice>, flags: Flags.Bits, timeout: u16)
    ensures Flags.Contains(ReadRequest(cdb, data, sense, flags, timeout).flags, flags)
  {
  }

  /** Whether the caller already set READ makes no difference to `read`. */
  lemma ReadIgnoresCallerRead(cdb: Slice, data: Slice, sense: Option<Slice>, flags: Flags.Bits, timeout: u16)
    ensures ReadRequest(cdb, data, sense, flags | Flags.READ, timeout) == ReadRequest(cdb, data, sense, flags, timeout)
  {
  }

  /** The record `write` submits: the data region is the caller's buffer and
      the flags are exactly the caller's, since or-ing in `WRITE` (zero)
      changes nothing. */
  function WriteRequest(cdb: Slice, data: Slice, sense: Option<Slice>, flags: Flags.Bits, timeout: u16): (cmd: UScsiCmd)
    ensures cmd == CommandFor(cdb, data.addr, data.len, sense, flags, timeout)
  {
    Flags.WriteIsEmpty(flags);
    CommandFor(cdb, data.addr, data.len, sense, flags | Flags.WRITE, timeout)
  }

  /** `write` does not clear a READ bit the caller passed: the direction it
      submits is whatever the caller's flags say. */
  lemma WriteKeepsCallerRead(cdb: Slice, data: Slice, sense: Option<Slice>, flags: Flags.Bits, timeout: u16)
    ensures Flags.Has(WriteRequest(cdb, data, sense, flags, timeout).flags, Flags.Read) <==> Flags.Has(flags, Flags.Read)
  {
    var cmd := WriteRequest(cdb, data, sense, flags, timeout);
    assert cmd.flags & !Flags.RQENABLE == flags & !Flags.RQENABLE;
  }

  /** `read` is `write` with READ or-ed into the caller's flags; in
      particular, when the caller already set READ the two submit the same
      record. */
  lemma ReadIsWriteWithRead(cdb: Slice, data: Slice, sense: Option<Slice>, flags: Flags.Bits, timeout: u16)
    ensures ReadRequest(cdb, data, sense, flags, timeout) == WriteRequest(cdb, data, sense, flags | Flags.READ, timeout)
    ensures Flags.Has(flags, Flags.Read) ==> ReadRequest(cdb, data, sense, flags, timeout) == WriteRequest(cdb, data, sense, flags, timeout)
  {
  }

  /** `read`. */
  function Read(dev: Device, cdb: Slice, data: Slice, sense: Option<Slice>,
               flags: Flags.Bits, timeout: u16): (r: Result<(usize, usize), OsError>)
    ensures Reports(r, dev.command(USCSICMD, ReadRequest(cdb, data, sense, flags, timeout)))
  {
    Common(dev, cdb, data.addr, data.len, sense, flags | Flags.READ, timeout)
  }

  /** `write`. */
  function Write(dev: Device, cdb: Slice, data: Slice, sense: Option<Slice>,
                flags: Flags.Bits, timeout: u16): (r: Result<(usize, usize), OsError>)
    ensures Reports(r, dev.command(USCSICMD, WriteRequest(cdb, data, sense, flags, timeout)))
  {
    Common(dev, cdb, data.addr, data.len, sense, flags | Flags.WRITE, timeout)
  }

  /** The record `reset` submits: all zero but for the RESET flag. */
  function ResetRequest(): (cmd: UScsiCmd)
    ensures cmd.flags == Flags.RESET
    ensures cmd.(flags := 0) == ZEROED
  {
    ZEROED.(flags := Flags.RESET)
  }

  /** The reset record names RESET and no other flag, and is what `common`
      would build for an empty CDB at address zero, no data, no sense buffer
      and a zero timeout. */
  lemma ResetRequestShape(g: Flags.Flag)
    ensures Flags.Has(ResetRequest().flags, g) <==> g == Flags.Reset || g == Flags.Write
    ensures ResetRequest() == CommandFor(Slice(0, 0), 0, 0, None, Flags.RESET, 0)
  {
    Flags.HasValue(Flags.Reset, g);
  }

  /** `reset`. */
  function Reset(dev: Device): (r: Result<(), OsError>)
    ensures var reply := dev.command(USCSICMD, ResetRequest());
      && (r.Ok? <==> reply.ret == 0)
      && (r.Err? ==> r.error == reply.lastError)
  {
    var reply := dev.command(USCSICMD, ResetRequest());
    if reply.ret == 0 then Ok(()) else Err(reply.lastError)
  }

  /** `max_xfer`: the word starts at zero and the kernel's value is returned
      unchanged (`u64` and `usize` coincide on LP64). */
  function MaxXfer(dev: Device): (r: Result<usize, OsError>)
    ensures var reply := dev.word(USCSIMAXXFER, 0);
      && (r.Ok? <==> reply.ret == 0)
      && (r.Ok? ==> r.value == reply.after)
      && (r.Err? ==> r.error == reply.lastError)
  {
    var reply := dev.word(USCSIMAXXFER, 0);
    if reply.ret == 0 then Ok(reply.after) else Err(reply.lastError)
  }
}
