# uscsi — a Dafny model of the USCSI passthrough binding

The binding issues SCSI commands through the illumos `USCSICMD` ioctl.
For each call it fills in a `struct uscsi_cmd` request record: the caller's
CDB, the data buffer and an optional sense buffer, the flag bits and a
timeout. It hands the record to the kernel and turns the ioctl's return value
into a `Result`. The `USCSIMAXXFER` ioctl queries the largest transfer the
path supports. This project models that marshalling layer as pure functions
and proves what each call submits and what it reports back.

Modules, one per concept:

- `Results` (`results.dfy`): `Option` and `Result`, as in the Rust signatures.
- `CTypes` (`c_types.dfy`): the C integer types of the record, and the `as`
  casts the binding applies to them. These are eight-bit truncation and the
  `u16`-to-`i16` reinterpretation.
- `Flags` (`flags.dfy`): the `Flags` bit set as a raw `bv32` pattern, with
  the eleven named flags and `|`.
- `Descriptor` (`descriptor.dfy`): the two ioctl request codes, the request
  record, and the builder that `common` runs before the ioctl.
- `Uscsi` (`uscsi.dfy`): `common`, `read`, `write`, `reset` and `max_xfer`.

The ioctl on the open file descriptor is a parameter. A `Device` answers
every request with three things: the ioctl's return value, the memory as the
kernel left it, and the thread's last OS error code. All properties hold for
every such device.

The model follows the code on two points where a natural reading of the
interface suggests otherwise:

- `write` ors in `WRITE`, and `WRITE` is zero. So `write` submits exactly the
  caller's flags and does not clear a READ bit the caller passed
  (`Uscsi.WriteKeepsCallerRead`, `Uscsi.ReadIsWriteWithRead`).
- CDB and sense lengths are cut to eight bits by `as u8`, which wraps rather
  than saturates. A 300-byte CDB is recorded with length 44, not 255
  (`Descriptor.Cdb300Wraps`).

## Model

| member | source | states |
|---|---|---|
| `CTypes.AsU8` | src/lib.rs:72 | `len as u8` is the unique byte congruent to the length modulo 256; it equals the length exactly when the length is below 256 |
| `CTypes.AsU8Collides` | src/lib.rs:72 | two lengths are recorded alike exactly when they differ by a multiple of 256 |
| `CTypes.AsI16` | src/lib.rs:67 | `timeout as i16` keeps the same sixteen bits: congruent modulo 65536, unchanged below 32768, negative exactly from 32768 up |
| `CTypes.AsI16RoundTrip` | src/lib.rs:67 | reading the signed timeout back as unsigned recovers the caller's `u16` |
| `CTypes.AsU16RoundTrip` | src/lib.rs:67 | every signed 16-bit timeout field comes from exactly one `u16` |
| `Flags.WriteIsEmpty` | src/lib.rs:19 | every pattern contains `WRITE`, and or-ing it in changes nothing |
| `Flags.HasEmpty` | src/lib.rs:13-26 | the empty pattern (`Default`) contains no named flag except `WRITE` |
| `Flags.HasUnion` | src/lib.rs:58 | or-ing two patterns contains a flag exactly when one of them does |
| `Flags.HasValue` | src/lib.rs:15-25 | the named constants occupy distinct bits: a flag's own pattern contains no other flag, and no bit outside the named ones |
| `Flags.InsertKeepsOtherBits` | src/lib.rs:96 | or-ing a flag into a pattern leaves every other bit, named or not, unchanged |
| `Flags.CombineHas` | src/lib.rs:13-26 | or-ing a sequence of named flags gives a pattern that contains a flag exactly when the flag occurs in the sequence |
| `Flags.CombineOnlyKnown` | src/lib.rs:13-26 | a combination of named flags sets no bit outside the named ones |
| `Flags.CombineIgnoresOrder` | src/lib.rs:13-26 | any two sequences naming the same flags combine to the same raw value, whatever the order or repetition |
| `Flags.CombineWithWrite` | src/lib.rs:19 | adding `WRITE` to a combination leaves its raw value unchanged |
| `Descriptor.ControlCodes` | src/lib.rs:9-11 | `USCSICMD` is 0x4C9 and `USCSIMAXXFER` is 0x4CA, and the two differ |
| `Descriptor.SenseFlags` | src/lib.rs:56-62 | with a sense buffer, the submitted flags contain `RQENABLE` and agree with the caller's on every other bit; without one they are the caller's flags |
| `Descriptor.CommandFor` | src/lib.rs:56-78 | the record `common` builds: sense address, and sense length mod 256, or zero for both without a sense buffer; CDB address and length mod 256; data address and length; timeout whose bits read back as the caller's `u16`; kernel-filled fields and path instance zero |
| `Descriptor.SenseRequestedIffBuffer` | src/lib.rs:57-62 | unless the caller set `RQENABLE`, the record asks for automatic sense exactly when a sense buffer is given |
| `Descriptor.LengthsRecordedIffShort` | src/lib.rs:59-72 | the CDB and sense lengths in the record equal the buffers' lengths exactly when those are below 256 |
| `Descriptor.Cdb300Wraps` | src/lib.rs:72 | a 300-byte CDB is recorded with length 44 |
| `Descriptor.LongTimeoutGoesNegative` | src/lib.rs:67 | a timeout of 32768 or more reaches the kernel as that value minus 65536, a negative number |
| `Uscsi.CommandOutcome` | src/lib.rs:80-83 | a zero ioctl return gives `Ok` carrying the `resid` and `rqresid` the kernel wrote back; any other return gives `Err` carrying the last OS error |
| `Uscsi.OutcomeDependsOnlyOnReport` | src/lib.rs:80-83 | a failed command reveals nothing of the record the kernel left, and a successful one nothing but the two residuals |
| `Uscsi.Common` | src/lib.rs:47-84 | submits the built record under `USCSICMD` and reports the reply as above |
| `Uscsi.ReadRequest` | src/lib.rs:94-98 | the record `read` submits has the READ bit set, whatever the caller passed, and points the data region at the caller's buffer |
| `Uscsi.ReadKeepsCallerFlags` | src/lib.rs:96 | every bit the caller passed to `read` is still set in the submitted flags |
| `Uscsi.ReadIgnoresCallerRead` | src/lib.rs:96 | `read` submits the same record whether or not the caller already set READ |
| `Uscsi.WriteRequest` | src/lib.rs:109-113 | the record `write` submits is the one `common` builds from the caller's own flags, since or-ing in `WRITE` changes nothing |
| `Uscsi.WriteKeepsCallerRead` | src/lib.rs:111 | `write` submits the READ bit exactly when the caller passed it |
| `Uscsi.ReadIsWriteWithRead` | src/lib.rs:96-113 | `read` submits what `write` would with READ added to the flags; with READ already set the two submit the same record |
| `Uscsi.Read` | src/lib.rs:86-99 | `read` submits its record under `USCSICMD` and reports the residuals or the OS error |
| `Uscsi.Write` | src/lib.rs:101-114 | `write` submits its record under `USCSICMD` and reports the residuals or the OS error |
| `Uscsi.ResetRequest` | src/lib.rs:116-120 | the reset record has flags equal to `RESET` (0x4000) and every other field zero |
| `Uscsi.ResetRequestShape` | src/lib.rs:116-120 | the reset flags contain no named flag but `RESET`; the reset record is what `common` would build with no CDB, no data, no sense and a zero timeout |
| `Uscsi.Reset` | src/lib.rs:116-126 | `reset` submits the reset record under `USCSICMD`; it gives `Ok(())` exactly when the ioctl returns zero, and otherwise the last OS error |
| `Uscsi.MaxXfer` | src/lib.rs:128-137 | `max_xfer` submits a zero word under `USCSIMAXXFER`; it gives the word the kernel wrote exactly when the ioctl returns zero, and otherwise the last OS error |

## Left out

- The ioctl system call, the file descriptor and `last_os_error`: these are foreign kernel and thread state. They are modelled as the `Device` parameter, a pair of total functions.
- Raw buffer addresses (`as_ptr() as uintptr_t`): these are opaque 64-bit numbers (`Slice.addr`), and "no buffer" is address 0. The non-null dangling address Rust gives an empty slice is not modelled.
- Buffer contents: what the kernel reads from or writes into the CDB, data and sense buffers is device semantics and is not modelled. Only the residual counts it reports are.
- `#[repr(C)]` field offsets, sizes and padding: this is the ABI contract and cannot be expressed here.
- The sign of the `flags` field: the record holds the 32-bit pattern of `flags.bits()`, whose C type is `c_int`. Every named bit is below bit 31, so no named flag makes it negative.
- `usize`, `size_t`, `uintptr_t` and `c_ulong` are all taken as 64 bits wide (an LP64 target). So `val as usize` in `max_xfer` and `rqresid as usize` in `common` keep the value. A 32-bit target's truncation is not modelled.
- The rest of the `bitflags` crate API (`from_bits`, iteration, formatting): the binding uses only the constants, `|` and `bits()`.
- Concurrent use of one handle, and aliasing of the borrowed buffers during the call: the binding does not guard against either.
