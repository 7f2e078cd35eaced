/**
 * The transfer queue of the virtual USB host controller: transfer records,
 * the dispatcher that hands a transfer to the device with the matching
 * address, and one step of a device's queue processor.
 *
 * The executors (`usbvirt_*` for a device in the same task,
 * `usbvirt_ipc_send_*` for a device behind a phone) are foreign; their
 * result code and the data size they report are inputs of a step.
 */
module VhcTransfer {
  import opened Wrappers
  import opened Errno

  /** An opaque pointer (`ddf_fun_t *`, `void *`, a callback address). */
  type Handle = nat

  datatype Direction = In | Out
  datatype TransferType = Control | Isochronous | Bulk | Interrupt

  /**
   * A transfer record. `setup` and `data` stand for a buffer together with
   * its size; a NULL buffer of size 0 is the empty sequence.
   */
  datatype Transfer = Transfer(
    address: int,
    endpoint: int,
    direction: Direction,
    transferType: TransferType,
    setup: seq<bv8>,
    data: seq<bv8>,
    fun: Handle,
    callbackArg: Handle,
    callbackIn: Option<Handle>,
    callbackOut: Option<Handle>)

  /** sizeof(usb_device_request_setup_packet_t), section 9.3 of USB 2.0 */
  const SETUP_PACKET_SIZE: nat := 8
  /** bRequest of SET_ADDRESS, table 9-4 of USB 2.0 */
  const USB_DEVREQ_SET_ADDRESS: bv8 := 5

  /**
   * `vhc_transfer_create`: `allocOk` is whether `malloc` succeeded.
   */
  function Create(address: int, ep: int, dir: Direction, trType: TransferType,
                  fun: Handle, callbackArg: Handle, allocOk: bool): (r: Option<Transfer>)
    ensures !allocOk <==> r.None?
    ensures r.Some? ==>
      && r.value.address == address && r.value.endpoint == ep
      && r.value.direction == dir && r.value.transferType == trType
      && r.value.fun == fun && r.value.callbackArg == callbackArg
      && |r.value.setup| == 0 && |r.value.data| == 0
      && r.value.callbackIn.None? && r.value.callbackOut.None?
  {
    if !allocOk then None
    else Some(Transfer(address, ep, dir, trType, [], [], fun, callbackArg, None, None))
  }

  /** wValue of a setup packet: bytes 2 and 3, little-endian (section 9.3). */
  function SetupValue(setup: seq<bv8>): (v: bv16)
    requires |setup| == SETUP_PACKET_SIZE
    ensures v & 0xff == setup[2] as bv16 && v >> 8 == setup[3] as bv16
  {
    ((setup[3] as bv16) << 8) | (setup[2] as bv16)
  }

  /** `is_set_address_transfer`: a standard SET_ADDRESS request to the
      default control endpoint (section 9.4.6 of USB 2.0). */
  predicate IsSetAddressTransfer(t: Transfer)
  {
    && t.endpoint == 0
    && t.transferType == Control
    && t.direction == Out
    && |t.setup| == SETUP_PACKET_SIZE
    && t.setup[0] == 0
    && t.setup[1] == USB_DEVREQ_SET_ADDRESS
  }

  /** The setup packet a host sends to assign `addr`: bmRequestType 0,
      bRequest SET_ADDRESS, wValue `addr`, wIndex 0, wLength 0. */
  function SetAddressPacket(addr: bv16): (p: seq<bv8>)
    ensures |p| == SETUP_PACKET_SIZE
    ensures SetupValue(p) == addr
  {
    [0, USB_DEVREQ_SET_ADDRESS, (addr & 0xFF) as bv8, (addr >> 8) as bv8, 0, 0, 0, 0]
  }

  /** A SET_ADDRESS packet sent OUT on control endpoint 0 is recognised, and
      the address it carries is read back unchanged. */
  lemma SetAddressRecognised(t: Transfer, addr: bv16)
    requires t.endpoint == 0 && t.transferType == Control && t.direction == Out
    requires t.setup == SetAddressPacket(addr)
    ensures IsSetAddressTransfer(t)
    ensures SetupValue(t.setup) == addr
  {
  }

  /** A freshly created transfer has no setup packet yet, so it is never a
      SET_ADDRESS transfer; nor is anything but an OUT control transfer to
      endpoint 0 with an 8-byte setup packet. */
  lemma NotSetAddress(t: Transfer)
    ensures (t.endpoint != 0 || t.transferType != Control || t.direction != Out
             || |t.setup| != SETUP_PACKET_SIZE) ==> !IsSetAddressTransfer(t)
    ensures forall address, ep, dir, trType, fun, arg ::
      var c := Create(address, ep, dir, trType, fun, arg, true);
      c.Some? && !IsSetAddressTransfer(c.value)
  {
  }

  // Executors

  /** Which executor runs a transfer. */
  datatype Executor = Remote(phone: int) | Local | NoTarget

  /** The executor selection of the queue processor: the remote phone when
      there is one, otherwise the local device, otherwise none. */
  function ChooseExecutor(devPhone: int, hasLocal: bool): (e: Executor)
    ensures e.Remote? <==> devPhone > 0
    ensures e.Remote? ==> e.phone == devPhone
    ensures e.Local? <==> devPhone <= 0 && hasLocal
    ensures e.NoTarget? <==> devPhone <= 0 && !hasLocal
  {
    if devPhone > 0 then Remote(devPhone)
    else if hasLocal then Local
    else NoTarget
  }

  /** The four operations an executor can perform. */
  datatype Operation = ControlRead | ControlWrite | DataIn | DataOut

  /** Whether an operation passes the setup packet. */
  predicate UsesSetup(op: Operation) { op == ControlRead || op == ControlWrite }
  /** Whether an operation reports the size of data it transferred. */
  predicate ReportsSize(op: Operation) { op == ControlRead || op == DataIn }

  /** The dispatch shared by `process_transfer_local` and
      `process_transfer_remote`. */
  function Dispatch(t: Transfer): (op: Operation)
    ensures UsesSetup(op) <==> t.transferType == Control
    ensures ReportsSize(op) <==> t.direction == In
  {
    if t.transferType == Control then
      (if t.direction == In then ControlRead else ControlWrite)
    else
      (if t.direction == In then DataIn else DataOut)
  }

  /** What an executor reports: its result code and the data size it wrote
      into `actual_data_size` (0 when it wrote none). */
  datatype Reply = Reply(rc: Errno, size: nat)

  /** The result of running `t` on executor `e` when the foreign call
      answers `reply`: without a target the step fails with ESTALL; the size
      stays 0 unless the operation reports one. */
  function Execute(e: Executor, t: Transfer, reply: Reply): (r: Reply)
    ensures e.NoTarget? ==> r == Reply(ESTALL, 0)
    ensures !e.NoTarget? ==> r.rc == reply.rc
    ensures !e.NoTarget? && ReportsSize(Dispatch(t)) ==> r == reply
    ensures !e.NoTarget? && !ReportsSize(Dispatch(t)) ==> r == Reply(reply.rc, 0)
  {
    if e.NoTarget? then Reply(ESTALL, 0)
    else if ReportsSize(Dispatch(t)) then reply
    else Reply(reply.rc, 0)
  }

  // One step of the queue processor

  /** A completion callback invocation: `callback_in(fun, rc, size, arg)` or
      `callback_out(fun, rc, arg)` of `transfer`, after which it is freed. */
  datatype Completion =
    | InDone(transfer: Transfer, rc: Errno, size: nat)
    | OutDone(transfer: Transfer, rc: Errno)

  /** The device address after a transfer finished with `rc`. */
  function NewAddress(address: int, t: Transfer, rc: Errno): (a: int)
    ensures a != address ==> rc == EOK && IsSetAddressTransfer(t)
    ensures rc == EOK && IsSetAddressTransfer(t) ==> a == SetupValue(t.setup) as int
  {
    if rc == EOK && IsSetAddressTransfer(t) then SetupValue(t.setup) as int else address
  }

  /** The callback fired for a transfer that finished with `r`; none on NAK. */
  function Complete(t: Transfer, r: Reply): (c: Option<Completion>)
    ensures c.None? <==> r.rc == ENAK
    ensures c.Some? ==> c.value.transfer == t && c.value.rc == r.rc
    ensures c.Some? ==> (c.value.InDone? <==> t.direction == In)
    ensures c.Some? && c.value.InDone? ==> c.value.size == r.size
  {
    if r.rc == ENAK then None
    else if t.direction == In then Some(InDone(t, r.rc, r.size))
    else Some(OutDone(t, r.rc))
  }

  /** The outcome of one step on a device's state. */
  datatype StepResult = StepResult(address: int, queue: seq<Transfer>, done: Option<Completion>)

  /** The transfers a completion gives back, as a multiset. */
  function Finished(c: Option<Completion>): multiset<Transfer>
  {
    if c.Some? then multiset{c.value.transfer} else multiset{}
  }

  /**
   * One iteration of `vhc_transfer_queue_processor` on a plugged device:
   * an empty queue is left alone; otherwise the head is removed, run, and
   * either re-appended at the tail (NAK) or completed exactly once.
   */
  function Step(address: int, queue: seq<Transfer>, devPhone: int, hasLocal: bool,
                reply: Reply): (r: StepResult)
    ensures queue == [] ==> r == StepResult(address, queue, None)
    ensures queue != [] ==>
      && r.queue == queue[1..] + (if r.done.None? then [queue[0]] else [])
      && (r.done.Some? ==> r.done.value.transfer == queue[0])
    ensures multiset(queue) == multiset(r.queue) + Finished(r.done)
    ensures r.address != address ==>
      (queue != [] && r.done.Some? && r.done.value.rc == EOK && IsSetAddressTransfer(queue[0]))
  {
    if queue == [] then StepResult(address, queue, None)
    else
      var t := queue[0];
      var res := Execute(ChooseExecutor(devPhone, hasLocal), t, reply);
      var done := Complete(t, res);
      var rest := if done.None? then queue[1..] + [t] else queue[1..];
      assert queue == [t] + queue[1..];
      StepResult(NewAddress(address, t, res.rc), rest, done)
  }

  /** A NAK neither completes nor loses the transfer: it moves from the head
      of the queue to its tail and the address stays. */
  lemma NakRequeues(address: int, queue: seq<Transfer>, devPhone: int, hasLocal: bool,
                    reply: Reply)
    requires queue != [] && reply.rc == ENAK && (devPhone > 0 || hasLocal)
    ensures var r := Step(address, queue, devPhone, hasLocal, reply);
      r.done.None? && r.queue == queue[1..] + [queue[0]] && r.address == address
      && |r.queue| == |queue|
  {
  }

  /** Any result but NAK fires exactly one callback, for the head of the
      queue, with the executor's code (ESTALL when there is no target), and
      shortens the queue by one; an IN callback carries the size the
      executor reported (0 when there is no target). */
  lemma OtherResultsCompleteOnce(address: int, queue: seq<Transfer>, devPhone: int,
                                 hasLocal: bool, reply: Reply)
    requires queue != [] && (reply.rc != ENAK || (devPhone <= 0 && !hasLocal))
    ensures var r := Step(address, queue, devPhone, hasLocal, reply);
      && r.done.Some? && r.done.value.transfer == queue[0]
      && r.done.value.rc == (if devPhone <= 0 && !hasLocal then ESTALL else reply.rc)
      && r.queue == queue[1..]
      && (r.done.value.InDone? <==> queue[0].direction == In)
      && (r.done.value.InDone? ==>
            r.done.value.size == (if devPhone <= 0 && !hasLocal then 0 else reply.size))
  {
  }

  /** A successful SET_ADDRESS transfer moves the device to the address in
      its setup packet, whichever executor ran it. */
  lemma SetAddressUpdates(address: int, queue: seq<Transfer>, devPhone: int, hasLocal: bool,
                          reply: Reply)
    requires queue != [] && IsSetAddressTransfer(queue[0])
    requires reply.rc == EOK && (devPhone > 0 || hasLocal)
    ensures Step(address, queue, devPhone, hasLocal, reply).address == SetupValue(queue[0].setup) as int
  {
  }

  /** A virtual device: its address, whether it is plugged, its FIFO of
      pending transfers and its executors. */
  class VirtDev {
    var address: int
    var plugged: bool
    var queue: seq<Transfer>
    const devPhone: int
    const hasLocal: bool
    /** Every callback this device's processor has fired, in order. */
    ghost var completed: seq<Completion>

    constructor (address: int, devPhone: int, hasLocal: bool)
      ensures this.address == address && this.devPhone == devPhone
      ensures this.hasLocal == hasLocal && plugged && queue == [] && completed == []
    {
      this.address := address;
      this.devPhone := devPhone;
      this.hasLocal := hasLocal;
      plugged := true;
      queue := [];
      completed := [];
    }

    /** Appends `t` to the end of the transfer queue. */
    method Enqueue(t: Transfer)
      modifies this`queue
      ensures queue == old(queue) + [t]
    {
      queue := queue + [t];
    }

    /**
     * One iteration of the processor's loop. An unplugged device ends the
     * loop: nothing is removed and nothing completes.
     */
    method ProcessStep(reply: Reply) returns (done: Option<Completion>)
      modifies this`address, this`queue, this`completed
      ensures !old(plugged) ==> done.None? && unchanged(this)
      ensures old(plugged) ==>
        var r := Step(old(address), old(queue), devPhone, hasLocal, reply);
        address == r.address && queue == r.queue && done == r.done
      ensures completed == old(completed) + (if done.Some? then [done.value] else [])
    {
      done := None;
      if !plugged || queue == [] {
        return;
      }
      var transfer := queue[0];
      queue := queue[1..];

      var e := ChooseExecutor(devPhone, hasLocal);
      var res := Execute(e, transfer, reply);

      if res.rc == EOK && IsSetAddressTransfer(transfer) {
        address := SetupValue(transfer.setup) as int;
      }
      if res.rc == ENAK {
        queue := queue + [transfer];
      } else {
        done := Complete(transfer, res);
        completed := completed + [done.value];
      }
    }
  }

  /** The first position, at or after `from`, of an address equal to `a`. */
  function FirstMatch(addrs: seq<int>, a: int, from: nat): (k: Option<nat>)
    ensures k.Some? ==> from <= k.value < |addrs| && addrs[k.value] == a
    ensures forall i :: from <= i < (if k.Some? then k.value else |addrs|) ==> addrs[i] != a
    decreases |addrs| - from
  {
    if from >= |addrs| then None
    else if addrs[from] == a then Some(from)
    else FirstMatch(addrs, a, from + 1)
  }

  /** The host controller's registry of devices, in registration order. */
  class Vhc {
    var devices: seq<VirtDev>

    ghost predicate Valid()
      reads this
    {
      forall i, j :: 0 <= i < |devices| && 0 <= j < |devices| && i != j ==> devices[i] != devices[j]
    }

    /** The devices' addresses, in registry order. */
    function Addresses(): (addrs: seq<int>)
      reads this, set d | d in devices
      ensures |addrs| == |devices|
      ensures forall i :: 0 <= i < |devices| ==> addrs[i] == devices[i].address
    {
      seq(|devices|, i reads this, set d | d in devices requires 0 <= i < |devices| =>
        devices[i].address)
    }

    /**
     * `vhc_virtdev_add_transfer`: appends `t` to the queue of the first
     * device whose address is `t.address`; later matches are skipped.
     * ENOENT, and no queue changes, when no device matches.
     */
    method Submit(t: Transfer) returns (rc: Errno)
      requires Valid()
      modifies set d | d in devices
      ensures Valid() && devices == old(devices)
      ensures var k := FirstMatch(old(Addresses()), t.address, 0);
        && (rc == EOK <==> k.Some?)
        && (rc != EOK ==> rc == ENOENT)
        && forall i :: 0 <= i < |devices| ==>
             devices[i].queue == (if k == Some(i) then old(devices[i].queue) + [t]
                                  else old(devices[i].queue))
      ensures forall i :: 0 <= i < |devices| ==>
        && devices[i].address == old(devices[i].address)
        && devices[i].plugged == old(devices[i].plugged)
        && devices[i].completed == old(devices[i].completed)
    {
      ghost var addrs := Addresses();
      var found := false;
      ghost var k: nat := 0;
      var pos := 0;
      while pos < |devices|
        invariant 0 <= pos <= |devices|
        invariant found ==> FirstMatch(addrs, t.address, 0) == Some(k) && k < pos
        invariant !found ==> FirstMatch(addrs, t.address, 0) == FirstMatch(addrs, t.address, pos)
        invariant forall i :: 0 <= i < |devices| ==>
          devices[i].queue == (if found && i == k then old(devices[i].queue) + [t]
                               else old(devices[i].queue))
        invariant forall i :: 0 <= i < |devices| ==>
          && devices[i].address == old(devices[i].address)
          && devices[i].plugged == old(devices[i].plugged)
          && devices[i].completed == old(devices[i].completed)
      {
        var dev := devices[pos];
        if dev.address == t.address && !found {
          found := true;
          k := pos;
          dev.Enqueue(t);
        }
        pos := pos + 1;
      }
      rc := if found then EOK else ENOENT;
    }
  }
}
