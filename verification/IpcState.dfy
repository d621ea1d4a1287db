/**
 The message-passing state of the kernel: process slots, privilege structures and
 caller queues.  Two histories are kept beside the kernel's own fields, `log` for
 messages accepted by SEND, SENDREC and SENDNB and `asyncLog` for deliveries out of
 SENDA tables; no operation reads them.
 */
module IpcState {
  import opened Options
  import opened WaitGraph

  const NR_TASKS := 4
  const NR_PROCS := 256
  const NR_SLOTS := 260
  const NR_SYS_PROCS := 32
  const CHUNK_BITS := 16

  // Process table slots: process number plus NR_TASKS.
  const CLOCK := 1
  const SYSTEM := 2
  const HARDWARE := 3
  const PM := 4
  const VFS := 5
  const VM := 12

  const USER_PRIV := 14

  const SIGKSIG := 30
  const SIGNDELAY := 31

  const ANY := 0x7ace
  const MAX_NR_TASKS := 1023
  const GENERATION_SIZE := 36558

  datatype Status =
    | OK | EFAULT | EINVAL | EDEADSRCDST | ECALLDENIED | ETRAPDENIED | ELOCKED | ENOTREADY
    | ESRCDIED | EDSTDIED | EBADCALL | EPERM | EDOM

  // Trap numbers of the message calls that can block.
  datatype Trap = Send | Receive

  // A direct message carries the position of its send in the log.
  datatype Kind = Direct(tag: nat) | Notification(arg: set<int>) | Async(noreply: bool)
  datatype Payload = Payload(kind: Kind, body: int)
  datatype Msg = Msg(source: int, payload: Payload)

  datatype Proc = Proc(
    dead: bool,              // RTS_NO_ENDPOINT
    sending: bool,           // RTS_SENDING
    receiving: bool,         // RTS_RECEIVING
    getfrom: int,            // p_getfrom_e
    sendto: int,             // p_sendto_e
    sendmsg: Payload,        // p_sendmsg
    inbox: Option<Msg>,      // p_delivermsg while MF_DELIVERMSG is set
    replyPend: bool,         // MF_REPLY_PEND
    asynMsg: bool,           // MF_ASYNMSG
    sigDelay: bool,          // MF_SIG_DELAY
    signaled: bool,          // RTS_SIGNALED
    pending: set<int>,       // p_pending
    retreg: Status)          // p_reg.retreg, as set for a released waiter

  datatype Entry = Entry(
    valid: bool, done: bool, notify: bool, noreply: bool, reserved: bool,
    dst: int, result: Status, body: int)
  {
    predicate Empty() { !valid && !done && !notify && !noreply && !reserved }
    predicate Malformed() { !Empty() && (reserved || !valid) }
    predicate Undone() { valid && !done && !reserved }
  }

  datatype Priv = Priv(
    notify: set<nat>,        // s_notify_pending
    sigPending: set<int>,    // s_sig_pending
    intPending: set<int>,    // s_int_pending
    active: bool,            // s_asynsize != 0
    table: seq<Entry>,       // the table at s_asyntab
    tableNo: nat)            // history: how many tables SENDA has scanned

  datatype Place = AtSender | AtReceiver | CopiedOut | Withdrawn
  datatype Transfer = Transfer(src: int, srcEp: int, dst: int, body: int, place: Place)
  datatype AsyncDelivery = AsyncDelivery(priv: nat, tableNo: nat, index: nat, dst: int, noreply: bool)

  // What message passing reads and never changes.
  datatype Config = Config(
    ep: seq<int>,            // p_endpoint of each slot
    free: seq<bool>,         // p_rts_flags == RTS_SLOT_FREE
    priv: seq<nat>,          // index of *p_priv
    owner: seq<int>,         // slot of s_proc_nr of each privilege structure, NOBODY for NONE
    sysProc: seq<bool>,      // SYS_PROC
    traps: seq<set<int>>,    // s_trap_mask
    ipcTo: seq<set<nat>>)    // s_ipc_to

  datatype State = State(
    cfg: Config,
    procs: seq<Proc>,
    callq: seq<seq<nat>>,    // the list p_caller_q of each slot
    privs: seq<Priv>,
    log: seq<Transfer>,
    asyncLog: seq<AsyncDelivery>)

  // _ENDPOINT_P(e) as a slot; the C remainder takes the sign of the dividend.
  function SlotOf(e: int): (slot: int) {
    var n := e + MAX_NR_TASKS;
    (if n >= 0 then n % GENERATION_SIZE else -((-n) % GENERATION_SIZE)) - MAX_NR_TASKS + NR_TASKS
  }

  // Endpoints name their own slot, and slots and privilege structures refer to each
  // other: the owner of a structure uses it, and a structure in use has an owner.
  ghost predicate ConfigOk(g: Config) {
    && |g.ep| == |g.free| == |g.priv| == NR_SLOTS
    && |g.owner| == |g.sysProc| == |g.traps| == |g.ipcTo| == NR_SYS_PROCS
    && (forall i :: 0 <= i < NR_SLOTS ==> SlotOf(g.ep[i]) == i)
    && (forall i :: 0 <= i < NR_SLOTS ==> g.priv[i] < NR_SYS_PROCS)
    && (forall i :: 0 <= i < NR_SLOTS && !g.free[i] ==> g.owner[g.priv[i]] != NOBODY)
    && (forall j :: 0 <= j < NR_SYS_PROCS && g.owner[j] != NOBODY ==>
          0 <= g.owner[j] < NR_SLOTS && g.priv[g.owner[j]] == j)
    && !g.sysProc[USER_PRIV]
    && !g.free[SYSTEM] && g.owner[g.priv[SYSTEM]] == SYSTEM
    && !g.free[PM]
  }

  ghost function Owned(g: Config): set<nat>
    requires ConfigOk(g)
  {
    set j: nat | j < NR_SYS_PROCS && g.owner[j] != NOBODY
  }

  ghost predicate Shape(s: State) {
    && ConfigOk(s.cfg)
    && |s.procs| == NR_SLOTS && |s.callq| == NR_SLOTS && |s.privs| == NR_SYS_PROCS
  }

  // Pending notification bits name owned privilege structures, and callers are slots.
  ghost predicate Refs(s: State)
    requires Shape(s)
  {
    && (forall j :: 0 <= j < NR_SYS_PROCS ==> s.privs[j].notify <= Owned(s.cfg))
    && (forall i, k :: 0 <= i < NR_SLOTS && 0 <= k < |s.callq[i]| ==> s.callq[i][k] < NR_SLOTS)
  }

  predicate IsSlot(i: int) {
    0 <= i < NR_SLOTS
  }

  // isokendpt: the endpoint is that of a slot in use, in its current generation.
  predicate OkEndpoint(g: Config, e: int)
    requires |g.free| == |g.ep|
  {
    var i := SlotOf(e);
    0 <= i < |g.ep| && !g.free[i] && g.ep[i] == e
  }

  ghost predicate MaySend(g: Config, src: int, dst: int)
    requires ConfigOk(g) && IsSlot(src) && IsSlot(dst)
  {
    g.priv[dst] in g.ipcTo[g.priv[src]]
  }

  // WILLRECEIVE
  predicate WillReceive(p: Proc, e: int) {
    p.receiving && !p.sending && (p.getfrom == ANY || p.getfrom == e)
  }

  // The slot a process waits for: the source of its RECEIVE unless that is ANY, and
  // otherwise the destination of its SEND.
  function WaitOf(p: Proc, n: nat): (r: int)
    ensures NOBODY <= r < n
  {
    var target :=
      if p.receiving then (if p.getfrom == ANY then NOBODY else SlotOf(p.getfrom))
      else if p.sending then SlotOf(p.sendto) else NOBODY;
    if 0 <= target < n then target else NOBODY
  }

  function Waits(s: State): (g: Graph)
    ensures |g| == |s.procs|
  {
    seq(|s.procs|, i requires 0 <= i < |s.procs| => WaitOf(s.procs[i], |s.procs|))
  }

  // What deadlock() reports: the chain of waits from d comes back to c, unless c and
  // d alone are involved and exactly one of them is sending.
  ghost predicate Deadlocked(s: State, trap: Trap, c: int, d: int)
    requires 0 <= c < |s.procs| && 0 <= d < |s.procs|
  {
    exists k: nat :: 0 < k && BackAt(Waits(s), d, c, k) && !(k == 1 && s.procs[d].sending != (trap == Send))
  }

  // The chain from d meets c after k waits and not earlier.
  ghost predicate BackAt(g: Graph, d: int, c: int, k: nat)
    requires IsNode(g, d)
  {
    Follow(g, d, k) == c && forall j: nat :: 0 < j < k ==> Follow(g, d, j) != c
  }
}
