/** Process-wide admission of connections and enumerations (pkg/hid/resources.go). */
module Resources {
  import opened Values

  const MAX_CONNECTIONS := 64
  const MAX_NATIVE_BYTES := 64 * 1024 * 1024
  const CONNECTION_BYTES := 768 * 1024
  const ENUMERATION_BYTES := 16 * 1024 * 1024

  type EndpointID = string

  datatype Refusal = Busy | ResourceLimit

  /** The one-slot enumeration semaphore, and whether its holder has been charged. */
  datatype Slot = Free | Taken | Charged

  datatype Pool = Pool(leases: set<EndpointID>, bytes: int, slot: Slot)

  function Empty(): Pool {
    Pool({}, 0, Free)
  }

  function Reserve(p: Pool, id: EndpointID): (Pool, Option<Refusal>) {
    if id in p.leases then (p, Some(Busy))
    else if |p.leases| >= MAX_CONNECTIONS || p.bytes > MAX_NATIVE_BYTES - CONNECTION_BYTES then (p, Some(ResourceLimit))
    else (p.(leases := p.leases + {id}, bytes := p.bytes + CONNECTION_BYTES), None)
  }

  function Release(p: Pool, id: EndpointID): Pool {
    p.(leases := p.leases - {id}, bytes := p.bytes - CONNECTION_BYTES)
  }

  /** The memory test made once the slot is taken. */
  function Charge(p: Pool): (Pool, Option<Refusal>) {
    if p.bytes > MAX_NATIVE_BYTES - ENUMERATION_BYTES then (p.(slot := Free), Some(ResourceLimit))
    else (p.(bytes := p.bytes + ENUMERATION_BYTES, slot := Charged), None)
  }

  function Discharge(p: Pool): Pool {
    p.(bytes := p.bytes - ENUMERATION_BYTES, slot := Free)
  }

  /** The byte counter is exactly what the leases and the enumeration in progress account for. */
  predicate Balanced(p: Pool) {
    && |p.leases| <= MAX_CONNECTIONS
    && p.bytes == CONNECTION_BYTES * |p.leases| + (if p.slot == Charged then ENUMERATION_BYTES else 0)
  }

  /** In a balanced pool the byte tests never decide: only the number of leases can refuse. */
  lemma ReserveExact(p: Pool, id: EndpointID)
    requires Balanced(p)
    ensures 0 <= p.bytes <= MAX_NATIVE_BYTES
    ensures Reserve(p, id).1 == if id in p.leases then Some(Busy) else if |p.leases| == MAX_CONNECTIONS then Some(ResourceLimit) else None
    ensures Balanced(Reserve(p, id).0)
  {
  }

  lemma ChargeExact(p: Pool)
    requires Balanced(p) && p.slot == Taken
    ensures Charge(p).1 == None && Balanced(Charge(p).0)
  {
  }

  lemma ReleaseExact(p: Pool, id: EndpointID)
    requires Balanced(p)
    ensures id in p.leases <==> Balanced(Release(p, id))
  {
    if id in p.leases {
      assert |p.leases - {id}| == |p.leases| - 1;
    } else {
      assert p.leases - {id} == p.leases;
    }
  }

  class ResourcePool {
    var endpoints: set<EndpointID>
    var bytes: int
    var slot: Slot

    ghost function View(): Pool
      reads this
    {
      Pool(endpoints, bytes, slot)
    }

    constructor ()
      ensures View() == Empty()
    {
      endpoints, bytes, slot := {}, 0, Free;
    }

    method ReserveEndpoint(id: EndpointID) returns (err: Option<Refusal>)
      modifies this
      ensures (View(), err) == Reserve(old(View()), id)
      ensures old(Balanced(View())) ==> Balanced(View()) && (err == Some(ResourceLimit) <==> id !in old(endpoints) && |old(endpoints)| == MAX_CONNECTIONS)
    {
      ReserveWhenBalanced(View(), id);
      if id in endpoints {
        return Some(Busy);
      }
      if |endpoints| >= MAX_CONNECTIONS || bytes > MAX_NATIVE_BYTES - CONNECTION_BYTES {
        return Some(ResourceLimit);
      }
      endpoints := endpoints + {id};
      bytes := bytes + CONNECTION_BYTES;
      err := None;
    }

    method ReleaseEndpoint(id: EndpointID)
      modifies this
      ensures View() == Release(old(View()), id)
      ensures old(Balanced(View())) ==> (Balanced(View()) <==> id in old(endpoints))
    {
      if Balanced(View()) {
        ReleaseExact(View(), id);
      }
      endpoints := endpoints - {id};
      bytes := bytes - CONNECTION_BYTES;
    }

    /** The part of reserveEnumeration that follows taking the slot. */
    method ChargeEnumeration() returns (err: Option<Refusal>)
      modifies this
      ensures (View(), err) == Charge(old(View()))
      ensures old(Balanced(View()) && slot == Taken) ==> err == None && Balanced(View())
    {
      if bytes > MAX_NATIVE_BYTES - ENUMERATION_BYTES {
        slot := Free;
        return Some(ResourceLimit);
      }
      bytes := bytes + ENUMERATION_BYTES;
      slot := Charged;
      err := None;
    }

    method ReleaseEnumeration()
      modifies this
      ensures View() == Discharge(old(View()))
    {
      bytes := bytes - ENUMERATION_BYTES;
      slot := Free;
    }
  }

  lemma ReserveWhenBalanced(p: Pool, id: EndpointID)
    ensures Balanced(p) ==>
              && Balanced(Reserve(p, id).0)
              && (Reserve(p, id).1 == Some(ResourceLimit) <==> id !in p.leases && |p.leases| == MAX_CONNECTIONS)
  {
    if Balanced(p) {
      ReserveExact(p, id);
    }
  }
}

/**
 All opens of a process (pkg/hid/native.go Open) together with the connections they create:
 each open runs a worker that opens the device, races a caller that may give up, and owns the
 endpoint's lease until the handle is closed.
 */
module PoolRuns {
  import opened Values
  import opened Resources
  import S = Sections
  import D = DriverContract
  import C = SupervisorRuns

  /** What the native open returns: perhaps a device, perhaps an error, and the opened metadata and report formats. */
  datatype NativeOpen = NativeOpen(device: bool, error: bool, matches: bool, input: S.ReportSpec, output: S.ReportSpec)

  const MAX_REPORT_SIZE := 4096

  /** The checks made on it: an error, no device, another endpoint, or formats out of bounds. */
  predicate Unusable(r: NativeOpen) {
    || r.error || !r.device || !r.matches
    || r.input.size == 0 || r.output.size == 0 || r.input.size > MAX_REPORT_SIZE || r.output.size > MAX_REPORT_SIZE
  }

  datatype OpenWorker =
    | Opening                                   // inside the native open
    | Opened(r: NativeOpen)                     // it returned
    | ClosingDevice                             // closing a device that will not be used
    | Releasing
    | Publishing
    | Connected(conn: C.World)
    | Over

  datatype OpenCaller = OpenWaiting | GotConnection | GotError | GaveUp

  datatype Open = Open(id: EndpointID, worker: OpenWorker, caller: OpenCaller, race: Race, canceled: bool, releases: nat)

  datatype State = State(pool: Pool, opens: seq<Open>)

  datatype OpenAction =
    | Cancel | NativeReturn(r: NativeOpen) | Settle
    | DeviceClosed | GiveBack | Publish | CallerWakes | ConnStep(step: C.Step)

  datatype Step = OpenCall(id: EndpointID) | OpenStep(i: nat, a: OpenAction) | TakeSlot | ChargeSlot | FreeSlot

  /** The flags the mutex of one open guards. */
  datatype Race = Race(completed: bool, abandoned: bool)

  /** The worker keeps the device exactly if its caller is still there and nothing failed. */
  function SettleRace(r: Race, failed: bool): (Race, bool) {
    if r.abandoned || failed then (r, false) else (r.(completed := true), true)
  }

  /** The caller takes the result exactly if there is one, and otherwise leaves it to the worker. */
  function WakeRace(r: Race): (Race, bool) {
    if r.completed then (r, true) else (r.(abandoned := true), false)
  }

  class OpenRace {
    var completed: bool
    var abandoned: bool

    ghost function View(): Race
      reads this
    {
      Race(completed, abandoned)
    }

    constructor ()
      ensures View() == Race(false, false)
    {
      completed, abandoned := false, false;
    }

    method Settle(failed: bool) returns (keep: bool)
      modifies this
      ensures (View(), keep) == SettleRace(old(View()), failed)
      ensures keep <==> !failed && !old(abandoned)
      ensures abandoned == old(abandoned) && completed == (old(completed) || keep)
    {
      if abandoned || failed {
        return false;
      }
      completed := true;
      keep := true;
    }

    /** After the device is closed and the lease is back. */
    method PublishError()
      modifies this
      ensures View() == old(View()).(completed := true)
    {
      completed := true;
    }

    method Wake() returns (got: bool)
      modifies this
      ensures (View(), got) == WakeRace(old(View()))
      ensures got <==> old(completed)
      ensures completed == old(completed) && abandoned == (old(abandoned) || !got)
    {
      if completed {
        return true;
      }
      abandoned := true;
      got := false;
    }
  }

  predicate OpenCan(o: Open, a: OpenAction) {
    match a
    case Cancel => true
    case NativeReturn(_) => o.worker == Opening
    case Settle => o.worker.Opened?
    case DeviceClosed => o.worker == ClosingDevice
    case GiveBack => o.worker == Releasing
    case Publish => o.worker == Publishing
    case CallerWakes => o.caller == OpenWaiting && (o.race.completed || o.canceled)
    case ConnStep(step) => o.worker.Connected? && C.Enabled(o.worker.conn, step)
  }

  function OpenDoes(o: Open, a: OpenAction): Open
    requires OpenCan(o, a)
  {
    match a
    case Cancel => o.(canceled := true)
    case NativeReturn(r) => o.(worker := Opened(r))
    case Settle =>
      var r := o.worker.r;
      var (race, keep) := SettleRace(o.race, Unusable(r));
      o.(race := race, worker := if keep then Connected(C.Start(r.input, r.output)) else if r.device then ClosingDevice else Releasing)
    case DeviceClosed => o.(worker := Releasing)
    case GiveBack => o.(worker := Publishing, releases := o.releases + 1)
    case Publish => o.(worker := Over, race := o.race.(completed := true))
    case CallerWakes =>
      var (race, got) := WakeRace(o.race);
      o.(race := race, caller := if !got then GaveUp else if o.worker.Connected? then GotConnection else GotError)
    case ConnStep(step) =>
      var conn := C.Apply(o.worker.conn, step);
      o.(worker := Connected(conn), releases := if step == C.CleanupStep(C.GiveBack) then o.releases + 1 else o.releases)
  }

  /** The action calls releaseEndpoint. */
  predicate Frees(a: OpenAction) {
    a == GiveBack || a == ConnStep(C.CleanupStep(C.GiveBack))
  }

  predicate Enabled(st: State, step: Step) {
    match step
    case OpenCall(_) => true
    case OpenStep(i, a) => i < |st.opens| && OpenCan(st.opens[i], a)
    case TakeSlot => st.pool.slot == Free
    case ChargeSlot => st.pool.slot == Taken
    case FreeSlot => st.pool.slot == Charged
  }

  function Apply(st: State, step: Step): State
    requires Enabled(st, step)
  {
    match step
    case OpenCall(id) =>
      var (pool, err) := Reserve(st.pool, id);
      if err.Some? then st else State(pool, st.opens + [Open(id, Opening, OpenWaiting, Race(false, false), false, 0)])
    case OpenStep(i, a) =>
      State(if Frees(a) then Release(st.pool, st.opens[i].id) else st.pool, st.opens[i := OpenDoes(st.opens[i], a)])
    case TakeSlot => st.(pool := st.pool.(slot := Taken))
    case ChargeSlot => st.(pool := Charge(st.pool).0)
    case FreeSlot => st.(pool := Discharge(st.pool))
  }

  function Run(st: State, steps: seq<Step>): Option<State>
    decreases |steps|
  {
    if steps == [] then Some(st)
    else if !Enabled(st, steps[0]) then None
    else Run(Apply(st, steps[0]), steps[1..])
  }

  ghost predicate Reachable(st: State) {
    exists steps :: Run(State(Empty(), []), steps) == Some(st)
  }

  // ----- Ownership -------------------------------------------------------------------------

  /** The open, or the connection it became, still owns the lease of its endpoint. */
  predicate Owns(o: Open) {
    match o.worker
    case Publishing => false
    case Over => false
    case Connected(w) => C.PhaseOf(w.cleanup) != D.Released
    case _ => true
  }

  /** A native handle for the endpoint may be open. */
  predicate HandleOpen(o: Open) {
    match o.worker
    case Opening => true
    case Opened(r) => r.device
    case ClosingDevice => true
    case Connected(w) => C.PhaseOf(w.cleanup) == D.Open || C.PhaseOf(w.cleanup) == D.Closing
    case _ => false
  }

  ghost predicate OpenInv(o: Open) {
    && (o.worker.Connected? ==> C.Reachable(o.worker.conn) && o.race.completed && !o.race.abandoned)
    && (o.race.completed <==> o.worker.Connected? || o.worker == Over)
    && (o.caller == GaveUp <==> o.race.abandoned)
    && (o.caller == GotConnection ==> o.worker.Connected?)
    && (o.caller == GotError ==> o.worker == Over)
    && o.releases == (if Owns(o) then 0 else 1)
  }

  predicate Exclusive(opens: seq<Open>, leases: set<EndpointID>) {
    && (forall i :: 0 <= i < |opens| && Owns(opens[i]) ==> opens[i].id in leases)
    && (forall i, j :: 0 <= i < j < |opens| && Owns(opens[i]) && Owns(opens[j]) ==> opens[i].id != opens[j].id)
    && (forall id :: id in leases ==> exists i :: 0 <= i < |opens| && Owns(opens[i]) && opens[i].id == id)
  }

  ghost predicate Inv(st: State) {
    && Balanced(st.pool)
    && Exclusive(st.opens, st.pool.leases)
    && (forall i :: 0 <= i < |st.opens| ==> OpenInv(st.opens[i]))
  }

  lemma StartReachable(input: S.ReportSpec, output: S.ReportSpec)
    ensures C.Reachable(C.Start(input, output))
  {
    assert C.Run(C.Start(input, output), []) == Some(C.Start(input, output));
  }

  /** A connection's step changes the phase of its handle only in the cleanup. */
  lemma PhaseChanges(w: C.World, step: C.Step)
    requires C.Reachable(w) && C.Enabled(w, step)
    ensures var before, after := C.PhaseOf(w.cleanup), C.PhaseOf(C.Apply(w, step).cleanup);
            && (step == C.CleanupStep(C.GiveBack) ==> before == D.Shut && after == D.Released)
            && (step != C.CleanupStep(C.GiveBack) ==> (before == D.Released <==> after == D.Released))
  {
    assert w.cleanup == C.NotStarted <==> !w.s.retiring by {
      C.ReachableInv(w);
    }
    if !step.CleanupStep? {
      CleanupStarts(w, step);
    }
  }

  /** Other steps can at most start the cleanup. */
  lemma CleanupStarts(w: C.World, step: C.Step)
    requires C.Enabled(w, step) && !step.CleanupStep? && (w.cleanup == C.NotStarted <==> !w.s.retiring)
    ensures C.Apply(w, step).cleanup == w.cleanup || (w.cleanup == C.NotStarted && C.Apply(w, step).cleanup == C.AwaitWorkers)
  {
  }

  /** One action keeps what is true of an open, and it loses the lease exactly when it releases it. */
  lemma OpenLocal(o: Open, a: OpenAction)
    requires OpenInv(o) && OpenCan(o, a)
    ensures OpenInv(OpenDoes(o, a)) && OpenDoes(o, a).id == o.id
    ensures Owns(OpenDoes(o, a)) <==> Owns(o) && !Frees(a)
    ensures Frees(a) ==> Owns(o) && !HandleOpen(o)
  {
    match a {
      case ConnStep(step) =>
        PhaseChanges(o.worker.conn, step);
        C.ReachableStep(o.worker.conn, step);
      case Settle =>
        StartReachable(o.worker.r.input, o.worker.r.output);
      case _ =>
    }
  }

  /** Changing one open, with the pool released exactly when it stops owning its lease. */
  lemma ExclusiveUpdate(opens: seq<Open>, leases: set<EndpointID>, i: nat, o: Open)
    requires Exclusive(opens, leases) && i < |opens| && o.id == opens[i].id
    requires Owns(o) ==> Owns(opens[i])
    ensures Owns(o) || !Owns(opens[i]) ==> Exclusive(opens[i := o], leases)
    ensures Owns(opens[i]) && !Owns(o) ==> Exclusive(opens[i := o], leases - {o.id})
  {
    var opens' := opens[i := o];
    var leases' := if Owns(opens[i]) && !Owns(o) then leases - {o.id} else leases;
    forall id | id in leases' ensures exists k :: 0 <= k < |opens'| && Owns(opens'[k]) && opens'[k].id == id {
      var k :| 0 <= k < |opens| && Owns(opens[k]) && opens[k].id == id;
      assert Owns(opens'[k]) && opens'[k].id == id;
    }
  }

  lemma ExclusiveAppend(opens: seq<Open>, leases: set<EndpointID>, o: Open)
    requires Exclusive(opens, leases) && o.id !in leases && Owns(o)
    ensures Exclusive(opens + [o], leases + {o.id})
  {
    var opens' := opens + [o];
    forall id | id in leases + {o.id} ensures exists k :: 0 <= k < |opens'| && Owns(opens'[k]) && opens'[k].id == id {
      if id == o.id {
        assert opens'[|opens|] == o;
      } else {
        var k :| 0 <= k < |opens| && Owns(opens[k]) && opens[k].id == id;
        assert opens'[k] == opens[k];
      }
    }
  }

  lemma OpenCallKeeps(st: State, id: EndpointID)
    requires Inv(st)
    ensures Inv(Apply(st, OpenCall(id)))
  {
    ReserveExact(st.pool, id);
    var o := Open(id, Opening, OpenWaiting, Race(false, false), false, 0);
    if id !in st.pool.leases {
      ExclusiveAppend(st.opens, st.pool.leases, o);
    }
  }

  lemma OpenStepKeeps(st: State, i: nat, a: OpenAction)
    requires Inv(st) && Enabled(st, OpenStep(i, a))
    ensures Inv(Apply(st, OpenStep(i, a)))
  {
    var o, o' := st.opens[i], OpenDoes(st.opens[i], a);
    OpenLocal(o, a);
    ExclusiveUpdate(st.opens, st.pool.leases, i, o');
    ReleaseExact(st.pool, o.id);
  }

  lemma StepKeeps(st: State, step: Step)
    requires Inv(st) && Enabled(st, step)
    ensures Inv(Apply(st, step))
  {
    match step {
      case OpenCall(id) => OpenCallKeeps(st, id);
      case OpenStep(i, a) => OpenStepKeeps(st, i, a);
      case TakeSlot =>
      case ChargeSlot => ChargeExact(st.pool);
      case FreeSlot =>
    }
  }

  lemma {:induction false} RunKeeps(st: State, steps: seq<Step>)
    requires Inv(st) && Run(st, steps).Some?
    ensures Inv(Run(st, steps).value)
    decreases |steps|
  {
    if steps != [] {
      StepKeeps(st, steps[0]);
      RunKeeps(Apply(st, steps[0]), steps[1..]);
    }
  }

  lemma ReachableInv(st: State)
    requires Reachable(st)
    ensures Inv(st)
  {
    var steps :| Run(State(Empty(), []), steps) == Some(st);
    RunKeeps(State(Empty(), []), steps);
  }

  // ----- What every run guarantees ------------------------------------------------------------

  /**
   Every leased endpoint has exactly one owner among all opens and connections, and two handles
   for one endpoint are never open at the same time.
   */
  lemma LeaseOwnership(st: State)
    requires Reachable(st)
    ensures forall id :: id in st.pool.leases <==> exists i :: 0 <= i < |st.opens| && Owns(st.opens[i]) && st.opens[i].id == id
    ensures forall i, j :: 0 <= i < j < |st.opens| && Owns(st.opens[i]) && Owns(st.opens[j]) ==> st.opens[i].id != st.opens[j].id
    ensures forall i, j :: 0 <= i < j < |st.opens| && HandleOpen(st.opens[i]) && HandleOpen(st.opens[j]) ==> st.opens[i].id != st.opens[j].id
  {
    ReachableInv(st);
    assert forall i :: 0 <= i < |st.opens| && HandleOpen(st.opens[i]) ==> Owns(st.opens[i]);
  }

  /** The lease of every open is released at most once, exactly when it stops owning it, and with its handle closed. */
  lemma ReleasedOnce(st: State, i: nat)
    requires Reachable(st) && i < |st.opens|
    ensures st.opens[i].releases == (if Owns(st.opens[i]) then 0 else 1)
    ensures st.opens[i].releases > 0 ==> !HandleOpen(st.opens[i])
    ensures st.opens[i].releases > 0 && st.opens[i].worker.Connected? ==>
              D.HandleAfter(st.opens[i].worker.conn.log) == Some(D.Handle(false, None, D.Released))
  {
    ReachableInv(st);
    var o := st.opens[i];
    assert OpenInv(o);
    if o.worker.Connected? && !Owns(o) {
      var w := o.worker.conn;
      C.ReachableInv(w);
      if |w.writes| > 0 {
        C.LiveZero(w.writes, |w.writes| - 1);
      }
    }
  }

  /** Releasing never happens for an endpoint that is not leased, nor while its handle is open. */
  lemma ReleaseIsSafe(st: State, i: nat, a: OpenAction)
    requires Reachable(st) && Enabled(st, OpenStep(i, a)) && Frees(a)
    ensures st.opens[i].id in st.pool.leases && Owns(st.opens[i]) && !HandleOpen(st.opens[i])
    ensures st.opens[i].id !in Apply(st, OpenStep(i, a)).pool.leases
  {
    ReachableInv(st);
    assert OpenInv(st.opens[i]);
    OpenLocal(st.opens[i], a);
  }

  /** A connection is created exactly for a caller that is still there: it is returned, never orphaned. */
  lemma ConnectionsReachTheirCaller(st: State, i: nat)
    requires Reachable(st) && i < |st.opens|
    ensures st.opens[i].worker.Connected? ==> st.opens[i].caller != GaveUp && st.opens[i].caller != GotError
    ensures st.opens[i].worker.Connected? && Enabled(st, OpenStep(i, CallerWakes)) ==>
              Apply(st, OpenStep(i, CallerWakes)).opens[i].caller == GotConnection
    ensures st.opens[i].caller == GaveUp ==> !st.opens[i].worker.Connected?
  {
    ReachableInv(st);
    assert OpenInv(st.opens[i]);
  }

  /**
   An opened device becomes a connection at its Settle step if and only if there is a device without an error,
   for the endpoint asked for and with report sizes in 1..4096, and its caller has not given up.
   */
  lemma OpenSucceedsExactly(st: State, i: nat)
    requires Reachable(st) && i < |st.opens| && st.opens[i].worker.Opened?
    ensures Enabled(st, OpenStep(i, Settle))
    ensures var r, o := st.opens[i].worker.r, Apply(st, OpenStep(i, Settle)).opens[i];
            && (o.worker.Connected? <==>
                  && r.device && !r.error && r.matches && 1 <= r.input.size <= 4096 && 1 <= r.output.size <= 4096
                  && st.opens[i].caller != GaveUp)
            && (o.worker.Connected? ==> o.worker.conn == C.Start(r.input, r.output) && Owns(o))
  {
    ReachableInv(st);
    assert OpenInv(st.opens[i]);
  }

  /** The other steps make no connection, and take none away. */
  lemma ConnectsOnlySettling(st: State, step: Step, i: nat)
    requires Reachable(st) && Enabled(st, step) && i < |st.opens| && step != OpenStep(i, Settle)
    ensures i < |Apply(st, step).opens| && (Apply(st, step).opens[i].worker.Connected? <==> st.opens[i].worker.Connected?)
  {
  }

  /** A caller waiting on a connection gets it when it wakes, even if its context has expired too; it gives up exactly if there is no result yet. */
  lemma WakingCaller(st: State, i: nat)
    requires Reachable(st) && i < |st.opens| && st.opens[i].caller == OpenWaiting
    ensures st.opens[i].worker.Connected? ==>
              && Enabled(st, OpenStep(i, CallerWakes))
              && Apply(st, OpenStep(i, CallerWakes)).opens[i].caller == GotConnection
    ensures Enabled(st, OpenStep(i, CallerWakes)) ==>
              var caller := Apply(st, OpenStep(i, CallerWakes)).opens[i].caller;
              && (caller == GotError <==> st.opens[i].worker == Over)
              && (caller == GaveUp <==> !st.opens[i].worker.Connected? && st.opens[i].worker != Over)
  {
    ReachableInv(st);
    assert OpenInv(st.opens[i]);
  }

  // ----- Leases come back -----------------------------------------------------------------------

  /** The open will not end in a connection that lasts: its caller gave up, it failed, or its connection is retiring. */
  predicate Doomed(o: Open) {
    || o.race.abandoned
    || match o.worker
       case Opening => false
       case Opened(r) => Unusable(r)
       case Connected(w) => w.s.retiring
       case _ => true
  }

  /** Work of the open's goroutine or of its connection's, including the return of native calls. */
  predicate Work(a: OpenAction) {
    match a
    case Cancel => false
    case CallerWakes => false
    case ConnStep(step) => C.Driving(step)
    case _ => true
  }

  /** How much work a doomed open can still do. */
  function OpenRank(o: Open): nat {
    match o.worker
    case Opening => 5
    case Opened(_) => 4
    case ClosingDevice => 3
    case Releasing => 2
    case Publishing => 1
    case Over => 0
    case Connected(w) => C.Rank(w)
  }

  lemma DoomedStep(o: Open, a: OpenAction)
    requires OpenInv(o) && OpenCan(o, a) && Doomed(o)
    ensures Doomed(OpenDoes(o, a))
    ensures if Work(a) then OpenRank(OpenDoes(o, a)) < OpenRank(o) else OpenRank(OpenDoes(o, a)) == OpenRank(o)
  {
    if a.ConnStep? {
      assert C.ReaderInv(o.worker.conn.s, o.worker.conn.reader) by {
        C.ReachableInv(o.worker.conn);
      }
      C.RankStep(o.worker.conn, a.step);
    }
  }

  /** The work a schedule does on one open. */
  function WorkOn(steps: seq<Step>, i: nat): nat {
    if steps == [] then 0
    else (if steps[0].OpenStep? && steps[0].i == i && Work(steps[0].a) then 1 else 0) + WorkOn(steps[1..], i)
  }

  lemma DoomedNext(st: State, step: Step, i: nat)
    requires Inv(st) && Enabled(st, step) && i < |st.opens| && Doomed(st.opens[i])
    ensures var st' := Apply(st, step);
            && i < |st'.opens| && Doomed(st'.opens[i]) && st'.opens[i].id == st.opens[i].id
            && WorkOn([step], i) + OpenRank(st'.opens[i]) <= OpenRank(st.opens[i])
  {
    assert [step][1..] == [];
    if step.OpenStep? && step.i == i {
      assert OpenInv(st.opens[i]);
      DoomedStep(st.opens[i], step.a);
    }
  }

  lemma {:induction false} DoomedRun(st: State, steps: seq<Step>, i: nat)
    requires Inv(st) && Run(st, steps).Some? && i < |st.opens| && Doomed(st.opens[i])
    ensures var st' := Run(st, steps).value;
            && Inv(st') && i < |st'.opens| && Doomed(st'.opens[i]) && st'.opens[i].id == st.opens[i].id
            && WorkOn(steps, i) + OpenRank(st'.opens[i]) <= OpenRank(st.opens[i])
    decreases |steps|
  {
    if steps != [] {
      assert [steps[0]][1..] == [];
      DoomedNext(st, steps[0], i);
      StepKeeps(st, steps[0]);
      DoomedRun(Apply(st, steps[0]), steps[1..], i);
    }
  }

  /** A doomed open that still owns its lease always has work to do. */
  lemma DoomedCannotStall(o: Open)
    requires OpenInv(o) && Doomed(o) && Owns(o)
    ensures exists a :: Work(a) && OpenCan(o, a)
  {
    var a: OpenAction;
    match o.worker {
      case Opening => a := NativeReturn(NativeOpen(false, true, false, S.ReportSpec(0, 0), S.ReportSpec(0, 0)));
      case Opened(_) => a := Settle;
      case ClosingDevice => a := DeviceClosed;
      case Releasing => a := GiveBack;
      case Connected(w) =>
        C.CleanupCannotStall(w);
        var step :| C.Driving(step) && C.Enabled(w, step);
        a := ConnStep(step);
      case _ => a := Cancel;
    }
    assert Work(a) && OpenCan(o, a);
  }

  /**
   The lease of an abandoned or failed open, and of a retiring connection, comes back: whatever else is
   scheduled, only so much work is left for it, and when none is left the lease was released with the
   handle closed.
   */
  lemma LeasesComeBack(st: State, steps: seq<Step>, i: nat)
    requires Reachable(st) && Run(st, steps).Some? && i < |st.opens| && Doomed(st.opens[i])
    ensures var st' := Run(st, steps).value;
            && i < |st'.opens| && WorkOn(steps, i) + OpenRank(st'.opens[i]) <= OpenRank(st.opens[i])
            && ((forall a :: Work(a) ==> !Enabled(st', OpenStep(i, a))) ==>
                  !Owns(st'.opens[i]) && st'.opens[i].releases == 1 && !HandleOpen(st'.opens[i]))
  {
    ReachableInv(st);
    DoomedRun(st, steps, i);
    var st' := Run(st, steps).value;
    var o := st'.opens[i];
    assert OpenInv(o);
    if Owns(o) {
      DoomedCannotStall(o);
      var a :| Work(a) && OpenCan(o, a);
      assert Enabled(st', OpenStep(i, a));
    }
  }

  /**
   The budget is tight: the counter is 768 KiB per lease plus 16 MiB while an enumeration is
   charged and never exceeds 64 MiB, an endpoint is refused for lack of resources exactly when
   64 are leased, and an enumeration never is.
   */
  lemma BudgetIsTight(st: State, id: EndpointID)
    requires Reachable(st)
    ensures st.pool.bytes == 768 * 1024 * |st.pool.leases| + (if st.pool.slot == Charged then 16 * 1024 * 1024 else 0)
    ensures 0 <= st.pool.bytes <= 64 * 1024 * 1024 && |st.pool.leases| <= 64
    ensures Reserve(st.pool, id).1 == Some(ResourceLimit) <==> id !in st.pool.leases && |st.pool.leases| == 64
    ensures Reserve(st.pool, id).1 == Some(Busy) <==> id in st.pool.leases
    ensures st.pool.slot == Taken ==> Charge(st.pool).1 == None
  {
    assert Balanced(st.pool) by {
      ReachableInv(st);
    }
    ReserveExact(st.pool, id);
  }
}
