/** The resource bundle of the capture supervisor and its ordered teardown
    (crates/core-capture/src/supervisor.rs).
 */
module SupervisorResources {

  /** What the platform may still be doing, and the process-wide socket mark.
      `rules` is set when `engine.start` is called and cleared only by a successful
      `engine.stop`; `ingress` likewise for `post_start` and `pre_stop`. */
  datatype World = World(rules: bool, ingress: bool, mark: nat)

  datatype Lease = NoLease | Lease(previous: nat, installed: nat)

  /** The fields of `SupervisorResources`; `dns` counts the fake-DNS listeners. */
  datatype Resources = Resources(
    network: bool, purge: bool, event: bool, dispatcher: bool, proxy: bool,
    lease: Lease, dns: nat, guard: bool)

  const DEFAULT := Resources(false, false, false, false, false, NoLease, 0, false)

  /** `OutboundFwmarkLease::install`: compare-exchange 0 for the requested mark. */
  function InstallMark(w: World, requested: nat): (r: (World, bool, Lease)) {
    if requested == 0 then (w, true, NoLease)
    else if w.mark == 0 then (w.(mark := requested), true, Lease(0, requested))
    else (w, false, NoLease)
  }

  /** `OutboundFwmarkLease::release`: a newer owner's mark is preserved. */
  function ReleaseMark(w: World, lease: Lease): World {
    if lease.Lease? && w.mark == lease.installed then w.(mark := lease.previous) else w
  }

  datatype CleanupStep =
    NetworkListener | PurgeTask | EventTask | EngineIngress | Dispatcher
    | SystemProxy | Engine | OutboundFwmark | DnsListener

  const CLEANUP_ORDER: seq<CleanupStep> := [
    NetworkListener, PurgeTask, EventTask, EngineIngress, Dispatcher,
    SystemProxy, Engine, OutboundFwmark, DnsListener]

  /** A teardown in progress. `engineOk` is `engine_result.is_ok()`; `aborted` is
      the early return on a failed `pre_stop`. */
  datatype Teardown = Teardown(world: World, res: Resources, engineOk: bool, aborted: bool)

  /** One turn of the loop over `CLEANUP_ORDER`; `ok` is the answer of the engine
      call, if the step makes one. */
  function RunStep(step: CleanupStep, stopEngine: bool, ok: bool, k: Teardown): Teardown {
    match step
    case NetworkListener => k.(res := k.res.(network := false))
    case PurgeTask => k.(res := k.res.(purge := false))
    case EventTask => k.(res := k.res.(event := false))
    case EngineIngress =>
      if !stopEngine then k
      else if ok then k.(world := k.world.(ingress := false))
      else k.(aborted := true)
    case Dispatcher => k.(res := k.res.(dispatcher := false))
    case SystemProxy => k.(res := k.res.(proxy := false))
    case Engine =>
      if !stopEngine then k
      else if ok then k.(world := k.world.(rules := false))
      else k.(engineOk := false)
    case OutboundFwmark =>
      if k.engineOk || !stopEngine
      then k.(world := ReleaseMark(k.world, k.res.lease), res := k.res.(lease := NoLease))
      else k
    case DnsListener =>
      if k.engineOk || !stopEngine then k.(res := k.res.(dns := 0)) else k
  }

  /** `abort_sync`: the fallback without an async runtime keeps lease and listeners. */
  function AbortSync(r: Resources): Resources {
    r.(network := false, purge := false, event := false, dispatcher := false, proxy := false)
  }

  /** The engine's answers during one `shutdown`. */
  datatype Answers = Answers(preStop: bool, stop: bool, markClean: bool)

  function Answer(a: Answers, step: CleanupStep): bool {
    match step
    case EngineIngress => a.preStop
    case Engine => a.stop
    case _ => true
  }

  /** Where a teardown that began at `(w, r)` stands after `n` steps of the order. */
  function Progress(n: nat, stopEngine: bool, a: Answers, w: World, r: Resources): Teardown {
    var pre := r.(network := r.network && n <= 0, purge := r.purge && n <= 1, event := r.event && n <= 2);
    if stopEngine && !a.preStop && n > 3 then Teardown(w, pre, true, true)
    else
      var engineOk := !(stopEngine && !a.stop && n > 6);
      var w1 := if stopEngine then World(w.rules && !(a.stop && n > 6), w.ingress && n <= 3, w.mark) else w;
      Teardown(
        if engineOk && n > 7 then ReleaseMark(w1, r.lease) else w1,
        pre.(dispatcher := r.dispatcher && n <= 4,
             proxy := r.proxy && n <= 5,
             lease := if engineOk && n > 7 then NoLease else r.lease,
             dns := if engineOk && n > 8 then 0 else r.dns),
        engineOk, false)
  }

  lemma ProgressStep(n: nat, step: CleanupStep, stopEngine: bool, a: Answers, w: World, r: Resources)
    requires n < |CLEANUP_ORDER| && step == CLEANUP_ORDER[n]
    requires !Progress(n, stopEngine, a, w, r).aborted
    ensures RunStep(step, stopEngine, Answer(a, step), Progress(n, stopEngine, a, w, r))
            == Progress(n + 1, stopEngine, a, w, r)
  {
    match step
    case NetworkListener => assert n == 0;
    case PurgeTask => assert n == 1;
    case EventTask => assert n == 2;
    case EngineIngress => assert n == 3;
    case Dispatcher => assert n == 4;
    case SystemProxy => assert n == 5;
    case Engine => assert n == 6;
    case OutboundFwmark => assert n == 7;
    case DnsListener => assert n == 8;
  }

  /** The bundle as an object whose fields `shutdown` takes one by one. */
  class Bundle {
    var res: Resources
    var world: World

    constructor (r: Resources, w: World)
      ensures res == r && world == w
    {
      res, world := r, w;
    }

    /** `shutdown`: the whole teardown, stated by what it leaves behind. Failing
        `pre_stop` leaves everything but the tasks, failing `stop` leaves exactly
        what a retry needs, and success leaves nothing. */
    method Shutdown(stopEngine: bool, a: Answers) returns (ok: bool)
      modifies this
      ensures stopEngine && !a.preStop ==>
                && !ok && world == old(world)
                && res == old(res).(network := false, purge := false, event := false)
      ensures stopEngine && a.preStop && !a.stop ==>
                && !ok && world == old(world).(ingress := false)
                && res == DEFAULT.(lease := old(res.lease), dns := old(res.dns), guard := old(res.guard))
      ensures stopEngine && a.preStop && a.stop ==>
                && (ok <==> old(res.guard) ==> a.markClean)
                && world == ReleaseMark(World(false, false, old(world.mark)), old(res.lease))
                && res == DEFAULT
      ensures !stopEngine ==>
                && (ok <==> old(res.guard) ==> a.markClean)
                && world == ReleaseMark(old(world), old(res.lease))
                && res == DEFAULT
    {
      var k := Teardown(world, res, true, false);
      var i := 0;
      while i < |CLEANUP_ORDER| && !k.aborted
        invariant i <= |CLEANUP_ORDER|
        invariant k == Progress(i, stopEngine, a, old(world), old(res))
        invariant world == old(world) && res == old(res)
      {
        ProgressStep(i, CLEANUP_ORDER[i], stopEngine, a, old(world), old(res));
        k := RunStep(CLEANUP_ORDER[i], stopEngine, Answer(a, CLEANUP_ORDER[i]), k);
        i := i + 1;
      }
      world, res := k.world, k.res;
      if k.aborted {
        return false;
      }
      ok := k.engineOk;
      if k.engineOk || !stopEngine {
        if res.guard {
          res := res.(guard := false);
          if !a.markClean {
            return false;
          }
        }
      }
    }
  }
}
