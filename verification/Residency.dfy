/** When `DraftEngine` keeps its models and when it lets them go: sessions, the idle timer and its generations. */
module Residency {
  /** The fields guarded by the state lock; `armed` says whether `_idle_timer` is set. */
  datatype Core = Core(active: nat, closed: bool, armed: bool, generation: nat, asr: bool, formatter: bool) {
    predicate Loaded() { asr || formatter }
  }

  function Cancelled(c: Core): Core {
    c.(generation := c.generation + 1, armed := false)
  }

  function Unloaded(c: Core): Core {
    c.(asr := false, formatter := false)
  }

  function Entered(c: Core): Core {
    Cancelled(c).(active := c.active + 1)
  }

  /** `patient` is whether the idle timeout is positive. */
  function Left(c: Core, patient: bool): Core
    requires c.active > 0
  {
    var d := c.(active := c.active - 1);
    if d.active > 0 then d
    else if d.closed then Unloaded(d)
    else if patient && d.Loaded() then d.(armed := true)
    else d
  }

  function Evicted(c: Core, generation: nat): Core {
    if c.closed || c.active > 0 || generation != c.generation then c else Unloaded(c.(armed := false))
  }

  function Closed(c: Core): Core {
    var d := Cancelled(c.(closed := true));
    if d.active == 0 then Unloaded(d) else d
  }

  // ---------------------------------------------------------------- the object

  /** A `threading.Timer` as far as the engine uses it. */
  class IdleTimer {
    const generation: nat
    var cancelled: bool

    constructor (generation: nat)
      ensures this.generation == generation && !cancelled
    {
      this.generation, cancelled := generation, false;
    }

    method Cancel()
      modifies this
      ensures cancelled
    {
      cancelled := true;
    }
  }

  class DraftEngine {
    const patient: bool
    var activeSessions: nat
    var closed: bool
    var idleTimer: IdleTimer?
    var idleGeneration: nat
    var asr: bool
    var formatter: bool
    var gpuHeld: bool

    function View(): Core
      reads this
    {
      Core(activeSessions, closed, idleTimer != null, idleGeneration, asr, formatter)
    }

    /** Only a session holds the GPU, and the timer on record is live and of the current generation. */
    ghost predicate Valid()
      reads this, idleTimer
    {
      && (gpuHeld ==> activeSessions > 0)
      && (idleTimer != null ==> activeSessions == 0 && !closed)
      && (idleTimer != null ==> !idleTimer.cancelled && idleTimer.generation == idleGeneration)
    }

    constructor (patient: bool)
      ensures Valid() && View() == Core(0, false, false, 0, false, false) && !gpuHeld && this.patient == patient
    {
      this.patient := patient;
      activeSessions, closed, idleTimer, idleGeneration, asr, formatter := 0, false, null, 0, false, false;
      gpuHeld := false;
    }

    method CancelIdleTimer()
      modifies this`idleTimer, this`idleGeneration, idleTimer
      ensures View() == Cancelled(old(View()))
      ensures old(idleTimer) != null ==> old(idleTimer).cancelled
    {
      idleGeneration := idleGeneration + 1;
      if idleTimer != null {
        idleTimer.Cancel();
        idleTimer := null;
      }
    }

    /** Entry to `model_session`; false is the closed-engine error. */
    method EnterSession() returns (ok: bool)
      requires Valid()
      modifies this, idleTimer
      ensures Valid() && gpuHeld == old(gpuHeld)
      ensures ok == !old(closed)
      ensures View() == if ok then Entered(old(View())) else old(View())
      ensures ok && old(idleTimer) != null ==> old(idleTimer).cancelled
    {
      if closed { return false; }
      CancelIdleTimer();
      activeSessions := activeSessions + 1;
      ok := true;
    }

    /** Exit from `model_session`, by a session that has given back the GPU. */
    method LeaveSession()
      requires Valid() && activeSessions > 0 && (gpuHeld ==> activeSessions > 1)
      modifies this
      ensures Valid() && gpuHeld == old(gpuHeld)
      ensures View() == Left(old(View()), patient)
      ensures idleTimer != old(idleTimer) ==> idleTimer != null && fresh(idleTimer)
    {
      activeSessions := activeSessions - 1;
      if activeSessions == 0 {
        if closed {
          UnloadModels();
        } else if patient && (asr || formatter) {
          idleTimer := new IdleTimer(idleGeneration);
        }
      }
    }

    /** `with self._gpu_lock` inside a session. */
    method TakeGpu()
      requires Valid() && activeSessions > 0 && !gpuHeld
      modifies this`gpuHeld
      ensures Valid() && gpuHeld && View() == old(View())
    {
      gpuHeld := true;
    }

    method GiveGpu()
      requires Valid() && gpuHeld
      modifies this`gpuHeld
      ensures Valid() && !gpuHeld && View() == old(View())
    {
      gpuHeld := false;
    }

    /** `_get_asr`, by the session that holds the GPU. */
    method GetAsr()
      requires Valid() && gpuHeld
      modifies this`asr
      ensures Valid() && View() == old(View()).(asr := true)
    {
      if !asr { asr := true; }
    }

    /** `_get_formatter`, likewise. */
    method GetFormatter()
      requires Valid() && gpuHeld
      modifies this`formatter
      ensures Valid() && View() == old(View()).(formatter := true)
    {
      if !formatter { formatter := true; }
    }

    /** The timer's callback. */
    method EvictIdleModels(generation: nat)
      requires Valid()
      modifies this
      ensures Valid() && gpuHeld == old(gpuHeld)
      ensures View() == Evicted(old(View()), generation)
    {
      if closed || activeSessions > 0 || generation != idleGeneration { return; }
      idleTimer := null;
      UnloadModels();
    }

    /** Every caller finds the GPU lock free. */
    method UnloadModels()
      requires !gpuHeld
      modifies this`asr, this`formatter
      ensures View() == Unloaded(old(View()))
    {
      if !asr && !formatter { return; }
      asr, formatter := false, false;
    }

    method Close()
      requires Valid()
      modifies this, idleTimer
      ensures Valid() && gpuHeld == old(gpuHeld)
      ensures View() == Closed(old(View()))
      ensures old(idleTimer) != null ==> old(idleTimer).cancelled
    {
      closed := true;
      CancelIdleTimer();
      if activeSessions == 0 { UnloadModels(); }
    }
  }
}
