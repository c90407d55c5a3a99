/**
 The supervision of the playback worker (`src/desktop/sequence_transport.cpp`): every event of the user
 interface, of the worker process and of its connection as one step. Positions are seconds.
 */
module Transports {
  import opened Wrappers

  datatype Message =
    | WorkerError
    | WorkerReady
    | VideoFrame(valid: bool)
    | Clock(sample: int)
    | WorkerEnded
    | Unknown
    | Malformed

  class Transport {
    /** A sequence has been opened, and how long it is. */
    var loaded: bool
    var duration: real
    var position: real
    var pending: bool
    var retiring: bool
    var playing: bool
    var loading: bool
    var generation: nat
    /** The worker whose connection is awaited, the one that is connected, and the one whose process exists. */
    var listening: Option<nat>
    var socket: Option<nat>
    var process: Option<nat>

    /** Worker processes that have not ended, how many were ever started, where the last seek went, and where each
        connected worker was told to begin. */
    ghost var live: set<nat>
    var started: nat
    ghost var sought: real
    ghost var begins: map<nat, real>

    ghost predicate Valid()
      reads this
    {
      && live == (if process.Some? then {process.value} else {})
      && (process.Some? ==> process.value < started)
      && (socket.Some? ==> socket == process && !retiring && socket.value in begins && begins[socket.value] == sought)
      && (listening.Some? ==> listening == process && !retiring && socket.None? && position == sought)
      && (process.Some? && !retiring ==> socket.Some? || listening.Some?)
      && (pending ==> process.Some? && retiring && position == sought)
      && (loading ==> pending || (process.Some? && !retiring))
      && 0.0 <= position <= duration
    }

    constructor ()
      ensures Valid() && process == None && !playing && !pending && duration == 0.0
    {
      loaded, duration, position, generation := false, 0.0, 0.0, 0;
      pending, retiring, playing, loading := false, false, false, false;
      listening, socket, process := None, None, None;
      live, started, sought, begins := {}, 0, 0.0, map[];
    }

    /** Gives the current worker up: its connection closes at once, and its process is killed but still has to end. */
    method Retire()
      modifies `generation, `listening, `socket, `retiring
      ensures listening == None && socket == None && generation == old(generation) + 1
      ensures retiring == (old(retiring) || process.Some?)
    {
      generation := generation + 1;
      listening, socket := None, None;
      if process.Some? {
        retiring := true;
      }
    }

    method Cancel()
      requires Valid()
      modifies this
      ensures Valid() && !pending && !playing && !loading && socket == None && listening == None
      ensures process == old(process) && live == old(live) && position == old(position) && duration == old(duration)
      ensures started == old(started) && sought == old(sought) && loaded == old(loaded)
      ensures retiring == (old(retiring) || process.Some?)
    {
      pending, playing, loading := false, false, false;
      Retire();
    }

    /** Starts a worker for the pending seek. `listens` says whether a connection could be opened. */
    method Start(listens: bool)
      requires pending ==> position == sought
      requires live == (if process.Some? then {process.value} else {}) && (process.Some? ==> process.value < started)
      requires socket == None && listening == None && 0.0 <= position <= duration
      requires process.Some? ==> Valid()
      requires process.None? && !pending ==> !loading
      modifies this
      ensures Valid() && position == old(position) && duration == old(duration) && sought == old(sought)
      ensures old(process).Some? || !old(pending) ==>
                && process == old(process) && started == old(started)
                && pending == old(pending) && playing == old(playing)
                && loading == old(loading) && retiring == old(retiring)
      ensures old(process).None? && old(pending) ==>
                && !pending
                && (position < duration && listens ==>
                      && process == Some(old(started)) && listening == process && loading && !retiring
                      && playing == old(playing))
                && (position >= duration || !listens ==> process == None && !playing && !loading)
      ensures loaded == old(loaded)
    {
      if !pending || process.Some? { return; }
      pending := false;
      if position >= duration {
        loading, playing := false, false;
        return;
      }
      if !listens {
        loading := false;
        Cancel();
        return;
      }
      process := Some(started);
      live := {started};
      listening := process;
      started := started + 1;
      retiring := false;
      loading := true;
    }

    /** `seek`: refused outside the sequence; otherwise the old worker is given up and the new position is what the next
        worker begins with, at once or as soon as the old process has ended. */
    method Seek(target: real, listens: bool) returns (ok: bool)
      requires Valid() && target >= 0.0
      modifies this
      ensures Valid() && ok == (target <= old(duration))
      ensures !ok ==> unchanged(this)
      ensures ok ==>
                position == sought == target && duration == old(duration) && socket == None && loaded == old(loaded)
      ensures ok && old(process).Some? ==>
                pending && retiring && process == old(process) && playing == old(playing) && started == old(started)
      ensures ok && old(process).None? ==>
                && !pending
                && (target < duration && listens ==>
                      && process == Some(old(started)) && listening == process
                      && !retiring && loading && playing == old(playing))
                && (target >= duration || !listens ==> process == None && !playing)
    {
      if target > duration { return false; }
      position := target;
      sought := target;
      pending, loading := true, true;
      Retire();
      if process.None? {
        Start(listens);
      }
      return true;
    }

    method Open(length: real, listens: bool)
      requires Valid() && length >= 0.0
      modifies this
      ensures Valid() && loaded && duration == length && position == 0.0 && !playing
      ensures length == 0.0 ==> !pending && process == old(process) && socket == None && listening == None
      ensures length > 0.0 && old(process).Some? ==> pending && retiring && sought == 0.0
      ensures length > 0.0 && old(process).None? && listens ==> process.Some? && listening == process && sought == 0.0
    {
      Cancel();
      loaded, duration, position := true, length, 0.0;
      if length != 0.0 {
        var _ := Seek(0.0, listens);
      }
    }

    /** A live worker will play, or a pending seek will start one. */
    predicate WillPlay()
      reads this
    {
      playing && (pending || (process.Some? && !retiring))
    }

    /** A given-up worker's process has not ended yet, and no seek waits for that. */
    predicate Deaf()
      reads this
    {
      process.Some? && retiring && !pending && position < duration
    }

    /**
     `play` on a non-empty sequence takes effect unless a cancelled worker's process has not ended yet (or,
     when there is no process, no new one can be reached).
     */
    method Play(listens: bool)
      requires Valid()
      modifies this
      ensures Valid() && duration == old(duration)
      ensures duration == 0.0 ==> unchanged(this)
      ensures duration > 0.0 && listens ==>
                (WillPlay() <==> !old(Deaf()))
      ensures old(Deaf()) ==> playing && process == old(process) && retiring && !pending && position == old(position)
      ensures duration > 0.0 ==>
                position == if old(position) >= old(duration) then 0.0 else old(position)
      ensures duration > 0.0 && old(position < duration && (process.Some? || pending)) ==>
                && playing && process == old(process) && pending == old(pending) && loading == old(loading)
                && retiring == old(retiring) && socket == old(socket) && listening == old(listening)
                && started == old(started) && sought == old(sought)
      ensures duration > 0.0 && old(position >= duration || (process.None? && !pending)) ==>
                && sought == position
                && (old(process).Some? ==> pending && retiring && process == old(process))
                && (old(process).None? && listens ==> process == Some(old(started)) && listening == process && loading)
    {
      if duration == 0.0 { return; }
      playing := true;
      if position >= duration {
        var _ := Seek(0.0, listens);
        return;
      }
      if process.None? && !pending {
        var _ := Seek(position, listens);
      }
    }

    method Pause(listens: bool)
      requires Valid()
      modifies this
      ensures Valid() && !playing && position == old(position)
      ensures loaded && old(process).Some? ==> pending && retiring && sought == position
    {
      playing := false;
      if loaded {
        var _ := Seek(position, listens);
      }
    }

    // ----- events of the worker

    /** A connection arrives at the name that worker `w` was given. `fits`: the project is small enough to be sent. */
    method Connect(w: nat, fits: bool)
      requires Valid()
      modifies this
      ensures Valid() && process == old(process) && sought == old(sought)
      ensures old(listening) != Some(w) ==> unchanged(this)
      ensures old(listening) == Some(w) && fits ==> socket == Some(w) && begins[w] == sought && !retiring
      ensures old(listening) == Some(w) && !fits ==> socket == None && retiring && !playing
    {
      if listening != Some(w) { return; }
      if socket.Some? || retiring || process.None? { return; }
      socket := listening;
      listening := None;
      begins := begins[w := position];
      if !fits {
        Cancel();
      }
    }

    /** The process of worker `w` could not be started. */
    method StartFails(w: nat)
      requires Valid()
      modifies this
      ensures Valid() && w !in live
      ensures old(process) != Some(w) ==> unchanged(this)
      ensures old(process) == Some(w) ==> process == None && !pending && !playing && !loading
    {
      if process != Some(w) { return; }
      live := live - {w};
      process := None;
      pending, playing, loading := false, false, false;
      Retire();
    }

    /** The process of worker `w` has ended. An expected end makes room for the worker of a pending seek. */
    method Finishes(w: nat, listens: bool)
      requires Valid()
      modifies this
      ensures Valid() && w !in live
      ensures old(process) != Some(w) ==> unchanged(this)
      ensures old(process) == Some(w) && !old(retiring) ==> process == None && !playing && !pending
      ensures old(process) == Some(w) && old(pending) && position < duration && listens ==>
                && process == Some(old(started)) && listening == process && position == sought == old(sought)
                && playing == old(playing)
      ensures old(process) == Some(w) && old(retiring) && !old(pending) ==>
                process == None && !retiring && !pending && playing == old(playing)
    {
      if process != Some(w) { return; }
      process := None;
      live := live - {w};
      if !retiring {
        pending, playing, loading := false, false, false;
        Retire();
        return;
      }
      retiring := false;
      if pending {
        Start(listens);
      }
    }

    /** The connection of worker `w` breaks. */
    method Disconnects(w: nat)
      requires Valid()
      modifies this
      ensures Valid() && process == old(process)
      ensures old(socket) != Some(w) ==> unchanged(this)
      ensures old(socket) == Some(w) ==> socket == None && retiring && !playing
    {
      if socket != Some(w) { return; }
      if !retiring && process.Some? {
        Cancel();
      }
    }

    /** The timer: a worker that loads too long or stops reporting is given up. */
    method Tick(lateLoading: bool, lateProgress: bool)
      requires Valid()
      modifies this
      ensures Valid() && process == old(process)
      ensures var late := (old(loading) && lateLoading) || (old(playing) && !old(loading) && lateProgress);
              if old(process).Some? && !old(retiring) && late then !playing && !loading && retiring else unchanged(this)
    {
      if process.Some? && !retiring && ((loading && lateLoading) || (playing && !loading && lateProgress)) {
        Cancel();
      }
    }

    /** One message from worker `w`. What a retired worker still sends changes nothing. */
    method Receive(w: nat, message: Message)
      requires Valid()
      modifies this
      ensures Valid() && process == old(process) && sought == old(sought) && duration == old(duration)
      ensures old(socket) != Some(w) ==> unchanged(this)
      ensures old(socket) == Some(w) ==>
                match message
                case WorkerReady =>
                  !loading && playing == old(playing) && position == old(position) && socket == Some(w)
                case Clock(sample) =>
                  if !old(playing) then unchanged(this)
                  else if sample < 0 then !playing && retiring && position == old(position)
                  else position == (if sample as real / 48000.0 < duration then sample as real / 48000.0 else duration)
                       && playing && socket == Some(w)
                case WorkerEnded => position == duration && !playing && !loading && retiring
                case VideoFrame(valid) => if valid then unchanged(this) else !playing && retiring
                case Unknown => unchanged(this)
                case WorkerError => !playing && retiring && position == old(position)
                case Malformed => !playing && retiring && position == old(position)
    {
      if socket != Some(w) || retiring { return; }
      match message
      case WorkerReady =>
        loading := false;
      case Clock(sample) =>
        if playing {
          if sample < 0 {
            Cancel();
          } else {
            var reached := sample as real / 48000.0;
            position := if reached < duration then reached else duration;
          }
        }
      case WorkerEnded =>
        position := duration;
        playing, loading := false, false;
        Retire();
      case VideoFrame(valid) =>
        if !valid { Cancel(); }
      case Unknown =>
      case WorkerError =>
        Cancel();
      case Malformed =>
        Cancel();
    }

    /** `play` pressed between a cancellation and the end of the cancelled process is lost: no worker plays, none is
        pending, and the end of the process starts none, although the transport calls itself playing. */
    method LostPlay(w: nat, listens: bool)
      requires Valid() && socket == Some(w) && position < duration
      modifies this
      ensures Valid() && playing && process == None && !pending
    {
      Cancel();
      Play(listens);
      Finishes(w, listens);
    }
  }
}
