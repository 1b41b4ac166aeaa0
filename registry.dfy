/** The session table `_interfaces` of class BME280 (include/bme280.h:182) with `instance()`
    and the destructor (source/bme280.cpp:24-55). The table maps a device path to the one
    live session on it; the shared pointers handed out are counted in `owners`, and the
    last release runs the destructor. `files` is the file system: the device file behind
    each path. */
module Registry {
  import opened Errors
  import opened Machine
  import opened Defs
  import opened Control
  import opened Bus
  import opened Session

  /** Lines 35-41 of instance(): set the address, then run the start-up sequence unless the
      session is already opened. */
  method StartIfClosed(session: Bme280, address: UInt16, config: Config, now: int) returns (outcome: Outcome)
    requires session.Valid() && now > 0
    modifies session, session.bus, session.bus.regs
    ensures session.address == address
    ensures old(session.Opened()) ==>
      outcome == Pass && session.bus.log == old(session.bus.log) && session.config == old(session.config) &&
      session.calibration == old(session.calibration) && session.handle == old(session.handle)
    ensures outcome.Pass? ==> session.Opened()
    ensures !old(session.Opened()) && outcome.Pass? ==> session.WasCalibration() && session.config == Some(config)
    ensures !old(session.Opened()) ==>
      session.handle == (if |old(session.bus.log)| in session.bus.faults then CLOSE else session.bus.fd) &&
      (session.Opened() <==> |old(session.bus.log)| !in session.bus.faults)
    ensures !old(session.Opened()) ==>
      |old(session.bus.log)| < |session.bus.log| && session.bus.log[..|old(session.bus.log)|] == old(session.bus.log) &&
      session.bus.log[|old(session.bus.log)|] == OpenCall
    ensures !old(session.Opened()) && |old(session.bus.log)| in session.bus.faults ==>
      outcome == Fail(IoError) && session.bus.log == old(session.bus.log) + [OpenCall]
  {
    session.address := address;
    outcome := Pass;
    if !session.Opened() {
      outcome := session.Start(config, now);
    }
  }

  /** The part of instance() that talks to the device: the start-up of lines 35-41 and, for a
      session this call created, the close its destructor makes when the start-up fails. */
  method StartOrDiscard(session: Bme280, created: bool, address: UInt16, config: Config, now: int)
    returns (outcome: Outcome)
    requires session.Valid() && now > 0
    requires created ==> !session.Opened()
    modifies session, session.bus, session.bus.regs
    ensures session.address == address
    ensures old(session.Opened()) ==>
      outcome == Pass && session.bus.log == old(session.bus.log) && session.config == old(session.config) &&
      session.calibration == old(session.calibration) && session.handle == old(session.handle)
    ensures outcome.Pass? ==> session.Opened()
    ensures !old(session.Opened()) && outcome.Pass? ==> session.WasCalibration() && session.config == Some(config)
    ensures !created && !old(session.Opened()) ==>
      session.handle == (if |old(session.bus.log)| in session.bus.faults then CLOSE else session.bus.fd) &&
      (session.Opened() <==> |old(session.bus.log)| !in session.bus.faults)
    ensures created && outcome.Pass? ==> session.handle == session.bus.fd
    ensures created && outcome.Fail? && |old(session.bus.log)| in session.bus.faults ==>
      session.bus.log == old(session.bus.log) + [OpenCall] && !session.Opened()
    ensures created && outcome.Fail? && |old(session.bus.log)| !in session.bus.faults ==>
      var n := |session.bus.log|;
      |old(session.bus.log)| + 1 < n && session.bus.log[..|old(session.bus.log)|] == old(session.bus.log) &&
      session.bus.log[|old(session.bus.log)|] == OpenCall && session.bus.log[n - 1] == CloseCall &&
      session.handle == (if n - 1 in session.bus.faults then session.bus.fd else CLOSE)
  {
    outcome := StartIfClosed(session, address, config, now);
    if outcome.Fail? && created {
      var _ := session.Close();
    }
  }

  class Registry {
    /** `_interfaces`: the live session of each path. */
    var sessions: map<string, Bme280>
    /** How many shared pointers to each live session are held. */
    var owners: map<string, nat>
    /** The device file behind each path. */
    const files: map<string, I2cBus>

    /** Every session sits under its own device path, talks to the device file of that path,
        and has at least one owner. */
    predicate Valid()
      reads this
    {
      && sessions.Keys == owners.Keys
      && (forall p :: p in files ==> files[p].Valid())
      && (forall p :: p in sessions ==>
            && sessions[p].device == p
            && p in files && sessions[p].bus == files[p]
            && owners[p] > 0)
    }

    /** An empty table. */
    constructor (files: map<string, I2cBus>)
      requires forall p :: p in files ==> files[p].Valid()
      ensures Valid() && this.files == files && sessions == map[] && owners == map[]
    {
      this.files := files;
      sessions := map[];
      owners := map[];
    }

    /** The table holds at most one session per path: two paths never share a session. */
    lemma {:induction false} OneSessionPerPath(p: string, q: string)
      requires Valid() && p in sessions && q in sessions && p != q
      ensures sessions[p] != sessions[q]
    {
      assert sessions[p].device == p && sessions[q].device == q;
    }

    /** `instance(file, address, config)`: the session of the path, created when there is none.
        The address is overwritten on every call; the start-up sequence runs only on a session
        that is not opened. A failure of a new session's start-up destroys it: its handle is
        closed and the path leaves the table. */
    method Instance(path: string, address: UInt16, config: Config, now: int) returns (session: Bme280, outcome: Outcome)
      requires Valid() && path in files && now > 0
      modifies this, files[path], files[path].regs, if path in sessions then {sessions[path]} else {}
      ensures Valid()
      ensures session.device == path && session.bus == files[path]
      ensures path in old(sessions) ==> session == old(sessions[path])
      ensures path !in old(sessions) ==> fresh(session)
      ensures session.address == address
      ensures path in old(sessions) && old(sessions[path].Opened()) ==>
        outcome == Pass && files[path].log == old(files[path].log) &&
        session.config == old(sessions[path].config) && session.calibration == old(sessions[path].calibration) &&
        session.handle == old(sessions[path].handle)
      ensures outcome.Pass? ==> session.Opened()
      ensures (path !in old(sessions) || !old(sessions[path].Opened())) && outcome.Pass? ==>
        session.WasCalibration() && session.config == Some(config)
      ensures outcome.Pass? ==>
        sessions == old(sessions)[path := session] &&
        owners == old(owners)[path := if path in old(owners) then old(owners)[path] + 1 else 1]
      ensures outcome.Fail? ==> owners == old(owners)
      ensures outcome.Fail? ==> sessions == old(sessions)
      ensures path in old(sessions) && !old(sessions[path].Opened()) ==>
        session.handle == (if |old(files[path].log)| in files[path].faults then CLOSE else files[path].fd) &&
        (session.Opened() <==> |old(files[path].log)| !in files[path].faults)
      ensures path !in old(sessions) && outcome.Pass? ==> session.handle == files[path].fd
      ensures path !in old(sessions) && outcome.Fail? && |old(files[path].log)| in files[path].faults ==>
        files[path].log == old(files[path].log) + [OpenCall] && !session.Opened()
      ensures path !in old(sessions) && outcome.Fail? && |old(files[path].log)| !in files[path].faults ==>
        var n := |files[path].log|;
        |old(files[path].log)| + 1 < n && files[path].log[..|old(files[path].log)|] == old(files[path].log) &&
        files[path].log[|old(files[path].log)|] == OpenCall && files[path].log[n - 1] == CloseCall &&
        session.handle == (if n - 1 in files[path].faults then files[path].fd else CLOSE)
    {
      // The new entry is written into the table only once the start-up has succeeded; a
      // failed one would be erased again by the destructor, with nothing in between.
      var created := path !in sessions;
      if created {
        session := new Bme280(path, files[path]);
      } else {
        session := sessions[path];
      }
      outcome := StartOrDiscard(session, created, address, config, now);
      if outcome.Pass? {
        Register(path, session);
      }
    }

    /** The table entry of a session whose start-up succeeded, with one more owner. */
    method Register(path: string, session: Bme280)
      requires Valid() && path in files && session.device == path && session.bus == files[path]
      modifies this
      ensures Valid()
      ensures sessions == old(sessions)[path := session]
      ensures owners == old(owners)[path := if path in old(owners) then old(owners)[path] + 1 else 1]
    {
      var count := if path in owners then owners[path] + 1 else 1;
      sessions := sessions[path := session];
      owners := owners[path := count];
    }

    /** Dropping one shared pointer. The last one runs `~BME280`: close, then erase the path. */
    method Release(path: string) returns (outcome: Outcome)
      requires Valid() && path in sessions
      modifies this, sessions[path], sessions[path].bus
      ensures Valid()
      ensures old(owners[path]) > 1 ==>
        outcome == Pass && sessions == old(sessions) && owners == old(owners)[path := old(owners[path]) - 1] &&
        old(sessions[path]).bus.log == old(sessions[path].bus.log)
      ensures old(owners[path]) > 1 ==>
        var session := old(sessions[path]);
        session.handle == old(session.handle) && session.address == old(session.address) &&
        session.config == old(session.config) && session.calibration == old(session.calibration)
      ensures old(owners[path]) == 1 ==>
        sessions == old(sessions) - {path} && owners == old(owners) - {path}
      ensures old(owners[path]) == 1 && old(sessions[path].Opened()) ==>
        old(sessions[path]).bus.log == old(sessions[path].bus.log) + [CloseCall] &&
        (outcome.Pass? <==> !old(sessions[path]).Opened())
      ensures old(owners[path]) == 1 && !old(sessions[path].Opened()) ==>
        outcome == Pass && old(sessions[path]).bus.log == old(sessions[path].bus.log)
    {
      var session := sessions[path];
      if owners[path] > 1 {
        owners := owners[path := owners[path] - 1];
        return Pass;
      }
      outcome := session.Close();
      sessions := sessions - {path};
      owners := owners - {path};
    }
  }
}
